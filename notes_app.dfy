/** The top-level notes screen: its state cells, the handlers that update
    them, the parameters of the list request, the sort select, and which
    panel the main area shows. */
module NotesApp {
  import opened Text
  import opened NoteModel
  import opened UseNotes
  import NotesRoute
  import PaginationView

  /** Every list request asks for ten notes. */
  const PageSize := 10

  /** The query parameters the list request is sent with. */
  datatype FetchParams = FetchParams(
    page: int, limit: int, search: string, tags: string, sortBy: string, sortOrder: string)

  /** The fetch effect's `params` object. */
  function ParamsOf(page: int, search: string, tags: seq<string>, sortBy: string, sortOrder: string): FetchParams {
    FetchParams(page, PageSize, search, Join(tags, ","), sortBy, sortOrder)
  }

  /** The server reads the request as it was meant: ten notes per page,
      the search box as the text filter, absent exactly when the box is
      empty, the selected tags joined by commas as the tags parameter, and,
      for selected tags in the form the server stores (lower case, trimmed,
      non-empty) without commas, exactly the selected tags as the OR filter,
      or no tag constraint when none is selected. */
  lemma ParamsReachServer(page: int, search: string, tags: seq<string>, sortBy: string, sortOrder: string)
    requires forall i :: 0 <= i < |tags| ==> NotesRoute.IsCanonicalTag(tags[i]) && ',' !in tags[i]
    ensures var p := ParamsOf(page, search, tags, sortBy, sortOrder);
      && p.limit == PageSize && p.search == search && p.tags == Join(tags, ",")
      && NotesRoute.BuildQuery(p.search, p.tags).text == (if search == "" then None else Some(search))
      && NotesRoute.BuildQuery(p.search, p.tags).tags == if tags == [] then None else Some(tags)
  {
    NotesRoute.SelectedTagsRoundTrip(tags);
  }

  /** The pagination control the screen passes `pagination.pages` to is
      shown exactly when more than one page of ten notes matches; with no
      matching notes the page count is zero and the control is hidden. */
  lemma PaginationShownIffSeveralPages(page: int, total: nat)
    ensures PaginationView.IsRendered(NotesRoute.Meta(page, PageSize, total).pages) <==> total > PageSize
    ensures total == 0 ==> NotesRoute.Meta(page, PageSize, total).pages == 0
  {
    var pages := NotesRoute.TotalPages(total, PageSize);
    if total > 0 {
      assert (pages - 1) * PageSize < total <= pages * PageSize;
    }
  }

  // ---------------------------------------------------------------- the sort select

  /** `${sortBy}-${sortOrder}`: the value of the select. */
  function SortValue(sortBy: string, sortOrder: string): string {
    sortBy + "-" + sortOrder
  }

  /** `value.split('-')` destructured into two names; a value without a dash
      leaves the order undefined. */
  function DecodeSortValue(value: string): (string, Option<string>) {
    var parts := Split(value, '-');
    (parts[0], if |parts| > 1 then Some(parts[1]) else None)
  }

  /** Decoding undoes encoding when neither half contains a dash. */
  lemma DecodeSortValueRoundTrip(sortBy: string, sortOrder: string)
    requires '-' !in sortBy && '-' !in sortOrder
    ensures DecodeSortValue(SortValue(sortBy, sortOrder)) == (sortBy, Some(sortOrder))
  {
    assert SortValue(sortBy, sortOrder) == sortBy + ['-'] + sortOrder;
    SplitAfterPiece(sortBy, '-', sortOrder);
    SplitOfFree(sortOrder, '-');
  }

  /** The six options of the select, as (field, order) pairs. */
  const SortChoices: seq<(string, string)> := [
    ("updatedAt", "desc"), ("updatedAt", "asc"),
    ("createdAt", "desc"), ("createdAt", "asc"),
    ("title", "asc"), ("title", "desc")]

  /** The sort field a field name stands for on the server. */
  function FieldNamed(name: string): Option<NotesRoute.SortField> {
    if name == "updatedAt" then Some(NotesRoute.UpdatedAt)
    else if name == "createdAt" then Some(NotesRoute.CreatedAt)
    else if name == "title" then Some(NotesRoute.Title)
    else None
  }

  /** `value` is one of the six option values. */
  predicate IsSortOption(value: string) {
    exists k :: 0 <= k < |SortChoices| && value == SortValue(SortChoices[k].0, SortChoices[k].1)
  }

  /** Choosing any of the six options hands back its field and order, so
      the select shows the option just chosen; each field is one the
      server sorts by, and each order is "asc" or "desc". */
  lemma SortOptionsRoundTrip(k: nat)
    requires k < |SortChoices|
    ensures var (field, order) := SortChoices[k];
      && DecodeSortValue(SortValue(field, order)) == (field, Some(order))
      && FieldNamed(field).Some?
      && (order == "asc" || order == "desc")
  {
    var (field, order) := SortChoices[k];
    assert '-' !in field && '-' !in order;
    DecodeSortValueRoundTrip(field, order);
  }

  /** Two select values are equal only when their halves are, as long as
      one pair has no dash. */
  lemma SortValueInjective(a: string, b: string, c: string, d: string)
    requires '-' !in c && '-' !in d
    requires SortValue(a, b) == SortValue(c, d)
    ensures a == c && b == d
  {
    var v := SortValue(c, d);
    assert v[|a|] == '-';
    assert forall i :: 0 <= i < |c| ==> v[i] == c[i];
    assert forall i :: |c| < i < |v| ==> v[i] == d[i - |c| - 1];
    assert |a| == |c|;
    assert a == v[..|a|] && c == v[..|c|];
    assert b == v[|a| + 1..] && d == v[|c| + 1..];
  }

  /** Sort cells that form one of the select's options name a field the
      server sorts by and the order "asc" or "desc". */
  lemma SortOptionFields(sortBy: string, sortOrder: string)
    ensures IsSortOption(SortValue(sortBy, sortOrder)) ==>
      FieldNamed(sortBy).Some? && (sortOrder == "asc" || sortOrder == "desc")
  {
    if IsSortOption(SortValue(sortBy, sortOrder)) {
      var k :| 0 <= k < |SortChoices| && SortValue(sortBy, sortOrder) == SortValue(SortChoices[k].0, SortChoices[k].1);
      SortOptionsRoundTrip(k);
      assert '-' !in SortChoices[k].0 && '-' !in SortChoices[k].1;
      SortValueInjective(sortBy, sortOrder, SortChoices[k].0, SortChoices[k].1);
    }
  }

  // ---------------------------------------------------------------- the main panel

  /** What the main area shows. */
  datatype Panel = EditorPanel(editing: Option<Note>) | Viewer(shown: Note) | Welcome

  function PanelOf(isEditing: bool, selected: Option<Note>): Panel {
    if isEditing then EditorPanel(selected)
    else if selected.Some? then Viewer(selected.value)
    else Welcome
  }

  /** Where the editor's save goes. */
  datatype SaveRoute = CreateRoute | UpdateRoute(id: Id)

  function SaveRouteOf(selected: Option<Note>): SaveRoute {
    if selected.Some? then UpdateRoute(selected.value.id) else CreateRoute
  }

  /** The editor edits the selected note, if any, and saves it by update
      under that note's id; with no selection it creates a note. Outside
      editing the selected note is viewed, and without one the welcome
      text shows. */
  lemma PanelAndRouteAgree(isEditing: bool, selected: Option<Note>)
    ensures isEditing ==> PanelOf(isEditing, selected).EditorPanel? && PanelOf(isEditing, selected).editing == selected
    ensures selected.Some? ==> SaveRouteOf(selected) == UpdateRoute(selected.value.id)
    ensures selected.None? <==> SaveRouteOf(selected) == CreateRoute
    ensures !isEditing ==> (PanelOf(isEditing, selected) == Welcome <==> selected.None?)
    ensures !isEditing && selected.Some? ==> PanelOf(isEditing, selected) == Viewer(selected.value)
  {
  }

  // ---------------------------------------------------------------- the screen

  /** The filter cells the list request depends on. */
  datatype Filters = Filters(
    searchQuery: string, selectedTags: seq<string>, currentPage: int, sortBy: string, sortOrder: string)

  class App {
    const store: NotesState
    var selectedNote: Option<Note>
    var isEditing: bool
    var searchQuery: string
    var selectedTags: seq<string>
    var availableTags: seq<string>
    var currentPage: int
    var sortBy: string
    var sortOrder: string

    /** The page is at least one and the sort cells form one of the
        select's options. */
    ghost predicate Valid()
      reads this
    {
      currentPage >= 1 && IsSortOption(SortValue(sortBy, sortOrder))
    }

    function CurrentFilters(): Filters
      reads this
    {
      Filters(searchQuery, selectedTags, currentPage, sortBy, sortOrder)
    }

    /** The list request the fetch effect sends for the current cells: the
        current page, ten notes, the search box, the selected tags joined by
        commas and the two sort cells. The server applies the search text
        as its filter, none when the box is empty, and, for selected tags in
        the form the server stores and without commas, reads back exactly
        the selected tags as its OR filter, or no tag constraint when none
        is selected. In a valid state the request meets what the list
        handler needs: a page of at least one and a field it sorts by. */
    function Params(): (p: FetchParams)
      reads this
      ensures p.page == currentPage && p.limit == PageSize
      ensures p.search == searchQuery && p.tags == Join(selectedTags, ",")
      ensures p.sortBy == sortBy && p.sortOrder == sortOrder
      ensures NotesRoute.BuildQuery(p.search, p.tags).text == if searchQuery == "" then None else Some(searchQuery)
      ensures (forall i :: 0 <= i < |selectedTags| ==>
                 NotesRoute.IsCanonicalTag(selectedTags[i]) && ',' !in selectedTags[i]) ==>
        NotesRoute.BuildQuery(p.search, p.tags).tags == if selectedTags == [] then None else Some(selectedTags)
      ensures Valid() ==>
        p.page >= 1 && FieldNamed(p.sortBy).Some? && (p.sortOrder == "asc" || p.sortOrder == "desc")
    {
      SortOptionFields(sortBy, sortOrder);
      if forall i :: 0 <= i < |selectedTags| ==>
          NotesRoute.IsCanonicalTag(selectedTags[i]) && ',' !in selectedTags[i]
      then
        ParamsReachServer(currentPage, searchQuery, selectedTags, sortBy, sortOrder);
        ParamsOf(currentPage, searchQuery, selectedTags, sortBy, sortOrder)
      else
        ParamsOf(currentPage, searchQuery, selectedTags, sortBy, sortOrder)
    }

    function MainPanel(): Panel
      reads this
    {
      PanelOf(isEditing, selectedNote)
    }

    /** Page one, latest updated first, no search, no tags, nothing
        selected, not editing. */
    constructor ()
      ensures fresh(store) && Valid()
      ensures selectedNote == None && !isEditing && searchQuery == "" && selectedTags == []
      ensures availableTags == [] && currentPage == 1 && sortBy == "updatedAt" && sortOrder == "desc"
      ensures store.notes == [] && !store.loading && store.error == None && store.pagination == None
    {
      store := new NotesState();
      selectedNote := None;
      isEditing := false;
      searchQuery := "";
      selectedTags := [];
      availableTags := [];
      currentPage := 1;
      sortBy := "updatedAt";
      sortOrder := "desc";
      new;
      assert SortValue(sortBy, sortOrder) == SortValue(SortChoices[0].0, SortChoices[0].1);
    }

    /** `handleCreateNote`: on success the new note is selected, editing
        ends and the first page is shown; a failure changes none of these
        (the store records the error). */
    method HandleCreateNote(response: Result<Note, ApiFailure>)
      requires Valid()
      modifies this, store
      ensures Valid() && availableTags == old(availableTags)
      ensures store.loading == old(store.loading) && store.pagination == old(store.pagination)
      ensures response.Ok? ==>
        && selectedNote == Some(response.value) && !isEditing
        && CurrentFilters() == old(CurrentFilters()).(currentPage := 1)
        && store.notes == [response.value] + old(store.notes) && store.error == None
      ensures response.Err? ==>
        && selectedNote == old(selectedNote) && isEditing == old(isEditing)
        && CurrentFilters() == old(CurrentFilters())
        && store.notes == old(store.notes) && store.error == Some(ErrorText(response.error, CreateFailed))
    {
      var r := store.CreateNote(response);
      if r.Ok? {
        selectedNote := Some(r.value);
        isEditing := false;
        currentPage := 1;
      }
    }

    /** `handleUpdateNote`: on success the answer is selected and editing
        ends; a failure changes neither. */
    method HandleUpdateNote(id: Id, response: Result<Note, ApiFailure>)
      requires Valid()
      modifies this, store
      ensures Valid() && availableTags == old(availableTags) && CurrentFilters() == old(CurrentFilters())
      ensures store.loading == old(store.loading) && store.pagination == old(store.pagination)
      ensures response.Ok? ==>
        && selectedNote == Some(response.value) && !isEditing
        && store.notes == ReplaceById(old(store.notes), id, response.value) && store.error == None
      ensures response.Err? ==>
        && selectedNote == old(selectedNote) && isEditing == old(isEditing)
        && store.notes == old(store.notes) && store.error == Some(ErrorText(response.error, UpdateFailed))
    {
      var r := store.UpdateNote(id, response);
      if r.Ok? {
        selectedNote := Some(r.value);
        isEditing := false;
      }
    }

    /** The editor's `onSave`: an update of the selected note, or a create
        when nothing is selected. */
    method HandleEditorSave(response: Result<Note, ApiFailure>)
      requires Valid()
      modifies this, store
      ensures Valid() && availableTags == old(availableTags)
      ensures store.loading == old(store.loading) && store.pagination == old(store.pagination)
      ensures response.Ok? ==> selectedNote == Some(response.value) && !isEditing && store.error == None
      ensures response.Ok? && old(selectedNote).Some? ==>
        store.notes == ReplaceById(old(store.notes), old(selectedNote).value.id, response.value)
        && CurrentFilters() == old(CurrentFilters())
      ensures response.Ok? && old(selectedNote).None? ==>
        store.notes == [response.value] + old(store.notes)
        && CurrentFilters() == old(CurrentFilters()).(currentPage := 1)
      ensures response.Err? ==>
        selectedNote == old(selectedNote) && isEditing == old(isEditing)
        && store.notes == old(store.notes) && CurrentFilters() == old(CurrentFilters())
        && store.error == Some(ErrorText(response.error,
                                         if old(selectedNote).Some? then UpdateFailed else CreateFailed))
    {
      match SaveRouteOf(selectedNote)
      case UpdateRoute(id) =>
        HandleUpdateNote(id, response);
      case CreateRoute =>
        HandleCreateNote(response);
    }

    /** `handleDeleteNote`: nothing happens unless confirmed; a confirmed,
        successful delete clears the selection and editing exactly when
        the deleted note was the selected one. */
    method HandleDeleteNote(id: Id, confirmed: bool, failure: Option<ApiFailure>)
      requires Valid()
      modifies this, store
      ensures Valid() && availableTags == old(availableTags) && CurrentFilters() == old(CurrentFilters())
      ensures store.loading == old(store.loading) && store.pagination == old(store.pagination)
      ensures !confirmed ==>
        && selectedNote == old(selectedNote) && isEditing == old(isEditing)
        && store.notes == old(store.notes) && store.error == old(store.error)
      ensures confirmed && failure.Some? ==>
        && selectedNote == old(selectedNote) && isEditing == old(isEditing)
        && store.notes == old(store.notes) && store.error == Some(ErrorText(failure.value, DeleteFailed))
      ensures confirmed && failure.None? ==>
        && store.notes == RemoveById(old(store.notes), id) && store.error == None
        && var wasSelected := old(selectedNote).Some? && old(selectedNote).value.id == id;
           (wasSelected ==> selectedNote == None && !isEditing)
           && (!wasSelected ==> selectedNote == old(selectedNote) && isEditing == old(isEditing))
    {
      if confirmed {
        var r := store.DeleteNote(id, failure);
        if r.Ok? && selectedNote.Some? && selectedNote.value.id == id {
          selectedNote := None;
          isEditing := false;
        }
      }
    }

    /** `handleNoteSelect`: show the note, stop editing. */
    method HandleNoteSelect(note: Note)
      modifies this
      ensures selectedNote == Some(note) && !isEditing
      ensures CurrentFilters() == old(CurrentFilters()) && availableTags == old(availableTags)
    {
      selectedNote := Some(note);
      isEditing := false;
    }

    /** `handleNewNote`: an empty editor for a new note. */
    method HandleNewNote()
      modifies this
      ensures selectedNote == None && isEditing
      ensures MainPanel() == EditorPanel(None) && SaveRouteOf(selectedNote) == CreateRoute
      ensures CurrentFilters() == old(CurrentFilters()) && availableTags == old(availableTags)
    {
      selectedNote := None;
      isEditing := true;
    }

    /** `handleEditNote`: edit the selected note, which stays selected. */
    method HandleEditNote()
      modifies this
      ensures isEditing && selectedNote == old(selectedNote)
      ensures MainPanel() == EditorPanel(selectedNote)
      ensures CurrentFilters() == old(CurrentFilters()) && availableTags == old(availableTags)
    {
      isEditing := true;
    }

    /** `handleCancelEdit`: stop editing; the selection stays as it was
        (clearing an already empty selection changes nothing). */
    method HandleCancelEdit()
      modifies this
      ensures !isEditing && selectedNote == old(selectedNote)
      ensures CurrentFilters() == old(CurrentFilters()) && availableTags == old(availableTags)
    {
      isEditing := false;
      if selectedNote.None? {
        selectedNote := None;
      }
    }

    /** `handleSearch`: a new query starts again at page one. */
    method HandleSearch(query: string)
      requires Valid()
      modifies this
      ensures Valid()
      ensures CurrentFilters() == old(CurrentFilters()).(searchQuery := query, currentPage := 1)
      ensures selectedNote == old(selectedNote) && isEditing == old(isEditing) && availableTags == old(availableTags)
    {
      searchQuery := query;
      currentPage := 1;
    }

    /** `handleTagFilter`: a new tag selection starts again at page one. */
    method HandleTagFilter(tags: seq<string>)
      requires Valid()
      modifies this
      ensures Valid()
      ensures CurrentFilters() == old(CurrentFilters()).(selectedTags := tags, currentPage := 1)
      ensures selectedNote == old(selectedNote) && isEditing == old(isEditing) && availableTags == old(availableTags)
    {
      selectedTags := tags;
      currentPage := 1;
    }

    /** `handleSortChange`: only the two sort cells change; the page is
        kept. */
    method HandleSortChange(newSortBy: string, newSortOrder: string)
      modifies this
      ensures CurrentFilters() == old(CurrentFilters()).(sortBy := newSortBy, sortOrder := newSortOrder)
      ensures selectedNote == old(selectedNote) && isEditing == old(isEditing) && availableTags == old(availableTags)
    {
      sortBy := newSortBy;
      sortOrder := newSortOrder;
    }

    /** The select's `onChange` for one of its six options: the option's
        field and order become the sort cells. */
    method SortSelectChanged(k: nat)
      requires Valid() && k < |SortChoices|
      modifies this
      ensures Valid()
      ensures (sortBy, sortOrder) == SortChoices[k]
      ensures CurrentFilters() == old(CurrentFilters()).(sortBy := SortChoices[k].0, sortOrder := SortChoices[k].1)
      ensures selectedNote == old(selectedNote) && isEditing == old(isEditing) && availableTags == old(availableTags)
    {
      var value := SortValue(SortChoices[k].0, SortChoices[k].1);
      SortOptionsRoundTrip(k);
      var (newSortBy, newSortOrder) := DecodeSortValue(value);
      HandleSortChange(newSortBy, newSortOrder.value);
    }

    /** The pagination control's `onPageChange`, which only ever asks for
        a page of at least one. */
    method ChangePage(page: int)
      requires Valid() && page >= 1
      modifies this
      ensures Valid()
      ensures CurrentFilters() == old(CurrentFilters()).(currentPage := page)
      ensures selectedNote == old(selectedNote) && isEditing == old(isEditing) && availableTags == old(availableTags)
    {
      currentPage := page;
    }

    /** The tag effect: the listing on success; a failure is only logged. */
    method TagsFetched(response: Option<seq<string>>)
      modifies this
      ensures availableTags == if response.Some? then response.value else old(availableTags)
      ensures CurrentFilters() == old(CurrentFilters())
      ensures selectedNote == old(selectedNote) && isEditing == old(isEditing)
    {
      if response.Some? {
        availableTags := response.value;
      }
    }
  }
}
