/** The server's note routes: listing with tag filter, sort and pagination,
    the distinct tag listing, and create / read / update / delete over an
    in-memory store that stands for the database collection. */
module NotesRoute {
  import opened Text
  import opened Collections
  import opened NoteModel

  datatype ApiError = BadRequest(message: string) | NotFound(message: string)

  const RequiredMessage := "Title and content are required"
  const NotFoundMessage := "Note not found"
  const DeletedMessage := "Note deleted successfully"

  // ---------------------------------------------------------------- tag canonicalisation

  /** A tag the create and update handlers drop: empty or only white space. */
  predicate IsBlank(tag: string) {
    Trim(tag) == ""
  }

  function Canonical(tag: string): string {
    Lower(Trim(tag))
  }

  /** The shape of every tag the server stores. */
  predicate IsCanonicalTag(tag: string) {
    tag != "" && IsTrimmed(tag) && IsLower(tag)
  }

  /** `tags.filter(tag => tag && tag.trim())`. */
  function NonBlank(tags: seq<string>): (r: seq<string>)
    ensures forall t :: t in r <==> t in tags && !IsBlank(t)
  {
    if |tags| == 0 then []
    else
      assert tags == [tags[0]] + tags[1..];
      (if IsBlank(tags[0]) then [] else [tags[0]]) + NonBlank(tags[1..])
  }

  /** The filter keeps the input's order: it acts piece by piece on a
      concatenation and keeps a single tag exactly when it is not blank. */
  lemma {:induction false} NonBlankConcat(a: seq<string>, b: seq<string>)
    ensures NonBlank(a + b) == NonBlank(a) + NonBlank(b)
    ensures forall t :: NonBlank([t]) == if IsBlank(t) then [] else [t]
  {
    forall t ensures NonBlank([t]) == if IsBlank(t) then [] else [t] {
      NonBlankCons(t, []);
      assert [t] + [] == [t];
    }
    if |a| == 0 {
      assert a + b == b;
    } else {
      var x, rest := a[0], a[1..];
      assert a == [x] + rest;
      assert a + b == [x] + (rest + b);
      var head := if IsBlank(x) then [] else [x];
      NonBlankConcat(rest, b);
      NonBlankCons(x, rest + b);
      NonBlankCons(x, rest);
      calc {
        NonBlank(a + b);
        head + NonBlank(rest + b);
        head + (NonBlank(rest) + NonBlank(b));
        { AppendAssoc(head, NonBlank(rest), NonBlank(b)); }
        (head + NonBlank(rest)) + NonBlank(b);
        NonBlank(a) + NonBlank(b);
      }
    }
  }

  lemma NonBlankCons(x: string, rest: seq<string>)
    ensures NonBlank([x] + rest) == (if IsBlank(x) then [] else [x]) + NonBlank(rest)
  {
    assert ([x] + rest)[0] == x && ([x] + rest)[1..] == rest;
  }

  /** `.map(tag => tag.trim().toLowerCase())`. */
  function CanonicalAll(tags: seq<string>): seq<string> {
    seq(|tags|, i requires 0 <= i < |tags| => Canonical(tags[i]))
  }

  /** The tags a created or updated note is stored with:
      `[...new Set(tags.filter(...).map(...))]`. */
  function NormalizeTags(tags: seq<string>): seq<string> {
    Dedup(CanonicalAll(NonBlank(tags)))
  }

  /** Tags as the store keeps them: canonical and without repetitions. */
  predicate StoredTags(tags: seq<string>) {
    NoDuplicates(tags) && forall i :: 0 <= i < |tags| ==> IsCanonicalTag(tags[i])
  }

  lemma CanonicalIsCanonical(tag: string)
    requires !IsBlank(tag)
    ensures IsCanonicalTag(Canonical(tag))
  {
    LowerKeepsTrimmed(Trim(tag));
  }

  lemma CanonicalOfCanonical(tag: string)
    requires IsCanonicalTag(tag)
    ensures Canonical(tag) == tag
  {
    TrimOfTrimmed(tag);
    LowerOfLower(tag);
  }

  /** Every stored tag is non-empty, has no white space at either end and has
      no upper-case letter. */
  lemma NormalizedTagsAreCanonical(tags: seq<string>)
    ensures forall t :: t in NormalizeTags(tags) ==> IsCanonicalTag(t)
  {
    forall t | t in NormalizeTags(tags) ensures IsCanonicalTag(t) {
      var c := CanonicalAll(NonBlank(tags));
      var k :| 0 <= k < |c| && c[k] == t;
      CanonicalIsCanonical(NonBlank(tags)[k]);
    }
  }

  lemma CanonicalAllMembers(kept: seq<string>)
    ensures forall t :: t in CanonicalAll(kept) <==> exists k :: 0 <= k < |kept| && t == Canonical(kept[k])
  {
    var c := CanonicalAll(kept);
    forall t | t in c ensures exists k :: 0 <= k < |kept| && t == Canonical(kept[k]) {
      var k :| 0 <= k < |c| && c[k] == t;
    }
    forall k | 0 <= k < |kept| ensures Canonical(kept[k]) in c {
      assert c[k] == Canonical(kept[k]);
    }
  }

  /** `t` is the canonical form of some non-blank tag of `tags`. */
  predicate IsCanonicalFormIn(t: string, tags: seq<string>) {
    exists u :: u in tags && !IsBlank(u) && t == Canonical(u)
  }

  /** A tag is stored exactly when it is the canonical form of some
      non-blank input tag. */
  lemma NormalizedTagsExactly(tags: seq<string>)
    ensures forall t :: t in NormalizeTags(tags) <==> IsCanonicalFormIn(t, tags)
  {
    var kept := NonBlank(tags);
    var c := CanonicalAll(kept);
    assert forall t :: t in NormalizeTags(tags) <==> t in c;
    CanonicalAllMembers(kept);
    forall t | t in c ensures IsCanonicalFormIn(t, tags) {
      var k :| 0 <= k < |kept| && t == Canonical(kept[k]);
      assert kept[k] in kept;
    }

  }

  /** Stored tags are distinct and listed in the order of their first
      occurrence among the canonicalised input tags. */
  lemma NormalizedTagsFirstOccurrenceOrder(tags: seq<string>)
    ensures StoredTags(NormalizeTags(tags))
    ensures forall i, j :: 0 <= i < j < |NormalizeTags(tags)| ==>
      FirstIndex(CanonicalAll(NonBlank(tags)), NormalizeTags(tags)[i])
        < FirstIndex(CanonicalAll(NonBlank(tags)), NormalizeTags(tags)[j])
  {
    NormalizedTagsAreCanonical(tags);
    DedupKeepsFirstOccurrenceOrder(CanonicalAll(NonBlank(tags)));
  }

  lemma {:induction false} NonBlankOfNonBlank(tags: seq<string>)
    requires forall i :: 0 <= i < |tags| ==> !IsBlank(tags[i])
    ensures NonBlank(tags) == tags
  {
    if |tags| > 0 {
      NonBlankOfNonBlank(tags[1..]);
      assert [tags[0]] + tags[1..] == tags;
    }
  }

  /** Normalising stored tags again changes nothing. */
  lemma NormalizeIdempotent(tags: seq<string>)
    ensures NormalizeTags(NormalizeTags(tags)) == NormalizeTags(tags)
  {
    var n := NormalizeTags(tags);
    NormalizedTagsFirstOccurrenceOrder(tags);
    forall i | 0 <= i < |n| ensures !IsBlank(n[i]) {
      TrimOfTrimmed(n[i]);
    }
    NonBlankOfNonBlank(n);
    forall i | 0 <= i < |n| ensures CanonicalAll(n)[i] == n[i] {
      CanonicalOfCanonical(n[i]);
    }
    assert CanonicalAll(n) == n;
    DedupOfDistinct(n);
  }

  // ---------------------------------------------------------------- the tags query parameter

  /** `tags.split(',').map(tag => tag.trim().toLowerCase())`; empty pieces
      are kept. */
  function ParseTagParam(param: string): seq<string> {
    CanonicalAll(Split(param, ','))
  }

  lemma CanonicalKeepsCommaFree(s: string)
    requires ',' !in s
    ensures ',' !in Canonical(s)
  {
    var t := Trim(s);
    TrimKeepsAbsent(s, ',');
    assert forall k :: 0 <= k < |t| ==> Lower(t)[k] == LowerChar(t[k]);
  }

  /** The parameter splits into one element more than it has commas, each
      trimmed, lower case and comma-free. */
  lemma TagParamShape(param: string)
    ensures |ParseTagParam(param)| == Occurrences(param, ',') + 1
    ensures forall t :: t in ParseTagParam(param) ==> IsTrimmed(t) && IsLower(t) && ',' !in t
  {
    SplitLength(param, ',');
    SplitPiecesFree(param, ',');
    var pieces := Split(param, ',');
    forall t | t in ParseTagParam(param) ensures IsTrimmed(t) && IsLower(t) && ',' !in t {
      var k :| 0 <= k < |pieces| && Canonical(pieces[k]) == t;
      LowerKeepsTrimmed(Trim(pieces[k]));
      CanonicalKeepsCommaFree(pieces[k]);
    }
  }

  /** `if (tags) { ... }`: an empty parameter imposes no tag constraint. */
  function TagFilterOf(param: string): Option<seq<string>> {
    if param == "" then None else Some(ParseTagParam(param))
  }

  /** Parsing a comma join of canonical, comma-free tags gives them back. */
  lemma ParseJoinedTags(tags: seq<string>)
    requires |tags| >= 1
    requires forall i :: 0 <= i < |tags| ==> IsCanonicalTag(tags[i]) && ',' !in tags[i]
    ensures ParseTagParam(Join(tags, ",")) == tags
  {
    SplitJoin(tags, ',');
    forall i | 0 <= i < |tags| ensures CanonicalAll(tags)[i] == tags[i] {
      CanonicalOfCanonical(tags[i]);
    }
  }

  lemma {:induction false} JoinOfNonEmptyFirst(parts: seq<string>, sep: string)
    requires |parts| >= 1 && parts[0] != ""
    ensures Join(parts, sep) != ""
  {
    if |parts| > 1 {
      assert Join(parts, sep)[0] == parts[0][0];
    }
  }

  /** The client sends its selected tags joined by commas; for canonical,
      comma-free tags the server reads back exactly that list, and no
      constraint at all for an empty selection. */
  lemma SelectedTagsRoundTrip(tags: seq<string>)
    requires forall i :: 0 <= i < |tags| ==> IsCanonicalTag(tags[i]) && ',' !in tags[i]
    ensures TagFilterOf(Join(tags, ",")) == if tags == [] then None else Some(tags)
  {
    if tags != [] {
      ParseJoinedTags(tags);
      JoinOfNonEmptyFirst(tags, ",");
    }
  }

  // ---------------------------------------------------------------- matching

  /** MongoDB `tags: { $in: wanted }` on an array field: some tag of the note
      is among the wanted ones. */
  predicate HasAnyTag(note: Note, wanted: seq<string>) {
    exists t :: t in note.tags && t in wanted
  }

  /** The `query` object the list handler builds. */
  datatype NoteQuery = NoteQuery(text: Option<string>, tags: Option<seq<string>>)

  function BuildQuery(search: string, tagsParam: string): NoteQuery {
    NoteQuery(if search == "" then None else Some(search), TagFilterOf(tagsParam))
  }

  /** A note matches when it passes the text search (the database's text
      index, given as `textMatch`) and, if there is a tag list, carries one
      of its tags. */
  predicate Matches(q: NoteQuery, textMatch: (string, Note) -> bool, note: Note) {
    (q.text.None? || textMatch(q.text.value, note)) && (q.tags.None? || HasAnyTag(note, q.tags.value))
  }

  /** `Note.find(query)` before sorting: the matching notes in store order,
      each as often as it is stored. */
  function Select(notes: seq<Note>, q: NoteQuery, textMatch: (string, Note) -> bool): (r: seq<Note>)
    ensures forall n :: n in r <==> n in notes && Matches(q, textMatch, n)
    ensures forall n :: multiset(r)[n] == if Matches(q, textMatch, n) then multiset(notes)[n] else 0
    ensures |r| <= |notes|
  {
    if |notes| == 0 then []
    else
      assert notes == [notes[0]] + notes[1..];
      assert multiset(notes) == multiset([notes[0]]) + multiset(notes[1..]);
      (if Matches(q, textMatch, notes[0]) then [notes[0]] else []) + Select(notes[1..], q, textMatch)
  }

  /** Selection keeps store order: it acts piece by piece on a
      concatenation, keeping a single note exactly when it matches. */
  lemma {:induction false} SelectConcat(a: seq<Note>, b: seq<Note>, q: NoteQuery, textMatch: (string, Note) -> bool)
    ensures Select(a + b, q, textMatch) == Select(a, q, textMatch) + Select(b, q, textMatch)
    ensures forall n :: Select([n], q, textMatch) == if Matches(q, textMatch, n) then [n] else []
  {
    forall n ensures Select([n], q, textMatch) == if Matches(q, textMatch, n) then [n] else [] {
      SelectCons(n, [], q, textMatch);
      assert [n] + [] == [n];
    }
    if |a| == 0 {
      assert a + b == b;
    } else {
      var x, rest := a[0], a[1..];
      assert a == [x] + rest;
      assert a + b == [x] + (rest + b);
      var head := if Matches(q, textMatch, x) then [x] else [];
      SelectConcat(rest, b, q, textMatch);
      SelectCons(x, rest + b, q, textMatch);
      SelectCons(x, rest, q, textMatch);
      calc {
        Select(a + b, q, textMatch);
        head + Select(rest + b, q, textMatch);
        head + (Select(rest, q, textMatch) + Select(b, q, textMatch));
        { AppendAssoc(head, Select(rest, q, textMatch), Select(b, q, textMatch)); }
        (head + Select(rest, q, textMatch)) + Select(b, q, textMatch);
        Select(a, q, textMatch) + Select(b, q, textMatch);
      }
    }
  }

  lemma SelectCons(x: Note, rest: seq<Note>, q: NoteQuery, textMatch: (string, Note) -> bool)
    ensures Select([x] + rest, q, textMatch) == (if Matches(q, textMatch, x) then [x] else []) + Select(rest, q, textMatch)
  {
    assert ([x] + rest)[0] == x && ([x] + rest)[1..] == rest;
  }

  /** With no search text and no tags parameter every note matches. */
  lemma {:induction false} UnfilteredSelectsAll(notes: seq<Note>, textMatch: (string, Note) -> bool)
    ensures Select(notes, BuildQuery("", ""), textMatch) == notes
  {
    if |notes| > 0 {
      UnfilteredSelectsAll(notes[1..], textMatch);
      assert [notes[0]] + notes[1..] == notes;
    }
  }

  /** Tag filtering is OR: a note matches a tags parameter exactly when one
      of its tags is among the parsed ones, and a note without tags never
      matches a non-empty parameter. */
  lemma TagFilterIsAnyOf(search: string, tagsParam: string, textMatch: (string, Note) -> bool, note: Note)
    requires tagsParam != ""
    ensures Matches(BuildQuery(search, tagsParam), textMatch, note) <==>
      (search == "" || textMatch(search, note))
      && exists i :: 0 <= i < |note.tags| && note.tags[i] in ParseTagParam(tagsParam)
    ensures note.tags == [] ==> !Matches(BuildQuery(search, tagsParam), textMatch, note)
  {
    if exists i :: 0 <= i < |note.tags| && note.tags[i] in ParseTagParam(tagsParam) {
      var i :| 0 <= i < |note.tags| && note.tags[i] in ParseTagParam(tagsParam);
      assert note.tags[i] in note.tags;
    }
  }

  // ---------------------------------------------------------------- sorting

  /** The sort fields the client offers. */
  datatype SortField = UpdatedAt | CreatedAt | Title

  /** `sortOrder === 'asc' ? 1 : -1`. */
  function Direction(sortOrder: string): int {
    if sortOrder == "asc" then 1 else -1
  }

  predicate KeyLe(field: SortField, a: Note, b: Note) {
    match field
    case UpdatedAt => a.updatedAt <= b.updatedAt
    case CreatedAt => a.createdAt <= b.createdAt
    case Title => LexLe(a.title, b.title)
  }

  lemma KeyLeTotalPreorder(field: SortField, a: Note, b: Note, c: Note)
    ensures KeyLe(field, a, b) || KeyLe(field, b, a)
    ensures KeyLe(field, a, b) && KeyLe(field, b, c) ==> KeyLe(field, a, c)
  {
    if field.Title? {
      LexLeTotal(a.title, b.title);
      if KeyLe(field, a, b) && KeyLe(field, b, c) {
        LexLeTransitive(a.title, b.title, c.title);
      }
    }
  }

  /** The comparison behind `sort[sortBy] = direction`: ascending on the
      field for direction 1, descending otherwise. */
  function NoteOrder(field: SortField, direction: int): (le: (Note, Note) -> bool)
    ensures TotalPreorder(le)
  {
    var le := (a: Note, b: Note) => if direction == 1 then KeyLe(field, a, b) else KeyLe(field, b, a);
    assert forall a, b :: le(a, b) || le(b, a) by {
      forall a, b ensures le(a, b) || le(b, a) { KeyLeTotalPreorder(field, a, b, a); }
    }
    assert forall a, b, c :: le(a, b) && le(b, c) ==> le(a, c) by {
      forall a, b, c | le(a, b) && le(b, c) ensures le(a, c) {
        KeyLeTotalPreorder(field, a, b, c);
        KeyLeTotalPreorder(field, c, b, a);
      }
    }
    le
  }

  function SortNotes(notes: seq<Note>, field: SortField, direction: int): seq<Note> {
    Sort(notes, NoteOrder(field, direction))
  }

  /** The sorted notes are a permutation of the matching ones, ordered
      ascending by the field when `sortOrder` is `"asc"` and descending for
      every other value. */
  lemma SortedBySortOrder(notes: seq<Note>, field: SortField, sortOrder: string)
    ensures multiset(SortNotes(notes, field, Direction(sortOrder))) == multiset(notes)
    ensures var r := SortNotes(notes, field, Direction(sortOrder));
      forall i, j :: 0 <= i < j < |r| ==>
        if sortOrder == "asc" then KeyLe(field, r[i], r[j]) else KeyLe(field, r[j], r[i])
  {
    SortIsSorted(notes, NoteOrder(field, Direction(sortOrder)));
  }

  // ---------------------------------------------------------------- pagination

  /** `(pageNum - 1) * limitNum`. */
  function SkipCount(page: int, limit: int): int {
    (page - 1) * limit
  }

  /** `Math.ceil(total / limitNum)`. */
  function TotalPages(total: nat, limit: int): (pages: nat)
    requires limit >= 1
    ensures total == 0 ==> pages == 0
    ensures total > 0 ==> (pages - 1) * limit < total <= pages * limit
  {
    if total % limit == 0 then total / limit else total / limit + 1
  }

  /** `.skip(skip).limit(limitNum)` on the sorted matches. */
  function PageOf<T>(s: seq<T>, page: int, limit: int): seq<T>
    requires page >= 1 && limit >= 1
  {
    var skip := SkipCount(page, limit);
    if skip >= |s| then [] else s[skip..Min(skip + limit, |s|)]
  }

  lemma SkipMonotone(page: int, limit: int, pages: int)
    requires 1 <= page && limit >= 1
    ensures page > pages ==> SkipCount(page, limit) >= pages * limit
    ensures page <= pages ==> SkipCount(page, limit) <= (pages - 1) * limit
  {
    if page > pages {
      assert (page - 1 - pages) * limit >= 0;
    } else {
      assert (pages - page) * limit >= 0;
    }
  }

  /** A page holds at most `limit` notes; the pages 1..pages are exactly the
      non-empty ones. */
  lemma PageBounds<T>(s: seq<T>, page: int, limit: int)
    requires page >= 1 && limit >= 1
    ensures |PageOf(s, page, limit)| <= limit
    ensures page > TotalPages(|s|, limit) ==> PageOf(s, page, limit) == []
    ensures page <= TotalPages(|s|, limit) ==> PageOf(s, page, limit) != []
  {
    var pages := TotalPages(|s|, limit);
    SkipMonotone(page, limit, pages);
  }

  /** The pages up to `k`, concatenated. */
  function PagesUpTo<T>(s: seq<T>, limit: int, k: nat): seq<T>
    requires limit >= 1
  {
    if k == 0 then [] else PagesUpTo(s, limit, k - 1) + PageOf(s, k, limit)
  }

  lemma {:induction false} PagesUpToPrefix<T>(s: seq<T>, limit: int, k: nat)
    requires limit >= 1
    ensures PagesUpTo(s, limit, k) == s[..Min(k * limit, |s|)]
  {
    if k > 0 {
      PagesUpToPrefix(s, limit, k - 1);
      assert SkipCount(k, limit) == (k - 1) * limit;
      assert k * limit == (k - 1) * limit + limit;
      var a := Min((k - 1) * limit, |s|);
      var b := Min(k * limit, |s|);
      assert s[..b] == s[..a] + s[a..b];
    }
  }

  /** Pages 1..pages, in order, make up the whole sorted sequence: no note
      is skipped and none is repeated. */
  lemma PagesPartition<T>(s: seq<T>, limit: int)
    requires limit >= 1
    ensures PagesUpTo(s, limit, TotalPages(|s|, limit)) == s
  {
    PagesUpToPrefix(s, limit, TotalPages(|s|, limit));
  }

  /** The pagination metadata of a response. */
  function Meta(page: int, limit: int, total: nat): PageInfo
    requires limit >= 1
  {
    var pages := TotalPages(total, limit);
    PageInfo(page, pages, total, page < pages, page > 1)
  }

  /** `hasNext` holds exactly when the next page has notes, and `hasPrev`
      exactly when there is a page before this one. */
  lemma HasNextMeansMore<T>(s: seq<T>, page: int, limit: int)
    requires page >= 1 && limit >= 1
    ensures Meta(page, limit, |s|).hasNext <==> PageOf(s, page + 1, limit) != []
    ensures Meta(page, limit, |s|).hasPrev <==> page - 1 >= 1
  {
    PageBounds(s, page + 1, limit);
  }

  /** Every listed note is a stored note that matches the query. */
  lemma PageOfMatches(notes: seq<Note>, q: NoteQuery, textMatch: (string, Note) -> bool,
                      field: SortField, direction: int, page: int, limit: int)
    requires page >= 1 && limit >= 1
    ensures forall n :: n in PageOf(SortNotes(Select(notes, q, textMatch), field, direction), page, limit) ==>
      n in notes && Matches(q, textMatch, n)
  {
    var found := Select(notes, q, textMatch);
    var ordered := SortNotes(found, field, direction);
    forall n | n in PageOf(ordered, page, limit) ensures n in found {
      assert n in ordered;
      assert n in multiset(ordered);
    }
  }

  // ---------------------------------------------------------------- the store

  /** The query parameters of `GET /notes` after `parseInt` of page and
      limit; `sortBy` is one of the fields the client offers. */
  datatype ListRequest = ListRequest(
    page: int, limit: int, search: string, tags: string, sortBy: SortField, sortOrder: string)

  /** The defaults of the destructuring in the list handler. */
  const DefaultRequest := ListRequest(1, 10, "", "", UpdatedAt, "desc")

  /** A request without parameters lists every note, most recently updated
      first, and answers with the first ten of them. */
  lemma DefaultRequestListsNewestTen(s: seq<Note>)
    ensures BuildQuery(DefaultRequest.search, DefaultRequest.tags) == NoteQuery(None, None)
    ensures Direction(DefaultRequest.sortOrder) == -1
    ensures PageOf(s, DefaultRequest.page, DefaultRequest.limit) == s[..Min(10, |s|)]
  {
  }

  /** Position of the note with the given id, if there is one. */
  function IndexOf(notes: seq<Note>, id: Id): (r: Option<nat>)
    ensures r.Some? ==> r.value < |notes| && notes[r.value].id == id
    ensures r.None? <==> forall i :: 0 <= i < |notes| ==> notes[i].id != id
  {
    if |notes| == 0 then None
    else if notes[0].id == id then Some(0)
    else
      var r := IndexOf(notes[1..], id);
      if r.Some? then Some(r.value + 1) else None
  }

  /** Removing the entry at `k` shifts every later entry down by one. */
  lemma RemoveAtShifts<T>(s: seq<T>, k: nat, r: seq<T>)
    requires k < |s| && r == s[..k] + s[k + 1..]
    ensures |r| == |s| - 1
    ensures forall i :: 0 <= i < k ==> r[i] == s[i]
    ensures forall i :: k <= i < |r| ==> r[i] == s[i + 1]
  {
  }

  /** `Note.distinct('tags')` followed by `.sort()`. */
  function TagListing(notes: seq<Note>): seq<string> {
    Sort(Dedup(AllTags(notes)), StringOrder())
  }

  function AllTags(notes: seq<Note>): (r: seq<string>)
    ensures forall t :: t in r <==> exists i :: 0 <= i < |notes| && t in notes[i].tags
  {
    if |notes| == 0 then []
    else
      var rest := AllTags(notes[1..]);
      assert forall t :: (exists i :: 0 <= i < |notes| && t in notes[i].tags) <==>
        (t in notes[0].tags || exists i :: 0 <= i < |notes[1..]| && t in notes[1..][i].tags) by {
        forall t | exists i :: 0 <= i < |notes| && t in notes[i].tags
          ensures t in notes[0].tags || exists i :: 0 <= i < |notes[1..]| && t in notes[1..][i].tags
        {
          var i :| 0 <= i < |notes| && t in notes[i].tags;
          if i > 0 { assert notes[1..][i - 1] == notes[i]; }
        }
      }
      notes[0].tags + rest
  }

  /** The tag listing is strictly increasing and holds exactly the tags that
      occur in some note. */
  lemma TagListingSortedDistinct(notes: seq<Note>)
    ensures StrictlyIncreasing(TagListing(notes))
    ensures forall t :: t in TagListing(notes) <==> exists i :: 0 <= i < |notes| && t in notes[i].tags
  {
    var d := Dedup(AllTags(notes));
    var r := TagListing(notes);
    SortIsSorted(d, StringOrder());
    DistinctByMultiset(d, r);
    assert forall t :: t in r <==> t in d by {
      forall t ensures t in r <==> t in d {
        assert t in r <==> t in multiset(r);
        assert t in d <==> t in multiset(d);
      }
    }
  }

  /** The notes collection. `nextId` stands for the database's id generator. */
  class NoteStore {
    var notes: seq<Note>
    var nextId: nat

    ghost predicate Valid()
      reads this
    {
      && (forall i :: 0 <= i < |notes| ==> notes[i].id < nextId)
      && (forall i, j :: 0 <= i < j < |notes| ==> notes[i].id != notes[j].id)
      && (forall i :: 0 <= i < |notes| ==> StoredTags(notes[i].tags))
    }

    constructor ()
      ensures Valid() && notes == []
    {
      notes := [];
      nextId := 0;
    }

    /** `GET /notes/:id`. */
    method Find(id: Id) returns (r: Result<Note, ApiError>)
      ensures r.Ok? <==> exists i :: 0 <= i < |notes| && notes[i].id == id
      ensures r.Ok? ==> r.value in notes && r.value.id == id
      ensures r.Err? ==> r.error == NotFound(NotFoundMessage)
    {
      var k := IndexOf(notes, id);
      if k.None? {
        r := Err(NotFound(NotFoundMessage));
      } else {
        r := Ok(notes[k.value]);
      }
    }

    /** `GET /notes`: filter, sort, skip and limit, plus the metadata. */
    method List(req: ListRequest, textMatch: (string, Note) -> bool) returns (res: NotesPage)
      requires req.page >= 1 && req.limit >= 1
      ensures var found := Select(notes, BuildQuery(req.search, req.tags), textMatch);
        && res.notes == PageOf(SortNotes(found, req.sortBy, Direction(req.sortOrder)), req.page, req.limit)
        && res.pagination == Meta(req.page, req.limit, |found|)
      ensures |res.notes| <= req.limit
      ensures forall n :: n in res.notes ==>
        n in notes && Matches(BuildQuery(req.search, req.tags), textMatch, n)
    {
      var query := BuildQuery(req.search, req.tags);
      var direction := Direction(req.sortOrder);
      var found := Select(notes, query, textMatch);
      var ordered := SortNotes(found, req.sortBy, direction);
      res := NotesPage(PageOf(ordered, req.page, req.limit), Meta(req.page, req.limit, |found|));
      PageBounds(ordered, req.page, req.limit);
      PageOfMatches(notes, query, textMatch, req.sortBy, direction, req.page, req.limit);
    }

    /** `GET /notes/tags/all`. */
    method ListTags() returns (tags: seq<string>)
      ensures StrictlyIncreasing(tags)
      ensures forall t :: t in tags <==> exists i :: 0 <= i < |notes| && t in notes[i].tags
    {
      tags := TagListing(notes);
      TagListingSortedDistinct(notes);
    }

    /** `POST /notes`: refused before any change when the title or the
        content is missing or empty; otherwise stored with normalised tags. */
    method Create(title: string, content: string, tags: seq<string>, now: int)
      returns (r: Result<Note, ApiError>)
      requires Valid()
      modifies this
      ensures Valid()
      ensures title == "" || content == "" ==>
        r == Err(BadRequest(RequiredMessage)) && notes == old(notes) && nextId == old(nextId)
      ensures title != "" && content != "" ==>
        && r == Ok(Note(old(nextId), title, content, NormalizeTags(tags), now, now))
        && notes == old(notes) + [r.value]
        && r.value.id !in set n | n in old(notes) :: n.id
    {
      if title == "" || content == "" {
        return Err(BadRequest(RequiredMessage));
      }
      NormalizedTagsFirstOccurrenceOrder(tags);
      var note := Note(nextId, title, content, NormalizeTags(tags), now, now);
      notes := notes + [note];
      nextId := nextId + 1;
      r := Ok(note);
    }

    /** `PUT /notes/:id`: the same check as create comes first, then the
        lookup; title, content and tags are replaced and `updatedAt` set,
        while the id, `createdAt` and every other note stay as they were. */
    method Update(id: Id, title: string, content: string, tags: seq<string>, now: int)
      returns (r: Result<Note, ApiError>)
      requires Valid()
      modifies this
      ensures Valid() && nextId == old(nextId) && |notes| == |old(notes)|
      ensures title == "" || content == "" ==>
        r == Err(BadRequest(RequiredMessage)) && notes == old(notes)
      ensures title != "" && content != "" && IndexOf(old(notes), id).None? ==>
        r == Err(NotFound(NotFoundMessage)) && notes == old(notes)
      ensures title != "" && content != "" && IndexOf(old(notes), id).Some? ==>
        var k := IndexOf(old(notes), id).value;
        && r == Ok(old(notes)[k].(title := title, content := content,
                                    tags := NormalizeTags(tags), updatedAt := now))
        && r.value.createdAt == old(notes)[k].createdAt
        && notes == old(notes)[k := r.value]
    {
      if title == "" || content == "" {
        return Err(BadRequest(RequiredMessage));
      }
      var k := IndexOf(notes, id);
      if k.None? {
        return Err(NotFound(NotFoundMessage));
      }
      NormalizedTagsFirstOccurrenceOrder(tags);
      var updated := notes[k.value].(title := title, content := content,
                                     tags := NormalizeTags(tags), updatedAt := now);
      notes := notes[k.value := updated];
      r := Ok(updated);
    }

    /** `DELETE /notes/:id`. */
    method Delete(id: Id) returns (r: Result<string, ApiError>)
      requires Valid()
      modifies this
      ensures Valid() && nextId == old(nextId)
      ensures IndexOf(old(notes), id).None? ==> r == Err(NotFound(NotFoundMessage)) && notes == old(notes)
      ensures IndexOf(old(notes), id).Some? ==>
        var k := IndexOf(old(notes), id).value;
        r == Ok(DeletedMessage) && notes == old(notes)[..k] + old(notes)[k + 1..]
      ensures forall i :: 0 <= i < |notes| ==> notes[i].id != id
    {
      var k := IndexOf(notes, id);
      if k.None? {
        return Err(NotFound(NotFoundMessage));
      }
      ghost var before := notes;
      notes := notes[..k.value] + notes[k.value + 1..];
      RemoveAtShifts(before, k.value, notes);
      r := Ok(DeletedMessage);
    }
  }
}
