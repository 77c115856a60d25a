/** The client's note-list state: the four state cells of the notes hook
    and the four operations that update them from an API response. */
module UseNotes {
  import opened NoteModel

  /** A failed request: the server's `error` message, when it sent one. */
  datatype ApiFailure = ApiFailure(serverMessage: Option<string>)

  const FetchFailed := "Failed to fetch notes"
  const CreateFailed := "Failed to create note"
  const UpdateFailed := "Failed to update note"
  const DeleteFailed := "Failed to delete note"

  /** `err.response?.data?.error || fallback`: an absent or empty server
      message gives the fallback. */
  function ErrorText(failure: ApiFailure, fallback: string): (text: string)
    ensures failure.serverMessage.Some? && failure.serverMessage.value != "" ==>
      text == failure.serverMessage.value
    ensures failure.serverMessage.None? || failure.serverMessage.value == "" ==> text == fallback
  {
    if failure.serverMessage.Some? && failure.serverMessage.value != "" then failure.serverMessage.value
    else fallback
  }

  /** The error shown after a failure is never empty. */
  lemma ErrorTextNonEmpty(failure: ApiFailure, fallback: string)
    requires fallback != ""
    ensures ErrorText(failure, fallback) != ""
  {
  }

  /** No two notes of a list share an id. */
  predicate DistinctIds(notes: seq<Note>) {
    forall i, j :: 0 <= i < j < |notes| ==> notes[i].id != notes[j].id
  }

  // ---------------------------------------------------------------- list updates

  /** `prev.map(note => note._id === id ? updated : note)`. */
  function ReplaceById(notes: seq<Note>, id: Id, updated: Note): (r: seq<Note>)
    ensures |r| == |notes|
  {
    seq(|notes|, i requires 0 <= i < |notes| => if notes[i].id == id then updated else notes[i])
  }

  /** `prev.filter(note => note._id !== id)`. */
  function RemoveById(notes: seq<Note>, id: Id): (r: seq<Note>)
    ensures |r| <= |notes|
  {
    if |notes| == 0 then []
    else (if notes[0].id == id then [] else [notes[0]]) + RemoveById(notes[1..], id)
  }

  /** Removal keeps exactly the notes whose id differs. */
  lemma {:induction false} RemoveByIdMembers(notes: seq<Note>, id: Id)
    ensures forall n :: n in RemoveById(notes, id) <==> n in notes && n.id != id
  {
    if |notes| > 0 {
      RemoveByIdMembers(notes[1..], id);
      assert notes == [notes[0]] + notes[1..];
    }
  }

  /** Replacement changes exactly the notes with the id, each to the
      updated note, and keeps every other note in its place. */
  lemma ReplaceByIdPointwise(notes: seq<Note>, id: Id, updated: Note)
    ensures forall i :: 0 <= i < |notes| && notes[i].id != id ==> ReplaceById(notes, id, updated)[i] == notes[i]
    ensures forall i :: 0 <= i < |notes| && notes[i].id == id ==> ReplaceById(notes, id, updated)[i] == updated
    ensures (forall i :: 0 <= i < |notes| ==> notes[i].id != id) ==> ReplaceById(notes, id, updated) == notes
  {
  }

  /** In a list without repeated ids, replacing by id is replacing the one
      note at its position, and the ids stay distinct when the updated
      note keeps the id. */
  lemma ReplaceByIdAt(notes: seq<Note>, k: nat, updated: Note)
    requires DistinctIds(notes) && k < |notes| && updated.id == notes[k].id
    ensures ReplaceById(notes, notes[k].id, updated) == notes[k := updated]
    ensures DistinctIds(ReplaceById(notes, notes[k].id, updated))
  {
  }

  /** Removal acts piece by piece on a concatenation, so the notes kept
      stay in their order. */
  lemma RemoveByIdCons(x: Note, rest: seq<Note>, id: Id)
    ensures RemoveById([x] + rest, id) == (if x.id == id then [] else [x]) + RemoveById(rest, id)
  {
    assert ([x] + rest)[0] == x && ([x] + rest)[1..] == rest;
  }

  lemma {:induction false} RemoveByIdConcat(a: seq<Note>, b: seq<Note>, id: Id)
    ensures RemoveById(a + b, id) == RemoveById(a, id) + RemoveById(b, id)
  {
    if |a| == 0 {
      assert a + b == b;
    } else {
      var x, rest := a[0], a[1..];
      assert a == [x] + rest;
      assert a + b == [x] + (rest + b);
      RemoveByIdConcat(rest, b, id);
      RemoveByIdCons(x, rest + b, id);
      RemoveByIdCons(x, rest, id);
    }
  }

  lemma {:induction false} RemoveByIdAbsent(notes: seq<Note>, id: Id)
    requires forall i :: 0 <= i < |notes| ==> notes[i].id != id
    ensures RemoveById(notes, id) == notes
  {
    if |notes| > 0 {
      RemoveByIdAbsent(notes[1..], id);
      assert [notes[0]] + notes[1..] == notes;
    }
  }

  /** Removal keeps a list without repeated ids so. */
  lemma {:induction false} RemoveByIdDistinct(notes: seq<Note>, id: Id)
    requires DistinctIds(notes)
    ensures DistinctIds(RemoveById(notes, id))
  {
    if |notes| > 0 {
      var x, tail := notes[0], notes[1..];
      assert notes == [x] + tail;
      assert DistinctIds(tail) by {
        assert forall i :: 0 <= i < |tail| ==> tail[i] == notes[i + 1];
      }
      var rest := RemoveById(tail, id);
      RemoveByIdDistinct(tail, id);
      RemoveByIdCons(x, tail, id);
      if x.id != id {
        RemoveByIdMembers(tail, id);
        forall j | 0 <= j < |rest| ensures rest[j].id != x.id {
          assert rest[j] in tail;
          var m :| 0 <= m < |tail| && tail[m] == rest[j];
          assert notes[m + 1] == rest[j];
        }
        DistinctCons(x, rest);
      }
    }
  }

  /** A note whose id is new to a list without repeated ids can go first. */
  lemma DistinctCons(x: Note, rest: seq<Note>)
    requires DistinctIds(rest)
    requires forall j :: 0 <= j < |rest| ==> rest[j].id != x.id
    ensures DistinctIds([x] + rest)
  {
    var r := [x] + rest;
    forall i, j | 0 <= i < j < |r| ensures r[i].id != r[j].id {
      assert r[j] == rest[j - 1];
      if i > 0 {
        assert r[i] == rest[i - 1];
      }
    }
  }

  lemma RemoveOnly(before: seq<Note>, x: Note, after: seq<Note>)
    requires forall i :: 0 <= i < |before| ==> before[i].id != x.id
    requires forall i :: 0 <= i < |after| ==> after[i].id != x.id
    ensures RemoveById(before + [x] + after, x.id) == before + after
  {
    var id := x.id;
    var single := [x];
    assert RemoveById(single, id) == [] by {
      assert single[1..] == [];
    }
    var mid := before + single;
    RemoveByIdConcat(mid, after, id);
    RemoveByIdConcat(before, single, id);
    RemoveByIdAbsent(before, id);
    RemoveByIdAbsent(after, id);
    assert RemoveById(mid, id) == before;
    assert RemoveById(mid + after, id) == before + after;
  }

  /** In a list without repeated ids, removing by id takes out the one note
      at its position. */
  lemma RemoveByIdAt(notes: seq<Note>, k: nat)
    requires DistinctIds(notes) && k < |notes|
    ensures RemoveById(notes, notes[k].id) == notes[..k] + notes[k + 1..]
  {
    var before, after := notes[..k], notes[k + 1..];
    forall i | 0 <= i < |before| ensures before[i].id != notes[k].id {
      assert before[i] == notes[i];
    }
    forall i | 0 <= i < |after| ensures after[i].id != notes[k].id {
      assert after[i] == notes[k + 1 + i];
    }
    assert notes == before + [notes[k]] + after;
    RemoveOnly(before, notes[k], after);
  }

  /** Removing a note after replacing it is removing it. */
  lemma {:induction false} RemoveAfterReplace(notes: seq<Note>, id: Id, updated: Note)
    requires updated.id == id
    ensures RemoveById(ReplaceById(notes, id, updated), id) == RemoveById(notes, id)
  {
    if |notes| > 0 {
      RemoveAfterReplace(notes[1..], id, updated);
      var r := ReplaceById(notes, id, updated);
      assert r == [r[0]] + ReplaceById(notes[1..], id, updated);
    }
  }

  // ---------------------------------------------------------------- the hook state

  class NotesState {
    var notes: seq<Note>
    var loading: bool
    var error: Option<string>
    var pagination: Option<PageInfo>

    constructor ()
      ensures notes == [] && !loading && error == None && pagination == None
    {
      notes := [];
      loading := false;
      error := None;
      pagination := None;
    }

    /** `fetchNotes` up to its request: loading on, error cleared. */
    method BeginFetch()
      modifies this
      ensures loading && error == None
      ensures notes == old(notes) && pagination == old(pagination)
    {
      loading := true;
      error := None;
    }

    /** `fetchNotes` once the request settles: the page and its metadata on
        success, the error text on failure, and loading off either way. */
    method EndFetch(response: Result<NotesPage, ApiFailure>)
      modifies this
      ensures !loading
      ensures response.Ok? ==>
        notes == response.value.notes && pagination == Some(response.value.pagination) && error == old(error)
      ensures response.Err? ==>
        notes == old(notes) && pagination == old(pagination) && error == Some(ErrorText(response.error, FetchFailed))
    {
      if response.Ok? {
        notes := response.value.notes;
        pagination := Some(response.value.pagination);
      } else {
        error := Some(ErrorText(response.error, FetchFailed));
      }
      loading := false;
    }

    /** A whole `fetchNotes`: after it, loading is off, and the error is
        cleared exactly when the request succeeded. */
    method FetchNotes(response: Result<NotesPage, ApiFailure>)
      modifies this
      ensures !loading
      ensures response.Ok? ==>
        notes == response.value.notes && pagination == Some(response.value.pagination) && error == None
      ensures response.Err? ==>
        notes == old(notes) && pagination == old(pagination) && error == Some(ErrorText(response.error, FetchFailed))
    {
      BeginFetch();
      EndFetch(response);
    }

    /** `createNote`: the created note goes to the front of the list; a
        failure leaves the list alone, records the error and is passed on. */
    method CreateNote(response: Result<Note, ApiFailure>) returns (r: Result<Note, ApiFailure>)
      modifies this
      ensures r == response
      ensures loading == old(loading) && pagination == old(pagination)
      ensures response.Ok? ==> notes == [response.value] + old(notes) && error == None
      ensures response.Err? ==> notes == old(notes) && error == Some(ErrorText(response.error, CreateFailed))
    {
      error := None;
      if response.Err? {
        error := Some(ErrorText(response.error, CreateFailed));
        return response;
      }
      notes := [response.value] + notes;
      r := response;
    }

    /** `updateNote`: every note with the id is replaced by the server's
        answer; on failure as for create. A list without repeated ids keeps
        that property when the answer carries the same id. */
    method UpdateNote(id: Id, response: Result<Note, ApiFailure>) returns (r: Result<Note, ApiFailure>)
      modifies this
      ensures r == response
      ensures loading == old(loading) && pagination == old(pagination)
      ensures response.Ok? ==> notes == ReplaceById(old(notes), id, response.value) && error == None
      ensures response.Err? ==> notes == old(notes) && error == Some(ErrorText(response.error, UpdateFailed))
      ensures DistinctIds(old(notes)) && (response.Ok? ==> response.value.id == id) ==> DistinctIds(notes)
    {
      error := None;
      if response.Err? {
        error := Some(ErrorText(response.error, UpdateFailed));
        return response;
      }
      notes := ReplaceById(notes, id, response.value);
      r := response;
    }

    /** `deleteNote`: every note with the id is dropped, the rest keep their
        order; on failure as for create. */
    method DeleteNote(id: Id, failure: Option<ApiFailure>) returns (r: Result<Id, ApiFailure>)
      modifies this
      ensures failure.None? <==> r.Ok?
      ensures failure.Some? ==> r == Err(failure.value)
      ensures loading == old(loading) && pagination == old(pagination)
      ensures failure.None? ==> notes == RemoveById(old(notes), id) && error == None
      ensures failure.Some? ==> notes == old(notes) && error == Some(ErrorText(failure.value, DeleteFailed))
      ensures DistinctIds(old(notes)) ==> DistinctIds(notes)
    {
      error := None;
      if failure.Some? {
        error := Some(ErrorText(failure.value, DeleteFailed));
        return Err(failure.value);
      }
      if DistinctIds(notes) {
        RemoveByIdDistinct(notes, id);
      }
      notes := RemoveById(notes, id);
      r := Ok(id);
    }
  }
}
