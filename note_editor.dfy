/** The note editor: the checks on the trimmed title and content, the parse
    of the comma-separated tag field, the fields loaded from a note, and the
    save handler with its `saving` flag. */
module NoteEditor {
  import opened Text
  import opened NoteModel

  const MaxTitleLength: nat := 200
  const MaxContentLength: nat := 10000

  /** Why a save is refused before anything is sent. */
  datatype Refusal = MissingTitle | MissingContent | TitleTooLong | ContentTooLong

  /** The alert shown for each refusal. */
  function AlertOf(refusal: Refusal): string {
    match refusal
    case MissingTitle => "Please provide a title"
    case MissingContent => "Please provide content"
    case TitleTooLong => "Title must be less than 200 characters"
    case ContentTooLong => "Content must be less than 10,000 characters"
  }

  const SaveFailedAlert := "Failed to save note. Please try again."

  /** The four checks of `handleSave`, in their order; the first that fails
      decides. */
  function Validate(title: string, content: string): Option<Refusal> {
    if Trim(title) == "" then Some(MissingTitle)
    else if Trim(content) == "" then Some(MissingContent)
    else if |Trim(title)| > MaxTitleLength then Some(TitleTooLong)
    else if |Trim(content)| > MaxContentLength then Some(ContentTooLong)
    else None
  }

  /** A save goes ahead exactly when the title and the content each hold a
      character that is not white space and their trimmed forms are within
      200 and 10000 characters, both limits included. Each refusal names
      the first check that fails: a blank title is reported whatever the
      content, and a length is only checked once both fields are filled. */
  lemma ValidateDecides(title: string, content: string)
    ensures Validate(title, content).None? <==>
      !AllSpace(title) && !AllSpace(content)
      && |Trim(title)| <= MaxTitleLength && |Trim(content)| <= MaxContentLength
    ensures Validate(title, content) == Some(MissingTitle) <==> AllSpace(title)
    ensures Validate(title, content) == Some(MissingContent) <==> !AllSpace(title) && AllSpace(content)
    ensures Validate(title, content) == Some(TitleTooLong) <==>
      !AllSpace(title) && !AllSpace(content) && |Trim(title)| > MaxTitleLength
    ensures Validate(title, content) == Some(ContentTooLong) <==>
      !AllSpace(title) && !AllSpace(content) && |Trim(title)| <= MaxTitleLength
      && |Trim(content)| > MaxContentLength
  {
  }

  /** The Save button: disabled while saving and while the trimmed title or
      content is empty. */
  predicate SaveDisabled(saving: bool, title: string, content: string) {
    saving || Trim(title) == "" || Trim(content) == ""
  }

  /** An enabled Save button never meets the two emptiness refusals, and
      when nothing is being saved it is enabled for every input the checks
      accept. */
  lemma SaveButtonAgreesWithChecks(saving: bool, title: string, content: string)
    ensures !SaveDisabled(saving, title, content) ==>
      Validate(title, content) != Some(MissingTitle) && Validate(title, content) != Some(MissingContent)
    ensures !saving && Validate(title, content).None? ==> !SaveDisabled(saving, title, content)
    ensures SaveDisabled(saving, title, content) <==> saving || AllSpace(title) || AllSpace(content)
  {
  }

  /** What a key press in one of the fields asks for. */
  datatype KeyCommand = SaveKey | CancelKey

  /** `handleKeyDown`: Ctrl+S or Cmd+S saves, Escape cancels. Neither looks
      at `saving`. */
  function KeyCommandOf(ctrlOrMeta: bool, key: string): Option<KeyCommand> {
    if ctrlOrMeta && key == "s" then Some(SaveKey)
    else if key == "Escape" then Some(CancelKey)
    else None
  }

  /** A key saves exactly for `s` with Ctrl or Cmd held, cancels exactly
      for Escape, and does nothing otherwise. */
  lemma KeyCommandCases(ctrlOrMeta: bool, key: string)
    ensures KeyCommandOf(ctrlOrMeta, key) == Some(SaveKey) <==> ctrlOrMeta && key == "s"
    ensures KeyCommandOf(ctrlOrMeta, key) == Some(CancelKey) <==> key == "Escape"
    ensures KeyCommandOf(ctrlOrMeta, key).None? <==> !(ctrlOrMeta && key == "s") && key != "Escape"
  {
  }

  // ---------------------------------------------------------------- the tag field

  /** `.map(tag => tag.trim())`. */
  function TrimAll(pieces: seq<string>): (r: seq<string>)
    ensures |r| == |pieces|
    ensures forall i :: 0 <= i < |r| ==> r[i] == Trim(pieces[i])
  {
    if |pieces| == 0 then []
    else [Trim(pieces[0])] + TrimAll(pieces[1..])
  }

  /** `.filter(tag => tag.length > 0)`. */
  function DropEmpty(pieces: seq<string>): (r: seq<string>)
    ensures forall t :: t in r <==> t in pieces && t != ""
    ensures |r| <= |pieces|
  {
    if |pieces| == 0 then []
    else
      assert pieces == [pieces[0]] + pieces[1..];
      (if pieces[0] == "" then [] else [pieces[0]]) + DropEmpty(pieces[1..])
  }

  /** The tag field as `handleSave` sends it: split on commas, each piece
      trimmed, empty pieces dropped. */
  function ParseTags(field: string): seq<string> {
    DropEmpty(TrimAll(Split(field, ',')))
  }

  /** A tag as the editor sends it: non-empty, trimmed and comma-free. */
  predicate IsEditorTag(tag: string) {
    tag != "" && IsTrimmed(tag) && ',' !in tag
  }

  /** Every parsed tag is non-empty, trimmed and comma-free; case and
      repetitions are left to the server. */
  lemma ParseTagsShape(field: string)
    ensures forall t :: t in ParseTags(field) ==> IsEditorTag(t)
  {
    var pieces := Split(field, ',');
    SplitPiecesFree(field, ',');
    forall t | t in ParseTags(field) ensures IsEditorTag(t) {
      var k :| 0 <= k < |pieces| && TrimAll(pieces)[k] == t;
      TrimKeepsAbsent(pieces[k], ',');
    }
  }

  /** `tags.join(', ')`: how the editor shows a note's tags. */
  function TagField(tags: seq<string>): string {
    Join(tags, ", ")
  }

  lemma TrimAllCons(first: string, rest: seq<string>)
    ensures TrimAll([first] + rest) == [Trim(first)] + TrimAll(rest)
  {
    assert ([first] + rest)[1..] == rest;
  }

  lemma DropEmptyCons(first: string, rest: seq<string>)
    ensures DropEmpty([first] + rest) == (if first == "" then [] else [first]) + DropEmpty(rest)
  {
    assert ([first] + rest)[1..] == rest;
  }

  lemma ParseAfterTag(tag: string, rest: string)
    requires IsEditorTag(tag)
    ensures ParseTags(tag + [','] + rest) == [tag] + ParseTags(rest)
  {
    SplitAfterPiece(tag, ',', rest);
    TrimOfTrimmed(tag);
    TrimAllCons(tag, Split(rest, ','));
    DropEmptyCons(tag, TrimAll(Split(rest, ',')));
  }

  lemma ParseSkipsSpace(rest: string)
    ensures ParseTags([' '] + rest) == ParseTags(rest)
  {
    var pieces := Split(rest, ',');
    SplitCons(' ', rest, ',');
    TrimSkipsLeadingSpace(' ', pieces[0]);
    TrimAllCons([' '] + pieces[0], pieces[1..]);
    TrimAllCons(pieces[0], pieces[1..]);
    assert [pieces[0]] + pieces[1..] == pieces;
  }

  /** Showing tags joined by ", " and parsing the field back gives the same
      list for editor tags, so opening a note and saving it unchanged keeps
      its tags; the empty list round-trips through the empty field. */
  lemma {:induction false} TagFieldRoundTrip(tags: seq<string>)
    requires forall i :: 0 <= i < |tags| ==> IsEditorTag(tags[i])
    ensures ParseTags(TagField(tags)) == tags
  {
    if |tags| == 0 {
      assert Split("", ',') == [""];
      assert TrimAll([""]) == [""];
    } else if |tags| == 1 {
      SplitOfFree(tags[0], ',');
      TrimOfTrimmed(tags[0]);
      assert TrimAll([tags[0]]) == [tags[0]];
    } else {
      var rest := TagField(tags[1..]);
      TagFieldRoundTrip(tags[1..]);
      assert TagField(tags) == tags[0] + [','] + ([' '] + rest);
      ParseAfterTag(tags[0], [' '] + rest);
      ParseSkipsSpace(rest);
      assert [tags[0]] + tags[1..] == tags;
    }
  }

  /** A stored tag that holds a comma does not survive an edit: a note
      tagged `a,b` is saved back with the two tags `a` and `b`. */
  lemma CommaTagSplitsOnSave(a: string, b: string)
    requires IsEditorTag(a) && IsEditorTag(b)
    ensures ParseTags(TagField([a + [','] + b])) == [a, b]
  {
    ParseAfterTag(a, b);
    TagFieldRoundTrip([b]);
  }

  // ---------------------------------------------------------------- the editor state

  /** What a save attempt ends in: a refusal with its alert, a payload that
      was handed to `onSave`, or a payload whose save failed with the
      generic alert. */
  datatype SaveOutcome =
    | Refused(alert: string)
    | Saved(payload: NoteInput)
    | SaveFailed(payload: NoteInput, alert: string)

  /** The payload of an accepted save: trimmed title and content, parsed
      tags. */
  function PayloadOf(title: string, content: string, field: string): (p: NoteInput)
    ensures IsTrimmed(p.title) && IsTrimmed(p.content)
    ensures p.title != "" <==> !AllSpace(title)
    ensures p.content != "" <==> !AllSpace(content)
  {
    NoteInput(Trim(title), Trim(content), ParseTags(field))
  }

  /** A payload of an accepted save has a non-empty title of at most 200
      characters, non-empty content of at most 10000, and editor tags; it
      passes the server's presence check. */
  lemma AcceptedPayloadShape(title: string, content: string, field: string)
    requires Validate(title, content).None?
    ensures var p := PayloadOf(title, content, field);
      && 0 < |p.title| <= MaxTitleLength && 0 < |p.content| <= MaxContentLength
      && forall t :: t in p.tags ==> IsEditorTag(t)
  {
    ParseTagsShape(field);
  }

  /** A stored note whose title and content are trimmed, non-empty and
      within the limits, and whose tags are editor tags, is saved back
      unchanged when it is opened and saved without edits. */
  lemma UneditedSaveKeepsNote(note: Note)
    requires IsTrimmed(note.title) && note.title != "" && |note.title| <= MaxTitleLength
    requires IsTrimmed(note.content) && note.content != "" && |note.content| <= MaxContentLength
    requires forall i :: 0 <= i < |note.tags| ==> IsEditorTag(note.tags[i])
    ensures Validate(note.title, note.content).None?
    ensures PayloadOf(note.title, note.content, TagField(note.tags)) ==
      NoteInput(note.title, note.content, note.tags)
  {
    TrimOfTrimmed(note.title);
    TrimOfTrimmed(note.content);
    TagFieldRoundTrip(note.tags);
  }

  /** The editor's four state cells. */
  class Editor {
    var title: string
    var content: string
    var tags: string
    var saving: bool

    constructor ()
      ensures title == "" && content == "" && tags == "" && !saving
    {
      title := "";
      content := "";
      tags := "";
      saving := false;
    }

    /** The load effect: the note's fields, or three empty fields when
        there is no note. */
    method Load(note: Option<Note>)
      modifies this
      ensures note.Some? ==>
        title == note.value.title && content == note.value.content && tags == TagField(note.value.tags)
      ensures note.None? ==> title == "" && content == "" && tags == ""
      ensures saving == old(saving)
    {
      if note.Some? {
        title := note.value.title;
        content := note.value.content;
        tags := TagField(note.value.tags);
      } else {
        title := "";
        content := "";
        tags := "";
      }
    }

    /** Typing into one of the three fields. */
    method Edit(newTitle: string, newContent: string, newTags: string)
      modifies this
      ensures title == newTitle && content == newContent && tags == newTags && saving == old(saving)
    {
      title := newTitle;
      content := newContent;
      tags := newTags;
    }

    /** `handleSave` up to the call of `onSave`: a refused save changes
        nothing and yields its alert; an accepted one sets `saving` and
        yields the payload. */
    method BeginSave() returns (r: Result<NoteInput, string>)
      modifies this
      ensures title == old(title) && content == old(content) && tags == old(tags)
      ensures Validate(title, content).Some? ==>
        r == Err(AlertOf(Validate(title, content).value)) && saving == old(saving)
      ensures Validate(title, content).None? ==>
        r == Ok(PayloadOf(title, content, tags)) && saving
    {
      var trimmedTitle, trimmedContent := Trim(title), Trim(content);
      if trimmedTitle == "" {
        return Err(AlertOf(MissingTitle));
      }
      if trimmedContent == "" {
        return Err(AlertOf(MissingContent));
      }
      if |trimmedTitle| > MaxTitleLength {
        return Err(AlertOf(TitleTooLong));
      }
      if |trimmedContent| > MaxContentLength {
        return Err(AlertOf(ContentTooLong));
      }
      saving := true;
      var tagsArray := ParseTags(tags);
      r := Ok(NoteInput(trimmedTitle, trimmedContent, tagsArray));
    }

    /** The rest of `handleSave` once `onSave` settles: the generic alert
        if it threw, and `saving` cleared either way. */
    method EndSave(onSaveFailed: bool) returns (alert: Option<string>)
      modifies this
      ensures title == old(title) && content == old(content) && tags == old(tags)
      ensures !saving
      ensures alert == if onSaveFailed then Some(SaveFailedAlert) else None
    {
      alert := None;
      if onSaveFailed {
        alert := Some(SaveFailedAlert);
      }
      saving := false;
    }

    /** A whole save attempt: the checks, the call of `onSave` (whose
        failure is an input) and the cleanup. Whatever happens, the fields
        are kept and `saving` ends false. */
    method HandleSave(onSaveFails: bool) returns (outcome: SaveOutcome)
      requires !saving
      modifies this
      ensures title == old(title) && content == old(content) && tags == old(tags) && !saving
      ensures Validate(title, content).Some? <==> outcome.Refused?
      ensures outcome.Refused? ==> outcome.alert == AlertOf(Validate(title, content).value)
      ensures !outcome.Refused? ==>
        outcome.payload == PayloadOf(title, content, tags)
        && (outcome.SaveFailed? <==> onSaveFails)
        && (outcome.SaveFailed? ==> outcome.alert == SaveFailedAlert)
    {
      var begun := BeginSave();
      if begun.Err? {
        return Refused(begun.error);
      }
      var alert := EndSave(onSaveFails);
      if alert.Some? {
        outcome := SaveFailed(begun.value, alert.value);
      } else {
        outcome := Saved(begun.value);
      }
    }
  }
}
