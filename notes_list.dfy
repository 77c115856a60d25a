/** The note list in the sidebar: which of its three states it shows, the
    content preview, and the tag badges of each note. */
module NotesList {
  import opened Text
  import opened NoteModel

  /** The preview length used for every note. */
  const PreviewLength: nat := 60

  /** `truncateContent(content, maxLength = 60)`: short content as it is,
      longer content cut to `maxLength` characters, trimmed, and marked
      with three dots. */
  function TruncateContent(content: string, maxLength: nat := PreviewLength): string {
    if |content| <= maxLength then content else Trim(content[..maxLength]) + "..."
  }

  /** Content that fits is shown whole. Longer content becomes its first
      `maxLength` characters with only the white space at their two ends
      cut, followed by "...", so the preview is never more than three
      characters longer than the limit. */
  lemma TruncateContentShape(content: string, maxLength: nat)
    ensures |content| <= maxLength ==> TruncateContent(content, maxLength) == content
    ensures |content| > maxLength ==>
      var r := TruncateContent(content, maxLength);
      && |r| >= 3 && r[|r| - 3..] == "..."
      && |r| <= maxLength + 3
      && IsTrimmed(r[..|r| - 3])
      && IsTrimOf(r[..|r| - 3], content[..maxLength])
  {
    if |content| > maxLength {
      var r := TruncateContent(content, maxLength);
      assert r[..|r| - 3] == Trim(content[..maxLength]);
    }
  }

  // ---------------------------------------------------------------- tag badges

  /** The badges of one note: the tags shown and the `+n` count, if any. */
  datatype TagStrip = TagStrip(shown: seq<string>, more: Option<nat>)

  /** The badges rendered under a note; none at all for a note without tags. */
  function TagStripOf(tags: seq<string>): Option<TagStrip> {
    if |tags| == 0 then None
    else Some(TagStrip(tags[..Min(3, |tags|)], if |tags| > 3 then Some(|tags| - 3) else None))
  }

  /** At most the first three tags are shown, in their order; the `+n`
      badge appears exactly when there are more than three, and the shown
      tags plus `n` account for every tag. */
  lemma TagStripCounts(tags: seq<string>)
    ensures TagStripOf(tags).None? <==> tags == []
    ensures TagStripOf(tags).Some? ==>
      var strip := TagStripOf(tags).value;
      && |strip.shown| <= 3
      && strip.shown == tags[..|strip.shown|]
      && (strip.more.Some? <==> |tags| > 3)
      && |strip.shown| + (if strip.more.Some? then strip.more.value else 0) == |tags|
  {
  }

  // ---------------------------------------------------------------- the three states

  datatype ListView = Spinner | NoNotes | Items(notes: seq<Note>)

  /** The loading state wins over the empty one. */
  function ViewOf(notes: seq<Note>, loading: bool): ListView {
    if loading then Spinner else if |notes| == 0 then NoNotes else Items(notes)
  }

  /** While loading only the spinner shows; otherwise the empty message
      shows exactly when there are no notes, and else every note in order. */
  lemma ViewOfStates(notes: seq<Note>, loading: bool)
    ensures loading ==> ViewOf(notes, loading) == Spinner
    ensures !loading ==> (ViewOf(notes, loading) == NoNotes <==> notes == [])
    ensures !loading && notes != [] ==> ViewOf(notes, loading) == Items(notes)
  {
  }

  /** A row is highlighted when its id is the selected note's id. */
  predicate IsHighlighted(selected: Option<Note>, note: Note) {
    selected.Some? && selected.value.id == note.id
  }

  /** With no selection no row is highlighted; otherwise exactly the rows
      with the selected id are, which in a list without repeated ids is at
      most one row. */
  lemma HighlightedRows(selected: Option<Note>, notes: seq<Note>)
    ensures selected.None? ==> forall i :: 0 <= i < |notes| ==> !IsHighlighted(selected, notes[i])
    ensures selected.Some? ==>
      forall i :: 0 <= i < |notes| ==> (IsHighlighted(selected, notes[i]) <==> notes[i].id == selected.value.id)
    ensures (forall i, j :: 0 <= i < j < |notes| ==> notes[i].id != notes[j].id) ==>
      forall i, j :: 0 <= i < j < |notes| && IsHighlighted(selected, notes[i]) ==> !IsHighlighted(selected, notes[j])
  {
  }
}
