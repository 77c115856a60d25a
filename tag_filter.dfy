/** The tag filter panel: toggling a tag in the selection, clearing it, and
    what the panel shows. */
module TagFilter {
  import opened Text
  import opened Collections

  /** `selectedTags.filter(t => t !== tag)`. */
  function RemoveAll(selected: seq<string>, tag: string): (r: seq<string>)
    ensures tag !in r
    ensures forall t :: t != tag ==> (t in r <==> t in selected)
  {
    if |selected| == 0 then []
    else
      assert selected == [selected[0]] + selected[1..];
      (if selected[0] == tag then [] else [selected[0]]) + RemoveAll(selected[1..], tag)
  }

  /** `handleTagToggle`: a selected tag is removed, any other is appended. */
  function Toggle(selected: seq<string>, tag: string): seq<string> {
    if tag in selected then RemoveAll(selected, tag) else selected + [tag]
  }

  /** `clearAllTags`. */
  function ClearAll(): seq<string> {
    []
  }

  /** Removal keeps the order of the other tags: it acts piece by piece on
      a concatenation and leaves a piece without the tag unchanged. */
  lemma {:induction false} RemoveAllKeepsOrder(a: seq<string>, b: seq<string>, tag: string)
    ensures RemoveAll(a + b, tag) == RemoveAll(a, tag) + RemoveAll(b, tag)
    ensures tag !in a ==> RemoveAll(a, tag) == a
  {
    if |a| > 0 {
      RemoveAllKeepsOrder(a[1..], b, tag);
      assert (a + b)[0] == a[0] && (a + b)[1..] == a[1..] + b;
      assert [a[0]] + a[1..] == a;
      assert RemoveAll(a + b, tag) == (if a[0] == tag then [] else [a[0]]) + RemoveAll(a[1..] + b, tag);
    } else {
      assert a + b == b;
    }
  }

  /** Toggling flips the membership of the toggled tag and no other. */
  lemma ToggleFlipsMembership(selected: seq<string>, tag: string)
    ensures tag in Toggle(selected, tag) <==> tag !in selected
    ensures forall t :: t != tag ==> (t in Toggle(selected, tag) <==> t in selected)
  {
  }

  /** An unselected tag goes to the end; a selected one loses every
      occurrence while the rest keep their order. */
  lemma ToggleShape(selected: seq<string>, tag: string)
    ensures tag !in selected ==> Toggle(selected, tag) == selected + [tag]
    ensures tag in selected ==>
      Toggle(selected, tag) == RemoveAll(selected, tag) && |Toggle(selected, tag)| < |selected|
  {
    if tag in selected {
      var k :| 0 <= k < |selected| && selected[k] == tag;
      assert selected == selected[..k] + ([tag] + selected[k + 1..]);
      RemoveAllKeepsOrder(selected[..k], [tag] + selected[k + 1..], tag);
      RemoveAllKeepsOrder([tag], selected[k + 1..], tag);
      RemoveAllLength(selected[..k], tag);
      RemoveAllLength(selected[k + 1..], tag);
    }
  }

  lemma {:induction false} RemoveAllLength(s: seq<string>, tag: string)
    ensures |RemoveAll(s, tag)| <= |s|
  {
    if |s| > 0 {
      RemoveAllLength(s[1..], tag);
    }
  }

  /** Toggling an unselected tag twice restores the selection. */
  lemma ToggleTwice(selected: seq<string>, tag: string)
    requires tag !in selected
    ensures Toggle(Toggle(selected, tag), tag) == selected
  {
    RemoveAllKeepsOrder(selected, [tag], tag);
    RemoveAllKeepsOrder(selected, [], tag);
    assert RemoveAll([tag], tag) == [] by {
      assert [tag][1..] == [];
    }
  }

  lemma {:induction false} RemoveAllDistinct(s: seq<string>, tag: string)
    requires NoDuplicates(s)
    ensures NoDuplicates(RemoveAll(s, tag))
  {
    if |s| > 0 {
      RemoveAllDistinct(s[1..], tag);
      assert s[0] !in s[1..];
    }
  }

  /** A selection without repetitions keeps that property under toggling. */
  lemma ToggleKeepsDistinct(selected: seq<string>, tag: string)
    requires NoDuplicates(selected)
    ensures NoDuplicates(Toggle(selected, tag))
  {
    if tag in selected {
      RemoveAllDistinct(selected, tag);
    }
  }

  // ---------------------------------------------------------------- what the panel shows

  /** The panel is not rendered at all without available tags. */
  predicate IsRendered(availableTags: seq<string>) {
    |availableTags| > 0
  }

  /** "Clear All" and the counter appear only with a non-empty selection. */
  predicate ShowsSelectionControls(selectedTags: seq<string>) {
    |selectedTags| > 0
  }

  /** The panel appears exactly when some tag is available, and its
      "Clear All" button and counter exactly when some tag is selected.
      Clearing hides both controls and leaves no tag selected, so the
      next toggle selects just that tag. */
  lemma PanelControls(availableTags: seq<string>, selectedTags: seq<string>)
    ensures IsRendered(availableTags) <==> availableTags != []
    ensures ShowsSelectionControls(selectedTags) <==> selectedTags != []
    ensures !ShowsSelectionControls(ClearAll())
    ensures forall t :: t !in ClearAll() && Toggle(ClearAll(), t) == [t]
  {
  }

  /** `{n} tag{n !== 1 ? 's' : ''} selected`. */
  function CountLabel(n: nat): string {
    NatToString(n) + " tag" + (if n != 1 then "s" else "") + " selected"
  }

  /** The label reads "tags" exactly when the count is not one. */
  lemma CountLabelPlural(n: nat)
    ensures var shown := CountLabel(n);
      |shown| > 9 && (shown[|shown| - 10] == 's' <==> n != 1)
  {
    var shown := CountLabel(n);
    var d := NatToString(n);
    if n != 1 {
      assert shown == d + " tags selected";
    } else {
      assert shown == d + " tag selected";
    }
  }
}
