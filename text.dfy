/** JavaScript string built-ins the notes app relies on (String.prototype.trim,
    toLowerCase, split on one character, Array.prototype.join), modelled over
    Dafny strings. White space is a fixed set of characters and lower-casing
    touches only the ASCII letters A-Z. */
module Text {

  /** The characters `trim` strips in this model: the ASCII white space and
      line terminators plus no-break space, byte-order mark and the two
      Unicode line/paragraph separators. */
  predicate IsSpace(c: char) {
    c == ' ' || c == '\t' || c == '\n' || c == '\r' || c == '\U{000B}' || c == '\U{000C}'
    || c == '\U{00A0}' || c == '\U{FEFF}' || c == '\U{2028}' || c == '\U{2029}'
  }

  predicate AllSpace(s: string) {
    forall i :: 0 <= i < |s| ==> IsSpace(s[i])
  }

  /** Neither the first nor the last character is white space. */
  predicate IsTrimmed(s: string) {
    |s| > 0 ==> !IsSpace(s[0]) && !IsSpace(s[|s| - 1])
  }

  /** `r` is the piece of `s` that starts at index `i`. */
  predicate PieceAt(r: string, s: string, i: int) {
    0 <= i <= |s| - |r| && r == s[i..i + |r|]
  }

  /** `r` is `s` with the white space `s[..i]` cut from the front and the
      white space `s[i + |r|..]` cut from the back. */
  predicate TrimmedAt(r: string, s: string, i: int) {
    PieceAt(r, s, i) && AllSpace(s[..i]) && AllSpace(s[i + |r|..])
  }

  /** `r` is `s` with only white space cut from its two ends. */
  ghost predicate IsTrimOf(r: string, s: string) {
    exists i :: TrimmedAt(r, s, i)
  }

  /** `s.trim()`: leading white space is dropped, then trailing white space.
      The result is `s` with only white space cut from its ends and no white
      space left at either end; it is empty exactly when `s` is all white
      space. */
  function Trim(s: string): (r: string)
    ensures IsTrimmed(r)
    ensures |r| <= |s|
    ensures IsTrimOf(r, s)
    ensures r == "" <==> AllSpace(s)
    decreases |s|
  {
    if |s| > 0 && IsSpace(s[0]) then
      var r := Trim(s[1..]);
      assert IsTrimOf(r, s) by {
        var i :| TrimmedAt(r, s[1..], i);
        TrimmedAtAfterSpace(r, s, i);
      }
      assert AllSpace(s) <==> AllSpace(s[1..]) by {
        assert forall k :: 0 <= k < |s[1..]| ==> s[1..][k] == s[k + 1];
      }
      r
    else if |s| > 0 && IsSpace(s[|s| - 1]) then
      var r := Trim(s[..|s| - 1]);
      assert IsTrimOf(r, s) by {
        var i :| TrimmedAt(r, s[..|s| - 1], i);
        TrimmedAtBeforeSpace(r, s, i);
      }
      assert AllSpace(s) <==> AllSpace(s[..|s| - 1]) by {
        assert forall k :: 0 <= k < |s| - 1 ==> s[..|s| - 1][k] == s[k];
      }
      r
    else
      assert TrimmedAt(s, s, 0);
      s
  }

  lemma TrimmedAtAfterSpace(r: string, s: string, i: int)
    requires |s| > 0 && IsSpace(s[0]) && TrimmedAt(r, s[1..], i)
    ensures TrimmedAt(r, s, i + 1)
  {
    var t := s[1..];
    assert t[i..i + |r|] == s[i + 1..i + 1 + |r|];
    assert t[i + |r|..] == s[i + 1 + |r|..];
    var front := s[..i + 1];
    forall k | 0 <= k < |front| ensures IsSpace(front[k]) {
      if k > 0 {
        assert front[k] == t[..i][k - 1];
      }
    }
  }

  lemma TrimmedAtBeforeSpace(r: string, s: string, i: int)
    requires |s| > 0 && IsSpace(s[|s| - 1]) && TrimmedAt(r, s[..|s| - 1], i)
    ensures TrimmedAt(r, s, i)
  {
    var t := s[..|s| - 1];
    assert t[..i] == s[..i];
    assert t[i..i + |r|] == s[i..i + |r|];
    var j := i + |r|;
    forall k | 0 <= k < |s| - j ensures IsSpace(s[j..][k]) {
      if j + k < |s| - 1 {
        assert s[j..][k] == t[j..][k];
      }
    }
  }

  /** Around a piece cut at `i` every character is white space, and a
      trimmed non-empty piece starts and ends with one that is not. */
  lemma TrimmedAtBounds(r: string, s: string, i: int)
    requires TrimmedAt(r, s, i)
    ensures forall k :: 0 <= k < i ==> IsSpace(s[k])
    ensures forall k :: i + |r| <= k < |s| ==> IsSpace(s[k])
    ensures |r| > 0 && IsTrimmed(r) ==> !IsSpace(s[i]) && !IsSpace(s[i + |r| - 1])
  {
    assert forall k :: 0 <= k < i ==> s[..i][k] == s[k];
    assert forall k :: i + |r| <= k < |s| ==> s[i + |r|..][k - i - |r|] == s[k];
    if |r| > 0 {
      assert r[0] == s[i] && r[|r| - 1] == s[i + |r| - 1];
    }
  }

  /** Two trimmed pieces of `s` with only white space around them are the
      same string. */
  lemma TrimmedPiecesAgree(s: string, r1: string, i1: int, r2: string, i2: int)
    requires IsTrimmed(r1) && TrimmedAt(r1, s, i1)
    requires IsTrimmed(r2) && TrimmedAt(r2, s, i2)
    ensures r1 == r2
  {
    TrimmedAtBounds(r1, s, i1);
    TrimmedAtBounds(r2, s, i2);
  }

  /** `Trim(s)` is the only string with no white space at its ends that
      is `s` with only white space cut from its ends. */
  lemma TrimCharacterised(s: string, r: string)
    requires IsTrimmed(r) && IsTrimOf(r, s)
    ensures r == Trim(s)
  {
    var i :| TrimmedAt(r, s, i);
    var t := Trim(s);
    var j :| TrimmedAt(t, s, j);
    TrimmedPiecesAgree(s, r, i, t, j);
  }

  lemma TrimOfTrimmed(s: string)
    requires IsTrimmed(s)
    ensures Trim(s) == s
  {
  }

  /** `trim` ignores white space in front of a string. */
  lemma {:induction false} TrimSkipsLeadingSpace(c: char, s: string)
    requires IsSpace(c)
    ensures Trim([c] + s) == Trim(s)
  {
    assert ([c] + s)[1..] == s;
  }

  /** `trim` ignores white space after a string. */
  lemma {:induction false} TrimSkipsTrailingSpace(s: string, c: char)
    requires IsSpace(c)
    ensures Trim(s + [c]) == Trim(s)
    decreases |s|
  {
    if |s| > 0 && IsSpace(s[0]) {
      assert (s + [c])[1..] == s[1..] + [c];
      TrimSkipsTrailingSpace(s[1..], c);
    } else if |s| == 0 {
      assert [c][1..] == [];
    } else {
      assert (s + [c])[..|s + [c]| - 1] == s;
    }
  }

  lemma TrimIdempotent(s: string)
    ensures Trim(Trim(s)) == Trim(s)
  {
    TrimOfTrimmed(Trim(s));
  }

  /** Trimming adds no character: one missing from `s` is missing from its
      trimmed form. */
  lemma TrimKeepsAbsent(s: string, c: char)
    requires c !in s
    ensures c !in Trim(s)
  {
    var t := Trim(s);
    var i :| TrimmedAt(t, s, i);
    forall k | 0 <= k < |t| ensures t[k] != c {
      assert t[k] == s[i + k];
    }
  }

  // ---------------------------------------------------------------- case

  predicate IsUpper(c: char) {
    'A' <= c <= 'Z'
  }

  /** ASCII `toLowerCase` on one character. */
  function LowerChar(c: char): (r: char)
    ensures !IsUpper(r)
    ensures IsSpace(r) <==> IsSpace(c)
    ensures !IsUpper(c) ==> r == c
  {
    if IsUpper(c) then (c as int + 32) as char else c
  }

  predicate IsLower(s: string) {
    forall i :: 0 <= i < |s| ==> !IsUpper(s[i])
  }

  /** `s.toLowerCase()` restricted to ASCII letters. */
  function Lower(s: string): (r: string)
    ensures |r| == |s|
    ensures IsLower(r)
  {
    seq(|s|, i requires 0 <= i < |s| => LowerChar(s[i]))
  }

  lemma LowerOfLower(s: string)
    requires IsLower(s)
    ensures Lower(s) == s
  {
  }

  /** Lower-casing neither adds nor removes white space at the ends. */
  lemma LowerKeepsTrimmed(s: string)
    requires IsTrimmed(s)
    ensures IsTrimmed(Lower(s))
  {
  }

  // ---------------------------------------------------------------- split / join

  function Occurrences(s: string, d: char): nat {
    if |s| == 0 then 0 else (if s[0] == d then 1 else 0) + Occurrences(s[1..], d)
  }

  /** `s.split(d)` for a one-character separator: the pieces between the
      separators, empty pieces included. */
  function Split(s: string, d: char): (r: seq<string>)
    ensures |r| >= 1
    decreases |s|
  {
    if |s| == 0 then [""]
    else
      var rest := Split(s[1..], d);
      if s[0] == d then [""] + rest else [[s[0]] + rest[0]] + rest[1..]
  }

  /** `parts.join(sep)`. */
  function Join(parts: seq<string>, sep: string): string {
    if |parts| == 0 then ""
    else if |parts| == 1 then parts[0]
    else parts[0] + sep + Join(parts[1..], sep)
  }

  predicate NoneContains(parts: seq<string>, d: char) {
    forall i :: 0 <= i < |parts| ==> d !in parts[i]
  }

  /** There is one more piece than there are separators. */
  lemma {:induction false} SplitLength(s: string, d: char)
    ensures |Split(s, d)| == Occurrences(s, d) + 1
  {
    if |s| > 0 {
      SplitLength(s[1..], d);
    }
  }

  /** No piece contains the separator. */
  lemma {:induction false} SplitPiecesFree(s: string, d: char)
    ensures NoneContains(Split(s, d), d)
  {
    if |s| > 0 {
      SplitPiecesFree(s[1..], d);
      var rest := Split(s[1..], d);
      if s[0] != d {
        assert d !in rest[0];
        assert forall i :: 1 <= i < |rest| ==> d !in rest[i];
      }
    }
  }

  /** Joining the pieces with the separator gives back the string. */
  lemma {:induction false} JoinSplit(s: string, d: char)
    ensures Join(Split(s, d), [d]) == s
  {
    if |s| > 0 {
      JoinSplit(s[1..], d);
      var rest := Split(s[1..], d);
      if s[0] == d {
        assert Split(s, d) == [""] + rest;
        assert ([""] + rest)[1..] == rest;
      } else {
        var r := Split(s, d);
        assert r == [[s[0]] + rest[0]] + rest[1..];
        if |rest| == 1 {
          assert s == [s[0]] + s[1..];
        } else {
          assert r[1..] == rest[1..];
          assert s == [s[0]] + s[1..];
        }
      }
    }
  }

  /** A string free of the separator is its own single piece. */
  lemma {:induction false} SplitOfFree(s: string, d: char)
    requires d !in s
    ensures Split(s, d) == [s]
  {
    if |s| > 0 {
      assert s == [s[0]] + s[1..];
      SplitOfFree(s[1..], d);
      assert s[0] != d && [s[0]] + s[1..] == s;
    }
  }

  /** Splitting `p + d + q` with `p` free of `d` puts `p` first. */
  lemma {:induction false} SplitAfterPiece(p: string, d: char, q: string)
    requires d !in p
    ensures Split(p + [d] + q, d) == [p] + Split(q, d)
    decreases |p|
  {
    var s := p + [d] + q;
    if |p| == 0 {
      assert s[0] == d && s[1..] == q;
    } else {
      assert s[0] == p[0] && s[1..] == p[1..] + [d] + q;
      SplitAfterPiece(p[1..], d, q);
      assert [p[0]] + p[1..] == p;
    }
  }

  /** Splitting a join of separator-free pieces gives back the pieces. */
  lemma {:induction false} SplitJoin(parts: seq<string>, d: char)
    requires |parts| >= 1 && NoneContains(parts, d)
    ensures Split(Join(parts, [d]), d) == parts
  {
    if |parts| == 1 {
      SplitOfFree(parts[0], d);
    } else {
      SplitJoin(parts[1..], d);
      SplitAfterPiece(parts[0], d, Join(parts[1..], [d]));
      assert [parts[0]] + parts[1..] == parts;
    }
  }

  /** A character that is not the separator joins the first piece. */
  lemma SplitCons(c: char, s: string, d: char)
    requires c != d
    ensures Split([c] + s, d) == [[c] + Split(s, d)[0]] + Split(s, d)[1..]
  {
    assert ([c] + s)[1..] == s;
  }

  // ---------------------------------------------------------------- numbers

  function DigitChar(n: nat): char
    requires n < 10
  {
    "0123456789"[n]
  }

  /** The decimal text JavaScript prints for a non-negative integer. */
  function NatToString(n: nat): (r: string)
    ensures |r| >= 1
    ensures forall i :: 0 <= i < |r| ==> '0' <= r[i] <= '9'
  {
    if n < 10 then [DigitChar(n)] else NatToString(n / 10) + [DigitChar(n % 10)]
  }
}
