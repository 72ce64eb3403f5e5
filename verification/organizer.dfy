/**
  The organizer cleanup: Python's `str.replace('mailto:', '')`, which scans
  left to right and removes every non-overlapping occurrence it meets.
*/
module Organizer {

  const Mailto: string := "mailto:"

  /** `pat` occurs in `s` starting at position `i`. */
  predicate OccursAt(s: string, pat: string, i: int)
  {
    0 <= i && i + |pat| <= |s| && s[i..i + |pat|] == pat
  }

  /** `s` contains "mailto:" somewhere. */
  predicate HasMailto(s: string)
  {
    exists i | 0 <= i <= |s| :: OccursAt(s, Mailto, i)
  }

  /** The number of occurrences the left-to-right scan removes. */
  function Removed(s: string): nat
    decreases |s|
  {
    if |s| == 0 then 0
    else if OccursAt(s, Mailto, 0) then 1 + Removed(s[|Mailto|..])
    else Removed(s[1..])
  }

  /**
    Removes "mailto:" as the scan meets it. The result is shorter by seven
    characters for every removed occurrence, and never longer than `s`.
  */
  function StripMailto(s: string): (r: string)
    ensures |r| == |s| - |Mailto| * Removed(s)
    ensures |r| <= |s|
    decreases |s|
  {
    if |s| == 0 then ""
    else if OccursAt(s, Mailto, 0) then StripMailto(s[|Mailto|..])
    else [s[0]] + StripMailto(s[1..])
  }

  /** An occurrence found past the first character is an occurrence of the tail. */
  lemma OccursInTail(s: string, i: int)
    requires 1 <= i && OccursAt(s, Mailto, i)
    ensures OccursAt(s[1..], Mailto, i - 1)
  {
  }

  /** Whenever "mailto:" occurs, the scan removes at least one occurrence. */
  lemma {:induction false} OccurrenceIsRemoved(s: string, i: int)
    requires OccursAt(s, Mailto, i)
    ensures Removed(s) > 0
    decreases |s|
  {
    if !OccursAt(s, Mailto, 0) {
      assert i != 0;
      OccursInTail(s, i);
      OccurrenceIsRemoved(s[1..], i - 1);
    }
  }

  /** A tail without "mailto:" comes from a string without it past the head. */
  lemma {:induction false} NothingRemovedMeansAbsent(s: string)
    requires Removed(s) == 0
    ensures StripMailto(s) == s
    decreases |s|
  {
    if |s| > 0 {
      assert !OccursAt(s, Mailto, 0);
      NothingRemovedMeansAbsent(s[1..]);
      assert [s[0]] + s[1..] == s;
    }
  }

  /** The organizer is left unchanged exactly when it does not contain "mailto:". */
  lemma StripMailtoUnchangedIff(s: string)
    ensures StripMailto(s) == s <==> !HasMailto(s)
  {
    if HasMailto(s) {
      var i :| OccursAt(s, Mailto, i);
      OccurrenceIsRemoved(s, i);
    } else {
      if Removed(s) > 0 {
        RemovedMeansOccurs(s);
      }
      NothingRemovedMeansAbsent(s);
    }
  }

  /** A removed occurrence is an occurrence. */
  lemma {:induction false} RemovedMeansOccurs(s: string)
    requires Removed(s) > 0
    ensures HasMailto(s)
    decreases |s|
  {
    if OccursAt(s, Mailto, 0) {
    } else {
      assert |s| > 0;
      RemovedMeansOccurs(s[1..]);
      var i :| 0 <= i <= |s[1..]| && OccursAt(s[1..], Mailto, i);
      assert s[i + 1..i + 1 + |Mailto|] == s[1..][i..i + |Mailto|];
      assert OccursAt(s, Mailto, i + 1);
    }
  }

  /** Occurrences in the tail are occurrences in `s`, one position further on. */
  lemma OccursInWhole(s: string, j: int)
    requires |s| > 0 && OccursAt(s[1..], Mailto, j)
    ensures OccursAt(s, Mailto, j + 1)
  {
    var whole := s[j + 1..j + 1 + |Mailto|];
    var tail := s[1..][j..j + |Mailto|];
    assert forall k | 0 <= k < |Mailto| :: whole[k] == tail[k];
    assert whole == tail;
  }

  /** When the first occurrence in `s` is at `i > 0`, the first one in the tail is at `i - 1`. */
  lemma FirstOccurrenceInTail(s: string, i: int)
    requires 0 < i && OccursAt(s, Mailto, i)
    requires forall j | 0 <= j < i :: !OccursAt(s, Mailto, j)
    ensures OccursAt(s[1..], Mailto, i - 1)
    ensures forall j | 0 <= j < i - 1 :: !OccursAt(s[1..], Mailto, j)
  {
    OccursInTail(s, i);
    forall j | 0 <= j < i - 1
      ensures !OccursAt(s[1..], Mailto, j)
    {
      if OccursAt(s[1..], Mailto, j) {
        OccursInWhole(s, j);
      }
    }
  }

  /**
    The scan works like find-and-skip: everything before the first "mailto:"
    is kept as it is, that occurrence is dropped, and the scan resumes right
    after it. So "mailto:alice@x" becomes "alice@x".
  */
  lemma {:induction false} StripMailtoAtFirstOccurrence(s: string, i: int)
    requires OccursAt(s, Mailto, i)
    requires forall j | 0 <= j < i :: !OccursAt(s, Mailto, j)
    ensures StripMailto(s) == s[..i] + StripMailto(s[i + |Mailto|..])
    decreases i
  {
    if i > 0 {
      assert !OccursAt(s, Mailto, 0);
      FirstOccurrenceInTail(s, i);
      StripMailtoAtFirstOccurrence(s[1..], i - 1);
      assert s[1..][i - 1 + |Mailto|..] == s[i + |Mailto|..];
      assert [s[0]] + s[1..][..i - 1] == s[..i];
    }
  }

  /** The usual organizer value loses its scheme prefix. */
  lemma StripMailtoDropsPrefix(address: string)
    requires !HasMailto(address)
    ensures StripMailto(Mailto + address) == address
  {
    var s := Mailto + address;
    assert s[..|Mailto|] == Mailto;
    assert OccursAt(s, Mailto, 0);
    assert s[|Mailto|..] == address;
    StripMailtoUnchangedIff(address);
  }

  /** A string shorter than "mailto:" passes through unchanged. */
  lemma {:induction false} ShortIsUnchanged(s: string)
    requires |s| < |Mailto|
    ensures StripMailto(s) == s
    decreases |s|
  {
    if |s| > 0 {
      ShortIsUnchanged(s[1..]);
      assert [s[0]] + s[1..] == s;
    }
  }

  /**
    One pass does not remove every "mailto:": removing the inner occurrence of
    "mamailto:ilto:" joins the outer pieces into a new one.
  */
  lemma StripMailtoCanLeaveMailto()
    ensures HasMailto(StripMailto("mamailto:ilto:"))
  {
    var s := "mamailto:ilto:";
    var inner := s[2..];
    var tail := inner[|Mailto|..];
    assert inner == "mailto:ilto:";
    assert tail == "ilto:";
    ShortIsUnchanged(tail);
    assert OccursAt(inner, Mailto, 0);
    assert StripMailto(inner) == tail;
    assert !OccursAt(s[1..], Mailto, 0) by { assert s[1..][0] != Mailto[0]; }
    assert s[1..][1..] == inner;
    assert StripMailto(s[1..]) == [s[1]] + tail;
    assert !OccursAt(s, Mailto, 0) by { assert s[2] != Mailto[2]; }
    var r := StripMailto(s);
    assert r == [s[0]] + ([s[1]] + tail);
    assert r[0..|Mailto|] == Mailto;
    assert OccursAt(r, Mailto, 0);
  }
}
