/**
 The label rewrite `transformKey` of the dashboard (App.js line 13): it turns a
 camelCase metric name into a spaced label by inserting one space after every
 ASCII lowercase letter that is immediately followed by an ASCII uppercase
 letter. The regular expression matches one lowercase letter and only looks
 ahead at the uppercase one, so adjacent boundaries (`aBcD`) are all rewritten.
 */
module Labels {

  /** The character class `[a-z]`. */
  predicate IsLower(c: char) {
    'a' <= c <= 'z'
  }

  /** The character class `[A-Z]`. */
  predicate IsUpper(c: char) {
    'A' <= c <= 'Z'
  }

  /** Position `j` of `s` holds a lowercase letter followed directly by an uppercase one. */
  predicate IsBoundary(s: string, j: int) {
    0 <= j && j + 1 < |s| && IsLower(s[j]) && IsUpper(s[j + 1])
  }

  /** `s` contains no lowercase-to-uppercase boundary anywhere. */
  predicate HasNoBoundary(s: string) {
    forall j | 0 <= j < |s| :: !IsBoundary(s, j)
  }

  /** The number of boundaries at positions strictly before `i`, counted left to right. */
  function BoundariesBefore(s: string, i: nat): (n: nat)
    requires i <= |s|
    ensures n <= i
  {
    if i == 0 then 0
    else BoundariesBefore(s, i - 1) + (if IsBoundary(s, i - 1) then 1 else 0)
  }

  /** The number of boundaries in the whole of `s`. */
  function Boundaries(s: string): nat {
    BoundariesBefore(s, |s|)
  }

  /** Where character `i` of `s` lands once every earlier boundary has received its space. */
  function Shifted(s: string, i: nat): nat
    requires i <= |s|
  {
    i + BoundariesBefore(s, i)
  }

  /** A boundary at position `j` is a boundary at `j - 1` of the tail. */
  lemma BoundaryOfTail(s: string, j: int)
    requires |s| > 0 && j >= 0
    ensures IsBoundary(s[1..], j) == IsBoundary(s, j + 1)
  {
  }

  /** Counting boundaries of `s` before `i` is counting the head's boundary plus the tail's. */
  lemma {:induction false} BoundariesBeforeTail(s: string, i: nat)
    requires 1 <= i <= |s|
    ensures BoundariesBefore(s, i) == (if IsBoundary(s, 0) then 1 else 0) + BoundariesBefore(s[1..], i - 1)
  {
    if i > 1 {
      BoundariesBeforeTail(s, i - 1);
      BoundaryOfTail(s, i - 2);
    }
  }

  /**
   Position `k` of the rewrite of `s` holds character `i` of `s`, or the space
   inserted after the boundary at `i`, for some `i`.
   */
  ghost predicate ComesFromInput(s: string, k: int)
  {
    exists i :: 0 <= i < |s| && (k == Shifted(s, i) || (IsBoundary(s, i) && k == Shifted(s, i) + 1))
  }

  /** The rewrite itself, one character at a time. */
  function TransformKey(s: string): (r: string)
    ensures |r| == |s| + Boundaries(s)
    ensures |s| > 0 ==> r[0] == s[0]
  {
    if |s| == 0 then ""
    else
      BoundariesBeforeTail(s, |s|);
      if IsBoundary(s, 0) then [s[0], ' '] + TransformKey(s[1..])
      else [s[0]] + TransformKey(s[1..])
  }

  /** Character `i > 0` of `s` is shifted by the head's space, if any, and by the tail's shift. */
  lemma ShiftedTail(s: string, i: nat)
    requires 1 <= i <= |s|
    ensures Shifted(s, i) == 1 + (if IsBoundary(s, 0) then 1 else 0) + Shifted(s[1..], i - 1)
  {
    BoundariesBeforeTail(s, i);
  }

  /** The rewrite of a non-empty `s` is its head, the space if the head is a boundary, then the rewritten tail. */
  lemma TransformKeyTail(s: string)
    requires |s| > 0
    ensures TransformKey(s)[1 + (if IsBoundary(s, 0) then 1 else 0)..] == TransformKey(s[1..])
  {
  }

  /** Every character of `s` survives, in order, at its shifted position. */
  lemma {:induction false} TransformKeyKeepsCharacters(s: string)
    ensures forall i :: 0 <= i < |s| ==>
      Shifted(s, i) < |TransformKey(s)| && TransformKey(s)[Shifted(s, i)] == s[i]
  {
    if |s| > 0 {
      TransformKeyKeepsCharacters(s[1..]);
      TransformKeyTail(s);
      forall i | 1 <= i < |s|
        ensures Shifted(s, i) < |TransformKey(s)| && TransformKey(s)[Shifted(s, i)] == s[i]
      {
        ShiftedTail(s, i);
      }
    }
  }

  /** Directly after every boundary character comes exactly one inserted space. */
  lemma {:induction false} TransformKeySpacesBoundaries(s: string)
    ensures forall i :: 0 <= i < |s| && IsBoundary(s, i) ==>
      Shifted(s, i) + 1 < |TransformKey(s)| && TransformKey(s)[Shifted(s, i) + 1] == ' '
  {
    if |s| > 0 {
      TransformKeySpacesBoundaries(s[1..]);
      TransformKeyTail(s);
      forall i | 1 <= i < |s| && IsBoundary(s, i)
        ensures Shifted(s, i) + 1 < |TransformKey(s)| && TransformKey(s)[Shifted(s, i) + 1] == ' '
      {
        ShiftedTail(s, i);
        BoundaryOfTail(s, i - 1);
      }
    }
  }

  /** Every position of the rewrite is a character of `s` or a space after a boundary: nothing else is added. */
  lemma {:induction false} TransformKeyAddsNothingElse(s: string)
    ensures forall k :: 0 <= k < |TransformKey(s)| ==> ComesFromInput(s, k)
  {
    if |s| > 0 {
      var t := s[1..];
      var b := if IsBoundary(s, 0) then 1 else 0;
      TransformKeyAddsNothingElse(t);
      forall k | 0 <= k < |TransformKey(s)|
        ensures ComesFromInput(s, k)
      {
        if k == 0 {
          assert k == Shifted(s, 0);
        } else if b == 1 && k == 1 {
          assert IsBoundary(s, 0) && k == Shifted(s, 0) + 1;
        } else {
          var k' := k - 1 - b;
          assert ComesFromInput(t, k');
          var i' :| 0 <= i' < |t| && (k' == Shifted(t, i') || (IsBoundary(t, i') && k' == Shifted(t, i') + 1));
          ShiftedTail(s, i' + 1);
          BoundaryOfTail(s, i');
          assert k == Shifted(s, i' + 1) || (IsBoundary(s, i' + 1) && k == Shifted(s, i' + 1) + 1);
        }
      }
    }
  }

  /** Without a boundary there is nothing to rewrite. */
  lemma {:induction false} NoBoundaryUnchanged(s: string)
    requires HasNoBoundary(s)
    ensures TransformKey(s) == s
  {
    if |s| > 0 {
      forall j | 0 <= j < |s| - 1 ensures !IsBoundary(s[1..], j) {
        BoundaryOfTail(s, j);
      }
      NoBoundaryUnchanged(s[1..]);
    }
  }

  /** A boundary anywhere makes the boundary count positive. */
  lemma {:induction false} BoundaryCounted(s: string, j: nat, i: nat)
    requires IsBoundary(s, j) && j < i <= |s|
    ensures BoundariesBefore(s, i) >= 1
  {
    if i > j + 1 {
      BoundaryCounted(s, j, i - 1);
    }
  }

  /** The boundary count is zero exactly when there is no boundary. */
  lemma {:induction false} NoBoundaryIffZeroCount(s: string)
    ensures HasNoBoundary(s) <==> Boundaries(s) == 0
  {
    if !HasNoBoundary(s) {
      var j: nat :| IsBoundary(s, j);
      BoundaryCounted(s, j, |s|);
    } else {
      NoBoundaryUnchanged(s);
    }
  }

  /** The rewrite leaves its input unchanged exactly when the input has no boundary. */
  lemma FixedIffNoBoundary(s: string)
    ensures TransformKey(s) == s <==> HasNoBoundary(s)
  {
    NoBoundaryIffZeroCount(s);
    if HasNoBoundary(s) {
      NoBoundaryUnchanged(s);
    }
  }

  /** The inserted space is neither lowercase nor uppercase, so the result has no boundary left. */
  lemma {:induction false} TransformKeyLeavesNoBoundary(s: string)
    ensures HasNoBoundary(TransformKey(s))
  {
    if |s| > 0 {
      var t := s[1..];
      var r := TransformKey(s);
      var rt := TransformKey(t);
      TransformKeyLeavesNoBoundary(t);
      if IsBoundary(s, 0) {
        assert r == [s[0], ' '] + rt;
        forall j ensures !IsBoundary(r, j) {
          if j >= 2 {
            assert IsBoundary(r, j) ==> IsBoundary(rt, j - 2);
          }
        }
      } else {
        assert r == [s[0]] + rt;
        forall j ensures !IsBoundary(r, j) {
          if j == 0 && |t| > 0 {
            assert r[1] == s[1];
          } else if j >= 1 {
            assert IsBoundary(r, j) ==> IsBoundary(rt, j - 1);
          }
        }
      }
    }
  }

  /** Rewriting a label a second time changes nothing. */
  lemma TransformKeyIdempotent(s: string)
    ensures TransformKey(TransformKey(s)) == TransformKey(s)
  {
    TransformKeyLeavesNoBoundary(s);
    NoBoundaryUnchanged(TransformKey(s));
  }
}
