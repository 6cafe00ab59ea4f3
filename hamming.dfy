/**
 * Hamming distance between two plate strings (`hamming_distance` in
 * utils.py): the number of positions where they differ; strings of different
 * lengths raise `ValueError`.
 */
module Hamming {
  import opened Wrappers

  /** The message of the `ValueError` raised on unequal lengths. */
  const LengthError: string := "Strings must be of the same length"

  /** `sum(el1 != el2 for el1, el2 in zip(s1, s2))` for equal lengths. */
  function Mismatches(s1: string, s2: string): (n: nat)
    requires |s1| == |s2|
    ensures n <= |s1|
  {
    if s1 == [] then 0
    else (if s1[0] != s2[0] then 1 else 0) + Mismatches(s1[1..], s2[1..])
  }

  /** `hamming_distance(s1, s2)`. */
  function HammingDistance(s1: string, s2: string): (r: Result<nat, string>)
    ensures r.Err? <==> |s1| != |s2|
    ensures r.Err? ==> r.error == LengthError
    ensures r.Ok? ==> r.value <= |s1|
  {
    if |s1| != |s2| then Err(LengthError) else Ok(Mismatches(s1, s2))
  }

  /** Two strings of the same length within `maxDist` differing positions. */
  predicate Close(s1: string, s2: string, maxDist: int) {
    |s1| == |s2| && Mismatches(s1, s2) <= maxDist
  }

  /** Comparing the computed distance with the bound is the closeness test. */
  lemma DistanceWithin(s1: string, s2: string, maxDist: int)
    ensures HammingDistance(s1, s2).Ok? ==> (HammingDistance(s1, s2).value <= maxDist <==> Close(s1, s2, maxDist))
  {
  }

  /** The distance is zero exactly between equal strings. */
  lemma {:induction false} MismatchesZero(s1: string, s2: string)
    requires |s1| == |s2|
    ensures Mismatches(s1, s2) == 0 <==> s1 == s2
  {
    if s1 != [] {
      MismatchesZero(s1[1..], s2[1..]);
      if s1[0] == s2[0] && s1[1..] == s2[1..] {
        assert s1 == [s1[0]] + s1[1..] && s2 == [s2[0]] + s2[1..];
      }
    }
  }

  lemma {:induction false} MismatchesSymmetric(s1: string, s2: string)
    requires |s1| == |s2|
    ensures Mismatches(s1, s2) == Mismatches(s2, s1)
  {
    if s1 != [] {
      MismatchesSymmetric(s1[1..], s2[1..]);
    }
  }

  /** The triangle inequality: the distance is a metric on strings of one length. */
  lemma {:induction false} MismatchesTriangle(s1: string, s2: string, s3: string)
    requires |s1| == |s2| == |s3|
    ensures Mismatches(s1, s3) <= Mismatches(s1, s2) + Mismatches(s2, s3)
  {
    if s1 != [] {
      MismatchesTriangle(s1[1..], s2[1..], s3[1..]);
    }
  }

  /** `s1` and `s2` differ at position `k` and nowhere else. */
  predicate OnlyDiffersAt(s1: string, s2: string, k: int)
    requires |s1| == |s2|
  {
    0 <= k < |s1| && s1[k] != s2[k] && forall i :: 0 <= i < |s1| && i != k ==> s1[i] == s2[i]
  }

  /** Distance one means: exactly one position differs. */
  lemma MismatchesOne(s1: string, s2: string)
    requires |s1| == |s2|
    ensures Mismatches(s1, s2) == 1 <==> exists k :: OnlyDiffersAt(s1, s2, k)
  {
    if Mismatches(s1, s2) == 1 {
      var k := DistanceOneHasPosition(s1, s2);
    }
    if exists k :: OnlyDiffersAt(s1, s2, k) {
      var k :| OnlyDiffersAt(s1, s2, k);
      OnePositionHasDistanceOne(s1, s2, k);
    }
  }

  lemma {:induction false} DistanceOneHasPosition(s1: string, s2: string) returns (k: nat)
    requires |s1| == |s2| && Mismatches(s1, s2) == 1
    ensures OnlyDiffersAt(s1, s2, k)
  {
    var t1, t2 := s1[1..], s2[1..];
    assert forall i :: 0 < i < |s1| ==> s1[i] == t1[i - 1] && s2[i] == t2[i - 1];
    if s1[0] != s2[0] {
      MismatchesZero(t1, t2);
      k := 0;
    } else {
      var k' := DistanceOneHasPosition(t1, t2);
      k := k' + 1;
    }
  }

  lemma {:induction false} OnePositionHasDistanceOne(s1: string, s2: string, k: int)
    requires |s1| == |s2| && OnlyDiffersAt(s1, s2, k)
    ensures Mismatches(s1, s2) == 1
  {
    var t1, t2 := s1[1..], s2[1..];
    if k == 0 {
      assert t1 == t2 by {
        assert forall i :: 0 <= i < |t1| ==> t1[i] == s1[i + 1] && t2[i] == s2[i + 1];
      }
      MismatchesZero(t1, t2);
    } else {
      assert OnlyDiffersAt(t1, t2, k - 1) by {
        assert forall i :: 0 <= i < |t1| ==> t1[i] == s1[i + 1] && t2[i] == s2[i + 1];
      }
      OnePositionHasDistanceOne(t1, t2, k - 1);
    }
  }

  /** Worked cases: one differing position, and two. */
  lemma Examples()
    ensures HammingDistance("ABC1234", "ABC1235") == Ok(1)
    ensures HammingDistance("ABC1234", "ABD1235") == Ok(2)
    ensures HammingDistance("ABC1234", "ABC123").Err?
  {
  }
}
