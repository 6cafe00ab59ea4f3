/** Small facts about sequences shared by the plate modules. */
module Seqs {

  /** The elements at positions i and j differ. */
  predicate Differ<T(==)>(s: seq<T>, i: int, j: int)
    requires 0 <= i < |s| && 0 <= j < |s|
  {
    s[i] != s[j]
  }

  /** No element occurs twice. Quantified over `Differ` so that the fact is
      used only where a proof names a pair of positions. */
  predicate NoDuplicates<T(==)>(s: seq<T>) {
    forall i, j :: 0 <= i < j < |s| ==> Differ(s, i, j)
  }

  /** Distinct positions hold distinct elements, in either order. */
  lemma DistinctAt<T>(s: seq<T>, i: int, j: int)
    requires NoDuplicates(s) && 0 <= i < |s| && 0 <= j < |s| && i != j
    ensures s[i] != s[j]
  {
    if i < j {
      assert Differ(s, i, j);
    } else {
      assert Differ(s, j, i);
    }
  }

  /** Concatenating two repeat-free sequences with no common element. */
  lemma NoDuplicatesAppend<T>(a: seq<T>, b: seq<T>)
    requires NoDuplicates(a) && NoDuplicates(b)
    requires forall x :: x in a ==> x !in b
    ensures NoDuplicates(a + b)
  {
    var s := a + b;
    forall i, j | 0 <= i < j < |s| ensures Differ(s, i, j) {
      if j < |a| {
        assert Differ(a, i, j);
      } else if |a| <= i {
        assert Differ(b, i - |a|, j - |a|);
      } else {
        assert s[i] in a && s[j] in b;
      }
    }
  }

  /** In a repeat-free sequence every element occurs once. */
  lemma {:induction false} DistinctCount<T>(s: seq<T>, x: T)
    requires NoDuplicates(s)
    ensures multiset(s)[x] == if x in s then 1 else 0
  {
    if s != [] {
      var t := s[1..];
      forall i, j | 0 <= i < j < |t| ensures Differ(t, i, j) {
        assert Differ(s, i + 1, j + 1);
      }
      DistinctCount(t, x);
      assert s == [s[0]] + t;
      forall j | 0 <= j < |t| ensures t[j] != s[0] {
        assert Differ(s, 0, j + 1);
      }
    }
  }

  /** Two repeat-free sequences with the same elements are permutations of
      each other. */
  lemma DistinctSameElements<T>(a: seq<T>, b: seq<T>)
    requires NoDuplicates(a) && NoDuplicates(b)
    requires forall x :: x in a <==> x in b
    ensures multiset(a) == multiset(b)
  {
    forall x ensures multiset(a)[x] == multiset(b)[x] {
      DistinctCount(a, x);
      DistinctCount(b, x);
    }
  }
}
