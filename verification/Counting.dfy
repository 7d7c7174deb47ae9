/** Counting the elements of sequences and sets. */
module Counting {

  ghost predicate Distinct<T>(s: seq<T>) {
    forall j, k | 0 <= j < k < |s| :: s[j] != s[k]
  }

  ghost function Elements<T>(s: seq<T>): set<T> {
    set x | x in s
  }

  lemma {:induction false} ElementsCount<T>(s: seq<T>)
    ensures |Elements(s)| <= |s|
    ensures Distinct(s) ==> |Elements(s)| == |s|
  {
    if s != [] {
      var r, x := s[..|s| - 1], s[|s| - 1];
      ElementsCount(r);
      assert s == r + [x];
      assert Elements(s) == Elements(r) + {x};
      if x in r {
        assert Elements(s) == Elements(r);
      }
    }
  }

  lemma SubsetCount<T>(a: set<T>, b: set<T>)
    requires a <= b
    ensures |a| <= |b|
    ensures |a| == |b| ==> a == b
  {
    assert b == a + (b - a);
  }

  /** Distinct items that all have a place number at most the places; when they are as
      many as the places, every place is taken. */
  lemma Pigeonhole<T>(s: seq<T>, t: seq<T>)
    requires Distinct(s) && forall k | 0 <= k < |s| :: s[k] in t
    ensures |s| <= |t|
    ensures |s| == |t| ==> forall k | 0 <= k < |t| :: t[k] in s
  {
    ElementsCount(s);
    ElementsCount(t);
    SubsetCount(Elements(s), Elements(t));
    if |s| == |t| {
      forall k | 0 <= k < |t| ensures t[k] in s { assert t[k] in Elements(t); }
    }
  }
}
