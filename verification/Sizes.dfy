/** Sizes of finite sets. */
module Sizes {

  lemma SubsetSize<T>(s: set<T>, t: set<T>)
    requires s <= t
    ensures |s| <= |t| && (s != t ==> |s| < |t|)
  {
    assert |t - s| == |t| - |s|;
    if s != t {
      assert t - s != {};
    }
  }

  lemma Disjoint<T>(s: set<T>, t: set<T>)
    requires s !! t
    ensures |s + t| == |s| + |t|
  {
    assert (s + t) - s == t;
  }

  lemma Outside<T>(s: set<T>, t: set<T>) returns (x: T)
    requires |s| < |t|
    ensures x in t && x !in s
  {
    if t <= s {
      SubsetSize(t, s);
    }
    x :| x in t && x !in s;
  }
}
