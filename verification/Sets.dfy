/** Sizes of finite sets. */
module Sets {
  lemma SubsetSize<T>(a: set<T>, b: set<T>)
    requires a <= b
    ensures |a| <= |b|
    ensures a != b ==> |a| < |b|
  {
    assert b == a + (b - a);
    assert |b| == |a| + |b - a|;
  }

  /** Moving a part from one set to another, disjoint one keeps the total. */
  lemma MoveSize<T>(a: set<T>, b: set<T>, part: set<T>)
    requires part <= a && part !! b
    ensures |a - part| + |b + part| == |a| + |b|
  {
    assert a == (a - part) + part;
    assert |a| == |a - part| + |part|;
    assert |b + part| == |b| + |part|;
  }
}
