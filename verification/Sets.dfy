/** The sizes of finite sets. */
module Sets {

  lemma SubsetNotLarger<T>(a: set<T>, b: set<T>)
    requires a <= b
    ensures |a| <= |b|
  {
    assert |b| == |a| + |b - a|;
  }

  lemma UnionNotLarger<T>(a: set<T>, b: set<T>)
    ensures |a + b| <= |a| + |b|
  {
    assert |a + b| == |a| + |b - a|;
    SubsetNotLarger(b - a, b);
  }

  lemma WithoutOne<T>(elements: set<T>, x: T)
    ensures |elements - {x}| == |elements| - (if x in elements then 1 else 0)
  {
    if x in elements {
      assert elements == elements - {x} + {x};
    } else {
      assert elements == elements - {x};
    }
  }

  lemma PutCount<T>(elements: set<T>, x: T, put: bool)
    ensures |elements - {x} + (if put then {x} else {})|
         == |elements| - (if x in elements then 1 else 0) + (if put then 1 else 0)
  {
    WithoutOne(elements, x);
    if put {
      assert x !in elements - {x};
    } else {
      assert elements - {x} + {} == elements - {x};
    }
  }
}
