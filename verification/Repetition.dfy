/** How much of a sequence is repetition. */
module Repetition {
  import opened Sets

  function Elements<T>(xs: seq<T>): set<T> {
    set x | x in xs
  }

  /** For each of these elements, its occurrences beyond the first, added up. */
  ghost function Excess<T>(xs: seq<T>, elements: set<T>): int
    decreases |elements|
  {
    if elements == {} then 0
    else
      var some :| some in elements;
      multiset(xs)[some] - 1 + Excess(xs, elements - {some})
  }

  lemma {:induction false} ExcessRemove<T>(xs: seq<T>, elements: set<T>, x: T)
    requires x in elements
    ensures Excess(xs, elements) == multiset(xs)[x] - 1 + Excess(xs, elements - {x})
    decreases |elements|
  {
    var chosen :| chosen in elements
      && Excess(xs, elements) == multiset(xs)[chosen] - 1 + Excess(xs, elements - {chosen});
    if chosen != x {
      ExcessRemove(xs, elements - {chosen}, x);
      ExcessRemove(xs, elements - {x}, chosen);
      assert elements - {chosen} - {x} == elements - {x} - {chosen};
    }
  }

  lemma {:induction false} ExcessOfOthers<T>(xs: seq<T>, y: T, elements: set<T>)
    requires y !in elements
    ensures Excess(xs + [y], elements) == Excess(xs, elements)
    decreases |elements|
  {
    if elements != {} {
      var some :| some in elements;
      ExcessRemove(xs, elements, some);
      ExcessRemove(xs + [y], elements, some);
      ExcessOfOthers(xs, y, elements - {some});
    }
  }

  /** The length is the number of elements and the occurrences beyond the first of each. */
  lemma {:induction false} LengthIsElementsAndExcess<T>(xs: seq<T>)
    ensures |xs| == |Elements(xs)| + Excess(xs, Elements(xs))
    decreases |xs|
  {
    if xs == [] {
      assert Elements(xs) == {};
    } else {
      var init, last := xs[..|xs| - 1], xs[|xs| - 1];
      assert xs == init + [last];
      var others := Elements(init) - {last};
      LengthIsElementsAndExcess(init);
      assert Elements(xs) == others + {last} && Elements(xs) - {last} == others;
      ExcessRemove(xs, Elements(xs), last);
      ExcessOfOthers(init, last, others);
      WithoutOne(Elements(xs), last);
      WithoutOne(Elements(init), last);
      assert multiset(xs)[last] == multiset(init)[last] + 1;
      if last in init {
        ExcessRemove(init, Elements(init), last);
      } else {
        assert Elements(init) == others;
        assert multiset(init)[last] == 0;
      }
    }
  }

  lemma {:induction false} NoExcess<T>(xs: seq<T>, elements: set<T>)
    requires forall x :: x in elements ==> multiset(xs)[x] == 1
    ensures Excess(xs, elements) == 0
    decreases |elements|
  {
    if elements != {} {
      var some :| some in elements;
      ExcessRemove(xs, elements, some);
      NoExcess(xs, elements - {some});
    }
  }

  lemma ImageRepeatsIff<T, U>(xs: seq<T>, ys: seq<U>, x: T, f: T -> U)
    requires |xs| == |ys| && forall i :: 0 <= i < |xs| ==> ys[i] == f(xs[i])
    requires forall a :: a in xs && f(a) == f(x) ==> a == x
    ensures x in xs <==> f(x) in ys
  {
    if x in xs {
      var i :| 0 <= i < |xs| && xs[i] == x;
      assert ys[i] == f(x);
    }
    if f(x) in ys {
      var i :| 0 <= i < |ys| && ys[i] == f(x);
      assert xs[i] in xs;
    }
  }

  lemma ElementsAppend<T>(xs: seq<T>, x: T)
    ensures Elements(xs + [x]) == Elements(xs) + {x}
    ensures |Elements(xs + [x])| == |Elements(xs)| + (if x in xs then 0 else 1)
  {
    assert Elements(xs + [x]) == Elements(xs) + {x};
    if x in xs {
      assert Elements(xs) + {x} == Elements(xs);
    }
  }

  /** A function that tells the elements apart leaves as many of them. */
  lemma {:induction false} InjectiveImage<T, U>(xs: seq<T>, ys: seq<U>, f: T -> U)
    requires |xs| == |ys| && forall i :: 0 <= i < |xs| ==> ys[i] == f(xs[i])
    requires forall a, b :: a in xs && b in xs && f(a) == f(b) ==> a == b
    ensures |Elements(xs)| == |Elements(ys)|
    decreases |xs|
  {
    hide Elements;
    if xs == [] {
      NoElements(xs);
      NoElements(ys);
    } else {
      var init, last, init2 := xs[..|xs| - 1], xs[|xs| - 1], ys[..|ys| - 1];
      assert xs == init + [last] && ys == init2 + [f(last)];
      InjectiveImage(init, init2, f);
      ImageRepeatsIff(init, init2, last, f);
      ElementsAppend(init, last);
      ElementsAppend(init2, f(last));
    }
  }

  lemma NoElements<T>(xs: seq<T>)
    requires xs == []
    ensures |Elements(xs)| == 0
  {
    assert Elements(xs) == {};
  }
}
