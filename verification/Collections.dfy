/** Finite-sequence helpers shared by the models: filtering, searching, summing and counting,
    with the facts that say which of them depend only on the elements and not on their order. */
module Collections {

  datatype Option<+T> = None | Some(value: T)

  /** `xs.filter(p)` */
  function Filter<T(!new)>(xs: seq<T>, p: T -> bool): (r: seq<T>)
    ensures forall x :: x in r <==> x in xs && p(x)
    ensures |r| <= |xs|
  {
    if xs == [] then []
    else if p(xs[0]) then [xs[0]] + Filter(xs[1..], p)
    else Filter(xs[1..], p)
  }

  lemma {:induction false} FilterCongruent<T(!new)>(xs: seq<T>, p: T -> bool, q: T -> bool)
    requires forall x :: x in xs ==> p(x) == q(x)
    ensures Filter(xs, p) == Filter(xs, q)
  {
    if xs != [] {
      FilterCongruent(xs[1..], p, q);
    }
  }

  /** A filter keeps every accepted element with its multiplicity and nothing else. */
  lemma {:induction false} FilterMultiplicity<T(!new)>(xs: seq<T>, p: T -> bool, x: T)
    ensures multiset(Filter(xs, p))[x] == if p(x) then multiset(xs)[x] else 0
  {
    if xs != [] {
      FilterMultiplicity(xs[1..], p, x);
      assert xs == [xs[0]] + xs[1..];
    }
  }

  lemma {:induction false} FilterPermutes<T(!new)>(xs: seq<T>, ys: seq<T>, p: T -> bool)
    requires multiset(xs) == multiset(ys)
    ensures multiset(Filter(xs, p)) == multiset(Filter(ys, p))
  {
    forall x: T
      ensures multiset(Filter(xs, p))[x] == multiset(Filter(ys, p))[x]
    {
      FilterMultiplicity(xs, p, x);
      FilterMultiplicity(ys, p, x);
    }
  }

  lemma {:induction false} FilterAppend<T(!new)>(xs: seq<T>, x: T, p: T -> bool)
    ensures Filter(xs + [x], p) == Filter(xs, p) + if p(x) then [x] else []
  {
    if xs == [] {
      assert xs + [x] == [x];
    } else {
      assert (xs + [x])[1..] == xs[1..] + [x];
      FilterAppend(xs[1..], x, p);
    }
  }

  lemma {:induction false} FilterNone<T(!new)>(xs: seq<T>, p: T -> bool)
    requires forall x :: x in xs ==> !p(x)
    ensures Filter(xs, p) == []
  {
    if xs != [] {
      FilterNone(xs[1..], p);
    }
  }

  predicate NoRepeats<T(==)>(xs: seq<T>) {
    forall i, j :: 0 <= i < j < |xs| ==> xs[i] != xs[j]
  }

  lemma {:induction false} FilterNoRepeats<T(!new)>(xs: seq<T>, p: T -> bool)
    requires NoRepeats(xs)
    ensures NoRepeats(Filter(xs, p))
  {
    if xs != [] {
      FilterNoRepeats(xs[1..], p);
      assert forall i :: 0 <= i < |Filter(xs[1..], p)| ==> Filter(xs[1..], p)[i] in Filter(xs[1..], p);
    }
  }

  /** `xs.find(p)`: the first accepted element. */
  function Find<T(!new)>(xs: seq<T>, p: T -> bool): (r: Option<T>)
    ensures r.None? <==> forall x :: x in xs ==> !p(x)
    ensures r.Some? ==> r.value in xs && p(r.value)
  {
    if xs == [] then None
    else if p(xs[0]) then Some(xs[0])
    else Find(xs[1..], p)
  }

  /** When the search key is unique the first match does not depend on the order. */
  lemma {:induction false} FindPermutes<T(!new)>(xs: seq<T>, ys: seq<T>, p: T -> bool)
    requires multiset(xs) == multiset(ys)
    requires forall x, y :: x in xs && y in xs && p(x) && p(y) ==> x == y
    ensures Find(xs, p) == Find(ys, p)
  {
    assert forall x :: x in xs <==> x in multiset(xs);
    assert forall x :: x in ys <==> x in multiset(ys);
  }

  function Sum<T(!new)>(xs: seq<T>, f: T -> int): int {
    if xs == [] then 0 else f(xs[0]) + Sum(xs[1..], f)
  }

  lemma {:induction false} SumAppend<T(!new)>(xs: seq<T>, ys: seq<T>, f: T -> int)
    ensures Sum(xs + ys, f) == Sum(xs, f) + Sum(ys, f)
  {
    if xs == [] {
      assert xs + ys == ys;
    } else {
      assert (xs + ys)[1..] == xs[1..] + ys;
      SumAppend(xs[1..], ys, f);
    }
  }

  lemma {:induction false} CancelOne<T(!new)>(x: T, a: multiset<T>, b: multiset<T>)
    requires multiset{x} + a == multiset{x} + b
    ensures a == b
  {
    assert a == (multiset{x} + a) - multiset{x};
    assert b == (multiset{x} + b) - multiset{x};
  }

  lemma {:induction false} SumPermutes<T(!new)>(xs: seq<T>, ys: seq<T>, f: T -> int)
    requires multiset(xs) == multiset(ys)
    ensures Sum(xs, f) == Sum(ys, f)
  {
    if xs == [] {
      assert |multiset(ys)| == 0;
    } else {
      var x := xs[0];
      assert x in multiset(ys);
      var k :| 0 <= k < |ys| && ys[k] == x;
      var rest := ys[..k] + ys[k + 1..];
      assert ys == ys[..k] + [x] + ys[k + 1..];
      assert xs == [x] + xs[1..];
      CancelOne(x, multiset(xs[1..]), multiset(rest));
      SumPermutes(xs[1..], rest, f);
      SumAppend(ys[..k], ys[k + 1..], f);
      SumAppend(ys[..k] + [x], ys[k + 1..], f);
      SumAppend(ys[..k], [x], f);
    }
  }

  lemma {:induction false} SumCongruent<T(!new)>(xs: seq<T>, f: T -> int, g: T -> int)
    requires forall x :: x in xs ==> f(x) == g(x)
    ensures Sum(xs, f) == Sum(xs, g)
  {
    if xs != [] {
      SumCongruent(xs[1..], f, g);
    }
  }

  function Max<T(!new)>(xs: seq<T>, f: T -> int): (m: int)
    requires xs != []
    ensures forall x :: x in xs ==> f(x) <= m
    ensures exists x :: x in xs && f(x) == m
  {
    if |xs| == 1 then f(xs[0])
    else
      var rest := Max(xs[1..], f);
      if rest < f(xs[0]) then f(xs[0]) else rest
  }

  function Reaches<T(!new)>(f: T -> int, m: int): T -> bool {
    (x: T) => f(x) == m
  }

  /** The elements with the greatest value, in their order. */
  function Highest<T(!new)>(xs: seq<T>, f: T -> int): (r: seq<T>)
    ensures r == [] <==> xs == []
    ensures forall x :: x in r <==> x in xs && forall y :: y in xs ==> f(y) <= f(x)
  {
    if xs == [] then []
    else
      var m := Max(xs, f);
      var r := Filter(xs, Reaches(f, m));
      assert exists x :: x in xs && f(x) == m && x in r;
      r
  }

  lemma {:induction false} HighestPermutes<T(!new)>(xs: seq<T>, ys: seq<T>, f: T -> int)
    requires multiset(xs) == multiset(ys)
    ensures multiset(Highest(xs, f)) == multiset(Highest(ys, f))
  {
    assert forall x :: x in xs <==> x in multiset(xs);
    assert forall x :: x in ys <==> x in multiset(ys);
    assert |multiset(xs)| == |xs| && |multiset(ys)| == |ys|;
    if xs != [] {
      FilterPermutes(xs, ys, Reaches(f, Max(xs, f)));
    }
  }

  method Pick<T(==)>(s: set<T>) returns (x: T)
    requires s != {}
    ensures x in s
  {
    x :| x in s;
  }

  lemma {:induction false} SomeElement<T>(s: set<T>) returns (x: T)
    requires s != {}
    ensures x in s
  {
    x :| x in s;
  }

  /** A strict subset of indices is smaller; used wherever occupants are counted. */
  lemma {:induction false} SubsetSize<T(!new)>(a: set<T>, b: set<T>)
    requires a <= b
    ensures |a| <= |b|
  {
    assert b == a + (b - a);
  }
}
