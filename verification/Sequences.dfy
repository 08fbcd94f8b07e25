/** Filtering, counting and flattening of sequences, and how they meet
    concatenation and multisets. */
module Sequences {
  function Filter<T>(p: T -> bool, xs: seq<T>): (r: seq<T>)
    ensures |r| <= |xs|
    ensures forall x :: x in r ==> x in xs && p(x)
    ensures forall x :: x in xs && p(x) ==> x in r
  {
    if xs == [] then [] else (if p(xs[0]) then [xs[0]] else []) + Filter(p, xs[1..])
  }

  function Count<T>(p: T -> bool, xs: seq<T>): nat {
    |Filter(p, xs)|
  }

  function Flatten<T>(xss: seq<seq<T>>): seq<T> {
    if xss == [] then [] else xss[0] + Flatten(xss[1..])
  }

  lemma {:induction false} FilterAppend<T>(p: T -> bool, xs: seq<T>, ys: seq<T>)
    ensures Filter(p, xs + ys) == Filter(p, xs) + Filter(p, ys)
  {
    if xs == [] {
      assert xs + ys == ys;
    } else {
      assert (xs + ys)[1..] == xs[1..] + ys;
      FilterAppend(p, xs[1..], ys);
    }
  }

  lemma {:induction false} FilterTwice<T(!new)>(p: T -> bool, q: T -> bool, both: T -> bool, xs: seq<T>)
    requires forall x :: both(x) <==> q(x) && p(x)
    ensures Filter(p, Filter(q, xs)) == Filter(both, xs)
  {
    if xs != [] {
      FilterTwice(p, q, both, xs[1..]);
      if q(xs[0]) {
        assert Filter(q, xs) == [xs[0]] + Filter(q, xs[1..]);
        assert Filter(q, xs)[1..] == Filter(q, xs[1..]);
        assert Filter(p, Filter(q, xs)) == (if p(xs[0]) then [xs[0]] else []) + Filter(p, Filter(q, xs[1..]));
      } else {
        assert Filter(q, xs) == Filter(q, xs[1..]);
        assert Filter(both, xs) == Filter(both, xs[1..]);
      }
    }
  }

  lemma {:induction false} FilterNone<T>(p: T -> bool, xs: seq<T>)
    requires forall x :: x in xs ==> !p(x)
    ensures Filter(p, xs) == []
  {
    if xs != [] {
      FilterNone(p, xs[1..]);
    }
  }

  lemma {:induction false} FilterAll<T>(p: T -> bool, xs: seq<T>)
    requires forall x :: x in xs ==> p(x)
    ensures Filter(p, xs) == xs
  {
    if xs != [] {
      FilterAll(p, xs[1..]);
      assert [xs[0]] + xs[1..] == xs;
    }
  }

  /** How often each element occurs in the parts together. */
  ghost function Bag<T>(xss: seq<seq<T>>): multiset<T> {
    if xss == [] then multiset{} else multiset(xss[0]) + Bag(xss[1..])
  }

  lemma {:induction false} FlattenBag<T>(xss: seq<seq<T>>)
    ensures multiset(Flatten(xss)) == Bag(xss)
  {
    if xss != [] {
      FlattenBag(xss[1..]);
    }
  }
}
