/** String order and stable sorting. */
module Ordering {
  import opened Sequences

  /******* Strings in code-point order *******/

  predicate StringLeq(a: string, b: string) {
    if a == "" then true
    else if b == "" then false
    else if a[0] == b[0] then StringLeq(a[1..], b[1..])
    else a[0] < b[0]
  }

  lemma {:induction false} StringLeqTotal(a: string, b: string)
    ensures StringLeq(a, b) || StringLeq(b, a)
    ensures StringLeq(a, b) && StringLeq(b, a) ==> a == b
  {
    if a != "" && b != "" && a[0] == b[0] {
      StringLeqTotal(a[1..], b[1..]);
      assert a == [a[0]] + a[1..] && b == [b[0]] + b[1..];
    }
  }

  lemma {:induction false} StringLeqTransitive(a: string, b: string, c: string)
    requires StringLeq(a, b) && StringLeq(b, c)
    ensures StringLeq(a, c)
  {
    if a != "" && a[0] == b[0] == c[0] {
      StringLeqTransitive(a[1..], b[1..], c[1..]);
    }
  }

  /** Up to some place the two agree, and there `a` has ended or has the lesser character. */
  predicate Precedes(a: string, b: string) {
    exists k :: 0 <= k <= |a| && k < |b| && a[..k] == b[..k] && (k == |a| || a[k] < b[k])
  }

  lemma PrecedesLater(a: string, b: string)
    requires a != "" && b != "" && a[0] == b[0]
    ensures Precedes(a, b) <==> Precedes(a[1..], b[1..])
  {
    if k :| 0 <= k <= |a| && k < |b| && a[..k] == b[..k] && (k == |a| || a[k] < b[k]) {
      assert k > 0;
      assert a[1..][..k - 1] == a[..k][1..] && b[1..][..k - 1] == b[..k][1..];
    }
    if k :| 0 <= k <= |a[1..]| && k < |b[1..]| && a[1..][..k] == b[1..][..k] && (k == |a[1..]| || a[1..][k] < b[1..][k]) {
      assert a[..k + 1] == [a[0]] + a[1..][..k] && b[..k + 1] == [b[0]] + b[1..][..k];
      assert k + 1 == |a| || a[k + 1] < b[k + 1];
    }
  }

  lemma {:induction false} StringLeqExactly(a: string, b: string)
    ensures StringLeq(a, b) <==> a == b || Precedes(a, b)
  {
    if a == "" || b == "" || a[0] != b[0] {
      assert a[..0] == b[..0];
    } else {
      StringLeqExactly(a[1..], b[1..]);
      PrecedesLater(a, b);
      assert a == [a[0]] + a[1..] && b == [b[0]] + b[1..];
    }
  }

  /******* Stable sorting *******/

  ghost predicate TotalPreorder<T(!new)>(leq: (T, T) -> bool) {
    && (forall a, b :: leq(a, b) || leq(b, a))
    && (forall a, b, c :: leq(a, b) && leq(b, c) ==> leq(a, c))
  }

  predicate Sorted<T>(leq: (T, T) -> bool, xs: seq<T>) {
    forall i, j :: 0 <= i < j < |xs| ==> leq(xs[i], xs[j])
  }

  /** In front of the first element that may follow it, so in front of its equals. */
  function Insert<T>(leq: (T, T) -> bool, x: T, ys: seq<T>): seq<T> {
    if ys == [] || leq(x, ys[0]) then [x] + ys else [ys[0]] + Insert(leq, x, ys[1..])
  }

  function Sort<T>(leq: (T, T) -> bool, xs: seq<T>): seq<T> {
    if xs == [] then [] else Insert(leq, xs[0], Sort(leq, xs[1..]))
  }

  lemma {:induction false} InsertPermutes<T>(leq: (T, T) -> bool, x: T, ys: seq<T>)
    ensures multiset(Insert(leq, x, ys)) == multiset{x} + multiset(ys)
  {
    if ys != [] && !leq(x, ys[0]) {
      InsertPermutes(leq, x, ys[1..]);
      assert ys == [ys[0]] + ys[1..];
    }
  }

  lemma {:induction false} SortPermutes<T>(leq: (T, T) -> bool, xs: seq<T>)
    ensures multiset(Sort(leq, xs)) == multiset(xs)
  {
    if xs != [] {
      SortPermutes(leq, xs[1..]);
      InsertPermutes(leq, xs[0], Sort(leq, xs[1..]));
      assert xs == [xs[0]] + xs[1..];
    }
  }

  lemma {:induction false} InsertSorts<T(!new)>(leq: (T, T) -> bool, x: T, ys: seq<T>)
    requires TotalPreorder(leq) && Sorted(leq, ys)
    ensures Sorted(leq, Insert(leq, x, ys))
  {
    if ys != [] && !leq(x, ys[0]) {
      InsertSorts(leq, x, ys[1..]);
      InsertPermutes(leq, x, ys[1..]);
      var rest := Insert(leq, x, ys[1..]);
      forall j | 0 <= j < |rest| ensures leq(ys[0], rest[j]) {
        assert rest[j] in multiset(rest);
      }
    }
  }

  lemma {:induction false} SortSorts<T(!new)>(leq: (T, T) -> bool, xs: seq<T>)
    requires TotalPreorder(leq)
    ensures Sorted(leq, Sort(leq, xs))
  {
    if xs != [] {
      SortSorts(leq, xs[1..]);
      InsertSorts(leq, xs[0], Sort(leq, xs[1..]));
    }
  }

  /** `p` picks out elements that are level with each other. */
  ghost predicate AreLevel<T(!new)>(leq: (T, T) -> bool, p: T -> bool) {
    forall a, b :: p(a) && p(b) ==> leq(a, b)
  }

  lemma {:induction false} InsertStable<T(!new)>(leq: (T, T) -> bool, x: T, ys: seq<T>, p: T -> bool)
    requires AreLevel(leq, p)
    ensures Filter(p, Insert(leq, x, ys)) == Filter(p, [x] + ys)
  {
    if ys != [] && !leq(x, ys[0]) {
      InsertStable(leq, x, ys[1..], p);
      assert ([x] + ys)[1..] == ys;
      assert ([x] + ys[1..])[1..] == ys[1..];
      assert ([ys[0]] + Insert(leq, x, ys[1..]))[1..] == Insert(leq, x, ys[1..]);
    }
  }

  /** Elements that are level keep their order. */
  lemma {:induction false} SortStable<T(!new)>(leq: (T, T) -> bool, xs: seq<T>, p: T -> bool)
    requires AreLevel(leq, p)
    ensures Filter(p, Sort(leq, xs)) == Filter(p, xs)
  {
    if xs != [] {
      SortStable(leq, xs[1..], p);
      InsertStable(leq, xs[0], Sort(leq, xs[1..]), p);
      assert ([xs[0]] + Sort(leq, xs[1..]))[1..] == Sort(leq, xs[1..]);
    }
  }

  /******* The first few of a sorted sequence *******/

  /** `ORDER BY ... LIMIT k`: `head` is in order, drawn from `xs`, holds `k` elements
      or all there are, and nothing left out belongs strictly before anything kept. */
  ghost predicate IsHead<T(!new)>(leq: (T, T) -> bool, k: nat, xs: seq<T>, head: seq<T>) {
    && multiset(head) <= multiset(xs)
    && |head| == (if k < |xs| then k else |xs|)
    && Sorted(leq, head)
    && (forall kept, left :: kept in head && left in multiset(xs) - multiset(head) ==> leq(kept, left))
  }

  lemma TakeIsHead<T(!new)>(leq: (T, T) -> bool, k: nat, xs: seq<T>, sorted: seq<T>)
    requires multiset(sorted) == multiset(xs) && Sorted(leq, sorted)
    ensures |sorted| == |xs|
    ensures IsHead(leq, k, xs, sorted[..if k < |xs| then k else |xs|])
  {
    assert |sorted| == |multiset(sorted)| == |multiset(xs)| == |xs|;
    var n := if k < |xs| then k else |xs|;
    var head, tail := sorted[..n], sorted[n..];
    assert sorted == head + tail;
    assert multiset(xs) == multiset(head) + multiset(tail);
    assert multiset(xs) - multiset(head) == multiset(tail);
    forall i, j | 0 <= i < j < |head| ensures leq(head[i], head[j]) {
      assert head[i] == sorted[i] && head[j] == sorted[j];
    }
    forall kept, left | kept in head && left in multiset(tail) ensures leq(kept, left) {
      var i :| 0 <= i < n && sorted[i] == kept;
      var j :| 0 <= j < |tail| && tail[j] == left;
      assert sorted[n + j] == left;
    }
    assert IsHead(leq, k, xs, head);
  }

  /******* Filtering keeps order *******/

  lemma {:induction false} FilterSorted<T>(leq: (T, T) -> bool, p: T -> bool, xs: seq<T>)
    requires Sorted(leq, xs)
    ensures Sorted(leq, Filter(p, xs))
  {
    if xs != [] {
      FilterSorted(leq, p, xs[1..]);
      var rest := Filter(p, xs[1..]);
      forall j | 0 <= j < |rest| ensures leq(xs[0], rest[j]) {
        assert rest[j] in xs[1..];
      }
    }
  }

  /** Two chosen elements stand in the filtered sequence in the order they had. */
  lemma {:induction false} FilterPlaces<T>(p: T -> bool, xs: seq<T>, i: nat, j: nat) returns (k: nat, l: nat)
    requires i < j < |xs| && p(xs[i]) && p(xs[j])
    ensures k < l < |Filter(p, xs)| && Filter(p, xs)[k] == xs[i] && Filter(p, xs)[l] == xs[j]
  {
    if i > 0 {
      k, l := FilterPlaces(p, xs[1..], i - 1, j - 1);
      if p(xs[0]) {
        k, l := k + 1, l + 1;
      }
    } else {
      assert xs[j] == xs[1..][j - 1];
      assert xs[j] in Filter(p, xs[1..]);
      l :| 0 <= l < |Filter(p, xs[1..])| && Filter(p, xs[1..])[l] == xs[j];
      k, l := 0, l + 1;
    }
  }
}
