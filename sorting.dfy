/** A stable sort by a total preorder, as the runtime's `Array.prototype.sort`
    does with a consistent comparator. `geq(a, b)` holds when `a` may stand
    before `b`; elements `geq` each way keep their input order. */
module Sorting {
  import opened Lists

  /** `geq` is total and transitive on every value of `T`. */
  ghost predicate TotalPreorder<T(!new)>(geq: (T, T) -> bool) {
    (forall a, b :: geq(a, b) || geq(b, a))
    && (forall a, b, c :: geq(a, b) && geq(b, c) ==> geq(a, c))
  }

  /** Every element may stand before every later one. */
  ghost predicate SortedBy<T>(s: seq<T>, geq: (T, T) -> bool) {
    forall i, j :: 0 <= i < j < |s| ==> geq(s[i], s[j])
  }

  /** `x` placed before the first element it may precede. */
  function Insert<T>(x: T, s: seq<T>, geq: (T, T) -> bool): (r: seq<T>)
    ensures multiset(r) == multiset(s) + multiset{x}
    ensures |r| == |s| + 1
  {
    if s == [] || geq(x, s[0]) then [x] + s
    else
      assert s == [s[0]] + s[1..];
      [s[0]] + Insert(x, s[1..], geq)
  }

  /** Insertion sort: the tail is sorted first, then the head is inserted. */
  function Sort<T>(s: seq<T>, geq: (T, T) -> bool): (r: seq<T>)
    ensures multiset(r) == multiset(s)
    ensures |r| == |s|
  {
    if s == [] then []
    else
      assert s == [s[0]] + s[1..];
      Insert(s[0], Sort(s[1..], geq), geq)
  }

  lemma {:induction false} InsertSorted<T(!new)>(x: T, s: seq<T>, geq: (T, T) -> bool)
    requires TotalPreorder(geq)
    requires SortedBy(s, geq)
    ensures SortedBy(Insert(x, s, geq), geq)
  {
    if s != [] && !geq(x, s[0]) {
      var t := Insert(x, s[1..], geq);
      InsertSorted(x, s[1..], geq);
      assert geq(s[0], x);
      assert multiset(t) == multiset(s[1..]) + multiset{x};
      forall j | 0 <= j < |t| ensures geq(s[0], t[j]) {
        assert t[j] in multiset(t);
        if t[j] != x {
          assert t[j] in multiset(s[1..]);
          var k :| 0 <= k < |s[1..]| && s[1..][k] == t[j];
          assert s[k + 1] == t[j];
        }
      }
    }
  }

  /** The result of the sort is in order and holds exactly the input's elements. */
  lemma {:induction false} SortSorted<T(!new)>(s: seq<T>, geq: (T, T) -> bool)
    requires TotalPreorder(geq)
    ensures SortedBy(Sort(s, geq), geq)
    ensures multiset(Sort(s, geq)) == multiset(s)
  {
    if s != [] {
      SortSorted(s[1..], geq);
      InsertSorted(s[0], Sort(s[1..], geq), geq);
    }
  }

  /** The elements tied with `x`: `geq` holds each way between them and `x`. */
  function TiedWith<T>(geq: (T, T) -> bool, x: T): T -> bool {
    (y: T) => geq(x, y) && geq(y, x)
  }

  /** What `y` contributes to a filter by `tied`. */
  function Kept<T>(y: T, tied: T -> bool): seq<T> {
    if tied(y) then [y] else []
  }

  /** Inserting `y` puts it before every element of the list tied with it. */
  lemma {:induction false} InsertStable<T(!new)>(y: T, t: seq<T>, geq: (T, T) -> bool, x: T)
    requires TotalPreorder(geq)
    ensures Filter(Insert(y, t, geq), TiedWith(geq, x)) == Kept(y, TiedWith(geq, x)) + Filter(t, TiedWith(geq, x))
  {
    var tied := TiedWith(geq, x);
    if t == [] || geq(y, t[0]) {
      assert Insert(y, t, geq) == [y] + t;
      FilterHead(y, t, tied);
    } else {
      InsertStable(y, t[1..], geq, x);
      NotBothTied(y, t[0], geq, x);
      assert Insert(y, t, geq) == [t[0]] + Insert(y, t[1..], geq);
      assert t == [t[0]] + t[1..];
      FilterPast(t[0], y, Insert(y, t[1..], geq), t[1..], tied);
    }
  }

  /** A filter of a list with a head keeps the head when it passes. */
  lemma FilterHead<T>(h: T, rest: seq<T>, tied: T -> bool)
    ensures Filter([h] + rest, tied) == Kept(h, tied) + Filter(rest, tied)
  {
    assert ([h] + rest)[0] == h && ([h] + rest)[1..] == rest;
  }

  /** Filtering `[h] + rest`, where `rest` filters like `y` before `tail`,
      is filtering `y` before `[h] + tail`, when `h` and `y` do not both
      pass. */
  lemma FilterPast<T>(h: T, y: T, rest: seq<T>, tail: seq<T>, tied: T -> bool)
    requires Filter(rest, tied) == Kept(y, tied) + Filter(tail, tied)
    requires !(tied(h) && tied(y))
    ensures Filter([h] + rest, tied) == Kept(y, tied) + Filter([h] + tail, tied)
  {
    FilterHead(h, rest, tied);
    FilterHead(h, tail, tied);
    SwapEmpty(Kept(h, tied), Kept(y, tied), Filter(tail, tied));
  }

  /** Two parts of which one is empty may be swapped. */
  lemma SwapEmpty<T>(a: seq<T>, b: seq<T>, c: seq<T>)
    requires a == [] || b == []
    ensures a + (b + c) == b + (a + c)
  {
    if a == [] {
      assert a + (b + c) == b + c;
    } else {
      assert b + (a + c) == a + c;
    }
  }

  /** Two elements tied with the same `x` are tied with each other, so an
      element that may not stand before another is not tied with it. */
  lemma NotBothTied<T(!new)>(y: T, z: T, geq: (T, T) -> bool, x: T)
    requires TotalPreorder(geq)
    requires !geq(y, z)
    ensures !(TiedWith(geq, x)(z) && TiedWith(geq, x)(y))
  {
    var tied := TiedWith(geq, x);
    assert tied(y) && tied(z) ==> geq(y, x) && geq(x, z);
  }

  /** The sort is stable: the elements tied with any `x` come out in the
      order they went in. */
  lemma {:induction false} SortStable<T(!new)>(s: seq<T>, geq: (T, T) -> bool, x: T)
    requires TotalPreorder(geq)
    ensures Filter(Sort(s, geq), TiedWith(geq, x)) == Filter(s, TiedWith(geq, x))
  {
    if s != [] {
      SortStable(s[1..], geq, x);
      InsertStable(s[0], Sort(s[1..], geq), geq, x);
      FilterHead(s[0], s[1..], TiedWith(geq, x));
      assert s == [s[0]] + s[1..];
    }
  }
}
