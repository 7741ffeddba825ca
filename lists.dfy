/** The list operations the components build on: `filter` and a count of the
    elements that pass a test. */
module Lists {
  import opened Types

  /** The elements of `s` that satisfy `keep`, in their original order. */
  function Filter<T>(s: seq<T>, keep: T -> bool): (r: seq<T>)
    ensures |r| <= |s|
    ensures forall i :: 0 <= i < |r| ==> keep(r[i])
    ensures forall i :: 0 <= i < |r| ==> r[i] in s
    ensures forall i :: 0 <= i < |s| && keep(s[i]) ==> s[i] in r
    ensures multiset(r) <= multiset(s)
  {
    if s == [] then []
    else
      assert s == [s[0]] + s[1..];
      (if keep(s[0]) then [s[0]] else []) + Filter(s[1..], keep)
  }

  /** The number of elements of `s` that satisfy `keep`. */
  function Count<T>(s: seq<T>, keep: T -> bool): (n: nat)
    ensures n <= |s|
  {
    |Filter(s, keep)|
  }

  /** Filtering a concatenation filters each part. */
  lemma {:induction false} FilterAppend<T>(a: seq<T>, b: seq<T>, keep: T -> bool)
    ensures Filter(a + b, keep) == Filter(a, keep) + Filter(b, keep)
  {
    if a == [] {
      assert a + b == b;
    } else {
      var h := if keep(a[0]) then [a[0]] else [];
      calc {
        Filter(a + b, keep);
        { assert (a + b)[0] == a[0] && (a + b)[1..] == a[1..] + b; }
        h + Filter(a[1..] + b, keep);
        { FilterAppend(a[1..], b, keep); }
        h + (Filter(a[1..], keep) + Filter(b, keep));
        (h + Filter(a[1..], keep)) + Filter(b, keep);
      }
    }
  }

  /** A filter that every element passes keeps the whole list. */
  lemma {:induction false} FilterAll<T>(s: seq<T>, keep: T -> bool)
    requires forall i :: 0 <= i < |s| ==> keep(s[i])
    ensures Filter(s, keep) == s
  {
    if s != [] {
      FilterAll(s[1..], keep);
    }
  }

  /** A filter that no element passes keeps nothing. */
  lemma {:induction false} FilterNone<T>(s: seq<T>, keep: T -> bool)
    requires forall i :: 0 <= i < |s| ==> !keep(s[i])
    ensures Filter(s, keep) == []
  {
    if s != [] {
      FilterNone(s[1..], keep);
    }
  }

  /** Filtering by `a` and then by `b` is filtering by both at once. */
  lemma {:induction false} FilterFilter<T>(s: seq<T>, a: T -> bool, b: T -> bool, both: T -> bool)
    requires forall x :: both(x) == (a(x) && b(x))
    ensures Filter(Filter(s, a), b) == Filter(s, both)
  {
    if s != [] {
      FilterFilter(s[1..], a, b, both);
      var rest := Filter(s[1..], a);
      if a(s[0]) {
        assert Filter(s, a) == [s[0]] + rest;
        FilterAppend([s[0]], rest, b);
        assert Filter([s[0]], b) == (if b(s[0]) then [s[0]] else []);
      } else {
        assert Filter(s, a) == rest;
      }
    }
  }

  /** Every element either passes a test or fails it: the two counts add up
      to the length. */
  lemma {:induction false} CountSplit<T>(s: seq<T>, keep: T -> bool, drop: T -> bool)
    requires forall x :: drop(x) == !keep(x)
    ensures Count(s, keep) + Count(s, drop) == |s|
  {
    if s != [] {
      CountSplit(s[1..], keep, drop);
    }
  }

  /** A stricter test passes no more elements. */
  lemma {:induction false} CountMonotone<T>(s: seq<T>, strict: T -> bool, loose: T -> bool)
    requires forall x :: strict(x) ==> loose(x)
    ensures Count(s, strict) <= Count(s, loose)
  {
    if s != [] {
      CountMonotone(s[1..], strict, loose);
    }
  }

  /** A list with the same elements as a filter of `s` (in any order) holds
      only elements that pass, and every element of `s` that passes. */
  lemma SameElementsAsFilter<T>(s: seq<T>, keep: T -> bool, r: seq<T>)
    requires multiset(r) == multiset(Filter(s, keep))
    ensures forall i :: 0 <= i < |r| ==> keep(r[i])
    ensures forall i :: 0 <= i < |s| && keep(s[i]) ==> s[i] in r
  {
    var kept := Filter(s, keep);
    forall i | 0 <= i < |r| ensures keep(r[i]) {
      assert r[i] in multiset(kept);
    }
    forall i | 0 <= i < |s| && keep(s[i]) ensures s[i] in r {
      assert s[i] in kept;
      assert s[i] in multiset(r);
    }
  }

  /** The first element of `s` that satisfies `test`, as `Array.prototype.find`
      returns it, or `None` when there is none. */
  function FindFirst<T>(s: seq<T>, test: T -> bool): (r: Option<T>)
    ensures r.None? <==> forall i :: 0 <= i < |s| ==> !test(s[i])
    ensures r.Some? ==> exists i :: 0 <= i < |s| && s[i] == r.value && test(s[i]) && forall j :: 0 <= j < i ==> !test(s[j])
    ensures forall i :: 0 <= i < |s| && test(s[i]) && (forall j :: 0 <= j < i ==> !test(s[j])) ==> r == Some(s[i])
  {
    if s == [] then None
    else if test(s[0]) then Some(s[0])
    else
      var r := FindFirst(s[1..], test);
      assert r.Some? ==> exists i :: 1 <= i < |s| && s[i] == r.value && test(s[i]) && forall j :: 1 <= j < i ==> !test(s[j]);
      assert forall i :: 1 <= i < |s| && test(s[i]) && (forall j :: 1 <= j < i ==> !test(s[j])) ==> r == Some(s[i]) by {
        forall i | 1 <= i < |s| && test(s[i]) && (forall j :: 1 <= j < i ==> !test(s[j])) ensures r == Some(s[i]) {
          assert s[1..][i - 1] == s[i];
          assert forall j :: 0 <= j < i - 1 ==> !test(s[1..][j]);
        }
      }
      r
  }
}
