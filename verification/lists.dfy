/** Order-preserving `Array.prototype.filter`, and duplicate-free lists. */
module Lists {

  /** Keeps the elements satisfying `p`, in order; the list is processed from left to right. */
  function Filter<T(==,!new)>(s: seq<T>, p: T -> bool): (r: seq<T>)
    ensures |r| <= |s|
    ensures forall i :: 0 <= i < |r| ==> p(r[i])
  {
    if s == [] then []
    else
      var n := |s| - 1;
      assert s == s[..n] + [s[n]];
      Filter(s[..n], p) + (if p(s[n]) then [s[n]] else [])
  }

  /** The filter keeps every occurrence of an element that passes and none of one that fails. */
  lemma {:induction false} FilterCount<T(!new)>(s: seq<T>, p: T -> bool)
    ensures forall x :: multiset(Filter(s, p))[x] == if p(x) then multiset(s)[x] else 0
    ensures forall x :: x in Filter(s, p) <==> x in s && p(x)
    decreases |s|
  {
    if s != [] {
      var n := |s| - 1;
      assert s == s[..n] + [s[n]];
      FilterCount(s[..n], p);
      forall x ensures multiset(Filter(s, p))[x] == if p(x) then multiset(s)[x] else 0 {
      }
      forall x ensures x in Filter(s, p) <==> x in s && p(x) {
        assert x in Filter(s, p) <==> multiset(Filter(s, p))[x] > 0;
        assert x in s <==> multiset(s)[x] > 0;
      }
    }
  }

  lemma {:induction false} FilterAppend<T(!new)>(a: seq<T>, b: seq<T>, p: T -> bool)
    ensures Filter(a + b, p) == Filter(a, p) + Filter(b, p)
    decreases |b|
  {
    if b == [] {
      assert a + b == a;
    } else {
      var n := |b| - 1;
      assert (a + b)[..|a| + n] == a + b[..n];
      assert (a + b)[|a| + n] == b[n];
      var tail := if p(b[n]) then [b[n]] else [];
      calc {
        Filter(a + b, p);
        Filter(a + b[..n], p) + tail;
        { FilterAppend(a, b[..n], p); }
        Filter(a, p) + Filter(b[..n], p) + tail;
        Filter(a, p) + (Filter(b[..n], p) + tail);
        Filter(a, p) + Filter(b, p);
      }
    }
  }

  /** A list whose every element passes `p` is its own filter. */
  lemma {:induction false} FilterAll<T(!new)>(s: seq<T>, p: T -> bool)
    requires forall i :: 0 <= i < |s| ==> p(s[i])
    ensures Filter(s, p) == s
    decreases |s|
  {
    if s != [] {
      var n := |s| - 1;
      FilterAll(s[..n], p);
      assert s == s[..n] + [s[n]];
    }
  }

  predicate NoDuplicates<T(==,!new)>(s: seq<T>) {
    forall i, j :: 0 <= i < j < |s| ==> s[i] != s[j]
  }

  /** Filtering never introduces a duplicate. */
  lemma {:induction false} FilterNoDuplicates<T(!new)>(s: seq<T>, p: T -> bool)
    requires NoDuplicates(s)
    ensures NoDuplicates(Filter(s, p))
    decreases |s|
  {
    if s != [] {
      var n := |s| - 1;
      assert NoDuplicates(s[..n]);
      FilterNoDuplicates(s[..n], p);
      FilterCount(s[..n], p);
      assert s[n] !in s[..n];
    }
  }

  /** Filtering twice is filtering once by the conjunction. */
  lemma {:induction false} FilterFilter<T(!new)>(s: seq<T>, p: T -> bool, q: T -> bool, both: T -> bool)
    requires forall x :: both(x) == (p(x) && q(x))
    ensures Filter(Filter(s, p), q) == Filter(s, both)
    decreases |s|
  {
    if s != [] {
      var n := |s| - 1;
      FilterFilter(s[..n], p, q, both);
      var tail := if p(s[n]) then [s[n]] else [];
      FilterAppend(Filter(s[..n], p), tail, q);
      assert Filter(tail, q) == if q(s[n]) && p(s[n]) then [s[n]] else [] by {
        if tail != [] { assert tail[..0] == []; }
      }
    }
  }
}
