/** Sorting transactions by date with `sort((a, b) => a.date - b.date)` (ascending) or
    `sort((a, b) => b.date - a.date)` (descending). */
module Ordering {
  import opened Types

  /** The sort key: the date, negated for a descending sort. */
  function Key(t: Transaction, descending: bool): int {
    if descending then -t.date else t.date
  }

  ghost predicate SortedByDate(s: seq<Transaction>, descending: bool) {
    forall i, j :: 0 <= i < j < |s| ==> Key(s[i], descending) <= Key(s[j], descending)
  }

  /** Inserts `t` in front of the first element it does not come after. */
  function Insert(t: Transaction, s: seq<Transaction>, descending: bool): (r: seq<Transaction>)
    ensures |r| == |s| + 1
    ensures multiset(r) == multiset(s) + multiset{t}
  {
    if s == [] || Key(t, descending) <= Key(s[0], descending) then [t] + s
    else
      assert s == [s[0]] + s[1..];
      [s[0]] + Insert(t, s[1..], descending)
  }

  lemma {:induction false} InsertSorted(t: Transaction, s: seq<Transaction>, descending: bool)
    requires SortedByDate(s, descending)
    ensures SortedByDate(Insert(t, s, descending), descending)
    decreases |s|
  {
    if s == [] || Key(t, descending) <= Key(s[0], descending) {
      PrependSorted(t, s, descending);
    } else {
      InsertSorted(t, s[1..], descending);
      PrependSorted(s[0], Insert(t, s[1..], descending), descending) by {
        var rest := Insert(t, s[1..], descending);
        forall x | x in rest ensures Key(s[0], descending) <= Key(x, descending) {
          assert x in multiset(rest);
          if x != t {
            assert x in multiset(s[1..]);
            var m :| 0 <= m < |s| - 1 && s[1..][m] == x;
            assert s[m + 1] == x;
          }
        }
      }
    }
  }

  /** A sorted list stays sorted when an element that comes before all of it is put in front. */
  lemma PrependSorted(t: Transaction, s: seq<Transaction>, descending: bool)
    requires SortedByDate(s, descending)
    requires forall x :: x in s ==> Key(t, descending) <= Key(x, descending)
    ensures SortedByDate([t] + s, descending)
  {
    var r := [t] + s;
    forall i, j | 0 <= i < j < |r| ensures Key(r[i], descending) <= Key(r[j], descending) {
      if i == 0 {
        assert r[j] == s[j - 1];
        assert s[j - 1] in s;
      } else {
        assert r[i] == s[i - 1] && r[j] == s[j - 1];
      }
    }
  }

  /** The stable insertion sort of a list by date. */
  function SortByDate(s: seq<Transaction>, descending: bool): (r: seq<Transaction>)
    ensures |r| == |s|
    ensures multiset(r) == multiset(s)
  {
    if s == [] then []
    else
      assert s == [s[0]] + s[1..];
      Insert(s[0], SortByDate(s[1..], descending), descending)
  }

  /** The sort orders the list by date. */
  lemma {:induction false} SortByDateSorted(s: seq<Transaction>, descending: bool)
    ensures SortedByDate(SortByDate(s, descending), descending)
    decreases |s|
  {
    if s != [] {
      SortByDateSorted(s[1..], descending);
      InsertSorted(s[0], SortByDate(s[1..], descending), descending);
    }
  }
}
