/** The aggregation layer: `get_total_income` / `get_total_expenses`, i.e.
    `qs.filter(type=...).aggregate(total=Sum('amount'))['total'] or 0`.
    An empty sum is 0, which is what `or 0` supplies for SQL's NULL. */
module Aggregation {
  import opened Domain
  import opened Filters

  /** `Sum('amount')` over a queryset, 0 when it is empty. Amounts that
      passed the form's check are at least one cent each, so such a sum is
      at least the number of rows. */
  function Sum(s: seq<Transaction>): (r: int)
    ensures AllPositive(s) ==> r >= |s|
  {
    if s == [] then 0 else s[0].amount + Sum(s[1..])
  }

  /** Total amount of the transactions of one type. */
  function TotalOf(s: seq<Transaction>, k: TxKind): int {
    Sum(Filter(s, ByKind(k)))
  }

  function TotalIncome(s: seq<Transaction>): int {
    TotalOf(s, Income)
  }

  function TotalExpenses(s: seq<Transaction>): int {
    TotalOf(s, Expense)
  }

  /** Reference definition of the net total: income counts positive,
      expense negative, row by row. */
  function SignedSum(s: seq<Transaction>): int {
    if s == [] then 0
    else (if s[0].kind == Income then s[0].amount else -s[0].amount) + SignedSum(s[1..])
  }

  lemma {:induction false} SumAppend(a: seq<Transaction>, b: seq<Transaction>)
    ensures Sum(a + b) == Sum(a) + Sum(b)
  {
    if a == [] {
      assert a + b == b;
    } else {
      assert (a + b)[1..] == a[1..] + b;
      SumAppend(a[1..], b);
    }
  }

  /** The per-type total unfolds one row at a time. */
  lemma TotalOfCons(s: seq<Transaction>, k: TxKind)
    requires s != []
    ensures TotalOf(s, k) == (if s[0].kind == k then s[0].amount else 0) + TotalOf(s[1..], k)
  {
    SumAppend(if s[0].kind == k then [s[0]] else [], Filter(s[1..], ByKind(k)));
  }

  /** Totals add up over concatenated querysets. */
  lemma TotalOfAppend(a: seq<Transaction>, b: seq<Transaction>, k: TxKind)
    ensures TotalOf(a + b, k) == TotalOf(a, k) + TotalOf(b, k)
  {
    FilterAppend(a, b, ByKind(k));
    SumAppend(Filter(a, ByKind(k)), Filter(b, ByKind(k)));
  }

  /** The net total reported beside the two totals is the signed sum of
      the rows. */
  lemma {:induction false} NetIsSignedSum(s: seq<Transaction>)
    ensures TotalIncome(s) - TotalExpenses(s) == SignedSum(s)
  {
    if s != [] {
      NetIsSignedSum(s[1..]);
      TotalOfCons(s, Income);
      TotalOfCons(s, Expense);
    }
  }

  /** Every row is income or expense, so the two totals split the sum of
      all amounts. */
  lemma {:induction false} TotalsSplitSum(s: seq<Transaction>)
    ensures TotalIncome(s) + TotalExpenses(s) == Sum(s)
  {
    if s != [] {
      TotalsSplitSum(s[1..]);
      TotalOfCons(s, Income);
      TotalOfCons(s, Expense);
    }
  }

  /** A total is 0 when no transaction of that type exists. */
  lemma {:induction false} TotalOfAbsent(s: seq<Transaction>, k: TxKind)
    requires forall i :: 0 <= i < |s| ==> s[i].kind != k
    ensures TotalOf(s, k) == 0
  {
    if s != [] {
      TotalOfAbsent(s[1..], k);
      TotalOfCons(s, k);
    }
  }

  /** With positive amounts, a total is positive exactly when a transaction
      of that type exists, and 0 otherwise. */
  lemma {:induction false} TotalOfPositive(s: seq<Transaction>, k: TxKind)
    requires AllPositive(s)
    ensures TotalOf(s, k) >= 0
    ensures TotalOf(s, k) > 0 <==> exists i :: 0 <= i < |s| && s[i].kind == k
  {
    if s != [] {
      TotalOfPositive(s[1..], k);
      TotalOfCons(s, k);
      if s[0].kind != k && exists i :: 0 <= i < |s| && s[i].kind == k {
        var i :| 0 <= i < |s| && s[i].kind == k;
        assert s[1..][i - 1].kind == k;
      }
      if exists i :: 0 <= i < |s| - 1 && s[1..][i].kind == k {
        var i :| 0 <= i < |s| - 1 && s[1..][i].kind == k;
        assert s[i + 1].kind == k;
      }
    }
  }

  /** Removing the row at `i` takes exactly its amount off the sum. */
  lemma {:induction false} SumRemove(s: seq<Transaction>, i: nat)
    requires i < |s|
    ensures Sum(s) == s[i].amount + Sum(s[..i] + s[i + 1..])
  {
    if i > 0 {
      SumRemove(s[1..], i - 1);
      assert s[1..][..i - 1] + s[1..][i..] == s[1..i] + s[i + 1..];
      assert s[..i] + s[i + 1..] == [s[0]] + (s[1..i] + s[i + 1..]);
    } else {
      assert s[..i] + s[i + 1..] == s[1..];
    }
  }

  lemma MultisetRemove(s: seq<Transaction>, i: nat)
    requires i < |s|
    ensures multiset(s[..i] + s[i + 1..]) == multiset(s) - multiset{s[i]}
  {
    assert s == s[..i] + [s[i]] + s[i + 1..];
  }

  /** The sum depends only on which rows there are, not on their order. */
  lemma {:induction false} SumPermutation(s: seq<Transaction>, s': seq<Transaction>)
    requires multiset(s) == multiset(s')
    ensures Sum(s) == Sum(s')
  {
    if s != [] {
      var x := s[0];
      assert x in multiset(s');
      var i :| 0 <= i < |s'| && s'[i] == x;
      var rest := s'[..i] + s'[i + 1..];
      assert multiset(s[1..]) == multiset(rest) by {
        assert s == [x] + s[1..];
        MultisetRemove(s', i);
      }
      assert Sum(s') == x.amount + Sum(rest) by {
        SumRemove(s', i);
      }
      SumPermutation(s[1..], rest);
    } else {
      assert |s'| == |multiset(s')|;
    }
  }

  /** Filtering a permuted queryset gives a permutation of the filtered one. */
  lemma FilterPermutation(s: seq<Transaction>, s': seq<Transaction>, p: FilterParams)
    requires multiset(s) == multiset(s')
    ensures multiset(Filter(s, p)) == multiset(Filter(s', p))
  {
    forall t ensures multiset(Filter(s, p))[t] == multiset(Filter(s', p))[t] {
      FilterCounts(s, p, t);
      FilterCounts(s', p, t);
    }
  }

  /** Totals depend only on which rows there are, not on their order. */
  lemma TotalOfPermutation(s: seq<Transaction>, s': seq<Transaction>, k: TxKind)
    requires multiset(s) == multiset(s')
    ensures TotalOf(s, k) == TotalOf(s', k)
  {
    FilterPermutation(s, s', ByKind(k));
    SumPermutation(Filter(s, ByKind(k)), Filter(s', ByKind(k)));
  }
}
