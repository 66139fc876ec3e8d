/** The filter layer: scoping a transaction sequence to the requesting user,
    and the conjunctive filter over type, inclusive date bounds and a set of
    category identifiers. Sequences stand for querysets; filtering keeps the
    order of the rows it is given. */
module Filters {
  import opened Wrappers
  import opened Domain

  /** The rows owned by `user`, in their original order. */
  function ForUser(s: seq<Transaction>, user: nat): (r: seq<Transaction>)
    ensures forall t :: t in r <==> t in s && t.user == user
    ensures |r| <= |s|
  {
    if s == [] then []
    else (if s[0].user == user then [s[0]] else []) + ForUser(s[1..], user)
  }

  /** Scoping distributes over concatenation, so rows of other users can
      be added anywhere without changing the scoped sequence. */
  lemma {:induction false} ForUserAppend(a: seq<Transaction>, b: seq<Transaction>, user: nat)
    ensures ForUser(a + b, user) == ForUser(a, user) + ForUser(b, user)
  {
    if a == [] {
      assert a + b == b;
    } else {
      assert (a + b)[1..] == a[1..] + b;
      ForUserAppend(a[1..], b, user);
    }
  }

  /** Scoping to a user who owns none of the rows gives nothing. */
  lemma {:induction false} ForUserNone(s: seq<Transaction>, user: nat)
    requires forall i :: 0 <= i < |s| ==> s[i].user != user
    ensures ForUser(s, user) == []
  {
    if s != [] {
      ForUserNone(s[1..], user);
    }
  }

  /** The query parameters of the transaction list. `None` means the
      parameter was not supplied. `categories` is the repeatable `category`
      parameter: the empty set means it did not occur. */
  datatype FilterParams = FilterParams(
    kind: Option<TxKind>,
    startDate: Option<int>,
    endDate: Option<int>,
    categories: set<nat>)

  /** No parameter supplied. */
  const NoFilter := FilterParams(None, None, None, {})

  /** Only `transaction_type`. */
  function ByKind(k: TxKind): FilterParams {
    FilterParams(Some(k), None, None, {})
  }

  /** Only the repeatable `category` parameter. */
  function ByCategories(c: set<nat>): FilterParams {
    FilterParams(None, None, None, c)
  }

  predicate KindOk(t: Transaction, kind: Option<TxKind>) {
    kind.None? || t.kind == kind.value
  }

  /** `start_date` is an inclusive lower bound. */
  predicate StartOk(t: Transaction, start: Option<int>) {
    start.None? || t.date >= start.value
  }

  /** `end_date` is an inclusive upper bound. */
  predicate EndOk(t: Transaction, end: Option<int>) {
    end.None? || t.date <= end.value
  }

  /** The category must be one of the supplied identifiers. */
  predicate CategoryOk(t: Transaction, categories: set<nat>) {
    categories == {} || t.category in categories
  }

  /** The conjunction of all supplied predicates. */
  predicate Matches(t: Transaction, p: FilterParams) {
    && KindOk(t, p.kind)
    && StartOk(t, p.startDate)
    && EndOk(t, p.endDate)
    && CategoryOk(t, p.categories)
  }

  /** The filtered queryset: the rows of `s` that match `p`, in order. */
  function Filter(s: seq<Transaction>, p: FilterParams): (r: seq<Transaction>)
    ensures forall t :: t in r <==> t in s && Matches(t, p)
    ensures |r| <= |s|
  {
    if s == [] then []
    else (if Matches(s[0], p) then [s[0]] else []) + Filter(s[1..], p)
  }

  /** Filtering distributes over concatenation: it keeps rows in order and
      judges each row on its own. */
  lemma {:induction false} FilterAppend(a: seq<Transaction>, b: seq<Transaction>, p: FilterParams)
    ensures Filter(a + b, p) == Filter(a, p) + Filter(b, p)
  {
    if a == [] {
      assert a + b == b;
    } else {
      assert (a + b)[1..] == a[1..] + b;
      FilterAppend(a[1..], b, p);
    }
  }

  /** Each row occurs in the filtered set exactly as often as in the input
      when it matches, and not at all otherwise. */
  lemma {:induction false} FilterCounts(s: seq<Transaction>, p: FilterParams, t: Transaction)
    ensures multiset(Filter(s, p))[t] == if Matches(t, p) then multiset(s)[t] else 0
  {
    if s != [] {
      FilterCounts(s[1..], p, t);
      assert s == [s[0]] + s[1..];
    }
  }

  /** With no parameter supplied nothing is filtered out. */
  lemma {:induction false} FilterNone(s: seq<Transaction>)
    ensures Filter(s, NoFilter) == s
  {
    if s != [] {
      FilterNone(s[1..]);
      assert s == [s[0]] + s[1..];
    }
  }

  /** Filtering by `p` is the same as filtering by `q` then by `q'`
      whenever `p` is the conjunction of `q` and `q'`. */
  lemma {:induction false} FilterChain(s: seq<Transaction>, p: FilterParams, q: FilterParams, q': FilterParams)
    requires forall t :: Matches(t, p) <==> Matches(t, q) && Matches(t, q')
    ensures Filter(s, p) == Filter(Filter(s, q), q')
  {
    if s != [] {
      FilterChain(s[1..], p, q, q');
      FilterAppend(if Matches(s[0], q) then [s[0]] else [], Filter(s[1..], q), q');
      if Matches(s[0], q) {
        assert Filter([s[0]], q') == if Matches(s[0], q') then [s[0]] else [];
      }
    }
  }

  /** The filter is the conjunction of four independent filters, one per
      parameter, each imposing nothing when its parameter is absent. */
  lemma FilterIsConjunction(s: seq<Transaction>, p: FilterParams)
    ensures Filter(s, p) ==
      Filter(Filter(Filter(Filter(s,
        FilterParams(p.kind, None, None, {})),
        FilterParams(None, p.startDate, None, {})),
        FilterParams(None, None, p.endDate, {})),
        FilterParams(None, None, None, p.categories))
  {
    var k := FilterParams(p.kind, None, None, {});
    var st := FilterParams(None, p.startDate, None, {});
    var en := FilterParams(None, None, p.endDate, {});
    var c := FilterParams(None, None, None, p.categories);
    var kst := FilterParams(p.kind, p.startDate, None, {});
    var kse := FilterParams(p.kind, p.startDate, p.endDate, {});
    FilterChain(s, kst, k, st);
    FilterChain(s, kse, kst, en);
    FilterChain(s, p, kse, c);
  }

  /** Both date bounds together give exactly the rows inside `[start, end]`,
      the intersection of the two single-bound filters; nothing dated
      outside the range survives. */
  lemma DateRange(s: seq<Transaction>, start: int, end: int)
    ensures Filter(s, FilterParams(None, Some(start), Some(end), {})) ==
            Filter(Filter(s, FilterParams(None, Some(start), None, {})), FilterParams(None, None, Some(end), {}))
    ensures forall t :: t in s && (t.date < start || t.date > end) ==>
              t !in Filter(s, FilterParams(None, Some(start), Some(end), {}))
  {
    FilterChain(s, FilterParams(None, Some(start), Some(end), {}),
                FilterParams(None, Some(start), None, {}), FilterParams(None, None, Some(end), {}));
  }
}
