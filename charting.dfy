/** The two chart builders as plain data: what each chart shows (series
    values, labels, colours, titles, the empty-set placeholder), with the
    plotting library's styling left out. */
module Charting {
  import opened Wrappers
  import opened Domain
  import opened Filters
  import opened Aggregation
  import opened Currency

  const IncomeGreen := "#10b981"
  const ExpenseRed := "#ef4444"
  const BarTitle := "Income vs Expenses Overview"

  /** The bar trace and its title. */
  datatype BarChart = BarChart(
    title: string,
    x: seq<string>,
    y: seq<int>,
    colors: seq<string>,
    text: seq<string>)

  /** `plot_income_expense_bar_chart`: one bar per type, income first. */
  function IncomeExpenseBarChart(qs: seq<Transaction>): BarChart {
    var income := TotalIncome(qs);
    var expense := TotalExpenses(qs);
    BarChart(BarTitle, ["Income", "Expenses"], [income, expense],
             [IncomeGreen, ExpenseRed], [FormatCents(income), FormatCents(expense)])
  }

  /** Two bars, labelled `Income` then `Expenses`, paired index for index
      with green and red, under the fixed title. */
  lemma BarChartLayout(qs: seq<Transaction>)
    ensures var r := IncomeExpenseBarChart(qs);
      && r.title == BarTitle
      && |r.x| == |r.y| == |r.colors| == |r.text| == 2
      && r.x[0] == "Income" && r.colors[0] == IncomeGreen
      && r.x[1] == "Expenses" && r.colors[1] == ExpenseRed
  {
  }

  /** The bar heights are the two per-type totals: they split the sum of
      all amounts, their difference is the net, and a type with no row
      gives a zero bar labelled `$0.00`. */
  lemma BarChartHeights(qs: seq<Transaction>)
    ensures var r := IncomeExpenseBarChart(qs);
      && r.y == [TotalIncome(qs), TotalExpenses(qs)]
      && r.y[0] + r.y[1] == Sum(qs)
      && r.y[0] - r.y[1] == SignedSum(qs)
      && ((forall i :: 0 <= i < |qs| ==> qs[i].kind != Income) ==> r.y[0] == 0 && r.text[0] == "$0.00")
      && ((forall i :: 0 <= i < |qs| ==> qs[i].kind != Expense) ==> r.y[1] == 0 && r.text[1] == "$0.00")
  {
    TotalsSplitSum(qs);
    NetIsSignedSum(qs);
    if forall i :: 0 <= i < |qs| ==> qs[i].kind != Income {
      TotalOfAbsent(qs, Income);
    }
    if forall i :: 0 <= i < |qs| ==> qs[i].kind != Expense {
      TotalOfAbsent(qs, Expense);
    }
  }

  /** Every text label reads back as its bar's height. */
  lemma BarChartText(qs: seq<Transaction>)
    ensures var r := IncomeExpenseBarChart(qs);
      && |r.text| == |r.y| == 2
      && ParseCents(r.text[0]) == Some(r.y[0])
      && ParseCents(r.text[1]) == Some(r.y[1])
  {
    FormatParseRoundTrip(TotalIncome(qs));
    FormatParseRoundTrip(TotalExpenses(qs));
  }

  /** The bar chart does not depend on the order of the queryset. */
  lemma BarChartOrderFree(qs: seq<Transaction>, qs': seq<Transaction>)
    requires multiset(qs) == multiset(qs')
    ensures IncomeExpenseBarChart(qs) == IncomeExpenseBarChart(qs')
  {
    TotalOfPermutation(qs, qs', Income);
    TotalOfPermutation(qs, qs', Expense);
  }

  // ---------------------------------------------------------------------
  // Pie chart

  const DefaultPieTitle := "Total Amount per Category"
  const NoDataText := "No data available for the selected filters"

  /** The fixed twelve-colour palette, in order. */
  const Palette: seq<string> := [
    "#10b981", "#3b82f6", "#8b5cf6", "#f59e0b",
    "#ef4444", "#06b6d4", "#84cc16", "#f97316",
    "#ec4899", "#6366f1", "#14b8a6", "#eab308"]

  /** One slice list: names, per-category totals and colours. */
  datatype PieTrace = PieTrace(labels: seq<string>, values: seq<int>, colors: seq<string>)

  /** The figure: either a pie trace or, for an empty queryset, only the
      placeholder annotation. */
  datatype PieChart = PieChart(title: string, trace: Option<PieTrace>, annotation: Option<string>)

  predicate StrictlyIncreasing(s: seq<nat>) {
    forall i, j :: 0 <= i < j < |s| ==> s[i] < s[j]
  }

  /** Inserts `x` into an ascending list of distinct identifiers. */
  function InsertSorted(s: seq<nat>, x: nat): (r: seq<nat>)
    requires StrictlyIncreasing(s)
    ensures StrictlyIncreasing(r)
    ensures forall y :: y in r <==> y in s || y == x
  {
    if s == [] then [x]
    else if x < s[0] then [x] + s
    else if x == s[0] then s
    else
      var t := InsertSorted(s[1..], x);
      assert forall k :: 0 <= k < |t| ==> t[k] in t;
      [s[0]] + t
  }

  /** The category identifiers of the queryset, distinct and ascending:
      `values('category')` grouped and `order_by('category')`. */
  function CategoryIds(qs: seq<Transaction>): (r: seq<nat>)
    ensures StrictlyIncreasing(r)
    ensures forall c :: c in r <==> exists t :: t in qs && t.category == c
  {
    if qs == [] then []
    else
      var r := InsertSorted(CategoryIds(qs[1..]), qs[0].category);
      assert forall t :: t in qs <==> t == qs[0] || t in qs[1..];
      r
  }

  /** `annotate(total=Sum('amount'))` for one category. */
  function CategoryTotal(qs: seq<Transaction>, c: nat): int {
    Sum(Filter(qs, ByCategories({c})))
  }

  /** The slice values, one per identifier, in the same order. */
  function SliceValues(qs: seq<Transaction>, ids: seq<nat>): (r: seq<int>)
    ensures |r| == |ids|
  {
    if ids == [] then [] else [CategoryTotal(qs, ids[0])] + SliceValues(qs, ids[1..])
  }

  /** Value `i` is the total of identifier `i`. */
  lemma {:induction false} SliceValuesAt(qs: seq<Transaction>, ids: seq<nat>)
    ensures forall i :: 0 <= i < |ids| ==> SliceValues(qs, ids)[i] == CategoryTotal(qs, ids[i])
  {
    if ids != [] {
      SliceValuesAt(qs, ids[1..]);
      assert forall i :: 0 < i < |ids| ==> ids[1..][i - 1] == ids[i];
    }
  }

  /** `Category.objects.filter(pk__in=ids).order_by('pk')` names: the names
      of the listed identifiers the category table holds, in ascending
      identifier order. */
  function SliceLabels(catalogue: map<nat, string>, ids: seq<nat>): (r: seq<string>)
    ensures |r| <= |ids|
    ensures (forall i :: 0 <= i < |ids| ==> ids[i] in catalogue) ==>
              |r| == |ids| && forall i :: 0 <= i < |ids| ==> r[i] == catalogue[ids[i]]
  {
    if ids == [] then []
    else (if ids[0] in catalogue then [catalogue[ids[0]]] else []) + SliceLabels(catalogue, ids[1..])
  }

  function Min(a: int, b: int): int {
    if a < b then a else b
  }

  /** `plot_category_pie_chart(qs, title)`. `title` is `None` when the
      caller omits the argument and relies on the default; an explicit
      `title=None` from Python, which would give the figure no title, is
      merged into that case. `catalogue` is the category table, primary
      key to name. */
  function CategoryPieChart(qs: seq<Transaction>, catalogue: map<nat, string>, title: Option<string>): PieChart {
    var ids := CategoryIds(qs);
    var labels := SliceLabels(catalogue, ids);
    var values := SliceValues(qs, ids);
    var heading := title.GetOr(DefaultPieTitle);
    if values == [] then PieChart(heading, None, Some(NoDataText))
    else PieChart(heading, Some(PieTrace(labels, values, Palette[..Min(|labels|, |Palette|)])), None)
  }

  // ---- properties of the grouping

  /** A category no row carries has total 0. */
  lemma {:induction false} CategoryTotalAbsent(qs: seq<Transaction>, c: nat)
    requires forall t :: t in qs ==> t.category != c
    ensures CategoryTotal(qs, c) == 0
  {
    if qs != [] {
      assert qs[0] in qs;
      assert Filter(qs, ByCategories({c})) == Filter(qs[1..], ByCategories({c}));
      CategoryTotalAbsent(qs[1..], c);
    }
  }

  /** The sum of a list of slice values. */
  function SumValues(v: seq<int>): int {
    if v == [] then 0 else v[0] + SumValues(v[1..])
  }

  /** Adding one row in front adds its amount to the slice total of its
      category, if that category is listed, and nothing otherwise. */
  lemma {:induction false} SlicesCons(t: Transaction, qs: seq<Transaction>, ids: seq<nat>)
    requires StrictlyIncreasing(ids)
    ensures SumValues(SliceValues([t] + qs, ids)) ==
            (if t.category in ids then t.amount else 0) + SumValues(SliceValues(qs, ids))
  {
    if ids != [] {
      SlicesCons(t, qs, ids[1..]);
      assert ([t] + qs)[1..] == qs;
      SumAppend(if Matches(t, ByCategories({ids[0]})) then [t] else [], Filter(qs, ByCategories({ids[0]})));
      assert t.category in ids <==> t.category == ids[0] || t.category in ids[1..];
      if t.category == ids[0] {
        assert t.category !in ids[1..];
      }
    }
  }

  /** Inserting an identifier adds its slice total unless it was listed. */
  lemma {:induction false} SlicesInsert(qs: seq<Transaction>, ids: seq<nat>, c: nat)
    requires StrictlyIncreasing(ids)
    ensures SumValues(SliceValues(qs, InsertSorted(ids, c))) ==
            SumValues(SliceValues(qs, ids)) + (if c in ids then 0 else CategoryTotal(qs, c))
  {
    if ids != [] && c > ids[0] {
      SlicesInsert(qs, ids[1..], c);
      assert c in ids <==> c in ids[1..];
    }
  }

  /** The slices partition the queryset: their values add up to the sum of
      all amounts, income and expense alike. */
  lemma {:induction false} SlicesPartition(qs: seq<Transaction>)
    ensures SumValues(SliceValues(qs, CategoryIds(qs))) == Sum(qs)
  {
    if qs != [] {
      var t, rest := qs[0], qs[1..];
      var ids := CategoryIds(rest);
      var all := InsertSorted(ids, t.category);
      assert CategoryIds(qs) == all;
      assert t.category in all;
      assert SumValues(SliceValues(qs, all)) == t.amount + SumValues(SliceValues(rest, all)) by {
        assert qs == [t] + rest;
        SlicesCons(t, rest, all);
      }
      assert SumValues(SliceValues(rest, all)) == Sum(rest) by {
        SlicesInsert(rest, ids, t.category);
        SlicesPartition(rest);
        if t.category !in ids {
          CategoryTotalAbsent(rest, t.category);
        }
      }
    }
  }

  /** Two ascending lists of distinct identifiers with the same elements
      are the same list. */
  lemma {:induction false} IncreasingUnique(a: seq<nat>, b: seq<nat>)
    requires StrictlyIncreasing(a) && StrictlyIncreasing(b)
    requires forall x :: x in a <==> x in b
    ensures a == b
  {
    assert a != [] ==> a[0] in a;
    assert b != [] ==> b[0] in b;
    if a != [] && b != [] {
      assert a[0] == b[0] by {
        assert a[0] in b && b[0] in a;
        LeastIsHead(a, b[0]);
        LeastIsHead(b, a[0]);
      }
      TailsAgree(a, b);
      IncreasingUnique(a[1..], b[1..]);
      assert a == [a[0]] + a[1..] && b == [b[0]] + b[1..];
    }
  }

  /** The head of an ascending list is below every element of it. */
  lemma LeastIsHead(a: seq<nat>, x: nat)
    requires StrictlyIncreasing(a) && x in a
    ensures a[0] <= x
  {
    var j :| 0 <= j < |a| && a[j] == x;
  }

  /** Below equal heads, two ascending lists with the same elements have
      tails with the same elements. */
  lemma TailsAgree(a: seq<nat>, b: seq<nat>)
    requires StrictlyIncreasing(a) && StrictlyIncreasing(b)
    requires forall x :: x in a <==> x in b
    requires a != [] && b != [] && a[0] == b[0]
    ensures forall x :: x in a[1..] <==> x in b[1..]
  {
    forall x | x in a[1..] ensures x in b[1..] {
      TailMember(a, b, x);
    }
    forall x | x in b[1..] ensures x in a[1..] {
      TailMember(b, a, x);
    }
  }

  lemma TailMember(a: seq<nat>, b: seq<nat>, x: nat)
    requires StrictlyIncreasing(a) && StrictlyIncreasing(b)
    requires forall y :: y in a <==> y in b
    requires a != [] && b != [] && a[0] == b[0]
    requires x in a[1..]
    ensures x in b[1..]
  {
    var k :| 0 <= k < |a[1..]| && a[1..][k] == x;
    assert a[0] < a[k + 1] && a[k + 1] in a;
    var j :| 0 <= j < |b| && b[j] == x;
    assert j != 0;
    assert b[1..][j - 1] == x;
  }

  /** An empty queryset gives the placeholder text and no pie trace; a
      non-empty one a trace and no placeholder. The title is the one given,
      or the default. */
  lemma PieChartPlaceholder(qs: seq<Transaction>, catalogue: map<nat, string>, title: Option<string>)
    ensures var r := CategoryPieChart(qs, catalogue, title);
      && r.title == title.GetOr(DefaultPieTitle)
      && (r.trace.None? <==> qs == [])
      && (r.annotation == Some(NoDataText) <==> qs == [])
      && (r.annotation.None? <==> qs != [])
  {
    if qs != [] {
      assert qs[0] in qs;
      assert qs[0].category in CategoryIds(qs);
    }
  }

  /** One slice per distinct category of the queryset, in ascending
      identifier order, each valued at its category's total, the values
      adding up to the sum of all amounts. */
  lemma PieChartSlices(qs: seq<Transaction>, catalogue: map<nat, string>, title: Option<string>)
    requires qs != []
    ensures var r := CategoryPieChart(qs, catalogue, title);
      var ids := CategoryIds(qs);
      && r.trace.Some?
      && StrictlyIncreasing(ids)
      && (forall c :: c in ids <==> exists t :: t in qs && t.category == c)
      && |r.trace.value.values| == |ids|
      && (forall i :: 0 <= i < |ids| ==> r.trace.value.values[i] == CategoryTotal(qs, ids[i]))
      && SumValues(r.trace.value.values) == Sum(qs)
  {
    PieChartPlaceholder(qs, catalogue, title);
    SliceValuesAt(qs, CategoryIds(qs));
    SlicesPartition(qs);
  }

  /** The slice colours are the palette's first `min(#labels, 12)`
      entries, in palette order. */
  lemma PieChartColors(qs: seq<Transaction>, catalogue: map<nat, string>, title: Option<string>)
    requires qs != []
    ensures var r := CategoryPieChart(qs, catalogue, title);
      && r.trace.Some?
      && |r.trace.value.colors| == Min(|r.trace.value.labels|, 12)
      && (forall i :: 0 <= i < |r.trace.value.colors| ==> r.trace.value.colors[i] == Palette[i])
  {
    PieChartPlaceholder(qs, catalogue, title);
  }

  /** When every category of the queryset is in the table, label `i` is
      the name of the category whose total is value `i`. */
  lemma PieChartLabels(qs: seq<Transaction>, catalogue: map<nat, string>, title: Option<string>)
    requires qs != []
    requires forall t :: t in qs ==> t.category in catalogue
    ensures forall i :: 0 <= i < |CategoryIds(qs)| ==> CategoryIds(qs)[i] in catalogue
    ensures var r := CategoryPieChart(qs, catalogue, title);
      && r.trace.Some?
      && |r.trace.value.labels| == |r.trace.value.values| == |CategoryIds(qs)|
      && forall i :: 0 <= i < |r.trace.value.labels| ==>
           r.trace.value.labels[i] == catalogue[CategoryIds(qs)[i]]
  {
    PieChartPlaceholder(qs, catalogue, title);
    var ids := CategoryIds(qs);
    forall i | 0 <= i < |ids| ensures ids[i] in catalogue {
      assert ids[i] in ids;
    }
    var labels := SliceLabels(catalogue, ids);
    assert |labels| == |ids|;
    assert CategoryPieChart(qs, catalogue, title).trace.value.labels == labels;
  }

  /** The pie chart does not depend on the order of the queryset: the
      ordering by category identifier fixes slice order and colours. */
  lemma PieChartOrderFree(qs: seq<Transaction>, qs': seq<Transaction>, catalogue: map<nat, string>, title: Option<string>)
    requires multiset(qs) == multiset(qs')
    ensures CategoryPieChart(qs, catalogue, title) == CategoryPieChart(qs', catalogue, title)
  {
    var ids := CategoryIds(qs);
    assert ids == CategoryIds(qs') by {
      forall c ensures c in CategoryIds(qs) <==> c in CategoryIds(qs') {
        if c in CategoryIds(qs) {
          var t :| t in qs && t.category == c;
          assert t in multiset(qs');
        }
        if c in CategoryIds(qs') {
          var t :| t in qs' && t.category == c;
          assert t in multiset(qs);
        }
      }
      IncreasingUnique(CategoryIds(qs), CategoryIds(qs'));
    }
    assert SliceValues(qs, ids) == SliceValues(qs', ids) by {
      forall i | 0 <= i < |ids| ensures CategoryTotal(qs, ids[i]) == CategoryTotal(qs', ids[i]) {
        FilterPermutation(qs, qs', ByCategories({ids[i]}));
        SumPermutation(Filter(qs, ByCategories({ids[i]})), Filter(qs', ByCategories({ids[i]})));
      }
      SliceValuesAt(qs, ids);
      SliceValuesAt(qs', ids);
    }
  }
}
