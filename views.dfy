/** The `transactions_list` view as a function of the transaction table,
    the requesting user, the query parameters and the HTMX request flag.
    Authentication, the ORM query and template rendering are not modelled;
    the template choice is returned as data. */
module Views {
  import opened Domain
  import opened Filters
  import opened Aggregation

  /** Which template the view renders. */
  datatype Template = TransactionsContainerPartial | TransactionsListPage

  /** The render context of the list view, with the chosen template. */
  datatype ListPage = ListPage(
    rows: seq<Transaction>,
    totalIncome: int,
    totalExpense: int,
    netTotal: int,
    template: Template)

  /** An HTMX request gets the partial container; anything else the full
      list page. */
  function TemplateFor(htmx: bool): Template {
    if htmx then TransactionsContainerPartial else TransactionsListPage
  }

  function TransactionsList(table: seq<Transaction>, user: nat, params: FilterParams, htmx: bool): (r: ListPage)
    ensures forall t :: t in r.rows <==> t in table && t.user == user && Matches(t, params)
    ensures r.netTotal == r.totalIncome - r.totalExpense
    ensures r.totalIncome == TotalIncome(r.rows) && r.totalExpense == TotalExpenses(r.rows)
    ensures htmx <==> r.template == TransactionsContainerPartial
  {
    var rows := Filter(ForUser(table, user), params);
    var income := TotalIncome(rows);
    var expense := TotalExpenses(rows);
    ListPage(rows, income, expense, income - expense, TemplateFor(htmx))
  }

  /** The net total is the signed sum of the requesting user's filtered rows. */
  lemma NetTotalIsSignedSum(table: seq<Transaction>, user: nat, params: FilterParams, htmx: bool)
    ensures TransactionsList(table, user, params, htmx).netTotal ==
            SignedSum(Filter(ForUser(table, user), params))
  {
    NetIsSignedSum(Filter(ForUser(table, user), params));
  }

  /** Rows of other users never influence the page: inserting any number of
      them before and after the table changes nothing. */
  lemma OtherUsersInvisible(table: seq<Transaction>, before: seq<Transaction>, after: seq<Transaction>,
                            user: nat, params: FilterParams, htmx: bool)
    requires forall i :: 0 <= i < |before| ==> before[i].user != user
    requires forall i :: 0 <= i < |after| ==> after[i].user != user
    ensures TransactionsList(before + table + after, user, params, htmx) ==
            TransactionsList(table, user, params, htmx)
  {
    assert ForUser(before + table + after, user) == ForUser(table, user) by {
      ForUserAppend(before + table, after, user);
      ForUserAppend(before, table, user);
      ForUserNone(before, user);
      ForUserNone(after, user);
    }
  }

  /** Filtering by `transaction_type=income` returns only income rows and
      an expense total of 0, so the net equals the income total; and
      symmetrically for `expense`. */
  lemma KindFilterTotals(table: seq<Transaction>, user: nat, params: FilterParams, htmx: bool)
    requires params.kind.Some?
    ensures var r := TransactionsList(table, user, params, htmx);
      && (forall i :: 0 <= i < |r.rows| ==> r.rows[i].kind == params.kind.value)
      && (params.kind.value == Income ==> r.totalExpense == 0 && r.netTotal == r.totalIncome)
      && (params.kind.value == Expense ==> r.totalIncome == 0 && r.netTotal == -r.totalExpense)
  {
    var r := TransactionsList(table, user, params, htmx);
    assert forall i :: 0 <= i < |r.rows| ==> r.rows[i] in r.rows;
    if params.kind.value == Income {
      TotalOfAbsent(r.rows, Expense);
    } else {
      TotalOfAbsent(r.rows, Income);
    }
  }

  /** With positive amounts, both totals are non-negative and a total is 0
      exactly when the filtered rows hold no transaction of that type. */
  lemma TotalsNonNegative(table: seq<Transaction>, user: nat, params: FilterParams, htmx: bool)
    requires AllPositive(table)
    ensures var r := TransactionsList(table, user, params, htmx);
      && r.totalIncome >= 0 && r.totalExpense >= 0
      && (r.totalIncome == 0 <==> forall t :: t in r.rows ==> t.kind != Income)
      && (r.totalExpense == 0 <==> forall t :: t in r.rows ==> t.kind != Expense)
  {
    var r := TransactionsList(table, user, params, htmx);
    assert forall i :: 0 <= i < |r.rows| ==> r.rows[i] in table;
    TotalOfPositive(r.rows, Income);
    TotalOfPositive(r.rows, Expense);
  }
}
