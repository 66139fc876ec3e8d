/** The entities of the finance tracker as plain values.

    Amounts are integer cents (the application stores a two-place decimal),
    dates are integer day numbers, so that ordering and arithmetic are exact. */
module Domain {

  /** The closed set of transaction types: `income` or `expense`. */
  datatype TxKind = Income | Expense

  /** One row of the transaction table. `kind` is the `type` column. */
  datatype Transaction = Transaction(
    id: nat,
    user: nat,
    category: nat,
    amount: int,
    date: int,
    kind: TxKind)

  /** One row of the category table: primary key and unique name. */
  datatype Category = Category(id: nat, name: string)

  /** A sequence with no element occurring twice. */
  predicate Distinct<T(==)>(s: seq<T>) {
    forall i, j :: 0 <= i < j < |s| ==> s[i] != s[j]
  }

  /** Every transaction in `s` has a strictly positive amount, as the
      transaction form guarantees for everything it lets through. */
  predicate AllPositive(s: seq<Transaction>) {
    forall i :: 0 <= i < |s| ==> s[i].amount > 0
  }
}
