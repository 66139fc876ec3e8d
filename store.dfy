/** The transaction table as the create and update requests change it.
    The create and update views are not modelled as code; this module
    models the effects that the request tests pin down:
    a valid creation adds exactly one row for its owner and answers with
    the success fragment, a rejected one changes nothing and answers with
    the form fragment and a retarget header, and an update rewrites the
    four form fields of one owned row in place. Two rules of `Update` are
    modelling choices beyond those tests: a row the requester does not
    own counts as missing, and a rejected update changes nothing. */
module Store {
  import opened Wrappers
  import opened Domain
  import opened Filters
  import opened Forms

  const SuccessTemplate := "tracker/partials/transaction-success.html"
  const FormTemplate := "tracker/partials/create-transaction.html"

  /** The answer to a create request: the fragment rendered, whether the
      `HX-Retarget` header is set, and the inline errors shown. */
  datatype Reply = Reply(template: string, retarget: bool, errors: seq<FormError>)

  /** The outcome of an update request. */
  datatype UpdateOutcome = Updated | Rejected(errors: seq<FormError>) | NotFound

  /** The position of the row with primary key `pk` owned by `user`. */
  function FindOwned(rows: seq<Transaction>, pk: nat, user: nat): (r: Option<nat>)
    ensures r.Some? ==> r.value < |rows| && rows[r.value].id == pk && rows[r.value].user == user
    ensures r.None? ==> forall i :: 0 <= i < |rows| ==> !(rows[i].id == pk && rows[i].user == user)
  {
    if rows == [] then None
    else if rows[0].id == pk && rows[0].user == user then Some(0)
    else match FindOwned(rows[1..], pk, user)
      case Some(i) => Some(i + 1)
      case None => None
  }

  /** Rewriting one row without changing its owner keeps every user's
      number of rows. */
  lemma ForUserReplace(s: seq<Transaction>, i: nat, t: Transaction, user: nat)
    requires i < |s| && t.user == s[i].user
    ensures |ForUser(s[i := t], user)| == |ForUser(s, user)|
  {
    var s' := s[i := t];
    assert s == s[..i] + [s[i]] + s[i + 1..];
    assert s' == s[..i] + [t] + s[i + 1..];
    ForUserAppend(s[..i] + [s[i]], s[i + 1..], user);
    ForUserAppend(s[..i], [s[i]], user);
    ForUserAppend(s[..i] + [t], s[i + 1..], user);
    ForUserAppend(s[..i], [t], user);
  }

  class TransactionStore {
    var rows: seq<Transaction>
    var nextId: nat

    /** Primary keys are distinct and below the next key to hand out, and
        every stored amount passed the form's check. */
    ghost predicate Valid()
      reads this
    {
      && (forall i :: 0 <= i < |rows| ==> rows[i].id < nextId)
      && (forall i, j :: 0 <= i < j < |rows| ==> rows[i].id != rows[j].id)
      && AllPositive(rows)
    }

    /** `Transaction.objects.filter(user=user).count()`. */
    function CountFor(user: nat): (r: nat)
      reads this
      ensures r <= |rows|
    {
      |ForUser(rows, user)|
    }

    constructor ()
      ensures Valid() && rows == [] && nextId == 0
    {
      rows := [];
      nextId := 0;
    }

    /** The create request of `user`. */
    method Create(user: nat, sub: Submission, categories: set<nat>) returns (reply: Reply)
      requires Valid()
      modifies this
      ensures Valid()
      ensures Validate(sub, categories).Ok? ==>
        && rows == old(rows) + [Transaction(old(nextId), user, sub.category, sub.amount, sub.date, sub.kind)]
        && reply == Reply(SuccessTemplate, false, [])
      ensures Validate(sub, categories).Err? ==>
        && rows == old(rows) && nextId == old(nextId)
        && reply == Reply(FormTemplate, true, Validate(sub, categories).error)
      ensures forall u :: CountFor(u) == old(CountFor(u)) + (if Validate(sub, categories).Ok? && u == user then 1 else 0)
    {
      match Validate(sub, categories)
      case Ok(clean) =>
        var t := Transaction(nextId, user, clean.category, clean.amount, clean.date, clean.kind);
        forall u ensures |ForUser(rows + [t], u)| == |ForUser(rows, u)| + (if u == user then 1 else 0) {
          ForUserAppend(rows, [t], u);
        }
        rows := rows + [t];
        nextId := nextId + 1;
        reply := Reply(SuccessTemplate, false, []);
      case Err(errors) =>
        reply := Reply(FormTemplate, true, errors);
    }

    /** The update request of `user` for the row with primary key `pk`. */
    method Update(user: nat, pk: nat, sub: Submission, categories: set<nat>) returns (outcome: UpdateOutcome)
      requires Valid()
      modifies this
      ensures Valid() && nextId == old(nextId) && |rows| == |old(rows)|
      ensures FindOwned(old(rows), pk, user).None? ==> outcome == NotFound && rows == old(rows)
      ensures FindOwned(old(rows), pk, user).Some? && Validate(sub, categories).Err? ==>
        outcome == Rejected(Validate(sub, categories).error) && rows == old(rows)
      ensures FindOwned(old(rows), pk, user).Some? && Validate(sub, categories).Ok? ==>
        var i := FindOwned(old(rows), pk, user).value;
        && outcome == Updated
        && rows == old(rows)[i := old(rows)[i].(kind := sub.kind, amount := sub.amount,
                                                date := sub.date, category := sub.category)]
      ensures forall u :: CountFor(u) == old(CountFor(u))
    {
      match FindOwned(rows, pk, user)
      case None =>
        outcome := NotFound;
      case Some(i) =>
        match Validate(sub, categories)
        case Err(errors) =>
          outcome := Rejected(errors);
        case Ok(clean) =>
          var t := rows[i].(kind := clean.kind, amount := clean.amount, date := clean.date, category := clean.category);
          forall u ensures |ForUser(rows[i := t], u)| == |ForUser(rows, u)| {
            ForUserReplace(rows, i, t, u);
          }
          rows := rows[i := t];
          outcome := Updated;
    }
  }
}
