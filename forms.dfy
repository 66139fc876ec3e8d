/** `TransactionForm`: the accepted fields and their validation. The
    submission is already typed (a closed transaction type, integer cents,
    a day number, a category identifier); the framework's parsing of the
    raw form strings is not modelled. */
module Forms {
  import opened Wrappers
  import opened Domain

  /** The fields the form accepts, in form order. */
  const Fields: seq<string> := ["type", "amount", "date", "category"]

  const AmountMessage := "Amount must be greater than zero."
  /** The framework's message for a choice outside the category queryset. */
  const InvalidChoiceMessage := "Select a valid choice. That choice is not one of the available choices."

  /** The four submitted fields. */
  datatype Submission = Submission(kind: TxKind, amount: int, date: int, category: nat)

  /** One inline error, attached to a field. */
  datatype FormError = FormError(field: string, message: string)

  /** `clean_amount`: a positive amount is returned unchanged, anything
      else is refused with the form's message. */
  function CleanAmount(amount: int): (r: Result<int, string>)
    ensures r.Ok? <==> amount > 0
    ensures r.Ok? ==> r.value == amount
    ensures r.Err? ==> r.error == AmountMessage
  {
    if amount <= 0 then Err(AmountMessage) else Ok(amount)
  }

  /** The category field is a choice among the existing categories. */
  function CleanCategory(category: nat, categories: set<nat>): (r: Result<nat, string>)
    ensures r.Ok? <==> category in categories
    ensures r.Ok? ==> r.value == category
  {
    if category in categories then Ok(category) else Err(InvalidChoiceMessage)
  }

  /** Full-form validation over the set of existing category identifiers.
      Every field is cleaned and every error is collected, in field order. */
  function Validate(sub: Submission, categories: set<nat>): (r: Result<Submission, seq<FormError>>)
    ensures r.Ok? <==> sub.amount > 0 && sub.category in categories
    ensures r.Ok? ==> r.value == sub
    ensures r.Err? ==> r.error != [] && forall e :: e in r.error ==> e.field in Fields
    ensures r.Err? ==> (FormError("amount", AmountMessage) in r.error <==> sub.amount <= 0)
    ensures r.Err? ==> (FormError("category", InvalidChoiceMessage) in r.error <==> sub.category !in categories)
  {
    var amountErrors := match CleanAmount(sub.amount)
      case Ok(_) => []
      case Err(m) => [FormError("amount", m)];
    var categoryErrors := match CleanCategory(sub.category, categories)
      case Ok(_) => []
      case Err(m) => [FormError("category", m)];
    var errors := amountErrors + categoryErrors;
    if errors == [] then Ok(sub) else Err(errors)
  }
}
