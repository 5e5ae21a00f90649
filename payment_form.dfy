/**
 * The add-payment form: its values, the per-field rules the form library
 * checks before the submit handler runs, and the record a valid form becomes.
 */
module PaymentForm {
  import opened Wrappers
  import opened Payments
  import opened Validators
  import opened Actions

  /** The form's values; the status is what the status select holds. */
  datatype FormData = FormData(id: string, amount: string, status: Status, email: string)

  /** The values the form starts with and is reset to. */
  const DefaultForm: FormData := FormData("", "", Pending, "")

  datatype Field = IdField | AmountField | StatusField | EmailField

  /** A field's position in the form. */
  function FieldRank(field: Field): nat
  {
    match field
    case IdField => 0
    case AmountField => 1
    case StatusField => 2
    case EmailField => 3
  }

  /** The message shown under one field. */
  datatype FieldError = FieldError(field: Field, message: string)

  /** A `required` rule on a text field fails on the empty string only. */
  function Required(value: string, message: string): Option<string>
  {
    if value == "" then Some(message) else None
  }

  /**
   * A `required` rule followed by a `pattern` rule: the pattern is only
   * tested on a non-empty value, and the first failing rule is reported.
   */
  function RequiredMatching(value: string, matches: bool, required: string, invalid: string): Option<string>
  {
    if value == "" then Some(required)
    else if !matches then Some(invalid)
    else None
  }

  /** The id field reports "Payment ID is required" exactly on the empty id. */
  function IdError(id: string): (e: Option<string>)
    ensures e == None <==> id != ""
    ensures e != None ==> e == Some("Payment ID is required")
  {
    Required(id, "Payment ID is required")
  }

  /**
   * The amount field reports "Amount is required" on the empty text,
   * "Invalid amount" on any other non-decimal text, and nothing on a decimal text.
   */
  function AmountError(amount: string): (e: Option<string>)
    ensures e == Some("Amount is required") <==> amount == ""
    ensures e == Some("Invalid amount") <==> amount != "" && !IsDecimalText(amount)
    ensures e == None <==> IsDecimalText(amount)
  {
    AmountPatternIsDecimalText(amount);
    RequiredMatching(amount, AmountPattern(amount), "Amount is required", "Invalid amount")
  }

  /** The status select always holds one of the four values, so its rule never fails. */
  function StatusError(status: Status): (e: Option<string>)
    ensures e == None
  {
    Required(StatusName(status), "Status is required")
  }

  /**
   * The email field reports "Email is required" on the empty text, "Invalid
   * email address" on any other text the pattern rejects, and nothing exactly
   * on a space-free text with an inner '@'.
   */
  function EmailError(email: string): (e: Option<string>)
    ensures e == Some("Email is required") <==> email == ""
    ensures e == Some("Invalid email address") <==> email != "" && !EmailPattern(email)
    ensures e == None <==> NoWhitespace(email) && exists i :: 0 < i < |email| - 1 && email[i] == '@'
  {
    EmailPatternCharacterised(email);
    RequiredMatching(email, EmailPattern(email), "Email is required", "Invalid email address")
  }

  function Report(field: Field, e: Option<string>): seq<FieldError>
  {
    match e
    case None => []
    case Some(m) => [FieldError(field, m)]
  }

  /** An entry of a field's report is that field's message. */
  lemma {:induction false} ReportMembers(field: Field, e: Option<string>, x: FieldError)
    ensures x in Report(field, e) <==> x.field == field && e == Some(x.message)
  {
  }

  /** Every field's first failing rule, in the form's field order. */
  function FormErrors(f: FormData): (r: seq<FieldError>)
    ensures forall e :: e in r ==> e.field != StatusField
  {
    Report(IdField, IdError(f.id)) + Report(AmountField, AmountError(f.amount))
      + Report(StatusField, StatusError(f.status)) + Report(EmailField, EmailError(f.email))
  }

  /** The record a submitted form becomes; the amount keeps its text. */
  function ToPayment(f: FormData): (p: Payment)
    ensures p.id == f.id && p.amount == f.amount && p.email == f.email
    ensures IsValidStatus(p.status) && p.status == StatusName(f.status)
  {
    ValidStatusesAreStatusNames(StatusName(f.status));
    Payment(f.id, f.amount, StatusName(f.status), f.email)
  }

  /** Each field is reported at most once, in the order id, amount, email. */
  lemma {:induction false} FormErrorsInFieldOrder(f: FormData)
    ensures forall i, j :: 0 <= i < j < |FormErrors(f)| ==> FieldRank(FormErrors(f)[i].field) < FieldRank(FormErrors(f)[j].field)
  {
    var id, amount, email := Report(IdField, IdError(f.id)), Report(AmountField, AmountError(f.amount)),
      Report(EmailField, EmailError(f.email));
    assert FormErrors(f) == id + amount + [] + email;
    match (IdError(f.id), AmountError(f.amount), EmailError(f.email))
    case (None, None, None) =>
    case (Some(a), None, None) =>
    case (None, Some(b), None) =>
    case (None, None, Some(c)) =>
    case (Some(a), Some(b), None) =>
    case (Some(a), None, Some(c)) =>
    case (None, Some(b), Some(c)) =>
    case (Some(a), Some(b), Some(c)) =>
  }

  /** Submitting the untouched form reports the id, amount and email as required. */
  lemma DefaultFormErrors()
    ensures FormErrors(DefaultForm) == [
      FieldError(IdField, "Payment ID is required"),
      FieldError(AmountField, "Amount is required"),
      FieldError(EmailField, "Email is required")]
  {
  }

  /**
   * The form library calls the submit handler exactly when no field
   * reports an error, and each field reports its first failing rule.
   */
  lemma {:induction false} FormErrorsCases(f: FormData)
    ensures FormErrors(f) == [] <==> f.id != "" && IsDecimalText(f.amount) && EmailPattern(f.email)
    ensures forall m :: FieldError(AmountField, m) in FormErrors(f) <==> AmountError(f.amount) == Some(m)
    ensures forall m :: FieldError(EmailField, m) in FormErrors(f) <==> EmailError(f.email) == Some(m)
    ensures forall m :: FieldError(IdField, m) in FormErrors(f) <==> IdError(f.id) == Some(m)
  {
    var id, amount, status, email := Report(IdField, IdError(f.id)), Report(AmountField, AmountError(f.amount)),
      Report(StatusField, StatusError(f.status)), Report(EmailField, EmailError(f.email));
    assert FormErrors(f) == id + amount + status + email;
    assert status == [];
    forall x: FieldError ensures x in FormErrors(f) <==> x in id || x in amount || x in email {
    }
    forall m ensures FieldError(AmountField, m) in FormErrors(f) <==> AmountError(f.amount) == Some(m) {
      ReportMembers(IdField, IdError(f.id), FieldError(AmountField, m));
      ReportMembers(AmountField, AmountError(f.amount), FieldError(AmountField, m));
      ReportMembers(EmailField, EmailError(f.email), FieldError(AmountField, m));
    }
    forall m ensures FieldError(EmailField, m) in FormErrors(f) <==> EmailError(f.email) == Some(m) {
      ReportMembers(IdField, IdError(f.id), FieldError(EmailField, m));
      ReportMembers(AmountField, AmountError(f.amount), FieldError(EmailField, m));
      ReportMembers(EmailField, EmailError(f.email), FieldError(EmailField, m));
    }
    forall m ensures FieldError(IdField, m) in FormErrors(f) <==> IdError(f.id) == Some(m) {
      ReportMembers(IdField, IdError(f.id), FieldError(IdField, m));
      ReportMembers(AmountField, AmountError(f.amount), FieldError(IdField, m));
      ReportMembers(EmailField, EmailError(f.email), FieldError(IdField, m));
    }
  }

  /** A form that passes its rules never has an empty amount. */
  lemma {:induction false} AcceptedFormHasAmount(f: FormData)
    requires FormErrors(f) == []
    ensures f.amount != "" && IsDecimalText(f.amount)
  {
    FormErrorsCases(f);
  }
}
