/**
 * The client's payment list: the records the table shows, the copy saved in
 * the browser's local storage under "payments", the alert banner and the
 * add-payment dialog, and the three actions that change the list.
 */
module DataTable {
  import opened Payments
  import opened PaymentForm

  datatype AlertKind = SuccessAlert | ErrorAlert

  /** The alert banner above the table. */
  datatype Alert = Alert(show: bool, message: string, kind: AlertKind)

  const HiddenAlert: Alert := Alert(false, "", SuccessAlert)

  /** What the submit handler shows when the amount is empty. */
  const AmountRequiredAlert: Alert := Alert(true, "Amount is required.", ErrorAlert)

  class PaymentTable {
    /** The records the table shows, in insertion order. */
    var data: seq<Payment>
    /** The list last written to local storage. */
    ghost var saved: seq<Payment>
    var alert: Alert
    var dialogOpen: bool

    /** The saved copy equals the displayed list. */
    ghost predicate Synced()
      reads this
    {
      saved == data
    }

    /** The first render: an empty list and whatever local storage already holds. */
    constructor (ghost stored: seq<Payment>)
      ensures data == [] && saved == stored
      ensures alert == HiddenAlert && !dialogOpen
    {
      data := [];
      saved := stored;
      alert := HiddenAlert;
      dialogOpen := false;
    }

    /** Replaces the list and writes the same list to local storage. */
    method SetAndSave(updated: seq<Payment>)
      modifies this
      ensures data == updated && Synced()
      ensures alert == old(alert) && dialogOpen == old(dialogOpen)
    {
      data := updated;
      saved := updated;
    }

    /**
     * The submit handler: an empty amount raises the error alert and changes
     * nothing else; otherwise the form's record is appended at the end, the
     * new list is saved and the dialog closes.
     */
    method OnSubmit(form: FormData)
      modifies this
      ensures form.amount == "" ==>
        && data == old(data) && saved == old(saved)
        && alert == AmountRequiredAlert && dialogOpen == old(dialogOpen)
      ensures form.amount != "" ==>
        && data == old(data) + [ToPayment(form)] && Synced()
        && alert == old(alert) && !dialogOpen
    {
      if form.amount == "" {
        alert := AmountRequiredAlert;
        return;
      }
      var payment := ToPayment(form);
      SetAndSave(data + [payment]);
      dialogOpen := false;
    }

    /**
     * Submitting the form: the field rules run first and, when one fails,
     * nothing changes; otherwise the submit handler runs.
     */
    method HandleSubmit(form: FormData) returns (errors: seq<FieldError>)
      modifies this
      ensures errors == FormErrors(form)
      ensures errors != [] ==> unchanged(this)
      ensures errors == [] ==>
        && data == old(data) + [ToPayment(form)] && Synced()
        && alert == old(alert) && !dialogOpen
    {
      errors := FormErrors(form);
      if errors == [] {
        AcceptedFormHasAmount(form);
        OnSubmit(form);
      }
    }

    /** The row's delete action: every record with the row's id goes, and the result is saved. */
    method Delete(payment: Payment)
      modifies this
      ensures data == WithoutId(old(data), payment.id) && Synced()
      ensures forall p :: p in data ==> p.id != payment.id
      ensures alert == old(alert) && dialogOpen == old(dialogOpen)
    {
      SetAndSave(WithoutId(data, payment.id));
      WithoutIdRemovesAll(old(data), payment.id);
    }

    /** The delete toast's undo: the deleted record goes to the end of the current list. */
    method UndoDelete(payment: Payment)
      modifies this
      ensures data == old(data) + [payment] && Synced()
      ensures alert == old(alert) && dialogOpen == old(dialogOpen)
    {
      SetAndSave(data + [payment]);
    }
  }
}
