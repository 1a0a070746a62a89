/**
 * The dialog that edits or deletes one transaction. Its fields are loaded from the transaction it
 * is opened on; submitting sends the edited row to the update action, and deleting asks for
 * confirmation first. With no transaction the dialog shows nothing and its handlers do nothing.
 */
module EditModal {
  import opened Wrappers
  import opened JsStrings
  import opened TransactionFields

  /**
   * The transaction the dialog edits. `isoDay` is the `YYYY-MM-DD` part of the date's ISO form,
   * which the date input shows.
   */
  datatype EditedTransaction = EditedTransaction(id: string, amount: int, description: Option<string>, isoDay: string)

  /** The form data the update action receives. */
  datatype UpdateForm = UpdateForm(transactionId: string, amount: string, description: string, date: string)

  /** What the dialog's form sends when submitted with these field values. */
  function Submission(t: EditedTransaction, isLending: bool, amount: string, description: string, date: string)
    : (r: Option<UpdateForm>)
    ensures r.Some? <==> ParseInt(amount).Some?
    ensures r.Some? ==> r.value.transactionId == t.id && r.value.description == description && r.value.date == date
    ensures r.Some? ==> ParseInt(r.value.amount) == SignedAmount(isLending, amount)
  {
    match SignedAmount(isLending, amount)
    case None => None
    case Some(signed) =>
      ParseIntOfDecimal(signed);
      Some(UpdateForm(t.id, IntToDecimal(signed), description, date))
  }

  class EditDialog {
    /** The parent's `open` prop, which `onOpenChange(false)` clears. */
    var open: bool
    var isLending: bool
    var amount: string
    var description: string
    var date: string
    var showDeleteConfirm: bool
    var deleteError: Option<string>

    constructor(open: bool)
      ensures this.open == open && isLending && amount == "" && description == "" && date == ""
      ensures !showDeleteConfirm && deleteError.None?
    {
      this.open := open;
      isLending := true;
      amount := "";
      description := "";
      date := "";
      showDeleteConfirm := false;
      deleteError := None;
    }

    /** The dialog shows only while it is open and has a transaction. */
    predicate Shown(transaction: Option<EditedTransaction>)
      reads this
    {
      open && transaction.Some?
    }

    /**
     * The effect on a new transaction: the toggle on lending unless the amount is negative, the
     * magnitude's numeral, the description or "", the day, and the delete view reset.
     */
    method Load(transaction: Option<EditedTransaction>)
      modifies this
      ensures transaction.None? ==> unchanged(this)
      ensures transaction.Some? ==>
        var t := transaction.value;
        && isLending == (t.amount >= 0)
        && amount == NatToDecimal(Abs(t.amount))
        && description == DescriptionField(t.description)
        && date == t.isoDay
        && !showDeleteConfirm && deleteError.None?
        && open == old(open)
    {
      if transaction.Some? {
        var t := transaction.value;
        isLending := t.amount >= 0;
        amount := NatToDecimal(Abs(t.amount));
        description := DescriptionField(t.description);
        date := t.isoDay;
        showDeleteConfirm := false;
        deleteError := None;
      }
    }

    /** The toggle buttons. */
    method SetLending(lending: bool)
      modifies this`isLending
      ensures isLending == lending
    {
      isLending := lending;
    }

    /** Picking a day in the date input. */
    method SetDate(day: string)
      modifies this`date
      ensures date == day
    {
      date := day;
    }

    /** Typing in the amount field. */
    method SetAmount(text: string)
      modifies this`amount
      ensures amount == text
    {
      amount := text;
    }

    /** A suggestion button replaces the description. */
    method ChooseSuggestion(suggestion: string)
      modifies this`description
      ensures description == suggestion
    {
      description := suggestion;
    }

    /** `disabled={isPending || !amount}`. */
    predicate SubmitEnabled(pending: bool)
      reads this
    {
      !pending && amount != ""
    }

    /**
     * `handleSubmit`: nothing without a transaction or when the amount field does not parse;
     * otherwise the row's id, the signed amount, the description and the day.
     */
    method Submit(transaction: Option<EditedTransaction>) returns (sent: Option<UpdateForm>)
      ensures transaction.None? ==> sent.None?
      ensures transaction.Some? ==> sent == Submission(transaction.value, isLending, amount, description, date)
    {
      if transaction.None? {
        return None;
      }
      var signed := SignedAmount(isLending, amount);
      if signed.None? {
        return None;
      }
      ParseIntOfDecimal(signed.value);
      sent := Some(UpdateForm(transaction.value.id, IntToDecimal(signed.value), description, date));
    }

    /** The update action reported success: the dialog closes. */
    method UpdateSucceeded()
      modifies this`open
      ensures !open
    {
      open := false;
    }

    /** The trash button: the confirmation view. */
    method AskDelete()
      modifies this`showDeleteConfirm
      ensures showDeleteConfirm
    {
      showDeleteConfirm := true;
    }

    /** Cancel: back to the form. */
    method CancelDelete()
      modifies this`showDeleteConfirm
      ensures !showDeleteConfirm
    {
      showDeleteConfirm := false;
    }

    /**
     * `handleDelete` with the delete action's outcome (`Some(error)` when it failed): nothing
     * without a transaction; a failure is shown and the dialog stays open; success closes it.
     */
    method Delete(transaction: Option<EditedTransaction>, outcome: Option<string>) returns (requested: bool)
      modifies this`open, this`deleteError
      ensures requested <==> transaction.Some?
      ensures transaction.None? ==> open == old(open) && deleteError == old(deleteError)
      ensures transaction.Some? && outcome.Some? ==> deleteError == outcome && open == old(open)
      ensures transaction.Some? && outcome.None? ==> !open && deleteError == old(deleteError)
    {
      if transaction.None? {
        return false;
      }
      requested := true;
      if outcome.Some? {
        deleteError := outcome;
      } else {
        open := false;
      }
    }
  }

  /**
   * Opening the dialog on a transaction and submitting it unedited sends the transaction back as
   * it was: its id, its amount, its description (or "") and its day.
   */
  method SubmitUnedited(t: EditedTransaction) returns (sent: Option<UpdateForm>)
    ensures sent == Some(UpdateForm(t.id, IntToDecimal(t.amount), DescriptionField(t.description), t.isoDay))
    ensures ParseInt(sent.value.amount) == Some(t.amount)
  {
    var dialog := new EditDialog(true);
    dialog.Load(Some(t));
    ToggleRoundTrip(t.amount);
    sent := dialog.Submit(Some(t));
    ParseIntOfDecimal(t.amount);
  }
}
