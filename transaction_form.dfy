/**
 * The form that records a new transaction: a partner chosen from the caller's list (or added on
 * the spot), the lend/borrow toggle, the amount, a description and a day.
 */
module TransactionForm {
  import opened Wrappers
  import opened JsStrings
  import opened Sorting
  import opened PartnerActions
  import opened TransactionFields

  /** The select's entry that opens the new-partner input instead of choosing a partner. */
  const NewPartnerValue: string := "new"

  /** The form data the create action receives. */
  datatype CreateForm = CreateForm(amount: string, partnerId: string, description: string, date: string)

  /** The name the add button sends: the trimmed input, or nothing when that is blank. */
  function NewPartnerRequest(input: string): (r: Option<string>)
    ensures r.None? <==> forall i :: 0 <= i < |input| ==> IsJsWhiteSpace(input[i])
    ensures r.Some? ==> r.value != [] && !IsJsWhiteSpace(r.value[0]) && !IsJsWhiteSpace(r.value[|r.value| - 1])
    ensures r.Some? ==> |r.value| <= |input|
  {
    TrimFacts(input);
    var name := Trim(input);
    if name == "" then None else Some(name)
  }

  class Form {
    var selectedPartnerId: string
    var isLending: bool
    var amount: string
    var description: string
    var date: string
    var showNewPartnerInput: bool
    var newPartnerName: string
    var localPartners: seq<PartnerSummary>

    /** The initial state: the default partner if any, lending, today's day, and the partners passed in. */
    constructor(partners: seq<PartnerSummary>, defaultPartnerId: Option<string>, today: string)
      ensures selectedPartnerId == (if defaultPartnerId.Some? then defaultPartnerId.value else "")
      ensures isLending && amount == "" && description == "" && date == today
      ensures !showNewPartnerInput && newPartnerName == "" && localPartners == partners
    {
      selectedPartnerId := if defaultPartnerId.Some? then defaultPartnerId.value else "";
      isLending := true;
      amount := "";
      description := "";
      date := today;
      showNewPartnerInput := false;
      newPartnerName := "";
      localPartners := partners;
    }

    /**
     * `handlePartnerSelectChange`: "new" opens the name input and clears the choice; any other
     * value closes the input and chooses that partner.
     */
    method SelectPartner(value: string)
      modifies this`showNewPartnerInput, this`selectedPartnerId
      ensures value == NewPartnerValue ==> showNewPartnerInput && selectedPartnerId == ""
      ensures value != NewPartnerValue ==> !showNewPartnerInput && selectedPartnerId == value
    {
      if value == NewPartnerValue {
        showNewPartnerInput := true;
        selectedPartnerId := "";
      } else {
        showNewPartnerInput := false;
        selectedPartnerId := value;
      }
    }

    method SetNewPartnerName(text: string)
      modifies this`newPartnerName
      ensures newPartnerName == text
    {
      newPartnerName := text;
    }

    /** `handleCreatePartner`: the name sent to the partner action, if any. */
    method CreatePartner() returns (sent: Option<string>)
      ensures sent == NewPartnerRequest(newPartnerName)
    {
      var name := Trim(newPartnerName);
      if name == "" {
        return None;
      }
      sent := Some(name);
    }

    /** `disabled={isPartnerPending || !newPartnerName.trim()}`. */
    predicate CreatePartnerEnabled(pending: bool)
      reads this
    {
      !pending && Trim(newPartnerName) != ""
    }

    /** The back button: the input closes and its text is cleared. */
    method CancelNewPartner()
      modifies this`showNewPartnerInput, this`newPartnerName
      ensures !showNewPartnerInput && newPartnerName == ""
    {
      showNewPartnerInput := false;
      newPartnerName := "";
    }

    /**
     * The effect on a created partner: the list gains it and stays in name order, it becomes the
     * chosen partner, and the input closes empty. Without a created partner nothing changes.
     */
    method PartnerCreated(created: Option<PartnerSummary>)
      modifies this`localPartners, this`selectedPartnerId, this`showNewPartnerInput, this`newPartnerName
      ensures created.None? ==> unchanged(this)
      ensures created.Some? ==>
        && localPartners == SortBy(old(localPartners) + [created.value], ByName())
        && multiset(localPartners) == multiset(old(localPartners)) + multiset{created.value}
        && SortedBy(localPartners, ByName())
        && selectedPartnerId == created.value.id
        && created.value in localPartners
        && !showNewPartnerInput && newPartnerName == ""
    {
      if created.Some? {
        var p := created.value;
        localPartners := SortBy(localPartners + [p], ByName());
        ByNameTotalPreorder();
        SortBySorted(old(localPartners) + [p], ByName());
        assert p in multiset(localPartners);
        selectedPartnerId := p.id;
        showNewPartnerInput := false;
        newPartnerName := "";
      }
    }

    method SetLending(lending: bool)
      modifies this`isLending
      ensures isLending == lending
    {
      isLending := lending;
    }

    /** Picking a day in the date input. */
    method SetDate(day: string)
      modifies this`date
      ensures date == day
    {
      date := day;
    }

    method SetAmount(text: string)
      modifies this`amount
      ensures amount == text
    {
      amount := text;
    }

    /** A suggestion button replaces the description. */
    method ChooseSuggestion(suggestion: string)
      modifies this`description
      ensures description == suggestion
    {
      description := suggestion;
    }

    /** `disabled={isPending || !selectedPartnerId || !amount}`. */
    predicate SubmitEnabled(pending: bool)
      reads this
    {
      !pending && selectedPartnerId != "" && amount != ""
    }

    /**
     * `handleSubmit`: nothing when the amount field does not parse; otherwise the signed amount,
     * the chosen partner, the description and the day.
     */
    method Submit() returns (sent: Option<CreateForm>)
      ensures sent.Some? <==> ParseInt(amount).Some?
      ensures sent.Some? ==>
        && ParseInt(sent.value.amount) == SignedAmount(isLending, amount)
        && sent.value == CreateForm(sent.value.amount, selectedPartnerId, description, date)
    {
      var signed := SignedAmount(isLending, amount);
      if signed.None? {
        return None;
      }
      ParseIntOfDecimal(signed.value);
      sent := Some(CreateForm(IntToDecimal(signed.value), selectedPartnerId, description, date));
    }
  }
}
