/**
 * The transaction ledger's server actions: the create and update schemas, creating, updating and
 * deleting a transaction (each checked against the session and against ownership before it writes),
 * and the description suggestions offered for autocomplete.
 */
module TransactionActions {
  import opened Wrappers
  import opened Sorting
  import opened JsStrings
  import opened Ledger

  const MinAmount: int := -10000000
  const MaxAmount: int := 10000000
  const MaxDescriptionLength: nat := 100
  const SuggestionLimit: nat := 10

  const PartnerNotFound: string := "指定された相手が見つかりません"
  const PartnerForbidden: string := "この相手への取引を登録する権限がありません"
  const TransactionNotFound: string := "取引が見つかりません"
  const EditForbidden: string := "この取引を編集する権限がありません"
  const DeleteForbidden: string := "この取引を削除する権限がありません"

  /**
   * The date field as the action reads it: empty (the action then takes the current time), an
   * instant `new Date` parsed, or text it could not parse (an Invalid Date).
   */
  datatype DateField = Blank | At(instant: int) | Unparseable

  /** The fields the create form posts; `None` is a field the form did not send. */
  datatype CreateForm = CreateForm(
    partnerId: Option<string>, amount: Option<string>, description: Option<string>, date: DateField)

  /** The fields the edit form posts. */
  datatype UpdateForm = UpdateForm(
    transactionId: Option<string>, amount: Option<string>, description: Option<string>, date: DateField)

  /** The fields an owner may set on a transaction, once validated. */
  datatype Entry = Entry(amount: int, description: Option<string>, date: int)

  /** A nonzero whole amount of at most ten million either way. */
  predicate ValidAmount(a: int) {
    MinAmount <= a <= MaxAmount && a != 0
  }

  /** `amountStr ? parseInt(amountStr, 10) : NaN`, NaN being `None`. */
  function AmountValue(field: Option<string>): (r: Option<int>)
    ensures field.None? || field == Some("") ==> r.None?
    ensures field.Some? && field.value != "" ==> r == ParseInt(field.value)
  {
    match field
    case None => None
    case Some(s) => if s == "" then None else ParseInt(s)
  }

  /**
   * The amount rules in schema order: present, at least the minimum, at most the maximum, nonzero.
   * (The schema's integer rule cannot fail: `parseInt` only yields integers.)
   */
  function AmountIssue(amount: Option<int>): (r: Option<Failure>)
    ensures r.None? <==> amount.Some? && ValidAmount(amount.value)
  {
    match amount
    case None => Some(InvalidField("amount"))
    case Some(a) =>
      if a < MinAmount then Some(Says("金額は-1,000万円以上で入力してください"))
      else if a > MaxAmount then Some(Says("金額は1,000万円以下で入力してください"))
      else if a == 0 then Some(Says("金額を入力してください"))
      else None
  }

  /** The optional description: at most 100 characters once an empty field is dropped. */
  function DescriptionIssue(description: Option<string>): (r: Option<Failure>)
    ensures r.None? <==> description.None? || JsLength(description.value) <= MaxDescriptionLength
  {
    match description
    case None => None
    case Some(d) =>
      if JsLength(d) > MaxDescriptionLength then Some(Says("説明は100文字以内で入力してください")) else None
  }

  /** The instant the action uses: the posted one, or the current time when none was posted. */
  function EffectiveDate(date: DateField, now: int): int
    requires !date.Unparseable?
  {
    if date.At? then date.instant else now
  }

  /** A parsable date that is not in the future. */
  function DateIssue(date: DateField, now: int): (r: Option<Failure>)
    ensures r.None? <==> !date.Unparseable? && EffectiveDate(date, now) <= now
  {
    match date
    case Unparseable => Some(InvalidField("date"))
    case Blank => None
    case At(t) => if t <= now then None else Some(Says("未来の日付は選択できません"))
  }

  /** True when the form's amount, description and date pass the schema. */
  predicate EntryAccepted(amount: Option<string>, description: Option<string>, date: DateField, now: int) {
    && AmountValue(amount).Some? && ValidAmount(AmountValue(amount).value)
    && (NonEmpty(description).None? || JsLength(NonEmpty(description).value) <= MaxDescriptionLength)
    && !date.Unparseable? && EffectiveDate(date, now) <= now
  }

  /**
   * The amount, description and date rules of both schemas, in schema order; the first failing
   * rule decides the error. An empty description is stored as no description.
   */
  function ValidateEntry(amount: Option<string>, description: Option<string>, date: DateField, now: int)
    : (r: Outcome<Entry>)
    ensures r.Ok? <==> EntryAccepted(amount, description, date, now)
    ensures r.Ok? ==> r.value.amount == AmountValue(amount).value && ValidAmount(r.value.amount)
    ensures r.Ok? ==> r.value.description == NonEmpty(description)
    ensures r.Ok? ==> r.value.description != Some("")
    ensures r.Ok? ==> r.value.date <= now && (date.At? ==> r.value.date == date.instant)
  {
    var a := AmountValue(amount);
    var d := NonEmpty(description);
    var amountIssue, descriptionIssue, dateIssue := AmountIssue(a), DescriptionIssue(d), DateIssue(date, now);
    if amountIssue.Some? then Err(amountIssue.value)
    else if descriptionIssue.Some? then Err(descriptionIssue.value)
    else if dateIssue.Some? then Err(dateIssue.value)
    else Ok(Entry(a.value, d, EffectiveDate(date, now)))
  }

  /** The create schema: the partner id first, then the entry. */
  function ValidateCreate(form: CreateForm, now: int): (r: Outcome<(PartnerId, Entry)>)
    ensures r.Ok? <==> form.partnerId.Some? && form.partnerId.value != ""
                       && EntryAccepted(form.amount, form.description, form.date, now)
    ensures r.Ok? ==> r.value.0 == form.partnerId.value
                      && Ok(r.value.1) == ValidateEntry(form.amount, form.description, form.date, now)
  {
    var idIssue := MinLengthIssue("partnerId", form.partnerId, 1, "相手を選択してください");
    if idIssue.Some? then Err(idIssue.value)
    else
      var entry := ValidateEntry(form.amount, form.description, form.date, now);
      if entry.Err? then Err(entry.error) else Ok((form.partnerId.value, entry.value))
  }

  /** The update schema: the transaction id first, then the entry, with the same rules as create. */
  function ValidateUpdate(form: UpdateForm, now: int): (r: Outcome<(TransactionId, Entry)>)
    ensures r.Ok? <==> form.transactionId.Some? && form.transactionId.value != ""
                       && EntryAccepted(form.amount, form.description, form.date, now)
    ensures r.Ok? ==> r.value.0 == form.transactionId.value
                      && Ok(r.value.1) == ValidateEntry(form.amount, form.description, form.date, now)
  {
    var idIssue := MinLengthIssue("transactionId", form.transactionId, 1, "取引IDが必要です");
    if idIssue.Some? then Err(idIssue.value)
    else
      var entry := ValidateEntry(form.amount, form.description, form.date, now);
      if entry.Err? then Err(entry.error) else Ok((form.transactionId.value, entry.value))
  }

  /**
   * A stored transaction obeys the ledger's rules: a valid amount, no empty description, and a
   * partner that exists and belongs to the transaction's owner.
   */
  predicate WellFormed(t: Transaction, partners: map<PartnerId, Partner>) {
    && ValidAmount(t.amount)
    && t.description != Some("")
    && t.partnerId in partners && partners[t.partnerId].ownerId == t.ownerId
  }

  predicate LedgerWellFormed(partners: map<PartnerId, Partner>, transactions: map<TransactionId, Transaction>) {
    forall id :: id in transactions ==> WellFormed(transactions[id], partners)
  }

  /**
   * What `createTransaction` decides: the transaction to insert, or the first check that fails,
   * in the order session, schema, partner exists, partner is the caller's.
   */
  function CreateOutcome(session: Option<AccountId>, form: CreateForm, now: int, partners: map<PartnerId, Partner>)
    : (r: Outcome<Transaction>)
    ensures session.None? ==> r == Err(Says(LoginRequired))
    ensures r.Ok? <==>
      && session.Some? && ValidateCreate(form, now).Ok?
      && form.partnerId.value in partners && partners[form.partnerId.value].ownerId == session.value
    ensures r.Ok? ==>
      && r.value.ownerId == session.value && r.value.partnerId == form.partnerId.value
      && WellFormed(r.value, partners) && r.value.date <= now
      && Entry(r.value.amount, r.value.description, r.value.date) == ValidateCreate(form, now).value.1
    ensures session.Some? && ValidateCreate(form, now).Ok? && form.partnerId.value !in partners ==>
      r == Err(Says(PartnerNotFound))
  {
    if session.None? then Err(Says(LoginRequired))
    else
      var parsed := ValidateCreate(form, now);
      if parsed.Err? then Err(parsed.error)
      else
        var (partnerId, entry) := parsed.value;
        if partnerId !in partners then Err(Says(PartnerNotFound))
        else if partners[partnerId].ownerId != session.value then Err(Says(PartnerForbidden))
        else Ok(Transaction(entry.amount, entry.description, entry.date, session.value, partnerId))
  }

  /**
   * `createTransaction`: runs its checks in the source's order and only then inserts one row
   * under the fresh id the database assigns.
   */
  method CreateTransaction(db: Store, session: Option<AccountId>, form: CreateForm, now: int, newId: TransactionId)
    returns (r: Outcome<()>)
    requires newId !in db.transactions
    modifies db`transactions
    ensures r.Ok? <==> CreateOutcome(session, form, now, db.partners).Ok?
    ensures r.Ok? ==> db.transactions == old(db.transactions)[newId := CreateOutcome(session, form, now, db.partners).value]
    ensures r.Err? ==> r.error == CreateOutcome(session, form, now, db.partners).error
                       && db.transactions == old(db.transactions)
    ensures LedgerWellFormed(db.partners, old(db.transactions)) ==> LedgerWellFormed(db.partners, db.transactions)
  {
    if session.None? {
      return Err(Says(LoginRequired));
    }
    var parsed := ValidateCreate(form, now);
    if parsed.Err? {
      return Err(parsed.error);
    }
    var (partnerId, entry) := parsed.value;
    if partnerId !in db.partners {
      return Err(Says(PartnerNotFound));
    }
    if db.partners[partnerId].ownerId != session.value {
      return Err(Says(PartnerForbidden));
    }
    db.transactions := db.transactions[newId := Transaction(entry.amount, entry.description, entry.date, session.value, partnerId)];
    r := Ok(());
  }

  /**
   * What `updateTransaction` decides: the target id and its new row, or the first failing check in
   * the order session, schema, transaction exists, transaction is the caller's. The new row keeps
   * the owner and the partner and takes the validated amount, description and date.
   */
  function UpdateOutcome(session: Option<AccountId>, form: UpdateForm, now: int,
                         transactions: map<TransactionId, Transaction>)
    : (r: Outcome<(TransactionId, Transaction)>)
    ensures session.None? ==> r == Err(Says(LoginRequired))
    ensures r.Ok? <==>
      && session.Some? && ValidateUpdate(form, now).Ok?
      && form.transactionId.value in transactions
      && transactions[form.transactionId.value].ownerId == session.value
    ensures r.Ok? ==>
      var (id, t) := r.value;
      var entry := ValidateUpdate(form, now).value.1;
      && id == form.transactionId.value && id in transactions
      && t.ownerId == transactions[id].ownerId == session.value
      && t.partnerId == transactions[id].partnerId
      && t.amount == entry.amount && t.description == entry.description && t.date == entry.date
    ensures session.Some? && ValidateUpdate(form, now).Ok? && form.transactionId.value !in transactions ==>
      r == Err(Says(TransactionNotFound))
  {
    if session.None? then Err(Says(LoginRequired))
    else
      var parsed := ValidateUpdate(form, now);
      if parsed.Err? then Err(parsed.error)
      else
        var (id, entry) := parsed.value;
        if id !in transactions then Err(Says(TransactionNotFound))
        else if transactions[id].ownerId != session.value then Err(Says(EditForbidden))
        else Ok((id, transactions[id].(amount := entry.amount, description := entry.description, date := entry.date)))
  }

  /** `updateTransaction`: after all checks, overwrites the amount, description and date of one row. */
  method UpdateTransaction(db: Store, session: Option<AccountId>, form: UpdateForm, now: int) returns (r: Outcome<()>)
    modifies db`transactions
    ensures r.Ok? <==> UpdateOutcome(session, form, now, old(db.transactions)).Ok?
    ensures r.Ok? ==> var (id, t) := UpdateOutcome(session, form, now, old(db.transactions)).value;
                      db.transactions == old(db.transactions)[id := t]
    ensures r.Err? ==> r.error == UpdateOutcome(session, form, now, old(db.transactions)).error
                       && db.transactions == old(db.transactions)
    ensures forall id :: id in old(db.transactions) && Some(old(db.transactions)[id].ownerId) != session ==>
              id in db.transactions && db.transactions[id] == old(db.transactions)[id]
    ensures LedgerWellFormed(db.partners, old(db.transactions)) ==> LedgerWellFormed(db.partners, db.transactions)
  {
    if session.None? {
      return Err(Says(LoginRequired));
    }
    var parsed := ValidateUpdate(form, now);
    if parsed.Err? {
      return Err(parsed.error);
    }
    var (id, entry) := parsed.value;
    if id !in db.transactions {
      return Err(Says(TransactionNotFound));
    }
    var existing := db.transactions[id];
    if existing.ownerId != session.value {
      return Err(Says(EditForbidden));
    }
    db.transactions := db.transactions[id := existing.(amount := entry.amount, description := entry.description, date := entry.date)];
    r := Ok(());
  }

  /**
   * What `deleteTransaction` decides: success exactly when there is a session and the transaction
   * exists and is the caller's; the checks run in that order.
   */
  function DeleteOutcome(session: Option<AccountId>, id: TransactionId, transactions: map<TransactionId, Transaction>)
    : (r: Outcome<()>)
    ensures r.Ok? <==> session.Some? && id in transactions && transactions[id].ownerId == session.value
    ensures session.None? ==> r == Err(Says(LoginRequired))
    ensures session.Some? && id !in transactions ==> r == Err(Says(TransactionNotFound))
    ensures session.Some? && id in transactions && transactions[id].ownerId != session.value ==>
      r == Err(Says(DeleteForbidden))
  {
    if session.None? then Err(Says(LoginRequired))
    else if id !in transactions then Err(Says(TransactionNotFound))
    else if transactions[id].ownerId != session.value then Err(Says(DeleteForbidden))
    else Ok(())
  }

  /** `deleteTransaction`: removes exactly the target row, and only after all checks pass. */
  method DeleteTransaction(db: Store, session: Option<AccountId>, id: TransactionId) returns (r: Outcome<()>)
    modifies db`transactions
    ensures r == DeleteOutcome(session, id, old(db.transactions))
    ensures r.Ok? ==> db.transactions == old(db.transactions) - {id}
    ensures r.Err? ==> db.transactions == old(db.transactions)
    ensures LedgerWellFormed(db.partners, old(db.transactions)) ==> LedgerWellFormed(db.partners, db.transactions)
  {
    if session.None? {
      return Err(Says(LoginRequired));
    }
    if id !in db.transactions {
      return Err(Says(TransactionNotFound));
    }
    if db.transactions[id].ownerId != session.value {
      return Err(Says(DeleteForbidden));
    }
    db.transactions := db.transactions - {id};
    r := Ok(());
  }

  // ---------------------------------------------------------------------------------------------
  // Description suggestions

  /** The descriptions on `owner`'s transactions that have one, in scan order, repeats kept. */
  function OwnDescriptions(scan: seq<TransactionId>, transactions: map<TransactionId, Transaction>, owner: AccountId)
    : seq<string>
    requires forall i :: 0 <= i < |scan| ==> scan[i] in transactions
  {
    if scan == [] then []
    else
      var t := transactions[scan[0]];
      (if t.ownerId == owner && t.description.Some? then [t.description.value] else [])
      + OwnDescriptions(scan[1..], transactions, owner)
  }

  lemma {:induction false} OwnDescriptionSource(scan: seq<TransactionId>, transactions: map<TransactionId, Transaction>,
                                                 owner: AccountId, d: string)
    requires forall i :: 0 <= i < |scan| ==> scan[i] in transactions
    requires d in OwnDescriptions(scan, transactions, owner)
    ensures exists id :: id in transactions && transactions[id].ownerId == owner && transactions[id].description == Some(d)
  {
    var t := transactions[scan[0]];
    if !(t.ownerId == owner && t.description == Some(d)) {
      OwnDescriptionSource(scan[1..], transactions, owner, d);
    }
  }

  /** How many of `owner`'s transactions carry description `d`. */
  function UsageCount(scan: seq<TransactionId>, transactions: map<TransactionId, Transaction>, owner: AccountId, d: string)
    : nat
    requires forall i :: 0 <= i < |scan| ==> scan[i] in transactions
  {
    multiset(OwnDescriptions(scan, transactions, owner))[d]
  }

  /** Every used description with its usage count, in order of first use: the `groupBy` rows. */
  function DescriptionCounts(scan: seq<TransactionId>, transactions: map<TransactionId, Transaction>, owner: AccountId)
    : (rows: seq<(string, nat)>)
    requires forall i :: 0 <= i < |scan| ==> scan[i] in transactions
    ensures |rows| == |Dedup(OwnDescriptions(scan, transactions, owner))|
    ensures forall i :: 0 <= i < |rows| ==> rows[i].1 == UsageCount(scan, transactions, owner, rows[i].0)
  {
    var used := Dedup(OwnDescriptions(scan, transactions, owner));
    seq(|used|, i requires 0 <= i < |used| => (used[i], UsageCount(scan, transactions, owner, used[i])))
  }

  /** Orders grouped rows by usage count, the most used first. */
  function ByCountDescending(): ((string, nat), (string, nat)) -> bool {
    (a: (string, nat), b: (string, nat)) => a.1 >= b.1
  }

  function Names(rows: seq<(string, nat)>): (names: seq<string>)
    ensures |names| == |rows| && forall i :: 0 <= i < |rows| ==> names[i] == rows[i].0
  {
    seq(|rows|, i requires 0 <= i < |rows| => rows[i].0)
  }

  /** `take: 10`. */
  function Top(rows: seq<(string, nat)>): (r: seq<(string, nat)>)
    ensures |r| <= SuggestionLimit && r <= rows
    ensures |rows| <= SuggestionLimit ==> r == rows
    ensures SuggestionLimit < |rows| ==> |r| == SuggestionLimit
  {
    if |rows| <= SuggestionLimit then rows else rows[..SuggestionLimit]
  }

  /** The grouped rows ordered by usage, before the first ten are taken. */
  function RankedDescriptions(scan: seq<TransactionId>, transactions: map<TransactionId, Transaction>, owner: AccountId)
    : seq<(string, nat)>
    requires forall i :: 0 <= i < |scan| ==> scan[i] in transactions
  {
    SortBy(DescriptionCounts(scan, transactions, owner), ByCountDescending())
  }

  /**
   * `getDescriptionSuggestions`: the caller's descriptions grouped with their usage counts, most
   * used first, the first ten of them. No session gives no suggestions.
   */
  function DescriptionSuggestions(session: Option<AccountId>, scan: seq<TransactionId>,
                                  transactions: map<TransactionId, Transaction>)
    : (r: seq<string>)
    requires Enumerates(scan, transactions)
    ensures session.None? ==> r == []
    ensures |r| <= SuggestionLimit
    ensures Distinct(r)
    ensures session.Some? ==> forall i :: 0 <= i < |r| ==>
      exists id :: id in transactions && transactions[id].ownerId == session.value
                   && transactions[id].description == Some(r[i])
    ensures session.Some? ==> forall i, j :: 0 <= i < j < |r| ==>
      UsageCount(scan, transactions, session.value, r[i]) >= UsageCount(scan, transactions, session.value, r[j])
  {
    if session.None? then []
    else
      SuggestionFacts(scan, transactions, session.value);
      Names(Top(RankedDescriptions(scan, transactions, session.value)))
  }

  lemma SuggestionFacts(scan: seq<TransactionId>, transactions: map<TransactionId, Transaction>, owner: AccountId)
    requires forall i :: 0 <= i < |scan| ==> scan[i] in transactions
    ensures var r := Names(Top(RankedDescriptions(scan, transactions, owner)));
      && |r| <= SuggestionLimit
      && Distinct(r)
      && (forall i :: 0 <= i < |r| ==>
            exists id :: id in transactions && transactions[id].ownerId == owner && transactions[id].description == Some(r[i]))
      && (forall i, j :: 0 <= i < j < |r| ==>
            UsageCount(scan, transactions, owner, r[i]) >= UsageCount(scan, transactions, owner, r[j]))
  {
    SuggestionsRanked(scan, transactions, owner);
    SuggestionsOwned(scan, transactions, owner);
  }

  /** The suggestions are distinct, at most ten, and in non-increasing usage count. */
  lemma SuggestionsRanked(scan: seq<TransactionId>, transactions: map<TransactionId, Transaction>, owner: AccountId)
    requires forall i :: 0 <= i < |scan| ==> scan[i] in transactions
    ensures var r := Names(Top(RankedDescriptions(scan, transactions, owner)));
      && |r| <= SuggestionLimit
      && Distinct(r)
      && (forall i, j :: 0 <= i < j < |r| ==>
            UsageCount(scan, transactions, owner, r[i]) >= UsageCount(scan, transactions, owner, r[j]))
  {
    var ranked := RankedDescriptions(scan, transactions, owner);
    var r := Names(Top(ranked));
    RankedFacts(scan, transactions, owner);
    TopNames(ranked);
    forall i | 0 <= i < |r| ensures UsageCount(scan, transactions, owner, r[i]) == ranked[i].1 {
    }
  }

  /** Every suggestion is the description of one of the owner's transactions. */
  lemma SuggestionsOwned(scan: seq<TransactionId>, transactions: map<TransactionId, Transaction>, owner: AccountId)
    requires forall i :: 0 <= i < |scan| ==> scan[i] in transactions
    ensures var r := Names(Top(RankedDescriptions(scan, transactions, owner)));
      forall i :: 0 <= i < |r| ==>
        exists id :: id in transactions && transactions[id].ownerId == owner && transactions[id].description == Some(r[i])
  {
    var ranked := RankedDescriptions(scan, transactions, owner);
    var r := Names(Top(ranked));
    RankedFacts(scan, transactions, owner);
    TopNames(ranked);
    forall i | 0 <= i < |r|
      ensures exists id :: id in transactions && transactions[id].ownerId == owner && transactions[id].description == Some(r[i])
    {
      OwnDescriptionSource(scan, transactions, owner, r[i]);
    }
  }

  /** How many distinct descriptions `owner` used, capped at `cap`. */
  function DistinctUsed(scan: seq<TransactionId>, transactions: map<TransactionId, Transaction>, owner: AccountId, cap: nat)
    : nat
    requires forall i :: 0 <= i < |scan| ==> scan[i] in transactions
  {
    var used := Dedup(OwnDescriptions(scan, transactions, owner));
    if |used| < cap then |used| else cap
  }

  /** There are ten suggestions, or fewer when the caller used fewer distinct descriptions. */
  lemma SuggestionCount(session: Option<AccountId>, scan: seq<TransactionId>,
                        transactions: map<TransactionId, Transaction>)
    requires Enumerates(scan, transactions) && session.Some?
    ensures |DescriptionSuggestions(session, scan, transactions)|
      == DistinctUsed(scan, transactions, session.value, SuggestionLimit)
  {
    var ranked := RankedDescriptions(scan, transactions, session.value);
    assert DescriptionSuggestions(session, scan, transactions) == Names(Top(ranked));
    assert |ranked| == |DescriptionCounts(scan, transactions, session.value)|;
  }

  /** With no more than ten distinct descriptions, every one of them is suggested. */
  lemma FewDescriptionsAllSuggested(session: Option<AccountId>, scan: seq<TransactionId>,
                                    transactions: map<TransactionId, Transaction>, d: string)
    requires Enumerates(scan, transactions) && session.Some?
    requires |Dedup(OwnDescriptions(scan, transactions, session.value))| <= SuggestionLimit
    requires d in OwnDescriptions(scan, transactions, session.value)
    ensures d in DescriptionSuggestions(session, scan, transactions)
  {
    var owner := session.value;
    var ranked := RankedDescriptions(scan, transactions, owner);
    var r := DescriptionSuggestions(session, scan, transactions);
    assert r == Names(Top(ranked));
    assert |ranked| == |DescriptionCounts(scan, transactions, owner)|;
    var m := RankOf(scan, transactions, owner, d);
    assert r[m] == d;
  }

  /** The grouped rows are distinct, and each names a description the owner used. */
  lemma CountedRows(scan: seq<TransactionId>, transactions: map<TransactionId, Transaction>, owner: AccountId)
    requires forall i :: 0 <= i < |scan| ==> scan[i] in transactions
    ensures var rows := DescriptionCounts(scan, transactions, owner);
      && Distinct(rows)
      && forall r :: r in rows ==> r.0 in OwnDescriptions(scan, transactions, owner)
  {
    var rows := DescriptionCounts(scan, transactions, owner);
    var used := Dedup(OwnDescriptions(scan, transactions, owner));
    forall r | r in rows ensures r.0 in OwnDescriptions(scan, transactions, owner) {
      var k :| 0 <= k < |rows| && rows[k] == r;
      assert rows[k].0 == used[k];
    }
    forall i, j | 0 <= i < j < |rows| ensures rows[i] != rows[j] {
      assert rows[i].0 == used[i] && rows[j].0 == used[j];
    }
  }

  /** What the ranking keeps of the grouped rows: their names are distinct and used, and counts fall. */
  lemma RankedFacts(scan: seq<TransactionId>, transactions: map<TransactionId, Transaction>, owner: AccountId)
    requires forall i :: 0 <= i < |scan| ==> scan[i] in transactions
    ensures var ranked := RankedDescriptions(scan, transactions, owner);
      && Distinct(Names(ranked))
      && (forall i :: 0 <= i < |ranked| ==> ranked[i].1 == UsageCount(scan, transactions, owner, ranked[i].0))
      && (forall i :: 0 <= i < |ranked| ==> ranked[i].0 in OwnDescriptions(scan, transactions, owner))
      && (forall i, j :: 0 <= i < j < |ranked| ==> ranked[i].1 >= ranked[j].1)
  {
    var rows := DescriptionCounts(scan, transactions, owner);
    var ranked := RankedDescriptions(scan, transactions, owner);
    SortBySorted(rows, ByCountDescending());
    CountedRows(scan, transactions, owner);
    forall i | 0 <= i < |ranked|
      ensures ranked[i] in rows
      ensures ranked[i].1 == UsageCount(scan, transactions, owner, ranked[i].0)
      ensures ranked[i].0 in OwnDescriptions(scan, transactions, owner)
    {
      assert ranked[i] in multiset(ranked);
      assert ranked[i] in multiset(rows);
    }
    DistinctPermutation(rows, ranked);
    forall i, j | 0 <= i < j < |ranked| ensures ranked[i].0 != ranked[j].0 {
      assert ranked[i] != ranked[j];
      assert ranked[i].1 == UsageCount(scan, transactions, owner, ranked[i].0);
      assert ranked[j].1 == UsageCount(scan, transactions, owner, ranked[j].0);
    }
  }

  /**
   * The suggestions are the most used descriptions: a description of the caller's that was left
   * out is used no more often than any suggested one.
   */
  lemma {:induction false} SuggestionsAreMostUsed(session: Option<AccountId>, scan: seq<TransactionId>,
                                                  transactions: map<TransactionId, Transaction>, d: string)
    requires Enumerates(scan, transactions) && session.Some?
    requires d in OwnDescriptions(scan, transactions, session.value)
    requires d !in DescriptionSuggestions(session, scan, transactions)
    ensures forall s :: s in DescriptionSuggestions(session, scan, transactions) ==>
      UsageCount(scan, transactions, session.value, d) <= UsageCount(scan, transactions, session.value, s)
  {
    var owner := session.value;
    var ranked := RankedDescriptions(scan, transactions, owner);
    var r := DescriptionSuggestions(session, scan, transactions);
    assert r == Names(Top(ranked));
    RankedFacts(scan, transactions, owner);
    var m := RankOf(scan, transactions, owner, d);
    LeftOutRanksLower(ranked, m);
    forall s | s in r
      ensures UsageCount(scan, transactions, owner, d) <= UsageCount(scan, transactions, owner, s)
    {
      var i :| 0 <= i < |r| && r[i] == s;
    }
  }

  /** The names of the top ten rows are the first ten names, distinct when all names are. */
  lemma TopNames(ranked: seq<(string, nat)>)
    requires Distinct(Names(ranked))
    ensures var r := Names(Top(ranked));
      && Distinct(r)
      && forall i :: 0 <= i < |r| ==> r[i] == ranked[i].0
  {
    var r := Names(Top(ranked));
    var names := Names(ranked);
    forall i, j | 0 <= i < j < |r| ensures r[i] != r[j] {
      assert r[i] == names[i] && r[j] == names[j];
    }
  }

  /** In rows ordered by falling count, a row left out of the top ten counts no more than any kept row. */
  lemma LeftOutRanksLower(ranked: seq<(string, nat)>, m: nat)
    requires forall i, j :: 0 <= i < j < |ranked| ==> ranked[i].1 >= ranked[j].1
    requires m < |ranked| && ranked[m].0 !in Names(Top(ranked))
    ensures forall i :: 0 <= i < |Names(Top(ranked))| ==>
      Names(Top(ranked))[i] == ranked[i].0 && ranked[i].1 >= ranked[m].1
  {
    var r := Names(Top(ranked));
    assert forall i :: 0 <= i < |r| ==> ranked[i].0 == r[i] && ranked[i].0 in r;
    assert m >= |r|;
  }

  /** Where a used description stands in the ranking. */
  lemma RankOf(scan: seq<TransactionId>, transactions: map<TransactionId, Transaction>, owner: AccountId, d: string)
    returns (m: nat)
    requires forall i :: 0 <= i < |scan| ==> scan[i] in transactions
    requires d in OwnDescriptions(scan, transactions, owner)
    ensures m < |RankedDescriptions(scan, transactions, owner)|
    ensures RankedDescriptions(scan, transactions, owner)[m].0 == d
  {
    var own := OwnDescriptions(scan, transactions, owner);
    var rows := DescriptionCounts(scan, transactions, owner);
    var ranked := RankedDescriptions(scan, transactions, owner);
    var used := Dedup(own);
    var j :| 0 <= j < |own| && own[j] == d;
    assert d in used;
    var k :| 0 <= k < |used| && used[k] == d;
    assert rows[k].0 == d;
    assert rows[k] in multiset(rows);
    assert rows[k] in multiset(ranked);
    m :| 0 <= m < |ranked| && ranked[m] == rows[k];
  }
}
