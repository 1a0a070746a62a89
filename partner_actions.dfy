/**
 * The address book's server actions: listing the caller's partners by name, and adding a partner,
 * optionally linked to another account.
 */
module PartnerActions {
  import opened Wrappers
  import opened Sorting
  import opened JsStrings
  import opened Ledger

  const MaxNameLength: nat := 50
  const DuplicateName: string := "同じ名前の相手が既に登録されています"
  const LinkedAccountNotFound: string := "指定されたアカウントが見つかりません"

  /** A partner as the actions return it: its id and its name. */
  datatype PartnerSummary = PartnerSummary(id: PartnerId, name: string)

  /** `orderBy: { name: "asc" }`. */
  function ByName(): (PartnerSummary, PartnerSummary) -> bool {
    (a: PartnerSummary, b: PartnerSummary) => LexLe(a.name, b.name)
  }

  lemma ByNameTotalPreorder()
    ensures TotalPreorder(ByName())
  {
    forall a: PartnerSummary, b: PartnerSummary ensures ByName()(a, b) || ByName()(b, a) {
      LexLeTotal(a.name, b.name);
    }
    forall a: PartnerSummary, b: PartnerSummary, c: PartnerSummary | ByName()(a, b) && ByName()(b, c)
      ensures ByName()(a, c)
    {
      LexLeTransitive(a.name, b.name, c.name);
    }
  }

  /** Does the row `s` show the partner `owner` has under its id? */
  predicate OwnedRow(s: PartnerSummary, partners: map<PartnerId, Partner>, owner: AccountId) {
    s.id in partners && partners[s.id].ownerId == owner && partners[s.id].name == s.name
  }

  /** `where: { ownerId }` over the rows `scan` lists, in that order. */
  function OwnedSummaries(scan: seq<PartnerId>, partners: map<PartnerId, Partner>, owner: AccountId)
    : (r: seq<PartnerSummary>)
    requires forall i :: 0 <= i < |scan| ==> scan[i] in partners
    ensures forall i :: 0 <= i < |r| ==> OwnedRow(r[i], partners, owner) && r[i].id in scan
    ensures forall i :: 0 <= i < |scan| && partners[scan[i]].ownerId == owner ==>
              PartnerSummary(scan[i], partners[scan[i]].name) in r
    ensures Distinct(scan) ==> Distinct(r)
  {
    if scan == [] then []
    else
      var rest := OwnedSummaries(scan[1..], partners, owner);
      var p := partners[scan[0]];
      assert forall i :: 1 <= i < |scan| ==> scan[i] == scan[1..][i - 1];
      if p.ownerId == owner then
        assert Distinct(scan) ==> forall i :: 0 <= i < |rest| ==> rest[i].id != scan[0];
        [PartnerSummary(scan[0], p.name)] + rest
      else rest
  }

  /**
   * `getPartners`: every partner the caller owns, exactly once, as id and name, ordered by name.
   * Without a session there is nothing to list.
   */
  function GetPartners(session: Option<AccountId>, scan: seq<PartnerId>, partners: map<PartnerId, Partner>)
    : (r: seq<PartnerSummary>)
    requires Enumerates(scan, partners)
    ensures session.None? ==> r == []
    ensures session.Some? ==> forall i :: 0 <= i < |r| ==> OwnedRow(r[i], partners, session.value)
    ensures session.Some? ==> forall id :: id in partners && partners[id].ownerId == session.value ==>
              PartnerSummary(id, partners[id].name) in r
    ensures Distinct(r)
    ensures SortedBy(r, ByName())
  {
    if session.None? then []
    else
      PartnersByNameFacts(scan, partners, session.value);
      SortBy(OwnedSummaries(scan, partners, session.value), ByName())
  }

  lemma PartnersByNameFacts(scan: seq<PartnerId>, partners: map<PartnerId, Partner>, owner: AccountId)
    requires Enumerates(scan, partners)
    ensures var r := SortBy(OwnedSummaries(scan, partners, owner), ByName());
      && (forall i :: 0 <= i < |r| ==> OwnedRow(r[i], partners, owner))
      && (forall id :: id in partners && partners[id].ownerId == owner ==> PartnerSummary(id, partners[id].name) in r)
      && Distinct(r)
      && SortedBy(r, ByName())
  {
    var owned := OwnedSummaries(scan, partners, owner);
    var r := SortBy(owned, ByName());
    ByNameTotalPreorder();
    SortBySorted(owned, ByName());
    DistinctPermutation(owned, r);
    forall id | id in partners && partners[id].ownerId == owner
      ensures PartnerSummary(id, partners[id].name) in r
    {
      var i :| 0 <= i < |scan| && scan[i] == id;
      assert PartnerSummary(id, partners[id].name) in multiset(owned);
    }
    forall i | 0 <= i < |r| ensures OwnedRow(r[i], partners, owner) {
      assert r[i] in multiset(owned);
      var k :| 0 <= k < |owned| && owned[k] == r[i];
    }
  }

  /** The fields the new-partner form posts. */
  datatype PartnerForm = PartnerForm(name: Option<string>, linkedAccountId: Option<string>)

  /** The schema: a name of 1 to 50 characters; an empty link counts as none. */
  function ValidatePartnerForm(form: PartnerForm): (r: Outcome<(string, Option<AccountId>)>)
    ensures r.Ok? <==> form.name.Some? && 1 <= JsLength(form.name.value) <= MaxNameLength
    ensures r.Ok? ==> r.value == (form.name.value, NonEmpty(form.linkedAccountId))
  {
    var nameIssue := LengthIssue("name", form.name, 1, "名前を入力してください",
                                 MaxNameLength, "名前は50文字以内で入力してください");
    if nameIssue.Some? then Err(nameIssue.value) else Ok((form.name.value, NonEmpty(form.linkedAccountId)))
  }

  /**
   * What `createPartner` decides: the partner to insert, or the first failing check in the order
   * session, schema, name not yet used by the caller, linked account exists.
   */
  function CreatePartnerOutcome(session: Option<AccountId>, form: PartnerForm,
                                partners: map<PartnerId, Partner>, accounts: map<AccountId, Account>)
    : (r: Outcome<Partner>)
    ensures session.None? ==> r == Err(Says(LoginRequired))
    ensures r.Ok? <==>
      && session.Some? && ValidatePartnerForm(form).Ok?
      && !HasPartnerNamed(partners, session.value, form.name.value)
      && (NonEmpty(form.linkedAccountId).Some? ==> NonEmpty(form.linkedAccountId).value in accounts)
    ensures r.Ok? ==> r.value == Partner(form.name.value, session.value, NonEmpty(form.linkedAccountId))
    ensures session.Some? && ValidatePartnerForm(form).Ok? && HasPartnerNamed(partners, session.value, form.name.value)
            ==> r == Err(Says(DuplicateName))
  {
    if session.None? then Err(Says(LoginRequired))
    else
      var parsed := ValidatePartnerForm(form);
      if parsed.Err? then Err(parsed.error)
      else
        var (name, linked) := parsed.value;
        if HasPartnerNamed(partners, session.value, name) then Err(Says(DuplicateName))
        else if linked.Some? && linked.value !in accounts then Err(Says(LinkedAccountNotFound))
        else Ok(Partner(name, session.value, linked))
  }

  /** Looks up `ownerId_name` through the unique index: the partner `owner` has under `name`, if any. */
  method FindByOwnerName(db: Store, owner: AccountId, name: string) returns (found: Option<PartnerId>)
    ensures found.Some? ==> found.value in db.partners && db.partners[found.value].ownerId == owner
                            && db.partners[found.value].name == name
    ensures found.None? <==> !HasPartnerNamed(db.partners, owner, name)
  {
    if HasPartnerNamed(db.partners, owner, name) {
      var id :| id in db.partners && db.partners[id].ownerId == owner && db.partners[id].name == name;
      found := Some(id);
    } else {
      found := None;
    }
  }

  /**
   * `createPartner`: runs the checks in order and inserts one partner under the fresh id the
   * database assigns, returning its id and name.
   */
  method CreatePartner(db: Store, session: Option<AccountId>, form: PartnerForm, newId: PartnerId)
    returns (r: Outcome<PartnerSummary>)
    requires newId !in db.partners
    modifies db`partners
    ensures r.Ok? <==> CreatePartnerOutcome(session, form, old(db.partners), db.accounts).Ok?
    ensures r.Ok? ==> var p := CreatePartnerOutcome(session, form, old(db.partners), db.accounts).value;
                      && db.partners == old(db.partners)[newId := p]
                      && r.value == PartnerSummary(newId, p.name)
    ensures r.Err? ==> r.error == CreatePartnerOutcome(session, form, old(db.partners), db.accounts).error
                       && db.partners == old(db.partners)
    ensures PartnerNamesUnique(old(db.partners)) ==> PartnerNamesUnique(db.partners)
  {
    if session.None? {
      return Err(Says(LoginRequired));
    }
    var parsed := ValidatePartnerForm(form);
    if parsed.Err? {
      return Err(parsed.error);
    }
    var (name, linked) := parsed.value;
    var existing := FindByOwnerName(db, session.value, name);
    if existing.Some? {
      return Err(Says(DuplicateName));
    }
    if linked.Some? && linked.value !in db.accounts {
      return Err(Says(LinkedAccountNotFound));
    }
    var p := Partner(name, session.value, linked);
    db.partners := db.partners[newId := p];
    r := Ok(PartnerSummary(newId, p.name));
  }

  /** `owner`'s rows are the same in both tables. */
  predicate SameOwnedRows(p1: map<PartnerId, Partner>, p2: map<PartnerId, Partner>, owner: AccountId) {
    && (forall id :: id in p1 && p1[id].ownerId == owner ==> id in p2 && p2[id] == p1[id])
    && (forall id :: id in p2 && p2[id].ownerId == owner ==> id in p1 && p1[id] == p2[id])
  }

  /** Adding a partner depends on the caller's own partners only, never on other owners' rows. */
  lemma {:induction false} CreatePartnerOwnRowsOnly(session: Option<AccountId>, form: PartnerForm,
                                                    p1: map<PartnerId, Partner>, p2: map<PartnerId, Partner>,
                                                    accounts: map<AccountId, Account>)
    requires session.Some? && SameOwnedRows(p1, p2, session.value)
    ensures CreatePartnerOutcome(session, form, p1, accounts) == CreatePartnerOutcome(session, form, p2, accounts)
  {
    if form.name.Some? {
      var name := form.name.value;
      if HasPartnerNamed(p1, session.value, name) {
        var id :| id in p1 && p1[id].ownerId == session.value && p1[id].name == name;
        assert id in p2 && p2[id].ownerId == session.value && p2[id].name == name;
      }
      if HasPartnerNamed(p2, session.value, name) {
        var id :| id in p2 && p2[id].ownerId == session.value && p2[id].name == name;
        assert id in p1 && p1[id].ownerId == session.value && p1[id].name == name;
      }
    }
  }

  /** Once a partner is added, posting the same form again is refused as a duplicate name. */
  lemma CreatePartnerTwiceRejected(session: Option<AccountId>, form: PartnerForm,
                                   partners: map<PartnerId, Partner>, accounts: map<AccountId, Account>, newId: PartnerId)
    requires CreatePartnerOutcome(session, form, partners, accounts).Ok?
    ensures var after := partners[newId := CreatePartnerOutcome(session, form, partners, accounts).value];
      CreatePartnerOutcome(session, form, after, accounts) == Err(Says(DuplicateName))
  {
    var after := partners[newId := CreatePartnerOutcome(session, form, partners, accounts).value];
    assert after[newId].ownerId == session.value && after[newId].name == form.name.value;
  }
}
