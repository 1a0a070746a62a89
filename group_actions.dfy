/**
 * The group's server actions: resolving an invite code, joining a group by invite (which pairs the
 * newcomer with every existing member both ways), rotating the invite code, renaming the group,
 * removing a member, and listing the caller's group.
 */
module GroupActions {
  import opened Wrappers
  import opened Sorting
  import opened JsStrings
  import opened Ledger

  const MaxNameLength: nat := 50
  const MinPasswordLength: nat := 6
  const InvalidInvite: string := "無効な招待リンクです"
  const NameTaken: string := "このユーザー名は既に使用されています"
  const CannotRemoveSelf: string := "自分自身を削除することはできません"
  const MemberNotFound: string := "メンバーが見つかりません"
  const RemoveForbidden: string := "このメンバーを削除する権限がありません"

  /** A group as the invite page sees it. */
  datatype GroupSummary = GroupSummary(id: GroupId, name: string)

  /** `getGroupByInviteCode`: the group whose current invite code is `code`, if any. */
  function GetGroupByInviteCode(code: string, groups: map<GroupId, Group>): (r: Option<GroupSummary>)
    requires InviteCodesUnique(groups)
    ensures r.Some? <==> exists g :: g in groups && groups[g].inviteCode == code
    ensures r.Some? ==> r.value.id in groups && groups[r.value.id].inviteCode == code
                        && r.value.name == groups[r.value.id].name
  {
    if exists g :: g in groups && groups[g].inviteCode == code then
      var g :| g in groups && groups[g].inviteCode == code;
      Some(GroupSummary(g, groups[g].name))
    else None
  }

  // ---------------------------------------------------------------------------------------------
  // Members of a group

  /** `where: { groupId: group }` as a row filter. */
  function InGroup(accounts: map<AccountId, Account>, group: Option<GroupId>): AccountId -> bool {
    (a: AccountId) => a in accounts && accounts[a].groupId == group
  }

  /** The accounts in `group`, in the order `scan` lists them. */
  function GroupMembers(scan: seq<AccountId>, accounts: map<AccountId, Account>, group: Option<GroupId>)
    : (r: seq<AccountId>)
    requires Enumerates(scan, accounts)
    ensures forall i :: 0 <= i < |r| ==> r[i] in accounts && accounts[r[i]].groupId == group
    ensures forall a :: a in accounts && accounts[a].groupId == group ==> a in r
    ensures Distinct(r)
  {
    FilterDistinct(scan, InGroup(accounts, group));
    var r := Filter(scan, InGroup(accounts, group));
    assert forall a :: a in accounts ==> a in scan;
    forall a | a in accounts && accounts[a].groupId == group ensures a in r {
      var i :| 0 <= i < |scan| && scan[i] == a;
      assert InGroup(accounts, group)(scan[i]);
    }
    forall i | 0 <= i < |r| ensures r[i] in accounts && accounts[r[i]].groupId == group {
      assert InGroup(accounts, group)(r[i]);
    }
    r
  }

  /** A member as the group page lists it: the selected `id`, `name`, `role` and `createdAt`. */
  datatype MemberRow = MemberRow(id: AccountId, name: string, role: Role, createdAt: int)

  function MemberRows(ids: seq<AccountId>, accounts: map<AccountId, Account>, createdAt: AccountId -> int)
    : (rows: seq<MemberRow>)
    requires forall i :: 0 <= i < |ids| ==> ids[i] in accounts
    ensures |rows| == |ids|
    ensures forall i :: 0 <= i < |ids| ==>
      rows[i] == MemberRow(ids[i], accounts[ids[i]].name, accounts[ids[i]].role, createdAt(ids[i]))
  {
    seq(|ids|, i requires 0 <= i < |ids| => MemberRow(ids[i], accounts[ids[i]].name, accounts[ids[i]].role, createdAt(ids[i])))
  }

  /** The members of a group keep the order of the listing they are picked from. */
  lemma GroupMembersOrdered(scan: seq<AccountId>, accounts: map<AccountId, Account>, group: Option<GroupId>,
                            key: AccountId -> int)
    requires Enumerates(scan, accounts) && KeyOrdered(scan, key)
    ensures KeyOrdered(GroupMembers(scan, accounts, group), key)
  {
    assert GroupMembers(scan, accounts, group) == Filter(scan, InGroup(accounts, group));
    FilterKeepsOrder(scan, InGroup(accounts, group), key);
  }

  /** Rows built from ids in `createdAt` order are in `createdAt` order. */
  lemma MemberRowsOrdered(ids: seq<AccountId>, accounts: map<AccountId, Account>, createdAt: AccountId -> int)
    requires forall i :: 0 <= i < |ids| ==> ids[i] in accounts
    requires KeyOrdered(ids, createdAt)
    ensures var rows := MemberRows(ids, accounts, createdAt);
      forall i, j :: 0 <= i < j < |rows| ==> rows[i].createdAt <= rows[j].createdAt
  {
  }

  /** Does `byCreation` list the accounts oldest first, as `orderBy: { createdAt: "asc" }` returns them? */
  predicate CreationOrdered(byCreation: seq<AccountId>, createdAt: AccountId -> int) {
    KeyOrdered(byCreation, createdAt)
  }

  /**
   * Does `r` list the accounts of `group`: each with its own name, role and `createdAt`, every one
   * of them, once each, oldest first?
   */
  predicate ListsGroup(r: seq<MemberRow>, accounts: map<AccountId, Account>, group: Option<GroupId>,
                       createdAt: AccountId -> int) {
    && (forall i :: 0 <= i < |r| ==> r[i].id in accounts && accounts[r[i].id].groupId == group
                                      && r[i] == MemberRow(r[i].id, accounts[r[i].id].name, accounts[r[i].id].role,
                                                           createdAt(r[i].id)))
    && (forall a :: a in accounts && accounts[a].groupId == group ==> exists i :: 0 <= i < |r| && r[i].id == a)
    && (forall i, j :: 0 <= i < j < |r| ==> r[i].id != r[j].id)
    && (forall i, j :: 0 <= i < j < |r| ==> r[i].createdAt <= r[j].createdAt)
  }

  /**
   * `getGroupMembers`: every account in the caller's group, the caller included, once each, oldest
   * first. `byCreation` is the accounts in `createdAt` order and `createdAt` the column's values.
   * Without a session or an account there is nothing to list.
   */
  function GetGroupMembers(session: Option<AccountId>, byCreation: seq<AccountId>, accounts: map<AccountId, Account>,
                           createdAt: AccountId -> int)
    : (r: seq<MemberRow>)
    requires Enumerates(byCreation, accounts) && CreationOrdered(byCreation, createdAt)
    ensures session.None? || session.value !in accounts ==> r == []
    ensures session.Some? && session.value in accounts ==>
      ListsGroup(r, accounts, accounts[session.value].groupId, createdAt)
  {
    if session.None? || session.value !in accounts then []
    else
      GroupRowsListed(byCreation, accounts, accounts[session.value].groupId, createdAt);
      MemberRows(GroupMembers(byCreation, accounts, accounts[session.value].groupId), accounts, createdAt)
  }

  /** The rows of a group's members, picked from the accounts in creation order, list the group. */
  lemma GroupRowsListed(byCreation: seq<AccountId>, accounts: map<AccountId, Account>, group: Option<GroupId>,
                        createdAt: AccountId -> int)
    requires Enumerates(byCreation, accounts) && CreationOrdered(byCreation, createdAt)
    ensures ListsGroup(MemberRows(GroupMembers(byCreation, accounts, group), accounts, createdAt), accounts, group,
                       createdAt)
  {
    var ids := GroupMembers(byCreation, accounts, group);
    var r := MemberRows(ids, accounts, createdAt);
    GroupMembersOrdered(byCreation, accounts, group, createdAt);
    MemberRowsOrdered(ids, accounts, createdAt);
    forall a | a in accounts && accounts[a].groupId == group
      ensures exists i :: 0 <= i < |r| && r[i].id == a
    {
      var i :| 0 <= i < |ids| && ids[i] == a;
      assert r[i].id == a;
    }
  }

  // ---------------------------------------------------------------------------------------------
  // Joining by invite

  /** The fields of the registration form. */
  datatype RegisterForm = RegisterForm(name: Option<string>, password: Option<string>, inviteCode: Option<string>)

  /** The registration schema, field by field: the first failing rule decides the message. */
  function ValidateRegister(form: RegisterForm): (r: Outcome<(string, string, string)>)
    ensures r.Ok? <==>
      && form.name.Some? && 1 <= JsLength(form.name.value) <= MaxNameLength
      && form.password.Some? && MinPasswordLength <= JsLength(form.password.value)
      && form.inviteCode.Some? && 1 <= JsLength(form.inviteCode.value)
    ensures r.Ok? ==> r.value == (form.name.value, form.password.value, form.inviteCode.value)
  {
    var nameIssue := LengthIssue("name", form.name, 1, "ユーザー名を入力してください",
                                 MaxNameLength, "ユーザー名は50文字以内で入力してください");
    var passwordIssue := MinLengthIssue("password", form.password, MinPasswordLength, "パスワードは6文字以上で入力してください");
    var codeIssue := MinLengthIssue("inviteCode", form.inviteCode, 1, "招待コードが必要です");
    if nameIssue.Some? then Err(nameIssue.value)
    else if passwordIssue.Some? then Err(passwordIssue.value)
    else if codeIssue.Some? then Err(codeIssue.value)
    else Ok((form.name.value, form.password.value, form.inviteCode.value))
  }

  /** Is `name` already the name of an account in `group`? */
  predicate NameUsedInGroup(accounts: map<AccountId, Account>, group: GroupId, name: string) {
    exists a :: a in accounts && accounts[a].groupId == Some(group) && accounts[a].name == name
  }

  /**
   * The checks `registerWithInvite` makes before it writes anything: the schema, the invite code,
   * and the name being free in that group. On success, the group joined.
   */
  function RegisterDecision(form: RegisterForm, groups: map<GroupId, Group>, accounts: map<AccountId, Account>)
    : (r: Outcome<GroupId>)
    requires InviteCodesUnique(groups)
    ensures r.Ok? <==>
      && ValidateRegister(form).Ok?
      && GetGroupByInviteCode(form.inviteCode.value, groups).Some?
      && !NameUsedInGroup(accounts, GetGroupByInviteCode(form.inviteCode.value, groups).value.id, form.name.value)
    ensures r.Ok? ==> r.value in groups && groups[r.value].inviteCode == form.inviteCode.value
    ensures ValidateRegister(form).Ok? && GetGroupByInviteCode(form.inviteCode.value, groups).None? ==>
      r == Err(Says(InvalidInvite))
  {
    var parsed := ValidateRegister(form);
    if parsed.Err? then Err(parsed.error)
    else
      var (name, _, code) := parsed.value;
      var group := GetGroupByInviteCode(code, groups);
      if group.None? then Err(Says(InvalidInvite))
      else if NameUsedInGroup(accounts, group.value.id, name) then Err(Says(NameTaken))
      else Ok(group.value.id)
  }

  /**
   * The rows `createMany` receives: for the k-th existing member, a partner named after the
   * newcomer in the member's book, then one named after the member in the newcomer's book, each
   * linked to the other account.
   */
  function PairRows(members: seq<AccountId>, accounts: map<AccountId, Account>, newId: AccountId, newName: string)
    : (rows: seq<Partner>)
    requires forall i :: 0 <= i < |members| ==> members[i] in accounts
    ensures |rows| == 2 * |members|
    ensures forall k :: 0 <= k < |members| ==>
      && rows[2 * k] == Partner(newName, members[k], Some(newId))
      && rows[2 * k + 1] == Partner(accounts[members[k]].name, newId, Some(members[k]))
  {
    seq(2 * |members|, i requires 0 <= i < 2 * |members| =>
      if i % 2 == 0 then Partner(newName, members[i / 2], Some(newId))
      else Partner(accounts[members[i / 2]].name, newId, Some(members[i / 2])))
  }

  /**
   * Would inserting `rows` break the unique index `ownerId_name`: a row clashes with a stored
   * partner, or two rows clash with each other?
   */
  predicate RowsConflict(partners: map<PartnerId, Partner>, rows: seq<Partner>) {
    || (exists i :: 0 <= i < |rows| && HasPartnerNamed(partners, rows[i].ownerId, rows[i].name))
    || (exists i, j :: 0 <= i < j < |rows| && rows[i].ownerId == rows[j].ownerId && rows[i].name == rows[j].name)
  }

  /** `partners` with `rows[i]` stored under `ids[i]`. */
  function InsertRows(partners: map<PartnerId, Partner>, ids: seq<PartnerId>, rows: seq<Partner>)
    : (r: map<PartnerId, Partner>)
    requires |ids| == |rows|
    ensures forall id :: id in r <==> id in partners || id in ids
    ensures Distinct(ids) ==> forall i :: 0 <= i < |ids| ==> r[ids[i]] == rows[i]
    ensures forall id :: id in partners && id !in ids ==> r[id] == partners[id]
  {
    if ids == [] then partners
    else
      var n := |ids| - 1;
      var r := InsertRows(partners, ids[..n], rows[..n])[ids[n] := rows[n]];
      assert forall id :: id in ids <==> id in ids[..n] || id == ids[n] by {
        assert ids == ids[..n] + [ids[n]];
      }
      r
  }

  /** Inserting rows that do not clash keeps the `ownerId_name` index unique. */
  lemma InsertRowsKeepsNamesUnique(partners: map<PartnerId, Partner>, ids: seq<PartnerId>, rows: seq<Partner>)
    requires |ids| == |rows| && Distinct(ids) && forall i :: 0 <= i < |ids| ==> ids[i] !in partners
    requires PartnerNamesUnique(partners) && !RowsConflict(partners, rows)
    ensures PartnerNamesUnique(InsertRows(partners, ids, rows))
  {
    var r := InsertRows(partners, ids, rows);
    forall p, q | p in r && q in r && p != q
      ensures r[p].ownerId != r[q].ownerId || r[p].name != r[q].name
    {
      if p in ids && q in ids {
        var i :| 0 <= i < |ids| && ids[i] == p;
        var j :| 0 <= j < |ids| && ids[j] == q;
        if i > j {
          assert !(rows[j].ownerId == rows[i].ownerId && rows[j].name == rows[i].name);
        }
      } else if p in ids {
        var i :| 0 <= i < |ids| && ids[i] == p;
      } else if q in ids {
        var j :| 0 <= j < |ids| && ids[j] == q;
      }
    }
  }

  /**
   * `createMany` over the unique index: all rows are inserted, or, when one clashes, none is and
   * the database refuses the statement.
   */
  method CreateMany(db: Store, ids: seq<PartnerId>, rows: seq<Partner>) returns (inserted: bool)
    requires |ids| == |rows|
    modifies db`partners
    ensures inserted == !RowsConflict(old(db.partners), rows)
    ensures inserted ==> db.partners == InsertRows(old(db.partners), ids, rows)
    ensures !inserted ==> db.partners == old(db.partners)
  {
    if RowsConflict(db.partners, rows) {
      return false;
    }
    db.partners := InsertRows(db.partners, ids, rows);
    inserted := true;
  }

  /** The account registration creates in `group`. */
  function NewMember(name: string, password: string, hash: string -> string, group: GroupId): Account {
    Account(name, hash(password), Some(group), Member)
  }

  /**
   * `registerWithInvite`: the checks of `RegisterDecision`; then the group's current members are
   * read, the account is created as a MEMBER, and the pair rows are inserted with `createMany`.
   * When a pair row clashes with the unique index the database refuses the insert after the
   * account already exists, so the action fails with the account kept and no partner added.
   * `hash` stands for the password hashing; the ids are the ones the database assigns.
   */
  method RegisterWithInvite(db: Store, form: RegisterForm, hash: string -> string, scan: seq<AccountId>,
                            newAccountId: AccountId, partnerIds: seq<PartnerId>)
    returns (r: Outcome<AccountId>)
    requires InviteCodesUnique(db.groups) && Enumerates(scan, db.accounts)
    requires newAccountId !in db.accounts
    requires Distinct(partnerIds) && |partnerIds| >= 2 * |scan|
    requires forall i :: 0 <= i < |partnerIds| ==> partnerIds[i] !in db.partners
    modifies db`accounts, db`partners
    ensures var decision := RegisterDecision(form, db.groups, old(db.accounts));
      && (decision.Err? ==> r == Err(decision.error) && db.accounts == old(db.accounts) && db.partners == old(db.partners))
      && (decision.Ok? ==>
            var members := GroupMembers(scan, old(db.accounts), Some(decision.value));
            var rows := PairRows(members, old(db.accounts), newAccountId, form.name.value);
            && db.accounts == old(db.accounts)[newAccountId := NewMember(form.name.value, form.password.value, hash, decision.value)]
            && (RowsConflict(old(db.partners), rows) ==> r == Err(StoreRejected) && db.partners == old(db.partners))
            && (!RowsConflict(old(db.partners), rows) ==>
                  r == Ok(newAccountId) && db.partners == InsertRows(old(db.partners), partnerIds[..|rows|], rows)))
  {
    var parsed := ValidateRegister(form);
    if parsed.Err? {
      return Err(parsed.error);
    }
    var (name, password, inviteCode) := parsed.value;
    var group := GetGroupByInviteCode(inviteCode, db.groups);
    if group.None? {
      return Err(Says(InvalidInvite));
    }
    var groupId := group.value.id;
    if NameUsedInGroup(db.accounts, groupId, name) {
      return Err(Says(NameTaken));
    }
    var passwordHash := hash(password);
    var existingMembers := GroupMembers(scan, db.accounts, Some(groupId));
    var accountsBefore := db.accounts;
    db.accounts := db.accounts[newAccountId := Account(name, passwordHash, Some(groupId), Member)];
    if |existingMembers| > 0 {
      var rows := PairRows(existingMembers, accountsBefore, newAccountId, name);
      DistinctLength(existingMembers, scan);
      var inserted := CreateMany(db, partnerIds[..|rows|], rows);
      if !inserted {
        return Err(StoreRejected);
      }
    }
    r := Ok(newAccountId);
  }

  /** A sequence of distinct keys of a table the scan enumerates is no longer than the scan. */
  lemma DistinctLength(members: seq<AccountId>, scan: seq<AccountId>)
    requires Distinct(members) && Distinct(scan)
    requires forall i :: 0 <= i < |members| ==> members[i] in scan
    ensures |members| <= |scan|
  {
    var ms := set i | 0 <= i < |members| :: members[i];
    var ss := set i | 0 <= i < |scan| :: scan[i];
    assert ms <= ss;
    DistinctSetSize(members);
    DistinctSetSize(scan);
    assert |ms| <= |ss| by {
      SubsetSize(ms, ss);
    }
  }

  lemma {:induction false} DistinctSetSize(s: seq<AccountId>)
    requires Distinct(s)
    ensures |set i | 0 <= i < |s| :: s[i]| == |s|
  {
    if s != [] {
      var n := |s| - 1;
      DistinctSetSize(s[..n]);
      var front := set i | 0 <= i < n :: s[..n][i];
      assert (set i | 0 <= i < |s| :: s[i]) == front + {s[n]};
      assert s[n] !in front;
    }
  }

  lemma SubsetSize(a: set<AccountId>, b: set<AccountId>)
    requires a <= b
    ensures |a| <= |b|
  {
    assert b == a + (b - a);
  }

  /**
   * When the new account owns no partner yet and does not appear among the members, the pair rows
   * clash exactly when some member already has a partner under the newcomer's name, or two members
   * share a name.
   */
  lemma PairRowsConflictIff(partners: map<PartnerId, Partner>, members: seq<AccountId>,
                            accounts: map<AccountId, Account>, newId: AccountId, newName: string)
    requires forall i :: 0 <= i < |members| ==> members[i] in accounts && members[i] != newId
    requires Distinct(members)
    requires forall p :: p in partners ==> partners[p].ownerId != newId
    ensures RowsConflict(partners, PairRows(members, accounts, newId, newName)) <==>
      || (exists k :: 0 <= k < |members| && HasPartnerNamed(partners, members[k], newName))
      || (exists k, l :: 0 <= k < l < |members| && accounts[members[k]].name == accounts[members[l]].name)
  {
    var rows := PairRows(members, accounts, newId, newName);
    if k :| 0 <= k < |members| && HasPartnerNamed(partners, members[k], newName) {
      assert rows[2 * k] == Partner(newName, members[k], Some(newId));
      assert HasPartnerNamed(partners, rows[2 * k].ownerId, rows[2 * k].name);
    } else if k, l :| 0 <= k < l < |members| && accounts[members[k]].name == accounts[members[l]].name {
      assert rows[2 * k + 1].ownerId == rows[2 * l + 1].ownerId && rows[2 * k + 1].name == rows[2 * l + 1].name;
    } else {
      PairRowsNoConflict(partners, members, accounts, newId, newName);
    }
  }

  /** Without a member's partner of the new name and without two members of one name, the rows insert. */
  lemma PairRowsNoConflict(partners: map<PartnerId, Partner>, members: seq<AccountId>,
                           accounts: map<AccountId, Account>, newId: AccountId, newName: string)
    requires forall i :: 0 <= i < |members| ==> members[i] in accounts && members[i] != newId
    requires Distinct(members)
    requires forall p :: p in partners ==> partners[p].ownerId != newId
    requires forall k :: 0 <= k < |members| ==> !HasPartnerNamed(partners, members[k], newName)
    requires forall k, l :: 0 <= k < l < |members| ==> accounts[members[k]].name != accounts[members[l]].name
    ensures !RowsConflict(partners, PairRows(members, accounts, newId, newName))
  {
    var rows := PairRows(members, accounts, newId, newName);
    forall i | 0 <= i < |rows| ensures !HasPartnerNamed(partners, rows[i].ownerId, rows[i].name) {
      PairRowAt(members, accounts, newId, newName, i);
    }
    forall i, j | 0 <= i < j < |rows| ensures rows[i].ownerId != rows[j].ownerId || rows[i].name != rows[j].name {
      PairRowAt(members, accounts, newId, newName, i);
      PairRowAt(members, accounts, newId, newName, j);
      HalvesOrdered(i, j);
    }
  }

  /** The `i`-th pair row: the member's row at even `i`, the newcomer's at odd `i`. */
  lemma PairRowAt(members: seq<AccountId>, accounts: map<AccountId, Account>, newId: AccountId, newName: string, i: nat)
    requires forall k :: 0 <= k < |members| ==> members[k] in accounts
    requires i < 2 * |members|
    ensures i / 2 < |members|
    ensures i % 2 == 0 ==> PairRows(members, accounts, newId, newName)[i] == Partner(newName, members[i / 2], Some(newId))
    ensures i % 2 == 1 ==>
      PairRows(members, accounts, newId, newName)[i] == Partner(accounts[members[i / 2]].name, newId, Some(members[i / 2]))
  {
  }

  lemma HalvesOrdered(i: nat, j: nat)
    requires i < j
    ensures i / 2 <= j / 2
    ensures i % 2 == j % 2 ==> i / 2 < j / 2
  {
  }


  /**
   * After a registration whose rows went in, the newcomer and every member of the group are
   * partners of each other, each linked to the other's account.
   */
  lemma RegisterLinksBothWays(partners: map<PartnerId, Partner>, members: seq<AccountId>,
                              accounts: map<AccountId, Account>, newId: AccountId, newName: string,
                              ids: seq<PartnerId>)
    requires forall i :: 0 <= i < |members| ==> members[i] in accounts
    requires |ids| == 2 * |members| && Distinct(ids)
    ensures var after := InsertRows(partners, ids, PairRows(members, accounts, newId, newName));
      forall k :: 0 <= k < |members| ==>
        && ids[2 * k] in after && after[ids[2 * k]] == Partner(newName, members[k], Some(newId))
        && ids[2 * k + 1] in after && after[ids[2 * k + 1]] == Partner(accounts[members[k]].name, newId, Some(members[k]))
  {
    var rows := PairRows(members, accounts, newId, newName);
    var after := InsertRows(partners, ids, rows);
    forall k | 0 <= k < |members|
      ensures ids[2 * k] in after && after[ids[2 * k]] == Partner(newName, members[k], Some(newId))
      ensures ids[2 * k + 1] in after && after[ids[2 * k + 1]] == Partner(accounts[members[k]].name, newId, Some(members[k]))
    {
      var even, odd := 2 * k, 2 * k + 1;
      assert rows[even] == Partner(newName, members[k], Some(newId));
      assert rows[odd] == Partner(accounts[members[k]].name, newId, Some(members[k]));
    }
  }

  /** The group of the orphan example: Aoi's group, whose book already lists a partner called Ren. */
  const ExampleGroups: map<GroupId, Group> := map["g" := Group("g", "code")]
  const ExampleAccounts: map<AccountId, Account> := map["a" := Account("Aoi", "h", Some("g"), Admin)]
  const ExamplePartners: map<PartnerId, Partner> := map["p" := Partner("Ren", "a", None)]
  const ExampleForm: RegisterForm := RegisterForm(Some("Ren"), Some("secret"), Some("code"))

  /** Ren's registration passes every check, and its pair rows clash with Aoi's partner Ren. */
  lemma ExampleAccepted()
    ensures InviteCodesUnique(ExampleGroups) && Enumerates(["a"], ExampleAccounts)
    ensures RegisterDecision(ExampleForm, ExampleGroups, ExampleAccounts) == Ok("g")
    ensures var members := GroupMembers(["a"], ExampleAccounts, Some("g"));
      forall i :: 0 <= i < |members| ==> members[i] in ExampleAccounts
    ensures RowsConflict(ExamplePartners, PairRows(GroupMembers(["a"], ExampleAccounts, Some("g")), ExampleAccounts, "n", "Ren"))
  {
    ExampleStore();
    ExampleDecision();
    ExampleMembers();
    ExampleRowsClash();
  }

  lemma ExampleStore()
    ensures InviteCodesUnique(ExampleGroups) && Enumerates(["a"], ExampleAccounts)
  {
  }

  lemma ExampleDecision()
    ensures RegisterDecision(ExampleForm, ExampleGroups, ExampleAccounts) == Ok("g")
  {
    assert JsLength("Ren") == 3 && JsLength("secret") == 6 && JsLength("code") == 4;
    assert "g" in ExampleGroups && ExampleGroups["g"].inviteCode == "code";
    assert !NameUsedInGroup(ExampleAccounts, "g", "Ren");
  }

  lemma ExampleMembers()
    ensures GroupMembers(["a"], ExampleAccounts, Some("g")) == ["a"]
  {
  }

  lemma ExampleRowsClash()
    ensures RowsConflict(ExamplePartners, PairRows(["a"], ExampleAccounts, "n", "Ren"))
  {
    assert "p" in ExamplePartners;
    assert HasPartnerNamed(ExamplePartners, "a", "Ren");
    assert PairRows(["a"], ExampleAccounts, "n", "Ren")[0] == Partner("Ren", "a", Some("n"));
  }

  /** Once Ren's account exists in the group, the same form is refused: the name is taken. */
  lemma ExampleRetryRefused(accounts: map<AccountId, Account>, hash: string -> string)
    requires accounts == ExampleAccounts["n" := NewMember("Ren", "secret", hash, "g")]
    ensures InviteCodesUnique(ExampleGroups) && Enumerates(["a", "n"], accounts)
    ensures RegisterDecision(ExampleForm, ExampleGroups, accounts) == Err(Says(NameTaken))
  {
    ExampleRetryStore(accounts, hash);
    ExampleRetryDecision(accounts, hash);
  }

  lemma ExampleRetryStore(accounts: map<AccountId, Account>, hash: string -> string)
    requires accounts == ExampleAccounts["n" := NewMember("Ren", "secret", hash, "g")]
    ensures InviteCodesUnique(ExampleGroups) && Enumerates(["a", "n"], accounts)
  {
  }

  lemma ExampleRetryDecision(accounts: map<AccountId, Account>, hash: string -> string)
    requires accounts == ExampleAccounts["n" := NewMember("Ren", "secret", hash, "g")]
    ensures RegisterDecision(ExampleForm, ExampleGroups, accounts) == Err(Says(NameTaken))
  {
    assert JsLength("Ren") == 3 && JsLength("secret") == 6 && JsLength("code") == 4;
    assert "g" in ExampleGroups && ExampleGroups["g"].inviteCode == "code";
    assert accounts["n"].groupId == Some("g") && accounts["n"].name == "Ren";
    assert NameUsedInGroup(accounts, "g", "Ren");
  }


  /**
   * A member has already written down a partner under the newcomer's name. Registering that name
   * fails at the partner insert, yet the account stays, and a second attempt with the same form
   * is refused because the name is now taken in the group: the newcomer is left with an account
   * and no partners.
   */
  method RegisterLeavesOrphan() returns (first: Outcome<AccountId>, second: Outcome<AccountId>, orphan: bool)
    ensures first == Err(StoreRejected) && orphan && second == Err(Says(NameTaken))
  {
    var db := new Store();
    db.groups, db.accounts, db.partners := ExampleGroups, ExampleAccounts, ExamplePartners;
    first := ExampleFirstAttempt(db);
    orphan := "n" in db.accounts && db.accounts["n"].name == "Ren";
    second := ExampleSecondAttempt(db);
  }

  /** The example's hashing: any function serves. */
  function ExampleHash(password: string): string {
    password
  }

  /** Ren's first registration: refused, with Ren's account created all the same. */
  method ExampleFirstAttempt(db: Store) returns (first: Outcome<AccountId>)
    requires db.groups == ExampleGroups && db.accounts == ExampleAccounts && db.partners == ExamplePartners
    modifies db`accounts, db`partners
    ensures first == Err(StoreRejected) && db.groups == ExampleGroups && db.partners == ExamplePartners
    ensures db.accounts == ExampleAccounts["n" := NewMember("Ren", "secret", ExampleHash, "g")]
  {
    ExampleStore();
    ExampleIdsFresh(ExamplePartners, ["q0", "q1"]);
    first := RegisterWithInvite(db, ExampleForm, ExampleHash, ["a"], "n", ["q0", "q1"]);
    ExampleDecision();
    ExampleMembers();
    ExampleRowsClash();
  }

  /** The example's partner ids are distinct and unused. */
  lemma ExampleIdsFresh(partners: map<PartnerId, Partner>, ids: seq<PartnerId>)
    requires partners == ExamplePartners && (ids == ["q0", "q1"] || ids == ["q0", "q1", "q2", "q3"])
    ensures Distinct(ids) && forall i :: 0 <= i < |ids| ==> ids[i] !in partners
  {
  }

  /** Ren's second registration: refused because the first one left the name taken. */
  method ExampleSecondAttempt(db: Store) returns (second: Outcome<AccountId>)
    requires db.groups == ExampleGroups && db.partners == ExamplePartners
    requires db.accounts == ExampleAccounts["n" := NewMember("Ren", "secret", ExampleHash, "g")]
    modifies db`accounts, db`partners
    ensures second == Err(Says(NameTaken))
  {
    ExampleRetryStore(db.accounts, ExampleHash);
    ExampleIdsFresh(ExamplePartners, ["q0", "q1", "q2", "q3"]);
    second := RegisterWithInvite(db, ExampleForm, ExampleHash, ["a", "n"], "m", ["q0", "q1", "q2", "q3"]);
    ExampleRetryDecision(old(db.accounts), ExampleHash);
  }

  /**
   * `registerWithInvite` as it is evidently meant to work: the pair rows are checked against the
   * unique index before the account is created, so a refused registration leaves both tables as
   * they were, and an accepted one does what the action does.
   */
  method RegisterWithInviteAtomic(db: Store, form: RegisterForm, hash: string -> string, scan: seq<AccountId>,
                                  newAccountId: AccountId, partnerIds: seq<PartnerId>)
    returns (r: Outcome<AccountId>)
    requires InviteCodesUnique(db.groups) && Enumerates(scan, db.accounts)
    requires newAccountId !in db.accounts
    requires Distinct(partnerIds) && |partnerIds| >= 2 * |scan|
    requires forall i :: 0 <= i < |partnerIds| ==> partnerIds[i] !in db.partners
    modifies db`accounts, db`partners
    ensures r.Err? ==> db.accounts == old(db.accounts) && db.partners == old(db.partners)
    ensures var decision := RegisterDecision(form, db.groups, old(db.accounts));
      && (decision.Err? ==> r == Err(decision.error))
      && (decision.Ok? ==>
            var members := GroupMembers(scan, old(db.accounts), Some(decision.value));
            var rows := PairRows(members, old(db.accounts), newAccountId, form.name.value);
            && (RowsConflict(old(db.partners), rows) ==> r == Err(StoreRejected))
            && (!RowsConflict(old(db.partners), rows) ==>
                  && r == Ok(newAccountId)
                  && db.accounts == old(db.accounts)[newAccountId := NewMember(form.name.value, form.password.value, hash, decision.value)]
                  && db.partners == InsertRows(old(db.partners), partnerIds[..|rows|], rows)))
  {
    var decision := RegisterDecision(form, db.groups, db.accounts);
    if decision.Err? {
      return Err(decision.error);
    }
    var groupId := decision.value;
    var name := form.name.value;
    var existingMembers := GroupMembers(scan, db.accounts, Some(groupId));
    var rows := PairRows(existingMembers, db.accounts, newAccountId, name);
    if RowsConflict(db.partners, rows) {
      return Err(StoreRejected);
    }
    DistinctLength(existingMembers, scan);
    db.accounts := db.accounts[newAccountId := NewMember(name, form.password.value, hash, groupId)];
    var inserted := CreateMany(db, partnerIds[..|rows|], rows);
    r := Ok(newAccountId);
  }

  // ---------------------------------------------------------------------------------------------
  // Administering the group

  /**
   * The caller's account must exist and be an ADMIN; the group to change is the account's group,
   * and the database refuses the update when the account has no group or the group is gone.
   */
  function AdminGroup(caller: AccountId, accounts: map<AccountId, Account>, groups: map<GroupId, Group>)
    : (r: Outcome<GroupId>)
    ensures r.Ok? <==> caller in accounts && accounts[caller].role == Admin
                       && accounts[caller].groupId.Some? && accounts[caller].groupId.value in groups
    ensures r.Ok? ==> Some(r.value) == accounts[caller].groupId
    ensures caller !in accounts ==> r == Err(Says(AccountNotFound))
    ensures caller in accounts && accounts[caller].role != Admin ==> r == Err(Says(AdminRequired))
  {
    if caller !in accounts then Err(Says(AccountNotFound))
    else if accounts[caller].role != Admin then Err(Says(AdminRequired))
    else if accounts[caller].groupId.None? || accounts[caller].groupId.value !in groups then Err(StoreRejected)
    else Ok(accounts[caller].groupId.value)
  }

  /** What `regenerateInviteCode` decides: the group whose code changes, checked in the order session, account, ADMIN. */
  function RegenerateDecision(session: Option<AccountId>, accounts: map<AccountId, Account>, groups: map<GroupId, Group>)
    : (r: Outcome<GroupId>)
    ensures session.None? ==> r == Err(Says(LoginRequired))
    ensures r.Ok? <==> session.Some? && AdminGroup(session.value, accounts, groups).Ok?
    ensures r.Ok? ==> r.value in groups && accounts[session.value].groupId == Some(r.value)
  {
    if session.None? then Err(Says(LoginRequired)) else AdminGroup(session.value, accounts, groups)
  }

  /**
   * `regenerateInviteCode`: an ADMIN gives the own group the fresh code `newCode` (standing for
   * `createId()`, which collides with no existing code) and gets it back. Only that group changes.
   */
  method RegenerateInviteCode(db: Store, session: Option<AccountId>, newCode: string) returns (r: Outcome<string>)
    requires forall g :: g in db.groups ==> db.groups[g].inviteCode != newCode
    modifies db`groups
    ensures var decision := RegenerateDecision(session, db.accounts, old(db.groups));
      && (decision.Ok? ==>
            r == Ok(newCode) &&
            db.groups == old(db.groups)[decision.value := old(db.groups)[decision.value].(inviteCode := newCode)])
      && (decision.Err? ==> r == Err(decision.error) && db.groups == old(db.groups))
    ensures InviteCodesUnique(old(db.groups)) ==> InviteCodesUnique(db.groups)
  {
    if session.None? {
      return Err(Says(LoginRequired));
    }
    var target := AdminGroup(session.value, db.accounts, db.groups);
    if target.Err? {
      return Err(target.error);
    }
    db.groups := db.groups[target.value := db.groups[target.value].(inviteCode := newCode)];
    r := Ok(newCode);
  }

  /**
   * After a rotation the old code resolves to nothing and the new code resolves to the group,
   * under its unchanged name.
   */
  lemma RegenerateRetiresOldCode(groups: map<GroupId, Group>, g: GroupId, newCode: string)
    requires InviteCodesUnique(groups) && g in groups
    requires forall h :: h in groups ==> groups[h].inviteCode != newCode
    ensures var after := groups[g := groups[g].(inviteCode := newCode)];
      && InviteCodesUnique(after)
      && GetGroupByInviteCode(groups[g].inviteCode, after) == None
      && GetGroupByInviteCode(newCode, after) == Some(GroupSummary(g, groups[g].name))
  {
    var after := groups[g := groups[g].(inviteCode := newCode)];
    var retired := groups[g].inviteCode;
    var found := GetGroupByInviteCode(newCode, after);
    assert after[g].inviteCode == newCode;
    assert found.value.id == g;
    forall h | h in after ensures after[h].inviteCode != retired {
      if h != g {
        assert groups[h].inviteCode != retired;
      }
    }
  }

  /** The group-name schema: 1 to 50 characters. */
  function ValidateGroupName(name: Option<string>): (r: Outcome<string>)
    ensures r.Ok? <==> name.Some? && 1 <= JsLength(name.value) <= MaxNameLength
    ensures r.Ok? ==> r.value == name.value
  {
    var issue := LengthIssue("name", name, 1, "グループ名を入力してください", MaxNameLength, "グループ名は50文字以内で入力してください");
    if issue.Some? then Err(issue.value) else Ok(name.value)
  }

  /** What `updateGroupName` decides, checked in the order session, name, account, ADMIN. */
  function UpdateGroupNameDecision(session: Option<AccountId>, name: Option<string>,
                                   accounts: map<AccountId, Account>, groups: map<GroupId, Group>)
    : (r: Outcome<(GroupId, string)>)
    ensures session.None? ==> r == Err(Says(LoginRequired))
    ensures session.Some? ==> (r.Err? && ValidateGroupName(name).Err? ==> r.error == ValidateGroupName(name).error)
    ensures r.Ok? <==> session.Some? && ValidateGroupName(name).Ok? && AdminGroup(session.value, accounts, groups).Ok?
    ensures r.Ok? ==> r.value.0 in groups && accounts[session.value].groupId == Some(r.value.0) && r.value.1 == name.value
  {
    if session.None? then Err(Says(LoginRequired))
    else
      var parsed := ValidateGroupName(name);
      if parsed.Err? then Err(parsed.error)
      else
        var target := AdminGroup(session.value, accounts, groups);
        if target.Err? then Err(target.error) else Ok((target.value, parsed.value))
  }

  /** `updateGroupName`: an ADMIN renames the own group; nothing else changes. */
  method UpdateGroupName(db: Store, session: Option<AccountId>, name: Option<string>) returns (r: Outcome<()>)
    modifies db`groups
    ensures var decision := UpdateGroupNameDecision(session, name, db.accounts, old(db.groups));
      && (decision.Ok? ==>
            r == Ok(()) &&
            db.groups == old(db.groups)[decision.value.0 := old(db.groups)[decision.value.0].(name := decision.value.1)])
      && (decision.Err? ==> r == Err(decision.error) && db.groups == old(db.groups))
    ensures InviteCodesUnique(old(db.groups)) ==> InviteCodesUnique(db.groups)
  {
    if session.None? {
      return Err(Says(LoginRequired));
    }
    var parsed := ValidateGroupName(name);
    if parsed.Err? {
      return Err(parsed.error);
    }
    var target := AdminGroup(session.value, db.accounts, db.groups);
    if target.Err? {
      return Err(target.error);
    }
    db.groups := db.groups[target.value := db.groups[target.value].(name := parsed.value)];
    r := Ok(());
  }

  /**
   * What `removeMember` decides, in the order session, caller exists, caller is ADMIN, target is
   * not the caller, target exists, target is in the caller's group.
   */
  function RemoveMemberDecision(session: Option<AccountId>, memberId: AccountId, accounts: map<AccountId, Account>)
    : (r: Outcome<()>)
    ensures r.Ok? <==>
      && session.Some? && session.value in accounts && accounts[session.value].role == Admin
      && memberId != session.value && memberId in accounts
      && accounts[memberId].groupId == accounts[session.value].groupId
    ensures session.None? ==> r == Err(Says(LoginRequired))
    ensures session.Some? && session.value in accounts && accounts[session.value].role == Admin ==>
      (memberId == session.value ==> r == Err(Says(CannotRemoveSelf)))
  {
    if session.None? then Err(Says(LoginRequired))
    else if session.value !in accounts then Err(Says(AccountNotFound))
    else if accounts[session.value].role != Admin then Err(Says(AdminRequired))
    else if memberId == session.value then Err(Says(CannotRemoveSelf))
    else if memberId !in accounts then Err(Says(MemberNotFound))
    else if accounts[memberId].groupId != accounts[session.value].groupId then Err(Says(RemoveForbidden))
    else Ok(())
  }

  /** Partners whose link points to `member`, or that `member` owns, with the link cleared. */
  function Severed(partners: map<PartnerId, Partner>, member: AccountId): (r: map<PartnerId, Partner>)
    ensures r.Keys == partners.Keys
    ensures forall p :: p in r ==> r[p].name == partners[p].name && r[p].ownerId == partners[p].ownerId
    ensures forall p :: p in r ==> r[p].linkedAccountId != Some(member)
    ensures forall p :: p in r && partners[p].ownerId == member ==> r[p].linkedAccountId.None?
    ensures forall p :: p in r && partners[p].ownerId != member && partners[p].linkedAccountId != Some(member) ==>
              r[p] == partners[p]
  {
    map p | p in partners ::
      if partners[p].linkedAccountId == Some(member) || partners[p].ownerId == member
      then partners[p].(linkedAccountId := None) else partners[p]
  }

  /** The first `updateMany`: links to `member` are cleared. */
  function Unlinked(partners: map<PartnerId, Partner>, member: AccountId): map<PartnerId, Partner> {
    map p | p in partners ::
      if partners[p].linkedAccountId == Some(member) then partners[p].(linkedAccountId := None) else partners[p]
  }

  /** The second `updateMany`: the links in `member`'s own address book are cleared. */
  function OwnLinksCleared(partners: map<PartnerId, Partner>, member: AccountId): map<PartnerId, Partner> {
    map p | p in partners ::
      if partners[p].ownerId == member then partners[p].(linkedAccountId := None) else partners[p]
  }

  /** The two updates one after the other sever the member. */
  lemma SeveredInTwoSteps(partners: map<PartnerId, Partner>, member: AccountId)
    ensures OwnLinksCleared(Unlinked(partners, member), member) == Severed(partners, member)
  {
    var unlinked := Unlinked(partners, member);
    var after := OwnLinksCleared(unlinked, member);
    var severed := Severed(partners, member);
    assert after.Keys == severed.Keys;
    forall p | p in severed ensures after[p] == severed[p] {
      assert unlinked[p].ownerId == partners[p].ownerId;
    }
  }

  /**
   * `removeMember`: after its checks, clears every link to the member, clears the links of the
   * member's own partners, then deletes the account. No partner and no transaction is deleted.
   */
  method RemoveMember(db: Store, session: Option<AccountId>, memberId: AccountId) returns (r: Outcome<()>)
    modifies db`accounts, db`partners
    ensures r == RemoveMemberDecision(session, memberId, old(db.accounts))
    ensures r.Ok? ==> db.accounts == old(db.accounts) - {memberId} && db.partners == Severed(old(db.partners), memberId)
    ensures r.Err? ==> db.accounts == old(db.accounts) && db.partners == old(db.partners)
  {
    if session.None? {
      return Err(Says(LoginRequired));
    }
    if session.value !in db.accounts {
      return Err(Says(AccountNotFound));
    }
    var current := db.accounts[session.value];
    if current.role != Admin {
      return Err(Says(AdminRequired));
    }
    if memberId == session.value {
      return Err(Says(CannotRemoveSelf));
    }
    if memberId !in db.accounts {
      return Err(Says(MemberNotFound));
    }
    if db.accounts[memberId].groupId != current.groupId {
      return Err(Says(RemoveForbidden));
    }
    SeverLinks(db, memberId);
    db.accounts := db.accounts - {memberId};
    r := Ok(());
  }

  /**
   * The two `updateMany` calls of `removeMember`: partners linked to the member are unlinked,
   * then the member's own partners are unlinked.
   */
  method SeverLinks(db: Store, memberId: AccountId)
    modifies db`partners
    ensures db.partners == Severed(old(db.partners), memberId)
  {
    var before := db.partners;
    db.partners := Unlinked(db.partners, memberId);
    db.partners := OwnLinksCleared(db.partners, memberId);
    SeveredInTwoSteps(before, memberId);
  }

  /** Every link in the address books names an existing account. */
  predicate LinksResolve(partners: map<PartnerId, Partner>, accounts: map<AccountId, Account>) {
    forall p :: p in partners && partners[p].linkedAccountId.Some? ==> partners[p].linkedAccountId.value in accounts
  }

  /** Removing a member leaves no dangling link behind. */
  lemma RemoveMemberKeepsLinksResolved(partners: map<PartnerId, Partner>, accounts: map<AccountId, Account>, member: AccountId)
    requires LinksResolve(partners, accounts)
    ensures LinksResolve(Severed(partners, member), accounts - {member})
  {
    var after := Severed(partners, member);
    forall p | p in after && after[p].linkedAccountId.Some?
      ensures after[p].linkedAccountId.value in accounts - {member}
    {
      assert after[p].linkedAccountId == partners[p].linkedAccountId;
    }
  }
}
