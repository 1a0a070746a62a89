/**
 * The one-shot migration to groups: every account that has no group gets a group of its own,
 * named after it, and becomes that group's ADMIN. The order in which the database returns the
 * ungrouped accounts is the parameter `scan`; the new group ids and invite codes are the oracles
 * `groupIds` and `inviteCodes`, indexed by loop turn.
 */
module MigrateToGroups {
  import opened Wrappers
  import opened Sorting
  import opened Ledger

  const GroupSuffix: string := "のグループ"

  /** `WHERE "groupId" IS NULL`. */
  function IsUngrouped(accounts: map<AccountId, Account>): AccountId -> bool {
    (id: AccountId) => id in accounts && accounts[id].groupId.None?
  }

  /** The accounts the migration selects, in scan order. */
  function Selected(scan: seq<AccountId>, accounts: map<AccountId, Account>): (selected: seq<AccountId>)
    requires Enumerates(scan, accounts)
    ensures Distinct(selected)
    ensures forall i :: 0 <= i < |selected| ==> selected[i] in accounts && accounts[selected[i]].groupId.None?
    ensures forall id :: id in accounts && accounts[id].groupId.None? ==> id in selected
  {
    var selected := Filter(scan, IsUngrouped(accounts));
    FilterDistinct(scan, IsUngrouped(accounts));
    assert forall i :: 0 <= i < |selected| ==> IsUngrouped(accounts)(selected[i]);
    assert forall id :: id in accounts && accounts[id].groupId.None? ==> id in selected by {
      forall id | id in accounts && accounts[id].groupId.None? ensures id in selected {
        var i :| 0 <= i < |scan| && scan[i] == id;
        assert IsUngrouped(accounts)(scan[i]);
      }
    }
    selected
  }

  /** The groups after the first `count` selected accounts have theirs. */
  function GroupsUpTo(groups: map<GroupId, Group>, accounts: map<AccountId, Account>, selected: seq<AccountId>,
                      count: nat, groupIds: nat -> GroupId, inviteCodes: nat -> string): map<GroupId, Group>
    requires count <= |selected| && forall i :: 0 <= i < |selected| ==> selected[i] in accounts
  {
    if count == 0 then groups
    else
      GroupsUpTo(groups, accounts, selected, count - 1, groupIds, inviteCodes)[
        groupIds(count - 1) := Group(accounts[selected[count - 1]].name + GroupSuffix, inviteCodes(count - 1))]
  }

  /** The accounts after the first `count` selected accounts have been moved into their groups. */
  function AccountsUpTo(accounts: map<AccountId, Account>, selected: seq<AccountId>, count: nat, groupIds: nat -> GroupId)
    : map<AccountId, Account>
    requires count <= |selected| && forall i :: 0 <= i < |selected| ==> selected[i] in accounts
  {
    if count == 0 then accounts
    else
      AccountsUpTo(accounts, selected, count - 1, groupIds)[
        selected[count - 1] := accounts[selected[count - 1]].(groupId := Some(groupIds(count - 1)), role := Admin)]
  }

  /** Are the oracles' group ids and invite codes new, and new on every turn? */
  ghost predicate FreshOracles(groups: map<GroupId, Group>, groupIds: nat -> GroupId, inviteCodes: nat -> string) {
    && (forall i: nat :: groupIds(i) !in groups)
    && (forall i: nat, j: nat {:trigger TurnsApart(groupIds, inviteCodes, i, j)} :: i != j ==> TurnsApart(groupIds, inviteCodes, i, j))
    && (forall i: nat, g :: g in groups ==> inviteCodes(i) != groups[g].inviteCode)
  }

  /** Two different turns get different group ids and different invite codes. */
  ghost predicate TurnsApart(groupIds: nat -> GroupId, inviteCodes: nat -> string, i: nat, j: nat) {
    groupIds(i) != groupIds(j) && inviteCodes(i) != inviteCodes(j)
  }

  lemma Apart(groups: map<GroupId, Group>, groupIds: nat -> GroupId, inviteCodes: nat -> string, i: nat, j: nat)
    requires FreshOracles(groups, groupIds, inviteCodes) && i != j
    ensures groupIds(i) != groupIds(j) && inviteCodes(i) != inviteCodes(j)
  {
    assert TurnsApart(groupIds, inviteCodes, i, j);
  }

  /**
   * `main`: select the ungrouped accounts; stop when there are none; otherwise, one account at a
   * time, create its group and set its group and its role. Returns how many were migrated.
   */
  method Migrate(db: Store, scan: seq<AccountId>, groupIds: nat -> GroupId, inviteCodes: nat -> string)
    returns (migrated: nat)
    requires Enumerates(scan, db.accounts)
    modifies db`groups, db`accounts
    ensures var selected := Selected(scan, old(db.accounts));
      && migrated == |selected|
      && db.groups == GroupsUpTo(old(db.groups), old(db.accounts), selected, |selected|, groupIds, inviteCodes)
      && db.accounts == AccountsUpTo(old(db.accounts), selected, |selected|, groupIds)
  {
    var selected := Selected(scan, db.accounts);
    ghost var accounts, groups := db.accounts, db.groups;
    if |selected| == 0 {
      return 0;
    }
    var i := 0;
    while i < |selected|
      invariant 0 <= i <= |selected|
      invariant db.groups == GroupsUpTo(groups, accounts, selected, i, groupIds, inviteCodes)
      invariant db.accounts == AccountsUpTo(accounts, selected, i, groupIds)
    {
      MigrateTurn(db, accounts, groups, selected, i, groupIds, inviteCodes);
      i := i + 1;
    }
    migrated := i;
  }

  /** One turn of the loop: the `i`-th selected account gets its group and becomes its ADMIN. */
  method MigrateTurn(db: Store, ghost accounts: map<AccountId, Account>, ghost groups: map<GroupId, Group>,
                     selected: seq<AccountId>, i: nat, groupIds: nat -> GroupId, inviteCodes: nat -> string)
    requires i < |selected| && Distinct(selected) && forall k :: 0 <= k < |selected| ==> selected[k] in accounts
    requires db.groups == GroupsUpTo(groups, accounts, selected, i, groupIds, inviteCodes)
    requires db.accounts == AccountsUpTo(accounts, selected, i, groupIds)
    modifies db`groups, db`accounts
    ensures db.groups == GroupsUpTo(groups, accounts, selected, i + 1, groupIds, inviteCodes)
    ensures db.accounts == AccountsUpTo(accounts, selected, i + 1, groupIds)
  {
    var id := selected[i];
    AccountUntilItsTurn(accounts, selected, i, i, groupIds);
    var name := db.accounts[id].name;
    var groupId := groupIds(i);
    db.groups := db.groups[groupId := Group(name + GroupSuffix, inviteCodes(i))];
    db.accounts := db.accounts[id := db.accounts[id].(groupId := Some(groupId), role := Admin)];
  }

  /** A selected account is untouched until its own turn. */
  lemma {:induction false} AccountUntilItsTurn(accounts: map<AccountId, Account>, selected: seq<AccountId>, count: nat,
                                               j: nat, groupIds: nat -> GroupId)
    requires Distinct(selected) && count <= j < |selected| && forall i :: 0 <= i < |selected| ==> selected[i] in accounts
    ensures selected[j] in AccountsUpTo(accounts, selected, count, groupIds)
    ensures AccountsUpTo(accounts, selected, count, groupIds)[selected[j]] == accounts[selected[j]]
  {
    if count > 0 {
      AccountUntilItsTurn(accounts, selected, count - 1, j, groupIds);
      assert selected[count - 1] != selected[j];
    }
  }

  /** The turn at which an account is migrated, when the counted prefix reaches it. */
  lemma AccountsUpToFacts(accounts: map<AccountId, Account>, selected: seq<AccountId>, count: nat,
                          groupIds: nat -> GroupId)
    requires Distinct(selected) && count <= |selected| && forall i :: 0 <= i < |selected| ==> selected[i] in accounts
    ensures AccountsUpTo(accounts, selected, count, groupIds).Keys == accounts.Keys
    ensures forall i :: 0 <= i < count ==>
      AccountsUpTo(accounts, selected, count, groupIds)[selected[i]]
      == accounts[selected[i]].(groupId := Some(groupIds(i)), role := Admin)
    ensures forall id :: id in accounts && id !in selected[..count] ==> AccountsUpTo(accounts, selected, count, groupIds)[id] == accounts[id]
  {
    AccountsUpToKeys(accounts, selected, count, groupIds);
    AccountsUpToTurns(accounts, selected, count, groupIds);
    AccountsUpToOthers(accounts, selected, count, groupIds);
  }

  lemma {:induction false} AccountsUpToKeys(accounts: map<AccountId, Account>, selected: seq<AccountId>, count: nat,
                                            groupIds: nat -> GroupId)
    requires count <= |selected| && forall i :: 0 <= i < |selected| ==> selected[i] in accounts
    ensures AccountsUpTo(accounts, selected, count, groupIds).Keys == accounts.Keys
  {
    if count > 0 {
      AccountsUpToKeys(accounts, selected, count - 1, groupIds);
    }
  }

  lemma {:induction false} AccountsUpToTurns(accounts: map<AccountId, Account>, selected: seq<AccountId>, count: nat,
                                             groupIds: nat -> GroupId)
    requires Distinct(selected) && count <= |selected| && forall i :: 0 <= i < |selected| ==> selected[i] in accounts
    ensures AccountsUpTo(accounts, selected, count, groupIds).Keys == accounts.Keys
    ensures forall i :: 0 <= i < count ==>
      AccountsUpTo(accounts, selected, count, groupIds)[selected[i]]
      == accounts[selected[i]].(groupId := Some(groupIds(i)), role := Admin)
  {
    AccountsUpToKeys(accounts, selected, count, groupIds);
    if count > 0 {
      AccountsUpToTurns(accounts, selected, count - 1, groupIds);
      assert forall i :: 0 <= i < count - 1 ==> selected[i] != selected[count - 1];
    }
  }

  lemma {:induction false} AccountsUpToOthers(accounts: map<AccountId, Account>, selected: seq<AccountId>, count: nat,
                                              groupIds: nat -> GroupId)
    requires count <= |selected| && forall i :: 0 <= i < |selected| ==> selected[i] in accounts
    ensures AccountsUpTo(accounts, selected, count, groupIds).Keys == accounts.Keys
    ensures forall id :: id in accounts && id !in selected[..count] ==> AccountsUpTo(accounts, selected, count, groupIds)[id] == accounts[id]
  {
    AccountsUpToKeys(accounts, selected, count, groupIds);
    if count > 0 {
      AccountsUpToOthers(accounts, selected, count - 1, groupIds);
      assert forall id :: id in selected[..count] <==> id in selected[..count - 1] || id == selected[count - 1];
    }
  }


  /**
   * After the migration every account selected at turn `i` is in group `groupIds(i)` as its ADMIN,
   * with nothing else changed, every other account is untouched, and no account is left without
   * a group.
   */
  lemma MigratedAccounts(scan: seq<AccountId>, accounts: map<AccountId, Account>, groupIds: nat -> GroupId,
                         after: map<AccountId, Account>)
    requires Enumerates(scan, accounts)
    requires after == AccountsUpTo(accounts, Selected(scan, accounts), |Selected(scan, accounts)|, groupIds)
    ensures after.Keys == accounts.Keys
    ensures var selected := Selected(scan, accounts);
      forall i :: 0 <= i < |selected| ==>
        after[selected[i]] == accounts[selected[i]].(groupId := Some(groupIds(i)), role := Admin)
    ensures forall id :: id in accounts && accounts[id].groupId.Some? ==> after[id] == accounts[id]
    ensures forall id :: id in after ==> after[id].groupId.Some?
  {
    var selected := Selected(scan, accounts);
    AccountsUpToFacts(accounts, selected, |selected|, groupIds);
    assert selected[..|selected|] == selected;
    forall id | id in after ensures after[id].groupId.Some? {
      if id in selected {
        var i :| 0 <= i < |selected| && selected[i] == id;
      }
    }
  }

  /** A second run finds nothing to migrate, so it changes nothing. */
  lemma RerunSelectsNothing(scan: seq<AccountId>, accounts: map<AccountId, Account>, groupIds: nat -> GroupId,
                            rescan: seq<AccountId>)
    requires Enumerates(scan, accounts)
    requires Enumerates(rescan, AccountsUpTo(accounts, Selected(scan, accounts), |Selected(scan, accounts)|, groupIds))
    ensures Selected(rescan, AccountsUpTo(accounts, Selected(scan, accounts), |Selected(scan, accounts)|, groupIds)) == []
  {
    var after := AccountsUpTo(accounts, Selected(scan, accounts), |Selected(scan, accounts)|, groupIds);
    MigratedAccounts(scan, accounts, groupIds, after);
    NothingUngrouped(rescan, after);
  }

  /** Where every account has a group, the migration selects nothing. */
  lemma NothingUngrouped(scan: seq<AccountId>, accounts: map<AccountId, Account>)
    requires Enumerates(scan, accounts) && forall id :: id in accounts ==> accounts[id].groupId.Some?
    ensures Selected(scan, accounts) == []
  {
    forall i | 0 <= i < |scan| ensures !IsUngrouped(accounts)(scan[i]) { }
    FilterNone(scan, IsUngrouped(accounts));
  }

  /** The groups the counted prefix has created. */
  lemma GroupsUpToFacts(groups: map<GroupId, Group>, accounts: map<AccountId, Account>,
                        selected: seq<AccountId>, count: nat, groupIds: nat -> GroupId, inviteCodes: nat -> string)
    requires FreshOracles(groups, groupIds, inviteCodes)
    requires count <= |selected| && forall i :: 0 <= i < |selected| ==> selected[i] in accounts
    ensures var after := GroupsUpTo(groups, accounts, selected, count, groupIds, inviteCodes);
      && |after| == |groups| + count
      && (forall g :: g in groups ==> g in after && after[g] == groups[g])
      && (forall i :: 0 <= i < count ==>
            (groupIds(i) in after && after[groupIds(i)] == Group(accounts[selected[i]].name + GroupSuffix, inviteCodes(i))))
      && (forall g :: g in after && g !in groups ==> exists i :: 0 <= i < count && g == groupIds(i))
  {
    GroupsUpToSize(groups, accounts, selected, count, groupIds, inviteCodes);
    GroupsUpToKeeps(groups, accounts, selected, count, groupIds, inviteCodes);
    GroupsUpToTurns(groups, accounts, selected, count, groupIds, inviteCodes);
    GroupsUpToOnlyNew(groups, accounts, selected, count, groupIds, inviteCodes);
  }

  lemma {:induction false} GroupsUpToSize(groups: map<GroupId, Group>, accounts: map<AccountId, Account>,
                                          selected: seq<AccountId>, count: nat, groupIds: nat -> GroupId,
                                          inviteCodes: nat -> string)
    requires FreshOracles(groups, groupIds, inviteCodes)
    requires count <= |selected| && forall i :: 0 <= i < |selected| ==> selected[i] in accounts
    ensures |GroupsUpTo(groups, accounts, selected, count, groupIds, inviteCodes)| == |groups| + count
  {
    if count > 0 {
      GroupsUpToSize(groups, accounts, selected, count - 1, groupIds, inviteCodes);
      GroupsUpToGrows(groups, accounts, selected, count, groupIds, inviteCodes);
    }
  }

  /** Each turn adds a group under an id not taken before. */
  lemma GroupsUpToGrows(groups: map<GroupId, Group>, accounts: map<AccountId, Account>, selected: seq<AccountId>,
                        count: nat, groupIds: nat -> GroupId, inviteCodes: nat -> string)
    requires FreshOracles(groups, groupIds, inviteCodes)
    requires 0 < count <= |selected| && forall i :: 0 <= i < |selected| ==> selected[i] in accounts
    ensures |GroupsUpTo(groups, accounts, selected, count, groupIds, inviteCodes)|
            == |GroupsUpTo(groups, accounts, selected, count - 1, groupIds, inviteCodes)| + 1
  {
    GroupIdUnused(groups, accounts, selected, count - 1, groupIds, inviteCodes, count - 1);
    var prev := GroupsUpTo(groups, accounts, selected, count - 1, groupIds, inviteCodes);
    GrowsByOne(prev, groupIds(count - 1), Group(accounts[selected[count - 1]].name + GroupSuffix, inviteCodes(count - 1)));
  }

  lemma GrowsByOne(m: map<GroupId, Group>, g: GroupId, v: Group)
    requires g !in m
    ensures |m[g := v]| == |m| + 1
  {
    assert m[g := v].Keys == m.Keys + {g};
  }

  /** The group id of a later turn is not yet taken. */
  lemma {:induction false} GroupIdUnused(groups: map<GroupId, Group>, accounts: map<AccountId, Account>,
                                         selected: seq<AccountId>, count: nat, groupIds: nat -> GroupId,
                                         inviteCodes: nat -> string, j: nat)
    requires FreshOracles(groups, groupIds, inviteCodes)
    requires count <= j && count <= |selected| && forall i :: 0 <= i < |selected| ==> selected[i] in accounts
    ensures groupIds(j) !in GroupsUpTo(groups, accounts, selected, count, groupIds, inviteCodes)
  {
    if count > 0 {
      GroupIdUnused(groups, accounts, selected, count - 1, groupIds, inviteCodes, j);
      Apart(groups, groupIds, inviteCodes, count - 1, j);
    }
  }

  lemma {:induction false} GroupsUpToKeeps(groups: map<GroupId, Group>, accounts: map<AccountId, Account>,
                                           selected: seq<AccountId>, count: nat, groupIds: nat -> GroupId,
                                           inviteCodes: nat -> string)
    requires FreshOracles(groups, groupIds, inviteCodes)
    requires count <= |selected| && forall i :: 0 <= i < |selected| ==> selected[i] in accounts
    ensures var after := GroupsUpTo(groups, accounts, selected, count, groupIds, inviteCodes);
      forall g :: g in groups ==> g in after && after[g] == groups[g]
  {
    if count > 0 {
      GroupsUpToKeeps(groups, accounts, selected, count - 1, groupIds, inviteCodes);
      assert groupIds(count - 1) !in groups;
    }
  }

  lemma {:induction false} GroupsUpToTurns(groups: map<GroupId, Group>, accounts: map<AccountId, Account>,
                                           selected: seq<AccountId>, count: nat, groupIds: nat -> GroupId,
                                           inviteCodes: nat -> string)
    requires FreshOracles(groups, groupIds, inviteCodes)
    requires count <= |selected| && forall i :: 0 <= i < |selected| ==> selected[i] in accounts
    ensures var after := GroupsUpTo(groups, accounts, selected, count, groupIds, inviteCodes);
      forall i :: 0 <= i < count ==>
        groupIds(i) in after && after[groupIds(i)] == Group(accounts[selected[i]].name + GroupSuffix, inviteCodes(i))
  {
    if count > 0 {
      GroupsUpToTurns(groups, accounts, selected, count - 1, groupIds, inviteCodes);
      forall i | 0 <= i < count - 1 ensures groupIds(i) != groupIds(count - 1) {
        Apart(groups, groupIds, inviteCodes, i, count - 1);
      }
    }
  }

  lemma {:induction false} GroupsUpToOnlyNew(groups: map<GroupId, Group>, accounts: map<AccountId, Account>,
                                             selected: seq<AccountId>, count: nat, groupIds: nat -> GroupId,
                                             inviteCodes: nat -> string)
    requires count <= |selected| && forall i :: 0 <= i < |selected| ==> selected[i] in accounts
    ensures var after := GroupsUpTo(groups, accounts, selected, count, groupIds, inviteCodes);
      forall g :: g in after && g !in groups ==> exists i :: 0 <= i < count && g == groupIds(i)
  {
    if count > 0 {
      GroupsUpToOnlyNew(groups, accounts, selected, count - 1, groupIds, inviteCodes);
    }
  }


  /**
   * The migration creates one group per migrated account, named after it, keeps every existing
   * group, and keeps invite codes unique.
   */
  lemma MigratedGroups(scan: seq<AccountId>, accounts: map<AccountId, Account>, groups: map<GroupId, Group>,
                       groupIds: nat -> GroupId, inviteCodes: nat -> string, after: map<GroupId, Group>)
    requires Enumerates(scan, accounts) && FreshOracles(groups, groupIds, inviteCodes)
    requires after == GroupsUpTo(groups, accounts, Selected(scan, accounts), |Selected(scan, accounts)|, groupIds, inviteCodes)
    ensures |after| == |groups| + |Selected(scan, accounts)|
    ensures forall g :: g in groups ==> g in after && after[g] == groups[g]
    ensures var selected := Selected(scan, accounts);
      forall i :: 0 <= i < |selected| ==>
        groupIds(i) in after && after[groupIds(i)] == Group(accounts[selected[i]].name + GroupSuffix, inviteCodes(i))
    ensures InviteCodesUnique(groups) ==> InviteCodesUnique(after)
  {
    var selected := Selected(scan, accounts);
    GroupsUpToFacts(groups, accounts, selected, |selected|, groupIds, inviteCodes);
    if InviteCodesUnique(groups) {
      forall g, h | g in after && h in after && g != h ensures after[g].inviteCode != after[h].inviteCode {
        NewGroupCode(groups, accounts, selected, groupIds, inviteCodes, after, g);
        NewGroupCode(groups, accounts, selected, groupIds, inviteCodes, after, h);
        if g !in groups && h !in groups {
          var i: nat :| i < |selected| && g == groupIds(i) && after[g].inviteCode == inviteCodes(i);
          var j: nat :| j < |selected| && h == groupIds(j) && after[h].inviteCode == inviteCodes(j);
          Apart(groups, groupIds, inviteCodes, i, j);
        }
      }
    }
  }

  /** Each group after the migration carries either its old code or the code of its turn. */
  lemma NewGroupCode(groups: map<GroupId, Group>, accounts: map<AccountId, Account>, selected: seq<AccountId>,
                     groupIds: nat -> GroupId, inviteCodes: nat -> string, after: map<GroupId, Group>, g: GroupId)
    requires FreshOracles(groups, groupIds, inviteCodes)
    requires forall i :: 0 <= i < |selected| ==> selected[i] in accounts
    requires after == GroupsUpTo(groups, accounts, selected, |selected|, groupIds, inviteCodes) && g in after
    ensures g in groups ==> after[g] == groups[g]
    ensures g !in groups ==> exists i: nat :: i < |selected| && g == groupIds(i) && after[g].inviteCode == inviteCodes(i)
  {
    GroupsUpToFacts(groups, accounts, selected, |selected|, groupIds, inviteCodes);
  }
}
