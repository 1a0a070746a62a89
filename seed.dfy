/**
 * The seed: the accounts user1, user2 and user3, all with one password hash, each upserted by
 * name so that an account that already exists is left as it is. The hash, the ids the database
 * gives new rows (`newId(i)` for the `i`-th user) and the schema's default role are parameters.
 */
module Seed {
  import opened Wrappers
  import opened Ledger

  const SeedUsers: seq<string> := ["user1", "user2", "user3"]

  /** Does some account already carry `name`? */
  predicate NameTaken(accounts: map<AccountId, Account>, name: string) {
    exists id :: id in accounts && accounts[id].name == name
  }

  /** `upsert({ where: { name }, update: {}, create: { name, passwordHash } })`. */
  function Upsert(accounts: map<AccountId, Account>, name: string, passwordHash: string, id: AccountId, defaultRole: Role)
    : (r: map<AccountId, Account>)
    requires id !in accounts
    ensures NameTaken(r, name)
    ensures forall a :: a in accounts ==> a in r && r[a] == accounts[a]
    ensures forall a :: a in r && a !in accounts ==> a == id && r[a] == Account(name, passwordHash, None, defaultRole)
    ensures NameTaken(accounts, name) ==> r == accounts
  {
    if NameTaken(accounts, name) then accounts
    else
      var r := accounts[id := Account(name, passwordHash, None, defaultRole)];
      assert r[id].name == name;
      r
  }

  /** Are the oracle's ids new, and new on every turn? */
  ghost predicate FreshIds(accounts: map<AccountId, Account>, newId: nat -> AccountId) {
    && (forall i: nat :: newId(i) !in accounts)
    && (forall i: nat, j: nat :: i != j ==> newId(i) != newId(j))
  }

  /** The accounts after the first `count` users have been upserted. */
  function SeedUpTo(accounts: map<AccountId, Account>, count: nat, passwordHash: string, newId: nat -> AccountId,
                    defaultRole: Role): (r: map<AccountId, Account>)
    requires count <= |SeedUsers| && FreshIds(accounts, newId)
    ensures forall a :: a in accounts ==> a in r && r[a] == accounts[a]
    ensures forall a :: a in r && a !in accounts ==> exists i :: 0 <= i < count && a == newId(i)
  {
    if count == 0 then accounts
    else
      var prev := SeedUpTo(accounts, count - 1, passwordHash, newId, defaultRole);
      assert newId(count - 1) !in prev;
      Upsert(prev, SeedUsers[count - 1], passwordHash, newId(count - 1), defaultRole)
  }

  /** `main`: upsert each user in turn. */
  method SeedAccounts(db: Store, passwordHash: string, newId: nat -> AccountId, defaultRole: Role)
    requires FreshIds(db.accounts, newId)
    modifies db`accounts
    ensures db.accounts == SeedUpTo(old(db.accounts), |SeedUsers|, passwordHash, newId, defaultRole)
  {
    ghost var accounts := db.accounts;
    var i := 0;
    while i < |SeedUsers|
      invariant 0 <= i <= |SeedUsers|
      invariant db.accounts == SeedUpTo(accounts, i, passwordHash, newId, defaultRole)
    {
      var name := SeedUsers[i];
      SeedStep(accounts, i, passwordHash, newId, defaultRole);
      if !NameTaken(db.accounts, name) {
        db.accounts := db.accounts[newId(i) := Account(name, passwordHash, None, defaultRole)];
      }
      i := i + 1;
    }
  }

  /** One more upsert: the next user's account is added under its id unless the name is taken. */
  lemma SeedStep(accounts: map<AccountId, Account>, count: nat, passwordHash: string, newId: nat -> AccountId,
                 defaultRole: Role)
    requires count < |SeedUsers| && FreshIds(accounts, newId)
    ensures var prev := SeedUpTo(accounts, count, passwordHash, newId, defaultRole);
      SeedUpTo(accounts, count + 1, passwordHash, newId, defaultRole)
      == if NameTaken(prev, SeedUsers[count]) then prev
         else prev[newId(count) := Account(SeedUsers[count], passwordHash, None, defaultRole)]
  {
  }

  /** After the seed every seed user exists. */
  lemma {:induction false} SeedNamesTaken(accounts: map<AccountId, Account>, count: nat, passwordHash: string,
                                          newId: nat -> AccountId, defaultRole: Role)
    requires count <= |SeedUsers| && FreshIds(accounts, newId)
    ensures forall i :: 0 <= i < count ==> NameTaken(SeedUpTo(accounts, count, passwordHash, newId, defaultRole), SeedUsers[i])
  {
    if count > 0 {
      SeedNamesTaken(accounts, count - 1, passwordHash, newId, defaultRole);
      var prev := SeedUpTo(accounts, count - 1, passwordHash, newId, defaultRole);
      var r := SeedUpTo(accounts, count, passwordHash, newId, defaultRole);
      assert r == Upsert(prev, SeedUsers[count - 1], passwordHash, newId(count - 1), defaultRole);
      forall i | 0 <= i < count - 1 ensures NameTaken(r, SeedUsers[i]) {
        var id :| id in prev && prev[id].name == SeedUsers[i];
        assert id in r && r[id].name == SeedUsers[i];
      }
    }
  }

  /** Every account the seed creates is a seed user with the one hash, no group and the default role. */
  lemma {:induction false} SeedCreatedRows(accounts: map<AccountId, Account>, count: nat, passwordHash: string,
                                           newId: nat -> AccountId, defaultRole: Role)
    requires count <= |SeedUsers| && FreshIds(accounts, newId)
    ensures var r := SeedUpTo(accounts, count, passwordHash, newId, defaultRole);
      forall a :: a in r && a !in accounts ==>
        r[a].name in SeedUsers && r[a].passwordHash == passwordHash && r[a].groupId.None? && r[a].role == defaultRole
  {
    if count > 0 {
      SeedCreatedRows(accounts, count - 1, passwordHash, newId, defaultRole);
      var prev := SeedUpTo(accounts, count - 1, passwordHash, newId, defaultRole);
      var r := SeedUpTo(accounts, count, passwordHash, newId, defaultRole);
      assert r == Upsert(prev, SeedUsers[count - 1], passwordHash, newId(count - 1), defaultRole);
      forall a | a in r && a !in accounts
        ensures r[a].name in SeedUsers && r[a].passwordHash == passwordHash && r[a].groupId.None? && r[a].role == defaultRole
      {
        if a !in prev {
          assert r[a] == Account(SeedUsers[count - 1], passwordHash, None, defaultRole);
        }
      }
    }
  }

  /** Where every seed user already exists, the upserts change nothing. */
  lemma {:induction false} SeedOfSeeded(accounts: map<AccountId, Account>, count: nat, passwordHash: string,
                                        newId: nat -> AccountId, defaultRole: Role)
    requires count <= |SeedUsers| && FreshIds(accounts, newId)
    requires forall i :: 0 <= i < |SeedUsers| ==> NameTaken(accounts, SeedUsers[i])
    ensures SeedUpTo(accounts, count, passwordHash, newId, defaultRole) == accounts
  {
    if count > 0 {
      SeedOfSeeded(accounts, count - 1, passwordHash, newId, defaultRole);
    }
  }

  /** Seeding twice gives the store seeding once gives, whatever ids and hash the second run brings. */
  lemma SeedIdempotent(accounts: map<AccountId, Account>, passwordHash: string, newId: nat -> AccountId,
                       passwordHash2: string, newId2: nat -> AccountId, defaultRole: Role)
    requires FreshIds(accounts, newId)
    requires FreshIds(SeedUpTo(accounts, |SeedUsers|, passwordHash, newId, defaultRole), newId2)
    ensures var once := SeedUpTo(accounts, |SeedUsers|, passwordHash, newId, defaultRole);
      SeedUpTo(once, |SeedUsers|, passwordHash2, newId2, defaultRole) == once
  {
    var once := SeedUpTo(accounts, |SeedUsers|, passwordHash, newId, defaultRole);
    SeedNamesTaken(accounts, |SeedUsers|, passwordHash, newId, defaultRole);
    SeedOfSeeded(once, |SeedUsers|, passwordHash2, newId2, defaultRole);
  }
}
