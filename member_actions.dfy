/**
 * The member list: every other account with the sum of the amounts it has recorded, largest
 * magnitude first.
 */
module MemberActions {
  import opened Wrappers
  import opened Sorting
  import opened Ledger

  /** One account as the list shows it. */
  datatype MemberWithBalance = MemberWithBalance(id: AccountId, name: string, totalBalance: int)

  /**
   * `m.transactions.reduce((sum, t) => sum + t.amount, 0)`: the sum of the amounts of the
   * transactions `owner` recorded, taken in the order `txScan` lists them.
   */
  function OwnedTotal(txScan: seq<TransactionId>, transactions: map<TransactionId, Transaction>, owner: AccountId): int
    requires forall i :: 0 <= i < |txScan| ==> txScan[i] in transactions
  {
    if txScan == [] then 0
    else
      var t := transactions[txScan[0]];
      (if t.ownerId == owner then t.amount else 0) + OwnedTotal(txScan[1..], transactions, owner)
  }

  /** An account that recorded nothing has a total of 0. */
  lemma {:induction false} OwnedTotalOfNone(txScan: seq<TransactionId>, transactions: map<TransactionId, Transaction>,
                                            owner: AccountId)
    requires forall i :: 0 <= i < |txScan| ==> txScan[i] in transactions
    requires forall i :: 0 <= i < |txScan| ==> transactions[txScan[i]].ownerId != owner
    ensures OwnedTotal(txScan, transactions, owner) == 0
  {
    if txScan != [] {
      OwnedTotalOfNone(txScan[1..], transactions, owner);
    }
  }

  /** The total only depends on the owner's own transactions: others' rows may be added freely. */
  lemma {:induction false} OwnedTotalOthersIgnored(txScan: seq<TransactionId>, extra: TransactionId,
                                                   transactions: map<TransactionId, Transaction>, owner: AccountId)
    requires forall i :: 0 <= i < |txScan| ==> txScan[i] in transactions
    requires extra in transactions && transactions[extra].ownerId != owner
    ensures OwnedTotal(txScan + [extra], transactions, owner) == OwnedTotal(txScan, transactions, owner)
  {
    if txScan == [] {
      assert ([] + [extra])[1..] == [];
    } else {
      assert (txScan + [extra])[1..] == txScan[1..] + [extra];
      OwnedTotalOthersIgnored(txScan[1..], extra, transactions, owner);
    }
  }

  /** `where: { id: { not: me } }`. */
  function NotMe(me: AccountId): AccountId -> bool {
    (id: AccountId) => id != me
  }

  /** The comparator `Math.abs(b.totalBalance) - Math.abs(a.totalBalance)`: larger magnitudes first. */
  function ByTotalMagnitude(): (MemberWithBalance, MemberWithBalance) -> bool {
    (a: MemberWithBalance, b: MemberWithBalance) =>
      (if a.totalBalance < 0 then -a.totalBalance else a.totalBalance) >=
      (if b.totalBalance < 0 then -b.totalBalance else b.totalBalance)
  }

  /** The `map` step over the fetched accounts, in fetch order. */
  function WithTotals(ids: seq<AccountId>, accounts: map<AccountId, Account>,
                      txScan: seq<TransactionId>, transactions: map<TransactionId, Transaction>)
    : (r: seq<MemberWithBalance>)
    requires forall i :: 0 <= i < |ids| ==> ids[i] in accounts
    requires forall i :: 0 <= i < |txScan| ==> txScan[i] in transactions
    ensures |r| == |ids|
    ensures forall i :: 0 <= i < |ids| ==>
      r[i] == MemberWithBalance(ids[i], accounts[ids[i]].name, OwnedTotal(txScan, transactions, ids[i]))
  {
    seq(|ids|, i requires 0 <= i < |ids| =>
      MemberWithBalance(ids[i], accounts[ids[i]].name, OwnedTotal(txScan, transactions, ids[i])))
  }

  /**
   * `getMembers`: throws without a session; otherwise every account but the caller, each with its
   * total, sorted by magnitude (a stable sort, so equal magnitudes keep fetch order).
   */
  function GetMembers(session: Option<AccountId>, scan: seq<AccountId>, accounts: map<AccountId, Account>,
                      txScan: seq<TransactionId>, transactions: map<TransactionId, Transaction>)
    : (r: Outcome<seq<MemberWithBalance>>)
    requires Enumerates(scan, accounts) && Enumerates(txScan, transactions)
    ensures session.None? <==> r == Err(Unauthorized)
    ensures r.Ok? ==> |r.value| == |accounts| - (if session.value in accounts then 1 else 0)
  {
    if session.None? then Err(Unauthorized)
    else
      var others := Filter(scan, NotMe(session.value));
      OthersCount(scan, accounts, session.value);
      Ok(SortBy(WithTotals(others, accounts, txScan, transactions), ByTotalMagnitude()))
  }

  /** The accounts other than `me` number one fewer than all when `me` is one of them. */
  lemma OthersCount(scan: seq<AccountId>, accounts: map<AccountId, Account>, me: AccountId)
    requires Enumerates(scan, accounts)
    ensures |Filter(scan, NotMe(me))| == |accounts| - (if me in accounts then 1 else 0)
  {
    OthersListed(scan, accounts, me);
    SeqMatchesSet(Filter(scan, NotMe(me)), accounts.Keys - {me});
    assert |accounts.Keys| == |accounts|;
    if me in accounts {
      assert accounts.Keys == (accounts.Keys - {me}) + {me};
    } else {
      assert accounts.Keys == accounts.Keys - {me};
    }
  }

  /** The fetched accounts are every account but `me`, each once. */
  lemma OthersListed(scan: seq<AccountId>, accounts: map<AccountId, Account>, me: AccountId)
    requires Enumerates(scan, accounts)
    ensures var others := Filter(scan, NotMe(me));
      && Distinct(others)
      && (forall i :: 0 <= i < |others| ==> others[i] in accounts.Keys - {me})
      && (forall k :: k in accounts.Keys - {me} ==> k in others)
  {
    var others := Filter(scan, NotMe(me));
    FilterDistinct(scan, NotMe(me));
    forall k | k in accounts.Keys - {me} ensures k in others {
      var i :| 0 <= i < |scan| && scan[i] == k;
      assert NotMe(me)(scan[i]);
    }
  }



  /** Each listed entry is an account other than the caller, with its name and its total. */
  lemma GetMembersListed(me: AccountId, scan: seq<AccountId>, accounts: map<AccountId, Account>,
                         txScan: seq<TransactionId>, transactions: map<TransactionId, Transaction>)
    requires Enumerates(scan, accounts) && Enumerates(txScan, transactions)
    ensures var r := GetMembers(Some(me), scan, accounts, txScan, transactions).value;
      forall i :: 0 <= i < |r| ==>
        && r[i].id in accounts && r[i].id != me
        && r[i].name == accounts[r[i].id].name
        && r[i].totalBalance == OwnedTotal(txScan, transactions, r[i].id)
  {
    var others := Filter(scan, NotMe(me));
    var mapped := WithTotals(others, accounts, txScan, transactions);
    var r := GetMembers(Some(me), scan, accounts, txScan, transactions).value;
    assert r == SortBy(mapped, ByTotalMagnitude());
    forall i | 0 <= i < |r|
      ensures r[i].id in accounts && r[i].id != me
      ensures r[i].name == accounts[r[i].id].name
      ensures r[i].totalBalance == OwnedTotal(txScan, transactions, r[i].id)
    {
      assert r[i] in multiset(mapped);
      var k :| 0 <= k < |mapped| && mapped[k] == r[i];
      assert NotMe(me)(others[k]);
    }
  }

  /** Every account other than the caller is listed, whatever group it is in. */
  lemma GetMembersComplete(me: AccountId, scan: seq<AccountId>, accounts: map<AccountId, Account>,
                           txScan: seq<TransactionId>, transactions: map<TransactionId, Transaction>)
    requires Enumerates(scan, accounts) && Enumerates(txScan, transactions)
    ensures var r := GetMembers(Some(me), scan, accounts, txScan, transactions).value;
      forall id :: id in accounts && id != me ==> exists i :: 0 <= i < |r| && r[i].id == id
  {
    var others := Filter(scan, NotMe(me));
    var mapped := WithTotals(others, accounts, txScan, transactions);
    var r := GetMembers(Some(me), scan, accounts, txScan, transactions).value;
    assert r == SortBy(mapped, ByTotalMagnitude());
    OthersListed(scan, accounts, me);
    forall id | id in accounts && id != me ensures exists i :: 0 <= i < |r| && r[i].id == id {
      assert id in accounts.Keys - {me};
      var k :| 0 <= k < |others| && others[k] == id;
      assert mapped[k] in multiset(r);
      var i :| 0 <= i < |r| && r[i] == mapped[k];
    }
  }

  /** No account is listed twice. */
  lemma GetMembersOnce(me: AccountId, scan: seq<AccountId>, accounts: map<AccountId, Account>,
                       txScan: seq<TransactionId>, transactions: map<TransactionId, Transaction>)
    requires Enumerates(scan, accounts) && Enumerates(txScan, transactions)
    ensures var r := GetMembers(Some(me), scan, accounts, txScan, transactions).value;
      forall i, j :: 0 <= i < j < |r| ==> r[i].id != r[j].id
  {
    var others := Filter(scan, NotMe(me));
    var mapped := WithTotals(others, accounts, txScan, transactions);
    var r := GetMembers(Some(me), scan, accounts, txScan, transactions).value;
    assert r == SortBy(mapped, ByTotalMagnitude());
    FilterDistinct(scan, NotMe(me));
    assert Distinct(mapped) by {
      forall i, j | 0 <= i < j < |mapped| ensures mapped[i] != mapped[j] {
        assert mapped[i].id == others[i] && mapped[j].id == others[j];
      }
    }
    DistinctPermutation(mapped, r);
    GetMembersListed(me, scan, accounts, txScan, transactions);
  }

  /** The list is the mapped accounts reordered, larger magnitudes first. */
  lemma GetMembersOrdered(me: AccountId, scan: seq<AccountId>, accounts: map<AccountId, Account>,
                          txScan: seq<TransactionId>, transactions: map<TransactionId, Transaction>)
    requires Enumerates(scan, accounts) && Enumerates(txScan, transactions)
    ensures var r := GetMembers(Some(me), scan, accounts, txScan, transactions).value;
      && multiset(r) == multiset(WithTotals(Filter(scan, NotMe(me)), accounts, txScan, transactions))
      && (forall i, j :: 0 <= i < j < |r| ==>
            (if r[i].totalBalance < 0 then -r[i].totalBalance else r[i].totalBalance) >=
            (if r[j].totalBalance < 0 then -r[j].totalBalance else r[j].totalBalance))
  {
    var mapped := WithTotals(Filter(scan, NotMe(me)), accounts, txScan, transactions);
    assert TotalPreorder(ByTotalMagnitude());
    SortBySorted(mapped, ByTotalMagnitude());
  }
}
