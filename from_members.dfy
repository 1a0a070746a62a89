/**
 * What other members have recorded against the caller: the transactions whose partner is linked
 * to the caller's account, their balance per recording member, the history, and the total.
 */
module FromMembers {
  import opened Wrappers
  import opened Sorting
  import opened Ledger
  import JsStrings

  /** A transaction together with its id, as a query returns it. */
  type Row = (TransactionId, Transaction)

  /** Every transaction's owner exists: the foreign key the `owner` include relies on. */
  predicate OwnersExist(transactions: map<TransactionId, Transaction>, accounts: map<AccountId, Account>) {
    forall id :: id in transactions ==> transactions[id].ownerId in accounts
  }

  /** `where: { partner: { linkedAccountId: me } }`. */
  function LinkedTo(transactions: map<TransactionId, Transaction>, partners: map<PartnerId, Partner>, me: AccountId)
    : TransactionId -> bool
  {
    (id: TransactionId) =>
      id in transactions && transactions[id].partnerId in partners
      && partners[transactions[id].partnerId].linkedAccountId == Some(me)
  }

  /** Does the transaction `t` point at a partner linked to `me`? Its owner plays no part. */
  predicate AboutMe(t: Transaction, partners: map<PartnerId, Partner>, me: AccountId) {
    t.partnerId in partners && partners[t.partnerId].linkedAccountId == Some(me)
  }

  /** The transactions recorded against `me`, in the order `scan` lists them, with their ids. */
  function SelectedFor(me: AccountId, scan: seq<TransactionId>, transactions: map<TransactionId, Transaction>,
                       partners: map<PartnerId, Partner>)
    : (rows: seq<Row>)
    requires Enumerates(scan, transactions)
    ensures forall i :: 0 <= i < |rows| ==>
      rows[i].0 in transactions && transactions[rows[i].0] == rows[i].1 && AboutMe(rows[i].1, partners, me)
    ensures forall id :: id in transactions && AboutMe(transactions[id], partners, me) ==>
      exists i :: 0 <= i < |rows| && rows[i].0 == id
    ensures forall i, j :: 0 <= i < j < |rows| ==> rows[i].0 != rows[j].0
  {
    var ids := Filter(scan, LinkedTo(transactions, partners, me));
    FilterDistinct(scan, LinkedTo(transactions, partners, me));
    var rows := seq(|ids|, i requires 0 <= i < |ids| => (ids[i], transactions[ids[i]]));
    forall id | id in transactions && AboutMe(transactions[id], partners, me)
      ensures exists i :: 0 <= i < |rows| && rows[i].0 == id
    {
      var k :| 0 <= k < |scan| && scan[k] == id;
      assert LinkedTo(transactions, partners, me)(scan[k]);
      var i :| 0 <= i < |ids| && ids[i] == id;
      assert rows[i].0 == id;
    }
    rows
  }

  // ---------------------------------------------------------------------------------------------
  // Balances per member

  /** One member's balance towards the caller. */
  datatype MemberBalance = MemberBalance(memberId: AccountId, memberName: string, balance: int)

  /** The comparator `Math.abs(b.balance) - Math.abs(a.balance)`: larger magnitudes first. */
  function ByMagnitude(): (MemberBalance, MemberBalance) -> bool {
    (a: MemberBalance, b: MemberBalance) => JsStrings.Abs(a.balance) >= JsStrings.Abs(b.balance)
  }

  /** The owners of `rows`, one per row. */
  function Owners(rows: seq<Row>): (owners: seq<AccountId>)
    ensures |owners| == |rows| && forall i :: 0 <= i < |rows| ==> owners[i] == rows[i].1.ownerId
  {
    seq(|rows|, i requires 0 <= i < |rows| => rows[i].1.ownerId)
  }

  /** The owners of `rows` in order of first appearance: the keys of the tally, in insertion order. */
  function OwnerOrder(rows: seq<Row>): seq<AccountId> {
    Dedup(Owners(rows))
  }

  /** The sum of the amounts of `owner`'s rows. */
  function BalanceOf(rows: seq<Row>, owner: AccountId): int {
    if rows == [] then 0
    else
      var last := rows[|rows| - 1].1;
      BalanceOf(rows[..|rows| - 1], owner) + (if last.ownerId == owner then last.amount else 0)
  }

  /** Every row's owner is an account. */
  predicate OwnersIn(rows: seq<Row>, accounts: map<AccountId, Account>) {
    forall i :: 0 <= i < |rows| ==> rows[i].1.ownerId in accounts
  }

  lemma SelectedOwnersIn(me: AccountId, scan: seq<TransactionId>, transactions: map<TransactionId, Transaction>,
                         partners: map<PartnerId, Partner>, accounts: map<AccountId, Account>)
    requires Enumerates(scan, transactions) && OwnersExist(transactions, accounts)
    ensures OwnersIn(SelectedFor(me, scan, transactions, partners), accounts)
  {
  }

  /** One entry per owner, in tally order, before sorting. */
  function Tallied(rows: seq<Row>, accounts: map<AccountId, Account>): (entries: seq<MemberBalance>)
    requires OwnersIn(rows, accounts)
  {
    var order := OwnerOrder(rows);
    assert forall j :: 0 <= j < |order| ==> order[j] in accounts by {
      forall j | 0 <= j < |order| ensures order[j] in accounts {
        var i :| 0 <= i < |rows| && Owners(rows)[i] == order[j];
      }
    }
    seq(|order|, j requires 0 <= j < |order| => MemberBalance(order[j], accounts[order[j]].name, BalanceOf(rows, order[j])))
  }

  /** The tally sorted by magnitude: what `getMemberBalancesForMe` returns for the selected `rows`. */
  function Balances(rows: seq<Row>, accounts: map<AccountId, Account>): seq<MemberBalance>
    requires OwnersIn(rows, accounts)
  {
    SortBy(Tallied(rows, accounts), ByMagnitude())
  }

  /** A running tally entry: the owner's name and the balance so far. */
  datatype Tally = Tally(name: string, balance: int)

  /**
   * The loop of `getMemberBalancesForMe`: a map from owner to name and running balance whose keys
   * keep insertion order, read out in that order.
   */
  method TallyByOwner(rows: seq<Row>, accounts: map<AccountId, Account>) returns (entries: seq<MemberBalance>)
    requires OwnersIn(rows, accounts)
    ensures entries == Tallied(rows, accounts)
  {
    var tally: map<AccountId, Tally> := map[];
    var keys: seq<AccountId> := [];
    var i := 0;
    assert rows[..0] == [];
    while i < |rows|
      invariant 0 <= i <= |rows|
      invariant TallyMatches(tally, keys, rows[..i], accounts)
    {
      tally, keys := TallyRow(rows, i, accounts, tally, keys);
      i := i + 1;
    }
    assert rows[..i] == rows;
    TallyReadOut(rows, accounts, tally, keys);
    entries := ReadOut(tally, keys);
  }

  /** One pass of the loop: the row's owner gains its amount, or enters the tally with it. */
  method TallyRow(rows: seq<Row>, i: nat, accounts: map<AccountId, Account>,
                  tally: map<AccountId, Tally>, keys: seq<AccountId>)
    returns (tally': map<AccountId, Tally>, keys': seq<AccountId>)
    requires i < |rows| && OwnersIn(rows, accounts) && TallyMatches(tally, keys, rows[..i], accounts)
    ensures TallyMatches(tally', keys', rows[..i + 1], accounts)
  {
    var t := rows[i].1;
    if t.ownerId in tally {
      TallyAdd(rows, i, accounts, tally, keys);
      tally' := tally[t.ownerId := tally[t.ownerId].(balance := tally[t.ownerId].balance + t.amount)];
      keys' := keys;
    } else {
      TallyInsert(rows, i, accounts, tally, keys);
      tally' := tally[t.ownerId := Tally(accounts[t.ownerId].name, t.amount)];
      keys' := keys + [t.ownerId];
    }
  }

  /**
   * The running tally after `prefix`: its keys are the owners in order of first appearance, and
   * each holds the owner's name and balance so far.
   */
  ghost predicate TallyMatches(tally: map<AccountId, Tally>, keys: seq<AccountId>, prefix: seq<Row>,
                         accounts: map<AccountId, Account>)
  {
    && keys == OwnerOrder(prefix)
    && (forall k :: k in tally <==> k in keys)
    && (forall k :: k in tally ==> k in accounts && tally[k] == Tally(accounts[k].name, BalanceOf(prefix, k)))
  }

  /** A row of an owner already tallied adds its amount to that owner's balance. */
  lemma TallyAdd(rows: seq<Row>, i: nat, accounts: map<AccountId, Account>,
                 tally: map<AccountId, Tally>, keys: seq<AccountId>)
    requires i < |rows| && TallyMatches(tally, keys, rows[..i], accounts) && rows[i].1.ownerId in tally
    ensures var t := rows[i].1;
      TallyMatches(tally[t.ownerId := tally[t.ownerId].(balance := tally[t.ownerId].balance + t.amount)],
                   keys, rows[..i + 1], accounts)
  {
    var t := rows[i].1;
    var next := tally[t.ownerId := tally[t.ownerId].(balance := tally[t.ownerId].balance + t.amount)];
    TallyStep(rows, i);
    forall k | k in next
      ensures k in accounts && next[k] == Tally(accounts[k].name, BalanceOf(rows[..i + 1], k))
    {
      if k != t.ownerId {
        assert next[k] == tally[k];
      }
    }
  }

  /** The first row of an owner adds that owner, with its name and amount, at the end of the keys. */
  lemma TallyInsert(rows: seq<Row>, i: nat, accounts: map<AccountId, Account>,
                    tally: map<AccountId, Tally>, keys: seq<AccountId>)
    requires i < |rows| && TallyMatches(tally, keys, rows[..i], accounts)
    requires rows[i].1.ownerId !in tally && rows[i].1.ownerId in accounts
    ensures var t := rows[i].1;
      TallyMatches(tally[t.ownerId := Tally(accounts[t.ownerId].name, t.amount)],
                   keys + [t.ownerId], rows[..i + 1], accounts)
  {
    var t := rows[i].1;
    var next := tally[t.ownerId := Tally(accounts[t.ownerId].name, t.amount)];
    TallyStep(rows, i);
    BalanceOfAbsentFromOrder(rows[..i], t.ownerId);
    forall k | k in next
      ensures k in accounts && next[k] == Tally(accounts[k].name, BalanceOf(rows[..i + 1], k))
    {
      if k != t.ownerId {
        assert next[k] == tally[k];
      }
    }
  }

  /** The tally's entries in key order. */
  function ReadOut(tally: map<AccountId, Tally>, keys: seq<AccountId>): (entries: seq<MemberBalance>)
    requires forall j :: 0 <= j < |keys| ==> keys[j] in tally
    ensures |entries| == |keys|
    ensures forall j :: 0 <= j < |keys| ==>
              entries[j] == MemberBalance(keys[j], tally[keys[j]].name, tally[keys[j]].balance)
  {
    seq(|keys|, j requires 0 <= j < |keys| => MemberBalance(keys[j], tally[keys[j]].name, tally[keys[j]].balance))
  }

  /** Reading a matching tally out in key order gives the tally entries. */
  lemma TallyReadOut(rows: seq<Row>, accounts: map<AccountId, Account>, tally: map<AccountId, Tally>,
                     keys: seq<AccountId>)
    requires OwnersIn(rows, accounts) && TallyMatches(tally, keys, rows, accounts)
    ensures forall j :: 0 <= j < |keys| ==> keys[j] in tally
    ensures ReadOut(tally, keys) == Tallied(rows, accounts)
  {
    var entries := ReadOut(tally, keys);
    var tallied := Tallied(rows, accounts);
    assert |entries| == |tallied|;
    forall j | 0 <= j < |entries| ensures entries[j] == tallied[j] {
      assert keys[j] in tally;
    }
  }

  /**
   * `getMemberBalancesForMe`: throws without a session; otherwise tallies the selected
   * transactions per owner and sorts the entries by magnitude.
   */
  method GetMemberBalancesForMe(db: Store, session: Option<AccountId>, scan: seq<TransactionId>)
    returns (r: Outcome<seq<MemberBalance>>)
    requires Enumerates(scan, db.transactions) && OwnersExist(db.transactions, db.accounts)
    ensures session.None? ==> r == Err(Unauthorized)
    ensures session.Some? ==> OwnersIn(SelectedFor(session.value, scan, db.transactions, db.partners), db.accounts)
                              && r == Ok(Balances(SelectedFor(session.value, scan, db.transactions, db.partners), db.accounts))
  {
    if session.None? {
      return Err(Unauthorized);
    }
    var rows := SelectedFor(session.value, scan, db.transactions, db.partners);
    SelectedOwnersIn(session.value, scan, db.transactions, db.partners, db.accounts);
    var entries := TallyByOwner(rows, db.accounts);
    r := Ok(SortBy(entries, ByMagnitude()));
  }

  /** What one more row does to the tally's keys and balances. */
  lemma TallyStep(rows: seq<Row>, i: nat)
    requires i < |rows|
    ensures OwnerOrder(rows[..i + 1]) ==
      if rows[i].1.ownerId in OwnerOrder(rows[..i]) then OwnerOrder(rows[..i])
      else OwnerOrder(rows[..i]) + [rows[i].1.ownerId]
    ensures forall k ::
              BalanceOf(rows[..i + 1], k) == BalanceOf(rows[..i], k) + (if rows[i].1.ownerId == k then rows[i].1.amount else 0)
  {
    var front := rows[..i + 1];
    assert front[..|front| - 1] == rows[..i];
    var owners := Owners(front);
    assert owners[..|owners| - 1] == Owners(rows[..i]);
  }

  /** An owner with no row has nothing tallied. */
  lemma {:induction false} BalanceOfAbsent(rows: seq<Row>, owner: AccountId)
    requires forall i :: 0 <= i < |rows| ==> rows[i].1.ownerId != owner
    ensures BalanceOf(rows, owner) == 0
  {
    if rows != [] {
      BalanceOfAbsent(rows[..|rows| - 1], owner);
    }
  }

  lemma BalanceOfAbsentFromOrder(rows: seq<Row>, owner: AccountId)
    requires owner !in OwnerOrder(rows)
    ensures BalanceOf(rows, owner) == 0
  {
    forall i | 0 <= i < |rows| ensures rows[i].1.ownerId != owner {
      assert Owners(rows)[i] in OwnerOrder(rows);
    }
    BalanceOfAbsent(rows, owner);
  }

  /** The sum of the balances of distinct `keys`. */
  function SumBalances(keys: seq<AccountId>, rows: seq<Row>): int {
    if keys == [] then 0 else BalanceOf(rows, keys[0]) + SumBalances(keys[1..], rows)
  }

  /** One more row adds its amount to the balance of its owner, when the owner is among `keys`. */
  lemma {:induction false} SumBalancesSnoc(keys: seq<AccountId>, rows: seq<Row>, last: Row)
    requires Distinct(keys)
    ensures SumBalances(keys, rows + [last]) ==
      SumBalances(keys, rows) + (if last.1.ownerId in keys then last.1.amount else 0)
  {
    if keys != [] {
      assert (rows + [last])[..|rows + [last]| - 1] == rows;
      SumBalancesSnoc(keys[1..], rows, last);
      assert keys[0] !in keys[1..];
      assert last.1.ownerId in keys <==> last.1.ownerId == keys[0] || last.1.ownerId in keys[1..];
    }
  }

  lemma {:induction false} SumBalancesAppend(keys: seq<AccountId>, extra: AccountId, rows: seq<Row>)
    ensures SumBalances(keys + [extra], rows) == SumBalances(keys, rows) + BalanceOf(rows, extra)
  {
    if keys == [] {
      assert [extra][1..] == [];
    } else {
      assert (keys + [extra])[1..] == keys[1..] + [extra];
      SumBalancesAppend(keys[1..], extra, rows);
    }
  }

  /** Tallying per owner keeps the total: the balances add up to all the amounts. */
  lemma {:induction false} TallyKeepsTotal(rows: seq<Row>)
    ensures SumBalances(OwnerOrder(rows), rows) == SumBy(rows, (row: Row) => row.1.amount)
  {
    var amount := (row: Row) => row.1.amount;
    if rows != [] {
      var n := |rows| - 1;
      var front, last := rows[..n], rows[n];
      assert rows == front + [last];
      TallyKeepsTotal(front);
      SumByAppend(front, [last], amount);
      assert Owners(rows)[..n] == Owners(front);
      var keys := OwnerOrder(front);
      SumBalancesSnoc(keys, front, last);
      if last.1.ownerId !in keys {
        assert OwnerOrder(rows) == keys + [last.1.ownerId];
        SumBalancesAppend(keys, last.1.ownerId, rows);
        forall i | 0 <= i < |front| ensures front[i].1.ownerId != last.1.ownerId {
          assert Owners(front)[i] in keys;
        }
        BalanceOfAbsent(front, last.1.ownerId);
      } else {
        assert OwnerOrder(rows) == keys;
      }
    }
  }

  lemma {:induction false} SumByTallied(keys: seq<AccountId>, rows: seq<Row>, accounts: map<AccountId, Account>,
                                        entries: seq<MemberBalance>)
    requires |entries| == |keys|
    requires forall j :: 0 <= j < |keys| ==> entries[j].balance == BalanceOf(rows, keys[j])
    ensures SumBy(entries, (e: MemberBalance) => e.balance) == SumBalances(keys, rows)
  {
    if keys != [] {
      SumByTallied(keys[1..], rows, accounts, entries[1..]);
    }
  }

  /** The tally has one entry per owner, in order of first appearance, with name and balance. */
  lemma TalliedEntries(rows: seq<Row>, accounts: map<AccountId, Account>)
    requires OwnersIn(rows, accounts)
    ensures var entries := Tallied(rows, accounts);
      var order := OwnerOrder(rows);
      && |entries| == |order|
      && (forall j :: 0 <= j < |order| ==>
            order[j] in accounts && entries[j] == MemberBalance(order[j], accounts[order[j]].name, BalanceOf(rows, order[j])))
      && Distinct(entries)
  {
    var entries := Tallied(rows, accounts);
    var order := OwnerOrder(rows);
    forall i, j | 0 <= i < j < |entries| ensures entries[i] != entries[j] {
      assert entries[i].memberId == order[i] && entries[j].memberId == order[j];
    }
  }

  /**
   * Each balance belongs to the owner of some selected row and carries that owner's name and the
   * sum of the owner's amounts (a zero sum included); every owner of a selected row has one.
   */
  lemma BalancesEntries(rows: seq<Row>, accounts: map<AccountId, Account>)
    requires OwnersIn(rows, accounts)
    ensures var r := Balances(rows, accounts);
      && (forall e :: e in r ==> (exists i :: 0 <= i < |rows| && rows[i].1.ownerId == e.memberId)
                                 && e.memberId in accounts && e.memberName == accounts[e.memberId].name
                                 && e.balance == BalanceOf(rows, e.memberId))
      && (forall i :: 0 <= i < |rows| ==> exists e :: e in r && e.memberId == rows[i].1.ownerId)
  {
    var r := Balances(rows, accounts);
    forall e | e in r
      ensures (exists i :: 0 <= i < |rows| && rows[i].1.ownerId == e.memberId)
      ensures e.memberId in accounts && e.memberName == accounts[e.memberId].name
      ensures e.balance == BalanceOf(rows, e.memberId)
    {
      assert e in multiset(Tallied(rows, accounts));
      TalliedEntry(rows, accounts, e);
    }
    forall i | 0 <= i < |rows| ensures exists e :: e in r && e.memberId == rows[i].1.ownerId {
      var e := OwnerTallied(rows, accounts, i);
      assert e in multiset(r);
    }
  }

  /** An entry of the tally belongs to the owner of some row and carries its name and balance. */
  lemma TalliedEntry(rows: seq<Row>, accounts: map<AccountId, Account>, e: MemberBalance)
    requires OwnersIn(rows, accounts) && e in Tallied(rows, accounts)
    ensures exists i :: 0 <= i < |rows| && rows[i].1.ownerId == e.memberId
    ensures e.memberId in accounts && e.memberName == accounts[e.memberId].name
    ensures e.balance == BalanceOf(rows, e.memberId)
  {
    TalliedEntries(rows, accounts);
    var entries := Tallied(rows, accounts);
    var j :| 0 <= j < |entries| && entries[j] == e;
    var i :| 0 <= i < |rows| && Owners(rows)[i] == OwnerOrder(rows)[j];
  }

  /** The owner of row `i` has an entry in the tally. */
  lemma OwnerTallied(rows: seq<Row>, accounts: map<AccountId, Account>, i: nat) returns (e: MemberBalance)
    requires OwnersIn(rows, accounts) && i < |rows|
    ensures e in Tallied(rows, accounts) && e.memberId == rows[i].1.ownerId
  {
    TalliedEntries(rows, accounts);
    var order := OwnerOrder(rows);
    assert Owners(rows)[i] in order;
    var j :| 0 <= j < |order| && order[j] == rows[i].1.ownerId;
    e := Tallied(rows, accounts)[j];
  }

  /** No owner is listed twice, and larger magnitudes come first. */
  lemma BalancesOrdered(rows: seq<Row>, accounts: map<AccountId, Account>)
    requires OwnersIn(rows, accounts)
    ensures var r := Balances(rows, accounts);
      && (forall i, j :: 0 <= i < j < |r| ==> r[i].memberId != r[j].memberId)
      && (forall i, j :: 0 <= i < j < |r| ==> JsStrings.Abs(r[i].balance) >= JsStrings.Abs(r[j].balance))
  {
    var entries := Tallied(rows, accounts);
    var r := Balances(rows, accounts);
    TalliedEntries(rows, accounts);
    SortBySorted(entries, ByMagnitude());
    DistinctPermutation(entries, r);
    forall i, j | 0 <= i < j < |r| ensures r[i].memberId != r[j].memberId {
      assert r[i] in multiset(entries) && r[j] in multiset(entries);
      var k :| 0 <= k < |entries| && entries[k] == r[i];
      var l :| 0 <= l < |entries| && entries[l] == r[j];
      assert r[i] != r[j];
    }
  }

  /** Grouping keeps the total: the balances add up to the sum of every selected amount. */
  lemma BalancesTotal(rows: seq<Row>, accounts: map<AccountId, Account>)
    requires OwnersIn(rows, accounts)
    ensures SumBy(Balances(rows, accounts), (e: MemberBalance) => e.balance) == SumBy(rows, (row: Row) => row.1.amount)
  {
    var entries := Tallied(rows, accounts);
    TalliedEntries(rows, accounts);
    SumByPermutation(Balances(rows, accounts), entries, (e: MemberBalance) => e.balance);
    SumByTallied(OwnerOrder(rows), rows, accounts, entries);
    TallyKeepsTotal(rows);
  }

  /**
   * `getTotalBalanceForMe`: the balances summed. It throws, through `getMemberBalancesForMe`,
   * without a session.
   */
  method GetTotalBalanceForMe(db: Store, session: Option<AccountId>, scan: seq<TransactionId>) returns (r: Outcome<int>)
    requires Enumerates(scan, db.transactions) && OwnersExist(db.transactions, db.accounts)
    ensures session.None? ==> r == Err(Unauthorized)
    ensures session.Some? ==>
      r == Ok(SumBy(SelectedFor(session.value, scan, db.transactions, db.partners), (row: Row) => row.1.amount))
  {
    var balances := GetMemberBalancesForMe(db, session, scan);
    if balances.Err? {
      return Err(balances.error);
    }
    BalancesTotal(SelectedFor(session.value, scan, db.transactions, db.partners), db.accounts);
    r := Ok(SumBy(balances.value, (e: MemberBalance) => e.balance));
  }

  // ---------------------------------------------------------------------------------------------
  // History

  /** One line of the history of what others recorded against the caller. */
  datatype TransactionFromMember = TransactionFromMember(
    id: TransactionId, amount: int, description: Option<string>, date: int, memberName: string, memberId: AccountId)

  /** `orderBy: { date: "desc" }`; rows with the same date keep their scan order. */
  function ByDateDescending(): (Row, Row) -> bool {
    (a: Row, b: Row) => a.1.date >= b.1.date
  }

  function FromMember(row: Row, accounts: map<AccountId, Account>): TransactionFromMember
    requires row.1.ownerId in accounts
  {
    TransactionFromMember(row.0, row.1.amount, row.1.description, row.1.date, accounts[row.1.ownerId].name, row.1.ownerId)
  }

  /** Each row with the recording member's id and name, in the same order. */
  function Lines(rows: seq<Row>, accounts: map<AccountId, Account>): (lines: seq<TransactionFromMember>)
    requires OwnersIn(rows, accounts)
    ensures |lines| == |rows| && forall i :: 0 <= i < |rows| ==> lines[i] == FromMember(rows[i], accounts)
  {
    seq(|rows|, i requires 0 <= i < |rows| => FromMember(rows[i], accounts))
  }

  /** Sorting keeps every owner an account. */
  lemma SortedOwnersIn(rows: seq<Row>, accounts: map<AccountId, Account>)
    requires OwnersIn(rows, accounts)
    ensures OwnersIn(SortBy(rows, ByDateDescending()), accounts)
  {
    var sorted := SortBy(rows, ByDateDescending());
    forall i | 0 <= i < |sorted| ensures sorted[i].1.ownerId in accounts {
      assert sorted[i] in multiset(rows);
    }
  }

  /** The selected rows newest first, each with the recording member's id and name. */
  function History(rows: seq<Row>, accounts: map<AccountId, Account>): seq<TransactionFromMember>
    requires OwnersIn(rows, accounts)
  {
    SortedOwnersIn(rows, accounts);
    Lines(SortBy(rows, ByDateDescending()), accounts)
  }

  /** Line `i` of the history shows row `i` of the selected rows sorted newest first. */
  lemma HistoryLines(rows: seq<Row>, accounts: map<AccountId, Account>)
    requires OwnersIn(rows, accounts)
    ensures var sorted := SortBy(rows, ByDateDescending());
      var lines := History(rows, accounts);
      && |lines| == |sorted| == |rows|
      && forall i :: 0 <= i < |lines| ==> sorted[i].1.ownerId in accounts && lines[i] == FromMember(sorted[i], accounts)
  {
    SortedOwnersIn(rows, accounts);
  }

  /** Every line of the history shows one of the selected rows. */
  lemma HistoryFromRows(rows: seq<Row>, accounts: map<AccountId, Account>)
    requires OwnersIn(rows, accounts)
    ensures var lines := History(rows, accounts);
      forall i :: 0 <= i < |lines| ==> exists k :: 0 <= k < |rows| && lines[i] == FromMember(rows[k], accounts)
  {
    var sorted := SortBy(rows, ByDateDescending());
    var lines := History(rows, accounts);
    HistoryLines(rows, accounts);
    forall i | 0 <= i < |lines| ensures exists k :: 0 <= k < |rows| && lines[i] == FromMember(rows[k], accounts) {
      assert sorted[i] in multiset(rows);
      var k :| 0 <= k < |rows| && rows[k] == sorted[i];
    }
  }

  /** Every selected row appears in the history. */
  lemma HistoryCoversRows(rows: seq<Row>, accounts: map<AccountId, Account>)
    requires OwnersIn(rows, accounts)
    ensures var lines := History(rows, accounts);
      forall k :: 0 <= k < |rows| ==> exists i :: 0 <= i < |lines| && lines[i] == FromMember(rows[k], accounts)
  {
    var sorted := SortBy(rows, ByDateDescending());
    var lines := History(rows, accounts);
    HistoryLines(rows, accounts);
    forall k | 0 <= k < |rows| ensures exists i :: 0 <= i < |lines| && lines[i] == FromMember(rows[k], accounts) {
      assert rows[k] in multiset(sorted);
      var i :| 0 <= i < |sorted| && sorted[i] == rows[k];
    }
  }

  /** The history is newest first. */
  lemma HistoryNewestFirst(rows: seq<Row>, accounts: map<AccountId, Account>)
    requires OwnersIn(rows, accounts)
    ensures var lines := History(rows, accounts);
      forall i, j :: 0 <= i < j < |lines| ==> lines[i].date >= lines[j].date
  {
    HistoryLines(rows, accounts);
    SortBySorted(rows, ByDateDescending());
  }

  /**
   * `getTransactionsForMe`: throws without a session; otherwise the history of the selected
   * transactions.
   */
  function GetTransactionsForMe(session: Option<AccountId>, scan: seq<TransactionId>,
                                transactions: map<TransactionId, Transaction>, partners: map<PartnerId, Partner>,
                                accounts: map<AccountId, Account>)
    : (r: Outcome<seq<TransactionFromMember>>)
    requires Enumerates(scan, transactions) && OwnersExist(transactions, accounts)
    ensures session.None? <==> r == Err(Unauthorized)
    ensures r.Ok? ==> OwnersIn(SelectedFor(session.value, scan, transactions, partners), accounts)
                      && r.value == History(SelectedFor(session.value, scan, transactions, partners), accounts)
  {
    if session.None? then Err(Unauthorized)
    else
      SelectedOwnersIn(session.value, scan, transactions, partners, accounts);
      Ok(History(SelectedFor(session.value, scan, transactions, partners), accounts))
  }
}
