/**
 * The ledger store: four tables (Group, Account, Partner, Transaction), each a map from a row's id
 * to the row, held by one `Store` object that the server actions update in place. Also the
 * failures an action reports and the form-field checks its schemas share.
 */
module Ledger {
  import opened Wrappers
  import opened Sorting
  import opened JsStrings

  type AccountId = string
  type GroupId = string
  type PartnerId = string
  type TransactionId = string

  datatype Role = Admin | Member

  /** A friend circle; members join it with its invite code. */
  datatype Group = Group(name: string, inviteCode: string)

  /** A person with a login. `groupId` is empty only for accounts from before groups existed. */
  datatype Account = Account(name: string, passwordHash: string, groupId: Option<GroupId>, role: Role)

  /** A counterparty in one account's address book, possibly linked to another account. */
  datatype Partner = Partner(name: string, ownerId: AccountId, linkedAccountId: Option<AccountId>)

  /**
   * One signed entry in its owner's ledger: positive when the owner lent, negative when the owner
   * borrowed or was repaid. `date` is an instant on the server's clock.
   */
  datatype Transaction = Transaction(
    amount: int, description: Option<string>, date: int, ownerId: AccountId, partnerId: PartnerId)

  /** How an action fails. */
  datatype Failure =
    | Says(message: string)        // the action returns `{ error: message }`
    | InvalidField(field: string)  // zod's own message for a missing, mistyped or unparsable field
    | Unauthorized                 // the action throws `Error("Unauthorized")`
    | StoreRejected                // the database refuses a write (missing row, unique key) and Prisma throws

  type Outcome<T> = Result<T, Failure>

  const LoginRequired: string := "ログインが必要です"
  const AccountNotFound: string := "アカウントが見つかりません"
  const AdminRequired: string := "管理者権限が必要です"

  /** The database: every action reads and writes these four tables. */
  class Store {
    var groups: map<GroupId, Group>
    var accounts: map<AccountId, Account>
    var partners: map<PartnerId, Partner>
    var transactions: map<TransactionId, Transaction>

    constructor ()
      ensures groups == map[] && accounts == map[] && partners == map[] && transactions == map[]
    {
      groups, accounts, partners, transactions := map[], map[], map[], map[];
    }
  }

  /**
   * `scan` lists every key of `m` exactly once: the rows of a table in the order the database
   * returns them when a query does not fix one.
   */
  predicate Enumerates<K(!new), V>(scan: seq<K>, m: map<K, V>) {
    Distinct(scan) && (forall i :: 0 <= i < |scan| ==> scan[i] in m) && (forall k :: k in m ==> k in scan)
  }

  /** The unique index on `Group.inviteCode`. */
  ghost predicate InviteCodesUnique(groups: map<GroupId, Group>) {
    forall g, h :: g in groups && h in groups && g != h ==> groups[g].inviteCode != groups[h].inviteCode
  }

  /** The unique index `ownerId_name` on Partner. */
  ghost predicate PartnerNamesUnique(partners: map<PartnerId, Partner>) {
    forall p, q :: p in partners && q in partners && p != q ==>
      partners[p].ownerId != partners[q].ownerId || partners[p].name != partners[q].name
  }

  /** Does `owner` already have a partner called `name`? */
  predicate HasPartnerNamed(partners: map<PartnerId, Partner>, owner: AccountId, name: string) {
    exists p :: p in partners && partners[p].ownerId == owner && partners[p].name == name
  }

  /**
   * zod's `string().min(min, minMessage).max(max, maxMessage)` on a form field (`None` when the
   * field is absent): the first rule that fails, or nothing. Lengths are JavaScript lengths.
   */
  function LengthIssue(field: string, value: Option<string>, min: nat, minMessage: string, max: nat, maxMessage: string)
    : (r: Option<Failure>)
    ensures r.None? <==> value.Some? && min <= JsLength(value.value) <= max
  {
    match value
    case None => Some(InvalidField(field))
    case Some(s) =>
      if JsLength(s) < min then Some(Says(minMessage))
      else if JsLength(s) > max then Some(Says(maxMessage))
      else None
  }

  /** zod's `string().min(min, minMessage)` on a form field. */
  function MinLengthIssue(field: string, value: Option<string>, min: nat, minMessage: string): (r: Option<Failure>)
    ensures r.None? <==> value.Some? && min <= JsLength(value.value)
  {
    match value
    case None => Some(InvalidField(field))
    case Some(s) => if JsLength(s) < min then Some(Says(minMessage)) else None
  }

  /** `formData.get(field) || undefined`: an empty field counts as absent. */
  function NonEmpty(value: Option<string>): (r: Option<string>)
    ensures r.Some? <==> value.Some? && value.value != ""
    ensures r.Some? ==> r.value == value.value
  {
    if value == Some("") then None else value
  }
}
