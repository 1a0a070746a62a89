/**
 * Signing in, reading the signed-in account and editing one's own profile. Password hashing and
 * checking are parameters: `verify(password, hash)` and `hash(password)`.
 */
module AuthActions {
  import opened Wrappers
  import opened JsStrings
  import opened Ledger

  const ChooseUser: string := "ユーザーを選択してください"
  const EnterPassword: string := "パスワードを入力してください"
  const BadCredentials: string := "ユーザー名またはパスワードが正しくありません"
  const EnterName: string := "ユーザー名を入力してください"
  const NameTooLong: string := "ユーザー名は50文字以内で入力してください"
  const NameInUse: string := "このユーザー名は既に使用されています"
  const EnterCurrentPassword: string := "現在のパスワードを入力してください"
  const NewPasswordTooShort: string := "新しいパスワードは6文字以上で入力してください"
  const WrongCurrentPassword: string := "現在のパスワードが正しくありません"
  const MaxNameLength: nat := 50
  const MinPasswordLength: nat := 6

  /** The fields the login form posts; `None` for a field that is absent. */
  datatype LoginForm = LoginForm(userId: Option<string>, password: Option<string>)

  /** What a successful login signs into the session token. */
  datatype SessionClaims = SessionClaims(userId: AccountId, name: string)

  /**
   * `login`: the schema (both fields non-empty, user first), then the account lookup, then the
   * password check. An unknown account and a wrong password get the same message.
   */
  function Login(form: LoginForm, accounts: map<AccountId, Account>, verify: (string, string) -> bool)
    : (r: Outcome<SessionClaims>)
    ensures r.Ok? <==>
      && form.userId.Some? && form.userId.value != "" && form.password.Some? && form.password.value != ""
      && form.userId.value in accounts && verify(form.password.value, accounts[form.userId.value].passwordHash)
    ensures r.Ok? ==> r.value == SessionClaims(form.userId.value, accounts[form.userId.value].name)
  {
    var userIssue := MinLengthIssue("userId", form.userId, 1, ChooseUser);
    var passwordIssue := MinLengthIssue("password", form.password, 1, EnterPassword);
    if userIssue.Some? then Err(userIssue.value)
    else if passwordIssue.Some? then Err(passwordIssue.value)
    else if form.userId.value !in accounts then Err(Says(BadCredentials))
    else
      var account := accounts[form.userId.value];
      if !verify(form.password.value, account.passwordHash) then Err(Says(BadCredentials))
      else Ok(SessionClaims(form.userId.value, account.name))
  }

  /** A filled-in form is refused for an unknown account and for a wrong password alike. */
  lemma LoginFailuresLookAlike(userId: string, password: string, accounts: map<AccountId, Account>,
                               verify: (string, string) -> bool)
    requires userId != "" && password != ""
    requires userId !in accounts || !verify(password, accounts[userId].passwordHash)
    ensures Login(LoginForm(Some(userId), Some(password)), accounts, verify) == Err(Says(BadCredentials))
  {
  }

  /** An empty user is reported before an empty password. */
  lemma LoginUserCheckedFirst(password: Option<string>, accounts: map<AccountId, Account>, verify: (string, string) -> bool)
    ensures Login(LoginForm(Some(""), password), accounts, verify) == Err(Says(ChooseUser))
  {
  }

  /** The signed-in account as `getCurrentUser` selects it. */
  datatype CurrentUser = CurrentUser(id: AccountId, name: string)

  /** `getCurrentUser`: nothing without a session; otherwise the session's account, if it still exists. */
  function GetCurrentUser(session: Option<AccountId>, accounts: map<AccountId, Account>): (r: Option<CurrentUser>)
    ensures r.Some? <==> session.Some? && session.value in accounts
    ensures r.Some? ==> r.value == CurrentUser(session.value, accounts[session.value].name)
  {
    if session.None? then None
    else if session.value !in accounts then None
    else Some(CurrentUser(session.value, accounts[session.value].name))
  }

  /** The fields the profile form posts; `None` for a field that is absent. */
  datatype ProfileForm = ProfileForm(name: Option<string>, currentPassword: Option<string>, newPassword: Option<string>)

  /** Is `name` held by an account other than `me`, in any group? */
  predicate NameHeldByOther(accounts: map<AccountId, Account>, me: AccountId, name: string) {
    exists id :: id in accounts && id != me && accounts[id].name == name
  }

  /**
   * What `updateProfile` decides: the caller's new account row, or the first failing check in the
   * order session, name schema, name free, then (with a new password) current password given, new
   * password long enough, account exists, current password right. Without a new password the
   * update of a missing account is refused by the database.
   */
  function UpdateProfileOutcome(session: Option<AccountId>, form: ProfileForm, accounts: map<AccountId, Account>,
                                verify: (string, string) -> bool, hash: string -> string)
    : (r: Outcome<Account>)
    ensures session.None? ==> r == Err(Says(LoginRequired))
    ensures r.Ok? <==>
      && session.Some? && form.name.Some? && 1 <= JsLength(form.name.value) <= MaxNameLength
      && !NameHeldByOther(accounts, session.value, form.name.value)
      && session.value in accounts
      && (NonEmpty(form.newPassword).Some? ==>
            && NonEmpty(form.currentPassword).Some?
            && JsLength(form.newPassword.value) >= MinPasswordLength
            && verify(form.currentPassword.value, accounts[session.value].passwordHash))
    ensures r.Ok? ==> r.value == accounts[session.value].(
      name := form.name.value,
      passwordHash := if NonEmpty(form.newPassword).Some? then hash(form.newPassword.value)
                      else accounts[session.value].passwordHash)
    ensures (session.Some? && form.name.Some? && 1 <= JsLength(form.name.value) <= MaxNameLength
             && NameHeldByOther(accounts, session.value, form.name.value)) ==> r == Err(Says(NameInUse))
  {
    if session.None? then Err(Says(LoginRequired))
    else
      var nameIssue := LengthIssue("name", form.name, 1, EnterName, MaxNameLength, NameTooLong);
      if nameIssue.Some? then Err(nameIssue.value)
      else
        var me, name := session.value, form.name.value;
        var currentPassword, newPassword := NonEmpty(form.currentPassword), NonEmpty(form.newPassword);
        if NameHeldByOther(accounts, me, name) then Err(Says(NameInUse))
        else if newPassword.Some? then
          if currentPassword.None? then Err(Says(EnterCurrentPassword))
          else if JsLength(newPassword.value) < MinPasswordLength then Err(Says(NewPasswordTooShort))
          else if me !in accounts then Err(Says(AccountNotFound))
          else if !verify(currentPassword.value, accounts[me].passwordHash) then Err(Says(WrongCurrentPassword))
          else Ok(accounts[me].(name := name, passwordHash := hash(newPassword.value)))
        else if me !in accounts then Err(StoreRejected)
        else Ok(accounts[me].(name := name))
  }

  /**
   * `updateProfile`: runs the checks and overwrites the caller's row with the new name and, when a
   * new password was given, its hash. Nothing changes on failure.
   */
  method UpdateProfile(db: Store, session: Option<AccountId>, form: ProfileForm,
                       verify: (string, string) -> bool, hash: string -> string)
    returns (r: Outcome<()>)
    modifies db`accounts
    ensures var decided := UpdateProfileOutcome(session, form, old(db.accounts), verify, hash);
      && (r.Ok? <==> decided.Ok?)
      && (decided.Ok? ==> db.accounts == old(db.accounts)[session.value := decided.value])
      && (decided.Err? ==> r == Err(decided.error) && db.accounts == old(db.accounts))
  {
    if session.None? {
      return Err(Says(LoginRequired));
    }
    var nameIssue := LengthIssue("name", form.name, 1, EnterName, MaxNameLength, NameTooLong);
    if nameIssue.Some? {
      return Err(nameIssue.value);
    }
    var me, name := session.value, form.name.value;
    var currentPassword, newPassword := NonEmpty(form.currentPassword), NonEmpty(form.newPassword);
    if NameHeldByOther(db.accounts, me, name) {
      return Err(Says(NameInUse));
    }
    if newPassword.Some? {
      if currentPassword.None? {
        return Err(Says(EnterCurrentPassword));
      }
      if JsLength(newPassword.value) < MinPasswordLength {
        return Err(Says(NewPasswordTooShort));
      }
      if me !in db.accounts {
        return Err(Says(AccountNotFound));
      }
      if !verify(currentPassword.value, db.accounts[me].passwordHash) {
        return Err(Says(WrongCurrentPassword));
      }
      db.accounts := db.accounts[me := db.accounts[me].(name := name, passwordHash := hash(newPassword.value))];
    } else {
      if me !in db.accounts {
        return Err(StoreRejected);
      }
      db.accounts := db.accounts[me := db.accounts[me].(name := name)];
    }
    r := Ok(());
  }

  /** Keeping one's own name is never a clash: only other accounts' names count. */
  lemma KeepingOwnNameAllowed(me: AccountId, form: ProfileForm, accounts: map<AccountId, Account>,
                              verify: (string, string) -> bool, hash: string -> string)
    requires me in accounts && form.name == Some(accounts[me].name) && 1 <= JsLength(accounts[me].name) <= MaxNameLength
    requires forall id :: id in accounts && id != me ==> accounts[id].name != accounts[me].name
    requires NonEmpty(form.newPassword).None?
    ensures UpdateProfileOutcome(Some(me), form, accounts, verify, hash) == Ok(accounts[me])
  {
  }

  /** An update keeps the caller's group and role; without a new password it keeps the hash too. */
  lemma UpdateProfileKeepsGroupAndRole(session: Option<AccountId>, form: ProfileForm, accounts: map<AccountId, Account>,
                                       verify: (string, string) -> bool, hash: string -> string)
    requires UpdateProfileOutcome(session, form, accounts, verify, hash).Ok?
    ensures var updated := UpdateProfileOutcome(session, form, accounts, verify, hash).value;
      && updated.groupId == accounts[session.value].groupId
      && updated.role == accounts[session.value].role
      && (NonEmpty(form.newPassword).None? ==> updated.passwordHash == accounts[session.value].passwordHash)
  {
  }

  /** After a name change, logging in again with the same password gives the new name. */
  lemma RenamedLoginCarriesNewName(me: AccountId, form: ProfileForm, accounts: map<AccountId, Account>, password: string,
                                   verify: (string, string) -> bool, hash: string -> string)
    requires UpdateProfileOutcome(Some(me), form, accounts, verify, hash).Ok? && NonEmpty(form.newPassword).None?
    requires me != "" && password != "" && verify(password, accounts[me].passwordHash)
    ensures var after := accounts[me := UpdateProfileOutcome(Some(me), form, accounts, verify, hash).value];
      Login(LoginForm(Some(me), Some(password)), after, verify) == Ok(SessionClaims(me, form.name.value))
  {
  }
}
