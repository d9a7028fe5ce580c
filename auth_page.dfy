/** src/app/components/AuthPage.tsx: login and signup against the accounts
    kept in local storage under 'ritmo_users', an object keyed by the
    lower-cased, trimmed user name. The parsed object is a parameter here
    and the updated one a result; the clock reading for `createdAt` is a
    parameter. */
module AuthPage {
  import opened Wrappers
  import opened Text
  import opened Sequences

  datatype Account = Account(name: string, email: string, password: string, createdAt: string)

  type Users = map<string, Account>

  datatype AuthError = MissingFields | MissingEmail | UserNotFound | WrongPassword | NameTaken {
    function Message(): string {
      match this
      case MissingFields => "Por favor, preencha todos os campos obrigatórios"
      case MissingEmail => "Por favor, preencha o email para cadastro"
      case UserNotFound => "Usuário não encontrado"
      case WrongPassword => "Senha incorreta"
      case NameTaken => "Este nome já está em uso. Escolha outro nome."
    }
  }

  /** The form's outcome: an error shown on the form, or `onAuth` called
      with the account key and the name to greet. */
  datatype Outcome = Rejected(error: AuthError) | SignedIn(userId: string, userName: string)

  datatype SubmitResult = SubmitResult(outcome: Outcome, users: Users)

  /** `name.toLowerCase().trim()` */
  function AccountKey(name: string): string {
    Trim(ToLower(name))
  }

  /** The lower-case names every object made by `JSON.parse` inherits from
      `Object.prototype`: `users[key]` is truthy for them although no
      account was stored there. The other inherited names all hold an
      upper-case letter, so no account key can reach them. */
  const Inherited: set<string> := {"constructor", "__proto__"}

  /** `users[key]` is truthy: an own account, or an inherited member. */
  predicate Taken(users: Users, key: string) {
    key in users || key in Inherited
  }

  /** `handleSubmit` in login mode (`isLogin`) or signup mode. An inherited
      member has no `password`, so login under its key always reports a
      wrong password. */
  function Submit(isLogin: bool, name: string, email: string, password: string, users: Users, now: string): SubmitResult {
    if name == "" || password == "" then SubmitResult(Rejected(MissingFields), users)
    else if !isLogin && email == "" then SubmitResult(Rejected(MissingEmail), users)
    else
      var key := AccountKey(name);
      if isLogin then
        if !Taken(users, key) then SubmitResult(Rejected(UserNotFound), users)
        else if key !in users || users[key].password != password then SubmitResult(Rejected(WrongPassword), users)
        else SubmitResult(SignedIn(key, users[key].name), users)
      else
        if Taken(users, key) then SubmitResult(Rejected(NameTaken), users)
        else SubmitResult(SignedIn(key, Trim(name)), users[key := Account(Trim(name), Trim(email), password, now)])
  }

  /** A missing name or password is refused first, then (for signup) a
      missing email; the accounts are untouched in both cases. */
  lemma MissingFieldsRefused(isLogin: bool, name: string, email: string, password: string, users: Users, now: string)
    ensures var r := Submit(isLogin, name, email, password, users, now);
      (name == "" || password == "" ==> r == SubmitResult(Rejected(MissingFields), users)) &&
      (name != "" && password != "" && !isLogin && email == "" ==> r == SubmitResult(Rejected(MissingEmail), users))
  {
  }

  /** Login never writes the accounts. It reports "not found" for a key
      that is neither stored nor inherited, "wrong password" for an
      inherited key or a different stored password, and otherwise signs in
      under the key with the stored name. */
  lemma LoginReadsOnly(name: string, password: string, users: Users, now: string)
    requires name != "" && password != ""
    ensures var r := Submit(true, name, "", password, users, now);
      var key := AccountKey(name);
      r.users == users &&
      (key !in users && key !in Inherited ==> r.outcome == Rejected(UserNotFound)) &&
      (key !in users && key in Inherited ==> r.outcome == Rejected(WrongPassword)) &&
      (key in users && users[key].password != password ==> r.outcome == Rejected(WrongPassword)) &&
      (key in users && users[key].password == password ==> r.outcome == SignedIn(key, users[key].name))
  {
  }

  /** Signup under a taken key (stored or inherited) changes nothing;
      otherwise it adds exactly
      one account at the key, with trimmed name and email and the password
      as typed, and signs in with the trimmed name. */
  lemma SignupAddsOne(name: string, email: string, password: string, users: Users, now: string)
    requires name != "" && password != "" && email != ""
    ensures var r := Submit(false, name, email, password, users, now);
      var key := AccountKey(name);
      (key in users || key in Inherited ==> r == SubmitResult(Rejected(NameTaken), users)) &&
      (key !in users && key !in Inherited ==>
        r.outcome == SignedIn(key, Trim(name)) &&
        r.users.Keys == users.Keys + {key} &&
        r.users[key] == Account(Trim(name), Trim(email), password, now) &&
        forall k :: k in users ==> r.users[k] == users[k])
  {
    var key := AccountKey(name);
    if !Taken(users, key) {
      AddAt(users, key, Account(Trim(name), Trim(email), password, now));
    }
  }

  /** Names that differ only in letter case or in surrounding white space
      reach the same account. */
  lemma KeyIgnoresCaseAndPadding(name: string, w1: string, w2: string)
    requires AllSpace(w1) && AllSpace(w2)
    ensures AccountKey(w1 + name + w2) == AccountKey(name)
    ensures AccountKey(ToLower(name)) == AccountKey(name)
  {
    ToLowerAppend(w1 + name, w2);
    ToLowerAppend(w1, name);
    ToLowerKeepsSpace(w1);
    ToLowerKeepsSpace(w2);
    TrimIgnoresPadding(w1, ToLower(name), w2);
    ToLowerIdempotent(name);
  }

  /** The key is the trimmed name in lower case. */
  lemma KeyIsLoweredTrim(name: string)
    ensures AccountKey(name) == ToLower(Trim(name))
  {
    TrimLowerCommute(name);
  }

  /** A name whose key is an inherited member, such as "Constructor", can
      neither sign up nor log in. */
  lemma InheritedNamesLocked(name: string, password: string, email: string, users: Users, now: string)
    requires name != "" && password != "" && email != ""
    requires AccountKey(name) in Inherited && AccountKey(name) !in users
    ensures Submit(false, name, email, password, users, now) == SubmitResult(Rejected(NameTaken), users)
    ensures Submit(true, name, "", password, users, now) == SubmitResult(Rejected(WrongPassword), users)
  {
  }

  lemma ConstructorIsInherited()
    ensures AccountKey("Constructor") == "constructor" && "constructor" in Inherited
  {
    var lowered := ToLower("Constructor");
    assert LowerChar('C') == 'c';
    assert forall i :: 0 <= i < |lowered| ==> lowered[i] == "constructor"[i];
    assert lowered == "constructor";
    TrimKeepsCore("constructor");
  }

  /** After signing up, logging in with the same password and any variant
      of the name that has the same key succeeds, with the trimmed name. */
  lemma SignupThenLogin(name: string, email: string, password: string, users: Users, now: string, variant: string)
    requires name != "" && password != "" && email != "" && variant != ""
    requires !Taken(users, AccountKey(name))
    requires AccountKey(variant) == AccountKey(name)
    ensures var after := Submit(false, name, email, password, users, now).users;
      Submit(true, variant, "", password, after, now).outcome == SignedIn(AccountKey(name), Trim(name))
  {
    var key := AccountKey(name);
    var after := Submit(false, name, email, password, users, now).users;
    assert after == users[key := Account(Trim(name), Trim(email), password, now)];
    assert key in after && after[key].password == password && after[key].name == Trim(name);
  }

  /** The emptiness check looks at the name as typed, so a name of spaces
      passes it, and signup then creates the account with the empty key. */
  lemma BlankNameGetsEmptyKey(name: string, email: string, password: string, users: Users, now: string)
    requires name != "" && AllSpace(name) && password != "" && email != ""
    requires "" !in users
    ensures AccountKey(name) == ""
    ensures Submit(false, name, email, password, users, now).outcome == SignedIn("", "")
  {
    ToLowerKeepsSpace(name);
    assert TrimStart(name) == [];
  }

  /** The form's state. */
  class AuthForm {
    var isLogin: bool
    var name: string
    var email: string
    var password: string
    var error: string

    constructor ()
      ensures isLogin && name == "" && email == "" && password == "" && error == ""
    {
      isLogin := true;
      name := "";
      email := "";
      password := "";
      error := "";
    }

    /** Typing in the three fields. */
    method SetFields(name: string, email: string, password: string)
      modifies this
      ensures this.name == name && this.email == email && this.password == password
      ensures isLogin == old(isLogin) && error == old(error)
    {
      this.name := name;
      this.email := email;
      this.password := password;
    }

    /** Submitting the form. In signup mode the email field has type
      "email", so the browser refuses to submit a non-empty address it
      judges malformed (`emailAccepted` is that judgement) and
      `handleSubmit` does not run. Otherwise `handleSubmit` shows the
      error, or clears it and hands back the key and name for `onAuth`, and
      returns the accounts to store. */
    method HandleSubmit(users: Users, now: string, emailAccepted: bool) returns (after: Users, signedIn: Option<(string, string)>)
      modifies this
      ensures !isLogin && email != "" && !emailAccepted ==>
        after == users && signedIn == None && error == old(error)
      ensures !(!isLogin && email != "" && !emailAccepted) ==>
        var r := Submit(isLogin, name, email, password, users, now);
        after == r.users &&
        (r.outcome.Rejected? ==> error == r.outcome.error.Message() && signedIn == None) &&
        (r.outcome.SignedIn? ==> error == "" && signedIn == Some((r.outcome.userId, r.outcome.userName)))
      ensures isLogin == old(isLogin) && name == old(name) && email == old(email) && password == old(password)
    {
      if !isLogin && email != "" && !emailAccepted {
        return users, None;
      }
      error := "";
      var r := Submit(isLogin, name, email, password, users, now);
      after := r.users;
      match r.outcome
      case Rejected(e) =>
        error := e.Message();
        signedIn := None;
      case SignedIn(key, userName) =>
        signedIn := Some((key, userName));
    }

    /** The mode toggle: switches mode and clears the error and the email. */
    method ToggleMode()
      modifies this
      ensures isLogin == !old(isLogin) && error == "" && email == ""
      ensures name == old(name) && password == old(password)
    {
      isLogin := !isLogin;
      error := "";
      email := "";
    }
  }
}
