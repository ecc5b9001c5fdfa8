/** Registration, login and the email check (user_auth_app/api/serializers.py).

    Hashing a password and checking one against a stored hash belong to the framework's password
    hashers; they are parameters here (`hash`, `check`). */
module AuthSerializers {
  import opened Text
  import opened Entities
  import opened Store

  const PasswordsMismatchMessage := "Passwords do not match"
  const EmailTakenMessage := "This email is already taken"
  const InvalidCredentialsMessage := "Invalid email or password."
  const MissingCredentialsMessage := "Must include 'email' and 'password'."
  const EmailRequiredMessage := "Email is required"
  const NoUserWithEmailMessage := "No user with this email found"

  // ---- The user table ----

  function Usernames(users: map<UserId, User>): (r: set<string>)
    ensures forall u :: u in users ==> users[u].username in r
    ensures forall s :: s in r ==> exists u :: u in users && users[u].username == s
  {
    set u | u in users :: users[u].username
  }

  predicate EmailTaken(users: map<UserId, User>, email: string) {
    exists u :: u in users && users[u].email == email
  }

  /** The unique constraint of the username column. */
  ghost predicate UniqueUsernames(users: map<UserId, User>) {
    forall a, b :: a in users && b in users && users[a].username == users[b].username ==> a == b
  }

  /** No two accounts share an email: the column has no such constraint, registration keeps it. */
  ghost predicate UniqueEmails(users: map<UserId, User>) {
    forall a, b :: a in users && b in users && users[a].email == users[b].email ==> a == b
  }

  function UsersWithEmail(users: map<UserId, User>, email: string): set<UserId> {
    set u | u in users && users[u].email == email
  }

  function UsersWithUsername(users: map<UserId, User>, username: string): set<UserId> {
    set u | u in users && users[u].username == username
  }

  // ---- Registration ----

  /** The validated registration fields. */
  datatype RegistrationData = RegistrationData(fullname: string, email: string, password: string, repeatedPassword: string)

  /** The refusals of `RegistrationSerializer.save()`, in its order: the password confirmation is
      checked before the email. */
  function RegistrationError(users: map<UserId, User>, data: RegistrationData): (e: Option<string>)
    ensures data.password != data.repeatedPassword ==> e == Some(PasswordsMismatchMessage)
    ensures data.password == data.repeatedPassword ==> (e == Some(EmailTakenMessage) <==> EmailTaken(users, data.email))
    ensures e == None <==> data.password == data.repeatedPassword && !EmailTaken(users, data.email)
  {
    if data.password != data.repeatedPassword then Some(PasswordsMismatchMessage)
    else if EmailTaken(users, data.email) then Some(EmailTakenMessage)
    else None
  }

  /** `fullname.strip().replace(" ", "").lower()` */
  function BaseUsername(fullname: string): (r: string)
    ensures ' ' !in r
    ensures forall i :: 0 <= i < |r| ==> !IsUpper(r[i])
    ensures |r| <= |fullname|
    // A name that is already stripped, space-free and lower-case is its own base.
    ensures (Strip(fullname) == fullname && ' ' !in fullname
             && forall i :: 0 <= i < |fullname| ==> !IsUpper(fullname[i]))
            ==> r == fullname
  {
    var squeezed := RemoveSpaces(Strip(fullname));
    var r := Lower(squeezed);
    assert ' ' !in r by {
      forall i | 0 <= i < |r| ensures r[i] != ' ' {
        assert squeezed[i] in squeezed;
      }
    }
    r
  }

  /** A full name of two words joined by one space, with whitespace around, gives the two words
      lowered and glued together ("Ann Lee" gives "annlee"). */
  lemma NameBase(before: string, first: string, last: string, after: string)
    requires AllSpace(before) && AllSpace(after)
    requires first != [] && last != [] && NoSpace(first) && NoSpace(last)
    ensures BaseUsername(before + first + " " + last + after) == Lower(first) + Lower(last)
  {
    var name := first + " " + last;
    assert before + first + " " + last + after == before + name + after;
    assert name[0] == first[0] && name[|name| - 1] == last[|last| - 1];
    StripPadded(before, name, after);
    SpaceFreeWords(first, last);
    LowerAppend(first, last);
  }

  /** Removing the one space between two space-free words glues them together. */
  lemma SpaceFreeWords(first: string, last: string)
    requires NoSpace(first) && NoSpace(last)
    ensures RemoveSpaces(first + " " + last) == first + last
  {
    assert ' ' !in first && ' ' !in last by {
      assert IsSpace(' ');
    }
    RemoveSpacesAppend(first + " ", last);
    RemoveSpacesAppend(first, " ");
  }

  /** A one-word full name with whitespace around gives the word lowered. */
  lemma OneWordNameBase(before: string, word: string, after: string)
    requires AllSpace(before) && AllSpace(after)
    requires word != [] && NoSpace(word)
    ensures BaseUsername(before + word + after) == Lower(word)
  {
    StripPadded(before, word, after);
    assert ' ' !in word by {
      assert IsSpace(' ');
    }
  }

  /** The k-th username the loop tries: the base itself, then the base followed by 1, 2, ... */
  function Attempt(base: string, k: nat): string {
    if k == 0 then base else base + Decimal(k)
  }

  /** Different attempts are different usernames. */
  lemma AttemptInjective(base: string, a: nat, b: nat)
    requires Attempt(base, a) == Attempt(base, b)
    ensures a == b
  {
    if a != 0 && b != 0 {
      assert (base + Decimal(a))[|base|..] == Decimal(a);
      assert (base + Decimal(b))[|base|..] == Decimal(b);
      DecimalInjective(a, b);
    }
  }

  /** `username` is the first attempt that is not taken. */
  ghost predicate IsFirstFreeAttempt(taken: set<string>, base: string, username: string) {
    && username !in taken
    && exists k: nat :: username == Attempt(base, k) && forall j: nat :: j < k ==> Attempt(base, j) in taken
  }

  /** There is at most one first free attempt. */
  lemma FirstFreeAttemptUnique(taken: set<string>, base: string, u1: string, u2: string)
    requires IsFirstFreeAttempt(taken, base, u1) && IsFirstFreeAttempt(taken, base, u2)
    ensures u1 == u2
  {
    var k1: nat :| u1 == Attempt(base, k1) && forall j: nat :: j < k1 ==> Attempt(base, j) in taken;
    var k2: nat :| u2 == Attempt(base, k2) && forall j: nat :: j < k2 ==> Attempt(base, j) in taken;
  }

  /** The username loop of `save()`: try the base, then base1, base2, ... while the name is taken.
      The loop ends because each round tries a name it has not tried before, and only finitely many
      names are taken. */
  method ChooseUsername(taken: set<string>, base: string) returns (username: string)
    ensures IsFirstFreeAttempt(taken, base, username)
    ensures base !in taken ==> username == base
    ensures username !in taken
  {
    username := base;
    var counter: nat := 1;
    ghost var tried: set<string> := {};
    while username in taken
      invariant counter >= 1 && username == Attempt(base, counter - 1)
      invariant tried <= taken
      invariant forall j: nat :: j < counter - 1 ==> Attempt(base, j) in tried
      invariant forall s :: s in tried ==> exists j: nat :: j < counter - 1 && s == Attempt(base, j)
      decreases taken - tried
    {
      assert username !in tried by {
        if username in tried {
          var j: nat :| j < counter - 1 && username == Attempt(base, j);
          AttemptInjective(base, j, counter - 1);
        }
      }
      tried := tried + {username};
      username := base + Decimal(counter);
      counter := counter + 1;
    }
  }

  /** The account `save()` creates: the given email, the chosen username, the full name as first
      name, and the hash of the password in place of the password. */
  function NewAccount(data: RegistrationData, username: string, hash: string -> string): (u: User)
    ensures u.email == data.email && u.username == username && u.firstName == data.fullname
    ensures u.passwordHash == hash(data.password)
    ensures u.isActive && !u.isSuperuser
  {
    User(username, data.email, data.fullname, "", hash(data.password), false, true)
  }

  datatype RegistrationResult = Registered(id: UserId, username: string) | RegistrationRefused(message: string)

  /** The second half of `save()`, once both checks passed: choose the username and add exactly
      one account. */
  method CreateAccount(db: Database, data: RegistrationData, hash: string -> string) returns (id: UserId, username: string)
    requires db.Valid() && UniqueUsernames(db.users) && !EmailTaken(db.users, data.email)
    modifies db`users, db`nextUserId
    ensures db.Valid() && UniqueUsernames(db.users)
    ensures UniqueEmails(old(db.users)) ==> UniqueEmails(db.users)
    ensures id !in old(db.users)
    ensures IsFirstFreeAttempt(Usernames(old(db.users)), BaseUsername(data.fullname), username)
    ensures db.users == old(db.users)[id := NewAccount(data, username, hash)]
  {
    var base := BaseUsername(data.fullname);
    username := ChooseUsername(Usernames(db.users), base);
    var account := NewAccount(data, username, hash);
    ghost var before := db.users;
    id := db.AddUser(account);
    AddAccountKeepsUniqueness(before, id, account);
  }

  /** `RegistrationSerializer.save()`: refuse in the order of `RegistrationError`, otherwise choose
      the username and add exactly one account. Only the user table changes. */
  method Register(db: Database, data: RegistrationData, hash: string -> string) returns (r: RegistrationResult)
    requires db.Valid() && UniqueUsernames(db.users)
    modifies db`users, db`nextUserId
    ensures db.Valid() && UniqueUsernames(db.users)
    ensures UniqueEmails(old(db.users)) ==> UniqueEmails(db.users)
    ensures RegistrationError(old(db.users), data).Some? ==>
              r == RegistrationRefused(RegistrationError(old(db.users), data).value) && db.users == old(db.users)
    ensures RegistrationError(old(db.users), data).None? ==>
              && r.Registered? && r.id !in old(db.users)
              && IsFirstFreeAttempt(Usernames(old(db.users)), BaseUsername(data.fullname), r.username)
              && db.users == old(db.users)[r.id := NewAccount(data, r.username, hash)]
  {
    if data.password != data.repeatedPassword {
      return RegistrationRefused(PasswordsMismatchMessage);
    }
    if EmailTaken(db.users, data.email) {
      return RegistrationRefused(EmailTakenMessage);
    }
    var id, username := CreateAccount(db, data, hash);
    r := Registered(id, username);
  }

  /** An account with a fresh key, a free username and an unused email keeps both columns free
      of duplicates. */
  lemma AddAccountKeepsUniqueness(users: map<UserId, User>, id: UserId, account: User)
    requires id !in users && account.username !in Usernames(users)
    ensures UniqueUsernames(users) ==> UniqueUsernames(users[id := account])
    ensures UniqueEmails(users) && !EmailTaken(users, account.email) ==> UniqueEmails(users[id := account])
  {
    assert forall u :: u in users ==> users[u].username != account.username;
  }

  /** Registering a second time with an email already registered is refused with the email
      message (once the passwords match). */
  lemma SecondRegistrationRefused(users: map<UserId, User>, id: UserId, first: RegistrationData,
                                  username: string, hash: string -> string, second: RegistrationData)
    requires second.email == first.email && second.password == second.repeatedPassword
    ensures RegistrationError(users[id := NewAccount(first, username, hash)], second) == Some(EmailTakenMessage)
  {
    assert users[id := NewAccount(first, username, hash)][id].email == second.email;
  }

  // ---- Login ----

  /** `authenticate(username=..., password=...)` with the model backend: the account with that
      username, if its password checks and it is active. */
  ghost function Authenticate(users: map<UserId, User>, username: string, password: string,
                              check: (string, string) -> bool): (r: Option<UserId>)
    requires UniqueUsernames(users)
    ensures r.Some? ==> r.value in users && users[r.value].username == username
                        && check(users[r.value].passwordHash, password) && users[r.value].isActive
    ensures forall u :: UsersWithUsername(users, username) == {u} ==>
              (r == Some(u) <==> check(users[u].passwordHash, password) && users[u].isActive)
    ensures UsersWithUsername(users, username) == {} ==> r == None
  {
    var found := UsersWithUsername(users, username);
    if found == {} then None
    else
      var u :| u in found;
      if check(users[u].passwordHash, password) && users[u].isActive then Some(u) else None
  }

  /** What `EmailAuthTokenSerializer.validate` ends in: the user attached to the validated data,
      a validation error, or the lookup failure when several accounts share the email. */
  datatype LoginResult = LoggedIn(user: UserId) | LoginRefused(message: string) | SeveralAccountsWithEmail

  /** Python truthiness of an optional string: present and non-empty. */
  predicate Given(s: Option<string>) {
    s.Some? && s.value != ""
  }

  /** `EmailAuthTokenSerializer.validate(attrs)`. An unknown email and a wrong password give the
      same message. */
  ghost function ValidateLogin(users: map<UserId, User>, email: Option<string>, password: Option<string>,
                               check: (string, string) -> bool): (r: LoginResult)
    requires UniqueUsernames(users)
    ensures !(Given(email) && Given(password)) ==> r == LoginRefused(MissingCredentialsMessage)
    ensures Given(email) && Given(password) && UsersWithEmail(users, email.value) == {} ==>
              r == LoginRefused(InvalidCredentialsMessage)
    ensures r == SeveralAccountsWithEmail <==>
              Given(email) && Given(password) && |UsersWithEmail(users, email.value)| > 1
    ensures r.LoggedIn? ==>
              && Given(email) && Given(password) && UsersWithEmail(users, email.value) == {r.user}
              && check(users[r.user].passwordHash, password.value) && users[r.user].isActive
    ensures r.LoginRefused? ==> r.message in {MissingCredentialsMessage, InvalidCredentialsMessage}
    // The one account with the email is attached exactly when its password checks and it is
    // active; otherwise the answer is the same message as for an unknown email.
    ensures forall u :: Given(email) && Given(password) && UsersWithEmail(users, email.value) == {u} ==>
              r == (if check(users[u].passwordHash, password.value) && users[u].isActive
                    then LoggedIn(u) else LoginRefused(InvalidCredentialsMessage))
  {
    if !(Given(email) && Given(password)) then LoginRefused(MissingCredentialsMessage)
    else
      var found := UsersWithEmail(users, email.value);
      if found == {} then LoginRefused(InvalidCredentialsMessage)
      else if |found| > 1 then SeveralAccountsWithEmail
      else
        var u :| u in found;
        assert found == {u} by { OnlyElement(found, u); }
        match Authenticate(users, users[u].username, password.value, check)
        case None => LoginRefused(InvalidCredentialsMessage)
        case Some(v) => LoggedIn(v)
  }

  /** While emails are unique, login never reaches the several-accounts failure. */
  lemma UniqueEmailsLoginNeverAmbiguous(users: map<UserId, User>, email: Option<string>,
                                        password: Option<string>, check: (string, string) -> bool)
    requires UniqueUsernames(users) && UniqueEmails(users)
    ensures ValidateLogin(users, email, password, check) != SeveralAccountsWithEmail
  {
    if Given(email) && Given(password) {
      var found := UsersWithEmail(users, email.value);
      if found != {} {
        var u :| u in found;
        assert found == {u};
      }
    }
  }

  /** Whoever has just registered can log in with the same email and password, given that the
      hasher's check accepts the password against its own hash. */
  lemma RegisteredUserCanLogIn(users: map<UserId, User>, id: UserId, data: RegistrationData, username: string,
                               hash: string -> string, check: (string, string) -> bool)
    requires UniqueUsernames(users) && id !in users
    requires RegistrationError(users, data) == None && username !in Usernames(users)
    requires data.email != "" && data.password != ""
    requires check(hash(data.password), data.password)
    ensures UniqueUsernames(users[id := NewAccount(data, username, hash)])
    ensures ValidateLogin(users[id := NewAccount(data, username, hash)], Some(data.email), Some(data.password), check)
            == LoggedIn(id)
  {
    var after := users[id := NewAccount(data, username, hash)];
    assert forall u :: u in users ==> users[u].username != username && users[u].email != data.email;
    assert UsersWithEmail(after, data.email) == {id};
    assert UsersWithUsername(after, username) == {id};
  }

  // ---- Email check ----

  datatype EmailCheckResponse =
    | EmailRequired
    | NoUserWithEmail
    | SeveralUsersWithEmail
    | UserFound(id: UserId, email: string, fullname: string)

  /** `EmailCheckView.post(request)` with `request.data.get('email')`: 400 without an email, 404
      for an unknown one, otherwise the account's key and email, with its username as `fullname`. */
  ghost function EmailCheck(users: map<UserId, User>, email: Option<string>): (r: EmailCheckResponse)
    ensures !Given(email) ==> r == EmailRequired
    ensures Given(email) && UsersWithEmail(users, email.value) == {} ==> r == NoUserWithEmail
    ensures r == SeveralUsersWithEmail <==> Given(email) && |UsersWithEmail(users, email.value)| > 1
    ensures r.UserFound? ==>
              && Given(email) && UsersWithEmail(users, email.value) == {r.id}
              && r.email == email.value && r.fullname == users[r.id].username
    ensures forall u :: Given(email) && UsersWithEmail(users, email.value) == {u} ==>
              r == UserFound(u, email.value, users[u].username)
  {
    if !Given(email) then EmailRequired
    else
      var found := UsersWithEmail(users, email.value);
      if found == {} then NoUserWithEmail
      else if |found| > 1 then SeveralUsersWithEmail
      else
        var u :| u in found;
        assert found == {u} by { OnlyElement(found, u); }
        UserFound(u, users[u].email, users[u].username)
  }
}
