/** The authentication actions of src/app/actions.ts: input validation,
    the user lookups of signup and login, the choice between refreshing and
    creating the session, isSignedInAction and changePasswordAction.

    Password hashing and comparison (bcrypt) and zod's e-mail test are
    parameters: `hashed` is the hash the action stores, `passwordMatches`
    answers `bcrypt.compare`, `isEmail` answers `z.string().email()`. */
module AuthActions {
  import opened Common
  import opened Db
  import Session

  const InvalidCredentials := "Invalid email or password."
  const EmailTaken := "Email already exists. Please use a different one."
  const UsernameTaken := "Username already exists. Please choose another one."

  /** `parts.join(sep)` */
  function Join(parts: seq<string>, sep: string): string {
    if parts == [] then ""
    else if |parts| == 1 then parts[0]
    else parts[0] + sep + Join(parts[1..], sep)
  }

  /** The messages of loginSchema (actions.ts:84-87), in field order. */
  function LoginSchemaErrors(email: string, password: string, isEmail: string -> bool): seq<string> {
    (if isEmail(email) then [] else ["Invalid email address."])
    + (if |password| >= 6 then [] else ["Password must be at least 6 characters."])
  }

  datatype SignupData = SignupData(email: string, password: string, username: string, firstName: string, lastName: string)

  /** The messages of signupSchema (actions.ts:13-19), in field order. */
  function SignupSchemaErrors(d: SignupData, isEmail: string -> bool): seq<string> {
    (if isEmail(d.email) then [] else ["Invalid email address."])
    + (if |d.password| >= 6 then [] else ["Password must be at least 6 characters."])
    + (if |d.username| >= 3 then [] else ["Username must be at least 3 characters."])
    + (if |d.firstName| >= 1 then [] else ["First name is required."])
    + (if |d.lastName| >= 1 then [] else ["Last name is required."])
  }

  /** `prisma.user.findUnique({ where: { email } })`: the first user with that email. */
  function FindByEmail(users: seq<User>, email: string): (r: Option<User>)
    ensures r.Some? ==> r.value in users && r.value.email == email
    ensures r.None? <==> forall u :: u in users ==> u.email != email
  {
    if users == [] then None
    else if users[0].email == email then Some(users[0])
    else FindByEmail(users[1..], email)
  }

  /** `prisma.user.findFirst({ where: { OR: [{ email }, { username }] } })` */
  function FindFirstClash(users: seq<User>, email: string, username: string): (r: Option<User>)
    ensures r.Some? ==> r.value in users && (r.value.email == email || r.value.username == username)
    ensures r.None? <==> forall u :: u in users ==> u.email != email && u.username != username
  {
    if users == [] then None
    else if users[0].email == email || users[0].username == username then Some(users[0])
    else FindFirstClash(users[1..], email, username)
  }

  datatype LoginOutcome = Rejected(error: string) | Authenticated(user: User)

  /** The checks of loginAction (actions.ts:94-106): an unknown email and a
      wrong password give the same error, so the reply does not reveal which. */
  function Authenticate(users: seq<User>, email: string, password: string,
                        isEmail: string -> bool, passwordMatches: (string, string) -> bool): (o: LoginOutcome)
    ensures LoginSchemaErrors(email, password, isEmail) != [] ==>
              o == Rejected(Join(LoginSchemaErrors(email, password, isEmail), ", "))
    ensures LoginSchemaErrors(email, password, isEmail) == [] ==>
              ((forall u :: u in users ==> u.email != email) ==> o == Rejected(InvalidCredentials))
    ensures o.Authenticated? ==>
              && LoginSchemaErrors(email, password, isEmail) == []
              && o.user in users && o.user.email == email
              && passwordMatches(password, o.user.passwordHash)
    ensures o.Rejected? && LoginSchemaErrors(email, password, isEmail) == [] ==> o.error == InvalidCredentials
    ensures o.Authenticated? <==>
              && LoginSchemaErrors(email, password, isEmail) == []
              && FindByEmail(users, email).Some?
              && passwordMatches(password, FindByEmail(users, email).value.passwordHash)
    ensures o.Authenticated? ==> o.user == FindByEmail(users, email).value
  {
    var errors := LoginSchemaErrors(email, password, isEmail);
    if errors != [] then Rejected(Join(errors, ", "))
    else
      var user := FindByEmail(users, email);
      if user.None? then Rejected(InvalidCredentials)
      else if !passwordMatches(password, user.value.passwordHash) then Rejected(InvalidCredentials)
      else Authenticated(user.value)
  }

  function LoginReply(o: LoginOutcome): ActionResult {
    match o
    case Rejected(e) => FailedWithError(e)
    case Authenticated(_) => Succeeded("Login successful!")
  }

  /** The checks of signupAction before any row is written (actions.ts:29-44);
      None means the signup goes ahead. The email clash is reported first,
      and a found user always clashes on one of the two fields. */
  function SignupCheck(users: seq<User>, d: SignupData, isEmail: string -> bool): (r: Option<string>)
    ensures SignupSchemaErrors(d, isEmail) != [] ==> r == Some(Join(SignupSchemaErrors(d, isEmail), ", "))
    ensures SignupSchemaErrors(d, isEmail) == [] ==>
              match FindFirstClash(users, d.email, d.username)
              case None => r == None
              case Some(u) => r == Some(if u.email == d.email then EmailTaken else UsernameTaken)
    ensures r == None <==> SignupSchemaErrors(d, isEmail) == []
                           && forall u :: u in users ==> u.email != d.email && u.username != d.username
  {
    var errors := SignupSchemaErrors(d, isEmail);
    if errors != [] then Some(Join(errors, ", "))
    else
      var existing := FindFirstClash(users, d.email, d.username);
      if existing.None? then None
      else if existing.value.email == d.email then Some(EmailTaken)
      else if existing.value.username == d.username then Some(UsernameTaken)
      else None
  }

  /** The cookie store after the session branch of signup and login
      (actions.ts:66-73, 108-116): a cookie that still decodes is refreshed
      for the user it already names; otherwise a session is created for `userId`. */
  function SessionAfterSignIn(store: Session.CookieStore, key: string, userId: string, nowMs: nat): (r: Session.CookieStore)
    ensures var held := Session.Decrypt(key, Session.SessionValue(store), nowMs);
            Session.VerifySession(r, key, nowMs)
            == Some(Session.Claims(if held.Some? then held.value.userId else userId,
                                   Session.ExpiresInSeconds(nowMs), nowMs / 1000, Session.ExpiresInSeconds(nowMs)))
  {
    if Session.Decrypt(key, Session.SessionValue(store), nowMs).Some?
    then Session.Updated(store, key, nowMs)
    else Session.Created(store, key, userId, nowMs)
  }

  /** Signing in as one user while holding another user's live session
      leaves the browser signed in as the other user. */
  lemma SignInKeepsHeldSession(store: Session.CookieStore, key: string, holder: string, t0: nat,
                               userId: string, nowMs: nat)
    requires Session.SessionValue(store) == Some(Session.IssuedCookie(key, holder, t0).value)
    requires nowMs / 1000 < Session.ExpiresInSeconds(t0)
    ensures Session.VerifySession(SessionAfterSignIn(store, key, userId, nowMs), key, nowMs).value.userId == holder
  {
  }

  method EstablishSession(sm: Session.SessionManager, userId: string, nowMs: nat)
    modifies sm
    ensures sm.cookies == SessionAfterSignIn(old(sm.cookies), sm.key, userId, nowMs)
  {
    var session := Session.Decrypt(sm.key, Session.SessionValue(sm.cookies), nowMs);
    if session.Some? {
      var _ := sm.UpdateSession(nowMs);
    } else {
      sm.CreateSession(userId, nowMs);
    }
  }

  /** loginAction (actions.ts:91-124), leaving out database failures. */
  method LoginAction(db: Database, sm: Session.SessionManager, email: string, password: string,
                     isEmail: string -> bool, passwordMatches: (string, string) -> bool, nowMs: nat)
    returns (result: ActionResult)
    modifies sm
    ensures result.ok <==>
              && LoginSchemaErrors(email, password, isEmail) == []
              && FindByEmail(db.users, email).Some?
              && passwordMatches(password, FindByEmail(db.users, email).value.passwordHash)
    ensures result.ok ==>
              sm.cookies == SessionAfterSignIn(old(sm.cookies), sm.key, FindByEmail(db.users, email).value.id, nowMs)
    ensures !result.ok ==> result.error == Some(InvalidCredentials) || LoginSchemaErrors(email, password, isEmail) != []
    ensures var o := Authenticate(db.users, email, password, isEmail, passwordMatches);
            && result == LoginReply(o)
            && sm.cookies == if o.Rejected? then old(sm.cookies)
                             else SessionAfterSignIn(old(sm.cookies), sm.key, o.user.id, nowMs)
  {
    var errors := LoginSchemaErrors(email, password, isEmail);
    if errors != [] {
      return FailedWithError(Join(errors, ", "));
    }
    var user := FindByEmail(db.users, email);
    if user.None? {
      return FailedWithError(InvalidCredentials);
    }
    if !passwordMatches(password, user.value.passwordHash) {
      return FailedWithError(InvalidCredentials);
    }
    EstablishSession(sm, user.value.id, nowMs);
    result := Succeeded("Login successful!");
  }

  /** signupAction (actions.ts:21-82): `newId` is the id the database gives
      the new user and `hashed` the bcrypt hash of the password. */
  method SignupAction(db: Database, sm: Session.SessionManager, d: SignupData, isEmail: string -> bool,
                      newId: string, hashed: string, nowMs: nat)
    returns (result: ActionResult)
    modifies db, sm
    ensures var check := SignupCheck(old(db.users), d, isEmail);
            && (check.Some? ==> result == FailedWithError(check.value)
                                && db.users == old(db.users) && db.portfolios == old(db.portfolios)
                                && sm.cookies == old(sm.cookies))
            && (check.None? ==> result == Succeeded("Signup successful!")
                                && db.users == old(db.users) + [User(newId, d.email, d.username, hashed, d.firstName, d.lastName)]
                                && db.portfolios == old(db.portfolios) + [newId]
                                && sm.cookies == SessionAfterSignIn(old(sm.cookies), sm.key, newId, nowMs))
    ensures unchanged(db`posts, db`otps, db`sessionRows)
  {
    var errors := SignupSchemaErrors(d, isEmail);
    if errors != [] {
      return FailedWithError(Join(errors, ", "));
    }
    var existing := FindFirstClash(db.users, d.email, d.username);
    if existing.Some? {
      if existing.value.email == d.email {
        return FailedWithError(EmailTaken);
      }
      if existing.value.username == d.username {
        return FailedWithError(UsernameTaken);
      }
    }
    db.users := db.users + [User(newId, d.email, d.username, hashed, d.firstName, d.lastName)];
    db.portfolios := db.portfolios + [newId];
    EstablishSession(sm, newId, nowMs);
    result := Succeeded("Signup successful!");
  }

  datatype SignedIn = SignedIn(userId: string) | SignedOut

  /** isSignedInAction (actions.ts:128-134) */
  function IsSignedIn(store: Session.CookieStore, key: string, nowMs: nat): (r: SignedIn)
    ensures r.SignedIn? <==> Session.VerifySession(store, key, nowMs).Some?
    ensures r.SignedIn? ==> r.userId == Session.VerifySession(store, key, nowMs).value.userId
  {
    var payload := Session.VerifySession(store, key, nowMs);
    if payload.Some? then SignedIn(payload.value.userId) else SignedOut
  }

  /** Every user with `email` gets the new password hash; no one else changes. */
  function WithPassword(users: seq<User>, email: string, hashed: string): (r: seq<User>)
    ensures |r| == |users|
    ensures forall i :: 0 <= i < |users| ==>
              r[i] == if users[i].email == email then users[i].(passwordHash := hashed) else users[i]
  {
    if users == [] then [] else
      [if users[0].email == email then users[0].(passwordHash := hashed) else users[0]]
      + WithPassword(users[1..], email, hashed)
  }

  /** `deleteMany({ where: { userId } })` on the session table. */
  function WithoutOwner(rows: seq<string>, userId: string): (r: seq<string>)
    ensures userId !in r
    ensures forall x :: x in rows && x != userId ==> x in r
    ensures forall x :: x in r ==> x in rows
    ensures multiset(r) == multiset(rows)[userId := 0]
  {
    if rows == [] then []
    else
      assert rows == [rows[0]] + rows[1..];
      (if rows[0] == userId then [] else [rows[0]]) + WithoutOwner(rows[1..], userId)
  }

  /** The rows that remain keep their relative order: deleting from a
      concatenation deletes from each part in place. */
  lemma {:induction false} WithoutOwnerKeepsOrder(a: seq<string>, b: seq<string>, userId: string)
    ensures WithoutOwner(a + b, userId) == WithoutOwner(a, userId) + WithoutOwner(b, userId)
  {
    if a != [] {
      assert (a + b)[1..] == a[1..] + b;
      WithoutOwnerKeepsOrder(a[1..], b, userId);
    } else {
      assert a + b == b;
    }
  }

  /** changePasswordAction (actions.ts:610-630) */
  method ChangePasswordAction(db: Database, sm: Session.SessionManager, email: string, hashed: string)
    returns (result: ActionResult)
    modifies db, sm
    ensures FindByEmail(old(db.users), email).None? ==>
              result == FailedWithMessage("User not found!")
              && db.users == old(db.users) && db.sessionRows == old(db.sessionRows) && sm.cookies == old(sm.cookies)
    ensures FindByEmail(old(db.users), email).Some? ==>
              result == Succeeded("Password updated successfully!")
              && db.users == WithPassword(old(db.users), email, hashed)
              && db.sessionRows == WithoutOwner(old(db.sessionRows), FindByEmail(old(db.users), email).value.id)
              && sm.cookies == Session.Deleted(old(sm.cookies))
    ensures unchanged(db`posts, db`otps, db`portfolios)
  {
    var user := FindByEmail(db.users, email);
    if user.None? {
      return FailedWithMessage("User not found!");
    }
    var users, rows := WithPassword(db.users, email, hashed), WithoutOwner(db.sessionRows, user.value.id);
    db.users, db.sessionRows := users, rows;
    sm.DeleteSession();
    assert db.users == users && db.sessionRows == rows;
    result := Succeeded("Password updated successfully!");
  }
}
