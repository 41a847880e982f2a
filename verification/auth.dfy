/**
  The signup and login routes. The password hash, the password comparison
  and the token signer belong to a helper module outside this model and are
  parameters: `hash` yields `None` where hashing throws, `compare` says
  whether a password matches a stored hash, `token` signs a user row, and
  `compare` and `token` too yield `None` where they throw.
  A request body that is not JSON is `None`: the routes catch that throw
  and answer 500.
 */
module Auth {
  import opened Common
  import opened Users

  /** The two body fields, each `None` when absent or null. */
  datatype Credentials = Credentials(username: Option<string>, password: Option<string>)

  datatype Reply = Reply(status: int, message: string)

  const RequiredMessage := "Username and password are required"
  const ShortPasswordMessage := "Password must be at least 6 characters long"
  const ExistsMessage := "User already exists"
  const CreatedMessage := "User Created"
  const ServerErrorMessage := "Internal server error"
  const InvalidCredentialsMessage := "Invalid credentials"
  const LoginMessage := "Login successful"

  const MinPasswordLength := 6

  /** Both fields are present and truthy. */
  predicate Complete(c: Credentials) {
    Present(c.username) && Present(c.password)
  }

  datatype SignedUp = SignedUp(reply: Reply, users: Table)

  /**
    POST /api/auth/signup. The checks run in order: presence, length,
    existing name, then hashing and the insert.
   */
  function Signup(users: Table, body: Option<Credentials>, hash: string -> Option<string>): (r: SignedUp)
    ensures r.reply == Reply(400, RequiredMessage) <==> body.Some? && !Complete(body.value)
    ensures r.reply == Reply(400, ShortPasswordMessage) <==>
      body.Some? && Complete(body.value) && |body.value.password.value| < MinPasswordLength
    ensures r.reply == Reply(409, ExistsMessage) <==>
      && body.Some? && Complete(body.value) && |body.value.password.value| >= MinPasswordLength
      && Find(users, body.value.username.value).Some?
    ensures r.reply == Reply(500, ServerErrorMessage) <==>
      || body.None?
      || (&& Complete(body.value) && |body.value.password.value| >= MinPasswordLength
          && Find(users, body.value.username.value).None?
          && hash(body.value.password.value).None?)
    ensures r.reply.status == 201 <==>
      && body.Some? && Complete(body.value) && |body.value.password.value| >= MinPasswordLength
      && Find(users, body.value.username.value).None?
      && hash(body.value.password.value).Some?
    ensures r.reply.status == 201 ==>
      && r.reply.message == CreatedMessage
      && r.users == users + [UserRow(body.value.username.value, hash(body.value.password.value).value, InitialBalance, [])]
    ensures r.reply.status != 201 ==> r.users == users
  {
    match body
    case None => SignedUp(Reply(500, ServerErrorMessage), users)
    case Some(c) =>
      if !Complete(c) then SignedUp(Reply(400, RequiredMessage), users)
      else if |c.password.value| < MinPasswordLength then SignedUp(Reply(400, ShortPasswordMessage), users)
      else if Find(users, c.username.value).Some? then SignedUp(Reply(409, ExistsMessage), users)
      else match hash(c.password.value)
        case None => SignedUp(Reply(500, ServerErrorMessage), users)
        case Some(h) => SignedUp(Reply(201, CreatedMessage), users + [UserRow(c.username.value, h, InitialBalance, [])])
  }

  /** Signup keeps usernames unique: it inserts only a name the table does not hold. */
  lemma SignupPreservesUnique(users: Table, body: Option<Credentials>, hash: string -> Option<string>)
    requires Unique(users)
    ensures Unique(Signup(users, body, hash).users)
  {
    var r := Signup(users, body, hash);
    if r.reply.status == 201 {
      AppendUnique(users, r.users[|users|]);
    }
  }

  /** A signup adds at most one row and never changes an existing one. */
  lemma SignupOnlyAppends(users: Table, body: Option<Credentials>, hash: string -> Option<string>)
    ensures var t := Signup(users, body, hash).users;
            && |users| <= |t| <= |users| + 1
            && forall i :: 0 <= i < |users| ==> t[i] == users[i]
  {
  }

  /** The presence check comes first: a missing name with a short password reports the missing field. */
  lemma PresenceCheckedBeforeLength(users: Table, hash: string -> Option<string>)
    ensures Signup(users, Some(Credentials(None, Some("abc"))), hash).reply == Reply(400, RequiredMessage)
    ensures Signup(users, Some(Credentials(Some("ann"), Some(""))), hash).reply == Reply(400, RequiredMessage)
    ensures Signup(users, Some(Credentials(Some("ann"), Some("abc"))), hash).reply == Reply(400, ShortPasswordMessage)
  {
  }

  // ---------------------------------------------------------------------------
  // Login

  /** The attributes of the `token` cookie a successful login sets. */
  datatype Cookie = Cookie(name: string, value: string, httpOnly: bool, secure: bool, maxAge: int, path: string, sameSite: string)

  const TokenMaxAge := 3600

  datatype LoginReply = LoginReply(reply: Reply, cookie: Option<Cookie>)

  /**
    POST /api/auth/login. It reads the table and returns no table: a login
    never writes. `production` is whether NODE_ENV is 'production'. A body
    that is not JSON, a comparison that throws and a signer that throws all
    land in the catch block's 500.
   */
  function Login(users: Table, body: Option<Credentials>, compare: (string, string) -> Option<bool>,
                 token: UserRow -> Option<string>, production: bool): (r: LoginReply)
    ensures r.cookie.Some? <==> r.reply.status == 200
    ensures body.None? ==> r == LoginReply(Reply(500, ServerErrorMessage), None)
    ensures r.reply == Reply(500, ServerErrorMessage) <==>
      || body.None?
      || (&& Complete(body.value)
          && match Find(users, body.value.username.value)
             case None => false
             case Some(i) =>
               || compare(body.value.password.value, users[i].password).None?
               || (compare(body.value.password.value, users[i].password) == Some(true) && token(users[i]).None?))
    ensures r.reply == Reply(400, RequiredMessage) <==> body.Some? && !Complete(body.value)
    ensures r.reply.status == 401 <==>
      && body.Some? && Complete(body.value)
      && match Find(users, body.value.username.value)
         case None => true
         case Some(i) => compare(body.value.password.value, users[i].password) == Some(false)
    // the unknown name and the wrong password give the same answer
    ensures r.reply.status == 401 ==> r == LoginReply(Reply(401, InvalidCredentialsMessage), None)
    ensures r.reply.status == 200 ==>
      && body.Some? && Complete(body.value)
      && var i := Find(users, body.value.username.value);
      && i.Some?
      && compare(body.value.password.value, users[i.value].password) == Some(true)
      && token(users[i.value]).Some?
      && r.reply.message == LoginMessage
      && r.cookie == Some(Cookie("token", token(users[i.value]).value, true, production, TokenMaxAge, "/", "strict"))
    ensures r.reply.status in {200, 400, 401, 500}
  {
    match body
    case None => LoginReply(Reply(500, ServerErrorMessage), None)
    case Some(c) =>
      if !Complete(c) then LoginReply(Reply(400, RequiredMessage), None)
      else match Find(users, c.username.value)
        case None => LoginReply(Reply(401, InvalidCredentialsMessage), None)
        case Some(i) =>
          match compare(c.password.value, users[i].password)
          case None => LoginReply(Reply(500, ServerErrorMessage), None)
          case Some(matches) =>
            if !matches then LoginReply(Reply(401, InvalidCredentialsMessage), None)
            else match token(users[i])
              case None => LoginReply(Reply(500, ServerErrorMessage), None)
              case Some(signed) =>
                LoginReply(Reply(200, LoginMessage),
                           Some(Cookie("token", signed, true, production, TokenMaxAge, "/", "strict")))
  }

  /**
    A client cannot tell an unknown user from a wrong password: both
    answers are the same, whatever the tables and credentials.
   */
  lemma UnknownUserLooksLikeWrongPassword(users: Table, u: string, p: string, compare: (string, string) -> Option<bool>,
                                          token: UserRow -> Option<string>, production: bool, i: nat)
    requires Unique(users)
    requires u != "" && p != ""
    requires Find(users, u).None?
    requires i < |users| && users[i].username != "" && compare(p, users[i].password) == Some(false)
    ensures var body := Some(Credentials(Some(u), Some(p)));
            var other := Some(Credentials(Some(users[i].username), Some(p)));
            Login(users, body, compare, token, production) == Login(users, other, compare, token, production)
  {
    FindUnique(users, i);
  }

  /**
    Signing up and then logging in with the same credentials succeeds, given
    that the comparison accepts a password against its own hash and the
    signer does not throw.
   */
  lemma SignupThenLogin(users: Table, u: string, p: string, hash: string -> Option<string>,
                        compare: (string, string) -> Option<bool>, token: UserRow -> Option<string>, production: bool)
    requires hash(p).Some? ==> compare(p, hash(p).value) == Some(true)
    requires hash(p).Some? ==> token(UserRow(u, hash(p).value, InitialBalance, [])).Some?
    requires Signup(users, Some(Credentials(Some(u), Some(p))), hash).reply.status == 201
    ensures var t := Signup(users, Some(Credentials(Some(u), Some(p))), hash).users;
            var r := Login(t, Some(Credentials(Some(u), Some(p))), compare, token, production);
            r.reply == Reply(200, LoginMessage)
            && r.cookie == Some(Cookie("token", token(UserRow(u, hash(p).value, InitialBalance, [])).value, true, production, 3600, "/", "strict"))
  {
    FindAppended(users, UserRow(u, hash(p).value, InitialBalance, []));
  }
}
