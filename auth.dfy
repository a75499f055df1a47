/**
 * The `/auth` handlers as guarded transitions over three pieces of state: the
 * users table, the queue of background tasks that send confirmation emails, and
 * the token service that hashes passwords and issues tokens.
 */
module Auth {
  import opened Wrappers
  import opened Models
  import opened Http

  const AccountExists := "Account already exists"
  const InvalidEmail := "Invalid email"
  /** The text of `messages.EMAIL_NOT_CONFIRMED`. */
  const EmailNotConfirmed := "Email not confirmed"
  const InvalidPassword := "Invalid password"
  const InvalidRefreshToken := "Invalid refresh token"
  const VerificationError := "Verification error"
  const AlreadyConfirmed := "Your email is already confirmed"
  const EmailConfirmed := "Email confirmed"
  const CheckYourEmail := "Check your email for confirmation."
  const Bearer := "bearer"

  /** The signup body. */
  datatype UserModel = UserModel(username: string, email: string, password: string)

  /** The login form: `username` carries the email. */
  datatype LoginForm = LoginForm(username: string, password: string)

  /** The body of a successful login or refresh. */
  datatype TokenPair = TokenPair(accessToken: Token, refreshToken: Token, tokenType: string)

  /** A queued confirmation email: its recipient, the name it greets, the service's base URL. */
  datatype Mail = ConfirmationMail(to: string, username: string, baseUrl: string)

  /** The `users` table, keyed by its unique email, and the next id its sequence hands out. */
  class UserDirectory {
    var users: map<string, User>
    var nextId: int

    ghost predicate Valid()
      reads this
    {
      && 1 <= nextId
      && forall e :: e in users ==> users[e].email == e && 1 <= users[e].id < nextId
    }

    constructor ()
      ensures Valid() && users == map[] && nextId == 1
    {
      users := map[];
      nextId := 1;
    }

    /** `get_user_by_email`: the user holding that email, if any. */
    function GetUserByEmail(email: string): (r: Option<User>)
      requires Valid()
      reads this
      ensures r.Some? <==> email in users
      ensures r.Some? ==> r.value == users[email] && r.value.email == email
    {
      if email in users then Some(users[email]) else None
    }

    /** `create_user`: inserts the new user, unconfirmed, with the default role and no token or avatar. */
    method CreateUser(body: UserModel) returns (user: User)
      requires Valid() && body.email !in users
      modifies this
      ensures Valid() && nextId == old(nextId) + 1
      ensures user == User.User(old(nextId), body.username, body.email, body.password, None, None, DefaultRole, false)
      ensures users == old(users)[body.email := user]
    {
      user := User.User(nextId, body.username, body.email, body.password, None, None, DefaultRole, false);
      users := users[body.email := user];
      nextId := nextId + 1;
    }

    /** `update_token`: stores (or clears) the user's refresh token and changes nothing else. */
    method UpdateToken(email: string, token: Option<Token>)
      requires Valid() && email in users
      modifies this
      ensures Valid() && nextId == old(nextId)
      ensures users == old(users)[email := old(users[email]).(refreshToken := token)]
    {
      users := users[email := users[email].(refreshToken := token)];
    }

    /** `confirmed_email`: sets the user's `confirmed` flag and changes nothing else. */
    method ConfirmedEmail(email: string)
      requires Valid() && email in users
      modifies this
      ensures Valid() && nextId == old(nextId)
      ensures users == old(users)[email := old(users[email]).(confirmed := true)]
    {
      users := users[email := users[email].(confirmed := true)];
    }
  }

  /** The background tasks a request leaves behind; only confirmation emails are queued here. */
  class Mailer {
    var outbox: seq<Mail>

    constructor ()
      ensures outbox == []
    {
      outbox := [];
    }
  }

  /**
   * The token service. Hashing and verification are opaque to the model: all it
   * relies on is that a password verifies against its own hash. Each issued
   * token gets the next serial, so no two issued tokens are equal.
   */
  class TokenService {
    const hash: string -> string
    const verify: (string, string) -> bool
    var issued: nat

    ghost predicate Valid() {
      forall p :: verify(p, hash(p))
    }

    constructor (hash: string -> string, verify: (string, string) -> bool)
      requires forall p :: verify(p, hash(p))
      ensures Valid() && this.hash == hash && this.verify == verify && issued == 0
    {
      this.hash := hash;
      this.verify := verify;
      issued := 0;
    }

    /** `create_access_token` / `create_refresh_token`: a new token for `subject`. */
    method CreateToken(scope: Scope, subject: string) returns (t: Token)
      modifies this
      ensures issued == old(issued) + 1
      ensures t == Token(scope, subject, old(issued))
    {
      t := Token(scope, subject, issued);
      issued := issued + 1;
    }

    /** `decode_refresh_token`: the subject of a refresh token; any other token is refused. */
    function DecodeRefreshToken(t: Token): (r: Option<string>)
      ensures r.Some? <==> t.scope == RefreshScope
      ensures r.Some? ==> r.value == t.subject
    {
      if t.scope == RefreshScope then Some(t.subject) else None
    }
  }

  /** Every stored refresh token was issued before now: its serial is below the service's counter. */
  ghost predicate TokensIssued(dir: UserDirectory, auth: TokenService)
    reads dir, auth
  {
    forall e :: e in dir.users && dir.users[e].refreshToken.Some? ==> dir.users[e].refreshToken.value.serial < auth.issued
  }

  /**
   * `signup`: an email already present raises 409 and changes nothing. Otherwise
   * the user is stored with the hash of the password, never the password itself,
   * and exactly one confirmation email to the new user is queued.
   */
  method Signup(body: UserModel, baseUrl: string, dir: UserDirectory, mailer: Mailer, auth: TokenService) returns (r: Reply<User>)
    requires dir.Valid() && TokensIssued(dir, auth)
    modifies dir, mailer
    ensures dir.Valid() && TokensIssued(dir, auth)
    ensures body.email in old(dir.users) ==>
      r == Raised(CONFLICT, AccountExists) && unchanged(dir) && unchanged(mailer)
    ensures body.email !in old(dir.users) ==>
      && r == Ok(CREATED, User.User(old(dir.nextId), body.username, body.email, auth.hash(body.password), None, None, DefaultRole, false))
      && dir.users == old(dir.users)[body.email := r.body]
      && mailer.outbox == old(mailer.outbox) + [ConfirmationMail(body.email, body.username, baseUrl)]
      && dir.nextId == old(dir.nextId) + 1
  {
    var existUser := dir.GetUserByEmail(body.email);
    if existUser.Some? {
      return Raised(CONFLICT, AccountExists);
    }
    var hashed := body.(password := auth.hash(body.password));
    var newUser := dir.CreateUser(hashed);
    mailer.outbox := mailer.outbox + [ConfirmationMail(newUser.email, newUser.username, baseUrl)];
    r := Ok(CREATED, newUser);
  }

  /**
   * `login`, its checks in order, each a 401: unknown email, then unconfirmed
   * email (whatever the password), then a password that does not verify. On
   * success both tokens are issued and the refresh token is stored on the user.
   */
  method Login(form: LoginForm, dir: UserDirectory, auth: TokenService) returns (r: Reply<TokenPair>)
    requires dir.Valid() && auth.Valid() && TokensIssued(dir, auth)
    modifies dir, auth
    ensures dir.Valid() && TokensIssued(dir, auth) && dir.nextId == old(dir.nextId)
    ensures form.username !in old(dir.users) ==>
      r == Raised(UNAUTHORIZED, InvalidEmail) && unchanged(dir) && unchanged(auth)
    ensures form.username in old(dir.users) && !old(dir.users[form.username]).confirmed ==>
      r == Raised(UNAUTHORIZED, EmailNotConfirmed) && unchanged(dir) && unchanged(auth)
    ensures (form.username in old(dir.users) && old(dir.users[form.username]).confirmed
             && !auth.verify(form.password, old(dir.users[form.username]).password)) ==>
      r == Raised(UNAUTHORIZED, InvalidPassword) && unchanged(dir) && unchanged(auth)
    ensures (form.username in old(dir.users) && old(dir.users[form.username]).confirmed
             && auth.verify(form.password, old(dir.users[form.username]).password)) ==>
      && r == Ok(OK, TokenPair(Token(AccessScope, form.username, old(auth.issued)),
                               Token(RefreshScope, form.username, old(auth.issued) + 1), Bearer))
      && auth.issued == old(auth.issued) + 2
      && dir.users == old(dir.users)[form.username := old(dir.users[form.username]).(refreshToken := Some(r.body.refreshToken))]
    ensures (form.username in old(dir.users) && old(dir.users[form.username]).confirmed
             && old(dir.users[form.username]).password == auth.hash(form.password)) ==> r.Ok?
  {
    var found := dir.GetUserByEmail(form.username);
    if found.None? {
      return Raised(UNAUTHORIZED, InvalidEmail);
    }
    var user := found.value;
    if !user.confirmed {
      return Raised(UNAUTHORIZED, EmailNotConfirmed);
    }
    if !auth.verify(form.password, user.password) {
      return Raised(UNAUTHORIZED, InvalidPassword);
    }
    var accessToken := auth.CreateToken(AccessScope, user.email);
    var refreshToken := auth.CreateToken(RefreshScope, user.email);
    dir.UpdateToken(user.email, Some(refreshToken));
    r := Ok(OK, TokenPair(accessToken, refreshToken, Bearer));
  }

  /**
   * `refresh_token`: a presented token other than the stored one clears the stored
   * token and raises 401. A matching one is replaced by a newly issued refresh
   * token, which is returned and differs from the one presented.
   */
  method RefreshToken(token: Token, dir: UserDirectory, auth: TokenService) returns (r: Reply<TokenPair>)
    requires dir.Valid() && TokensIssued(dir, auth)
    requires token.scope == RefreshScope ==> token.subject in dir.users
    modifies dir, auth
    ensures dir.Valid() && TokensIssued(dir, auth) && dir.nextId == old(dir.nextId)
    ensures token.scope != RefreshScope ==> r == Unauthenticated && unchanged(dir) && unchanged(auth)
    ensures token.scope == RefreshScope && old(dir.users[token.subject]).refreshToken != Some(token) ==>
      && r == Raised(UNAUTHORIZED, InvalidRefreshToken)
      && dir.users == old(dir.users)[token.subject := old(dir.users[token.subject]).(refreshToken := None)]
      && unchanged(auth)
    ensures token.scope == RefreshScope && old(dir.users[token.subject]).refreshToken == Some(token) ==>
      && r == Ok(OK, TokenPair(Token(AccessScope, token.subject, old(auth.issued)),
                               Token(RefreshScope, token.subject, old(auth.issued) + 1), Bearer))
      && auth.issued == old(auth.issued) + 2
      && dir.users == old(dir.users)[token.subject := old(dir.users[token.subject]).(refreshToken := Some(r.body.refreshToken))]
      && r.body.refreshToken != token
  {
    var decoded := auth.DecodeRefreshToken(token);
    if decoded.None? {
      return Unauthenticated;
    }
    var email := decoded.value;
    var user := dir.GetUserByEmail(email).value;
    if user.refreshToken != Some(token) {
      dir.UpdateToken(user.email, None);
      return Raised(UNAUTHORIZED, InvalidRefreshToken);
    }
    var accessToken := auth.CreateToken(AccessScope, email);
    var refreshToken := auth.CreateToken(RefreshScope, email);
    dir.UpdateToken(user.email, Some(refreshToken));
    r := Ok(OK, TokenPair(accessToken, refreshToken, Bearer));
  }

  /**
   * `confirmed_email`, given the email the confirmation token carries: 400 for an
   * unknown email, a no-op for a confirmed one, otherwise the flag is set. Either
   * way a known user ends up confirmed.
   */
  method ConfirmedEmail(email: string, dir: UserDirectory) returns (r: Reply<string>)
    requires dir.Valid()
    modifies dir
    ensures dir.Valid() && dir.nextId == old(dir.nextId)
    ensures email !in old(dir.users) ==> r == Raised(BAD_REQUEST, VerificationError) && unchanged(dir)
    ensures email in old(dir.users) && old(dir.users[email]).confirmed ==> r == Ok(OK, AlreadyConfirmed) && unchanged(dir)
    ensures email in old(dir.users) && !old(dir.users[email]).confirmed ==>
      r == Ok(OK, EmailConfirmed) && dir.users == old(dir.users)[email := old(dir.users[email]).(confirmed := true)]
    ensures email in old(dir.users) ==> dir.users == old(dir.users)[email := old(dir.users[email]).(confirmed := true)]
  {
    var user := dir.GetUserByEmail(email);
    if user.None? {
      return Raised(BAD_REQUEST, VerificationError);
    }
    if user.value.confirmed {
      assert old(dir.users)[email := old(dir.users[email]).(confirmed := true)] == old(dir.users);
      return Ok(OK, AlreadyConfirmed);
    }
    dir.ConfirmedEmail(email);
    r := Ok(OK, EmailConfirmed);
  }

  /**
   * `request_email`: never changes the users table. A confirmed user gets no email;
   * an unconfirmed one gets exactly one; an unknown address gets nothing, with the
   * same reply as the unconfirmed case.
   */
  method RequestEmail(email: string, baseUrl: string, dir: UserDirectory, mailer: Mailer) returns (r: Reply<string>)
    requires dir.Valid()
    modifies mailer
    ensures email in dir.users && dir.users[email].confirmed ==> r == Ok(OK, AlreadyConfirmed) && unchanged(mailer)
    ensures email in dir.users && !dir.users[email].confirmed ==>
      && r == Ok(OK, CheckYourEmail)
      && mailer.outbox == old(mailer.outbox) + [ConfirmationMail(email, dir.users[email].username, baseUrl)]
    ensures email !in dir.users ==> r == Ok(OK, CheckYourEmail) && unchanged(mailer)
  {
    var user := dir.GetUserByEmail(email);
    if user.Some? && user.value.confirmed {
      return Ok(OK, AlreadyConfirmed);
    }
    if user.Some? {
      mailer.outbox := mailer.outbox + [ConfirmationMail(user.value.email, user.value.username, baseUrl)];
    }
    r := Ok(OK, CheckYourEmail);
  }

  /** Confirming twice leaves the same state as confirming once; the second reply says so. */
  method ConfirmTwice(email: string, dir: UserDirectory) returns (first: Reply<string>, second: Reply<string>)
    requires dir.Valid() && email in dir.users
    modifies dir
    ensures second == Ok(OK, AlreadyConfirmed)
    ensures dir.users == old(dir.users)[email := old(dir.users[email]).(confirmed := true)]
  {
    first := ConfirmedEmail(email, dir);
    ghost var once := dir.users;
    second := ConfirmedEmail(email, dir);
    assert dir.users == once;
  }

  /**
   * Signing up, then logging in before confirming, is refused with the
   * not-confirmed message even with the right password; after confirmation the
   * same login succeeds with bearer tokens.
   */
  method SignupConfirmLogin(body: UserModel, baseUrl: string, dir: UserDirectory, mailer: Mailer, auth: TokenService)
    returns (signedUp: Reply<User>, early: Reply<TokenPair>, confirmed: Reply<string>, late: Reply<TokenPair>)
    requires dir.Valid() && auth.Valid() && TokensIssued(dir, auth)
    requires body.email !in dir.users
    modifies dir, mailer, auth
    ensures signedUp.Ok? && signedUp.code == CREATED && !signedUp.body.confirmed
    ensures early == Raised(UNAUTHORIZED, EmailNotConfirmed)
    ensures confirmed == Ok(OK, EmailConfirmed)
    ensures late.Ok? && late.body.tokenType == Bearer
    ensures body.email in dir.users && dir.users[body.email].refreshToken == Some(late.body.refreshToken)
  {
    signedUp := Signup(body, baseUrl, dir, mailer, auth);
    early := Login(LoginForm(body.email, body.password), dir, auth);
    confirmed := ConfirmedEmail(body.email, dir);
    late := Login(LoginForm(body.email, body.password), dir, auth);
  }
}
