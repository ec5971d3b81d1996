/**
 * The credential lifecycle of the users API as pure functions over a snapshot
 * of the store: the `token_required` guard and the register, login, logout
 * and edit handlers, each giving the next store state and what the handler
 * answers. The `Store` class in module Routes performs the same transitions in
 * place; the lemmas in module AuthProps are stated about these functions.
 */
module Auth {
  import opened Wrappers
  import opened Jwt
  import opened Accounts

  /** A row of the token blocklist: a revoked token and when it was revoked. */
  datatype Revocation = Revocation(token: Token, createdAt: Time)

  /** The two tables the core reads and writes. */
  datatype State = State(users: seq<User>, blocklist: seq<Revocation>)

  /** The token appears in some blocklist row. */
  ghost predicate IsRevoked(s: State, t: Token) {
    exists k :: 0 <= k < |s.blocklist| && s.blocklist[k].token == t
  }

  /** The indices of the blocklist rows holding `t`. */
  ghost function RowsHolding(blocklist: seq<Revocation>, t: Token): set<int> {
    set k | 0 <= k < |blocklist| && blocklist[k].token == t
  }

  /**
   * Number of blocklist rows holding `t`: what the blocklist query finds.
   * `.scalar()` tells none, one and more than one apart.
   */
  function RevokedCount(blocklist: seq<Revocation>, t: Token): (n: nat)
    ensures n == |RowsHolding(blocklist, t)|
    ensures n <= |blocklist|
    ensures n == 0 <==> forall k :: 0 <= k < |blocklist| ==> blocklist[k].token != t
  {
    if |blocklist| == 0 then 0
    else
      var last := |blocklist| - 1;
      var init := blocklist[..last];
      assert last !in RowsHolding(init, t);
      assert RowsHolding(blocklist, t)
             == RowsHolding(init, t) + (if blocklist[last].token == t then {last} else {});
      RevokedCount(init, t) + (if blocklist[last].token == t then 1 else 0)
  }

  /** No token is in the blocklist twice. */
  ghost predicate NoDuplicateRevocations(blocklist: seq<Revocation>) {
    forall j, k :: 0 <= j < k < |blocklist| ==> blocklist[j].token != blocklist[k].token
  }

  /**
   * What every reachable store satisfies: user ids are the autoincrement
   * sequence 1, 2, 3, ... in insertion order, and no token is revoked twice.
   */
  ghost predicate Invariant(s: State) {
    && (forall i :: 0 <= i < |s.users| ==> s.users[i].id == i + 1)
    && NoDuplicateRevocations(s.blocklist)
  }

  // ---------------------------------------------------------------------------
  // The guard

  /** Why the guard refused a request. */
  datatype Rejection = MissingToken | InvalidToken | UnknownUser | Revoked | SessionExpired

  /** The `msg` the guard answers with, next to status 400 and `success: false`. */
  function Message(r: Rejection): string {
    match r
    case MissingToken => "Valid JWT token is missing"
    case InvalidToken => "Token is invalid"
    case UnknownUser => "Sorry. Wrong auth token. This user does not exist."
    case Revoked => "Token revoked."
    case SessionExpired => "Token expired."
  }

  /** Either a rejection, or the row of the authenticated user. */
  datatype GuardResult = Reject(reason: Rejection) | Admit(index: nat)

  /** A header was sent and it is not empty. */
  predicate Present(header: Option<Token>) {
    header.Some? && !IsEmpty(header.value)
  }

  /** The claims of the header's token, when it is present and decodes at `now`. */
  function Claim(header: Option<Token>, now: Time): (c: Option<Claims>)
    ensures c.Some? <==> Present(header) && Decode(header.value, now).Some?
    ensures c.Some? ==> header.value == Signed(c.value)
  {
    if Present(header) then Decode(header.value, now) else None
  }

  /**
   * `token_required`: decides, from a snapshot of the store, whether a
   * protected handler may run. The checks run in a fixed order and the first
   * one that fails gives the answer: a missing token, then a token that does
   * not verify or has expired, then an email no user holds, then a revoked
   * token, then a user whose session flag is off. A blocklist query that finds
   * more than one row raises inside the guard's try block and so also answers
   * "Token is invalid". The guard only reads the store.
   */
  function Guard(s: State, header: Option<Token>, now: Time): (g: GuardResult)
    ensures g == Reject(MissingToken) <==> !Present(header)
    ensures Present(header) && Claim(header, now).None? ==> g == Reject(InvalidToken)
    ensures g == Reject(InvalidToken) <==>
              Present(header)
              && (|| Claim(header, now).None?
                  || (HasEmail(s.users, Claim(header, now).value.email) && RevokedCount(s.blocklist, header.value) > 1))
    ensures g == Reject(UnknownUser) <==>
              Claim(header, now).Some? && !HasEmail(s.users, Claim(header, now).value.email)
    ensures g == Reject(Revoked) <==>
              Claim(header, now).Some? && HasEmail(s.users, Claim(header, now).value.email)
              && RevokedCount(s.blocklist, header.value) == 1
    ensures g == Reject(Revoked) ==> IsRevoked(s, header.value)
    ensures g == Reject(SessionExpired) <==>
              Claim(header, now).Some? && !IsRevoked(s, header.value)
              && exists i :: FirstHolder(s.users, Claim(header, now).value.email, i) && !s.users[i].active
    ensures g.Admit? <==>
              Claim(header, now).Some? && !IsRevoked(s, header.value)
              && exists i :: FirstHolder(s.users, Claim(header, now).value.email, i) && s.users[i].active
    ensures g.Admit? ==>
              FirstHolder(s.users, Claim(header, now).value.email, g.index) && s.users[g.index].active
  {
    if !Present(header) then Reject(MissingToken)
    else
      match Decode(header.value, now)
      case None => Reject(InvalidToken)
      case Some(claims) =>
        match FirstWithEmail(s.users, claims.email)
        case None => Reject(UnknownUser)
        case Some(i) =>
          var hits := RevokedCount(s.blocklist, header.value);
          if hits > 1 then Reject(InvalidToken)
          else if hits == 1 then Reject(Revoked)
          else if !s.users[i].active then Reject(SessionExpired)
          else Admit(i)
  }

  // ---------------------------------------------------------------------------
  // The handlers

  datatype RegisterResult = EmailTaken | Registered(userId: nat)

  /** The id the autoincrement key gives the next row. */
  function NextId(s: State): nat {
    |s.users| + 1
  }

  /**
   * `Register.post`: refuses an email some user already holds; otherwise adds
   * one user with the given username and email, the hash of the password and
   * the table's default session flag `initialActive`, and answers its id.
   */
  function Register(s: State, username: string, email: string, password: string, initialActive: bool)
    : (out: (State, RegisterResult))
    ensures out.1 == EmailTaken <==> HasEmail(s.users, email)
    ensures out.1 == EmailTaken ==> out.0 == s
    ensures out.1.Registered? ==> out.1.userId == NextId(s)
    ensures out.1.Registered? ==>
              && out.0.blocklist == s.blocklist
              && out.0.users == s.users + [User(out.1.userId, username, email, HashPassword(password), initialActive)]
  {
    match FirstWithEmail(s.users, email)
    case Some(_) => (s, EmailTaken)
    case None =>
      var id := NextId(s);
      (s.(users := s.users + [User(id, username, email, HashPassword(password), initialActive)]), Registered(id))
  }

  datatype LoginResult = UnknownEmail | WrongCredentials | LoggedIn(token: Token, user: User)

  /**
   * `Login.post`: an email no user holds fails first, without looking at the
   * password; then a password that does not match fails. Otherwise the
   * handler mints a token for the email valid for 30 minutes from `now`, turns
   * the user's session flag on and answers the token with the updated record.
   */
  function Login(s: State, email: string, password: string, now: Time): (out: (State, LoginResult))
    ensures out.1 == UnknownEmail <==> !HasEmail(s.users, email)
    ensures out.1 == WrongCredentials <==>
              exists i :: FirstHolder(s.users, email, i) && !Matches(s.users[i].password, password)
    ensures !out.1.LoggedIn? ==> out.0 == s
    ensures out.1.LoggedIn? ==>
              && out.1.token == Issue(email, now)
              && out.0.blocklist == s.blocklist
              && exists i :: && FirstHolder(s.users, email, i)
                             && Matches(s.users[i].password, password)
                             && out.0.users == s.users[i := s.users[i].(active := true)]
                             && out.1.user == out.0.users[i]
  {
    match FirstWithEmail(s.users, email)
    case None => (s, UnknownEmail)
    case Some(i) =>
      if !Matches(s.users[i].password, password) then (s, WrongCredentials)
      else
        var token := Issue(email, now);
        var user := s.users[i].(active := true);
        (s.(users := s.users[i := user]), LoggedIn(token, user))
  }

  /** What a protected handler answers: the guard's rejection, or success. */
  datatype Outcome = Denied(reason: Rejection) | Done

  /**
   * `LogoutUser.post` behind the guard: revokes the presented token, stamped
   * with `now`, and turns the authenticated user's session flag off.
   *
   * The guard wraps the plain function `post`, so the resource reaches it as
   * the first positional argument and the guard's call `f(current_user,
   * *args)` binds the authenticated user to the handler's `self`: the
   * `self.set_jwt_auth_active(False)` and `self.save()` of the handler act on
   * that user.
   */
  function Logout(s: State, header: Option<Token>, now: Time): (out: (State, Outcome))
    ensures Guard(s, header, now).Reject? ==> out == (s, Denied(Guard(s, header, now).reason))
    ensures Guard(s, header, now).Admit? ==>
              && Present(header)
              && out.1 == Done
              && out.0.blocklist == s.blocklist + [Revocation(header.value, now)]
              && out.0.users == s.users[Guard(s, header, now).index := s.users[Guard(s, header, now).index].(active := false)]
  {
    match Guard(s, header, now)
    case Reject(why) => (s, Denied(why))
    case Admit(i) =>
      var revoked := s.blocklist + [Revocation(header.value, now)];
      (State(s.users[i := s.users[i].(active := false)], revoked), Done)
  }

  /** A body field that is present and non-empty, i.e. truthy in Python. */
  predicate Given(field: Option<string>) {
    field.Some? && field.value != ""
  }

  /**
   * `EditUser.post` behind the guard: overwrites the authenticated user's
   * username and email with those given non-empty in the body. The body's
   * `userID` is ignored, and the new email is not checked against the other
   * users' emails.
   *
   * As for Logout, the handler's `self` is the authenticated user, so its
   * `self.update_username`, `self.update_email` and `self.save()` act on that
   * user.
   */
  function Edit(s: State, header: Option<Token>, now: Time,
                userId: string, username: Option<string>, email: Option<string>): (out: (State, Outcome))
    ensures Guard(s, header, now).Reject? ==> out == (s, Denied(Guard(s, header, now).reason))
    ensures Guard(s, header, now).Admit? ==>
              && out.1 == Done
              && out.0.blocklist == s.blocklist
              && |out.0.users| == |s.users|
              && (forall j :: 0 <= j < |s.users| && j != Guard(s, header, now).index ==> out.0.users[j] == s.users[j])
              && var before := s.users[Guard(s, header, now).index];
                 var after := out.0.users[Guard(s, header, now).index];
                 && after.username == (if Given(username) then username.value else before.username)
                 && after.email == (if Given(email) then email.value else before.email)
                 && after.(username := before.username, email := before.email) == before
  {
    match Guard(s, header, now)
    case Reject(why) => (s, Denied(why))
    case Admit(i) =>
      var u := s.users[i];
      var u := if Given(username) then u.(username := username.value) else u;
      var u := if Given(email) then u.(email := email.value) else u;
      (s.(users := s.users[i := u]), Done)
  }

  // ---------------------------------------------------------------------------
  // Sequences of requests

  /** One request to the users API. */
  datatype Request =
    | RegisterReq(username: string, email: string, password: string)
    | LoginReq(email: string, password: string, now: Time)
    | LogoutReq(header: Option<Token>, now: Time)
    | EditReq(header: Option<Token>, now: Time, userId: string, newUsername: Option<string>, newEmail: Option<string>)

  /** The store after handling one request. */
  function Step(s: State, initialActive: bool, r: Request): State {
    match r
    case RegisterReq(username, email, password) => Register(s, username, email, password, initialActive).0
    case LoginReq(email, password, now) => Login(s, email, password, now).0
    case LogoutReq(header, now) => Logout(s, header, now).0
    case EditReq(header, now, userId, username, email) => Edit(s, header, now, userId, username, email).0
  }

  /** The store after handling the requests in order. */
  function Run(s: State, initialActive: bool, rs: seq<Request>): State
    decreases |rs|
  {
    if |rs| == 0 then s else Run(Step(s, initialActive, rs[0]), initialActive, rs[1..])
  }
}
