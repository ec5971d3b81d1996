/**
 * The users API handlers as they run against the store: a `Store` object
 * holding the user table and the token blocklist, whose handler methods
 * update those tables in place. Each method is proved to perform exactly the
 * transition its namesake in module Auth describes, and to keep the store
 * invariant.
 */
module Routes {
  import opened Wrappers
  import opened Jwt
  import opened Accounts
  import opened Auth
  import AuthProps

  class Store {
    /** The user table, in insertion order. */
    var users: seq<User>
    /** The token blocklist, in insertion order. */
    var blocklist: seq<Revocation>
    /** The session flag a freshly registered user gets (the column default). */
    const initialActive: bool

    /** The two tables as a value. */
    function Snapshot(): State
      reads this
    {
      State(users, blocklist)
    }

    ghost predicate Valid()
      reads this
    {
      Invariant(Snapshot())
    }

    constructor (initialActive: bool)
      ensures Valid()
      ensures users == [] && blocklist == [] && this.initialActive == initialActive
    {
      users := [];
      blocklist := [];
      this.initialActive := initialActive;
    }

    /** `Register.post`. */
    method Register(username: string, email: string, password: string) returns (r: RegisterResult)
      requires Valid()
      modifies this
      ensures Valid()
      ensures (Snapshot(), r) == Auth.Register(old(Snapshot()), username, email, password, initialActive)
    {
      ghost var before := Snapshot();
      var existing := FirstWithEmail(users, email);
      if existing.Some? {
        return EmailTaken;
      }
      var id := |users| + 1;
      users := users + [User(id, username, email, HashPassword(password), initialActive)];
      r := Registered(id);
      AuthProps.StepPreservesInvariant(before, initialActive, RegisterReq(username, email, password));
    }

    /** `Login.post`. */
    method Login(email: string, password: string, now: Time) returns (r: LoginResult)
      requires Valid()
      modifies this
      ensures Valid()
      ensures (Snapshot(), r) == Auth.Login(old(Snapshot()), email, password, now)
    {
      ghost var before := Snapshot();
      var found := FirstWithEmail(users, email);
      if found.None? {
        return UnknownEmail;
      }
      var i := found.value;
      if !Matches(users[i].password, password) {
        return WrongCredentials;
      }
      var token := Issue(email, now);
      users := users[i := users[i].(active := true)];
      r := LoggedIn(token, users[i]);
      AuthProps.StepPreservesInvariant(before, initialActive, LoginReq(email, password, now));
    }

    /**
     * `LogoutUser.post` behind `token_required`: the handler's `self` is the
     * authenticated user (see Auth.Logout). A rejected request changes
     * nothing.
     */
    method Logout(header: Option<Token>, now: Time) returns (r: Outcome)
      requires Valid()
      modifies this
      ensures Valid()
      ensures (Snapshot(), r) == Auth.Logout(old(Snapshot()), header, now)
      ensures r.Denied? ==> users == old(users) && blocklist == old(blocklist)
    {
      ghost var before := Snapshot();
      var g := Guard(Snapshot(), header, now);
      if g.Reject? {
        return Denied(g.reason);
      }
      var i := g.index;
      blocklist := blocklist + [Revocation(header.value, now)];
      users := users[i := users[i].(active := false)];
      r := Done;
      AuthProps.StepPreservesInvariant(before, initialActive, LogoutReq(header, now));
    }

    /**
     * `EditUser.post` behind `token_required`: the handler's `self` is the
     * authenticated user (see Auth.Logout). `userId` is accepted and ignored,
     * as in the source.
     * A rejected request changes nothing.
     */
    method Edit(header: Option<Token>, now: Time, userId: string,
                username: Option<string>, email: Option<string>) returns (r: Outcome)
      requires Valid()
      modifies this
      ensures Valid()
      ensures (Snapshot(), r) == Auth.Edit(old(Snapshot()), header, now, userId, username, email)
      ensures r.Denied? ==> users == old(users) && blocklist == old(blocklist)
    {
      ghost var before := Snapshot();
      var g := Guard(Snapshot(), header, now);
      if g.Reject? {
        return Denied(g.reason);
      }
      var i := g.index;
      var user := users[i];
      if Given(username) {
        user := user.(username := username.value);
      }
      if Given(email) {
        user := user.(email := email.value);
      }
      users := users[i := user];
      r := Done;
      AuthProps.StepPreservesInvariant(before, initialActive, EditReq(header, now, userId, username, email));
    }
  }
}
