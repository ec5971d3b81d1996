/**
 * Properties of the credential lifecycle: the store invariant, permanence of
 * revocation, the login/guard round trip, the ordering consequences of the
 * guard, and what edit does to emails.
 */
module AuthProps {
  import opened Wrappers
  import opened Jwt
  import opened Accounts
  import opened Auth

  // ---------------------------------------------------------------------------
  // The blocklist

  /** Under the invariant a token occupies at most one blocklist row. */
  lemma {:induction false} RevokedCountAtMostOne(blocklist: seq<Revocation>, t: Token)
    requires NoDuplicateRevocations(blocklist)
    ensures RevokedCount(blocklist, t) <= 1
  {
    if |blocklist| > 0 {
      var init := blocklist[..|blocklist| - 1];
      assert NoDuplicateRevocations(init);
      RevokedCountAtMostOne(init, t);
      if blocklist[|blocklist| - 1].token == t {
        assert forall k :: 0 <= k < |init| ==> init[k].token != t by {
          forall k | 0 <= k < |init| ensures init[k].token != t {
            assert blocklist[k] == init[k];
          }
        }
      }
    }
  }

  /**
   * The "more than one row" branch of the guard is unreachable in a store that
   * satisfies the invariant: "Token is invalid" then always means the token
   * did not verify or had expired.
   */
  lemma GuardInvalidMeansUndecodable(s: State, header: Option<Token>, now: Time)
    requires Invariant(s)
    requires Guard(s, header, now) == Reject(InvalidToken)
    ensures Present(header) && Claim(header, now).None?
  {
    if Present(header) {
      RevokedCountAtMostOne(s.blocklist, header.value);
    }
  }

  /**
   * One request either leaves the blocklist alone or appends one row whose
   * token was not yet revoked: the blocklist only grows, and never receives a
   * duplicate.
   */
  lemma StepGrowsBlocklist(s: State, initialActive: bool, r: Request)
    ensures var s' := Step(s, initialActive, r);
      || s'.blocklist == s.blocklist
      || exists t, at :: s'.blocklist == s.blocklist + [Revocation(t, at)] && !IsRevoked(s, t)
  {
  }

  /** The store invariant holds after every request. */
  lemma StepPreservesInvariant(s: State, initialActive: bool, r: Request)
    requires Invariant(s)
    ensures Invariant(Step(s, initialActive, r))
  {
  }

  /** The store invariant holds after any sequence of requests. */
  lemma {:induction false} RunPreservesInvariant(s: State, initialActive: bool, rs: seq<Request>)
    requires Invariant(s)
    ensures Invariant(Run(s, initialActive, rs))
    decreases |rs|
  {
    if |rs| > 0 {
      StepPreservesInvariant(s, initialActive, rs[0]);
      RunPreservesInvariant(Step(s, initialActive, rs[0]), initialActive, rs[1..]);
    }
  }

  /** Whatever requests follow, the old blocklist stays a prefix of the new one. */
  lemma {:induction false} RunGrowsBlocklist(s: State, initialActive: bool, rs: seq<Request>)
    ensures s.blocklist <= Run(s, initialActive, rs).blocklist
    decreases |rs|
  {
    if |rs| > 0 {
      StepGrowsBlocklist(s, initialActive, rs[0]);
      RunGrowsBlocklist(Step(s, initialActive, rs[0]), initialActive, rs[1..]);
    }
  }

  /**
   * Revocation is permanent: once logout has revoked a token, no later
   * request sequence lets the guard admit it, nor answer that the session
   * expired. While the token has not reached its `exp` and its email still
   * names a user, the answer is "Token revoked.".
   */
  lemma RevokedTokenNeverAdmitted(s: State, initialActive: bool, t: Token, now: Time,
                                  rs: seq<Request>, later: Time)
    requires Logout(s, Some(t), now).1 == Done
    ensures var g := Guard(Run(Logout(s, Some(t), now).0, initialActive, rs), Some(t), later);
      && !g.Admit?
      && g != Reject(SessionExpired)
      && g != Reject(MissingToken)
    ensures var s' := Run(Logout(s, Some(t), now).0, initialActive, rs);
      Invariant(s) && t.Signed? && later < t.claims.exp && HasEmail(s'.users, t.claims.email)
      ==> Guard(s', Some(t), later) == Reject(Revoked)
  {
    var s1 := Logout(s, Some(t), now).0;
    var s' := Run(s1, initialActive, rs);
    assert s1.blocklist[|s.blocklist|].token == t;
    RunGrowsBlocklist(s1, initialActive, rs);
    assert s'.blocklist[|s.blocklist|] == s1.blocklist[|s.blocklist|];
    assert IsRevoked(s', t);
    if Invariant(s) {
      assert Invariant(s1) by {
        StepPreservesInvariant(s, initialActive, LogoutReq(Some(t), now));
      }
      RunPreservesInvariant(s1, initialActive, rs);
      RevokedCountAtMostOne(s'.blocklist, t);
    }
  }

  // ---------------------------------------------------------------------------
  // Login and the guard

  /**
   * Round trip: the token a successful login returns is admitted by the guard,
   * for the same user row, at every instant before 30 minutes from issue, and
   * is refused as invalid from that instant on -- provided that exact token
   * string had not been revoked before.
   */
  lemma LoginRoundTrip(s: State, email: string, password: string, now: Time, later: Time)
    requires Login(s, email, password, now).1.LoggedIn?
    requires !IsRevoked(s, Issue(email, now))
    ensures var (s', res) := Login(s, email, password, now);
      && FirstWithEmail(s.users, email).Some?
      && Guard(s', Some(res.token), later)
         == (if later < now + Lifetime then Admit(FirstWithEmail(s.users, email).value) else Reject(InvalidToken))
      && res.user == s'.users[FirstWithEmail(s.users, email).value]
  {
  }

  /**
   * A login that fails for an unknown email does not depend on the password:
   * the password is never consulted.
   */
  lemma UnknownEmailIgnoresPassword(s: State, email: string, password: string, other: string, now: Time)
    requires !HasEmail(s.users, email)
    ensures Login(s, email, password, now) == Login(s, email, other, now) == (s, UnknownEmail)
  {
  }

  /**
   * When login, logout and relogin fall within one second, the relogin
   * reproduces the token that logout revoked, so the guard refuses it as
   * revoked although the login succeeded.
   */
  lemma SameSecondReloginIsRevoked(s: State, email: string, password: string, now: Time)
    requires Logout(s, Some(Issue(email, now)), now).1 == Done
    requires Login(Logout(s, Some(Issue(email, now)), now).0, email, password, now).1.LoggedIn?
    ensures var s1 := Logout(s, Some(Issue(email, now)), now).0;
      var (s2, res) := Login(s1, email, password, now);
      res.token == Issue(email, now) && Guard(s2, Some(res.token), now) == Reject(Revoked)
  {
    var t := Issue(email, now);
    var s1 := Logout(s, Some(t), now).0;
    assert RowsHolding(s1.blocklist, t) == {|s.blocklist|};
  }

  /**
   * Revocation is per token value: after a logout that revoked a token issued
   * at `issuedAt`, a login in a different second yields a new token that the
   * guard admits, unless that new token was already revoked before.
   */
  lemma ReloginAfterLogoutAdmitted(s: State, email: string, password: string,
                                   issuedAt: Time, loggedOutAt: Time, now: Time)
    requires Logout(s, Some(Issue(email, issuedAt)), loggedOutAt).1 == Done
    requires Login(Logout(s, Some(Issue(email, issuedAt)), loggedOutAt).0, email, password, now).1.LoggedIn?
    requires now != issuedAt
    requires !IsRevoked(s, Issue(email, now))
    ensures var s1 := Logout(s, Some(Issue(email, issuedAt)), loggedOutAt).0;
      var (s2, res) := Login(s1, email, password, now);
      Guard(s2, Some(res.token), now).Admit?
  {
    var s1 := Logout(s, Some(Issue(email, issuedAt)), loggedOutAt).0;
    IssueDistinguishesSeconds(email, now, issuedAt);
    assert !IsRevoked(s1, Issue(email, now)) by {
      forall k | 0 <= k < |s1.blocklist| ensures s1.blocklist[k].token != Issue(email, now) {
        if k < |s.blocklist| {
          assert s1.blocklist[k] == s.blocklist[k];
        }
      }
    }
    LoginRoundTrip(s1, email, password, now, now);
  }

  /** The requires of ReloginAfterLogoutAdmitted hold for login at 0, logout at 100, relogin at 200. */
  lemma ReloginAfterLogoutReachable()
    ensures var s := State([User(1, "sunny", "sunny@ajiozi.com", HashPassword("newpassword"), true)], []);
      && Logout(s, Some(Issue("sunny@ajiozi.com", 0)), 100).1 == Done
      && Login(Logout(s, Some(Issue("sunny@ajiozi.com", 0)), 100).0, "sunny@ajiozi.com", "newpassword", 200).1.LoggedIn?
      && !IsRevoked(s, Issue("sunny@ajiozi.com", 200))
  {
    var s := State([User(1, "sunny", "sunny@ajiozi.com", HashPassword("newpassword"), true)], []);
    assert FirstWithEmail(s.users, "sunny@ajiozi.com") == Some(0);
    assert Guard(s, Some(Issue("sunny@ajiozi.com", 0)), 100) == Admit(0);
  }

  // ---------------------------------------------------------------------------
  // Logout ends the session

  /**
   * After logout the user's session flag is off, so any other unrevoked
   * token of the same user that is still within its lifetime is refused as
   * "Token expired." until the next login.
   */
  lemma LogoutEndsSession(s: State, t: Token, now: Time, other: Token, later: Time)
    requires Logout(s, Some(t), now).1 == Done
    requires Claim(Some(other), later).Some? && Claim(Some(t), now).value.email == Claim(Some(other), later).value.email
    requires !IsRevoked(Logout(s, Some(t), now).0, other)
    ensures Guard(Logout(s, Some(t), now).0, Some(other), later) == Reject(SessionExpired)
  {
    var i := Guard(s, Some(t), now).index;
    var s' := Logout(s, Some(t), now).0;
    var email := Claim(Some(t), now).value.email;
    assert FirstHolder(s'.users, email, i) by {
      forall j | 0 <= j < i ensures s'.users[j].email != email {
        assert s'.users[j] == s.users[j];
      }
    }
  }

  // ---------------------------------------------------------------------------
  // Edit

  /** Corollary of Edit: an admitted edit stores the requested username on the authenticated user. */
  lemma EditStoresUsername(s: State, header: Option<Token>, now: Time,
                           userId: string, username: Option<string>, email: Option<string>)
    requires Guard(s, header, now).Admit?
    requires Given(username)
    ensures var (s', res) := Edit(s, header, now, userId, username, email);
      res == Done && s'.users[Guard(s, header, now).index].username == username.value
  {
  }

  /** Registration keeps emails unique: it refuses an email already taken. */
  lemma RegisterKeepsEmailsUnique(s: State, username: string, email: string, password: string, initialActive: bool)
    requires UniqueEmails(s.users)
    ensures UniqueEmails(Register(s, username, email, password, initialActive).0.users)
  {
  }

  /**
   * Edit does not keep emails unique: an authenticated user may take the
   * email of another user, after which login and the guard resolve that email
   * to the earlier row only.
   */
  lemma EditCanDuplicateEmails()
    ensures exists s: State, t: Token, now: Time ::
      && Invariant(s)
      && UniqueEmails(s.users)
      && Guard(s, Some(t), now).Admit?
      && !UniqueEmails(Edit(s, Some(t), now, "2", None, Some("a@example.com")).0.users)
  {
    var a := User(1, "ann", "a@example.com", HashPassword("pw-a"), true);
    var b := User(2, "bob", "b@example.com", HashPassword("pw-b"), true);
    var s := State([a, b], []);
    var t := Issue("b@example.com", 0);
    assert FirstWithEmail(s.users, "b@example.com") == Some(1);
    assert Guard(s, Some(t), 0) == Admit(1);
    var s' := Edit(s, Some(t), 0, "2", None, Some("a@example.com")).0;
    assert s'.users[0].email == s'.users[1].email;
  }

  /**
   * An edit that changes the user's email orphans the token used for it:
   * the token still names the old email, which (when no other user holds it)
   * no longer resolves, so the guard answers that the user does not exist.
   */
  lemma EditEmailOrphansToken(s: State, t: Token, now: Time, userId: string,
                              username: Option<string>, email: Option<string>, later: Time)
    requires Guard(s, Some(t), now).Admit?
    requires Given(email) && email.value != t.claims.email
    requires forall j :: 0 <= j < |s.users| && j != Guard(s, Some(t), now).index ==> s.users[j].email != t.claims.email
    requires later < t.claims.exp
    ensures Guard(Edit(s, Some(t), now, userId, username, email).0, Some(t), later) == Reject(UnknownUser)
  {
  }

  /**
   * The sign-up, login and logout scenario: a user registers, a wrong
   * password is refused, the right one yields a token, logout with that token
   * succeeds, and the same token is then refused as revoked on edit.
   */
  lemma SignupLoginLogoutScenario(initialActive: bool, now: Time)
    ensures var s0 := State([], []);
      var (s1, reg) := Register(s0, "sunny", "sunny@ajiozi.com", "newpassword", initialActive);
      var (_, bad) := Login(s1, "sunny@ajiozi.com", "sunny@ajiozi.com", now);
      var (s2, ok) := Login(s1, "sunny@ajiozi.com", "newpassword", now);
      var (s3, out) := Logout(s2, Some(ok.token), now);
      var (s4, edit) := Edit(s3, Some(ok.token), now, "1", Some("sunny2"), None);
      && reg == Registered(1)
      && bad == WrongCredentials
      && ok.LoggedIn? && !IsEmpty(ok.token)
      && out == Done
      && edit == Denied(Revoked) && s4 == s3
  {
    var s1 := Register(State([], []), "sunny", "sunny@ajiozi.com", "newpassword", initialActive).0;
    assert FirstWithEmail(s1.users, "sunny@ajiozi.com") == Some(0);
    var s2 := Login(s1, "sunny@ajiozi.com", "newpassword", now).0;
    var t := Issue("sunny@ajiozi.com", now);
    assert FirstWithEmail(s2.users, "sunny@ajiozi.com") == Some(0);
    assert Guard(s2, Some(t), now) == Admit(0);
    var s3 := Logout(s2, Some(t), now).0;
    assert RevokedCount(s3.blocklist, t) == 1;
    assert Guard(s3, Some(t), now) == Reject(Revoked);
  }
}
