# Credential lifecycle of the users API

This project models the part of the users API (`api/routes.py`) that handles
credentials. It covers the `token_required` guard and the four handlers that
change the store:

- `Register.post` creates a user.
- `Login.post` checks the password, mints a 30-minute JWT and turns the user's
  "JWT auth active" flag on.
- `LogoutUser.post` puts the presented token on the blocklist and turns the flag off.
- `EditUser.post` overwrites the username and/or email.

The store has two tables: the users, in insertion order, and the token
blocklist.

Modules:

- `Wrappers` holds `Option`.
- `Jwt` holds the token and its claims `{email, exp}`. `Issue` mints a token
  valid for 1800 seconds. `Decode` accepts a token only while the current time
  is strictly before `exp` (section 4.1.4 of RFC 7519). HMAC-SHA256 signing
  (section 3.2 of RFC 7518) is abstracted: a token is either `Signed(claims)`
  or `Garbage(text)`.
- `Accounts` holds the user record, the password-hash abstraction and
  `FirstWithEmail`, which is `Users.get_by_email`: the first row with that email.
- `Auth` holds the pure model:
  - the store snapshot `State`;
  - the guard `Guard`, a read-only function of a snapshot;
  - the handlers as functions from a state to the next state and the answer;
  - `Step` and `Run`, which apply a sequence of requests.
- `AuthProps` proves the lifecycle properties:
  - the store invariant;
  - revocation is permanent;
  - the login/guard round trip;
  - relogin behaviour;
  - email uniqueness under register, and its loss under edit.
- `Routes` holds the class `Store`. Its fields `users` and `blocklist` are
  updated in place by `Register`, `Login`, `Logout` and `Edit`. Each method is
  proved to perform the transition of its namesake in `Auth` and to keep the
  invariant. A rejected `Logout` or `Edit` changes neither table.

The guard is a function of a snapshot, so it cannot change the store,
whatever its outcome. Its checks run in a fixed order:

1. missing or empty token: "Valid JWT token is missing"
2. signature or expiry failure: "Token is invalid"
3. no user holds the email: "Sorry. Wrong auth token. This user does not exist."
4. token on the blocklist: "Token revoked."
5. flag off: "Token expired."

The blocklist query uses `.scalar()`, which raises when it finds more than one
row. The bare `except` turns that into "Token is invalid". The model keeps
that branch, and `AuthProps.GuardInvalidMeansUndecodable` shows it cannot be
reached in any store that satisfies the invariant.

The logout and edit handlers act on the authenticated user. The guard wraps
the plain function `post`, so the resource arrives as the first positional
argument. The guard then calls `f(current_user, *args)`, which binds the user
to the handler's `self`. That is why `self.set_jwt_auth_active(False)`,
`self.update_username`, `self.update_email` and `self.save()` at
api/routes.py:172-177 and 196-197 update that user's record. `Auth.Logout` and
`Auth.Edit` model this code as written.

## Model

| member | source | states |
|---|---|---|
| Jwt.Decode | api/routes.py:62-63 | A token decodes iff it is signed with the server key and the current time is strictly before its `exp`; the decoded claims are the token's own |
| Jwt.Issue | api/routes.py:146 | The minted token is non-empty, decodes exactly at the instants before `now + 1800`, and names the logged-in email |
| Jwt.IssueDistinguishesSeconds | api/routes.py:146 | Two tokens for one email are the same string iff they were minted in the same second |
| Accounts.HashPassword | api/routes.py:113 | The stored hash matches a candidate password iff it is the password it was made from |
| Accounts.FirstWithEmail | api/routes.py:64 | Returns the first row holding the email, or nothing exactly when no row holds it |
| Auth.RevokedCount | api/routes.py:70 | Gives the number of blocklist rows holding a token, which is the count `.scalar()` splits into none, one and more than one. It is zero iff no row holds the token |
| Auth.Claim | api/routes.py:54-63 | Gives claims iff a non-empty token was sent and it decodes now; the token is the signed form of those claims |
| Auth.Guard | api/routes.py:49-83 | Rejections follow the fixed order missing, invalid, unknown user, revoked, session off, each stated iff; admits iff all checks pass, and then gives the first row holding the token's email, whose flag is on |
| Auth.Register | api/routes.py:98-118 | Fails with "Email already taken" iff some user holds the email, and then changes nothing. Otherwise it appends exactly one user with the next autoincrement id, that email and username, the password hash and the default flag; it returns that id and changes nothing else |
| Auth.Login | api/routes.py:128-153 | Unknown email iff no user holds it; wrong credentials iff the first holder's hash does not match; failures change nothing; success returns `Issue(email, now)`, turns only that user's flag on and returns the updated record |
| Auth.Logout | api/routes.py:189-199 | A rejection by the guard changes nothing. Otherwise the presented token, stamped with the current time, is appended to the blocklist, and the authenticated user's record becomes the same record with the flag off; every other record is unchanged |
| Auth.Edit | api/routes.py:164-179 | A rejection by the guard changes nothing; otherwise only the authenticated user's username and email change, each to the body's value when it is given non-empty; `userID` plays no part |
| AuthProps.RevokedCountAtMostOne | api/routes.py:70-72 | In a blocklist without duplicates a token occupies at most one row |
| AuthProps.GuardInvalidMeansUndecodable | api/routes.py:62-79 | In a store satisfying the invariant, "Token is invalid" means a token was sent and did not verify or had expired |
| AuthProps.StepGrowsBlocklist | api/routes.py:193-194 | Every request leaves the blocklist unchanged or appends one row whose token was not yet revoked |
| AuthProps.StepPreservesInvariant | api/routes.py:98-199 | Every request keeps user ids sequential and the blocklist free of duplicates |
| AuthProps.RunPreservesInvariant | api/routes.py:98-199 | Any sequence of requests keeps the invariant |
| AuthProps.RunGrowsBlocklist | api/routes.py:193-194 | After any sequence of requests the old blocklist is a prefix of the new one |
| AuthProps.RevokedTokenNeverAdmitted | api/routes.py:70-73 | After a logout revokes a token, no later sequence of requests lets the guard admit it or answer "Token expired."; while it is within `exp` and its email names a user, the answer is "Token revoked." |
| AuthProps.LoginRoundTrip | api/routes.py:146-149 | The token from a successful login is admitted for the logged-in user's row at every instant before 30 minutes and refused as invalid from then on, provided that token was not already revoked |
| AuthProps.UnknownEmailIgnoresPassword | api/routes.py:135-139 | A login for an unknown email gives the same answer and state whatever the password |
| AuthProps.SameSecondReloginIsRevoked | api/routes.py:146 | When login, logout and relogin fall within one second, the relogin yields the token that logout revoked, and the guard refuses it as revoked. This holds for every store |
| AuthProps.ReloginAfterLogoutAdmitted | api/routes.py:146-149 | After a logout revokes a token issued in any second, a relogin in a different second yields a token the guard admits, unless that token was revoked before |
| AuthProps.ReloginAfterLogoutReachable | api/routes.py:189-199 | A login at 0, logout at 100 and relogin at 200 meets the conditions of `ReloginAfterLogoutAdmitted` |
| AuthProps.LogoutEndsSession | api/routes.py:75-76 | After logout, every other unrevoked, unexpired token of the same user is refused with "Token expired." |
| AuthProps.EditStoresUsername | api/routes.py:171-172 | An admitted edit with a non-empty username stores it on the authenticated user and answers success (a corollary of `Auth.Edit`, stated on its own) |
| AuthProps.RegisterKeepsEmailsUnique | api/routes.py:106-109 | Registration preserves unique emails |
| AuthProps.EditCanDuplicateEmails | api/routes.py:174-175 | There is a valid store with unique emails in which an admitted edit produces two users with one email |
| AuthProps.EditEmailOrphansToken | api/routes.py:174-175 | When an edit changes the email and no other user holds the old email, the token used for the edit names an email no user holds, and the guard answers "user does not exist" |
| AuthProps.SignupLoginLogoutScenario | tests.py:24-99 | Register, correct login and wrong-password login follow tests.py:24-41, 64-80 and 83-99. The model adds id 1, a logout, and an edit with the same token, which is refused as revoked and changes nothing |
| Routes.Store.constructor | api/routes.py:17 | Both tables start empty; the flag a new user gets is a parameter |
| Routes.Store.Register | api/routes.py:98-118 | Updates the tables in place exactly as `Auth.Register` and keeps the invariant |
| Routes.Store.Login | api/routes.py:128-153 | Updates the tables in place exactly as `Auth.Login` and keeps the invariant |
| Routes.Store.Logout | api/routes.py:189-199 | Updates the tables in place exactly as `Auth.Logout`, leaves them untouched on rejection, and keeps the invariant |
| Routes.Store.Edit | api/routes.py:164-179 | Updates the tables in place exactly as `Auth.Edit`, leaves them untouched on rejection, and keeps the invariant |

## Left out

- HMAC-SHA256 signing and PyJWT decoding (api/routes.py:63, 146) are abstracted as the `Signed`/`Garbage` token datatype.
  - A forged, wrong-key, wrong-algorithm or malformed token is `Garbage`.
  - A token that verifies but lacks the `email` claim would raise `KeyError` at line 64, and the same `except` catches it. It is folded into `Garbage`.
- Jwt.Decode: assumes every claims set has exactly one accepted token string. PyJWT decodes base64url leniently. For example, the unused low bits of the last signature character are ignored, so a second spelling of a signed token also verifies. The blocklist query at api/routes.py:70 matches exact strings, so such a respelling of a revoked token is not found there. `AuthProps.RevokedTokenNeverAdmitted` is proved for the exact revoked string only.
- Time is whole seconds. `datetime.utcnow() + 30 min` is truncated to a whole-second `exp`. PyJWT rejects when `exp <= now`, and with an integer `exp` that is the same as `now < exp` on whole seconds.
- Password hashing: `set_password`/`check_password` live in api/models.py, which is not part of this model. A hash is modelled as recording its password, with no salt and no collisions.
- `get_by_email` is in api/models.py, which is not part of this model. It is modelled as the first row in insertion order, which is what `.first()` returns without an `ORDER BY` on the usual engines.
- User ids follow the table's autoincrement key, which is not visible either. The model numbers rows 1, 2, 3, … in insertion order. No handler deletes users.
- The session flag a new user gets is a column default in api/models.py. It is a constructor parameter of `Store` (`initialActive`), not a fixed value.
- `user.toJSON()` (api/routes.py:153) is modelled as the updated user record itself. The fields it serialises are not visible.
- Exceptions other than the ones named here (database failures inside the guard's `try`, for example) are not modelled.
- Tokens carry only the claims `{email, exp}`, as at api/routes.py:146. A signed token without `exp` cannot arise, because only login signs tokens.
- SQLAlchemy sessions, `save()` and commits are not modelled. The store is two in-memory sequences, and each `save()` is taken as an immediate commit.
- Flask/Flask-RESTX routing, header access and request-body validation are left out (api/routes.py:23-42, 91-97, 121-127, 156-163). This includes the length limits and the 400 answer for an invalid body.
  - The header is an `Option<Token>`: absent, or present with a value.
  - The edit body's `username` and `email` are `Option<string>`, because that body is not validated.
- HTTP status codes and response bodies are not modelled beyond the answer kinds. Every failure the handlers return is a 400 with `success: false`. `Auth.Message` gives the `msg` of the guard's five rejections. The `msg` strings of register and login failures (api/routes.py:109, 139, 143) are named only by the result constructors `EmailTaken`, `UnknownEmail` and `WrongCredentials`.
- The product sample data (`Store.products`, api/routes.py:201-468) is random and time-stamped static data with no logic, so it is left out. So are the marshmallow schemas in src/schemas/ and the image download there.
- Concurrent requests are not modelled; each request runs to completion before the next.
- The revocation list is modelled as the code keeps it: rows are never evicted. Replacing it with an expiring set is a possible redesign, not current behaviour.
