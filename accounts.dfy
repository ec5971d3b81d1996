/**
 * User records as the handlers see them: an id, a username, an email, a
 * password hash and the "JWT auth active" flag. The record class and its
 * password helpers live in api/models.py, which is not part of this model;
 * only what the handlers rely on is modelled here.
 */
module Accounts {
  import opened Wrappers

  /**
   * A stored password hash. Salt and hash algorithm are abstracted away: the
   * hash records which password it was made from, and nothing else.
   */
  datatype PasswordHash = Hashed(secret: string)

  /** What `set_password` stores for a plaintext password. */
  function HashPassword(password: string): (h: PasswordHash)
    ensures forall candidate :: Matches(h, candidate) <==> candidate == password
  {
    Hashed(password)
  }

  /** What `check_password` answers: does `candidate` match the stored hash? */
  predicate Matches(h: PasswordHash, candidate: string) {
    h.secret == candidate
  }

  datatype User = User(id: nat, username: string, email: string, password: PasswordHash, active: bool)

  /** Some row of the table holds this email. */
  ghost predicate HasEmail(users: seq<User>, email: string) {
    exists j :: 0 <= j < |users| && users[j].email == email
  }

  /** Row `i` is the first row holding `email`: the row `get_by_email` returns. */
  ghost predicate FirstHolder(users: seq<User>, email: string, i: int) {
    && 0 <= i < |users|
    && users[i].email == email
    && forall j :: 0 <= j < i ==> users[j].email != email
  }

  /**
   * `Users.get_by_email`: the first row, in insertion order, whose email is
   * `email`, or nothing when no row holds it.
   */
  function FirstWithEmail(users: seq<User>, email: string): (r: Option<nat>)
    ensures r.Some? ==> FirstHolder(users, email, r.value)
    ensures r.None? <==> !HasEmail(users, email)
  {
    if |users| == 0 then None
    else if users[0].email == email then Some(0)
    else
      match FirstWithEmail(users[1..], email)
      case None => None
      case Some(k) => Some(k + 1)
  }

  /** No two rows share an email. */
  ghost predicate UniqueEmails(users: seq<User>) {
    forall j, k :: 0 <= j < k < |users| ==> users[j].email != users[k].email
  }
}
