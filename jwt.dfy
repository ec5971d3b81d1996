/**
 * Session tokens: a JSON Web Token (RFC 7519) whose claims are an email and an
 * expiry time, signed with HMAC-SHA256 (section 3.2 of RFC 7518) under the
 * server's secret key. Signing and signature checking are abstracted: a token
 * either is a well-formed token signed with the server key (`Signed`), or it is
 * any other string (`Garbage`): forged, signed with another key or another
 * algorithm, malformed, or empty. Each claims set is taken to have exactly one
 * accepted spelling.
 */
module Jwt {
  import opened Wrappers

  /** Whole seconds since the Unix epoch. */
  type Time = int

  /** Lifetime of a token issued at login: 30 minutes. */
  const Lifetime: int := 30 * 60

  /** The claims set the login handler signs. */
  datatype Claims = Claims(email: string, exp: Time)

  /**
   * A token as it travels in the `authorization` header. Encoding is
   * deterministic, so two tokens with equal claims are the same string, which
   * datatype equality captures.
   */
  datatype Token = Signed(claims: Claims) | Garbage(text: string)

  /** The empty header value. A signed token is never the empty string. */
  predicate IsEmpty(t: Token) {
    t == Garbage("")
  }

  /**
   * Verifies and decodes a token at time `now`. Only a token signed with the
   * server key decodes, and only while `now` is strictly before its `exp`
   * claim (section 4.1.4 of RFC 7519).
   */
  function Decode(t: Token, now: Time): (c: Option<Claims>)
    ensures c.Some? <==> t.Signed? && now < t.claims.exp
    ensures c.Some? ==> c.value == t.claims
  {
    match t
    case Signed(claims) => if now < claims.exp then Some(claims) else None
    case Garbage(_) => None
  }

  /**
   * Mints the token for an authenticated email at time `now`: it names that
   * email and decodes at exactly the instants before `now + Lifetime`.
   */
  function Issue(email: string, now: Time): (t: Token)
    ensures !IsEmpty(t)
    ensures forall later :: Decode(t, later).Some? <==> later < now + Lifetime
    ensures forall later :: Decode(t, later).Some? ==> Decode(t, later).value.email == email
  {
    Signed(Claims(email, now + Lifetime))
  }

  /** Tokens issued for the same email in different seconds are different strings. */
  lemma IssueDistinguishesSeconds(email: string, now: Time, now': Time)
    ensures Issue(email, now) == Issue(email, now') <==> now == now'
  {
  }
}
