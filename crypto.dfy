/** The password hasher and the token signer. Neither is opened up: they
    are functions the server is given, with the two facts the libraries
    promise stated as `Sound`. */
module Crypto {
  import opened Values
  import opened UserModel

  /** `expiresIn: '30d'` on every issued token. */
  const TokenLifetimeDays := 30

  /** The payload every token is signed over: `{ id, email }`. */
  datatype Claims = Claims(id: Id, email: string)

  /** `hash(p)` stands for `bcrypt.hash(p, 10)`, `compare(p, h)` for
      `bcrypt.compare(p, h)`, `sign(c, days)` for `jwt.sign(c, secret,
      { expiresIn })` and `verify(t)` for `jwt.verify(t, secret)`, which
      yields the payload or nothing (forged, malformed or expired). */
  datatype Primitives = Primitives(
    hash: string -> string,
    compare: (string, string) -> bool,
    sign: (Claims, nat) -> string,
    verify: string -> Option<Claims>)

  /** A hash is never empty, a password matches its own hash, and within
      the validity window a token verifies to the payload it was signed
      over. */
  ghost predicate Sound(lib: Primitives)
  {
    && (forall p :: lib.hash(p) != "")
    && (forall p :: lib.compare(p, lib.hash(p)))
    && (forall c :: lib.verify(lib.sign(c, TokenLifetimeDays)) == Some(c))
  }

  function ClaimsOf(a: Account): Claims
  {
    Claims(a.id, a.email)
  }

  /** The token issued for an account: signed over exactly its id and
      email, for thirty days. */
  function Issue(lib: Primitives, a: Account): (token: string)
    ensures token == lib.sign(Claims(a.id, a.email), TokenLifetimeDays)
    ensures Sound(lib) ==> lib.verify(token) == Some(Claims(a.id, a.email))
  {
    lib.sign(ClaimsOf(a), TokenLifetimeDays)
  }
}
