/** The foreign cryptography the server relies on, as opaque functions.

    Password hashing and comparison (bcrypt) and token signing and verification
    (JSON Web Tokens under a process-wide secret) are not modelled; the server
    logic is stated for any bundle of such functions, and the few facts it
    needs of them are collected in `Coherent`. */
module Tokens {
  import opened Http

  /** The token payload: subject user id and role. */
  datatype Claims = Claims(sub: string, role: Role)

  datatype Crypto = Crypto(
    hash: string -> string,
    compare: (string, string) -> bool,
    sign: Claims -> string,
    verify: string -> Option<Claims>)

  /** A password matches its own hash; a hash is never empty; a token the
      server signed (and that has not expired) verifies to the claims it was
      signed over; signed tokens are non-empty and contain no space. */
  ghost predicate Coherent(c: Crypto) {
    && (forall p :: c.compare(p, c.hash(p)))
    && (forall p :: c.hash(p) != "")
    && (forall cl :: c.verify(c.sign(cl)) == Some(cl))
    && (forall cl :: c.sign(cl) != "" && ' ' !in c.sign(cl))
  }
}
