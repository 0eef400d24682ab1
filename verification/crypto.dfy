/** The two foreign libraries the server calls, kept opaque: bcrypt's
    `hash`/`compare` and jsonwebtoken's `sign`/`verify`. They are values of
    `Primitives`, passed to every handler that uses them, so the model says
    nothing about their internals. The signing secret, the salt drawn by
    `bcrypt.hash(password, 10)` and the clock that decides token expiry are
    all folded into the chosen functions. */
module Crypto {
  import opened Wrappers

  /** The fields of a decoded token payload that the server reads. A payload
      lacking a field (or a payload that is not an object at all) reads as
      `None` there. */
  datatype Claims = Claims(role: Option<string>, registrationId: Option<string>, staffId: Option<string>)

  /** The payload signed at student login: the role and the stored id, nothing else. */
  function StudentClaims(registrationId: string): Claims {
    Claims(Some("student"), Some(registrationId), None)
  }

  /** The payload signed at admin login: the role and the stored id, nothing else. */
  function AdminClaims(staffId: string): Claims {
    Claims(Some("admin"), None, Some(staffId))
  }

  /** `hash(password)`, `compare(password, hash)`, `sign(claims)` and
      `verify(token)`; `verify` yields `None` exactly where jsonwebtoken
      throws (bad signature, malformed token, expired). */
  datatype Primitives = Primitives(
    hash: string -> string,
    compare: (string, string) -> bool,
    sign: Claims -> string,
    verify: string -> Option<Claims>)

  /** What the two libraries promise their callers and the server takes for
      granted: `compare` accepts a password against its own hash, a signed
      token contains no space (a JWT is three base64url segments joined by
      dots), and a signed token verifies to the claims it was signed with.
      `c` is the pair of libraries at one instant, so a token signed and
      verified with the same `c` has not expired in between. */
  ghost predicate Sound(c: Primitives) {
    && (forall pw :: c.compare(pw, c.hash(pw)))
    && (forall cl :: ' ' !in c.sign(cl) && c.verify(c.sign(cl)) == Some(cl))
  }
}
