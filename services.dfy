/**
 * The foreign libraries the handlers call, as uninterpreted functions:
 * `bcryptjs` (hash, compare) and `jsonwebtoken` (sign, verify).
 * Randomness (the salt) and the clock (`now`, in seconds) are parameters.
 */
module Services {
  import opened Wrappers
  import opened Js

  /** The salt `bcrypt.hash` draws at random. */
  type Salt = int

  /** `bcrypt.hash(password, rounds)` with its salt made explicit, and
      `bcrypt.compare(password, hash)` (None: the promise rejects). */
  datatype Crypto = Crypto(hash: (string, int, Salt) -> string, compare: (string, string) -> Option<bool>)

  /** The signing key `process.env.JWT_SECRET`, possibly unset. */
  type Secret = Option<string>

  /** `jwt.sign(payload, key, { expiresIn })` (None: it throws) and
      `jwt.verify(token, key)` (None: the callback gets an error; otherwise
      the decoded claims). */
  datatype TokenService = TokenService(
    sign: (Js, Secret, int, int) -> Option<string>,
    verify: (string, Secret, int) -> Option<seq<Prop>>)

  /** What the handlers assume of bcrypt: a hash verifies against the
      password it was computed from and differs from it. */
  ghost predicate SoundHasher(c: Crypto) {
    forall p, rounds, salt :: c.compare(p, c.hash(p, rounds, salt)) == Some(true) && c.hash(p, rounds, salt) != p
  }

  /** An unset or empty key makes `jwt.sign` throw and `jwt.verify` fail. */
  ghost predicate FailsClosed(t: TokenService) {
    && (forall payload, life, now :: t.sign(payload, None, life, now).None? && t.sign(payload, Some(""), life, now).None?)
    && (forall token, now :: t.verify(token, None, now).None? && t.verify(token, Some(""), now).None?)
  }
}
