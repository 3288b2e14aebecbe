/**
 * What both kinds of account share. Password hashing is abstract: `sha` is a collision-free digest and `matches`
 * says whether a stored hash accepts a password.
 */
module Credentials {
  datatype Crypto = Crypto(sha: string -> string, matches: (string, string) -> bool)

  ghost predicate CollisionFree(c: Crypto) {
    forall p, q :: c.sha(p) == c.sha(q) ==> p == q
  }

  /** Failed stands for an error of bcrypt or of the database. */
  datatype Status = Done | UsernameRequired | WeakPassword | UserExists | NotFound | LastAdmin | Failed

  predicate Weak(password: string) {
    |password| < 8
  }
}
