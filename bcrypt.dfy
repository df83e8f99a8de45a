/** The part of `bcryptjs` the server relies on: a salted one-way `hash` and
    `compare`. Both are given as functions, so nothing about the digest itself
    is assumed beyond what a lemma states it needs. */
module Bcrypt {
  import opened Js

  /** `hash(password, salt)`; `compare(password, storedHash)` is `None` when
      the library throws ("Error comparing passwords"). */
  datatype Hasher = Hasher(hash: (string, string) -> string, compare: (string, string) -> Option<bool>)

  /** The library's own promise: a password always matches its own hash,
      whatever the salt. */
  ghost predicate AcceptsOwnHash(b: Hasher)
  {
    forall password, salt :: b.compare(password, b.hash(password, salt)) == Some(true)
  }
}
