/**
 * A symbolic stand-in for bcryptjs. `Hash` plays `bcryptjs.hash(password, 10)` and
 * `Matches` plays `bcryptjs.compare(password, hash)`. The rest of the model relies on
 * one fact only, `HashMatches`: a password matches its own hash.
 */
module Bcrypt {

  datatype PasswordHash = Digest(of: string)

  function Hash(password: string): PasswordHash {
    Digest(password)
  }

  predicate Matches(password: string, h: PasswordHash) {
    h == Hash(password)
  }

  lemma HashMatches(password: string)
    ensures Matches(password, Hash(password))
  {
  }
}
