/** The bcrypt calls the resolvers make (`bcrypt.hash(p, 10)` and `bcrypt.compare(p, digest)`).
    bcrypt itself is foreign and salted; the model keeps only what the resolvers rely on:
    a digest is not a plaintext, and `compare` accepts exactly the password the digest was made from. */
module Passwords {

  /** A stored bcrypt digest. The salt is drawn at hashing time, so two hashes of one password differ;
      `source` stands for what the one-way function binds the digest to and is read only by `Compare`. */
  datatype PasswordHash = Bcrypt(salt: nat, source: string)

  /** `bcrypt.hash(password, 10)` with the salt it happened to draw. */
  function Hash(password: string, salt: nat): (digest: PasswordHash)
    ensures Compare(password, digest)
    ensures digest.salt == salt
  {
    Bcrypt(salt, password)
  }

  /** `bcrypt.compare(password, digest)`: false on a mismatch, never an error. */
  predicate Compare(password: string, digest: PasswordHash) {
    digest.source == password
  }

  /** A digest accepts the password it was made from and no other, whatever the salt. */
  lemma HashAcceptsOnlyItsPassword(password: string, other: string, salt: nat)
    ensures Compare(other, Hash(password, salt)) <==> other == password
  {
  }

  /** Re-hashing the password a digest accepts gives a digest that accepts the same passwords. */
  lemma RehashKeepsAcceptedPasswords(password: string, digest: PasswordHash, salt: nat)
    requires Compare(password, digest)
    ensures forall q :: Compare(q, Hash(password, salt)) <==> Compare(q, digest)
  {
  }
}
