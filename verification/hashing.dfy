/** The password hasher (bcrypt in the source), kept abstract.

    The model only needs what the handlers rely on: verifying a password
    against a digest succeeds exactly when the digest was made from that
    password. Salting and the cost factor are not modelled. */
module Hashing {

  datatype Digest = Digest(source: string)

  /** bcrypt.hash(password, 10) */
  function Hash(password: string): Digest {
    Digest(password)
  }

  /** bcrypt.compare(password, digest) */
  predicate Verify(password: string, digest: Digest) {
    Hash(password) == digest
  }

  lemma VerifyHash(p: string, q: string)
    ensures Verify(p, Hash(q)) <==> p == q
  {
  }
}
