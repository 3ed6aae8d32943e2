/** Password hashing, modelled symbolically. A bcrypt digest is the term
    Bcrypt(salt, secret): nothing in the model reads the secret back except
    VerifyPassword, which compares it with a candidate. The salt stands for
    bcrypt's random salt and is supplied by the caller. */
module Credentials {

  datatype Digest = Bcrypt(salt: int, secret: string)

  function HashPassword(password: string, salt: int): Digest
  {
    Bcrypt(salt, password)
  }

  predicate VerifyPassword(hashed: Digest, password: string)
  {
    hashed.secret == password
  }

  /** A digest accepts the password it was made from, and only that one. */
  lemma VerifyHashed(password: string, candidate: string, salt: int)
    ensures VerifyPassword(HashPassword(password, salt), candidate) <==> candidate == password
  {
  }
}
