/** A stand-in for bcrypt's `genSalt`, `hash` and `compare`. The salt is the random input of
    `genSalt(10)` and is a parameter; the digest is an injective function of the salt and the
    plaintext, so comparing answers true exactly for the password that was hashed. */
module PasswordHasher {

  /** A stored password hash: the salt it was made with and the digest. */
  datatype Hashed = Hashed(salt: nat, digest: seq<int>)

  /** Each character shifted by the salt: equal digests under one salt mean equal plaintexts. */
  function Digest(salt: nat, plain: string): (d: seq<int>)
    ensures |d| == |plain|
    ensures forall i | 0 <= i < |plain| :: d[i] == plain[i] as int + salt + 1
  {
    if plain == "" then [] else [plain[0] as int + salt + 1] + Digest(salt, plain[1..])
  }

  /** `bcrypt.hash(plain, salt)`. */
  function Hash(plain: string, salt: nat): (h: Hashed)
    ensures h.salt == salt
  {
    Hashed(salt, Digest(salt, plain))
  }

  /** `bcrypt.compare(plain, hashed)`. */
  predicate Compare(plain: string, hashed: Hashed) {
    hashed.digest == Digest(hashed.salt, plain)
  }

  /** A hash verifies the password it was made from and no other. */
  lemma CompareHash(plain: string, original: string, salt: nat)
    ensures Compare(plain, Hash(original, salt)) <==> plain == original
  {
    if Compare(plain, Hash(original, salt)) {
      assert |plain| == |original|;
      forall i | 0 <= i < |plain| ensures plain[i] == original[i] {
        assert Digest(salt, plain)[i] == Digest(salt, original)[i];
      }
    }
  }
}
