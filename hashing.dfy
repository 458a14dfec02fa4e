/** A stand-in for bcrypt with cost factor 10. The random salt is a parameter. The
    store relies on two facts: `Verify(p, Hash(p, salt))` holds, and the digest
    never equals the plaintext. The stand-in also verifies no other password,
    which real bcrypt does not guarantee (it reads only the first 72 bytes). */
module Hashing {

  /** bcrypt's version and cost prefix for `bcrypt.hash(password, 10)`. */
  const Prefix := "$2b$10$"

  /** bcrypt salts are 22 characters of its base-64 alphabet. */
  const SaltLength := 22

  /** `bcrypt.hash(password, 10)` with the salt it draws. */
  function Hash(password: string, salt: string): (h: string)
    requires |salt| == SaltLength
    ensures Verify(password, h)
    ensures h != password
    ensures h[..|Prefix|] == Prefix
  {
    var h := Prefix + salt + password;
    assert h[|Prefix| + SaltLength..] == password;
    h
  }

  /** `bcrypt.compare(password, hash)`: only a digest with the bcrypt prefix
      verifies, and no password verifies against itself. */
  function Verify(password: string, hash: string): (b: bool)
    ensures b ==> |hash| >= |Prefix| && hash[..|Prefix|] == Prefix
    ensures b ==> hash != password
  {
    && |hash| >= |Prefix| + SaltLength
    && hash[..|Prefix|] == Prefix
    && hash[|Prefix| + SaltLength..] == password
  }

  /** For the stand-in, only the password that was hashed verifies against the digest. */
  lemma VerifyOnlyOriginal(password: string, other: string, salt: string)
    requires |salt| == SaltLength
    ensures Verify(other, Hash(password, salt)) <==> other == password
  {
    var h := Hash(password, salt);
    assert h[|Prefix| + SaltLength..] == password;
  }
}
