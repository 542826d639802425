/** The password hasher of Services/PasswordHasher.cs: Argon2id with fixed
    cost parameters, a 16-byte salt and a 32-byte output, both stored as
    base 64 text. */
module PasswordHasher {
  import opened Common
  import Text
  import Base64

  // The fixed cost and size constants; no caller can supply others.
  const MemorySize: nat := 65536        // KiB
  const Iterations: nat := 3
  const DegreeOfParallelism: nat := 4
  const SaltSize: nat := 16
  const HashSize: nat := 32

  datatype Argon2Params = Argon2Params(memorySize: nat, iterations: nat, parallelism: nat)

  /** The one cost setting both HashPassword and VerifyPassword use. */
  const Cost: Argon2Params := Argon2Params(MemorySize, Iterations, DegreeOfParallelism)

  /** Argon2id as a deterministic function of the cost setting, the password
      bytes, the salt and the requested output length; None where the
      library throws. */
  type Argon2id = (Argon2Params, seq<byte>, seq<byte>, nat) -> Option<seq<byte>>

  /** What the model relies on: with a salt of SaltSize bytes the function
      succeeds and returns exactly as many bytes as requested. */
  ghost predicate ValidArgon2id(kdf: Argon2id) {
    forall cost, password, salt, n {:trigger kdf(cost, password, salt, n)} ::
      |salt| == SaltSize ==>
        kdf(cost, password, salt, n).Some? && |kdf(cost, password, salt, n).value| == n
  }

  /** A stored credential: the base 64 of the derived hash and of the salt. */
  datatype Credential = Credential(hash: string, salt: string)

  /** The derived bytes for a password, under the fixed cost setting. */
  function Derive(kdf: Argon2id, password: string, salt: seq<byte>): Option<seq<byte>> {
    kdf(Cost, Text.Utf8(password), salt, HashSize)
  }

  /** HashPassword. The salt stands for the 16 bytes the secure random
      generator produces; any password, the empty one included, is hashed. */
  function HashPassword(kdf: Argon2id, password: string, salt: seq<byte>): (c: Credential)
    requires ValidArgon2id(kdf)
    requires |salt| == SaltSize
    ensures |c.salt| == 24 && |c.hash| == 44
    ensures Base64.Decode(c.salt) == Some(salt)
    ensures Base64.Decode(c.hash) == Derive(kdf, password, salt)
  {
    var hash := Derive(kdf, password, salt).value;
    Base64.SaltAndHashLengths(salt, hash);
    Base64.RoundTrip(salt);
    Base64.RoundTrip(hash);
    Credential(Base64.Encode(hash), Base64.Encode(salt))
  }

  /** VerifyPassword: decode the salt, derive again with the same cost
      setting, and compare the base 64 text with the stored hash exactly.
      Every failure, a malformed salt included, is `false`. */
  function VerifyPassword(kdf: Argon2id, password: string, storedHash: string, storedSalt: string): (ok: bool)
    ensures Base64.Decode(storedSalt).None? ==> !ok
    ensures ok ==> |Base64.Strip(storedSalt)| % 4 == 0
    ensures ok ==> Base64.Decode(storedHash) == Derive(kdf, password, Base64.Decode(storedSalt).value)
    ensures ok ==> && Base64.Decode(storedSalt).Some?
                   && Derive(kdf, password, Base64.Decode(storedSalt).value).Some?
                   && storedHash == Base64.Encode(Derive(kdf, password, Base64.Decode(storedSalt).value).value)
  {
    match Base64.Decode(storedSalt)
    case None => false
    case Some(saltBytes) =>
      match Derive(kdf, password, saltBytes)
      case None => false
      case Some(hashBytes) =>
        Base64.RoundTrip(hashBytes);
        Base64.Encode(hashBytes) == storedHash
  }

  /** The password a credential was made from verifies against it. */
  lemma VerifyHashed(kdf: Argon2id, password: string, salt: seq<byte>)
    requires ValidArgon2id(kdf)
    requires |salt| == SaltSize
    ensures var c := HashPassword(kdf, password, salt);
            VerifyPassword(kdf, password, c.hash, c.salt)
  {
    var hash := Derive(kdf, password, salt).value;
    Base64.RoundTrip(salt);
    Base64.RoundTrip(hash);
  }

  /** The hash is compared as text, not as bytes: a stored hash with a line
      break appended decodes to the same bytes and is still refused. */
  lemma PaddedHashRejected(kdf: Argon2id, password: string, salt: seq<byte>)
    requires ValidArgon2id(kdf)
    requires |salt| == SaltSize
    ensures var c := HashPassword(kdf, password, salt);
            && Base64.Decode(c.hash + "\n") == Base64.Decode(c.hash)
            && !VerifyPassword(kdf, password, c.hash + "\n", c.salt)
  {
    var c := HashPassword(kdf, password, salt);
    Base64.RoundTrip(salt);
    Base64.DecodeIgnoresSkipped(c.hash, "", "\n");
    assert c.hash + "\n" + "" == c.hash + "\n" && c.hash + "" == c.hash;
    assert |c.hash + "\n"| == 45;
  }

  /** The stored salt is read by `Convert.FromBase64String`, so skipped
      white space anywhere in it makes no difference to the answer. */
  lemma VerifyIgnoresWhiteSpace(kdf: Argon2id, password: string, storedHash: string,
                                a: string, b: string, pad: string)
    requires forall i :: 0 <= i < |pad| ==> Base64.IsSkipped(pad[i])
    ensures VerifyPassword(kdf, password, storedHash, a + pad + b) == VerifyPassword(kdf, password, storedHash, a + b)
  {
    Base64.DecodeIgnoresSkipped(a, b, pad);
  }

  /** In particular a line break an administrator's patch leaves after a
      stored salt does not stop the password from verifying. */
  lemma VerifyToleratesTrailingWhiteSpace(kdf: Argon2id, password: string, salt: seq<byte>, pad: string)
    requires ValidArgon2id(kdf)
    requires |salt| == SaltSize
    requires forall i :: 0 <= i < |pad| ==> Base64.IsSkipped(pad[i])
    ensures var c := HashPassword(kdf, password, salt);
            VerifyPassword(kdf, password, c.hash, c.salt + pad)
  {
    var c := HashPassword(kdf, password, salt);
    VerifyHashed(kdf, password, salt);
    VerifyIgnoresWhiteSpace(kdf, password, c.hash, c.salt, [], pad);
    assert c.salt + pad + [] == c.salt + pad;
    assert c.salt + [] == c.salt;
  }

  /** A password whose derived bytes differ from those of the hashed one
      does not verify: the comparison is exact. */
  lemma OtherPasswordRejected(kdf: Argon2id, password: string, other: string, salt: seq<byte>)
    requires ValidArgon2id(kdf)
    requires |salt| == SaltSize
    requires Derive(kdf, password, salt) != Derive(kdf, other, salt)
    ensures var c := HashPassword(kdf, password, salt);
            !VerifyPassword(kdf, other, c.hash, c.salt)
  {
    Base64.RoundTrip(salt);
  }
}
