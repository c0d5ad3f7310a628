/**
 * The PBKDF2 password hasher (PBKDF2 of section 5.2 of RFC 8018, with
 * HMAC-SHA256 and a 32-byte key). A stored credential is the text
 * `alg$iterations$hex(salt)$hex(key)`; the salt is the server-wide secret.
 */
module Pbkdf2Hasher {
  import opened Wrappers
  import opened Strings
  import opened Format

  /** `pbkdf2.Key(password, salt, iterations, sha256.Size, sha256.New)`, a library primitive. */
  type Kdf = (Bytes, Bytes, int) -> Bytes

  const TAG: Bytes := Ascii("pbkdf2")

  /** The hasher's fields; nothing assigns them after construction. */
  datatype Hasher = Hasher(alg: Bytes, iterations: int, secret: Bytes)

  datatype CompareError = InvalidHashedPassword | PasswordsDoNotMatch

  /** `NewPBKDF2Hasher`: the tag is always "pbkdf2"; iterations and secret are kept as given. */
  function NewPbkdf2Hasher(iterations: int, secret: Bytes): (h: Hasher)
    ensures h.alg == TAG && h.iterations == iterations && h.secret == secret
    ensures DOLLAR !in h.alg
  {
    Hasher(TAG, iterations, secret)
  }

  /** The four `$`-separated fields of a stored credential, as `Sprintf("%s$%s$%s$%s")` writes them. */
  function Credential(alg: Bytes, iterations: Bytes, salt: Bytes, key: Bytes): Bytes
  {
    Join([alg, iterations, salt, key], DOLLAR)
  }

  /**
   * `GenerateFromPassword` (its error result is always nil): the tag, the
   * iteration count in decimal, the secret in hex and the derived key in hex.
   * With a tag free of '$' the text splits back into exactly those four fields.
   */
  function GenerateFromPassword(kdf: Kdf, h: Hasher, password: Bytes): (r: Bytes)
    ensures DOLLAR !in h.alg ==>
      Split(r, DOLLAR) == [h.alg, Decimal(h.iterations), Hex(h.secret), Hex(kdf(password, h.secret, h.iterations))]
  {
    var key := kdf(password, h.secret, h.iterations);
    var r := Credential(h.alg, Decimal(h.iterations), Hex(h.secret), Hex(key));
    var fields := [h.alg, Decimal(h.iterations), Hex(h.secret), Hex(key)];
    assert DOLLAR !in h.alg ==> Split(r, DOLLAR) == fields by {
      if DOLLAR !in h.alg { SplitJoin(fields, DOLLAR); }
    }
    r
  }

  /**
   * `CompareHashAndPassword`, as written: the stored text must have four
   * `$`-fields; the key is re-derived with the hasher's own iteration count,
   * salted with the bytes of the stored salt FIELD (its hex text), and the
   * re-encoded credential must equal the stored one. None stands for a nil error.
   */
  function CompareHashAndPassword(kdf: Kdf, h: Hasher, hashed: Bytes, password: Bytes): (err: Option<CompareError>)
    ensures err == Some(InvalidHashedPassword) <==> |Split(hashed, DOLLAR)| != 4
    ensures err.Some? ==> err.value == InvalidHashedPassword || err.value == PasswordsDoNotMatch
  {
    var fields := Split(hashed, DOLLAR);
    if |fields| != 4 then Some(InvalidHashedPassword)
    else
      var iterations, salt := fields[1], fields[2];
      var key := kdf(password, salt, h.iterations);
      if hashed != Credential(h.alg, iterations, salt, Hex(key)) then Some(PasswordsDoNotMatch)
      else None
  }

  /**
   * A stored credential is accepted exactly when it has four fields, its tag
   * is the hasher's own and its key field is the hex of the key derived from
   * the password and the salt field. The stored iteration field is not used.
   */
  lemma CompareAcceptsIff(kdf: Kdf, h: Hasher, hashed: Bytes, password: Bytes)
    requires DOLLAR !in h.alg
    ensures var fields := Split(hashed, DOLLAR);
      CompareHashAndPassword(kdf, h, hashed, password) == None <==>
        |fields| == 4 && fields[0] == h.alg && fields[3] == Hex(kdf(password, fields[2], h.iterations))
  {
    var fields := Split(hashed, DOLLAR);
    if |fields| == 4 {
      var key := Hex(kdf(password, fields[2], h.iterations));
      var rebuilt := [h.alg, fields[1], fields[2], key];
      assert hashed == Credential(fields[0], fields[1], fields[2], fields[3]) by {
        assert fields == [fields[0], fields[1], fields[2], fields[3]];
      }
      SplitJoin(rebuilt, DOLLAR);
    }
  }

  /**
   * Generation followed by comparison, as written, accepts the right password
   * only when PBKDF2 gives the same key for the raw secret and for its hex text.
   */
  lemma GenerateThenCompare(kdf: Kdf, h: Hasher, password: Bytes)
    requires DOLLAR !in h.alg
    ensures CompareHashAndPassword(kdf, h, GenerateFromPassword(kdf, h, password), password) == None
      <==> kdf(password, h.secret, h.iterations) == kdf(password, Hex(h.secret), h.iterations)
  {
    var hashed := GenerateFromPassword(kdf, h, password);
    CompareAcceptsIff(kdf, h, hashed, password);
    var k1, k2 := kdf(password, h.secret, h.iterations), kdf(password, Hex(h.secret), h.iterations);
    if Hex(k1) == Hex(k2) {
      HexInjective(k1, k2);
    }
  }

  /**
   * The salts differ for every non-empty secret (the hex text is twice as
   * long), so a key derivation that separates them rejects the hasher's own
   * output for the right password.
   */
  lemma GenerateThenCompareFails(kdf: Kdf, h: Hasher, password: Bytes)
    requires DOLLAR !in h.alg
    requires kdf(password, h.secret, h.iterations) != kdf(password, Hex(h.secret), h.iterations)
    ensures h.secret != [] && Hex(h.secret) != h.secret
    ensures CompareHashAndPassword(kdf, h, GenerateFromPassword(kdf, h, password), password) == Some(PasswordsDoNotMatch)
  {
    GenerateThenCompare(kdf, h, password);
  }

  /**
   * With a derivation that yields `sha256.Size` (32) bytes, the stored key
   * field is 64 hex characters and the salt field twice the secret's length.
   */
  lemma KeyFieldLength(kdf: Kdf, h: Hasher, password: Bytes)
    requires DOLLAR !in h.alg
    requires forall p, s, i :: |kdf(p, s, i)| == 32
    ensures |Split(GenerateFromPassword(kdf, h, password), DOLLAR)| == 4
    ensures |Split(GenerateFromPassword(kdf, h, password), DOLLAR)[2]| == 2 * |h.secret|
    ensures |Split(GenerateFromPassword(kdf, h, password), DOLLAR)[3]| == 64
  {
    assert |kdf(password, h.secret, h.iterations)| == 32;
  }

  /** A concrete instance: secret [0x01], whose hex text is "01", under a derivation that keeps the salt. */
  lemma SaltMismatchWitness()
    ensures var kdf: Kdf := (p, s, i) => s;
      var h := NewPbkdf2Hasher(4096, [0x01]);
      CompareHashAndPassword(kdf, h, GenerateFromPassword(kdf, h, Ascii("secret123")), Ascii("secret123"))
        == Some(PasswordsDoNotMatch)
  {
    var kdf: Kdf := (p, s, i) => s;
    var h := NewPbkdf2Hasher(4096, [0x01]);
    assert Hex([0x01]) == [0x30, 0x31];
    GenerateThenCompareFails(kdf, h, Ascii("secret123"));
  }

  /**
   * The comparison as evidently intended: the salt field is read back from
   * hex, so the key is re-derived from the same salt bytes that generation used.
   */
  function CompareHashAndPasswordFixed(kdf: Kdf, h: Hasher, hashed: Bytes, password: Bytes): (err: Option<CompareError>)
    ensures |Split(hashed, DOLLAR)| != 4 ==> err == Some(InvalidHashedPassword)
  {
    var fields := Split(hashed, DOLLAR);
    if |fields| != 4 then Some(InvalidHashedPassword)
    else
      match Unhex(fields[2])
      case None => Some(InvalidHashedPassword)
      case Some(salt) =>
        var key := kdf(password, salt, h.iterations);
        if hashed != Credential(h.alg, fields[1], fields[2], Hex(key)) then Some(PasswordsDoNotMatch)
        else None
  }

  /**
   * With the fix, a generated credential verifies against a password exactly
   * when that password derives the same key: always for the right password,
   * for any key derivation function.
   */
  lemma GenerateThenCompareFixed(kdf: Kdf, h: Hasher, password: Bytes, attempt: Bytes)
    requires DOLLAR !in h.alg
    ensures CompareHashAndPasswordFixed(kdf, h, GenerateFromPassword(kdf, h, password), attempt) == None
      <==> kdf(attempt, h.secret, h.iterations) == kdf(password, h.secret, h.iterations)
    ensures CompareHashAndPasswordFixed(kdf, h, GenerateFromPassword(kdf, h, password), password) == None
  {
    var hashed := GenerateFromPassword(kdf, h, password);
    var fields := [h.alg, Decimal(h.iterations), Hex(h.secret), Hex(kdf(password, h.secret, h.iterations))];
    assert Split(hashed, DOLLAR) == fields;
    UnhexHex(h.secret);
    var k := kdf(attempt, h.secret, h.iterations);
    if Hex(k) == Hex(kdf(password, h.secret, h.iterations)) {
      HexInjective(k, kdf(password, h.secret, h.iterations));
    }
    if hashed == Credential(h.alg, fields[1], fields[2], Hex(k)) {
      SplitJoin([h.alg, fields[1], fields[2], Hex(k)], DOLLAR);
    }
  }
}
