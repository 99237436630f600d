/** The credential format of Services/PasswordHasher.cs: `Base64(salt) + "." + Base64(key)`, where
    the key is PBKDF2 with HMAC-SHA256 (section 5.2 of RFC 8018) over the password and a random
    16-byte salt, 10000 iterations, 32 bytes. The key derivation is an input function and the
    random salt an input value. */
module PasswordHasher {
  import opened Wrappers
  import opened Base64

  const SaltBytes := 16
  const Iterations := 10000
  const KeyBytes := 32

  /** The key derivation function: (password, salt, iteration count, key length) to key bytes. */
  type Kdf = (string, seq<byte>, int, int) -> seq<byte>

  /** `passwordHash.Split('.', 2)`: the text before the first '.' and everything after it, or
      `None` when there is no '.' (a one-element result). */
  function SplitAtFirstDot(s: string): (r: Option<(string, string)>)
    ensures r.None? <==> '.' !in s
    ensures r.Some? ==> s == r.value.0 + "." + r.value.1 && '.' !in r.value.0
  {
    if |s| == 0 then None
    else if s[0] == '.' then Some(("", s[1..]))
    else match SplitAtFirstDot(s[1..])
      case None => None
      case Some((a, b)) => Some(([s[0]] + a, b))
  }

  /** A string with no '.' before the first dot splits back into its two parts. */
  lemma {:induction false} SplitJoin(a: string, b: string)
    requires '.' !in a
    ensures SplitAtFirstDot(a + "." + b) == Some((a, b))
  {
    if a == [] {
      assert a + "." + b == ['.'] + b;
    } else {
      var s := a + "." + b;
      assert s[0] == a[0] && a[0] != '.';
      assert s[1..] == a[1..] + "." + b;
      SplitJoin(a[1..], b);
      assert [a[0]] + a[1..] == a;
    }
  }

  /** `HashPassword`, with the salt the random number generator produced: the first '.' of the
      stored value is the one after the salt's Base64, so splitting there gives back the salt text
      and the key text. */
  function HashPassword(password: string, salt: seq<byte>, kdf: Kdf): (r: string)
    requires |salt| == SaltBytes
    ensures SplitAtFirstDot(r) == Some((Encode(salt), Encode(kdf(password, salt, Iterations, KeyBytes))))
  {
    var saltText, keyText := Encode(salt), Encode(kdf(password, salt, Iterations, KeyBytes));
    SplitJoin(saltText, keyText);
    saltText + "." + keyText
  }

  /** The salt's Base64 text is 24 characters long, so the separator sits at index 24. */
  lemma SaltTextLength(password: string, salt: seq<byte>, kdf: Kdf)
    requires |salt| == SaltBytes
    ensures |Encode(salt)| == 24 && HashPassword(password, salt, kdf)[24] == '.'
  {
    assert |Encode(salt)| == 4 * ((SaltBytes + 2) / 3);
  }

  /** `VerifyPassword`: split at the first '.', decode the salt, derive the key again with the
      same parameters, and compare its Base64 text with the stored suffix. A value without '.' or
      with a salt that is not Base64 gives false. */
  function VerifyPassword(password: string, passwordHash: string, kdf: Kdf): (r: bool)
    ensures '.' !in passwordHash ==> !r
    ensures (forall a, b :: passwordHash == a + "." + b && '.' !in a ==> Decode(a).None?) ==> !r
  {
    match SplitAtFirstDot(passwordHash)
    case None => false
    case Some((saltText, storedHash)) =>
      match Decode(saltText)
      case None => false
      case Some(salt) => storedHash == Encode(kdf(password, salt, Iterations, KeyBytes))
  }

  /** Encode is one-to-one, since Decode inverts it. */
  lemma EncodeInjective(x: seq<byte>, y: seq<byte>)
    requires Encode(x) == Encode(y)
    ensures x == y
  {
    RoundTrip(x);
    RoundTrip(y);
  }

  /** A hash verifies against the password it was made from: the salt text has no '.', so the
      split finds the separator, the salt decodes back, and the key is derived again with the
      same parameters. */
  lemma VerifyHashed(password: string, salt: seq<byte>, kdf: Kdf)
    requires |salt| == SaltBytes
    ensures VerifyPassword(password, HashPassword(password, salt, kdf), kdf)
  {
    SplitJoin(Encode(salt), Encode(kdf(password, salt, Iterations, KeyBytes)));
    RoundTrip(salt);
  }

  /** A password is accepted against a hash exactly when it derives the same key under the stored
      salt; any other password is rejected. */
  lemma VerifyExactlyMatchingKey(password: string, other: string, salt: seq<byte>, kdf: Kdf)
    requires |salt| == SaltBytes
    ensures VerifyPassword(other, HashPassword(password, salt, kdf), kdf)
        <==> kdf(other, salt, Iterations, KeyBytes) == kdf(password, salt, Iterations, KeyBytes)
  {
    var key, otherKey := kdf(password, salt, Iterations, KeyBytes), kdf(other, salt, Iterations, KeyBytes);
    SplitJoin(Encode(salt), Encode(key));
    RoundTrip(salt);
    if Encode(otherKey) == Encode(key) {
      EncodeInjective(otherKey, key);
    }
  }
}
