/**
 * The password hasher: passlib's `CryptContext(schemes=["bcrypt"])`.
 *
 * bcrypt itself is foreign code. It is idealised here as a constructor that
 * records the salt and the part of the password bcrypt actually consumes, so
 * that the hash is injective in that part and carries a per-call salt. The
 * classic bcrypt handler (passlib's default) silently keeps only the first
 * 72 bytes of a password; the model keeps the first 72 characters. Before
 * that, passlib refuses a secret longer than 4096 bytes and, for bcrypt, a
 * secret that contains a NUL character, both when hashing and when verifying.
 */
module Bcrypt {
  import opened Wrappers

  /** bcrypt reads at most this many bytes of a password. */
  const MaxSecretLength: nat := 72

  /** passlib's `MAX_PASSWORD_SIZE`: longer secrets raise `PasswordSizeError`. */
  const MaxPasswordSize: nat := 4096

  /** A stored bcrypt hash: the random salt and the consumed secret. */
  datatype Hash = Hash(salt: nat, secret: string)

  /** The exceptions passlib raises for a secret it refuses. */
  datatype HashError = PasswordSizeError | NullPasswordError

  /** A secret passlib hands to bcrypt: within the size limit and free of NUL characters. */
  predicate Acceptable(password: string) {
    |password| <= MaxPasswordSize && '\0' !in password
  }

  /** The part of a password that bcrypt consumes. */
  function Truncate(password: string): (s: string)
    ensures |s| == if |password| <= MaxSecretLength then |password| else MaxSecretLength
    ensures s <= password
  {
    if |password| <= MaxSecretLength then password else password[..MaxSecretLength]
  }

  /** passlib's checks on a secret, in its order: the size first, then NUL characters. */
  function SecretError(password: string): (e: Option<HashError>)
    ensures e.None? <==> Acceptable(password)
    ensures |password| > MaxPasswordSize ==> e == Some(PasswordSizeError)
  {
    if |password| > MaxPasswordSize then Some(PasswordSizeError)
    else if '\0' in password then Some(NullPasswordError)
    else None
  }

  /**
   * `pwd_context.hash(password)`; the random salt is a parameter. It raises
   * exactly for a secret passlib refuses; otherwise the hash keeps the salt
   * and verifies against the password it was made from.
   */
  function HashPassword(password: string, salt: nat): (r: Result<Hash, HashError>)
    ensures r.Ok? <==> Acceptable(password)
    ensures r.Err? ==> Some(r.error) == SecretError(password)
    ensures r.Ok? ==> Verify(password, r.value) == Ok(true) && r.value.salt == salt
  {
    match SecretError(password)
    case Some(e) => Err(e)
    case None => Ok(Hash(salt, Truncate(password)))
  }

  /**
   * `pwd_context.verify(plain, hash)`: raises for a secret passlib refuses,
   * whatever the hash; otherwise true exactly when the consumed parts agree.
   */
  function Verify(password: string, h: Hash): (r: Result<bool, HashError>)
    ensures r.Err? <==> !Acceptable(password)
    ensures r.Err? ==> Some(r.error) == SecretError(password)
    ensures r == Ok(true) <==> Acceptable(password) && h.secret == Truncate(password)
  {
    match SecretError(password)
    case Some(e) => Err(e)
    case None => Ok(h.secret == Truncate(password))
  }

  /** A hash accepts exactly the acceptable passwords that agree with the original on what bcrypt consumes. */
  lemma VerifyIffSameSecret(p: string, q: string, salt: nat)
    requires Acceptable(q)
    ensures Verify(p, HashPassword(q, salt).value) == Ok(true) <==> Acceptable(p) && Truncate(p) == Truncate(q)
  {
  }

  /** Two different passwords within bcrypt's limit never verify against each other's hash. */
  lemma DistinctShortPasswordsRejected(p: string, q: string, salt: nat)
    requires p != q && Acceptable(q)
    requires |p| <= MaxSecretLength && |q| <= MaxSecretLength
    ensures Verify(p, HashPassword(q, salt).value) != Ok(true)
  {
  }

  /**
   * Beyond 72 characters the tail is ignored: appending anything that
   * passlib accepts to a long password yields a different password that the
   * original hash accepts.
   */
  lemma LongPasswordTailIgnored(p: string, tail: string, salt: nat)
    requires |p| >= MaxSecretLength
    requires tail != [] && Acceptable(p + tail)
    ensures p + tail != p && Acceptable(p)
    ensures Verify(p + tail, HashPassword(p, salt).value) == Ok(true)
  {
    assert forall i :: 0 <= i < |p| ==> p[i] == (p + tail)[i];
    assert (p + tail)[..MaxSecretLength] == p[..MaxSecretLength];
  }

  /** Hashing the same password twice with different salts gives different hashes. */
  lemma SaltedHashesDiffer(p: string, s1: nat, s2: nat)
    requires s1 != s2 && Acceptable(p)
    ensures HashPassword(p, s1) != HashPassword(p, s2)
  {
  }
}
