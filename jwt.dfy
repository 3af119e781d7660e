/**
 * The JSON Web Token codec (python-jose's `jwt.encode` / `jwt.decode`),
 * idealised. A token is a JWS compact serialisation: a header algorithm, the
 * claims set (section 4 of RFC 7519) and a signature. The HMAC of section 3.2
 * of RFC 7518 is represented by a constructor over key, algorithm and claims,
 * so a signature can only be produced by someone holding the key and it binds
 * the claims it was made over. Anything that is not a well-formed token is
 * `Garbage`.
 */
module Jwt {
  import opened Wrappers

  /** A claim value: the claims the backend issues are strings and NumericDates. */
  datatype ClaimValue = Str(s: string) | Num(n: int)

  type Claims = map<string, ClaimValue>

  /** Registered claim names: section 4.1.2 (`sub`) and section 4.1.4 (`exp`) of RFC 7519. */
  const Sub: string := "sub"
  const Exp: string := "exp"

  datatype Signature = Mac(key: string, alg: string, claims: Claims)

  datatype Token =
    | Compact(alg: string, claims: Claims, signature: Signature)
    | Garbage(text: string)

  datatype DecodeError =
    | Malformed
    | DisallowedAlgorithm
    | SignatureMismatch
    | Expired
    | InvalidClaim(name: string)

  /**
   * `jwt.encode(claims, key, algorithm=alg)`: a compact token over exactly
   * these claims that decodes under the same key and algorithm exactly while
   * the claims are well typed and unexpired.
   */
  function Encode(claims: Claims, key: string, alg: string): (t: Token)
    ensures t.Compact? && t.alg == alg && t.claims == claims
    ensures forall now :: Decode(t, key, [alg], now).Ok? <==> WellTyped(claims) && (Exp in claims ==> now < claims[Exp].n)
  {
    Compact(alg, claims, Mac(key, alg, claims))
  }

  /**
   * `jwt.decode(token, key, algorithms=algorithms)` at time `now` (seconds):
   * the header algorithm must be allowed, the signature must be the key's over
   * these claims, `exp` (when present) must be a NumericDate strictly after
   * `now`, and `sub` (when present) must be a string. The algorithm and the
   * signature are checked before any claim.
   */
  function Decode(t: Token, key: string, algorithms: seq<string>, now: int): (r: Result<Claims, DecodeError>)
    ensures r.Ok? <==> && t.Compact? && t.alg in algorithms && t.signature == Mac(key, t.alg, t.claims)
                       && WellTyped(t.claims) && (Exp in t.claims ==> now < t.claims[Exp].n)
    ensures r.Ok? ==> t.Compact? && r.value == t.claims
    ensures r.Ok? ==> t.alg in algorithms && t.signature == Mac(key, t.alg, t.claims)
    ensures r.Ok? && Exp in r.value ==> r.value[Exp].Num? && now < r.value[Exp].n
    ensures r.Ok? && Sub in r.value ==> r.value[Sub].Str?
    ensures t.Garbage? ==> r == Err(Malformed)
    ensures t.Compact? && t.alg !in algorithms ==> r == Err(DisallowedAlgorithm)
  {
    match t
    case Garbage(_) => Err(Malformed)
    case Compact(alg, claims, signature) =>
      if alg !in algorithms then Err(DisallowedAlgorithm)
      else if signature != Mac(key, alg, claims) then Err(SignatureMismatch)
      else if Exp in claims && !claims[Exp].Num? then Err(InvalidClaim(Exp))
      else if Exp in claims && claims[Exp].n <= now then Err(Expired)
      else if Sub in claims && !claims[Sub].Str? then Err(InvalidClaim(Sub))
      else Ok(claims)
  }

  /** Claims whose registered claims have the types the decoder checks. */
  predicate WellTyped(claims: Claims) {
    && (Exp in claims ==> claims[Exp].Num?)
    && (Sub in claims ==> claims[Sub].Str?)
  }

  /** Decoding what was encoded with the same key and algorithm gives the claims back, exactly while unexpired. */
  lemma RoundTrip(claims: Claims, key: string, alg: string, now: int)
    requires WellTyped(claims) && Exp in claims
    ensures Decode(Encode(claims, key, alg), key, [alg], now)
         == if now < claims[Exp].n then Ok(claims) else Err(Expired)
  {
  }

  /** A token signed with another key is rejected, whatever its claims and the time. */
  lemma WrongKeyRejected(claims: Claims, key: string, other: string, alg: string, now: int)
    requires key != other
    ensures Decode(Encode(claims, other, alg), key, [alg], now) == Err(SignatureMismatch)
  {
  }

  /** Replacing the claims of a signed token without re-signing it is detected. */
  lemma TamperedClaimsRejected(claims: Claims, forged: Claims, key: string, alg: string, now: int)
    requires forged != claims
    ensures Decode(Compact(alg, forged, Encode(claims, key, alg).signature), key, [alg], now)
         == Err(SignatureMismatch)
  {
  }
}
