/**
 * Signing and verifying strings. RSA with SHA-256 (PKCS#1 v1.5, section
 * 8.2 of RFC 8017) and the Base64 codec are not modelled: they are the
 * function values of a `Crypto` record, and what the protocol relies on
 * them for is stated as predicates over that record.
 */
module Signature {
  import opened Text
  import opened Constraints

  type Bytes = seq<int>

  /** A key pair's private half; the public half is PublicOf(key). */
  datatype PrivateKey = PrivateKey(id: nat)
  datatype PublicKey = PublicKey(id: nat)

  function PublicOf(key: PrivateKey): PublicKey {
    PublicKey(key.id)
  }

  /** The primitives: RSA-SHA256 sign and verify, Base64.encode64 and decode64. */
  datatype Crypto = Crypto(
    sign: (PrivateKey, string) -> Bytes,
    verify: (PublicKey, Bytes, string) -> bool,
    encode64: Bytes -> string,
    decode64: string -> Bytes)

  /** gsub("\n", ''): the string without its newlines. */
  function RemoveNewlines(s: string): (r: string)
    ensures NewlineFree(r)
    ensures |r| <= |s|
  {
    if s == [] then ""
    else if s[0] == '\n' then RemoveNewlines(s[1..])
    else [s[0]] + RemoveNewlines(s[1..])
  }

  /** Signable.sign_encode_string: sign, Base64-encode, drop the line breaks. */
  function SignEncode(c: Crypto, key: PrivateKey, s: string): (r: string)
    ensures NewlineFree(r)
  {
    RemoveNewlines(c.encode64(c.sign(key, s)))
  }

  /** Verifiable.decode_verify_string: Base64-decode, then verify against the expected string. */
  function DecodeVerify(c: Crypto, key: PublicKey, encoded: string, expected: string): bool {
    c.verify(key, c.decode64(encoded), expected)
  }

  /** Verification accepts exactly the key holder's signature of the string. */
  ghost predicate Sound(c: Crypto) {
    forall key, b, s :: c.verify(PublicOf(key), b, s) <==> b == c.sign(key, s)
  }

  /** Distinct strings, or distinct keys, never give the same signature. */
  ghost predicate CollisionFree(c: Crypto) {
    forall k1, k2, s1, s2 :: c.sign(k1, s1) == c.sign(k2, s2) ==> k1 == k2 && s1 == s2
  }

  /** Decoding the line-joined encoding of a signature gives the signature; it is Base64. */
  ghost predicate CodecRoundTrips(c: Crypto) {
    forall key, s ::
      && c.decode64(RemoveNewlines(c.encode64(c.sign(key, s)))) == c.sign(key, s)
      && Base64(RemoveNewlines(c.encode64(c.sign(key, s))))
  }

  /** A string signed with a private key verifies with its public key. */
  lemma SignThenVerify(c: Crypto, key: PrivateKey, s: string)
    requires Sound(c) && CodecRoundTrips(c)
    ensures DecodeVerify(c, PublicOf(key), SignEncode(c, key, s), s)
    ensures Base64(SignEncode(c, key, s))
  {
  }

  /** The signature of one string does not verify for another. */
  lemma OtherStringFails(c: Crypto, key: PrivateKey, s: string, t: string)
    requires Sound(c) && CollisionFree(c) && CodecRoundTrips(c)
    requires s != t
    ensures !DecodeVerify(c, PublicOf(key), SignEncode(c, key, s), t)
  {
  }

  /** A signature does not verify under another key pair's public key. */
  lemma OtherKeyFails(c: Crypto, key: PrivateKey, other: PrivateKey, s: string)
    requires Sound(c) && CollisionFree(c) && CodecRoundTrips(c)
    requires key != other
    ensures !DecodeVerify(c, PublicOf(other), SignEncode(c, key, s), s)
  {
  }
}
