/**
 * The `verify` callback app.js hands to the text body parser: it computes the
 * HMAC-SHA-256 of the raw body under MATHYD_HMAC_KEY and compares it with the
 * `x-mathyd-hmac-sha256` header, throwing on any failure.
 */
module Integrity {
  import opened Wrappers

  newtype byte = x: int | 0 <= x < 256

  predicate IsLowerHexDigit(c: char) {
    '0' <= c <= '9' || 'a' <= c <= 'f'
  }

  /** `digest('hex')` of a SHA-256 HMAC: 32 bytes, two lower-case hex digits each. */
  type HexDigest = s: string | |s| == 64 && forall i :: 0 <= i < |s| ==> IsLowerHexDigit(s[i])
    witness seq(64, _ => '0')

  /**
   * The Node `crypto` module as the callback uses it: `hmacSha256Hex(key, body)` is
   * `createHmac('sha256', key).update(body).digest('hex')` for a defined key, and
   * `undefinedKeyError` the message `createHmac` throws when the key is `undefined`.
   */
  datatype Crypto = Crypto(hmacSha256Hex: (string, seq<byte>) -> HexDigest, undefinedKeyError: string)

  /** Why verification threw. */
  datatype Rejection =
    | KeyNotSet
    | Mismatch
      /** `createHmac` itself threw (the key environment variable is absent) */
    | CryptoThrew(message: string)

  datatype Verdict = Verified | Rejected(reason: Rejection)

  const KeyNotSetMessage := "hmac key not set"
  const MismatchMessage := "hmac mismatch"

  /** The `message` of the Error the callback lets escape. */
  function Message(r: Rejection): (m: string)
    ensures r.KeyNotSet? <==> m == KeyNotSetMessage && !r.CryptoThrew?
    ensures r.Mismatch? <==> m == MismatchMessage && !r.CryptoThrew?
    ensures r.CryptoThrew? ==> m == r.message
  {
    match r
    case KeyNotSet => KeyNotSetMessage
    case Mismatch => MismatchMessage
    case CryptoThrew(message) => message
  }

  /** `req.get('x-mathyd-hmac-sha256') || ''`: an absent or empty header is the empty string. */
  function SuppliedCode(header: Option<string>): (code: string)
    ensures code == "" <==> header.None? || header == Some("")
    ensures code != "" ==> header == Some(code)
  {
    if header.Some? then header.value else ""
  }

  /**
   * The verify callback. The digest is computed before the key is checked, so an
   * absent key fails inside `crypto` and only the empty key reaches 'hmac key not set'.
   * The comparison is ordinary string equality.
   */
  function Verify(key: Option<string>, crypto: Crypto, header: Option<string>, body: seq<byte>): (v: Verdict)
    // success exactly when the key is non-empty and the header is the digest of these bytes
    ensures v.Verified? <==>
              key.Some? && key.value != "" && header == Some(crypto.hmacSha256Hex(key.value, body))
    // fail closed on the empty key, whatever the header
    ensures key == Some("") ==> v == Rejected(KeyNotSet)
    ensures key.None? ==> v == Rejected(CryptoThrew(crypto.undefinedKeyError))
    // with a usable key every other failure is a mismatch, an absent header included
    ensures key.Some? && key.value != "" && !v.Verified? ==> v == Rejected(Mismatch)
  {
    if key.None? then
      Rejected(CryptoThrew(crypto.undefinedKeyError))
    else
      var expected := crypto.hmacSha256Hex(key.value, body);
      if key.value == "" then
        Rejected(KeyNotSet)
      else if SuppliedCode(header) != expected then
        Rejected(Mismatch)
      else
        Verified
  }

  /** A digest is never empty, so the empty code never authenticates a body. */
  lemma AbsentHeaderNeverVerifies(key: Option<string>, crypto: Crypto, body: seq<byte>)
    ensures Verify(key, crypto, None, body).Rejected?
    ensures Verify(key, crypto, Some(""), body).Rejected?
  {
  }

  /** The code computed over the body under a non-empty key always passes. */
  lemma CorrectCodeVerifies(key: string, crypto: Crypto, body: seq<byte>)
    requires key != ""
    ensures Verify(Some(key), crypto, Some(crypto.hmacSha256Hex(key, body)), body) == Verified
  {
  }

  /** Under the empty key even the code computed with the empty key is refused. */
  lemma EmptyKeyRefusesItsOwnCode(crypto: Crypto, body: seq<byte>)
    ensures Verify(Some(""), crypto, Some(crypto.hmacSha256Hex("", body)), body) == Rejected(KeyNotSet)
  {
  }
}
