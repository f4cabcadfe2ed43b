/**
 * `PaystackService.verifyWebhookSignature` and `computeHmacSha512`. The MAC
 * itself (HMAC of RFC 2104 over SHA-512 of FIPS 180-4, computed by
 * `javax.crypto.Mac`) is the input `hmac`, a function from key bytes and data
 * bytes to the digest bytes; everything around it is modelled.
 */
module Webhook {
  import opened Wrappers
  import opened JavaText
  import opened Hex
  import opened PaystackProperties
  import opened Exceptions

  /** HMAC-SHA512 of (key, data), as `Mac.doFinal` returns it. */
  type Mac = (seq<Int8>, seq<Int8>) -> seq<Int8>

  /** `new SecretKeySpec(bytes, ...)` refuses an empty key with this message. */
  const EmptyKeyMessage: string := "Empty key"

  /**
   * What `computeHmacSha512(data, key)` returns or throws: a null key or data
   * dereferences null, an empty key is refused by `SecretKeySpec`, and
   * otherwise the lower-case hex of the MAC of the UTF-8 bytes.
   */
  function ExpectedSignature(data: JString, key: JString, hmac: Mac): Result<string, Exception>
  {
    if key.None? then Failure(NullPointer)
    else if Utf8(key.value) == [] then Failure(OtherException(Some(EmptyKeyMessage)))
    else if data.None? then Failure(NullPointer)
    else Success(HexOf(hmac(Utf8(key.value), Utf8(data.value))))
  }

  /** `computeHmacSha512`, with the hex encoding done by the `bytesToHex` loop. */
  method ComputeHmacSha512(data: JString, key: JString, hmac: Mac) returns (r: Result<string, Exception>)
    ensures r == ExpectedSignature(data, key, hmac)
    ensures r.Success? ==> forall k :: 0 <= k < |r.value| ==> IsLowerHex(r.value[k])
  {
    if key.None? {
      return Failure(NullPointer);
    }
    var keyBytes := Utf8(key.value);
    if keyBytes == [] {
      return Failure(OtherException(Some(EmptyKeyMessage)));
    }
    if data.None? {
      return Failure(NullPointer);
    }
    var digest := hmac(keyBytes, Utf8(data.value));
    var hex := BytesToHex(digest);
    HexOfAlphabet(digest);
    return Success(hex);
  }

  /** The verdict: the computed signature exists and equals the received one exactly. */
  predicate Authentic(p: Properties, payload: JString, signature: JString, hmac: Mac)
  {
    var expected := ExpectedSignature(payload, p.webhookSecret, hmac);
    expected.Success? && signature == Some(expected.value)
  }

  /**
   * `verifyWebhookSignature(payload, signature)`: never throws; any exception
   * while hashing yields false, and otherwise the result is `String.equals`.
   */
  method VerifyWebhookSignature(p: Properties, payload: JString, signature: JString, hmac: Mac) returns (ok: bool)
    ensures ok == Authentic(p, payload, signature, hmac)
    ensures ok ==> p.webhookSecret.Some? && p.webhookSecret.value != [] && payload.Some? && signature.Some?
  {
    var computed := ComputeHmacSha512(payload, p.webhookSecret, hmac);
    match computed
    case Failure(_) =>
      ok := false;
    case Success(s) =>
      ok := signature.Some? && s == signature.value;
  }

  /** The signature the gateway sends, the hex MAC of the payload under the secret, is accepted. */
  lemma GenuineSignatureAccepted(p: Properties, payload: string, hmac: Mac)
    requires p.webhookSecret.Some? && p.webhookSecret.value != []
    ensures Authentic(p, Some(payload), Some(HexOf(hmac(Utf8(p.webhookSecret.value), Utf8(payload)))), hmac)
  {
  }

  /** A null, empty or absent secret rejects every signature. */
  lemma MissingSecretRejectsAll(p: Properties, payload: JString, signature: JString, hmac: Mac)
    requires p.webhookSecret.None? || p.webhookSecret == Some("")
    ensures !Authentic(p, payload, signature, hmac)
  {
  }

  /** Only the exact lower-case text passes: a signature with an upper-case hex letter is rejected. */
  lemma UpperCaseSignatureRejected(p: Properties, payload: JString, signature: string, k: nat, hmac: Mac)
    requires k < |signature| && 'A' <= signature[k] <= 'F'
    ensures !Authentic(p, payload, Some(signature), hmac)
  {
    if p.webhookSecret.Some? && Utf8(p.webhookSecret.value) != [] && payload.Some? {
      UpperCaseHexIsNoOutput(signature, k, hmac(Utf8(p.webhookSecret.value), Utf8(payload.value)));
    }
  }

  /** With a 64-byte MAC, every accepted signature is 128 lower-case hex characters. */
  lemma AcceptedSignatureShape(p: Properties, payload: JString, signature: JString, hmac: Mac)
    requires forall key, data :: |hmac(key, data)| == 64
    requires Authentic(p, payload, signature, hmac)
    ensures |signature.value| == 128
    ensures forall k :: 0 <= k < 128 ==> IsLowerHex(signature.value[k])
  {
    var digest := hmac(Utf8(p.webhookSecret.value), Utf8(payload.value));
    HexOfAlphabet(digest);
  }

  /** The received signature must match exactly: any other string is rejected. */
  lemma OnlyOneSignatureAccepted(p: Properties, payload: JString, s1: string, s2: string, hmac: Mac)
    requires Authentic(p, payload, Some(s1), hmac) && s2 != s1
    ensures !Authentic(p, payload, Some(s2), hmac)
  {
  }
}
