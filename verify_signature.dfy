/** Signature verification of a credential request (src/utils/verify-signature.ts).
    The signed message is the thread ID, the decimal timestamp and the JSON
    payload (nothing when the payload is absent), concatenated in that order. */
module VerifySignature {
  import opened Wrappers
  import opened Common
  import Json
  import Text

  /** The payload's part of the signed message. */
  function PayloadString(payload: Option<Json.Value>): (s: string)
    ensures payload.None? <==> s == ""
  {
    match payload
    case None => ""
    case Some(v) =>
      Json.StringifyStart(v);
      Json.Stringify(v)
  }

  /** The signed message: `${threadId}${timestamp}${payload}`. */
  function CanonicalMessage(request: CredentialRequest): string {
    request.threadId + Text.IntToDecimal(request.timestamp) + PayloadString(request.payload)
  }

  /** Passes exactly when the verifier accepts the message under the key and
      the base64-decoded signature; a signature it answers as invalid is
      InvalidSignature, and what the verifier throws passes through as a
      service failure. */
  function VerifySignature(scheme: SignatureScheme, request: CredentialRequest, publicKey: PublicKey): (r: Outcome<Error>)
    ensures r == Pass <==>
      scheme.verify(CanonicalMessage(request), publicKey, scheme.decodeBase64(request.signature)) == Success(true)
    ensures scheme.verify(CanonicalMessage(request), publicKey, scheme.decodeBase64(request.signature)) == Success(false)
      <==> r == Fail(InvalidSignature)
    ensures scheme.verify(CanonicalMessage(request), publicKey, scheme.decodeBase64(request.signature)).Failure? ==>
      r == Fail(ServiceFailure(scheme.verify(CanonicalMessage(request), publicKey, scheme.decodeBase64(request.signature)).error))
  {
    var data := CanonicalMessage(request);
    var signature := scheme.decodeBase64(request.signature);
    match scheme.verify(data, publicKey, signature)
    case Failure(detail) => Fail(ServiceFailure(detail))
    case Success(valid) => if valid then Pass else Fail(InvalidSignature)
  }

  // ---------------------------------------------------------------------------
  // What the message determines
  // ---------------------------------------------------------------------------

  /** Reads the timestamp and the payload back from what follows the thread
      ID in a signed message. */
  function ParseMessageTail(tail: string): Option<(int, Option<Json.Value>)> {
    match Json.ParseNumber(tail)
    case None => None
    case Some((timestamp, rest)) =>
      if rest == [] then Some((timestamp, None))
      else
        match Json.Parse(rest)
        case None => None
        case Some(v) => Some((timestamp, Some(v)))
  }

  /** A payload whose serialisation cannot run into the timestamp's digits. */
  predicate Separable(payload: Option<Json.Value>) {
    !(payload.Some? && payload.value.Number? && payload.value.n >= 0)
  }

  lemma MessageTailParses(request: CredentialRequest)
    requires Separable(request.payload)
    ensures ParseMessageTail(Text.IntToDecimal(request.timestamp) + PayloadString(request.payload))
      == Some((request.timestamp, request.payload))
  {
    var rest := PayloadString(request.payload);
    if request.payload.Some? {
      Json.StringifyStart(request.payload.value);
      Json.ParseStringify(request.payload.value);
    }
    Json.NumberParses(request.timestamp, rest);
  }

  /** Two requests with the same thread ID and separable payloads sign the
      same message only if their timestamps and payloads agree. */
  lemma MessageDeterminesRequest(a: CredentialRequest, b: CredentialRequest)
    requires a.threadId == b.threadId
    requires Separable(a.payload) && Separable(b.payload)
    requires CanonicalMessage(a) == CanonicalMessage(b)
    ensures a.timestamp == b.timestamp && a.payload == b.payload
  {
    DropThreadId(a.threadId, Text.IntToDecimal(a.timestamp), PayloadString(a.payload));
    DropThreadId(b.threadId, Text.IntToDecimal(b.timestamp), PayloadString(b.payload));
    MessageTailParses(a);
    MessageTailParses(b);
  }

  /** What follows the thread ID in a message. */
  lemma {:induction false} DropThreadId(threadId: string, timestamp: string, payload: string)
    ensures (threadId + timestamp + payload)[|threadId|..] == timestamp + payload
  {
  }

  /** Without a delimiter the thread ID and the timestamp can trade digits:
      these two different requests sign the same message. */
  lemma ThreadIdAndTimestampCanTradeDigits()
    ensures CanonicalMessage(CredentialRequest("a1", "g", 23, None, "s"))
      == CanonicalMessage(CredentialRequest("a", "g", 123, None, "s"))
  {
    assert Text.IntToDecimal(23) == "23";
    assert Text.IntToDecimal(123) == "123";
  }

  /** A numeric payload can likewise run into the timestamp. */
  lemma NumericPayloadMergesWithTimestamp()
    ensures CanonicalMessage(CredentialRequest("t", "g", 1, Some(Json.Number(2)), "s"))
      == CanonicalMessage(CredentialRequest("t", "g", 12, None, "s"))
  {
    assert Text.IntToDecimal(1) == "1";
    assert Text.IntToDecimal(2) == "2";
    assert Text.IntToDecimal(12) == "12";
  }

  // ---------------------------------------------------------------------------
  // Keys
  // ---------------------------------------------------------------------------

  /** The signature scheme is sound for `key` when the verifier can use `key`
      and accepts under it only the bytes of signatures made with its private
      counterpart `sign`. Soundness is over the decoded bytes: base64 decoding
      skips whitespace, so several texts carry the same signature. */
  ghost predicate SoundFor(scheme: SignatureScheme, key: PublicKey, sign: string -> string) {
    forall m: string, b: Bytes ::
      scheme.verify(m, key, b).Success?
      && (scheme.verify(m, key, b).value ==> b == scheme.decodeBase64(sign(m)))
  }

  /** A request signed over its canonical message under a key the verifier
      accepts passes. */
  lemma SignedRequestVerifies(scheme: SignatureScheme, request: CredentialRequest, key: PublicKey, sign: string -> string)
    requires forall m :: scheme.verify(m, key, scheme.decodeBase64(sign(m))) == Success(true)
    requires request.signature == sign(CanonicalMessage(request))
    ensures VerifySignature(scheme, request, key) == Pass
  {
  }

  /** A request signed with another key pair, whose signatures the holder's
      key does not accept, raises InvalidSignature. */
  lemma ForeignSignatureRejected(
    scheme: SignatureScheme, request: CredentialRequest, key: PublicKey, sign: string -> string, otherSign: string -> string)
    requires SoundFor(scheme, key, sign)
    requires request.signature == otherSign(CanonicalMessage(request))
    requires scheme.decodeBase64(otherSign(CanonicalMessage(request)))
      != scheme.decodeBase64(sign(CanonicalMessage(request)))
    ensures VerifySignature(scheme, request, key) == Fail(InvalidSignature)
  {
  }

  /** Soundness leaves room for a lenient decoder: a signature text with a
      trailing space that decodes to the same bytes is accepted like the
      signature itself. */
  lemma WhitespaceVariantAccepted(scheme: SignatureScheme, request: CredentialRequest, key: PublicKey, sign: string -> string)
    requires SoundFor(scheme, key, sign)
    requires scheme.verify(CanonicalMessage(request), key, scheme.decodeBase64(sign(CanonicalMessage(request)))) == Success(true)
    requires request.signature == sign(CanonicalMessage(request)) + " "
    requires scheme.decodeBase64(request.signature) == scheme.decodeBase64(sign(CanonicalMessage(request)))
    ensures VerifySignature(scheme, request, key) == Pass
  {
  }

  /** A key the verifier cannot use makes the check throw the verifier's own
      error, which is not InvalidSignature. */
  lemma UnusableKeyThrows(scheme: SignatureScheme, request: CredentialRequest, key: PublicKey, detail: string)
    requires scheme.verify(CanonicalMessage(request), key, scheme.decodeBase64(request.signature)) == Failure(detail)
    ensures VerifySignature(scheme, request, key) == Fail(ServiceFailure(detail))
    ensures VerifySignature(scheme, request, key) != Fail(InvalidSignature)
  {
  }
}
