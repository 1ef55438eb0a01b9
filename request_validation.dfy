/** The part of `validateRequest` both clients share
    (src/clients/gid-issuer-client.ts and src/clients/gid-client.ts): the try
    block that looks up the holder's signing key, verifies the signature and
    checks the timestamp, stopping at the first failure, and the
    classification of that failure into the error code it is reported under. */
module RequestValidation {
  import opened Wrappers
  import opened Common
  import Epam
  import VerifySignature
  import ValidateTimestamp

  /** isSignatureError: the errors that say the request itself is bad. */
  predicate IsSignatureError(e: Error) {
    e.InvalidSignature? || e.StaleRequest? || e.EagerRequest?
  }

  /** The code a failure is reported under: 600-16 for a signature error,
      600-7 for anything else. */
  function ReportCode(e: Error): (c: Epam.ErrorCode)
    ensures c == Epam.RequestValidationFailed <==> IsSignatureError(e)
    ensures c == Epam.GidUnavailable <==> !IsSignatureError(e)
  {
    if IsSignatureError(e) then Epam.RequestValidationFailed else Epam.GidUnavailable
  }

  /** How the try block settles for the clock reading `now`. */
  function CheckRequest(services: Services, request: CredentialRequest, now: int): (r: Outcome<Error>)
    ensures r == Pass <==>
      services.signingKey(request.gidUuid).Success?
      && VerifySignature.VerifySignature(services.scheme, request, services.signingKey(request.gidUuid).value) == Pass
      && ValidateTimestamp.ValidateTimestamp(request, now) == Pass
    ensures services.signingKey(request.gidUuid).Failure? ==> r == Fail(services.signingKey(request.gidUuid).error)
    ensures services.signingKey(request.gidUuid).Success? ==>
      var verdict := services.scheme.verify(VerifySignature.CanonicalMessage(request),
        services.signingKey(request.gidUuid).value, services.scheme.decodeBase64(request.signature));
      (verdict.Failure? ==> r == Fail(ServiceFailure(verdict.error)))
      && (verdict == Success(false) ==> r == Fail(InvalidSignature))
      && (verdict == Success(true) ==> r == ValidateTimestamp.ValidateTimestamp(request, now))
      && (r.Fail? && verdict.Success? ==> IsSignatureError(r.error))
  {
    match services.signingKey(request.gidUuid)
    case Failure(e) => Fail(e)
    case Success(key) =>
      match VerifySignature.VerifySignature(services.scheme, request, key)
      case Fail(e) => Fail(e)
      case Pass => ValidateTimestamp.ValidateTimestamp(request, now)
  }

  /** The collaborator calls the try block makes: the key lookup, then the
      signature check when a key was found, then the timestamp check when the
      signature was accepted. */
  function CheckCalls(services: Services, request: CredentialRequest, now: int): (calls: seq<Call>)
    ensures 1 <= |calls| <= 3 && calls[0] == SigningKeyLookup(request.gidUuid)
    ensures |calls| >= 2 <==> services.signingKey(request.gidUuid).Success?
    ensures |calls| >= 2 ==> calls[1] == SignatureCheck(services.signingKey(request.gidUuid).value)
    ensures |calls| == 3 <==>
      services.signingKey(request.gidUuid).Success?
      && VerifySignature.VerifySignature(services.scheme, request, services.signingKey(request.gidUuid).value) == Pass
    ensures |calls| == 3 ==> calls[2] == TimestampCheck(now)
  {
    var lookup := services.signingKey(request.gidUuid);
    [SigningKeyLookup(request.gidUuid)] +
    if lookup.Failure? then []
    else
      [SignatureCheck(lookup.value)] +
      if VerifySignature.VerifySignature(services.scheme, request, lookup.value).Fail? then []
      else [TimestampCheck(now)]
  }

  /** What validateRequest settles to after the try block failed with
      `failure` and the report settled as `report`: the original error is
      rethrown, unless the report itself threw. */
  function Rethrown(failure: Error, report: Outcome<Error>): (r: Outcome<Error>)
    ensures r.Fail?
    ensures report.Pass? ==> r == Fail(failure)
    ensures report.Fail? ==> r == report
  {
    if report.Fail? then report else Fail(failure)
  }

  // ---------------------------------------------------------------------------
  // Properties
  // ---------------------------------------------------------------------------

  /** A request signed under the holder's key inside the window passes after
      all three checks ran. */
  lemma ValidRequestPasses(services: Services, request: CredentialRequest, now: int, key: PublicKey, sign: string -> string)
    requires services.signingKey(request.gidUuid) == Success(key)
    requires forall m :: services.scheme.verify(m, key, services.scheme.decodeBase64(sign(m))) == Success(true)
    requires request.signature == sign(VerifySignature.CanonicalMessage(request))
    requires now - ValidateTimestamp.StalenessMillis <= request.timestamp <= now + ValidateTimestamp.EagernessMillis
    ensures CheckRequest(services, request, now) == Pass
    ensures CheckCalls(services, request, now)
      == [SigningKeyLookup(request.gidUuid), SignatureCheck(key), TimestampCheck(now)]
  {
    VerifySignature.SignedRequestVerifies(services.scheme, request, key, sign);
  }

  /** A failed key lookup is reported as 600-7 (an unknown identity or a
      missing key alike) and stops before the signature is verified. */
  lemma LookupFailureReportedUnavailable(services: Services, request: CredentialRequest, now: int)
    requires services.signingKey(request.gidUuid).Failure?
    requires services.signingKey(request.gidUuid).error.IdentityNotFound?
      || services.signingKey(request.gidUuid).error.PublicKeyNotFound?
    ensures CheckRequest(services, request, now) == Fail(services.signingKey(request.gidUuid).error)
    ensures CheckCalls(services, request, now) == [SigningKeyLookup(request.gidUuid)]
    ensures Epam.CodeValue(ReportCode(CheckRequest(services, request, now).error)) == "600-7"
  {
  }

  /** A request signed with another key pair raises InvalidSignature, is
      reported as 600-16, and its timestamp is never checked. */
  lemma ForeignSignatureReportedInvalid(
    services: Services, request: CredentialRequest, now: int, key: PublicKey,
    sign: string -> string, otherSign: string -> string)
    requires services.signingKey(request.gidUuid) == Success(key)
    requires VerifySignature.SoundFor(services.scheme, key, sign)
    requires request.signature == otherSign(VerifySignature.CanonicalMessage(request))
    requires services.scheme.decodeBase64(otherSign(VerifySignature.CanonicalMessage(request)))
      != services.scheme.decodeBase64(sign(VerifySignature.CanonicalMessage(request)))
    ensures CheckRequest(services, request, now) == Fail(InvalidSignature)
    ensures CheckCalls(services, request, now) == [SigningKeyLookup(request.gidUuid), SignatureCheck(key)]
    ensures Epam.CodeValue(ReportCode(InvalidSignature)) == "600-16"
  {
    VerifySignature.ForeignSignatureRejected(services.scheme, request, key, sign, otherSign);
  }

  /** A key the verifier cannot use, such as a malformed key text from the
      identity lookup, makes the check throw the verifier's error; it is
      reported as 600-7 and the timestamp is not checked. */
  lemma UnusableKeyReportedUnavailable(services: Services, request: CredentialRequest, now: int, key: PublicKey, detail: string)
    requires services.signingKey(request.gidUuid) == Success(key)
    requires services.scheme.verify(VerifySignature.CanonicalMessage(request), key,
      services.scheme.decodeBase64(request.signature)) == Failure(detail)
    ensures CheckRequest(services, request, now) == Fail(ServiceFailure(detail))
    ensures CheckCalls(services, request, now) == [SigningKeyLookup(request.gidUuid), SignatureCheck(key)]
    ensures Epam.CodeValue(ReportCode(CheckRequest(services, request, now).error)) == "600-7"
  {
    VerifySignature.UnusableKeyThrows(services.scheme, request, key, detail);
  }

  /** A correctly signed request whose timestamp is a date outside the window
      raises the timestamp's error and is reported as 600-16. */
  lemma StaleOrEagerReportedInvalid(services: Services, request: CredentialRequest, now: int)
    requires services.signingKey(request.gidUuid).Success?
    requires VerifySignature.VerifySignature(services.scheme, request, services.signingKey(request.gidUuid).value) == Pass
    requires ValidateTimestamp.InTimeRange(request.timestamp) && ValidateTimestamp.ClockInRange(now)
    requires request.timestamp < now - ValidateTimestamp.StalenessMillis
      || request.timestamp > now + ValidateTimestamp.EagernessMillis
    ensures CheckRequest(services, request, now) == ValidateTimestamp.ValidateTimestamp(request, now)
    ensures CheckRequest(services, request, now).Fail?
    ensures Epam.CodeValue(ReportCode(CheckRequest(services, request, now).error)) == "600-16"
  {
  }

  /** With a token at hand a failure is reported by exactly one post whose
      body carries the request's thread ID, the failure's code and that
      code's description. */
  lemma FailureReportedOnce(client: Epam.EpamClient, threadId: string, e: Error)
    requires client.accessToken.Success?
    ensures
      var posts := client.ReportSubmissions(threadId, Epam.CodeValue(ReportCode(e)));
      |posts| == 1 && posts[0].ErrorReportSubmission?
      && posts[0].report.threadId == threadId
      && posts[0].report.code == (if IsSignatureError(e) then "600-16" else "600-7")
      && posts[0].report.description.Some?
      && posts[0].appUuid == client.appUuid
  {
    Epam.ReportBodyDescribed(threadId, ReportCode(e));
  }

  /** Only the three signature errors are reported as 600-16; the service and
      lookup errors are not. */
  lemma ClassificationCases(gidUuid: string, detail: string, t: int, threshold: int)
    ensures ReportCode(InvalidSignature) == Epam.RequestValidationFailed
    ensures ReportCode(StaleRequest(t, threshold)) == Epam.RequestValidationFailed
    ensures ReportCode(EagerRequest(t, threshold)) == Epam.RequestValidationFailed
    ensures ReportCode(IdentityNotFound(gidUuid)) == Epam.GidUnavailable
    ensures ReportCode(PublicKeyNotFound(gidUuid)) == Epam.GidUnavailable
    ensures ReportCode(ServiceFailure(detail)) == Epam.GidUnavailable
    ensures ReportCode(TypeError) == Epam.GidUnavailable
  {
  }
}
