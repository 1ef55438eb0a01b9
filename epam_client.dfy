/** The client of the EPAM credential-exchange service
    (src/clients/epam-client.ts): the error-code table, the error-report body,
    and the `#appUuid` state that every submission carries. */
module Epam {
  import opened Wrappers
  import opened Common
  import OfferFactory

  /** The ErrorCodes enumeration. */
  datatype ErrorCode =
    | DocumentUnsupported
    | CredentialRequestFailed
    | VerificationCancelled
    | GidUnavailable
    | IssuerUnavailable
    | RequestValidationFailed

  /** The string value of each ErrorCodes member. */
  function CodeValue(c: ErrorCode): string {
    match c
    case DocumentUnsupported => "300-8"
    case CredentialRequestFailed => "600-1"
    case VerificationCancelled => "600-3"
    case GidUnavailable => "600-7"
    case IssuerUnavailable => "600-8"
    case RequestValidationFailed => "600-16"
  }

  /** ERROR_DESCRIPTIONS, keyed by code string. */
  const ErrorDescriptions: map<string, string> := map[
    "300-8" := "The document provided is not supported and could not be verified",
    "600-1" := "Credential request failed because some information could not be verified",
    "600-3" := "Verification process was cancelled by the user",
    "600-7" := "GlobaliD erred or is not available at the moment",
    "600-8" := "Issuer erred or is not available at the moment",
    "600-16" := "Validation of credential request failed"]

  /** The ErrorCodes member whose value is `s`, if any. */
  function ParseErrorCode(s: string): (r: Option<ErrorCode>)
    ensures r.Some? ==> CodeValue(r.value) == s
    ensures r.None? ==> forall c: ErrorCode :: CodeValue(c) != s
  {
    if s == "300-8" then Some(DocumentUnsupported)
    else if s == "600-1" then Some(CredentialRequestFailed)
    else if s == "600-3" then Some(VerificationCancelled)
    else if s == "600-7" then Some(GidUnavailable)
    else if s == "600-8" then Some(IssuerUnavailable)
    else if s == "600-16" then Some(RequestValidationFailed)
    else None
  }

  /** The table's keys are exactly the enumeration's values. */
  lemma DescriptionKeysAreCodes(s: string)
    ensures s in ErrorDescriptions <==> exists c: ErrorCode :: CodeValue(c) == s
  {
    if s in ErrorDescriptions {
      assert CodeValue(ParseErrorCode(s).value) == s;
    }
  }

  /** The two codes the request validation reports. */
  lemma ValidationCodes()
    ensures CodeValue(GidUnavailable) == "600-7" && CodeValue(RequestValidationFailed) == "600-16"
    ensures ErrorDescriptions[CodeValue(RequestValidationFailed)] == "Validation of credential request failed"
  {
  }

  /** EpamCredentialErrorReportBody; the description is absent when the code
      is not a key of the table. */
  datatype ErrorReportBody = ErrorReportBody(code: string, description: Option<string>, threadId: string)

  /** The body reportError sends: the code, its description and the thread ID. */
  function ReportBody(threadId: string, code: string): (b: ErrorReportBody)
    ensures b.code == code && b.threadId == threadId
    ensures b.description.Some? <==> code in ErrorDescriptions
    ensures b.description.Some? ==> b.description.value == ErrorDescriptions[code]
  {
    ErrorReportBody(code, if code in ErrorDescriptions then Some(ErrorDescriptions[code]) else None, threadId)
  }

  /** Every ErrorCodes member is reported with its description. */
  lemma ReportBodyDescribed(threadId: string, c: ErrorCode)
    ensures ReportBody(threadId, CodeValue(c)).description.Some?
  {
  }

  /** A post to the EPAM service: the bearer token, the body and the appUuid. */
  datatype Submission =
    | OfferSubmission(token: string, offer: OfferFactory.EpamOffer, appUuid: Option<string>)
    | ErrorReportSubmission(token: string, report: ErrorReportBody, appUuid: Option<string>)

  class EpamClient {
    /** What AccessTokenProvider.getAccessToken yields. */
    const accessToken: Result<string, Error>
    /** The service's answer to a post: success, or the error it raises. */
    const service: Submission -> Outcome<Error>
    /** `#appUuid`. */
    var appUuid: Option<string>
    /** Every post made, in order. */
    ghost var submissions: seq<Submission>

    constructor(accessToken: Result<string, Error>, service: Submission -> Outcome<Error>)
      ensures this.accessToken == accessToken && this.service == service
      ensures appUuid == None && submissions == []
    {
      this.accessToken := accessToken;
      this.service := service;
      appUuid := None;
      submissions := [];
    }

    method GetAppUuid() returns (r: Option<string>)
      ensures r == appUuid
    {
      r := appUuid;
    }

    method SetAppUuid(id: string)
      modifies this`appUuid
      ensures appUuid == Some(id)
    {
      appUuid := Some(id);
    }

    /** The posts sendOffer makes: one, unless the token cannot be had. */
    function OfferSubmissions(offer: CredentialOffer): (s: seq<Submission>)
      reads this
      ensures |s| <= 1 && (|s| == 1 <==> accessToken.Success?)
      ensures |s| == 1 ==>
        s[0].OfferSubmission? && s[0].token == accessToken.value
        && s[0].offer == OfferFactory.CreateEpamCredentialOffer(offer) && s[0].appUuid == appUuid
    {
      if accessToken.Failure? then []
      else [OfferSubmission(accessToken.value, OfferFactory.CreateEpamCredentialOffer(offer), appUuid)]
    }

    /** How sendOffer settles: the token's error, or the service's answer. */
    function OfferOutcome(offer: CredentialOffer): Outcome<Error>
      reads this
    {
      if accessToken.Failure? then Fail(accessToken.error) else service(OfferSubmissions(offer)[0])
    }

    /** Posts the translated offer once; there is no retry. */
    method SendOffer(offer: CredentialOffer) returns (r: Outcome<Error>)
      modifies this`submissions
      ensures submissions == old(submissions) + OfferSubmissions(offer)
      ensures r == OfferOutcome(offer)
    {
      if accessToken.Failure? {
        return Fail(accessToken.error);
      }
      var body := OfferFactory.CreateEpamCredentialOffer(offer);
      var submission := OfferSubmission(accessToken.value, body, appUuid);
      submissions := submissions + [submission];
      r := service(submission);
    }

    /** The posts reportError makes: one, unless the token cannot be had. */
    function ReportSubmissions(threadId: string, code: string): (s: seq<Submission>)
      reads this
      ensures |s| <= 1 && (|s| == 1 <==> accessToken.Success?)
      ensures |s| == 1 ==>
        s[0].ErrorReportSubmission? && s[0].token == accessToken.value
        && s[0].report == ReportBody(threadId, code) && s[0].appUuid == appUuid
    {
      if accessToken.Failure? then []
      else [ErrorReportSubmission(accessToken.value, ReportBody(threadId, code), appUuid)]
    }

    /** How reportError settles: the token's error, or the service's answer. */
    function ReportOutcome(threadId: string, code: string): Outcome<Error>
      reads this
    {
      if accessToken.Failure? then Fail(accessToken.error) else service(ReportSubmissions(threadId, code)[0])
    }

    method ReportError(threadId: string, code: string) returns (r: Outcome<Error>)
      modifies this`submissions
      ensures submissions == old(submissions) + ReportSubmissions(threadId, code)
      ensures r == ReportOutcome(threadId, code)
    {
      if accessToken.Failure? {
        return Fail(accessToken.error);
      }
      var body := ReportBody(threadId, code);
      var submission := ErrorReportSubmission(accessToken.value, body, appUuid);
      submissions := submissions + [submission];
      r := service(submission);
    }
  }

  /** appUuid is absent until set, then the last value set is what every
      later submission carries. */
  method AppUuidLifecycle(
    accessToken: Result<string, Error>, service: Submission -> Outcome<Error>, first: string, second: string,
    threadId: string, code: string)
    returns (before: Option<string>, after: Option<string>, ghost posted: seq<Submission>)
    ensures before == None && after == Some(second)
    ensures accessToken.Success? ==> |posted| == 1 && posted[0].appUuid == Some(second)
    ensures accessToken.Failure? ==> posted == []
  {
    var client := new EpamClient(accessToken, service);
    before := client.GetAppUuid();
    client.SetAppUuid(first);
    client.SetAppUuid(second);
    after := client.GetAppUuid();
    var _ := client.ReportError(threadId, code);
    posted := client.submissions;
  }
}
