/** The issuer-facing client (src/clients/gid-issuer-client.ts): every entry
    point validates its arguments with a schema first, `validateRequest`
    reports a failed request to the EPAM service before rethrowing, and
    `uploadFile` encrypts a file under a fresh key and uploads it for the
    holder. */
module GidIssuer {
  import opened Wrappers
  import opened Common
  import Epam
  import Schemas
  import RequestValidation
  import VerifySignature
  import ValidateTimestamp
  import DF = DownloadFile

  /** The upload uploadFile makes for an encryption result `encrypted`. */
  function UploadRequestFor(gidUuid: string, file: FileObject, encrypted: (Bytes, string)): UploadRequest {
    UploadRequest(Some(gidUuid), file.name, file.mediaType, encrypted.0)
  }

  /** What uploadFile resolves to: a TypeError for an invalid UUID or file,
      the error of the encryption or the upload, or the claim value that
      carries the uploader's URL, the key of the encryption, the file's name
      and type and the digest of the plaintext. */
  function UploadResult(services: Services, gidUuid: string, file: FileObject): (r: Result<FileClaimValue, Error>)
    ensures !(Schemas.RequiredUuid(services.validators, gidUuid) && Schemas.FileObjectRule(file)) ==> r == Failure(TypeError)
    ensures r.Success? <==>
      Schemas.RequiredUuid(services.validators, gidUuid) && Schemas.FileObjectRule(file)
      && services.crypto.encrypt(file.content, None).Success?
      && services.upload(UploadRequestFor(gidUuid, file, services.crypto.encrypt(file.content, None).value)).Success?
    ensures r.Success? ==>
      var encrypted := services.crypto.encrypt(file.content, None).value;
      services.upload(UploadRequestFor(gidUuid, file, encrypted)) == Success(r.value.url)
      && r.value.decryptionKey == encrypted.1
      && r.value.sha512sum == services.crypto.sha512sum(file.content)
      && r.value.mediaType == file.mediaType
      && r.value.name == Some(file.name)
  {
    if !Schemas.RequiredUuid(services.validators, gidUuid) || !Schemas.FileObjectRule(file) then Failure(TypeError)
    else
      var encrypted :- services.crypto.encrypt(file.content, None);
      var url :- services.upload(UploadRequestFor(gidUuid, file, encrypted));
      Success(FileClaimValue(encrypted.1, services.crypto.sha512sum(file.content), file.mediaType, url, Some(file.name)))
  }

  /** The collaborator calls uploadFile makes: the upload, once the inputs
      passed and the encryption succeeded. */
  function UploadCalls(services: Services, gidUuid: string, file: FileObject): (calls: seq<Call>)
    ensures |calls| <= 1
    ensures |calls| == 1 <==>
      Schemas.RequiredUuid(services.validators, gidUuid) && Schemas.FileObjectRule(file)
      && services.crypto.encrypt(file.content, None).Success?
    ensures |calls| == 1 ==>
      calls[0] == Upload(UploadRequestFor(gidUuid, file, services.crypto.encrypt(file.content, None).value))
  {
    if Schemas.RequiredUuid(services.validators, gidUuid) && Schemas.FileObjectRule(file)
      && services.crypto.encrypt(file.content, None).Success?
    then [Upload(UploadRequestFor(gidUuid, file, services.crypto.encrypt(file.content, None).value))]
    else []
  }

  class GidIssuerClient {
    /** `#epamClient`. */
    const epam: Epam.EpamClient
    /** The key provider, the uploader, the crypto library and the schema's
        library rules. */
    const services: Services
    /** Every collaborator call made, in order. */
    ghost var calls: seq<Call>

    constructor(epam: Epam.EpamClient, services: Services)
      ensures this.epam == epam && this.services == services && calls == []
    {
      this.epam := epam;
      this.services := services;
      calls := [];
    }

    /** reportError: a TypeError before anything is posted unless the thread
        ID is non-empty and the code is an ErrorCodes value; then the EPAM
        client's report. */
    method ReportError(threadId: string, code: string) returns (r: Outcome<Error>)
      modifies epam`submissions
      ensures !(Schemas.RequiredString(threadId) && Schemas.ErrorCodeRule(code)) ==>
        r == Fail(TypeError) && epam.submissions == old(epam.submissions)
      ensures Schemas.RequiredString(threadId) && Schemas.ErrorCodeRule(code) ==>
        epam.submissions == old(epam.submissions) + epam.ReportSubmissions(threadId, code)
        && r == epam.ReportOutcome(threadId, code)
    {
      if !Schemas.RequiredString(threadId) || !Schemas.ErrorCodeRule(code) {
        return Fail(TypeError);
      }
      r := epam.ReportError(threadId, code);
    }

    /** sendOffer: a TypeError before anything is posted unless the offer
        passes the offer schema; then the EPAM client's single post. */
    method SendOffer(offer: CredentialOffer) returns (r: Outcome<Error>)
      modifies epam`submissions
      ensures !Schemas.CredentialOfferRule(services.validators, offer) ==>
        r == Fail(TypeError) && epam.submissions == old(epam.submissions)
      ensures Schemas.CredentialOfferRule(services.validators, offer) ==>
        epam.submissions == old(epam.submissions) + epam.OfferSubmissions(offer)
        && r == epam.OfferOutcome(offer)
    {
      if !Schemas.CredentialOfferRule(services.validators, offer) {
        return Fail(TypeError);
      }
      r := epam.SendOffer(offer);
    }

    /** uploadFile: validate, encrypt under a fresh key, upload for the
        holder, and assemble the claim value. */
    method UploadFile(gidUuid: string, file: FileObject) returns (r: Result<FileClaimValue, Error>)
      modifies this`calls
      ensures r == UploadResult(services, gidUuid, file)
      ensures calls == old(calls) + UploadCalls(services, gidUuid, file)
    {
      if !Schemas.RequiredUuid(services.validators, gidUuid) || !Schemas.FileObjectRule(file) {
        return Failure(TypeError);
      }
      var encrypted := services.crypto.encrypt(file.content, None);
      if encrypted.Failure? {
        return Failure(encrypted.error);
      }
      var request := UploadRequestFor(gidUuid, file, encrypted.value);
      calls := calls + [Upload(request)];
      var url := services.upload(request);
      if url.Failure? {
        return Failure(url.error);
      }
      r := Success(FileClaimValue(
        encrypted.value.1, services.crypto.sha512sum(file.content), file.mediaType, url.value, Some(file.name)));
    }

    /** validateRequest at clock reading `now`: a TypeError before any lookup
        or report unless the request passes its schema; then key lookup,
        signature and timestamp, stopping at the first failure; a failure is
        reported once under its code with the request's thread ID and then
        rethrown. */
    method ValidateRequest(request: CredentialRequest, now: int) returns (r: Outcome<Error>)
      modifies this`calls, epam`submissions
      ensures !Schemas.CredentialRequestRule(services.validators, request) ==>
        r == Fail(TypeError) && calls == old(calls) && epam.submissions == old(epam.submissions)
      ensures Schemas.CredentialRequestRule(services.validators, request) ==>
        calls == old(calls) + RequestValidation.CheckCalls(services, request, now)
      ensures (Schemas.CredentialRequestRule(services.validators, request)
               && RequestValidation.CheckRequest(services, request, now) == Pass) ==>
        r == Pass && epam.submissions == old(epam.submissions)
      ensures (Schemas.CredentialRequestRule(services.validators, request)
               && RequestValidation.CheckRequest(services, request, now).Fail?) ==>
        var failure := RequestValidation.CheckRequest(services, request, now).error;
        var code := Epam.CodeValue(RequestValidation.ReportCode(failure));
        epam.submissions == old(epam.submissions) + epam.ReportSubmissions(request.threadId, code)
        && r == RequestValidation.Rethrown(failure, epam.ReportOutcome(request.threadId, code))
    {
      if !Schemas.CredentialRequestRule(services.validators, request) {
        return Fail(TypeError);
      }
      var check: Outcome<Error>;
      var lookup := services.signingKey(request.gidUuid);
      calls := calls + [SigningKeyLookup(request.gidUuid)];
      if lookup.Failure? {
        check := Fail(lookup.error);
      } else {
        calls := calls + [SignatureCheck(lookup.value)];
        check := VerifySignature.VerifySignature(services.scheme, request, lookup.value);
        if check.Pass? {
          calls := calls + [TimestampCheck(now)];
          check := ValidateTimestamp.ValidateTimestamp(request, now);
        }
      }
      if check.Pass? {
        return Pass;
      }
      var code := Epam.CodeValue(RequestValidation.ReportCode(check.error));
      var reported := ReportError(request.threadId, code);
      r := RequestValidation.Rethrown(check.error, reported);
    }
  }

  // ---------------------------------------------------------------------------
  // Properties
  // ---------------------------------------------------------------------------

  /** As written: a correctly signed request dated 8640000000000001, one
      millisecond past the last valid date, is still a safe integer, so it
      passes the schema, and its Invalid Date escapes the window at every
      clock reading: validation passes after all three checks. */
  lemma FarFutureRequestAccepted(services: Services, request: CredentialRequest, now: int, key: PublicKey)
    requires Schemas.RequiredUuid(services.validators, request.gidUuid)
    requires request.signature != "" && request.threadId != ""
    requires request.timestamp == ValidateTimestamp.MaxTimeValue + 1
    requires services.signingKey(request.gidUuid) == Success(key)
    requires services.scheme.verify(VerifySignature.CanonicalMessage(request), key,
      services.scheme.decodeBase64(request.signature)) == Success(true)
    ensures Schemas.CredentialRequestRule(services.validators, request)
    ensures RequestValidation.CheckRequest(services, request, now) == Pass
    ensures RequestValidation.CheckCalls(services, request, now)
      == [SigningKeyLookup(request.gidUuid), SignatureCheck(key), TimestampCheck(now)]
  {
    ValidateTimestamp.OutOfRangeTimestampAccepted(request, now);
  }

  /** A claim value uploadFile returns passes the offer's file-claim rule once
      the URL is a URI and the key and digest are non-empty. */
  lemma UploadedClaimIsOfferable(services: Services, gidUuid: string, file: FileObject)
    requires UploadResult(services, gidUuid, file).Success?
    requires Schemas.RequiredUri(services.validators, UploadResult(services, gidUuid, file).value.url)
    requires services.crypto.encrypt(file.content, None).Success?
    requires services.crypto.encrypt(file.content, None).value.1 != ""
    requires services.crypto.sha512sum(file.content) != ""
    ensures Schemas.ClaimValueRule(services.validators, FileClaim(UploadResult(services, gidUuid, file).value))
  {
  }

  /** The file uploads and downloads back: when the storage serves what was
      uploaded and the decryption undoes the encryption, downloading the
      returned URL with the returned key and checksum yields the content. */
  lemma UploadDownloadRoundTrip(services: Services, gidUuid: string, file: FileObject)
    requires UploadResult(services, gidUuid, file).Success?
    requires ServesUploads(services) && Inverts(services.crypto, None, None)
    requires Schemas.RequiredUri(services.validators, UploadResult(services, gidUuid, file).value.url)
    requires UploadResult(services, gidUuid, file).value.decryptionKey != ""
    requires UploadResult(services, gidUuid, file).value.sha512sum != ""
    ensures
      var claim := UploadResult(services, gidUuid, file).value;
      DF.DownloadResult(services, claim.url, Some(DF.DownloadOptions(Some(claim.decryptionKey), None, Some(claim.sha512sum))))
        == Success(file.content)
  {
    var claim := UploadResult(services, gidUuid, file).value;
    var encrypted := services.crypto.encrypt(file.content, None).value;
    var request := UploadRequestFor(gidUuid, file, encrypted);
    assert services.upload(request) == Success(claim.url);
    assert services.fetch(claim.url) == Success(encrypted.0);
    assert services.crypto.decrypt(encrypted.0, encrypted.1, None) == Success(file.content);
  }
}
