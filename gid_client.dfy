/** The GlobaliD client (src/clients/gid-client.ts): the same request
    validation as the issuer client but without the entry schema, uploads
    encrypted under the holder's public encryption key, and plain delegation
    for reportError, sendOffer and downloadFile. */
module Gid {
  import opened Wrappers
  import opened Common
  import Epam
  import Schemas
  import OfferFactory
  import RequestValidation
  import VerifySignature
  import ValidateTimestamp
  import DF = DownloadFile

  /** The upload uploadFile makes for an encryption result `encrypted`: no
      holder UUID is passed to the uploader. */
  function UploadRequestFor(file: FileObject, encrypted: (Bytes, string)): UploadRequest {
    UploadRequest(None, file.name, file.mediaType, encrypted.0)
  }

  /** What uploadFile resolves to: the key lookup's, the encryption's or the
      upload's error, or the claim value that carries the uploader's URL, the
      key of the encryption under the holder's key, the file's type and the
      digest of the plaintext, and no name. */
  function UploadResult(services: Services, gidUuid: string, file: FileObject): (r: Result<FileClaimValue, Error>)
    ensures services.encryptionKey(gidUuid).Failure? ==> r == Failure(services.encryptionKey(gidUuid).error)
    ensures r.Success? <==>
      services.encryptionKey(gidUuid).Success?
      && services.crypto.encrypt(file.content, Some(services.encryptionKey(gidUuid).value)).Success?
      && services.upload(UploadRequestFor(file,
           services.crypto.encrypt(file.content, Some(services.encryptionKey(gidUuid).value)).value)).Success?
    ensures r.Success? ==>
      var encrypted := services.crypto.encrypt(file.content, Some(services.encryptionKey(gidUuid).value)).value;
      services.upload(UploadRequestFor(file, encrypted)) == Success(r.value.url)
      && r.value.decryptionKey == encrypted.1
      && r.value.sha512sum == services.crypto.sha512sum(file.content)
      && r.value.mediaType == file.mediaType
      && r.value.name == None
  {
    var publicKey :- services.encryptionKey(gidUuid);
    var encrypted :- services.crypto.encrypt(file.content, Some(publicKey));
    var url :- services.upload(UploadRequestFor(file, encrypted));
    Success(FileClaimValue(encrypted.1, services.crypto.sha512sum(file.content), file.mediaType, url, None))
  }

  /** The collaborator calls uploadFile makes: the key lookup, then the upload
      once the encryption succeeded. */
  function UploadCalls(services: Services, gidUuid: string, file: FileObject): (calls: seq<Call>)
    ensures 1 <= |calls| <= 2 && calls[0] == EncryptionKeyLookup(gidUuid)
    ensures |calls| == 2 <==>
      services.encryptionKey(gidUuid).Success?
      && services.crypto.encrypt(file.content, Some(services.encryptionKey(gidUuid).value)).Success?
    ensures |calls| == 2 ==>
      calls[1] == Upload(UploadRequestFor(file,
        services.crypto.encrypt(file.content, Some(services.encryptionKey(gidUuid).value)).value))
  {
    [EncryptionKeyLookup(gidUuid)] +
    if services.encryptionKey(gidUuid).Success?
      && services.crypto.encrypt(file.content, Some(services.encryptionKey(gidUuid).value)).Success?
    then [Upload(UploadRequestFor(file, services.crypto.encrypt(file.content, Some(services.encryptionKey(gidUuid).value)).value))]
    else []
  }

  class GidClient {
    /** `#epamClient`. */
    const epam: Epam.EpamClient
    /** The key provider, the uploader, the downloader and the crypto library. */
    const services: Services
    /** Every collaborator call made, in order. */
    ghost var calls: seq<Call>

    constructor(epam: Epam.EpamClient, services: Services)
      ensures this.epam == epam && this.services == services && calls == []
    {
      this.epam := epam;
      this.services := services;
      calls := [];
    }

    /** downloadFile: the download utility with the same arguments. */
    method DownloadFile(url: string, options: Option<DF.DownloadOptions>) returns (r: Result<Bytes, Error>)
      modifies this`calls
      ensures r == DF.DownloadResult(services, url, options)
      ensures calls == old(calls) + DF.DownloadCalls(services, url, options)
    {
      ghost var trace: seq<Call>;
      r, trace := DF.Download(services, url, options);
      calls := calls + trace;
    }

    /** reportError: the EPAM client's report, with no validation. */
    method ReportError(threadId: string, code: string) returns (r: Outcome<Error>)
      modifies epam`submissions
      ensures epam.submissions == old(epam.submissions) + epam.ReportSubmissions(threadId, code)
      ensures r == epam.ReportOutcome(threadId, code)
    {
      r := epam.ReportError(threadId, code);
    }

    /** sendOffer: the EPAM client's single post, with no validation. */
    method SendOffer(offer: CredentialOffer) returns (r: Outcome<Error>)
      modifies epam`submissions
      ensures epam.submissions == old(epam.submissions) + epam.OfferSubmissions(offer)
      ensures r == epam.OfferOutcome(offer)
    {
      r := epam.SendOffer(offer);
    }

    /** uploadFile: look up the holder's encryption key, encrypt under it,
        upload, and assemble the claim value. */
    method UploadFile(gidUuid: string, file: FileObject) returns (r: Result<FileClaimValue, Error>)
      modifies this`calls
      ensures r == UploadResult(services, gidUuid, file)
      ensures calls == old(calls) + UploadCalls(services, gidUuid, file)
    {
      var publicKey := services.encryptionKey(gidUuid);
      calls := calls + [EncryptionKeyLookup(gidUuid)];
      if publicKey.Failure? {
        return Failure(publicKey.error);
      }
      var encrypted := services.crypto.encrypt(file.content, Some(publicKey.value));
      if encrypted.Failure? {
        return Failure(encrypted.error);
      }
      var request := UploadRequestFor(file, encrypted.value);
      calls := calls + [Upload(request)];
      var url := services.upload(request);
      if url.Failure? {
        return Failure(url.error);
      }
      r := Success(FileClaimValue(encrypted.value.1, services.crypto.sha512sum(file.content), file.mediaType, url.value, None));
    }

    /** validateRequest at clock reading `now`: key lookup, signature and
        timestamp, stopping at the first failure; a failure is reported once
        under its code with the request's thread ID and then rethrown. */
    method ValidateRequest(request: CredentialRequest, now: int) returns (r: Outcome<Error>)
      modifies this`calls, epam`submissions
      ensures calls == old(calls) + RequestValidation.CheckCalls(services, request, now)
      ensures RequestValidation.CheckRequest(services, request, now) == Pass ==>
        r == Pass && epam.submissions == old(epam.submissions)
      ensures RequestValidation.CheckRequest(services, request, now).Fail? ==>
        var failure := RequestValidation.CheckRequest(services, request, now).error;
        var code := Epam.CodeValue(RequestValidation.ReportCode(failure));
        epam.submissions == old(epam.submissions) + epam.ReportSubmissions(request.threadId, code)
        && r == RequestValidation.Rethrown(failure, epam.ReportOutcome(request.threadId, code))
    {
      var check: Outcome<Error>;
      var lookup := services.signingKey(request.gidUuid);
      calls := calls + [SigningKeyLookup(request.gidUuid)];
      if lookup.Failure? {
        check := Fail(lookup.error);
      } else {
        calls := calls + [SignatureCheck(lookup.value)];
        check := VerifySignature.VerifySignature(services.scheme, request, lookup.value);
        if check.Pass? {
          calls := calls + [TimestampCheck(now)];
          check := ValidateTimestamp.ValidateTimestamp(request, now);
        }
      }
      if check.Pass? {
        return Pass;
      }
      var code := Epam.CodeValue(RequestValidation.ReportCode(check.error));
      var reported := ReportError(request.threadId, code);
      r := RequestValidation.Rethrown(check.error, reported);
    }
  }

  // ---------------------------------------------------------------------------
  // Properties
  // ---------------------------------------------------------------------------

  /** The file uploads and downloads back: when the storage serves what was
      uploaded and the holder's private key undoes encryption under the
      holder's public key, downloading the returned URL with the returned key,
      that private key and the returned checksum yields the content. */
  lemma UploadDownloadRoundTrip(services: Services, gidUuid: string, file: FileObject, privateKey: string)
    requires UploadResult(services, gidUuid, file).Success?
    requires ServesUploads(services)
    requires Inverts(services.crypto, Some(services.encryptionKey(gidUuid).value), Some(privateKey))
    requires Schemas.RequiredUri(services.validators, UploadResult(services, gidUuid, file).value.url)
    requires UploadResult(services, gidUuid, file).value.decryptionKey != "" && privateKey != ""
    requires UploadResult(services, gidUuid, file).value.sha512sum != ""
    ensures
      var claim := UploadResult(services, gidUuid, file).value;
      DF.DownloadResult(services, claim.url,
        Some(DF.DownloadOptions(Some(claim.decryptionKey), Some(privateKey), Some(claim.sha512sum))))
        == Success(file.content)
  {
    var claim := UploadResult(services, gidUuid, file).value;
    var publicKey := services.encryptionKey(gidUuid).value;
    var encrypted := services.crypto.encrypt(file.content, Some(publicKey)).value;
    var request := UploadRequestFor(file, encrypted);
    assert services.upload(request) == Success(claim.url);
    assert services.fetch(claim.url) == Success(encrypted.0);
    assert services.crypto.decrypt(encrypted.0, encrypted.1, Some(privateKey)) == Success(file.content);
  }

  /** A claim value uploadFile returns for a JPEG or PNG file survives the
      offer translation: the attribute it becomes decodes back to it. */
  lemma UploadedClaimSurvivesOffer(services: Services, gidUuid: string, file: FileObject, claimName: string)
    requires UploadResult(services, gidUuid, file).Success? && Schemas.IsFileType(file.mediaType)
    ensures
      var claim := FileClaim(UploadResult(services, gidUuid, file).value);
      OfferFactory.DecodeAttribute(OfferFactory.CreateCredentialAttribute(claimName, claim)) == Some((claimName, claim))
  {
    OfferFactory.AttributeRoundTrip(claimName, FileClaim(UploadResult(services, gidUuid, file).value));
  }
}
