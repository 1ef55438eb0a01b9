/** Download with optional decryption and integrity check
    (src/utils/download-file.ts). The fetch, the decryption and the digest
    are collaborators; the method records the calls it makes into them. */
module DownloadFile {
  import opened Wrappers
  import opened Common
  import Schemas

  /** DownloadOptions; an absent field is None. */
  datatype DownloadOptions = DownloadOptions(
    decryptionKey: Option<string>,
    privateKey: Option<string>,
    sha512sum: Option<string>)

  /** urlSchema: a present, non-empty string that is a URI. */
  predicate ValidUrl(validators: Validators, url: string) {
    Schemas.RequiredUri(validators, url)
  }

  /** downloadOptionsSchema: absent options pass; each listed field is an
      optional string (other keys are allowed). */
  predicate ValidOptions(options: Option<DownloadOptions>) {
    options.None? ||
    (Schemas.OptionalString(options.value.decryptionKey)
     && Schemas.OptionalString(options.value.privateKey)
     && Schemas.OptionalString(options.value.sha512sum))
  }

  /** `options?.decryptionKey != null`. */
  predicate DecryptionRequested(options: Option<DownloadOptions>) {
    options.Some? && options.value.decryptionKey.Some?
  }

  /** `options?.sha512sum != null`. */
  predicate ChecksumRequested(options: Option<DownloadOptions>) {
    options.Some? && options.value.sha512sum.Some?
  }

  /** The bytes after the fetch and, when a key is given, after decryption. */
  function Plaintext(services: Services, url: string, options: Option<DownloadOptions>): (r: Result<Bytes, Error>)
    ensures !DecryptionRequested(options) ==> r == services.fetch(url)
    ensures DecryptionRequested(options) && services.fetch(url).Success? ==>
      r == services.crypto.decrypt(services.fetch(url).value, options.value.decryptionKey.value, options.value.privateKey)
    ensures services.fetch(url).Failure? ==> r == services.fetch(url)
  {
    var data :- services.fetch(url);
    if DecryptionRequested(options) then
      services.crypto.decrypt(data, options.value.decryptionKey.value, options.value.privateKey)
    else
      Success(data)
  }

  /** What downloadFile resolves to: a TypeError for an invalid URL or
      options, the fetch's or the decryption's error, DataIntegrity when a
      checksum was given and the plaintext's digest differs, else the plaintext. */
  function DownloadResult(services: Services, url: string, options: Option<DownloadOptions>): (r: Result<Bytes, Error>)
    ensures !(ValidUrl(services.validators, url) && ValidOptions(options)) ==> r == Failure(TypeError)
    ensures r.Success? <==>
      ValidUrl(services.validators, url) && ValidOptions(options)
      && Plaintext(services, url, options).Success?
      && (ChecksumRequested(options) ==>
            options.value.sha512sum.value == services.crypto.sha512sum(Plaintext(services, url, options).value))
    ensures r.Success? ==> r.value == Plaintext(services, url, options).value
    ensures ValidUrl(services.validators, url) && ValidOptions(options) && Plaintext(services, url, options).Failure? ==>
      r == Plaintext(services, url, options)
  {
    if !ValidUrl(services.validators, url) || !ValidOptions(options) then Failure(TypeError)
    else
      var data :- Plaintext(services, url, options);
      if ChecksumRequested(options) && options.value.sha512sum.value != services.crypto.sha512sum(data) then
        Failure(DataIntegrity)
      else
        Success(data)
  }

  /** The collaborator calls downloadFile makes: none when validation fails,
      then the fetch, then the decryption when a key was given. */
  function DownloadCalls(services: Services, url: string, options: Option<DownloadOptions>): (calls: seq<Call>)
    ensures !(ValidUrl(services.validators, url) && ValidOptions(options)) ==> calls == []
    ensures ValidUrl(services.validators, url) && ValidOptions(options) ==> |calls| >= 1 && calls[0] == Fetch(url)
    ensures |calls| <= 2
    ensures |calls| == 2 <==>
      ValidUrl(services.validators, url) && ValidOptions(options)
      && DecryptionRequested(options) && services.fetch(url).Success?
    ensures forall i :: 1 <= i < |calls| ==> calls[i].Decrypt?
    ensures (exists i :: 0 <= i < |calls| && calls[i].Decrypt?) ==>
      DecryptionRequested(options) && services.fetch(url).Success?
    ensures (ValidUrl(services.validators, url) && ValidOptions(options)
             && DecryptionRequested(options) && services.fetch(url).Success?) ==>
      |calls| == 2
      && calls[1] == Decrypt(services.fetch(url).value, options.value.decryptionKey.value, options.value.privateKey)
  {
    if !ValidUrl(services.validators, url) || !ValidOptions(options) then []
    else if DecryptionRequested(options) && services.fetch(url).Success? then
      [Fetch(url), Decrypt(services.fetch(url).value, options.value.decryptionKey.value, options.value.privateKey)]
    else
      [Fetch(url)]
  }

  /** downloadFile, step by step: validate, fetch once, decrypt when a key is
      given (replacing the data), then compare the checksum. */
  method Download(services: Services, url: string, options: Option<DownloadOptions>)
    returns (r: Result<Bytes, Error>, ghost calls: seq<Call>)
    ensures r == DownloadResult(services, url, options)
    ensures calls == DownloadCalls(services, url, options)
  {
    calls := [];
    if !ValidUrl(services.validators, url) || !ValidOptions(options) {
      return Failure(TypeError), calls;
    }
    var fetched := services.fetch(url);
    calls := calls + [Fetch(url)];
    if fetched.Failure? {
      return Failure(fetched.error), calls;
    }
    var data := fetched.value;
    if options.Some? && options.value.decryptionKey.Some? {
      calls := calls + [Decrypt(data, options.value.decryptionKey.value, options.value.privateKey)];
      var decrypted := services.crypto.decrypt(data, options.value.decryptionKey.value, options.value.privateKey);
      if decrypted.Failure? {
        return Failure(decrypted.error), calls;
      }
      data := decrypted.value;
    }
    if options.Some? && options.value.sha512sum.Some? && options.value.sha512sum.value != services.crypto.sha512sum(data) {
      return Failure(DataIntegrity), calls;
    }
    r := Success(data);
  }

  // ---------------------------------------------------------------------------
  // Properties
  // ---------------------------------------------------------------------------

  /** Without options the fetched bytes come back unchanged and nothing is
      decrypted. */
  lemma NoOptionsReturnsFetched(services: Services, url: string)
    requires ValidUrl(services.validators, url)
    ensures DownloadResult(services, url, None) == services.fetch(url)
    ensures DownloadCalls(services, url, None) == [Fetch(url)]
  {
  }

  /** The checksum is compared with the digest of the decrypted bytes: a
      checksum of the plaintext passes even though the ciphertext differs. */
  lemma ChecksumOverPlaintext(services: Services, url: string, key: string, privateKey: Option<string>, plain: Bytes)
    requires ValidUrl(services.validators, url) && key != "" && Schemas.OptionalString(privateKey)
    requires services.fetch(url).Success?
    requires services.crypto.decrypt(services.fetch(url).value, key, privateKey) == Success(plain)
    requires services.crypto.sha512sum(plain) != ""
    ensures DownloadResult(services, url, Some(DownloadOptions(Some(key), privateKey, Some(services.crypto.sha512sum(plain)))))
      == Success(plain)
  {
  }

  /** A checksum that differs from the plaintext's digest raises
      DataIntegrity and returns no data. */
  lemma MismatchRaises(services: Services, url: string, options: DownloadOptions)
    requires ValidUrl(services.validators, url) && ValidOptions(Some(options))
    requires Plaintext(services, url, Some(options)).Success?
    requires options.sha512sum.Some?
    requires options.sha512sum.value != services.crypto.sha512sum(Plaintext(services, url, Some(options)).value)
    ensures DownloadResult(services, url, Some(options)) == Failure(DataIntegrity)
  {
  }

  /** A matching or absent checksum returns the (possibly decrypted) bytes. */
  lemma MatchReturnsPlaintext(services: Services, url: string, options: DownloadOptions)
    requires ValidUrl(services.validators, url) && ValidOptions(Some(options))
    requires Plaintext(services, url, Some(options)).Success?
    requires options.sha512sum.None?
      || options.sha512sum.value == services.crypto.sha512sum(Plaintext(services, url, Some(options)).value)
    ensures DownloadResult(services, url, Some(options)) == Plaintext(services, url, Some(options))
  {
  }
}
