/** Records shared by the clients and utilities (src/common.ts and the
    interfaces the clients exchange with their collaborators), the error
    classes the core raises, and the collaborators themselves, which the model
    treats as given total functions. */
module Common {
  import opened Wrappers
  import Json

  type Bytes = seq<bv8>

  /** Key material as the key provider hands it out (an opaque string). */
  type PublicKey = string

  /** Every error class the core raises or lets through. */
  datatype Error =
    | TypeError                                   // a Joi schema rejected an argument (validation.ts)
    | IdentityNotFound(gidUuid: string)           // public-key-provider.ts
    | PublicKeyNotFound(gidUuid: string)          // public-key-provider.ts
    | InvalidSignature                            // verify-signature.ts
    | StaleRequest(timestamp: int, threshold: int)  // validate-timestamp.ts
    | EagerRequest(timestamp: int, threshold: int)  // validate-timestamp.ts
    | DataIntegrity                               // download-file.ts
    | ServiceFailure(detail: string)              // anything an HTTP service or the crypto library throws

  /** A holder's credential request; `timestamp` is milliseconds since the epoch. */
  datatype CredentialRequest = CredentialRequest(
    threadId: string,
    gidUuid: string,
    timestamp: int,
    payload: Option<Json.Value>,
    signature: string)

  /** The media types of the FileType enumeration. */
  const JpegMediaType: string := "image/jpeg"
  const PngMediaType: string := "image/png"

  /** A primitive claim value: `boolean | number | string` (numbers integral). */
  datatype Primitive = PBool(b: bool) | PNumber(n: int) | PString(s: string)

  /** What an uploaded file contributes to an offer (FileClaimValue); `name`
      is filled in by the issuer client only. */
  datatype FileClaimValue = FileClaimValue(
    decryptionKey: string,
    sha512sum: string,
    mediaType: string,
    url: string,
    name: Option<string>)

  /** The three shapes a claim value can take. */
  datatype ClaimValue =
    | FileClaim(file: FileClaimValue)
    | TypedClaim(claimType: string, value: Primitive)
    | BareClaim(primitive: Primitive)

  /** A credential offer; `claims` lists the record's entries in entry order. */
  datatype CredentialOffer = CredentialOffer(
    threadId: string,
    name: string,
    description: Option<string>,
    contextIri: string,
    subjectType: string,
    claims: seq<(string, ClaimValue)>)

  /** A file handed to `uploadFile`: plaintext content, name and media type. */
  datatype FileObject = FileObject(content: Bytes, name: string, mediaType: string)

  /** The arguments of FileUploader.uploadEncryptedFile; the issuer client
      passes the holder's UUID, the GlobaliD client does not. */
  datatype UploadRequest = UploadRequest(
    gidUuid: Option<string>,
    name: string,
    mediaType: string,
    ciphertext: Bytes)

  /** An observable call into a collaborator, in the order the core makes it. */
  datatype Call =
    | SigningKeyLookup(gidUuid: string)
    | SignatureCheck(key: PublicKey)
    | TimestampCheck(now: int)
    | EncryptionKeyLookup(gidUuid: string)
    | Upload(request: UploadRequest)
    | Fetch(url: string)
    | Decrypt(data: Bytes, decryptionKey: string, privateKey: Option<string>)

  /** The crypto utilities at their call sites' shapes: `encrypt` returns the
      ciphertext and the decryption key (wrapped when a public key is given),
      `decrypt` takes the ciphertext, that key and an optional private key. */
  datatype Crypto = Crypto(
    encrypt: (Bytes, Option<PublicKey>) -> Result<(Bytes, string), Error>,
    decrypt: (Bytes, string, Option<string>) -> Result<Bytes, Error>,
    sha512sum: Bytes -> string)

  /** `decrypt` undoes `encrypt` for the key pair (publicKey, privateKey). */
  ghost predicate Inverts(crypto: Crypto, publicKey: Option<PublicKey>, privateKey: Option<string>) {
    forall p: Bytes :: crypto.encrypt(p, publicKey).Success? ==>
      crypto.decrypt(crypto.encrypt(p, publicKey).value.0, crypto.encrypt(p, publicKey).value.1, privateKey)
        == Success(p)
  }

  /** The storage serves back what was uploaded: fetching the URL an upload
      answered with yields the uploaded ciphertext. */
  ghost predicate ServesUploads(services: Services) {
    forall request: UploadRequest :: services.upload(request).Success? ==>
      services.fetch(services.upload(request).value) == Success(request.ciphertext)
  }

  /** Signature checking: `crypto.verify` over the signed message, which
      answers whether the signature is valid or throws (a Failure carrying the
      library's message) when it cannot use the key; and the base64 decoding
      of the signature text, which never throws. */
  datatype SignatureScheme = SignatureScheme(
    verify: (string, PublicKey, Bytes) -> Result<bool, string>,
    decodeBase64: string -> Bytes)

  /** The library-defined string rules of Joi: `uri()` and `uuid()`. */
  datatype Validators = Validators(isUri: string -> bool, isUuid: string -> bool)

  /** Everything the clients call out to, apart from the EPAM client. */
  datatype Services = Services(
    signingKey: string -> Result<PublicKey, Error>,
    encryptionKey: string -> Result<PublicKey, Error>,
    upload: UploadRequest -> Result<string, Error>,
    fetch: string -> Result<Bytes, Error>,
    crypto: Crypto,
    scheme: SignatureScheme,
    validators: Validators)
}
