# issuer-toolkit, modelled in Dafny

The issuer toolkit is the library a credential issuer uses to talk to GlobaliD. A holder sends a
*credential request*: a thread ID, the holder's GlobaliD UUID, a millisecond timestamp, an
optional JSON payload and a base64 signature. The issuer validates it with `validateRequest`:
- it looks up the holder's public signing key;
- it verifies the signature over `threadId ++ timestamp ++ JSON(payload)`;
- it checks that the timestamp lies within five minutes in the past and one minute in the
  future.

A failure is reported to the EPAM credential-exchange service under error code `600-16` (a
signature, stale or eager error) or `600-7` (anything else), and then rethrown. The issuer then
sends a *credential offer*. The EPAM client translates the offer into the service's attribute
list. File claims are uploaded encrypted and later downloaded with an optional decryption and an
integrity check. `GidIssuerClient` checks every argument against Joi schemas first; `GidClient`
does not.

Collaborators the model treats as given total functions (fields of `Common.Services` and
`Epam.EpamClient`):
- the key provider;
- the HTTP services;
- the crypto library (`encrypt`, `decrypt`, `sha512sum`);
- Ed25519 verification and base64 decoding;
- Joi's library rules `uri()` and `uuid()`;
- the access-token provider.

Observable effects are ghost logs:
- `EpamClient.submissions` holds the posts to the EPAM service;
- each client's `calls` holds the calls into the collaborators, in order: identity and key
  lookups, the signature and timestamp checks, uploads, fetches and decryptions. A decryption is
  logged because whether it runs depends on the options. `encrypt` and `sha512sum` are not
  logged: they are functions of `services.crypto` whose results the upload's contract states.

The clock reading `now` that `validateTimestamp` takes from `dayjs()` is a parameter.

The model follows the code. Where the code's own parts disagree:
- The signed message puts the thread ID first, as `verify-signature.ts` builds it.
- The crypto library is modelled with the call sites' shape: `encrypt(content[, publicKey])`
  returns the ciphertext and a key.
- The uploader takes an optional holder UUID. Both clients import `src/clients/file-uploader.ts`,
  whose `uploadEncryptedFile` takes the UUID as a mandatory first parameter (line 16). The issuer
  client passes it (`gid-issuer-client.ts:80`). The GlobaliD client calls with three arguments
  (`gid-client.ts:85`), the shape of `src/utils/file-uploader.ts:17` and of its own test
  (`gid-client.spec.ts:185`). The model follows the call sites: a UUID from the issuer client,
  none from the GlobaliD client.
- `FileType` values are `image/jpeg` and `image/png`, as the factory and the tests use them.
- `EpamClient` passes its appUuid to the service functions as a third argument (`epam-client.ts:32` and `:50-55`), while `services/epam.ts:9` and `:22` take two parameters. The model follows the client: every post carries the appUuid.
- The service's offer interface (`services/epam.ts:35-46`) names the list `credential_attributes` and each type `mime_type`. The factory emits `attributes` and `value_type`. The model follows the factory (`OfferFactory.EpamOffer.attributes`, `CredentialAttribute.valueType`).
- Properties of the code shown by the proofs:
  - the offer schema refuses every `{type, value}` claim (`Schemas.TypedClaimsRejected`);
  - it never looks at `contextIri` (`Schemas.ContextIriUnchecked`);
  - the signed message has no delimiters, so a thread ID and a timestamp can trade digits
    (`VerifySignature.ThreadIdAndTimestampCanTradeDigits`);
  - a timestamp beyond the Date range escapes the freshness window (see "## Findings").

## Model

| member | source | states |
|---|---|---|
| Text.IntToDecimal | src/utils/verify-signature.ts:15 | the timestamp's text in the message is non-empty, all digits for a non-negative value, and a '-' followed by digits for a negative one |
| Text.NatToDecimal | src/utils/epam-credential-offer-factory.ts:42 | `String(n)` of a natural number is a non-empty digit string with no leading zero unless n is 0 |
| Text.ParseIntOfDecimal | src/utils/verify-signature.ts:15 | the decimal text of every integer reads back to that integer |
| Text.DecimalInjective | src/utils/verify-signature.ts:15 | different timestamps render to different texts |
| Json.Stringify | src/utils/verify-signature.ts:14 | no contract of its own: `JSON.stringify` of a JSON value; its partner is the decoder, by ParseStringify and StringifyInjective |
| Json.StringifyStart | src/utils/verify-signature.ts:14 | a JSON serialisation is never empty, never starts with a closing bracket, and starts with a digit only for a non-negative number |
| Json.NumberParses | src/utils/verify-signature.ts:15 | a numeral followed by text that does not start with a digit reads back to its value and that text |
| Json.ParseValueStringify | src/utils/verify-signature.ts:14 | every value's serialisation, followed by a delimiter, decodes to the value and the delimiter |
| Json.ParseStringify | src/utils/verify-signature.ts:14 | decoding inverts JSON.stringify for every value |
| Json.StringifyInjective | src/utils/epam-credential-offer-factory.ts:31-36 | different values serialise to different texts |
| ValidateTimestamp.ToInstant | src/utils/validate-timestamp.ts:13 | `dayjs(t)` is a valid date iff −8.64e15 ≤ t ≤ 8.64e15, and then holds t |
| ValidateTimestamp.MakeStalenessThreshold | src/utils/validate-timestamp.ts:24 | five minutes before the clock; a date iff the clock and that time are dates |
| ValidateTimestamp.MakeEagernessThreshold | src/utils/validate-timestamp.ts:26 | one minute after the clock; a date iff the clock and that time are dates |
| ValidateTimestamp.ValidateTimestamp | src/utils/validate-timestamp.ts:11-26 | StaleRequest iff the timestamp, the clock and now − 300000 are dates and the timestamp is older; EagerRequest iff the timestamp, the clock and now + 60000 are dates and the timestamp is later; no other error, and it carries the timestamp and the threshold; a timestamp outside the Date range passes; for a date at a real clock, passes iff now − 300000 ≤ timestamp ≤ now + 60000 |
| ValidateTimestamp.OnlyDifferenceMatters | src/utils/validate-timestamp.ts:12-20 | for dates at real clocks, the outcome depends only on timestamp − now: shifting both by the same amount keeps the verdict and the kind of error, and shifts the error's timestamp and threshold by that amount |
| ValidateTimestamp.ShiftAcrossTimeRangeEdge | src/utils/validate-timestamp.ts:13-20 | across the edge of the Date range the difference stops deciding: the last valid date is eager at the epoch, one millisecond later passes one millisecond after the epoch |
| ValidateTimestamp.BoundariesAccepted | src/utils/validate-timestamp.ts:15-19 | exactly five minutes old and exactly one minute ahead are both accepted |
| ValidateTimestamp.JustPastStalenessBoundary | src/utils/validate-timestamp.ts:15-16 | for a date at a real clock, one millisecond older than five minutes is StaleRequest with threshold now − 300000 |
| ValidateTimestamp.JustPastEagernessBoundary | src/utils/validate-timestamp.ts:19-20 | for a date at a real clock, one millisecond beyond one minute ahead is EagerRequest with threshold now + 60000 |
| ValidateTimestamp.UnitTestCases | src/utils/validate-timestamp.spec.ts:8-22 | at a clock whose six minutes before and two minutes after are dates: six minutes ago is stale, two minutes ahead is eager, now passes |
| ValidateTimestamp.OutOfRangeTimestampAccepted | src/utils/validate-timestamp.ts:13-21 | 8640000000000001 passes at every clock reading, although it lies beyond the eagerness threshold of every real clock |
| ValidateTimestamp.IntendedValidateTimestamp | src/utils/validate-timestamp.ts:8-9 | the documented check: passes iff now − 300000 ≤ timestamp ≤ now + 60000, StaleRequest iff older, EagerRequest iff later, with the timestamp and the threshold |
| ValidateTimestamp.IntendedCheckCases | src/utils/validate-timestamp.ts:8-9 | at a real clock the documented check refuses every timestamp outside the Date range and agrees with the code on every date |
| VerifySignature.CanonicalMessage | src/utils/verify-signature.ts:15 | no contract of its own: the message `threadId ++ timestamp ++ payload`; MessageTailParses, MessageDeterminesRequest and the two digit-trading lemmas state what it keeps and loses |
| VerifySignature.PayloadString | src/utils/verify-signature.ts:14 | the payload's part of the message is empty exactly when the payload is absent |
| VerifySignature.VerifySignature | src/utils/verify-signature.ts:13-21 | passes iff the verifier accepts (threadId ++ timestamp ++ payload, key, base64-decoded signature); InvalidSignature iff the verifier rejects it; when the verifier throws, that error propagates as a service failure |
| VerifySignature.UnusableKeyThrows | src/utils/verify-signature.ts:17 | a key the verifier cannot use makes the check throw the verifier's error, which is not InvalidSignature |
| VerifySignature.MessageTailParses | src/utils/verify-signature.ts:14-15 | after the thread ID, the message yields the timestamp and the payload back, unless the payload is a non-negative number |
| VerifySignature.MessageDeterminesRequest | src/utils/verify-signature.ts:15 | two requests with the same thread ID and such payloads sign the same message only if their timestamps and payloads agree |
| VerifySignature.ThreadIdAndTimestampCanTradeDigits | src/utils/verify-signature.ts:15 | ("a1", 23) and ("a", 123) sign the same message |
| VerifySignature.NumericPayloadMergesWithTimestamp | src/utils/verify-signature.ts:14-15 | timestamp 1 with payload 2 signs the same message as timestamp 12 with no payload |
| VerifySignature.SignedRequestVerifies | src/utils/verify-signature.ts:16-17 | a request signed over its message with a key the verifier accepts passes |
| VerifySignature.ForeignSignatureRejected | src/utils/verify-signature.spec.ts:16-20 | under a scheme that accepts for the key only the bytes of its own signatures, a request whose signature decodes to other bytes raises InvalidSignature |
| VerifySignature.WhitespaceVariantAccepted | src/utils/verify-signature.ts:16-17 | base64 decoding of the signature text is what the verifier sees: a text with a trailing space that decodes to the same bytes is accepted like the signature |
| DownloadFile.ValidUrl | src/utils/download-file.ts:42-49 | no contract of its own: `Joi.string().uri().required()` |
| DownloadFile.ValidOptions | src/utils/download-file.ts:51-62 | no contract of its own: absent options, or each of the three keys an optional non-empty string |
| DownloadFile.Plaintext | src/utils/download-file.ts:15-18 | the fetched bytes, replaced by the decryption result exactly when a decryption key is given; a fetch error passes through |
| DownloadFile.DownloadResult | src/utils/download-file.ts:12-23 | TypeError for an invalid URL or options; otherwise success iff the fetch and the decryption succeed and any checksum equals the digest of the plaintext; the value is the plaintext |
| DownloadFile.DownloadCalls | src/utils/download-file.ts:13-17 | no call before validation passes; then the fetch of the URL first, at most two calls, and a decryption only when a key was given and the fetch succeeded; two calls exactly when the inputs are valid, a key was given and the fetch succeeded, and every call after the first is a decryption; conversely, for valid inputs with a key and a successful fetch, the second call is the decryption of the fetched bytes with the given keys |
| DownloadFile.Download | src/utils/download-file.ts:12-23 | the step-by-step download returns DownloadResult and makes exactly the calls DownloadCalls lists |
| DownloadFile.NoOptionsReturnsFetched | src/utils/download-file.ts:15-22 | without options the fetched bytes come back unchanged and nothing is decrypted |
| DownloadFile.ChecksumOverPlaintext | src/utils/download-file.ts:16-19 | a checksum of the decrypted bytes passes, whatever the ciphertext is |
| DownloadFile.MismatchRaises | src/utils/download-file.ts:19-21 | a checksum that differs from the plaintext's digest raises DataIntegrity |
| DownloadFile.MatchReturnsPlaintext | src/utils/download-file.ts:19-22 | an absent or matching checksum returns the possibly decrypted bytes |
| OfferFactory.PrimitiveToString | src/utils/epam-credential-offer-factory.ts:42 | no contract of its own: `String(value)` of a boolean, number or string; AttributeRoundTrip reads it back |
| OfferFactory.TypeOf | src/utils/epam-credential-offer-factory.ts:49 | no contract of its own: `typeof value` of a primitive; CreateCredentialAttribute types bare values by it |
| OfferFactory.ToEpamValueType | src/utils/epam-credential-offer-factory.ts:54-76 | a named type maps to the value type of that name; every other string maps to string |
| OfferFactory.ValueTypeRoundTrip | src/utils/epam-credential-offer-factory.ts:54-76 | every value type is reached from its own source name |
| OfferFactory.CreateCredentialAttribute | src/utils/epam-credential-offer-factory.ts:27-52 | a file claim becomes JSON that decodes to the four members decryption_key, media_type, sha_512_sum and url, in that order, typed by its media type; a typed claim becomes `String(value)` typed by its type; a bare primitive becomes its text typed by its runtime type |
| OfferFactory.CreateCredentialAttributes | src/utils/epam-credential-offer-factory.ts:23-25 | one attribute per claim, in entry order |
| OfferFactory.CreateEpamCredentialOffer | src/utils/epam-credential-offer-factory.ts:12-21 | thread_id, name, description, schema_url = contextIri and schema_type = subjectType are carried across; the attributes are named by the claim keys in order |
| OfferFactory.AttributeRoundTrip | src/utils/epam-credential-offer-factory.ts:27-52 | a JPEG/PNG file claim or a bare primitive is recovered from its attribute |
| OfferFactory.AttributesRoundTrip | src/utils/epam-credential-offer-factory.ts:23-25 | every attribute of such claims decodes back to its claim |
| OfferFactory.TypedClaimLosesKind | src/utils/epam-credential-offer-factory.ts:39-44 | the integer 5 and the string "5" under the same type give the same attribute |
| OfferFactory.ClaimTypeCases | src/utils/epam-credential-offer-factory.ts:54-76 | each value type the tests use, and text/plain as string |
| Schemas.RequiredString | src/utils/schemas.ts:71 | no contract of its own: `Joi.string().required()` accepts exactly the non-empty strings |
| Schemas.RequiredUri | src/utils/schemas.ts:73 | no contract of its own: a non-empty string that Joi's `uri()` rule accepts |
| Schemas.RequiredUuid | src/utils/schemas.ts:75 | no contract of its own: a non-empty string that Joi's `uuid()` rule accepts |
| Schemas.CredentialRequestRule | src/utils/schemas.ts:36-44 | no contract of its own: the request schema; CredentialRequestRuleCases states its cases |
| Schemas.FileClaimValueRule | src/utils/schemas.ts:12-17 | no contract of its own: a non-empty key and digest, a FileType and a URI; UploadedClaimIsOfferable meets it |
| Schemas.ClaimValueRule | src/utils/schemas.ts:19 | no contract of its own: a boolean, a safe number, any string, or a file claim; BareNumberClaimCases and TypedClaimsRejected state its cases |
| Schemas.CredentialOfferRule | src/utils/schemas.ts:24-34 | no contract of its own: every claim, the description, name, subject type and thread ID; TypedClaimsRejected and ContextIriUnchecked state what it refuses and ignores |
| Schemas.FileObjectRule | src/utils/schemas.ts:57-63 | no contract of its own: a name matching the file-name pattern and a FileType |
| Schemas.MatchesFileName | src/utils/schemas.ts:21 | no contract of its own: the recogniser of the file-name pattern, proved equal to the pattern's language by FileNameRecognised |
| Schemas.ErrorCodeRule | src/utils/schemas.ts:53-55 | a code passes iff it is the value of an ErrorCodes member, that is iff it is a key of the description table |
| Schemas.CredentialRequestRuleCases | src/utils/schemas.ts:36-44 | a request passes iff its UUID is a UUID, its signature and thread ID are non-empty, and its timestamp is a positive safe integer (at most 2^53 − 1) |
| Schemas.BareNumberClaimCases | src/utils/schemas.ts:19 | a bare number claim passes iff it lies within ±(2^53 − 1): 2^53 − 1 passes, 2^53 and 2^60 are refused |
| Schemas.WordRun | src/utils/schemas.ts:21 | the greedy `\w+`: the longest prefix of word characters |
| Schemas.WordRunStops | src/utils/schemas.ts:21 | a run of word characters ending at a non-word character has exactly that length |
| Schemas.FileNameRecognised | src/utils/schemas.ts:21 | the recogniser accepts exactly the names made of: an 8-4-4-4-12 hex UUID in either case, one of `-_.`, word characters, a dot, and letters up to the end |
| Schemas.ComposedFileNameAccepted | src/utils/schemas.ts:21 | every UUID + separator + word + "." + letters is accepted |
| Schemas.UploadTestFileNameAccepted | src/clients/gid-issuer-client.spec.ts:83 | the upload tests' file name 99ea0c8c-6116-48f4-89c1-cf3aaf6e9adc.filename.jpg is accepted |
| Schemas.FileNameWithoutExtensionRefused | src/utils/schemas.ts:21 | a name without the dot and the extension is refused |
| Schemas.DottedFileNameRefused | src/utils/schemas.ts:21 | a second dot before the extension is refused |
| Schemas.TypedClaimsRejected | src/utils/schemas.ts:19-26 | an offer with a `{type, value}` claim never passes the offer schema |
| Schemas.ContextIriUnchecked | src/utils/schemas.ts:24-34 | the offer schema's verdict does not depend on contextIri |
| Epam.CodeValue | src/clients/epam-client.ts:71-78 | no contract of its own: the string value of each ErrorCodes member; ParseErrorCode inverts it |
| Epam.ParseErrorCode | src/clients/epam-client.ts:71-78 | the inverse of the ErrorCodes values: a member exactly when one has that value |
| Epam.DescriptionKeysAreCodes | src/clients/epam-client.ts:62-78 | the description table's keys are exactly the ErrorCodes values |
| Epam.ValidationCodes | src/clients/epam-client.ts:68-77 | GidUnavailable is 600-7, RequestValidationFailed is 600-16, and its description is the source's text |
| Epam.ReportBody | src/clients/epam-client.ts:46-57 | the report carries the code and the thread ID; its description is present iff the code is in the table, and is then the table's text |
| Epam.ReportBodyDescribed | src/clients/epam-client.ts:50-54 | every ErrorCodes member is reported with a description |
| Epam.EpamClient.constructor | src/clients/epam-client.ts:15-20 | a new client has no appUuid and has posted nothing |
| Epam.EpamClient.GetAppUuid | src/clients/epam-client.ts:22-24 | returns the current appUuid |
| Epam.EpamClient.SetAppUuid | src/clients/epam-client.ts:26-28 | sets appUuid and changes nothing else |
| Epam.EpamClient.OfferSubmissions | src/clients/epam-client.ts:30-33 | at most one post, present iff the token is available, carrying the token, the translated offer and the current appUuid |
| Epam.EpamClient.SendOffer | src/clients/epam-client.ts:30-33 | appends exactly those posts and settles with the token's error or the service's answer; there is no retry |
| Epam.EpamClient.ReportSubmissions | src/clients/epam-client.ts:46-57 | at most one post, present iff the token is available, carrying the token, the report body and the current appUuid |
| Epam.EpamClient.ReportError | src/clients/epam-client.ts:46-57 | appends exactly those posts and settles with the token's error or the service's answer |
| Epam.AppUuidLifecycle | src/clients/epam-client.ts:15-28 | appUuid is absent until set; afterwards it is the last value set, and a later report carries it |
| RequestValidation.IsSignatureError | src/clients/gid-issuer-client.ts:121-122 | no contract of its own: InvalidSignature, StaleRequest or EagerRequest; ReportCode and ClassificationCases state its use |
| RequestValidation.ReportCode | src/clients/gid-issuer-client.ts:111-115 | 600-16 iff the error is a signature, stale or eager error, otherwise 600-7 |
| RequestValidation.CheckRequest | src/clients/gid-issuer-client.ts:106-110 | passes iff a key is found, the signature verifies under it and ValidateTimestamp passes, which includes a timestamp outside the Date range; a lookup error passes through; after a key is found: a verifier that throws gives that service failure, a rejected signature gives InvalidSignature, and an accepted one gives ValidateTimestamp's own outcome |
| RequestValidation.CheckCalls | src/clients/gid-issuer-client.ts:107-109 | the lookup first; then the signature check iff a key was found; then the timestamp check iff the signature verified |
| RequestValidation.Rethrown | src/clients/gid-issuer-client.ts:110-117 | the failure is always rethrown, unchanged unless the report itself threw |
| RequestValidation.ValidRequestPasses | src/clients/gid-issuer-client.ts:107-109 | a fresh request signed under the holder's key passes after all three checks |
| RequestValidation.UnusableKeyReportedUnavailable | src/clients/gid-issuer-client.ts:106-117 | a key the verifier cannot use makes validation fail with the verifier's error, after the lookup and the signature check only, and it is reported as 600-7 |
| RequestValidation.LookupFailureReportedUnavailable | src/clients/gid-issuer-client.ts:113-114 | an unknown identity or a missing key is rethrown as is, is reported as 600-7, and no signature is checked |
| RequestValidation.ForeignSignatureReportedInvalid | src/clients/gid-issuer-client.ts:111-112 | a request whose signature decodes to other bytes than the holder's key pair's fails with InvalidSignature, is reported as 600-16, and the timestamp is not checked |
| RequestValidation.StaleOrEagerReportedInvalid | src/clients/gid-issuer-client.ts:111-112 | a correctly signed request whose timestamp is a date outside the window fails, at a real clock, with the timestamp's error and is reported as 600-16 |
| RequestValidation.FailureReportedOnce | src/clients/gid-issuer-client.ts:111-116 | with a token, exactly one post goes out, carrying the thread ID, the failure's code, its description and the appUuid |
| RequestValidation.ClassificationCases | src/clients/gid-issuer-client.ts:121-122 | the three signature errors map to 600-16; lookup, service and type errors map to 600-7 |
| GidIssuer.UploadResult | src/clients/gid-issuer-client.ts:75-88 | TypeError unless the UUID and the file pass; otherwise success iff the encryption and the upload succeed, with the uploader's URL, the encryption's key, the file's name and type and the plaintext's digest |
| GidIssuer.UploadCalls | src/clients/gid-issuer-client.ts:79-80 | one upload, of the ciphertext under the holder's UUID, the name and the type, iff the inputs pass and the encryption succeeds |
| GidIssuer.GidIssuerClient.constructor | src/clients/gid-issuer-client.ts:21-31 | keeps the EPAM client and the collaborators; nothing called yet |
| GidIssuer.GidIssuerClient.ReportError | src/clients/gid-issuer-client.ts:54-58 | TypeError and no post unless the thread ID is non-empty and the code valid; otherwise the EPAM client's report |
| GidIssuer.GidIssuerClient.SendOffer | src/clients/gid-issuer-client.ts:64-67 | TypeError and no post unless the offer passes its schema; otherwise the EPAM client's single post |
| GidIssuer.GidIssuerClient.UploadFile | src/clients/gid-issuer-client.ts:75-88 | returns UploadResult and makes exactly the calls UploadCalls lists |
| GidIssuer.GidIssuerClient.ValidateRequest | src/clients/gid-issuer-client.ts:104-118 | TypeError before any call or post unless the request passes its schema; then the calls of CheckCalls; no post on success; on failure exactly the report posts under ReportCode with the request's thread ID, then the failure rethrown |
| GidIssuer.FarFutureRequestAccepted | src/clients/gid-issuer-client.ts:104-109 | a correctly signed request dated 8640000000000001 passes the schema and the try block after all three checks, at every clock reading |
| GidIssuer.UploadedClaimIsOfferable | src/clients/gid-issuer-client.ts:81-87 | the returned claim passes the offer's file-claim rule when the URL is a URI and the key and digest are non-empty |
| GidIssuer.UploadDownloadRoundTrip | src/clients/gid-issuer-client.ts:79-87 | downloading the returned URL with the returned key and checksum yields the original content, given storage that serves uploads and a decrypt that inverts encrypt |
| Gid.UploadResult | src/clients/gid-client.ts:82-92 | the key lookup's error, or success iff the encryption under the holder's key and the upload succeed, with the URL, the key, the type, the plaintext's digest and no name |
| Gid.UploadCalls | src/clients/gid-client.ts:83-85 | the encryption-key lookup first; then one upload without a holder UUID iff the key was found and the encryption succeeded |
| Gid.GidClient.constructor | src/clients/gid-client.ts:21-27 | keeps the EPAM client and the collaborators; nothing called yet |
| Gid.GidClient.DownloadFile | src/clients/gid-client.ts:44-46 | exactly the download utility's result and calls, arguments unchanged |
| Gid.GidClient.ReportError | src/clients/gid-client.ts:61-64 | exactly the EPAM client's report, with no validation |
| Gid.GidClient.SendOffer | src/clients/gid-client.ts:71-74 | exactly the EPAM client's single post, with no validation |
| Gid.GidClient.UploadFile | src/clients/gid-client.ts:82-92 | returns UploadResult and makes exactly the calls UploadCalls lists |
| Gid.GidClient.ValidateRequest | src/clients/gid-client.ts:108-121 | no schema check; the calls of CheckCalls; no post on success; on failure exactly the report posts under ReportCode with the request's thread ID, then the failure rethrown |
| Gid.UploadDownloadRoundTrip | src/clients/gid-client.ts:83-91 | downloading with the returned key, the holder's private key and the checksum yields the original content, given storage that serves uploads and a key pair whose decrypt inverts encrypt |
| Gid.UploadedClaimSurvivesOffer | src/clients/gid-client.ts:86-91 | a returned JPEG/PNG claim is recovered from the offer attribute it becomes |

## Findings

| source | as written | input that shows it | evidently intended | confidence | as-written member | corrected member |
|---|---|---|---|---|---|---|
| src/utils/validate-timestamp.ts:13-21 | `dayjs(request.timestamp)` is an Invalid Date beyond ±8.64e15 ms, and `isBefore`/`isAfter` against it are false, so the check passes | timestamp 8640000000000001, which the issuer schema accepts because it is at most 2^53 − 1, at any clock reading | a timestamp more than one minute ahead is refused with EagerRequest, as the doc comment promises | not executed; rests on ECMA-262's TimeClip and on dayjs comparing time values | ValidateTimestamp.OutOfRangeTimestampAccepted | ValidateTimestamp.IntendedValidateTimestamp |

A correctly signed request with such a timestamp is accepted by the issuer client indefinitely
(`GidIssuer.FarFutureRequestAccepted`). The clients' members keep the code's behaviour.
`ValidateTimestamp.IntendedCheckCases` proves that the documented check refuses every such
timestamp and agrees with the code on every date.

## Left out

- The HTTP services (`src/services/*.ts`), the access-token provider, the uploader's form-data and S3 calls and the identity lookup are I/O. Each is a given total function that returns a value or an error. Concurrency and async scheduling are not modelled: every step is sequential.
- `sendDirectOffer` and `createEpamDirectCredentialOffer`: the direct-offer types are not part of this model.
- The `clientId`, `clientSecret` and `getAccessToken` getters of both clients only forward to the token provider.
- The public key provider's internals (`getIdentity` and `getPublicKey`) are not modelled. Its two errors are values the lookup may return.
- The crypto library (X25519, AES, SHA-512) is left abstract. The randomness of `encrypt` (a fresh key per call) is folded into the given function. A round trip is stated only under the `Inverts` assumption.
- Joi's `uri()`, `uuid()` and `binary()`, and the shape checks of untyped JavaScript values, are not modelled. The first two are given predicates; the typed records make the rest moot.
- dayjs is not part of this model. Its parsing of a number, `add`/`subtract` and `isBefore`/`isAfter` are modelled on the Date object of ECMA-262 (`ToInstant`, `AddMillis`, `IsBefore`, `IsAfter`).
- ValidateTimestamp.OnlyDifferenceMatters: stated for timestamps and clock readings inside the Date range, because across its edge the code's outcome is not shift-invariant (ShiftAcrossTimeRangeEdge).
- ValidateTimestamp.JustPastStalenessBoundary: stated for a date at a real clock; beyond the Date range the code passes instead (OutOfRangeTimestampAccepted).
- ValidateTimestamp.JustPastEagernessBoundary: stated for a date at a real clock, for the same reason.
- ValidateTimestamp.UnitTestCases: stated at a clock whose six minutes before and two minutes after are dates, as every reading of the tests' clock is.
- RequestValidation.StaleOrEagerReportedInvalid: stated for a date at a real clock; a timestamp beyond the Date range is accepted instead (GidIssuer.FarFutureRequestAccepted).
- Error message texts and the `dayjs` date formatting inside StaleRequestError and EagerRequestError are left out. The errors carry the millisecond values instead.
- Text.IntToDecimal: numbers are integers. Floating-point rendering, exponent forms and non-integral timestamps are not modelled. The issuer schema keeps timestamps within 2^53 − 1; `GidClient` has no schema, and beyond that bound its doubles are not modelled.
- Json.Stringify: covers null, booleans, integers, strings, arrays and objects. Floating-point numbers and `undefined` members are left out. Object members are kept in the record's order: JavaScript's reordering of integer-like keys and duplicate keys are not modelled.
- OfferFactory.CreateCredentialAttributes: claims are the record's entries in the order given. `Object.entries` (`epam-credential-offer-factory.ts:24`) lists integer-like keys first, in ascending order; that reordering is not modelled. Duplicate keys cannot arise in a record, and the model does not exclude them.
- VerifySignature.VerifySignature: the message is a string of Unicode scalar values, and its UTF-8 encoding by `Buffer.from` is part of the given verifier. A JavaScript string holding a lone surrogate has no counterpart. So neither the `\udXXX` escape that JSON.stringify writes for one in the payload, nor the U+FFFD replacement that `Buffer.from` makes for one in the thread ID, is modelled.
- Retry or back-off of offers does not exist in `EpamClient.sendOffer`, which posts once. None is modelled.
- The `gidIssuerClientOptions` and `downloadOptions` entries of the schema table are not modelled. The first configures URLs; the second is not used by the code here, because `downloadFile` has its own options schema.
