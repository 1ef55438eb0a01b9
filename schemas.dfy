/** The explicit validation rules of src/utils/schemas.ts, stated on the
    typed records the clients receive. Joi's library rules `uri()` and
    `uuid()` are the given predicates of `Validators`. `Joi.string()` refuses
    the empty string unless `.allow('')` is given. */
module Schemas {
  import opened Wrappers
  import opened Common
  import Epam

  /** `Joi.string().required()`. */
  predicate RequiredString(s: string) {
    s != ""
  }

  /** `Joi.string()` on an optional field. */
  predicate OptionalString(field: Option<string>) {
    field.None? || field.value != ""
  }

  /** `uriSchema.required()`. */
  predicate RequiredUri(validators: Validators, s: string) {
    s != "" && validators.isUri(s)
  }

  /** `uuidSchema.required()`. */
  predicate RequiredUuid(validators: Validators, s: string) {
    s != "" && validators.isUuid(s)
  }

  /** Number.MAX_SAFE_INTEGER, 2^53 - 1. */
  const MaxSafeInteger: int := 0x1F_FFFF_FFFF_FFFF

  /** `Joi.number()` on an integral number: without `.unsafe()` Joi refuses
      numbers outside the safe range (`number.unsafe`). */
  predicate SafeNumber(n: int) {
    -MaxSafeInteger <= n <= MaxSafeInteger
  }

  /** `Joi.number().integer().positive()` on an integral number. */
  predicate PositiveInteger(n: int) {
    SafeNumber(n) && n > 0
  }

  /** fileTypeSchema: one of the FileType values. */
  predicate IsFileType(s: string) {
    s == JpegMediaType || s == PngMediaType
  }

  /** schemas.errorCode: a present string that is one of the ErrorCodes values. */
  function ErrorCodeRule(s: string): (ok: bool)
    ensures ok <==> exists c: Epam.ErrorCode :: Epam.CodeValue(c) == s
    ensures ok <==> s in Epam.ErrorDescriptions
  {
    Epam.DescriptionKeysAreCodes(s);
    Epam.ParseErrorCode(s).Some?
  }

  /** schemas.credentialRequest (other fields are allowed; `data` is any). */
  predicate CredentialRequestRule(validators: Validators, r: CredentialRequest) {
    RequiredUuid(validators, r.gidUuid)
    && RequiredString(r.signature)
    && RequiredString(r.threadId)
    && PositiveInteger(r.timestamp)
  }

  /** A request passes exactly when its UUID is one, its signature and thread
      ID are non-empty and its timestamp is positive. */
  lemma CredentialRequestRuleCases(validators: Validators, r: CredentialRequest)
    ensures r.timestamp <= 0 || r.timestamp > MaxSafeInteger ==> !CredentialRequestRule(validators, r)
    ensures r.threadId == "" || r.signature == "" || r.gidUuid == "" ==> !CredentialRequestRule(validators, r)
    ensures !validators.isUuid(r.gidUuid) ==> !CredentialRequestRule(validators, r)
    ensures (0 < r.timestamp <= MaxSafeInteger && r.threadId != "" && r.signature != "" && r.gidUuid != ""
             && validators.isUuid(r.gidUuid))
      ==> CredentialRequestRule(validators, r)
  {
  }

  // ---------------------------------------------------------------------------
  // fileNamePattern: /^[0-9a-f]{8}(?:-[0-9a-f]{4}){3}-[0-9a-f]{12}[-_.]\w+\.[a-z]+$/i
  // ---------------------------------------------------------------------------

  /** `[0-9a-f]` under the `i` flag. */
  predicate IsHexDigit(c: char) {
    '0' <= c <= '9' || 'a' <= c <= 'f' || 'A' <= c <= 'F'
  }

  /** `\w`. */
  predicate IsWordChar(c: char) {
    'a' <= c <= 'z' || 'A' <= c <= 'Z' || '0' <= c <= '9' || c == '_'
  }

  /** `[a-z]` under the `i` flag. */
  predicate IsLetter(c: char) {
    'a' <= c <= 'z' || 'A' <= c <= 'Z'
  }

  /** `[-_.]`. */
  predicate IsSeparator(c: char) {
    c == '-' || c == '_' || c == '.'
  }

  predicate AllHex(s: string) {
    forall i :: 0 <= i < |s| ==> IsHexDigit(s[i])
  }

  predicate AllWord(s: string) {
    forall i :: 0 <= i < |s| ==> IsWordChar(s[i])
  }

  predicate AllLetters(s: string) {
    forall i :: 0 <= i < |s| ==> IsLetter(s[i])
  }

  /** `[0-9a-f]{8}(?:-[0-9a-f]{4}){3}-[0-9a-f]{12}`. */
  predicate UuidShape(u: string) {
    |u| == 36
    && AllHex(u[..8]) && u[8] == '-'
    && AllHex(u[9..13]) && u[13] == '-'
    && AllHex(u[14..18]) && u[18] == '-'
    && AllHex(u[19..23]) && u[23] == '-'
    && AllHex(u[24..])
  }

  /** The language of the pattern: the UUID, a separator, then word
      characters, a dot and letters up to the end, split at some dot `k`. */
  ghost predicate FileNameSpec(s: string) {
    |s| > 36 && UuidShape(s[..36]) && IsSeparator(s[36])
    && exists k :: 37 < k < |s| - 1 && s[k] == '.' && AllWord(s[37..k]) && AllLetters(s[k + 1..])
  }

  /** The length of the longest prefix of word characters. */
  function WordRun(t: string): (k: nat)
    ensures k <= |t| && AllWord(t[..k])
    ensures k < |t| ==> !IsWordChar(t[k])
    decreases |t|
  {
    if t != [] && IsWordChar(t[0]) then
      var k := 1 + WordRun(t[1..]);
      assert t[..k] == [t[0]] + t[1..][..k - 1];
      k
    else 0
  }

  /** A recogniser for the pattern: after the fixed-length UUID and the
      separator, the greedy `\w+` must stop at a dot followed by letters to
      the end. */
  function MatchesFileName(s: string): bool {
    |s| >= 40 && UuidShape(s[..36]) && IsSeparator(s[36]) &&
    var rest := s[37..];
    var k := WordRun(rest);
    0 < k && k + 1 < |rest| && rest[k] == '.' && AllLetters(rest[k + 1..])
  }

  /** A word run that stops at a non-word character has exactly that length. */
  lemma WordRunStops(t: string, j: nat)
    requires j < |t| && AllWord(t[..j]) && !IsWordChar(t[j])
    ensures WordRun(t) == j
  {
  }

  /** The recogniser accepts exactly the pattern's language. */
  lemma FileNameRecognised(s: string)
    ensures MatchesFileName(s) <==> FileNameSpec(s)
  {
    if MatchesFileName(s) {
      var rest := s[37..];
      var k := WordRun(rest);
      assert s[37..37 + k] == rest[..k];
      assert s[37 + k + 1..] == rest[k + 1..];
      assert s[37 + k] == '.';
    }
    if FileNameSpec(s) {
      var k :| 37 < k < |s| - 1 && s[k] == '.' && AllWord(s[37..k]) && AllLetters(s[k + 1..]);
      var rest := s[37..];
      assert rest[..k - 37] == s[37..k];
      WordRunStops(rest, k - 37);
      assert rest[k - 37 + 1..] == s[k + 1..];
    }
  }

  /** A UUID, a separator, a word, a dot and an extension of letters make a
      name the pattern accepts. */
  lemma {:induction false} ComposedFileNameAccepted(u: string, sep: char, word: string, ext: string)
    requires UuidShape(u) && IsSeparator(sep)
    requires word != [] && AllWord(word) && ext != [] && AllLetters(ext)
    ensures MatchesFileName(u + [sep] + word + "." + ext)
  {
    var s := u + [sep] + word + "." + ext;
    assert s[..36] == u;
    var rest := s[37..];
    assert rest == word + "." + ext;
    assert rest[..|word|] == word;
    WordRunStops(rest, |word|);
    assert rest[|word| + 1..] == ext;
  }

  /** Five hex groups of lengths 8, 4, 4, 4 and 12 joined by dashes form a UUID. */
  lemma {:induction false} UuidOfGroups(g1: string, g2: string, g3: string, g4: string, g5: string)
    requires |g1| == 8 && |g2| == 4 && |g3| == 4 && |g4| == 4 && |g5| == 12
    requires AllHex(g1) && AllHex(g2) && AllHex(g3) && AllHex(g4) && AllHex(g5)
    ensures UuidShape(g1 + "-" + g2 + "-" + g3 + "-" + g4 + "-" + g5)
  {
    var u := g1 + "-" + g2 + "-" + g3 + "-" + g4 + "-" + g5;
    assert u[..8] == g1;
    assert u[9..13] == g2;
    assert u[14..18] == g3;
    assert u[19..23] == g4;
    assert u[24..] == g5;
  }

  /** The file name of the upload tests, 99ea0c8c-6116-48f4-89c1-cf3aaf6e9adc.filename.jpg,
      written as its parts, is accepted. */
  lemma UploadTestFileNameAccepted()
    ensures MatchesFileName(
      "99ea0c8c" + "-" + "6116" + "-" + "48f4" + "-" + "89c1" + "-" + "cf3aaf6e9adc" + "." + "filename" + "." + "jpg")
  {
    var u := "99ea0c8c" + "-" + "6116" + "-" + "48f4" + "-" + "89c1" + "-" + "cf3aaf6e9adc";
    UuidOfGroups("99ea0c8c", "6116", "48f4", "89c1", "cf3aaf6e9adc");
    ComposedFileNameAccepted(u, '.', "filename", "jpg");
  }

  /** Without a dot and an extension after the word the name is refused. */
  lemma {:induction false} FileNameWithoutExtensionRefused(u: string, sep: char, word: string)
    requires UuidShape(u) && AllWord(word)
    ensures !MatchesFileName(u + [sep] + word)
  {
    var s := u + [sep] + word;
    if |s| >= 40 {
      assert s[..36] == u;
      var rest := s[37..];
      assert rest == word;
    }
  }

  /** A second dot before the extension is refused: `\w` does not match it. */
  lemma {:induction false} DottedFileNameRefused(u: string, sep: char, w1: string, w2: string, ext: string)
    requires UuidShape(u) && w1 != [] && AllWord(w1) && w2 != [] && AllWord(w2) && AllLetters(ext)
    ensures !MatchesFileName(u + [sep] + w1 + "." + w2 + "." + ext)
  {
    var s := u + [sep] + w1 + "." + w2 + "." + ext;
    if |s| >= 40 {
      var rest := s[37..];
      assert rest == w1 + "." + w2 + "." + ext;
      assert rest[..|w1|] == w1;
      WordRunStops(rest, |w1|);
      assert rest[|w1| + 1 + |w2|] == '.';
    }
  }

  // ---------------------------------------------------------------------------
  // Files and offers
  // ---------------------------------------------------------------------------

  /** schemas.fileObject: binary content (always present here), a name that
      matches the pattern and a FileType. */
  predicate FileObjectRule(file: FileObject) {
    MatchesFileName(file.name) && IsFileType(file.mediaType)
  }

  /** fileClaimValueSchema (other fields such as `name` are allowed). */
  predicate FileClaimValueRule(validators: Validators, f: FileClaimValue) {
    RequiredString(f.decryptionKey)
    && RequiredString(f.sha512sum)
    && IsFileType(f.mediaType)
    && RequiredUri(validators, f.url)
  }

  /** claimValueSchema: a boolean, a safe number, any string (even empty), or
      a file claim value. A `{type, value}` object matches only the object
      alternative, which requires `decryptionKey`, so it is refused. */
  predicate ClaimValueRule(validators: Validators, c: ClaimValue) {
    match c
    case BareClaim(p) => p.PNumber? ==> SafeNumber(p.n)
    case FileClaim(f) => FileClaimValueRule(validators, f)
    case TypedClaim(_, _) => false
  }

  /** schemas.credentialOffer. Its `contextUri` and `schemaUri` keys are not
      fields of the offer record, so they are always absent and pass. */
  predicate CredentialOfferRule(validators: Validators, offer: CredentialOffer) {
    (forall i :: 0 <= i < |offer.claims| ==> ClaimValueRule(validators, offer.claims[i].1))
    && OptionalString(offer.description)
    && RequiredString(offer.name)
    && RequiredString(offer.subjectType)
    && RequiredString(offer.threadId)
  }

  /** A bare number claim passes exactly inside the safe range; 2^53 is the
      first integer refused. */
  lemma BareNumberClaimCases(validators: Validators, n: int)
    ensures ClaimValueRule(validators, BareClaim(PNumber(n))) <==> -MaxSafeInteger <= n <= MaxSafeInteger
    ensures ClaimValueRule(validators, BareClaim(PNumber(MaxSafeInteger)))
    ensures !ClaimValueRule(validators, BareClaim(PNumber(MaxSafeInteger + 1)))
    ensures !ClaimValueRule(validators, BareClaim(PNumber(0x1000_0000_0000_0000)))
  {
  }

  /** An offer with a typed claim never passes the offer schema. */
  lemma TypedClaimsRejected(validators: Validators, offer: CredentialOffer, i: nat)
    requires i < |offer.claims| && offer.claims[i].1.TypedClaim?
    ensures !CredentialOfferRule(validators, offer)
  {
  }

  /** The offer schema does not look at `contextIri`. */
  lemma ContextIriUnchecked(validators: Validators, offer: CredentialOffer, iri: string)
    ensures CredentialOfferRule(validators, offer) == CredentialOfferRule(validators, offer.(contextIri := iri))
  {
  }
}
