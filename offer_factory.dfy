/** Translation of a credential offer into the EPAM service's V2 offer body
    (src/utils/epam-credential-offer-factory.ts). */
module OfferFactory {
  import opened Wrappers
  import opened Common
  import Json
  import Text

  /** The EPAM service's attribute value types. */
  datatype EpamValueType =
    | ImageJpeg | ImagePng | Boolean | Date | DateTime | Integer | Number | Time | String

  datatype CredentialAttribute = CredentialAttribute(name: string, value: string, valueType: EpamValueType)

  /** EpamCreateCredentialsOfferV2. */
  datatype EpamOffer = EpamOffer(
    threadId: string,
    name: string,
    description: Option<string>,
    schemaUrl: string,
    schemaType: string,
    attributes: seq<CredentialAttribute>)

  /** The type names the source maps: the two FileType media types and the
      seven ClaimValueType names. */
  function SourceTypeName(t: EpamValueType): string {
    match t
    case ImageJpeg => JpegMediaType
    case ImagePng => PngMediaType
    case Boolean => "boolean"
    case Date => "date"
    case DateTime => "date-time"
    case Integer => "integer"
    case Number => "number"
    case Time => "time"
    case String => "string"
  }

  /** toEpamValueType: each listed name to its own value type, anything else
      to `string`. */
  function ToEpamValueType(t: string): (r: EpamValueType)
    ensures r != String ==> SourceTypeName(r) == t
    ensures (forall v: EpamValueType :: SourceTypeName(v) != t) ==> r == String
  {
    if t == JpegMediaType then ImageJpeg
    else if t == PngMediaType then ImagePng
    else if t == "boolean" then Boolean
    else if t == "date" then Date
    else if t == "date-time" then DateTime
    else if t == "integer" then Integer
    else if t == "number" then Number
    else if t == "time" then Time
    else String
  }

  /** Every value type is reached from its own source name. */
  lemma ValueTypeRoundTrip(v: EpamValueType)
    ensures ToEpamValueType(SourceTypeName(v)) == v
  {
  }

  /** `String(value)` for a primitive. */
  function PrimitiveToString(p: Primitive): string {
    match p
    case PBool(b) => if b then "true" else "false"
    case PNumber(n) => Text.IntToDecimal(n)
    case PString(s) => s
  }

  /** `typeof value` for a primitive. */
  function TypeOf(p: Primitive): string {
    match p
    case PBool(_) => "boolean"
    case PNumber(_) => "number"
    case PString(_) => "string"
  }

  /** The object JSON.stringify writes for a file claim, keys in this order. */
  function FileClaimJson(f: FileClaimValue): Json.Value {
    Json.Object([
      Json.Member("decryption_key", Json.String(f.decryptionKey)),
      Json.Member("media_type", Json.String(f.mediaType)),
      Json.Member("sha_512_sum", Json.String(f.sha512sum)),
      Json.Member("url", Json.String(f.url))])
  }

  function CreateCredentialAttribute(name: string, claimValue: ClaimValue): (a: CredentialAttribute)
    ensures a.name == name
    ensures claimValue.FileClaim? ==>
      Json.Parse(a.value) == Some(FileClaimJson(claimValue.file))
      && a.valueType == ToEpamValueType(claimValue.file.mediaType)
    ensures claimValue.TypedClaim? ==>
      a.value == PrimitiveToString(claimValue.value) && a.valueType == ToEpamValueType(claimValue.claimType)
    ensures claimValue.BareClaim? ==>
      a.value == PrimitiveToString(claimValue.primitive) && a.valueType == ToEpamValueType(TypeOf(claimValue.primitive))
  {
    match claimValue
    case FileClaim(f) =>
      Json.ParseStringify(FileClaimJson(f));
      CredentialAttribute(name, Json.Stringify(FileClaimJson(f)), ToEpamValueType(f.mediaType))
    case TypedClaim(t, v) =>
      CredentialAttribute(name, PrimitiveToString(v), ToEpamValueType(t))
    case BareClaim(p) =>
      CredentialAttribute(name, PrimitiveToString(p), ToEpamValueType(TypeOf(p)))
  }

  /** `Object.entries(claims).map(...)`: one attribute per claim, in order. */
  function CreateCredentialAttributes(claims: seq<(string, ClaimValue)>): (r: seq<CredentialAttribute>)
    ensures |r| == |claims|
    ensures forall i :: 0 <= i < |claims| ==> r[i] == CreateCredentialAttribute(claims[i].0, claims[i].1)
  {
    if claims == [] then []
    else [CreateCredentialAttribute(claims[0].0, claims[0].1)] + CreateCredentialAttributes(claims[1..])
  }

  function CreateEpamCredentialOffer(offer: CredentialOffer): (r: EpamOffer)
    ensures r.threadId == offer.threadId && r.name == offer.name && r.description == offer.description
    ensures r.schemaUrl == offer.contextIri && r.schemaType == offer.subjectType
    ensures |r.attributes| == |offer.claims|
    ensures forall i :: 0 <= i < |offer.claims| ==> r.attributes[i].name == offer.claims[i].0
  {
    EpamOffer(
      offer.threadId,
      offer.name,
      offer.description,
      offer.contextIri,
      offer.subjectType,
      CreateCredentialAttributes(offer.claims))
  }

  // ---------------------------------------------------------------------------
  // Decoding an attribute
  // ---------------------------------------------------------------------------

  /** Claims the attribute list identifies: file claims whose media type is a
      FileType, and bare primitives. */
  predicate Recoverable(c: ClaimValue) {
    match c
    case FileClaim(f) => (f.mediaType == JpegMediaType || f.mediaType == PngMediaType) && f.name.None?
    case TypedClaim(_, _) => false
    case BareClaim(_) => true
  }

  /** Reads a file claim back from the JSON text of its attribute. */
  function DecodeFileClaim(text: string): Option<FileClaimValue> {
    match Json.Parse(text)
    case Some(Object(ms)) =>
      if |ms| == 4 && ms[0].key == "decryption_key" && ms[1].key == "media_type"
        && ms[2].key == "sha_512_sum" && ms[3].key == "url"
        && ms[0].value.String? && ms[1].value.String? && ms[2].value.String? && ms[3].value.String?
      then Some(FileClaimValue(ms[0].value.s, ms[2].value.s, ms[1].value.s, ms[3].value.s, None))
      else None
    case _ => None
  }

  /** Reads a claim back from an attribute, as a holder would. */
  function DecodeAttribute(a: CredentialAttribute): Option<(string, ClaimValue)> {
    match a.valueType
    case ImageJpeg | ImagePng =>
      (match DecodeFileClaim(a.value)
       case Some(f) => Some((a.name, FileClaim(f)))
       case None => None)
    case Boolean =>
      if a.value == "true" then Some((a.name, BareClaim(PBool(true))))
      else if a.value == "false" then Some((a.name, BareClaim(PBool(false))))
      else None
    case Number =>
      (match Text.ParseInt(a.value)
       case Some(n) => Some((a.name, BareClaim(PNumber(n))))
       case None => None)
    case String => Some((a.name, BareClaim(PString(a.value))))
    case _ => None
  }

  /** File claims and bare primitives survive the translation: the attribute
      determines the claim. */
  lemma AttributeRoundTrip(name: string, c: ClaimValue)
    requires Recoverable(c)
    ensures DecodeAttribute(CreateCredentialAttribute(name, c)) == Some((name, c))
  {
    match c
    case FileClaim(f) =>
    case BareClaim(p) =>
      if p.PNumber? {
        Text.ParseIntOfDecimal(p.n);
      }
  }

  /** The whole attribute list decodes back to the claims. */
  lemma {:induction false} AttributesRoundTrip(claims: seq<(string, ClaimValue)>)
    requires forall i :: 0 <= i < |claims| ==> Recoverable(claims[i].1)
    ensures forall i :: 0 <= i < |claims| ==>
      DecodeAttribute(CreateCredentialAttributes(claims)[i]) == Some(claims[i])
  {
    forall i | 0 <= i < |claims|
      ensures DecodeAttribute(CreateCredentialAttributes(claims)[i]) == Some(claims[i])
    {
      AttributeRoundTrip(claims[i].0, claims[i].1);
    }
  }

  /** A typed claim keeps only the text of its value: the kind of primitive
      is lost. */
  lemma TypedClaimLosesKind()
    ensures CreateCredentialAttribute("n", TypedClaim("integer", PNumber(5)))
      == CreateCredentialAttribute("n", TypedClaim("integer", PString("5")))
  {
    assert Text.IntToDecimal(5) == "5";
  }

  /** The value types of the unit tests for typed and bare claims. */
  lemma ClaimTypeCases()
    ensures ToEpamValueType("boolean") == Boolean && ToEpamValueType("integer") == Integer
    ensures ToEpamValueType("number") == Number && ToEpamValueType("string") == String
    ensures ToEpamValueType("date") == Date && ToEpamValueType("time") == Time
    ensures ToEpamValueType("date-time") == DateTime
    ensures ToEpamValueType("image/jpeg") == ImageJpeg && ToEpamValueType("image/png") == ImagePng
    ensures ToEpamValueType("text/plain") == String
  {
    ValueTypeRoundTrip(Boolean);
    ValueTypeRoundTrip(Integer);
    ValueTypeRoundTrip(Number);
    ValueTypeRoundTrip(String);
    ValueTypeRoundTrip(Date);
    ValueTypeRoundTrip(Time);
    ValueTypeRoundTrip(DateTime);
    ValueTypeRoundTrip(ImageJpeg);
    ValueTypeRoundTrip(ImagePng);
  }
}
