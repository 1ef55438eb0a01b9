/** The part of `JSON.stringify` the core relies on: the compact serialisation
    of request payloads (verify-signature.ts) and of file claims
    (epam-credential-offer-factory.ts), together with a reference decoder for
    that compact form and the proof that decoding inverts serialisation. */
module Json {
  import opened Wrappers
  import Text

  /** A JSON value. Numbers are integral; object members keep their order. */
  datatype Value =
    | Null
    | Bool(b: bool)
    | Number(n: int)
    | String(s: string)
    | Array(items: seq<Value>)
    | Object(members: seq<Member>)

  datatype Member = Member(key: string, value: Value)

  // ---------------------------------------------------------------------------
  // Serialisation (JSON.stringify without indentation)
  // ---------------------------------------------------------------------------

  function HexDigit(d: nat): (c: char)
    requires d < 16
  {
    if d < 10 then (('0' as int) + d) as char else (('a' as int) + d - 10) as char
  }

  /** How JSON.stringify writes one character of a string: the two-character
      escapes, `\u00xx` (lower-case hex) for the other control characters, and
      every other character as itself. */
  function EscapeChar(c: char): string {
    if c == '"' then "\\\""
    else if c == '\\' then "\\\\"
    else if c as int == 8 then "\\b"
    else if c as int == 9 then "\\t"
    else if c as int == 10 then "\\n"
    else if c as int == 12 then "\\f"
    else if c as int == 13 then "\\r"
    else if (c as int) < 0x20 then "\\u00" + [HexDigit(c as int / 16), HexDigit(c as int % 16)]
    else [c]
  }

  function Escape(s: string): string
    decreases |s|
  {
    if s == [] then "" else EscapeChar(s[0]) + Escape(s[1..])
  }

  /** A JSON string literal. */
  function Quote(s: string): string {
    "\"" + Escape(s) + "\""
  }

  function Stringify(v: Value): string
    decreases v
  {
    match v
    case Null => "null"
    case Bool(b) => if b then "true" else "false"
    case Number(n) => Text.IntToDecimal(n)
    case String(s) => Quote(s)
    case Array(items) => "[" + StringifyItems(items) + "]"
    case Object(members) => "{" + StringifyMembers(members) + "}"
  }

  function StringifyItems(items: seq<Value>): string
    decreases items
  {
    if items == [] then ""
    else Stringify(items[0]) + (if |items| == 1 then "" else "," + StringifyItems(items[1..]))
  }

  function StringifyMembers(members: seq<Member>): string
    decreases members
  {
    if members == [] then ""
    else MemberText(members[0]) + (if |members| == 1 then "" else "," + StringifyMembers(members[1..]))
  }

  /** One object member: its quoted key, a colon and its value. */
  function MemberText(m: Member): string
    decreases m, 0
  {
    Quote(m.key) + ":" + Stringify(m.value)
  }

  // ---------------------------------------------------------------------------
  // Reference decoder for the compact form
  // ---------------------------------------------------------------------------

  function HexValue(c: char): (r: Option<nat>)
    ensures r.Some? ==> r.value < 16
  {
    if '0' <= c <= '9' then Some((c as int) - ('0' as int))
    else if 'a' <= c <= 'f' then Some((c as int) - ('a' as int) + 10)
    else if 'A' <= c <= 'F' then Some((c as int) - ('A' as int) + 10)
    else None
  }

  /** Reads the escape sequence that follows a backslash: the character it
      stands for and the number of characters it occupies. */
  function ParseEscape(t: string): (r: Option<(char, nat)>)
    ensures r.Some? ==> 1 <= r.value.1 <= |t|
  {
    if t == [] then None
    else if t[0] == '"' then Some(('"', 1))
    else if t[0] == '\\' then Some(('\\', 1))
    else if t[0] == '/' then Some(('/', 1))
    else if t[0] == 'b' then Some((8 as char, 1))
    else if t[0] == 't' then Some((9 as char, 1))
    else if t[0] == 'n' then Some((10 as char, 1))
    else if t[0] == 'f' then Some((12 as char, 1))
    else if t[0] == 'r' then Some((13 as char, 1))
    else if t[0] == 'u' && |t| >= 5 then
      var code := HexQuad(HexValue(t[1]), HexValue(t[2]), HexValue(t[3]), HexValue(t[4]));
      if code.Some? && (code.value < 0xD800 || 0xE000 <= code.value) then Some((code.value as char, 5))
      else None
    else None
  }

  /** The code point four hex digits spell, most significant first. */
  function HexQuad(a: Option<nat>, b: Option<nat>, c: Option<nat>, d: Option<nat>): (r: Option<nat>)
    requires a.Some? ==> a.value < 16
    requires b.Some? ==> b.value < 16
    requires c.Some? ==> c.value < 16
    requires d.Some? ==> d.value < 16
    ensures r.Some? <==> a.Some? && b.Some? && c.Some? && d.Some?
    ensures r.Some? ==> r.value < 0x10000
  {
    if a.Some? && b.Some? && c.Some? && d.Some? then
      Some(((a.value * 16 + b.value) * 16 + c.value) * 16 + d.value)
    else None
  }

  function Prepend(c: char, r: Option<(string, string)>): Option<(string, string)> {
    match r
    case None => None
    case Some((s, rest)) => Some(([c] + s, rest))
  }

  /** Reads the body of a string literal up to and including its closing quote:
      the decoded content and the text after the quote. */
  function ParseStringBody(t: string): (r: Option<(string, string)>)
    ensures r.Some? ==> |r.value.1| < |t|
    decreases |t|
  {
    if t == [] then None
    else if t[0] == '"' then Some(([], t[1..]))
    else if t[0] == '\\' then
      match ParseEscape(t[1..])
      case None => None
      case Some((c, n)) => Prepend(c, ParseStringBody(t[1 + n..]))
    else if (t[0] as int) < 0x20 then None
    else Prepend(t[0], ParseStringBody(t[1..]))
  }

  /** The length of the longest prefix of `u` made of digits. */
  function DigitRun(u: string): (k: nat)
    ensures k <= |u| && Text.AllDigits(u[..k])
    ensures k < |u| ==> !Text.IsDigit(u[k])
    decreases |u|
  {
    if u != [] && Text.IsDigit(u[0]) then
      var k := 1 + DigitRun(u[1..]);
      assert u[..k] == [u[0]] + u[1..][..k - 1];
      k
    else 0
  }

  function ParseNumber(t: string): (r: Option<(int, string)>)
    ensures r.Some? ==> |r.value.1| < |t|
  {
    var neg := t != [] && t[0] == '-';
    var u := if neg then t[1..] else t;
    var k := DigitRun(u);
    if k == 0 then None
    else if neg then Some((-(Text.DecimalValue(u[..k]) as int), u[k..]))
    else Some((Text.DecimalValue(u[..k]), u[k..]))
  }

  /** Reads one value from the front of `t`: the value and the text after it. */
  function ParseValue(t: string): (r: Option<(Value, string)>)
    ensures r.Some? ==> |r.value.1| < |t|
    decreases |t|, 0
  {
    if t == [] then None
    else if t[0] == 'n' then
      if |t| >= 4 && t[..4] == "null" then Some((Null, t[4..])) else None
    else if t[0] == 't' then
      if |t| >= 4 && t[..4] == "true" then Some((Bool(true), t[4..])) else None
    else if t[0] == 'f' then
      if |t| >= 5 && t[..5] == "false" then Some((Bool(false), t[5..])) else None
    else if t[0] == '"' then
      match ParseStringBody(t[1..])
      case None => None
      case Some((s, rest)) => Some((String(s), rest))
    else if t[0] == '[' then
      if |t| >= 2 && t[1] == ']' then Some((Array([]), t[2..]))
      else
        match ParseItems(t[1..])
        case None => None
        case Some((items, rest)) => Some((Array(items), rest))
    else if t[0] == '{' then
      if |t| >= 2 && t[1] == '}' then Some((Object([]), t[2..]))
      else
        match ParseMembers(t[1..])
        case None => None
        case Some((members, rest)) => Some((Object(members), rest))
    else
      match ParseNumber(t)
      case None => None
      case Some((n, rest)) => Some((Number(n), rest))
  }

  /** Reads `value (',' value)* ']'`. */
  function ParseItems(t: string): (r: Option<(seq<Value>, string)>)
    ensures r.Some? ==> |r.value.1| < |t|
    decreases |t|, 1
  {
    match ParseValue(t)
    case None => None
    case Some((v, rest)) =>
      if rest != [] && rest[0] == ']' then Some(([v], rest[1..]))
      else if rest != [] && rest[0] == ',' then
        match ParseItems(rest[1..])
        case None => None
        case Some((vs, rest')) => Some(([v] + vs, rest'))
      else None
  }

  /** Reads one `string ':' value` member. */
  function ParseMember(t: string): (r: Option<(Member, string)>)
    ensures r.Some? ==> |r.value.1| < |t|
    decreases |t|, 1
  {
    if t == [] || t[0] != '"' then None
    else
      match ParseStringBody(t[1..])
      case None => None
      case Some((key, afterKey)) =>
        if afterKey == [] || afterKey[0] != ':' then None
        else
          match ParseValue(afterKey[1..])
          case None => None
          case Some((v, rest)) => Some((Member(key, v), rest))
  }

  /** Reads `member (',' member)* '}'`. */
  function ParseMembers(t: string): (r: Option<(seq<Member>, string)>)
    ensures r.Some? ==> |r.value.1| < |t|
    decreases |t|, 2
  {
    match ParseMember(t)
    case None => None
    case Some((m, rest)) =>
      if rest != [] && rest[0] == '}' then Some(([m], rest[1..]))
      else if rest != [] && rest[0] == ',' then
        match ParseMembers(rest[1..])
        case None => None
        case Some((ms, rest')) => Some(([m] + ms, rest'))
      else None
  }

  /** Decodes a complete text. */
  function Parse(s: string): Option<Value> {
    match ParseValue(s)
    case Some((v, rest)) => if rest == [] then Some(v) else None
    case None => None
  }

  // ---------------------------------------------------------------------------
  // Decoding inverts serialisation
  // ---------------------------------------------------------------------------

  lemma HexRoundTrip(d: nat)
    requires d < 16
    ensures HexValue(HexDigit(d)) == Some(d)
  {
  }

  lemma {:induction false} EscapeCharParses(c: char, tail: string)
    ensures ParseStringBody(EscapeChar(c) + tail) == Prepend(c, ParseStringBody(tail))
  {
    var t := EscapeChar(c) + tail;
    if c == '"' || c == '\\' || c as int == 8 || c as int == 9 || c as int == 10
       || c as int == 12 || c as int == 13 {
      assert t[0] == '\\' && ParseEscape(t[1..]) == Some((c, 1));
      StringBodyAfterEscape(t, c, 1);
      assert t[1 + 1..] == tail;
    } else if (c as int) < 0x20 {
      ControlEscapeParses(c, t[1..]);
      StringBodyAfterEscape(t, c, 5);
      assert t[1 + 5..] == tail;
    } else {
      assert t[0] == c && t[1..] == tail;
    }
  }

  /** One step of ParseStringBody over an escape sequence. */
  lemma {:induction false} StringBodyAfterEscape(t: string, c: char, n: nat)
    requires t != [] && t[0] == '\\' && ParseEscape(t[1..]) == Some((c, n))
    ensures ParseStringBody(t) == Prepend(c, ParseStringBody(t[1 + n..]))
  {
  }

  /** `u00` and two hex digits read back as the control character. */
  lemma {:induction false} ControlEscapeParses(c: char, t: string)
    requires (c as int) < 0x20 && |t| >= 5 && t[..3] == "u00"
    requires t[3] == HexDigit(c as int / 16) && t[4] == HexDigit(c as int % 16)
    ensures ParseEscape(t) == Some((c, 5))
  {
    HexRoundTrip(c as int / 16);
    HexRoundTrip(c as int % 16);
    assert t[0] == 'u' && t[1] == '0' && t[2] == '0';
  }

  lemma {:induction false} EscapeParses(s: string, rest: string)
    ensures ParseStringBody(Escape(s) + "\"" + rest) == Some((s, rest))
    decreases |s|
  {
    if s == [] {
      assert Escape(s) + "\"" + rest == "\"" + rest;
    } else {
      assert Escape(s) + "\"" + rest == EscapeChar(s[0]) + (Escape(s[1..]) + "\"" + rest);
      EscapeCharParses(s[0], Escape(s[1..]) + "\"" + rest);
      EscapeParses(s[1..], rest);
      assert [s[0]] + s[1..] == s;
    }
  }

  /** A string literal is read back exactly, whatever follows it. */
  lemma {:induction false} QuoteParses(s: string, rest: string)
    ensures ParseValue(Quote(s) + rest) == Some((String(s), rest))
  {
    var e := Escape(s);
    assert Quote(s) == "\"" + e + "\"";
    QuoteTail(e, rest);
    EscapeParses(s, rest);
    StringValueStep(Quote(s) + rest, s, rest);
  }

  lemma {:induction false} QuoteTail(e: string, rest: string)
    ensures ("\"" + e + "\"" + rest)[0] == '"' && ("\"" + e + "\"" + rest)[1..] == e + "\"" + rest
  {
  }

  /** ParseValue on a quote reads the string body. */
  lemma {:induction false} StringValueStep(t: string, s: string, rest: string)
    requires t != [] && t[0] == '"' && ParseStringBody(t[1..]) == Some((s, rest))
    ensures ParseValue(t) == Some((String(s), rest))
  {
  }

  /** The text that may follow a value inside a serialisation. */
  predicate Delimited(rest: string) {
    rest == [] || rest[0] == ',' || rest[0] == ']' || rest[0] == '}'
  }

  /** Text that cannot extend a numeral written before it. */
  predicate NoDigitFirst(rest: string) {
    rest == [] || !Text.IsDigit(rest[0])
  }

  lemma {:induction false} DigitRunOfNumeral(d: string, rest: string)
    requires Text.AllDigits(d) && NoDigitFirst(rest)
    ensures DigitRun(d + rest) == |d|
    decreases |d|
  {
    if d == [] {
      assert d + rest == rest;
    } else {
      assert (d + rest)[1..] == d[1..] + rest;
      DigitRunOfNumeral(d[1..], rest);
    }
  }

  /** A numeral followed by text that does not start with a digit reads back. */
  lemma {:induction false} NumberParses(n: int, rest: string)
    requires NoDigitFirst(rest)
    ensures ParseNumber(Text.IntToDecimal(n) + rest) == Some((n, rest))
  {
    if n < 0 {
      NegativeNumberParses(n, rest);
    } else {
      NaturalNumberParses(n, rest);
    }
  }

  lemma {:induction false} NegativeNumberParses(n: int, rest: string)
    requires n < 0 && NoDigitFirst(rest)
    ensures ParseNumber(Text.IntToDecimal(n) + rest) == Some((n, rest))
  {
    var d := NegativeDigits(n);
    DigitsParse(d, rest);
  }

  /** The digits after the minus sign of a negative numeral. */
  lemma {:induction false} NegativeDigits(n: int) returns (d: string)
    requires n < 0
    ensures Text.IntToDecimal(n) == "-" + d && d != [] && Text.AllDigits(d) && Text.DecimalValue(d) == -n
  {
    d := Text.NatToDecimal(-n);
    Text.DecimalValueOfNumeral(-n);
  }

  lemma {:induction false} NaturalNumberParses(n: int, rest: string)
    requires n >= 0 && NoDigitFirst(rest)
    ensures ParseNumber(Text.IntToDecimal(n) + rest) == Some((n, rest))
  {
    var d := Text.NatToDecimal(n);
    Text.DecimalValueOfNumeral(n);
    DigitsParse(d, rest);
    assert Text.IntToDecimal(n) == d;
  }

  /** A run of digits followed by a non-digit reads back as its value, and
      after a minus sign as the negated value. */
  lemma {:induction false} DigitsParse(d: string, rest: string)
    requires d != [] && Text.AllDigits(d) && NoDigitFirst(rest)
    ensures ParseNumber(d + rest) == Some((Text.DecimalValue(d), rest))
    ensures ParseNumber("-" + d + rest) == Some((-(Text.DecimalValue(d) as int), rest))
  {
    NumeralParses(d, rest);
    NonNegativeNumber(d + rest);
    NegativeNumber(d + rest);
    assert "-" + d + rest == "-" + (d + rest);
  }

  /** ParseNumber on a digit reads the digit run. */
  lemma {:induction false} NonNegativeNumber(u: string)
    requires DigitRun(u) > 0
    ensures ParseNumber(u) == Some((Text.DecimalValue(u[..DigitRun(u)]), u[DigitRun(u)..]))
  {
  }

  /** ParseNumber after a minus sign reads the digit run and negates it. */
  lemma {:induction false} NegativeNumber(u: string)
    requires DigitRun(u) > 0
    ensures ParseNumber("-" + u) == Some((-(Text.DecimalValue(u[..DigitRun(u)]) as int), u[DigitRun(u)..]))
  {
    assert ("-" + u)[1..] == u;
  }

  /** A non-empty run of digits followed by a non-digit is read as exactly
      that run. */
  lemma {:induction false} NumeralParses(d: string, rest: string)
    requires d != [] && Text.AllDigits(d) && NoDigitFirst(rest)
    ensures DigitRun(d + rest) == |d| > 0 && (d + rest)[..|d|] == d && (d + rest)[|d|..] == rest
  {
    DigitRunOfNumeral(d, rest);
    assert (d + rest)[..|d|] == d;
  }

  /** A serialisation is never empty, never starts with a closing bracket,
      and starts with a digit only for a non-negative number. */
  lemma StringifyStart(v: Value)
    ensures |Stringify(v)| > 0 && Stringify(v)[0] != ']' && Stringify(v)[0] != '}'
    ensures Text.IsDigit(Stringify(v)[0]) ==> v.Number? && v.n >= 0
  {
  }

  lemma {:induction false} ParseValueStringify(v: Value, rest: string)
    requires Delimited(rest)
    ensures ParseValue(Stringify(v) + rest) == Some((v, rest))
    decreases v, 2
  {
    match v
    case Null => LiteralParses(v, rest);
    case Bool(_) => LiteralParses(v, rest);
    case Number(n) => NumberValueParses(n, rest);
    case String(s) =>
      QuoteParses(s, rest);
    case Array(items) =>
      ArrayParses(items, rest);
    case Object(members) =>
      ObjectParses(members, rest);
  }

  /** `null`, `true` and `false` read back. */
  lemma {:induction false} LiteralParses(v: Value, rest: string)
    requires v.Null? || v.Bool?
    ensures ParseValue(Stringify(v) + rest) == Some((v, rest))
  {
    var t := Stringify(v) + rest;
    if v.Null? {
      assert t[..4] == "null";
    } else if v.b {
      assert t[..4] == "true";
    } else {
      assert t[..5] == "false";
    }
  }

  /** A number's serialisation is read by ParseNumber. */
  lemma {:induction false} NumberValueParses(n: int, rest: string)
    requires Delimited(rest)
    ensures ParseValue(Stringify(Number(n)) + rest) == Some((Number(n), rest))
  {
    var t := Stringify(Number(n)) + rest;
    NumberParses(n, rest);
    assert t[0] == Text.IntToDecimal(n)[0];
  }

  lemma {:induction false} ArrayParses(items: seq<Value>, rest: string)
    requires Delimited(rest)
    ensures ParseValue("[" + StringifyItems(items) + "]" + rest) == Some((Array(items), rest))
    decreases items, 1
  {
    var t := "[" + StringifyItems(items) + "]" + rest;
    if items == [] {
      assert t == "[]" + rest;
      assert t[2..] == rest;
    } else {
      assert t[1..] == StringifyItems(items) + "]" + rest;
      ParseItemsStringify(items, rest);
      StringifyStart(items[0]);
      assert t[1] == Stringify(items[0])[0];
      ValueOfArray(t);
    }
  }

  /** ParseValue on a bracket that does not close at once reads the items. */
  lemma {:induction false} ValueOfArray(t: string)
    requires |t| >= 2 && t[0] == '[' && t[1] != ']' && ParseItems(t[1..]).Some?
    ensures ParseValue(t) == Some((Array(ParseItems(t[1..]).value.0), ParseItems(t[1..]).value.1))
  {
  }

  lemma {:induction false} ObjectParses(members: seq<Member>, rest: string)
    requires Delimited(rest)
    ensures ParseValue("{" + StringifyMembers(members) + "}" + rest) == Some((Object(members), rest))
    decreases members, 2
  {
    var t := "{" + StringifyMembers(members) + "}" + rest;
    if members == [] {
      assert t == "{}" + rest;
      assert t[2..] == rest;
    } else {
      assert t[1..] == StringifyMembers(members) + "}" + rest;
      ParseMembersStringify(members, rest);
      MembersStart(members);
      assert t[1] == StringifyMembers(members)[0];
      ValueOfObject(t);
    }
  }

  /** ParseValue on a brace that does not close at once reads the members. */
  lemma {:induction false} ValueOfObject(t: string)
    requires |t| >= 2 && t[0] == '{' && t[1] != '}' && ParseMembers(t[1..]).Some?
    ensures ParseValue(t) == Some((Object(ParseMembers(t[1..]).value.0), ParseMembers(t[1..]).value.1))
  {
  }

  lemma {:induction false} ParseItemsStringify(items: seq<Value>, rest: string)
    requires items != [] && Delimited(rest)
    ensures ParseItems(StringifyItems(items) + "]" + rest) == Some((items, rest))
    decreases items, 0
  {
    var v := items[0];
    ItemsText(items, rest);
    if |items| == 1 {
      var after := "]" + rest;
      ParseValueStringify(v, after);
      ItemsAfterValue(Stringify(v) + after, v, after);
      assert after[1..] == rest;
      assert [v] == items;
    } else {
      var tail := StringifyItems(items[1..]) + "]" + rest;
      var after := "," + tail;
      ParseValueStringify(v, after);
      ParseItemsStringify(items[1..], rest);
      ItemsAfterValue(Stringify(v) + after, v, after);
      assert after[1..] == tail;
      assert [v] + items[1..] == items;
    }
  }

  /** The serialisation of a non-empty list, closed and followed by `rest`,
      regrouped as its first value and what follows that value. */
  lemma {:induction false} ItemsText(items: seq<Value>, rest: string)
    requires items != []
    ensures StringifyItems(items) + "]" + rest == Stringify(items[0]) +
      if |items| == 1 then "]" + rest else "," + (StringifyItems(items[1..]) + "]" + rest)
  {
    var head := Stringify(items[0]);
    if |items| == 1 {
      assert StringifyItems(items) == head + "";
      Regroup(head, "", "]", rest);
    } else {
      var others := StringifyItems(items[1..]);
      assert StringifyItems(items) == head + ("," + others);
      Regroup(head, ",", others + "]", rest);
    }
  }

  /** Concatenation regrouped to the right. */
  lemma {:induction false} Regroup(a: string, b: string, c: string, d: string)
    ensures (a + b) + c + d == a + (b + (c + d)) && (a + (b + c)) + d == a + (b + (c + d))
  {
  }

  /** One step of ParseItems once its first value is known. */
  lemma {:induction false} ItemsAfterValue(t: string, v: Value, after: string)
    requires ParseValue(t) == Some((v, after))
    ensures after != [] && after[0] == ']' ==> ParseItems(t) == Some(([v], after[1..]))
    ensures after != [] && after[0] == ',' && ParseItems(after[1..]).Some? ==>
      ParseItems(t) == Some(([v] + ParseItems(after[1..]).value.0, ParseItems(after[1..]).value.1))
  {
  }

  lemma {:induction false} ParseMemberStringify(m: Member, after: string)
    requires Delimited(after)
    ensures ParseMember(MemberText(m) + after) == Some((m, after))
    decreases m, 0
  {
    ParseValueStringify(m.value, after);
    MemberAfterKey(m.key, Stringify(m.value), m.value, after);
  }

  /** A quoted key, a colon and a text that reads back as `v` read back as
      the member. */
  lemma {:induction false} MemberAfterKey(key: string, text: string, v: Value, after: string)
    requires ParseValue(text + after) == Some((v, after))
    ensures ParseMember(Quote(key) + ":" + text + after) == Some((Member(key, v), after))
  {
    var e := Escape(key);
    var afterKey := ":" + (text + after);
    var t := "\"" + (e + "\"" + afterKey);
    assert Quote(key) + ":" + text + after == t by {
      assert Quote(key) == "\"" + e + "\"";
      QuotedRegroup(e, text, after);
    }
    assert t[1..] == e + "\"" + afterKey;
    EscapeParses(key, afterKey);
    assert afterKey[1..] == text + after;
    MemberStep(t, key, afterKey, v, after);
  }

  lemma {:induction false} QuotedRegroup(e: string, text: string, after: string)
    ensures "\"" + e + "\"" + ":" + text + after == "\"" + (e + "\"" + (":" + (text + after)))
  {
  }

  /** One step of ParseMember once its key and its value are known. */
  lemma {:induction false} MemberStep(t: string, key: string, afterKey: string, v: Value, after: string)
    requires t != [] && t[0] == '"' && ParseStringBody(t[1..]) == Some((key, afterKey))
    requires afterKey != [] && afterKey[0] == ':' && ParseValue(afterKey[1..]) == Some((v, after))
    ensures ParseMember(t) == Some((Member(key, v), after))
  {
  }

  /** A non-empty member list serialises starting with its first key's quote. */
  lemma {:induction false} MembersStart(members: seq<Member>)
    requires members != []
    ensures |StringifyMembers(members)| > 0 && StringifyMembers(members)[0] == '"'
  {
    var head := MemberText(members[0]);
    assert head[0] == '"';
    assert StringifyMembers(members) == head + if |members| == 1 then "" else "," + StringifyMembers(members[1..]);
  }

  lemma {:induction false} ParseMembersStringify(members: seq<Member>, rest: string)
    requires members != [] && Delimited(rest)
    ensures ParseMembers(StringifyMembers(members) + "}" + rest) == Some((members, rest))
    decreases members, 1
  {
    var m := members[0];
    MembersText(members, rest);
    if |members| == 1 {
      var after := "}" + rest;
      ParseMemberStringify(m, after);
      MembersAfterMember(MemberText(m) + after, m, after);
      assert after[1..] == rest;
      assert [m] == members;
    } else {
      var tail := StringifyMembers(members[1..]) + "}" + rest;
      var after := "," + tail;
      ParseMemberStringify(m, after);
      ParseMembersStringify(members[1..], rest);
      MembersAfterMember(MemberText(m) + after, m, after);
      assert after[1..] == tail;
      assert [m] + members[1..] == members;
    }
  }

  /** The serialisation of a non-empty member list, closed and followed by
      `rest`, regrouped as its first member and what follows that member. */
  lemma {:induction false} MembersText(members: seq<Member>, rest: string)
    requires members != []
    ensures StringifyMembers(members) + "}" + rest == MemberText(members[0]) +
      if |members| == 1 then "}" + rest else "," + (StringifyMembers(members[1..]) + "}" + rest)
  {
    var head := MemberText(members[0]);
    if |members| == 1 {
      assert StringifyMembers(members) == head + "";
      Regroup(head, "", "}", rest);
    } else {
      var others := StringifyMembers(members[1..]);
      assert StringifyMembers(members) == head + ("," + others);
      Regroup(head, ",", others + "}", rest);
    }
  }

  /** One step of ParseMembers once its first member is known. */
  lemma {:induction false} MembersAfterMember(t: string, m: Member, after: string)
    requires ParseMember(t) == Some((m, after))
    ensures after != [] && after[0] == '}' ==> ParseMembers(t) == Some(([m], after[1..]))
    ensures after != [] && after[0] == ',' && ParseMembers(after[1..]).Some? ==>
      ParseMembers(t) == Some(([m] + ParseMembers(after[1..]).value.0, ParseMembers(after[1..]).value.1))
  {
  }

  /** Decoding inverts JSON.stringify: the serialisation determines the value. */
  lemma ParseStringify(v: Value)
    ensures Parse(Stringify(v)) == Some(v)
  {
    ParseValueStringify(v, "");
    assert Stringify(v) + "" == Stringify(v);
  }

  /** JSON.stringify is injective on the values modelled here. */
  lemma StringifyInjective(v: Value, w: Value)
    requires Stringify(v) == Stringify(w)
    ensures v == w
  {
    ParseStringify(v);
    ParseStringify(w);
  }
}
