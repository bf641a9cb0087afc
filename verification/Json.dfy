/** A decoder for JSON texts (RFC 8259, sections 2 to 7) and the compact encoding that Go's
    encoding/json writes, with the proof that decoding undoes encoding.

    Numbers are integers: the service writes and needs no others, and a text with a fraction or an
    exponent is rejected.  A \u escape that is an unpaired surrogate decodes to U+FFFD, as in Go. */
module Json {
  import opened Text

  datatype Json =
    | JNull
    | JBool(b: bool)
    | JInt(n: int)
    | JString(s: string)
    | JArray(items: seq<Json>)
    | JObject(members: seq<Member>)

  datatype Member = Member(name: string, value: Json)

  // ----- strings: encoding -----

  function HexDigit(d: nat): char
    requires d < 16
  {
    if d < 10 then (48 + d) as char else (87 + d) as char
  }

  function Hex4(n: nat): string
    requires n < 0x10000
  {
    [HexDigit(n / 4096), HexDigit(n / 256 % 16), HexDigit(n / 16 % 16), HexDigit(n % 16)]
  }

  /** One character inside a string literal.  Beyond what section 7 requires, '<', '>', '&', U+2028
      and U+2029 are escaped too. */
  function EscapeChar(c: char): string {
    if c == '\"' then "\\\""
    else if c == '\\' then "\\\\"
    else if c == '\U{0008}' then "\\b"
    else if c == '\U{000C}' then "\\f"
    else if c == '\n' then "\\n"
    else if c == '\r' then "\\r"
    else if c == '\t' then "\\t"
    else if c < ' ' || c in "<>&" || c == '\U{2028}' || c == '\U{2029}' then "\\u" + Hex4(c as int)
    else [c]
  }

  function Concat(parts: seq<string>): string {
    if parts == [] then "" else parts[0] + Concat(parts[1..])
  }

  function EscapeAll(s: string): string {
    Concat(seq(|s|, i requires 0 <= i < |s| => EscapeChar(s[i])))
  }

  /** json.Marshal of a string. */
  function Quote(s: string): string {
    "\"" + EscapeAll(s) + "\""
  }

  // ----- strings: decoding -----

  function HexValue(c: char): Option<nat> {
    if '0' <= c <= '9' then Some(c as int - 48)
    else if 'a' <= c <= 'f' then Some(c as int - 87)
    else if 'A' <= c <= 'F' then Some(c as int - 55)
    else None
  }

  /** The code unit written by the four hexadecimal digits at the start of s. */
  function ParseHex4(s: string): (r: Option<nat>)
    ensures r.Some? ==> |s| >= 4 && r.value < 0x10000
  {
    if |s| < 4 then None
    else
      match (HexValue(s[0]), HexValue(s[1]), HexValue(s[2]), HexValue(s[3]))
      case (Some(a), Some(b), Some(c), Some(d)) =>
        if a < 16 && b < 16 && c < 16 && d < 16 then Some(((a * 16 + b) * 16 + c) * 16 + d) else None
      case _ => None
  }

  datatype Parsed<+T> = Fail | Got(value: T, rest: string)

  /** A \u escape, read from the text after the 'u'; a surrogate pair is two escapes in a row. */
  function ParseUnicodeEscape(s: string): (r: Parsed<char>)
    ensures r.Got? ==> |r.rest| < |s|
  {
    match ParseHex4(s)
    case None => Fail
    case Some(u) =>
      if 0xD800 <= u < 0xE000 then
        var low := if u < 0xDC00 && |s| >= 6 && s[4] == '\\' && s[5] == 'u' then ParseHex4(s[6..]) else None;
        if low.Some? && 0xDC00 <= low.value < 0xE000 then
          Got((0x10000 + (u - 0xD800) * 0x400 + (low.value - 0xDC00)) as char, s[10..])
        else
          Got('\U{FFFD}', s[4..])
      else
        Got(u as char, s[4..])
  }

  /** One character of a string literal, escaped or not. */
  function ParseChar(s: string): (r: Parsed<char>)
    ensures r.Got? ==> |r.rest| < |s|
  {
    if s == "" || s[0] < ' ' || s[0] == '\"' then Fail
    else if s[0] != '\\' then Got(s[0], s[1..])
    else if |s| < 2 then Fail
    else
      match s[1]
      case '\"' => Got('\"', s[2..])
      case '\\' => Got('\\', s[2..])
      case '/' => Got('/', s[2..])
      case 'b' => Got('\U{0008}', s[2..])
      case 'f' => Got('\U{000C}', s[2..])
      case 'n' => Got('\n', s[2..])
      case 'r' => Got('\r', s[2..])
      case 't' => Got('\t', s[2..])
      case 'u' => ParseUnicodeEscape(s[2..])
      case _ => Fail
  }

  /** The rest of a string literal, after its opening quotation mark. */
  function ParseChars(s: string): (r: Parsed<string>)
    ensures r.Got? ==> |r.rest| < |s|
    decreases |s|
  {
    if s != "" && s[0] == '\"' then Got("", s[1..])
    else
      match ParseChar(s)
      case Fail => Fail
      case Got(c, rest) =>
        match ParseChars(rest)
        case Fail => Fail
        case Got(cs, rest') => Got([c] + cs, rest')
  }

  // ----- values: encoding -----

  /** The parts with commas between them. */
  function Join(parts: seq<string>): string {
    if parts == [] then ""
    else if |parts| == 1 then parts[0]
    else parts[0] + ("," + Join(parts[1..]))
  }

  /** The compact text of a value. */
  function Encode(j: Json): string
    decreases j, 2
  {
    match j
    case JNull => "null"
    case JBool(b) => if b then "true" else "false"
    case JInt(n) => Decimal(n)
    case JString(s) => Quote(s)
    case JArray(items) => "[" + (Join(EncodeItems(items)) + "]")
    case JObject(members) => "{" + (Join(EncodeMembers(members)) + "}")
  }

  function EncodeItems(items: seq<Json>): (r: seq<string>)
    ensures |r| == |items| && forall i :: 0 <= i < |items| ==> r[i] == Encode(items[i])
    decreases items, 1
  {
    seq(|items|, i requires 0 <= i < |items| => Encode(items[i]))
  }

  function EncodeMember(m: Member): string
    decreases m, 3
  {
    Quote(m.name) + (":" + Encode(m.value))
  }

  function EncodeMembers(members: seq<Member>): (r: seq<string>)
    ensures |r| == |members| && forall i :: 0 <= i < |members| ==> r[i] == EncodeMember(members[i])
    decreases members, 1
  {
    seq(|members|, i requires 0 <= i < |members| => EncodeMember(members[i]))
  }

  // ----- values: decoding -----

  predicate IsJsonSpace(c: char) { c == ' ' || c == '\t' || c == '\n' || c == '\r' }

  function SkipSpace(s: string): (r: string)
    ensures |r| <= |s|
  {
    if s != "" && IsJsonSpace(s[0]) then SkipSpace(s[1..]) else s
  }

  /** The length of the run of digits at the start of s. */
  function DigitRun(s: string): (k: nat)
    ensures k <= |s|
    ensures forall i :: 0 <= i < k ==> IsDigit(s[i])
    ensures k < |s| ==> !IsDigit(s[k])
  {
    if s != "" && IsDigit(s[0]) then 1 + DigitRun(s[1..]) else 0
  }

  function ParseDigits(s: string): (r: Parsed<int>)
    ensures r.Got? ==> |r.rest| < |s|
  {
    var k := DigitRun(s);
    if k == 0 || (s[0] == '0' && k > 1) || (k < |s| && (s[k] == '.' || s[k] == 'e' || s[k] == 'E')) then Fail
    else Got(DigitsValue(s[..k]), s[k..])
  }

  function ParseNumber(s: string): (r: Parsed<Json>)
    ensures r.Got? ==> |r.rest| < |s|
  {
    if s != "" && s[0] == '-' then
      match ParseDigits(s[1..])
      case Fail => Fail
      case Got(n, rest) => Got(JInt(-n), rest)
    else
      match ParseDigits(s)
      case Fail => Fail
      case Got(n, rest) => Got(JInt(n), rest)
  }

  function ParseLiteral(s: string, word: string, j: Json): (r: Parsed<Json>)
    requires word != ""
    ensures r.Got? ==> |r.rest| < |s|
  {
    if word <= s then Got(j, s[|word|..]) else Fail
  }

  /** A value with white space allowed in front of it. */
  function ParseValue(s: string): (r: Parsed<Json>)
    ensures r.Got? ==> |r.rest| < |s|
    decreases |s|, 0
  {
    var t := SkipSpace(s);
    if t == "" then Fail
    else if t[0] == '[' then
      var u := SkipSpace(t[1..]);
      if u != "" && u[0] == ']' then Got(JArray([]), u[1..])
      else
        match ParseItems(t[1..])
        case Fail => Fail
        case Got(items, rest) => Got(JArray(items), rest)
    else if t[0] == '{' then
      var u := SkipSpace(t[1..]);
      if u != "" && u[0] == '}' then Got(JObject([]), u[1..])
      else
        match ParseMembers(t[1..])
        case Fail => Fail
        case Got(members, rest) => Got(JObject(members), rest)
    else if t[0] == '\"' then
      match ParseChars(t[1..])
      case Fail => Fail
      case Got(str, rest) => Got(JString(str), rest)
    else if t[0] == 'n' then ParseLiteral(t, "null", JNull)
    else if t[0] == 't' then ParseLiteral(t, "true", JBool(true))
    else if t[0] == 'f' then ParseLiteral(t, "false", JBool(false))
    else ParseNumber(t)
  }

  /** The elements of a non-empty array, up to and including its closing bracket. */
  function ParseItems(s: string): (r: Parsed<seq<Json>>)
    ensures r.Got? ==> |r.rest| < |s|
    decreases |s|, 1
  {
    match ParseValue(s)
    case Fail => Fail
    case Got(j, rest) =>
      var t := SkipSpace(rest);
      if t != "" && t[0] == ']' then Got([j], t[1..])
      else if t != "" && t[0] == ',' then
        match ParseItems(t[1..])
        case Fail => Fail
        case Got(js, rest') => Got([j] + js, rest')
      else Fail
  }

  /** One member of an object. */
  function ParseMember(s: string): (r: Parsed<Member>)
    ensures r.Got? ==> |r.rest| < |s|
    decreases |s|, 1
  {
    var t := SkipSpace(s);
    if t == "" || t[0] != '\"' then Fail
    else
      match ParseChars(t[1..])
      case Fail => Fail
      case Got(name, rest) =>
        var u := SkipSpace(rest);
        if u == "" || u[0] != ':' then Fail
        else
          match ParseValue(u[1..])
          case Fail => Fail
          case Got(j, rest') => Got(Member(name, j), rest')
  }

  /** The members of a non-empty object, up to and including its closing brace. */
  function ParseMembers(s: string): (r: Parsed<seq<Member>>)
    ensures r.Got? ==> |r.rest| < |s|
    decreases |s|, 2
  {
    match ParseMember(s)
    case Fail => Fail
    case Got(m, rest) =>
      var t := SkipSpace(rest);
      if t != "" && t[0] == '}' then Got([m], t[1..])
      else if t != "" && t[0] == ',' then
        match ParseMembers(t[1..])
        case Fail => Fail
        case Got(ms, rest') => Got([m] + ms, rest')
      else Fail
  }

  /** A whole JSON text: one value, white space around it, and nothing else. */
  function Decode(s: string): Option<Json> {
    match ParseValue(s)
    case Fail => None
    case Got(j, rest) => if SkipSpace(rest) == "" then Some(j) else None
  }

  // ----- decoding undoes encoding -----

  lemma Hex4Value(n: nat)
    requires n < 0x10000
    ensures ((n / 4096 * 16 + n / 256 % 16) * 16 + n / 16 % 16) * 16 + n % 16 == n
  {
    assert n / 256 == n / 4096 * 16 + n / 256 % 16;
    assert n / 16 == n / 256 * 16 + n / 16 % 16;
  }

  lemma HexDigitValue(d: nat)
    requires d < 16
    ensures HexValue(HexDigit(d)) == Some(d)
  {
  }

  lemma Hex4RoundTrip(n: nat, rest: string)
    requires n < 0x10000
    ensures ParseHex4(Hex4(n) + rest) == Some(n)
  {
    HexDigitValue(n / 4096);
    HexDigitValue(n / 256 % 16);
    HexDigitValue(n / 16 % 16);
    HexDigitValue(n % 16);
    Hex4Value(n);
  }

  lemma UnicodeEscapeRoundTrip(n: nat, rest: string)
    requires n < 0xD800
    ensures ParseChar("\\u" + Hex4(n) + rest) == Got(n as char, rest)
  {
    Hex4RoundTrip(n, rest);
    var s := "\\u" + Hex4(n) + rest;
    assert s[2..] == Hex4(n) + rest;
    DropFirst(Hex4(n), rest);
  }

  /** Whatever one character is encoded as, the decoder reads it back and stops right after it. */
  lemma CharRoundTrip(c: char, rest: string)
    ensures ParseChar(EscapeChar(c) + rest) == Got(c, rest)
    ensures EscapeChar(c)[0] != '\"'
  {
    var e := EscapeChar(c);
    if |e| == 6 {
      UnicodeEscapeRoundTrip(c as int, rest);
    } else {
      DropFirst(e, rest);
    }
  }

  lemma EscapeStep(s: string)
    ensures s == "" ==> EscapeAll(s) == ""
    ensures s != "" ==> EscapeAll(s) == EscapeChar(s[0]) + EscapeAll(s[1..])
  {
    if s != "" {
      assert seq(|s|, i requires 0 <= i < |s| => EscapeChar(s[i]))[1..]
          == seq(|s[1..]|, i requires 0 <= i < |s[1..]| => EscapeChar(s[1..][i]));
    }
  }

  lemma {:induction false} CharsRoundTrip(str: string, rest: string)
    ensures ParseChars(EscapeAll(str) + ("\"" + rest)) == Got(str, rest)
  {
    var s := EscapeAll(str) + ("\"" + rest);
    EscapeStep(str);
    if str == "" {
      assert s == "\"" + rest;
      DropFirst("\"", rest);
    } else {
      var more := EscapeAll(str[1..]) + ("\"" + rest);
      Assoc(EscapeChar(str[0]), EscapeAll(str[1..]), "\"" + rest);
      CharRoundTrip(str[0], more);
      CharsRoundTrip(str[1..], rest);
      CharsStep(s, str[0], more);
      assert str == [str[0]] + str[1..];
    }
  }

  /** One unfolding of the character loop. */
  lemma CharsStep(s: string, c: char, more: string)
    requires s != "" && s[0] != '\"' && ParseChar(s) == Got(c, more) && ParseChars(more).Got?
    ensures ParseChars(s) == Got([c] + ParseChars(more).value, ParseChars(more).rest)
  {
  }

  // ----- numbers -----

  /** What may follow a value inside an encoded text. */
  predicate Delimited(rest: string) {
    rest == "" || rest[0] == ',' || rest[0] == ']' || rest[0] == '}'
  }

  lemma {:induction false} DigitRunAppend(d: string, rest: string)
    requires forall i :: 0 <= i < |d| ==> IsDigit(d[i])
    requires rest == "" || !IsDigit(rest[0])
    ensures DigitRun(d + rest) == |d|
  {
    if d == "" {
      assert d + rest == rest;
    } else {
      assert (d + rest)[1..] == d[1..] + rest;
      DigitRunAppend(d[1..], rest);
    }
  }

  lemma {:induction false} DigitsParse(n: nat, rest: string)
    requires Delimited(rest)
    ensures ParseDigits(Digits(n) + rest) == Got(n, rest)
    ensures IsDigit((Digits(n) + rest)[0])
  {
    var d := Digits(n);
    DigitRunAppend(d, rest);
    DigitsNoLeadingZero(n);
    DigitsRoundTrip(n);
    assert (d + rest)[..|d|] == d;
    DropFirst(d, rest);
  }

  /** A sign is read off, then the digits. */
  lemma NumberFromDigits(s: string, n: int, rest: string)
    requires s != "" && ParseDigits(s) == Got(n, rest) && s[0] != '-'
    ensures ParseNumber(s) == Got(JInt(n), rest)
    ensures ParseNumber("-" + s) == Got(JInt(-n), rest)
  {
  }

  lemma {:induction false} NumberRoundTrip(n: int, rest: string)
    requires Delimited(rest)
    ensures var s := Decimal(n) + rest; ParseNumber(s) == Got(JInt(n), rest) && (IsDigit(s[0]) || s[0] == '-')
  {
    var m: nat := if n < 0 then -n else n;
    DigitsParse(m, rest);
    NumberFromDigits(Digits(m) + rest, m, rest);
    Assoc("-", Digits(m), rest);
  }

  // ----- one unfolding of the value parser for each kind of value -----

  lemma ParseArrayText(t: string, items: seq<Json>, rest: string)
    requires t != "" && !IsJsonSpace(t[0]) && t[0] != ']' && ParseItems(t) == Got(items, rest)
    ensures ParseValue("[" + t) == Got(JArray(items), rest)
  {
  }

  lemma ParseEmptyArray(rest: string)
    ensures ParseValue("[" + ("]" + rest)) == Got(JArray([]), rest)
  {
  }

  lemma ParseObjectText(t: string, members: seq<Member>, rest: string)
    requires t != "" && t[0] == '\"' && ParseMembers(t) == Got(members, rest)
    ensures ParseValue("{" + t) == Got(JObject(members), rest)
  {
  }

  lemma ParseEmptyObject(rest: string)
    ensures ParseValue("{" + ("}" + rest)) == Got(JObject([]), rest)
  {
  }

  lemma ParseStringText(t: string, str: string, rest: string)
    requires ParseChars(t) == Got(str, rest)
    ensures ParseValue("\"" + t) == Got(JString(str), rest)
  {
  }

  lemma ParseNumberText(s: string, n: int, rest: string)
    requires s != "" && (IsDigit(s[0]) || s[0] == '-') && ParseNumber(s) == Got(JInt(n), rest)
    ensures ParseValue(s) == Got(JInt(n), rest)
  {
  }

  lemma ParseWord(j: Json, rest: string)
    requires j.JNull? || j.JBool?
    ensures ParseValue(Encode(j) + rest) == Got(j, rest)
  {
  }

  /** An element and what follows it. */
  lemma ItemsStep(s: string, j: Json, more: string)
    requires ParseValue(s) == Got(j, more)
    ensures more != "" && more[0] == ']' ==> ParseItems(s) == Got([j], more[1..])
    ensures more != "" && more[0] == ',' && ParseItems(more[1..]).Got? ==>
              var tail := ParseItems(more[1..]); ParseItems(s) == Got([j] + tail.value, tail.rest)
  {
  }

  /** One member read from its two halves. */
  lemma MemberStep(t: string, name: string, u: string, j: Json, rest: string)
    requires ParseChars(t) == Got(name, ":" + u) && ParseValue(u) == Got(j, rest)
    ensures ParseMember("\"" + t) == Got(Member(name, j), rest)
  {
  }

  /** A member and what follows it. */
  lemma MembersStep(s: string, m: Member, more: string)
    requires ParseMember(s) == Got(m, more)
    ensures more != "" && more[0] == '}' ==> ParseMembers(s) == Got([m], more[1..])
    ensures more != "" && more[0] == ',' && ParseMembers(more[1..]).Got? ==>
              var tail := ParseMembers(more[1..]); ParseMembers(s) == Got([m] + tail.value, tail.rest)
  {
  }

  // ----- decoding undoes encoding -----

  lemma JoinFront(parts: seq<string>, tail: string)
    requires parts != []
    ensures |parts| == 1 ==> Join(parts) + tail == parts[0] + tail
    ensures |parts| > 1 ==> Join(parts) + tail == parts[0] + ("," + (Join(parts[1..]) + tail))
    ensures parts[0] != "" ==> Join(parts) + tail != "" && (Join(parts) + tail)[0] == parts[0][0]
  {
    if |parts| > 1 {
      Assoc(parts[0], "," + Join(parts[1..]), tail);
      Assoc(",", Join(parts[1..]), tail);
    }
  }

  lemma QuoteSplit(s: string, tail: string)
    ensures Quote(s) + tail == "\"" + (EscapeAll(s) + ("\"" + tail))
  {
  }

  /** The first character of an encoded value cannot be taken for space or for an empty array. */
  lemma EncodeHead(j: Json)
    ensures Encode(j) != "" && !IsJsonSpace(Encode(j)[0]) && Encode(j)[0] != ']'
  {
  }

  /** The decoder reads an encoded value back, for every value and every continuation of the text. */
  lemma {:induction false} ValueRoundTrip(j: Json, rest: string)
    requires Delimited(rest)
    ensures ParseValue(Encode(j) + rest) == Got(j, rest)
    decreases j, 2
  {
    match j
    case JNull => ParseWord(j, rest);
    case JBool(b) => ParseWord(j, rest);
    case JInt(n) => NumberRoundTrip(n, rest); ParseNumberText(Decimal(n) + rest, n, rest);
    case JString(str) =>
      QuoteSplit(str, rest);
      CharsRoundTrip(str, rest);
      ParseStringText(EscapeAll(str) + ("\"" + rest), str, rest);
    case JArray(items) => ArrayRoundTrip(items, rest);
    case JObject(members) => ObjectRoundTrip(members, rest);
  }

  lemma {:induction false} ArrayRoundTrip(items: seq<Json>, rest: string)
    ensures ParseValue("[" + (Join(EncodeItems(items)) + "]") + rest) == Got(JArray(items), rest)
    decreases items, 2
  {
    var text := Join(EncodeItems(items));
    Assoc("[", text + "]", rest);
    Assoc(text, "]", rest);
    if items == [] {
      assert text + ("]" + rest) == "]" + rest;
      ParseEmptyArray(rest);
    } else {
      ItemsRoundTrip(items, rest);
      EncodeHead(items[0]);
      JoinFront(EncodeItems(items), "]" + rest);
      ParseArrayText(text + ("]" + rest), items, rest);
    }
  }

  lemma {:induction false} ItemsRoundTrip(items: seq<Json>, rest: string)
    requires items != []
    ensures ParseItems(Join(EncodeItems(items)) + ("]" + rest)) == Got(items, rest)
    decreases items, 1
  {
    var s := Join(EncodeItems(items)) + ("]" + rest);
    JoinFront(EncodeItems(items), "]" + rest);
    if |items| == 1 {
      ValueRoundTrip(items[0], "]" + rest);
      ItemsStep(s, items[0], "]" + rest);
      DropFirst("]", rest);
      assert items == [items[0]];
    } else {
      var tail := Join(EncodeItems(items[1..])) + ("]" + rest);
      assert EncodeItems(items)[1..] == EncodeItems(items[1..]);
      ValueRoundTrip(items[0], "," + tail);
      ItemsRoundTrip(items[1..], rest);
      ItemsStep(s, items[0], "," + tail);
      DropFirst(",", tail);
      assert items == [items[0]] + items[1..];
    }
  }

  lemma {:induction false} ObjectRoundTrip(members: seq<Member>, rest: string)
    ensures ParseValue("{" + (Join(EncodeMembers(members)) + "}") + rest) == Got(JObject(members), rest)
    decreases members, 2
  {
    var text := Join(EncodeMembers(members));
    Assoc("{", text + "}", rest);
    Assoc(text, "}", rest);
    if members == [] {
      assert text + ("}" + rest) == "}" + rest;
      ParseEmptyObject(rest);
    } else {
      MembersRoundTrip(members, rest);
      QuoteSplit(members[0].name, ":" + Encode(members[0].value));
      JoinFront(EncodeMembers(members), "}" + rest);
      ParseObjectText(text + ("}" + rest), members, rest);
    }
  }

  lemma {:induction false} MemberRoundTrip(m: Member, rest: string)
    requires Delimited(rest)
    ensures ParseMember(EncodeMember(m) + rest) == Got(m, rest)
    decreases m, 3
  {
    var u := Encode(m.value) + rest;
    var t := EscapeAll(m.name) + ("\"" + (":" + u));
    Assoc(Quote(m.name), ":" + Encode(m.value), rest);
    Assoc(":", Encode(m.value), rest);
    QuoteSplit(m.name, ":" + u);
    CharsRoundTrip(m.name, ":" + u);
    ValueRoundTrip(m.value, rest);
    MemberStep(t, m.name, u, m.value, rest);
  }

  lemma {:induction false} MembersRoundTrip(members: seq<Member>, rest: string)
    requires members != []
    ensures ParseMembers(Join(EncodeMembers(members)) + ("}" + rest)) == Got(members, rest)
    decreases members, 1
  {
    JoinFront(EncodeMembers(members), "}" + rest);
    if |members| == 1 {
      LastMember(members[0], rest);
      assert members == [members[0]];
    } else {
      var tail := Join(EncodeMembers(members[1..])) + ("}" + rest);
      assert EncodeMembers(members)[1..] == EncodeMembers(members[1..]);
      MembersRoundTrip(members[1..], rest);
      MemberRoundTrip(members[0], "," + tail);
      MembersStep(EncodeMember(members[0]) + ("," + tail), members[0], "," + tail);
      DropFirst(",", tail);
      assert members == [members[0]] + members[1..];
    }
  }

  lemma LastMember(m: Member, rest: string)
    ensures ParseMembers(EncodeMember(m) + ("}" + rest)) == Got([m], rest)
    decreases m, 4
  {
    MemberRoundTrip(m, "}" + rest);
    MembersStep(EncodeMember(m) + ("}" + rest), m, "}" + rest);
    DropFirst("}", rest);
  }

  /** Decoding undoes encoding, for every value. */
  lemma RoundTrip(j: Json)
    ensures Decode(Encode(j)) == Some(j)
  {
    ValueRoundTrip(j, "");
    assert Encode(j) + "" == Encode(j);
  }

  // ----- the text itself, in examples -----

  lemma QuoteOne(c: char)
    ensures Quote([c]) == "\"" + EscapeChar(c) + "\""
  {
    EscapeStep([c]);
    assert [c][1..] == "";
    EscapeStep("");
  }

  /** The escapes that encoding/json writes. */
  lemma EscapesWritten()
    ensures Quote("\"") == "\"\\\"\"" && Quote("\\") == "\"\\\\\""
    ensures Quote("\U{0008}") == "\"\\b\"" && Quote("\U{000C}") == "\"\\f\""
    ensures Quote("\n") == "\"\\n\"" && Quote("\r") == "\"\\r\"" && Quote("\t") == "\"\\t\""
  {
    QuoteOne('\"'); QuoteOne('\\'); QuoteOne('\U{0008}'); QuoteOne('\U{000C}');
    QuoteOne('\n'); QuoteOne('\r'); QuoteOne('\t');
  }

  lemma UnicodeEscapesWritten()
    ensures Quote("\U{001F}") == "\"\\u001f\"" && Quote("<") == "\"\\u003c\"" && Quote(">") == "\"\\u003e\""
    ensures Quote("&") == "\"\\u0026\"" && Quote("\U{2028}") == "\"\\u2028\"" && Quote("\U{2029}") == "\"\\u2029\""
    ensures Quote("\U{0000}") == "\"\\u0000\"" && Quote("\U{000B}") == "\"\\u000b\""
  {
    QuoteOne('\U{001F}'); QuoteOne('<'); QuoteOne('>'); QuoteOne('&');
    QuoteOne('\U{2028}'); QuoteOne('\U{2029}'); QuoteOne('\U{0000}'); QuoteOne('\U{000B}');
  }

  /** Every other character stands for itself. */
  lemma PlainCharacters(c: char)
    requires c >= ' ' && c !in "\"\\<>&\U{2028}\U{2029}"
    ensures Quote([c]) == "\"" + [c] + "\""
  {
    QuoteOne(c);
  }

  /** Punctuation and literal names. */
  lemma WordTexts()
    ensures Encode(JNull) == "null" && Encode(JBool(true)) == "true" && Encode(JBool(false)) == "false"
    ensures Encode(JArray([])) == "[]" && Encode(JObject([])) == "{}"
  {
  }

  lemma ArrayText(j: Json, k: Json)
    ensures Encode(JArray([j, k])) == "[" + (Encode(j) + ("," + Encode(k)) + "]")
  {
    var items := [j, k];
    assert EncodeItems(items) == [Encode(j), Encode(k)];
    JoinTwo(Encode(j), Encode(k));
    assert Encode(JArray(items)) == "[" + (Join(EncodeItems(items)) + "]");
  }

  lemma JoinTwo(a: string, b: string)
    ensures Join([a, b]) == a + ("," + b)
  {
    assert [a, b][1..] == [b];
    assert Join([b]) == b;
  }

  lemma ObjectText(a: string, j: Json, b: string, k: Json)
    ensures Encode(JObject([Member(a, j), Member(b, k)]))
         == "{" + (Quote(a) + (":" + Encode(j)) + ("," + (Quote(b) + (":" + Encode(k)))) + "}")
  {
    var members := [Member(a, j), Member(b, k)];
    assert EncodeMembers(members) == [EncodeMember(Member(a, j)), EncodeMember(Member(b, k))];
    JoinTwo(EncodeMember(Member(a, j)), EncodeMember(Member(b, k)));
    assert Encode(JObject(members)) == "{" + (Join(EncodeMembers(members)) + "}");
  }

  // ----- what else the decoder reads, and what it does not -----

  predicate AllSpace(s: string) {
    forall i :: 0 <= i < |s| ==> s[i] in " \t\n\r"
  }

  lemma {:induction false} SkipsSpace(w: string, s: string)
    requires AllSpace(w)
    ensures SkipSpace(w + s) == SkipSpace(s)
  {
    if w != "" {
      assert (w + s)[1..] == w[1..] + s;
      SkipsSpace(w[1..], s);
    } else {
      assert w + s == s;
    }
  }

  /** White space in front of a value does not matter; anything but white space after it does. */
  lemma SpaceAround(w: string, s: string, j: Json, rest: string)
    requires AllSpace(w) && ParseValue(s) == Got(j, rest)
    ensures ParseValue(w + s) == Got(j, rest)
    ensures AllSpace(rest) ==> Decode(w + s) == Some(j)
    ensures rest != "" && rest[0] !in " \t\n\r" ==> Decode(w + s) == None
  {
    SkipsSpace(w, s);
    assert ParseValue(w + s) == ParseValue(s);
    if AllSpace(rest) {
      SkipsSpace(rest, "");
      assert rest + "" == rest;
    }
  }

  /** The escapes that are read besides those written. */
  lemma EscapesRead(rest: string)
    ensures ParseChar("\\/" + rest) == Got('/', rest)
    ensures ParseChar("\\u00E9" + rest) == Got('\U{00E9}', rest)
    ensures ParseChar("\\x" + rest) == Fail && ParseChar("\n" + rest) == Fail
  {
    var s := "\\u00E9" + rest;
    assert s[2..] == "00E9" + rest && s[2..][4..] == rest;
    assert ("\\/" + rest)[2..] == rest;
  }

  /** A surrogate pair is one character. */
  lemma SurrogatePairRead(rest: string)
    ensures ParseChar("\\uD83D\\uDE00" + rest) == Got('\U{1F600}', rest)
  {
    var s := "\\uD83D\\uDE00" + rest;
    assert s[2..] == "D83D\\uDE00" + rest;
    assert s[2..][6..] == "DE00" + rest && s[2..][10..] == rest;
  }
}
