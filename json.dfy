/**
 * A small JSON codec standing in for `JSON.stringify` and `JSON.parse`.
 *
 * Values are JSON's null, booleans, integers, strings, arrays and objects (as an
 * ordered member list), plus `BigInt`, which `JSON.stringify` refuses with a
 * TypeError. `Text` writes the compact form `JSON.stringify` produces for these
 * values, escaping `"`, `\` and the control characters inside strings.
 * `Decode` follows JSON's grammar without whitespace, fractions or exponents:
 * a number with a leading zero, a raw control character inside a string or an
 * unknown escape is malformed, as it is for `JSON.parse`. The round trip
 * `Decode(Text(v)) == v` is proved, not assumed.
 */
module Json {
  import opened Wrappers

  datatype Value =
    | Null
    | Bool(b: bool)
    | Num(n: int)
    | Str(s: string)
    | Arr(items: seq<Value>)
    | Obj(members: seq<Member>)
    | BigInt(big: int)

  datatype Member = Member(name: string, value: Value)

  datatype EncodeError = Unserializable

  datatype DecodeError = Malformed

  /** True iff `JSON.stringify` accepts `v`: no `BigInt` anywhere inside it. */
  predicate Serializable(v: Value)
    decreases v
  {
    match v
    case BigInt(_) => false
    case Arr(items) => ItemsSerializable(items)
    case Obj(members) => MembersSerializable(members)
    case _ => true
  }

  predicate ItemsSerializable(items: seq<Value>)
    decreases items
  {
    |items| == 0 || (Serializable(items[0]) && ItemsSerializable(items[1..]))
  }

  predicate MembersSerializable(members: seq<Member>)
    decreases members
  {
    |members| == 0 || (Serializable(members[0].value) && MembersSerializable(members[1..]))
  }

  // ---------------------------------------------------------------- encoding

  predicate IsDigit(c: char) {
    '0' <= c <= '9'
  }

  function DigitChar(d: nat): (c: char)
    requires d < 10
    ensures IsDigit(c)
  {
    ('0' as int + d) as char
  }

  /** The decimal digits of `n`, most significant first. */
  function Digits(n: nat): (ds: string)
    ensures |ds| > 0
    ensures forall i :: 0 <= i < |ds| ==> IsDigit(ds[i])
  {
    if n < 10 then [DigitChar(n)] else Digits(n / 10) + [DigitChar(n % 10)]
  }

  /** The lower-case hexadecimal digit of `d`. */
  function HexChar(d: nat): (c: char)
    requires d < 16
  {
    if d < 10 then DigitChar(d) else ('a' as int + d - 10) as char
  }

  /**
   * How `JSON.stringify` writes one character inside a string literal: `"`
   * and `\` behind a backslash, the control characters with a short escape
   * where JSON has one and as `\u00xx` otherwise, everything else as itself.
   */
  function EscapeChar(c: char): (e: string) {
    if c == '"' || c == '\\' then ['\\', c]
    else if c == '\n' then "\\n"
    else if c == '\r' then "\\r"
    else if c == '\t' then "\\t"
    else if c == 8 as char then "\\b"
    else if c == 12 as char then "\\f"
    else if c < ' ' then "\\u00" + [HexChar(c as int / 16), HexChar(c as int % 16)]
    else [c]
  }

  /** The characters of a string literal's body. */
  function Escape(s: string): (e: string) {
    if |s| == 0 then "" else EscapeChar(s[0]) + Escape(s[1..])
  }

  function Quote(s: string): (q: string) {
    "\"" + Escape(s) + "\""
  }

  /** The serialized form of a serializable value; it is never the empty string. */
  function Text(v: Value): (t: string)
    requires Serializable(v)
    ensures |t| > 0
    decreases v
  {
    match v
    case Null => "null"
    case Bool(b) => if b then "true" else "false"
    case Num(n) => if n < 0 then "-" + Digits(-n) else Digits(n)
    case Str(s) => Quote(s)
    case Arr(items) => "[" + ItemsText(items) + "]"
    case Obj(members) => "{" + MembersText(members) + "}"
  }

  function ItemsText(items: seq<Value>): string
    requires ItemsSerializable(items)
    decreases items
  {
    if |items| == 0 then ""
    else if |items| == 1 then Text(items[0])
    else Text(items[0]) + "," + ItemsText(items[1..])
  }

  function MemberText(m: Member): string
    requires Serializable(m.value)
    decreases m, 1
  {
    Quote(m.name) + ":" + Text(m.value)
  }

  function MembersText(members: seq<Member>): string
    requires MembersSerializable(members)
    decreases members
  {
    if |members| == 0 then ""
    else if |members| == 1 then MemberText(members[0])
    else MemberText(members[0]) + "," + MembersText(members[1..])
  }

  /** `JSON.stringify`: the serialized text, or the error it throws. */
  function Stringify(v: Value): (r: Result<string, EncodeError>)
    ensures r.Success? <==> Serializable(v)
    ensures r.Success? ==> |r.value| > 0 && Decode(r.value) == Success(v)
  {
    if Serializable(v) then RoundTrip(v); Success(Text(v)) else Failure(Unserializable)
  }

  // ---------------------------------------------------------------- decoding

  /** The number of leading decimal digits of `s`. */
  function DigitSpan(s: string): (k: nat)
    ensures k <= |s|
    ensures forall i :: 0 <= i < k ==> IsDigit(s[i])
    ensures k < |s| ==> !IsDigit(s[k])
  {
    if |s| == 0 || !IsDigit(s[0]) then 0 else 1 + DigitSpan(s[1..])
  }

  /** The number a run of decimal digits denotes. */
  function DigitsValue(ds: string): (n: int) {
    if |ds| == 0 then 0
    else DigitsValue(ds[..|ds| - 1]) * 10 + (ds[|ds| - 1] as int - '0' as int)
  }

  /** A run of digits with no leading zero (JSON allows `0` but not `01`), and what follows it. */
  function ParseNat(s: string): (r: Result<(int, string), DecodeError>)
    ensures r.Success? ==> |r.value.1| < |s|
  {
    var k := DigitSpan(s);
    if k == 0 || (s[0] == '0' && k > 1) then Failure(Malformed) else Success((DigitsValue(s[..k]), s[k..]))
  }

  function ParseWord(s: string, word: string, v: Value): (r: Result<(Value, string), DecodeError>)
    requires |word| > 0
    ensures r.Success? ==> |r.value.1| < |s|
    ensures r.Success? ==> r.value.0 == v
  {
    if |word| <= |s| && s[..|word|] == word then Success((v, s[|word|..])) else Failure(Malformed)
  }

  /** The value of a hexadecimal digit of either case. */
  function HexValue(c: char): (r: Option<nat>)
    ensures r.Some? ==> r.value < 16
  {
    if '0' <= c <= '9' then Some(c as int - '0' as int)
    else if 'a' <= c <= 'f' then Some(c as int - 'a' as int + 10)
    else if 'A' <= c <= 'F' then Some(c as int - 'A' as int + 10)
    else None
  }

  /** The character a one-letter escape `\e` stands for. */
  function SimpleEscape(e: char): Option<char> {
    if e == '"' || e == '\\' || e == '/' then Some(e)
    else if e == 'b' then Some(8 as char)
    else if e == 'f' then Some(12 as char)
    else if e == 'n' then Some('\n')
    else if e == 'r' then Some('\r')
    else if e == 't' then Some('\t')
    else None
  }

  /**
   * The character `\uXXXX` stands for, given the four characters `XXXX`;
   * a surrogate half is not a character of its own here.
   */
  function UnicodeEscape(h: string): Option<char>
    requires |h| == 4
  {
    match (HexValue(h[0]), HexValue(h[1]), HexValue(h[2]), HexValue(h[3]))
    case (Some(a), Some(b), Some(c), Some(d)) =>
      var code := ((a * 16 + b) * 16 + c) * 16 + d;
      if 0xD800 <= code < 0xE000 then None else Some(code as char)
    case _ => None
  }

  /** `c` put in front of the body a string parse found. */
  function ConsChar(c: char, r: Result<(string, string), DecodeError>): (r': Result<(string, string), DecodeError>)
    ensures r'.Success? ==> r.Success? && r'.value.1 == r.value.1
  {
    match r
    case Success((t, rest)) => Success(([c] + t, rest))
    case Failure(e) => Failure(e)
  }

  /**
   * The body of a string literal up to its closing quote, and what follows it.
   * A raw control character (below U+0020) or an unknown escape is malformed.
   */
  function ParseString(s: string): (r: Result<(string, string), DecodeError>)
    ensures r.Success? ==> |r.value.1| < |s|
  {
    if |s| == 0 || s[0] < ' ' then Failure(Malformed)
    else if s[0] == '"' then Success(("", s[1..]))
    else if s[0] != '\\' then ConsChar(s[0], ParseString(s[1..]))
    else if |s| < 2 then Failure(Malformed)
    else if s[1] != 'u' then
      match SimpleEscape(s[1])
      case Some(c) => ConsChar(c, ParseString(s[2..]))
      case None => Failure(Malformed)
    else if |s| < 6 then Failure(Malformed)
    else
      match UnicodeEscape(s[2..6])
      case Some(c) => ConsChar(c, ParseString(s[6..]))
      case None => Failure(Malformed)
  }

  /** One value at the front of `s`, and what follows it. */
  function ParseValue(s: string): (r: Result<(Value, string), DecodeError>)
    ensures r.Success? ==> |r.value.1| < |s|
    ensures r.Success? ==> Serializable(r.value.0)
    decreases |s|, 3
  {
    if |s| == 0 then Failure(Malformed)
    else if s[0] == 'n' then ParseWord(s, "null", Null)
    else if s[0] == 't' then ParseWord(s, "true", Bool(true))
    else if s[0] == 'f' then ParseWord(s, "false", Bool(false))
    else if s[0] == '"' then ParseStr(s)
    else if s[0] == '-' || IsDigit(s[0]) then ParseNumber(s)
    else if s[0] == '[' then ParseArray(s)
    else if s[0] == '{' then ParseObject(s)
    else Failure(Malformed)
  }

  function ParseStr(s: string): (r: Result<(Value, string), DecodeError>)
    requires |s| > 0
    ensures r.Success? ==> |r.value.1| < |s|
    ensures r.Success? ==> r.value.0.Str?
  {
    match ParseString(s[1..])
    case Success((t, rest)) => Success((Str(t), rest))
    case Failure(e) => Failure(e)
  }

  function ParseNumber(s: string): (r: Result<(Value, string), DecodeError>)
    requires |s| > 0
    ensures r.Success? ==> |r.value.1| < |s|
    ensures r.Success? ==> r.value.0.Num?
  {
    if s[0] == '-' then
      match ParseNat(s[1..])
      case Success((n, rest)) => Success((Num(-n), rest))
      case Failure(e) => Failure(e)
    else
      match ParseNat(s)
      case Success((n, rest)) => Success((Num(n), rest))
      case Failure(e) => Failure(e)
  }

  function ParseArray(s: string): (r: Result<(Value, string), DecodeError>)
    requires |s| > 0
    ensures r.Success? ==> |r.value.1| < |s|
    ensures r.Success? ==> Serializable(r.value.0)
    decreases |s|, 2
  {
    if 1 < |s| && s[1] == ']' then Success((Arr([]), s[2..]))
    else
      match ParseItems(s[1..])
      case Success((items, rest)) => Success((Arr(items), rest))
      case Failure(e) => Failure(e)
  }

  function ParseObject(s: string): (r: Result<(Value, string), DecodeError>)
    requires |s| > 0
    ensures r.Success? ==> |r.value.1| < |s|
    ensures r.Success? ==> Serializable(r.value.0)
    decreases |s|, 2
  {
    if 1 < |s| && s[1] == '}' then Success((Obj([]), s[2..]))
    else
      match ParseMembers(s[1..])
      case Success((members, rest)) => Success((Obj(members), rest))
      case Failure(e) => Failure(e)
  }

  /** `v ("," v)* "]"`: the elements of a non-empty array and what follows it. */
  function ParseItems(s: string): (r: Result<(seq<Value>, string), DecodeError>)
    ensures r.Success? ==> |r.value.1| < |s|
    ensures r.Success? ==> |r.value.0| > 0 && ItemsSerializable(r.value.0)
    decreases |s|, 4
  {
    match ParseValue(s)
    case Failure(e) => Failure(e)
    case Success((v, rest)) =>
      if 0 < |rest| && rest[0] == ']' then Success(([v], rest[1..]))
      else if 0 < |rest| && rest[0] == ',' then
        match ParseItems(rest[1..])
        case Success((vs, rest')) => Success(([v] + vs, rest'))
        case Failure(e) => Failure(e)
      else Failure(Malformed)
  }

  /** `"name":v`: one object member and what follows it. */
  function ParseMember(s: string): (r: Result<(Member, string), DecodeError>)
    ensures r.Success? ==> |r.value.1| < |s|
    ensures r.Success? ==> Serializable(r.value.0.value)
    decreases |s|, 4
  {
    if |s| == 0 || s[0] != '"' then Failure(Malformed)
    else
      match ParseString(s[1..])
      case Failure(e) => Failure(e)
      case Success((name, rest)) =>
        if |rest| == 0 || rest[0] != ':' then Failure(Malformed)
        else
          match ParseValue(rest[1..])
          case Failure(e) => Failure(e)
          case Success((v, rest')) => Success((Member(name, v), rest'))
  }

  /** `m ("," m)* "}"`: the members of a non-empty object and what follows it. */
  function ParseMembers(s: string): (r: Result<(seq<Member>, string), DecodeError>)
    ensures r.Success? ==> |r.value.1| < |s|
    ensures r.Success? ==> |r.value.0| > 0 && MembersSerializable(r.value.0)
    decreases |s|, 5
  {
    match ParseMember(s)
    case Failure(e) => Failure(e)
    case Success((m, rest)) =>
      if 0 < |rest| && rest[0] == '}' then Success(([m], rest[1..]))
      else if 0 < |rest| && rest[0] == ',' then
        match ParseMembers(rest[1..])
        case Success((ms, rest')) => Success(([m] + ms, rest'))
        case Failure(e) => Failure(e)
      else Failure(Malformed)
  }

  /**
   * `JSON.parse`: the value the whole text denotes, or a decode error. What it
   * returns can always be serialized again.
   */
  function Decode(s: string): (r: Result<Value, DecodeError>)
    ensures r.Success? ==> Serializable(r.value)
    ensures |s| >= 2 && s[0] == '0' && IsDigit(s[1]) ==> r.Failure?
    ensures |s| >= 2 && s[0] == '"' && s[1] < ' ' ==> r.Failure?
  {
    match ParseValue(s)
    case Success((v, rest)) => if rest == "" then Success(v) else Failure(Malformed)
    case Failure(e) => Failure(e)
  }

  // ---------------------------------------------------------------- round trip

  lemma DropHead(c: char, t: string)
    ensures ([c] + t)[0] == c && ([c] + t)[1..] == t
  {
  }

  /** The shape of a bracketed text `o body c` followed by `rest`. */
  lemma Bracketed(o: char, body: string, c: char, rest: string)
    ensures var s := [o] + body + [c] + rest;
      && s[0] == o
      && s[1..] == body + [c] + rest
      && (|body| > 0 ==> s[1] == body[0])
      && (body == [] ==> s[1] == c && s[2..] == rest)
  {
    var s := [o] + body + [c] + rest;
    assert s == [o] + (body + [c] + rest);
  }

  /** The shape of an object member's text `"e":t` followed by `after`. */
  lemma QuotedShape(e: string, t: string, after: string)
    ensures var s := "\"" + e + "\"" + ":" + t + after;
      s[0] == '"' && s[1..] == e + "\"" + (":" + (t + after))
  {
    var s := "\"" + e + "\"" + ":" + t + after;
    assert s == "\"" + (e + "\"" + (":" + (t + after)));
  }

  lemma Assoc(a: string, b: string, c: string)
    ensures a + b + c == a + (b + c)
  {
  }

  /** Regrouping `a sep b close rest` around its first part. */
  lemma Regroup(a: string, sep: string, b: string, close: string, rest: string)
    ensures a + sep + b + close + rest == a + (sep + (b + close + rest))
  {
  }

  lemma {:induction false} DigitsRoundTrip(n: nat)
    ensures DigitsValue(Digits(n)) == n
  {
    if n >= 10 {
      var ds := Digits(n);
      assert ds[..|ds| - 1] == Digits(n / 10);
      DigitsRoundTrip(n / 10);
    }
  }

  lemma {:induction false} DigitSpanOf(ds: string, rest: string)
    requires forall i :: 0 <= i < |ds| ==> IsDigit(ds[i])
    requires rest == [] || !IsDigit(rest[0])
    ensures DigitSpan(ds + rest) == |ds|
  {
    if |ds| > 0 {
      assert (ds + rest)[1..] == ds[1..] + rest;
      DigitSpanOf(ds[1..], rest);
    }
  }

  /** Only zero is written with a leading `0`. */
  lemma {:induction false} DigitsLead(n: nat)
    ensures Digits(n)[0] == '0' ==> n == 0
  {
    if n >= 10 {
      DigitsLead(n / 10);
      assert Digits(n)[0] == Digits(n / 10)[0];
    }
  }

  lemma ParseNatOf(n: nat, rest: string)
    requires rest == [] || !IsDigit(rest[0])
    ensures ParseNat(Digits(n) + rest) == Success((n, rest))
  {
    var ds := Digits(n);
    DigitsLead(n);
    DigitSpanOf(ds, rest);
    assert (ds + rest)[..|ds|] == ds;
    assert (ds + rest)[|ds|..] == rest;
    DigitsRoundTrip(n);
  }

  lemma HexRoundTrip(d: nat)
    requires d < 16
    ensures HexValue(HexChar(d)) == Some(d)
  {
  }

  /** Parsing the escaped form of one character gives the character, then parses on. */
  lemma ParseEscapeChar(c: char, tail: string)
    ensures ParseString(EscapeChar(c) + tail) == ConsChar(c, ParseString(tail))
  {
    var s := EscapeChar(c) + tail;
    if c == '"' || c == '\\' || c == '\n' || c == '\r' || c == '\t' || c == 8 as char || c == 12 as char {
      assert s[2..] == tail;
    } else if c < ' ' {
      var hi, lo := c as int / 16, c as int % 16;
      HexRoundTrip(hi);
      HexRoundTrip(lo);
      assert s[2..6] == ['0', '0', HexChar(hi), HexChar(lo)];
      assert s[6..] == tail;
    } else {
      assert s[1..] == tail;
    }
  }

  lemma {:induction false} ParseStringOf(t: string, rest: string)
    ensures ParseString(Escape(t) + "\"" + rest) == Success((t, rest))
  {
    if |t| == 0 {
      assert Escape(t) + "\"" + rest == "\"" + rest;
    } else {
      var tail := Escape(t[1..]) + "\"" + rest;
      assert Escape(t) + "\"" + rest == EscapeChar(t[0]) + tail;
      ParseEscapeChar(t[0], tail);
      ParseStringOf(t[1..], rest);
      assert [t[0]] + t[1..] == t;
    }
  }

  /** The first character of a serialized value is never a closing bracket or brace. */
  lemma TextStart(v: Value)
    requires Serializable(v)
    ensures Text(v)[0] != ']' && Text(v)[0] != '}'
  {
    match v
    case Num(n) =>
      if n >= 0 { assert IsDigit(Digits(n)[0]); }
    case Arr(items) =>
    case _ =>
  }

  lemma ParseNullOf(rest: string)
    ensures ParseValue(Text(Null) + rest) == Success((Null, rest))
  {
    var s := Text(Null) + rest;
    assert s[..4] == "null" && s[4..] == rest;
  }

  lemma ParseBoolOf(b: bool, rest: string)
    ensures ParseValue(Text(Bool(b)) + rest) == Success((Bool(b), rest))
  {
    var s := Text(Bool(b)) + rest;
    if b {
      assert s[..4] == "true" && s[4..] == rest;
    } else {
      assert s[..5] == "false" && s[5..] == rest;
    }
  }

  lemma ParseNumOf(n: int, rest: string)
    requires rest == [] || !IsDigit(rest[0])
    ensures ParseNumber(Text(Num(n)) + rest) == Success((Num(n), rest))
  {
    if n < 0 {
      var ds := Digits(-n);
      assert Text(Num(n)) == "-" + ds;
      Assoc("-", ds, rest);
      DropHead('-', ds + rest);
      ParseNatOf(-n, rest);
    } else {
      var ds := Digits(n);
      assert Text(Num(n)) == ds;
      assert IsDigit(ds[0]) && (ds + rest)[0] == ds[0];
      ParseNatOf(n, rest);
    }
  }

  /** A number's text starts with `-` or a digit, so `ParseValue` parses it as a number. */
  lemma ParseValueNum(n: int, rest: string)
    ensures var s := Text(Num(n)) + rest;
      |s| > 0 && ParseValue(s) == ParseNumber(s)
  {
    var t := Text(Num(n));
    assert IsDigit(Digits(if n < 0 then -n else n)[0]);
    assert (t + rest)[0] == t[0];
  }

  lemma ParseStrOf(t: string, rest: string)
    ensures ParseStr(Text(Str(t)) + rest) == Success((Str(t), rest))
  {
    var s := Text(Str(t)) + rest;
    assert s[1..] == Escape(t) + "\"" + rest;
    ParseStringOf(t, rest);
  }

  lemma {:induction false} ParseText(v: Value, rest: string)
    requires Serializable(v)
    requires rest == [] || !IsDigit(rest[0])
    ensures ParseValue(Text(v) + rest) == Success((v, rest))
    decreases v, 1
  {
    var s := Text(v) + rest;
    match v
    case Null => ParseNullOf(rest);
    case Bool(b) => ParseBoolOf(b, rest);
    case Num(n) =>
      ParseNumOf(n, rest);
      ParseValueNum(n, rest);
    case Str(t) => ParseStrOf(t, rest);
    case Arr(items) => ParseArrOf(items, rest);
    case Obj(members) => ParseObjOf(members, rest);
  }

  lemma {:induction false} ParseArrOf(items: seq<Value>, rest: string)
    requires ItemsSerializable(items)
    ensures ParseValue(Text(Arr(items)) + rest) == Success((Arr(items), rest))
    decreases items, 3
  {
    var body := ItemsText(items);
    assert Text(Arr(items)) + rest == ['['] + body + [']'] + rest;
    Bracketed('[', body, ']', rest);
    if |items| > 0 {
      TextStart(items[0]);
      ItemsTextStart(items);
      ParseItemsText(items, rest);
    }
  }

  lemma {:induction false} ParseObjOf(members: seq<Member>, rest: string)
    requires MembersSerializable(members)
    ensures ParseValue(Text(Obj(members)) + rest) == Success((Obj(members), rest))
    decreases members, 3
  {
    var body := MembersText(members);
    assert Text(Obj(members)) + rest == ['{'] + body + ['}'] + rest;
    Bracketed('{', body, '}', rest);
    if |members| > 0 {
      MembersTextStart(members);
      ParseMembersText(members, rest);
    }
  }

  /** A non-empty array body starts with its first element's text. */
  lemma ItemsTextStart(items: seq<Value>)
    requires |items| > 0 && ItemsSerializable(items)
    ensures |ItemsText(items)| > 0 && ItemsText(items)[0] == Text(items[0])[0]
  {
  }

  /** A non-empty object body starts with the quote of its first name. */
  lemma MembersTextStart(members: seq<Member>)
    requires |members| > 0 && MembersSerializable(members)
    ensures |MembersText(members)| > 0 && MembersText(members)[0] == '"'
  {
  }

  lemma {:induction false} ParseItemsText(items: seq<Value>, rest: string)
    requires |items| > 0 && ItemsSerializable(items)
    ensures ParseItems(ItemsText(items) + "]" + rest) == Success((items, rest))
    decreases items, 2
  {
    var s := ItemsText(items) + "]" + rest;
    if |items| == 1 {
      assert s == Text(items[0]) + ("]" + rest);
      ParseText(items[0], "]" + rest);
      assert ("]" + rest)[1..] == rest;
      assert [items[0]] == items;
    } else {
      var tail := ItemsText(items[1..]) + "]" + rest;
      assert s == Text(items[0]) + ("," + tail);
      ParseText(items[0], "," + tail);
      assert ("," + tail)[1..] == tail;
      ParseItemsText(items[1..], rest);
      assert [items[0]] + items[1..] == items;
    }
  }

  /** `ParseMember` in terms of the name's string parse and the value's parse. */
  lemma ParseMemberSteps(s: string, name: string, rest: string, v: Value, after: string)
    requires |s| > 0 && s[0] == '"'
    requires ParseString(s[1..]) == Success((name, ":" + rest))
    requires ParseValue(rest) == Success((v, after))
    ensures ParseMember(s) == Success((Member(name, v), after))
  {
    DropHead(':', rest);
  }

  lemma {:induction false} ParseMemberText(m: Member, after: string)
    requires Serializable(m.value)
    requires after == [] || !IsDigit(after[0])
    ensures ParseMember(MemberText(m) + after) == Success((m, after))
    decreases m, 0
  {
    var rest := Text(m.value) + after;
    MemberTextShape(m, after);
    ParseStringOf(m.name, ":" + rest);
    ParseText(m.value, after);
    ParseMemberSteps(MemberText(m) + after, m.name, rest, m.value, after);
  }

  lemma MemberTextShape(m: Member, after: string)
    requires Serializable(m.value)
    ensures var s := MemberText(m) + after;
      s[0] == '"' && s[1..] == Escape(m.name) + "\"" + (":" + (Text(m.value) + after))
  {
    QuotedShape(Escape(m.name), Text(m.value), after);
  }

  lemma {:induction false} ParseMembersText(members: seq<Member>, rest: string)
    requires |members| > 0 && MembersSerializable(members)
    ensures ParseMembers(MembersText(members) + "}" + rest) == Success((members, rest))
    decreases members, 2
  {
    var m := members[0];
    if |members| == 1 {
      var after := "}" + rest;
      assert MembersText(members) == MemberText(m);
      Assoc(MemberText(m), "}", rest);
      ParseMemberText(m, after);
      DropHead('}', rest);
      assert [m] == members;
    } else {
      var tail := MembersText(members[1..]) + "}" + rest;
      var after := "," + tail;
      Regroup(MemberText(m), ",", MembersText(members[1..]), "}", rest);
      ParseMemberText(m, after);
      DropHead(',', tail);
      ParseMembersText(members[1..], rest);
      assert [m] + members[1..] == members;
    }
  }

  /** Decoding the serialized form of a value gives the value back. */
  lemma RoundTrip(v: Value)
    requires Serializable(v)
    ensures Decode(Text(v)) == Success(v)
  {
    ParseText(v, "");
    assert Text(v) + "" == Text(v);
  }
}
