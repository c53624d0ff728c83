/** The JSON trees of app/cJSON.c, the text they are printed as and the trees a
    text is parsed to. Text is bytes; strings and keys are C strings. */
module Json {
  import opened Prelude
  import opened Bytes

  const NESTING_LIMIT := 1000
  const INT_MAX := 0x7FFF_FFFF
  const INT_MIN := -0x8000_0000

  /** Fraction is a number literal with a fraction or an exponent, by its text. */
  datatype Json =
    | Null
    | Bool(b: bool)
    | Num(i: int)
    | Fraction(literal: seq<byte>)
    | Str(text: seq<byte>)
    | Arr(items: seq<Json>)
    | Obj(members: seq<Member>)

  datatype Member = Member(key: seq<byte>, value: Json)

  /** Null, booleans, int-range integers, C strings, and lists of these. */
  predicate Plain(t: Json)
    decreases t
  {
    match t
    case Null => true
    case Bool(_) => true
    case Num(i) => INT_MIN <= i <= INT_MAX
    case Fraction(_) => false
    case Str(text) => 0 !in text
    case Arr(items) => PlainItems(items)
    case Obj(members) => PlainMembers(members)
  }

  predicate PlainItems(items: seq<Json>)
    decreases items
  {
    items == [] || (Plain(items[0]) && PlainItems(items[1..]))
  }

  predicate PlainMember(m: Member)
    decreases m
  {
    0 !in m.key && Plain(m.value)
  }

  predicate PlainMembers(members: seq<Member>)
    decreases members
  {
    members == [] || (PlainMember(members[0]) && PlainMembers(members[1..]))
  }

  /** How deep arrays and objects nest. */
  function Nesting(t: Json): nat
    decreases t
  {
    match t
    case Arr(items) => 1 + NestingOfItems(items)
    case Obj(members) => 1 + NestingOfMembers(members)
    case _ => 0
  }

  function Max(a: nat, b: nat): nat {
    if a < b then b else a
  }

  function NestingOfItems(items: seq<Json>): nat
    decreases items
  {
    if items == [] then 0 else Max(Nesting(items[0]), NestingOfItems(items[1..]))
  }

  function NestingOfMember(m: Member): nat
    decreases m
  {
    Nesting(m.value)
  }

  function NestingOfMembers(members: seq<Member>): nat
    decreases members
  {
    if members == [] then 0 else Max(NestingOfMember(members[0]), NestingOfMembers(members[1..]))
  }

  // ----- Printing -----

  const TAB := 9
  const NEWLINE := 10
  const SPACE := 32
  const QUOTE := 34
  const COMMA := 44
  const MINUS := 45
  const COLON := 58
  const OPEN_ARRAY := 91
  const BACKSLASH := 92
  const CLOSE_ARRAY := 93
  const OPEN_OBJECT := 123
  const CLOSE_OBJECT := 125

  const NULL_TEXT: seq<byte> := [110, 117, 108, 108]
  const FALSE_TEXT: seq<byte> := [102, 97, 108, 115, 101]
  const TRUE_TEXT: seq<byte> := [116, 114, 117, 101]

  /** The letter of a two-character escape, 0 when there is none. */
  function EscapeLetter(c: byte): byte {
    if c == QUOTE then QUOTE
    else if c == BACKSLASH then BACKSLASH
    else if c == 8 then 98
    else if c == 12 then 102
    else if c == NEWLINE then 110
    else if c == 13 then 114
    else if c == TAB then 116
    else 0
  }

  function HexDigit(n: nat): byte
    requires n < 16
  {
    if n < 10 then 48 + n else 87 + n
  }

  /** A byte of a string as it is printed. */
  function Escape(c: byte): seq<byte> {
    if EscapeLetter(c) != 0 then [BACKSLASH, EscapeLetter(c)]
    else if c < 32 then [BACKSLASH, 117, 48, 48, HexDigit(c / 16), HexDigit(c % 16)]
    else [c]
  }

  function Escaped(text: seq<byte>): seq<byte> {
    if text == [] then [] else Escape(text[0]) + Escaped(text[1..])
  }

  function PrintString(text: seq<byte>): seq<byte> {
    [QUOTE] + Escaped(text) + [QUOTE]
  }

  function Tabs(n: nat): (r: seq<byte>)
    ensures |r| == n && forall i | 0 <= i < n :: r[i] == TAB
  {
    seq(n, _ => TAB)
  }

  function If(c: bool, text: seq<byte>): seq<byte> {
    if c then text else []
  }

  function Print(t: Json, depth: nat, format: bool): seq<byte>
    decreases t
  {
    match t
    case Null => NULL_TEXT
    case Bool(b) => if b then TRUE_TEXT else FALSE_TEXT
    case Num(i) => Decimal(i)
    case Fraction(literal) => literal
    case Str(text) => PrintString(text)
    case Arr(items) => [OPEN_ARRAY] + PrintItems(items, depth + 1, format) + [CLOSE_ARRAY]
    case Obj(members) =>
      [OPEN_OBJECT] + If(format, [NEWLINE]) + PrintMembers(members, depth + 1, format) +
      If(format, Tabs(depth)) + [CLOSE_OBJECT]
  }

  function ItemSeparator(format: bool): seq<byte> {
    if format then [COMMA, SPACE] else [COMMA]
  }

  function PrintItems(items: seq<Json>, depth: nat, format: bool): seq<byte>
    decreases items
  {
    if items == [] then []
    else Print(items[0], depth, format) + If(|items| > 1, ItemSeparator(format)) + PrintItems(items[1..], depth, format)
  }

  function KeySeparator(format: bool): seq<byte> {
    if format then [COLON, TAB] else [COLON]
  }

  function PrintMember(m: Member, depth: nat, format: bool): seq<byte>
    decreases m
  {
    If(format, Tabs(depth)) + PrintString(m.key) + KeySeparator(format) + Print(m.value, depth, format)
  }

  function PrintMembers(members: seq<Member>, depth: nat, format: bool): seq<byte>
    decreases members
  {
    if members == [] then []
    else
      PrintMember(members[0], depth, format) + If(|members| > 1, [COMMA]) + If(format, [NEWLINE]) +
      PrintMembers(members[1..], depth, format)
  }

  // ----- Parsing -----

  type Suffix = seq<byte>

  /** buffer_skip_whitespace: it never leaves the last byte behind. */
  function Skip(s: Suffix): (r: Suffix)
    ensures |r| <= |s| && (s != [] ==> r != [])
  {
    if |s| > 1 && s[0] <= 32 then Skip(s[1..]) else s
  }

  predicate StartsWith(s: Suffix, prefix: seq<byte>) {
    |prefix| <= |s| && s[..|prefix|] == prefix
  }

  /** The next byte is c. */
  predicate At(s: Suffix, c: byte) {
    s != [] && s[0] == c
  }

  // Numbers

  predicate IsNumberByte(b: byte) {
    IsDigit(b) || b == 43 || b == MINUS || b == 46 || b == 69 || b == 101
  }

  function NumberLength(s: Suffix, limit: nat): (n: nat)
    ensures n <= |s| && n <= limit
    decreases |s|
  {
    if limit == 0 || s == [] || !IsNumberByte(s[0]) then 0 else 1 + NumberLength(s[1..], limit - 1)
  }

  function DigitCount(s: Suffix): (n: nat)
    ensures n <= |s| && forall i | 0 <= i < n :: IsDigit(s[i])
  {
    if s == [] || !IsDigit(s[0]) then 0 else 1 + DigitCount(s[1..])
  }

  function DigitsValue(s: seq<byte>): int {
    if s == [] then 0 else DigitsValue(Front(s)) * 10 + (Last(s) as int - 48)
  }

  /** Where strtod stops behind a mantissa: after an exponent, if it is complete. */
  function ExponentEnd(token: seq<byte>, mantissa: nat): (n: nat)
    requires mantissa <= |token|
    ensures mantissa <= n <= |token|
  {
    if mantissa < |token| && token[mantissa] in {69, 101} then
      var signed := mantissa + 1 < |token| && token[mantissa + 1] in {43, MINUS};
      var first := mantissa + if signed then 2 else 1;
      var exponent := DigitCount(token[first..]);
      if exponent > 0 then first + exponent else mantissa
    else mantissa
  }

  /** Where strtod stops, 0 when it finds no number: digits with an optional
      fraction, then an exponent. The sign takes `start` bytes. */
  function StrtodEnd(token: seq<byte>, start: nat): (n: nat)
    requires start <= |token|
    ensures n <= |token|
    ensures n > 0 ==> n >= start + DigitCount(token[start..])
  {
    var whole := start + DigitCount(token[start..]);
    var point := whole < |token| && token[whole] == 46;
    var mantissa := if point then whole + 1 + DigitCount(token[whole + 1..]) else whole;
    if mantissa - start == (if point then 1 else 0) then 0 else ExponentEnd(token, mantissa)
  }

  const NUMBER_BUFFER := 63

  /** The number strtod finds at the front of a token, and where it stops. */
  function Number(token: seq<byte>): (r: Option<(Json, nat)>)
    ensures r.Some? ==> 0 < r.value.1 <= |token|
  {
    var start := if At(token, MINUS) then 1 else 0;
    var end := StrtodEnd(token, start);
    if end == 0 then None
    else if end > start + DigitCount(token[start..]) then Some((Fraction(token[..end]), end))
    else
      var v := DigitsValue(token[start..end]);
      Some((Num(if start == 1 then -v else v), end))
  }

  function ParseNumber(s: Suffix): (r: Option<(Json, Suffix)>)
    ensures r.Some? ==> |r.value.1| < |s|
  {
    var n := Number(s[..NumberLength(s, NUMBER_BUFFER)]);
    if n.None? then None else Some((n.value.0, s[n.value.1..]))
  }

  // Strings

  /** Where the closing quote is, from just after the opening one. */
  function StringEnd(s: Suffix): (n: Option<nat>)
    ensures n.Some? ==> n.value < |s| && s[n.value] == QUOTE
  {
    if s == [] then None
    else if s[0] == QUOTE then Some(0)
    else
      var step := if s[0] == BACKSLASH then 2 else 1;
      if |s| < step then None
      else
        var n := StringEnd(s[step..]);
        if n.None? then None else Some(n.value + step)
  }

  /** The same place, counted from further back. */
  function Later(n: Option<nat>, distance: nat): Option<nat> {
    if n.None? then None else Some(n.value + distance)
  }

  function HexValue(b: byte): (v: Option<nat>)
    ensures v.Some? ==> v.value < 16
  {
    if IsDigit(b) then Some(b - 48)
    else if 65 <= b <= 70 then Some(b - 55)
    else if 97 <= b <= 102 then Some(b - 87)
    else None
  }

  /** parse_hex4: 0 also when a digit is not hexadecimal. */
  function Hex4(s: seq<byte>): (h: nat)
    requires |s| >= 4
    ensures h <= 0xFFFF
  {
    var a, b, c, d := HexValue(s[0]), HexValue(s[1]), HexValue(s[2]), HexValue(s[3]);
    if a.None? || b.None? || c.None? || d.None? then 0
    else ((a.value * 16 + b.value) * 16 + c.value) * 16 + d.value
  }

  function Utf8(cp: nat): seq<byte>
    requires cp <= 0x10_FFFF
  {
    if cp < 0x80 then [cp]
    else if cp < 0x800 then [0xC0 + cp / 0x40, 0x80 + cp % 0x40]
    else if cp < 0x1_0000 then [0xE0 + cp / 0x1000, 0x80 + cp / 0x40 % 0x40, 0x80 + cp % 0x40]
    else [0xF0 + cp / 0x4_0000, 0x80 + cp / 0x1000 % 0x40, 0x80 + cp / 0x40 % 0x40, 0x80 + cp % 0x40]
  }

  /** utf16_literal_to_utf8 with n bytes before the closing quote: the bytes
      written and the bytes read. */
  function Utf16(s: Suffix, n: nat): (r: Option<(seq<byte>, nat)>)
    requires n < |s|
    ensures r.Some? ==> 6 <= r.value.1 <= n
  {
    if n < 6 then None
    else
      var first := Hex4(s[2..6]);
      if 0xDC00 <= first <= 0xDFFF then None
      else if 0xD800 <= first <= 0xDBFF then
        if n < 12 || s[6] != BACKSLASH || s[7] != 117 then None
        else
          var second := Hex4(s[8..12]);
          if second < 0xDC00 || second > 0xDFFF then None
          else Some((Utf8(0x1_0000 + first % 0x400 * 0x400 + second % 0x400), 12))
      else Some((Utf8(first), 6))
  }

  /** The byte an escape letter stands for, 0 when the letter is not one. */
  function Unescape(letter: byte): byte {
    if letter == 98 then 8
    else if letter == 102 then 12
    else if letter == 110 then NEWLINE
    else if letter == 114 then 13
    else if letter == 116 then TAB
    else if letter == QUOTE || letter == BACKSLASH || letter == 47 then letter
    else 0
  }

  /** The bytes written for the element of a string literal at s, n bytes before
      the closing quote, and the bytes read, which may include that quote. */
  function Element(s: Suffix, n: nat): (r: Option<(seq<byte>, nat)>)
    requires 0 < n < |s|
    ensures r.Some? ==> 0 < r.value.1 <= n + 1
  {
    if s[0] != BACKSLASH then Some(([s[0]], 1))
    else if s[1] == 117 then Utf16(s, n)
    else if Unescape(s[1]) == 0 then None
    else Some(([Unescape(s[1])], 2))
  }

  function Decoded(s: Suffix, n: nat): Option<seq<byte>>
    requires n < |s|
    decreases n
  {
    if n == 0 then Some([])
    else
      var e := Element(s, n);
      if e.None? then None
      else if e.value.1 > n then Some(e.value.0)
      else
        var rest := Decoded(s[e.value.1..], n - e.value.1);
        if rest.None? then None else Some(e.value.0 + rest.value)
  }

  function ParseString(s: Suffix): (r: Option<(seq<byte>, Suffix)>)
    ensures r.Some? ==> |r.value.1| < |s| && 0 !in r.value.0
  {
    if !At(s, QUOTE) then None
    else
      var body := s[1..];
      var end := StringEnd(body);
      if end.None? then None
      else
        var text := Decoded(body, end.value);
        if text.None? then None else Some((CString(text.value), body[end.value + 1..]))
  }

  // Values

  function ParseValue(s: Suffix, depth: nat): (r: Option<(Json, Suffix)>)
    ensures r.Some? ==> |r.value.1| < |s|
    decreases |s|, 2
  {
    if StartsWith(s, NULL_TEXT) then Some((Null, s[4..]))
    else if StartsWith(s, FALSE_TEXT) then Some((Bool(false), s[5..]))
    else if StartsWith(s, TRUE_TEXT) then Some((Bool(true), s[4..]))
    else if s == [] then None
    else if s[0] == QUOTE then
      var text := ParseString(s);
      if text.None? then None else Some((Str(text.value.0), text.value.1))
    else if s[0] == MINUS || IsDigit(s[0]) then ParseNumber(s)
    else if s[0] == OPEN_ARRAY then ParseArray(s, depth)
    else if s[0] == OPEN_OBJECT then ParseObject(s, depth)
    else None
  }

  function ParseArray(s: Suffix, depth: nat): (r: Option<(Json, Suffix)>)
    requires s != []
    ensures r.Some? ==> |r.value.1| < |s|
    decreases |s|, 1
  {
    if depth >= NESTING_LIMIT then None
    else
      var inside := Skip(s[1..]);
      if At(inside, CLOSE_ARRAY) then Some((Arr([]), inside[1..]))
      else if inside == [] then None
      else
        var items := ParseItems(inside, depth + 1);
        if items.None? then None else Some((Arr(items.value.0), items.value.1))
  }

  /** The items from here to the closing bracket, which is read too. */
  function ParseItems(s: Suffix, depth: nat): (r: Option<(seq<Json>, Suffix)>)
    ensures r.Some? ==> |r.value.1| < |s|
    decreases |s|, 3
  {
    var first := ParseValue(Skip(s), depth);
    if first.None? then None
    else
      var after := Skip(first.value.1);
      if At(after, COMMA) then
        var rest := ParseItems(after[1..], depth);
        if rest.None? then None else Some(([first.value.0] + rest.value.0, rest.value.1))
      else if At(after, CLOSE_ARRAY) then Some(([first.value.0], after[1..]))
      else None
  }

  function ParseObject(s: Suffix, depth: nat): (r: Option<(Json, Suffix)>)
    requires s != []
    ensures r.Some? ==> |r.value.1| < |s|
    decreases |s|, 1
  {
    if depth >= NESTING_LIMIT then None
    else
      var inside := Skip(s[1..]);
      if At(inside, CLOSE_OBJECT) then Some((Obj([]), inside[1..]))
      else if inside == [] then None
      else
        var members := ParseMembers(inside, depth + 1);
        if members.None? then None else Some((Obj(members.value.0), members.value.1))
  }

  function ParseMember(s: Suffix, depth: nat): (r: Option<(Member, Suffix)>)
    ensures r.Some? ==> |r.value.1| < |s|
    decreases |s|, 3
  {
    var key := ParseString(Skip(s));
    if key.None? then None
    else
      var after := Skip(key.value.1);
      if !At(after, COLON) then None
      else
        var value := ParseValue(Skip(after[1..]), depth);
        if value.None? then None else Some((Member(key.value.0, value.value.0), value.value.1))
  }

  function ParseMembers(s: Suffix, depth: nat): (r: Option<(seq<Member>, Suffix)>)
    ensures r.Some? ==> |r.value.1| < |s|
    decreases |s|, 4
  {
    var first := ParseMember(s, depth);
    if first.None? then None
    else
      var after := Skip(first.value.1);
      if At(after, COMMA) then
        var rest := ParseMembers(after[1..], depth);
        if rest.None? then None else Some(([first.value.0] + rest.value.0, rest.value.1))
      else if At(after, CLOSE_OBJECT) then Some(([first.value.0], after[1..]))
      else None
  }

  const BOM: seq<byte> := [0xEF, 0xBB, 0xBF]

  /** cJSON_ParseWithLengthOpts over content, which includes any final NUL. */
  function ParseContent(content: seq<byte>, terminated: bool): Option<Json> {
    if content == [] then None
    else
      var start := if |content| > 4 && StartsWith(content, BOM) then content[3..] else content;
      var value := ParseValue(Skip(start), 0);
      if value.None? then None
      else if terminated && !At(Skip(value.value.1), 0) then None
      else Some(value.value.0)
  }

  /** cJSON_Parse: text is a C string, parsed with its NUL. */
  function Parse(text: seq<byte>, terminated: bool): Option<Json> {
    ParseContent(text + [0], terminated)
  }
}
