/** Every text that RFC 8259 allows, with its layout, its escapes and its digits as
    they stand, and the tree it denotes: the parser reads that tree from it. */
module JsonText {
  import opened Prelude
  import opened Bytes
  import opened Json

  // ----- Texts -----

  /** Space, tab, line feed and carriage return. */
  predicate Blank(s: seq<byte>) {
    forall i | 0 <= i < |s| :: s[i] in {32, 9, 10, 13}
  }

  predicate AllDigits(s: seq<byte>) {
    s != [] && forall i | 0 <= i < |s| :: 48 <= s[i] <= 57
  }

  /** One element of a string: a byte that stands for itself, a two-character
      escape, or \uXXXX, twice for a code point above 0xFFFF. */
  datatype Piece = Raw(b: byte) | Short(letter: byte) | Unicode(point: nat, digits: seq<byte>)

  datatype Exponent = Exponent(mark: byte, sign: seq<byte>, digits: seq<byte>)

  /** A JSON text. pad is the blank space in an empty list. */
  datatype Doc =
    | Nothing
    | Truth(b: bool)
    | Whole(negative: bool, digits: seq<byte>)
    | Real(negative: bool, digits: seq<byte>, fraction: seq<byte>, exponent: Option<Exponent>)
    | Quoted(pieces: seq<Piece>)
    | Row(slots: seq<Slot>, pad: seq<byte>)
    | Table(entries: seq<Entry>, pad: seq<byte>)

  datatype Slot = Slot(before: seq<byte>, item: Doc, after: seq<byte>)

  datatype Entry = Entry(before: seq<byte>, key: seq<Piece>, colon: seq<byte>, gap: seq<byte>, value: Doc,
    after: seq<byte>)

  // ----- Strings as they are written -----

  /** The digit spells the value, in either case of letters. */
  predicate Spells(digit: byte, value: nat) {
    value < 16 && if value < 10 then digit == 48 + value else digit == 55 + value || digit == 87 + value
  }

  predicate SpellsUnit(digits: seq<byte>, unit: nat) {
    && |digits| == 4 && unit <= 0xFFFF
    && Spells(digits[0], unit / 0x1000) && Spells(digits[1], unit / 0x100 % 16)
    && Spells(digits[2], unit / 16 % 16) && Spells(digits[3], unit % 16)
  }

  /** UTF-16: one unit, or a high and a low surrogate. */
  predicate SpellsPoint(digits: seq<byte>, point: nat) {
    if point <= 0xFFFF then SpellsUnit(digits, point) && !(0xD800 <= point <= 0xDFFF)
    else
      && point <= 0x10_FFFF && |digits| == 8
      && SpellsUnit(digits[..4], 0xD800 + (point - 0x1_0000) / 0x400)
      && SpellsUnit(digits[4..], 0xDC00 + (point - 0x1_0000) % 0x400)
  }

  /** The byte a two-character escape stands for, none when it is no escape. */
  function ShortMeaning(letter: byte): Option<byte> {
    match letter
    case 34 => Some(34)  // quotation mark
    case 92 => Some(92)  // backslash
    case 47 => Some(47)  // slash
    case 98 => Some(8)   // b, backspace
    case 102 => Some(12) // f, form feed
    case 110 => Some(10) // n, line feed
    case 114 => Some(13) // r, carriage return
    case 116 => Some(9)  // t, tab
    case _ => None
  }

  predicate PieceAllowed(p: Piece) {
    match p
    case Raw(b) => b >= 32 && b != 34 && b != 92
    case Short(letter) => ShortMeaning(letter).Some?
    case Unicode(point, digits) => SpellsPoint(digits, point)
  }

  predicate PiecesAllowed(ps: seq<Piece>) {
    forall i | 0 <= i < |ps| :: PieceAllowed(ps[i])
  }

  function PieceText(p: Piece): seq<byte> {
    match p
    case Raw(b) => [b]
    case Short(letter) => [92, letter]
    case Unicode(_, digits) => [92, 117] + Take(digits, 4) + if |digits| == 8 then [92, 117] + digits[4..] else []
  }

  /** The bytes an element stands for. */
  function PieceMeaning(p: Piece): seq<byte> {
    match p
    case Raw(b) => [b]
    case Short(letter) => if ShortMeaning(letter).Some? then [ShortMeaning(letter).value] else []
    case Unicode(point, _) => if point <= 0x10_FFFF then Utf8(point) else []
  }

  function PiecesText(ps: seq<Piece>): seq<byte> {
    if ps == [] then [] else PieceText(ps[0]) + PiecesText(ps[1..])
  }

  function PiecesMeaning(ps: seq<Piece>): seq<byte> {
    if ps == [] then [] else PieceMeaning(ps[0]) + PiecesMeaning(ps[1..])
  }

  function QuotedText(ps: seq<Piece>): seq<byte> {
    [34] + PiecesText(ps) + [34]
  }

  // ----- UTF-8 -----

  predicate Follows(b: byte) {
    b / 0x40 == 2
  }

  /** Six more bits of a code point. */
  function Six(high: nat, b: byte): nat {
    high * 0x40 + b % 0x40
  }

  function AtLeast(least: nat, point: nat, bytes: nat): Option<(nat, nat)> {
    if point < least then None else Some((point, bytes))
  }

  /** The code point at the front of UTF-8 bytes and how many bytes it takes, by the
      bit patterns 0xxxxxxx, 110xxxxx, 1110xxxx and 11110xxx with 10xxxxxx behind;
      none for a longer form than needed. */
  function ReadUtf8(s: seq<byte>): Option<(nat, nat)> {
    if |s| >= 1 && s[0] / 0x80 == 0 then Some((s[0] as nat, 1))
    else if |s| >= 2 && s[0] / 0x20 == 6 && Follows(s[1]) then AtLeast(0x80, Six(s[0] % 0x20, s[1]), 2)
    else if |s| >= 3 && s[0] / 0x10 == 14 && Follows(s[1]) && Follows(s[2]) then
      AtLeast(0x800, Six(Six(s[0] % 0x10, s[1]), s[2]), 3)
    else if |s| >= 4 && s[0] / 8 == 30 && Follows(s[1]) && Follows(s[2]) && Follows(s[3]) then
      AtLeast(0x1_0000, Six(Six(Six(s[0] % 8, s[1]), s[2]), s[3]), 4)
    else None
  }

  lemma SixMore(point: nat)
    ensures Follows(0x80 + point % 0x40) && Six(point / 0x40, 0x80 + point % 0x40) == point
    ensures point / 0x1000 == point / 0x40 / 0x40 && point / 0x4_0000 == point / 0x40 / 0x40 / 0x40
  {
  }

  lemma Utf8Front(point: nat, rest: seq<byte>)
    requires point <= 0x10_FFFF
    ensures var s := Utf8(point) + rest;
      && |s| >= |Utf8(point)| && forall k | 0 <= k < |Utf8(point)| :: s[k] == Utf8(point)[k]
  {
  }

  /** What an escape is turned into is the UTF-8 of its code point, in the fewest bytes. */
  lemma Utf8Reads(point: nat, rest: seq<byte>)
    requires point <= 0x10_FFFF
    ensures ReadUtf8(Utf8(point) + rest) == Some((point, |Utf8(point)|))
  {
    Utf8Front(point, rest);
    SixMore(point);
    if point >= 0x800 {
      SixMore(point / 0x40);
    }
    if point >= 0x1_0000 {
      SixMore(point / 0x1000);
      FourBytes(point, Utf8(point) + rest);
    } else if point >= 0x800 {
      ThreeBytes(point, Utf8(point) + rest);
    }
  }

  lemma ThreeBytes(point: nat, s: seq<byte>)
    requires 0x800 <= point < 0x1_0000 && |s| >= 3
    requires s[..3] == [0xE0 + point / 0x1000, 0x80 + point / 0x40 % 0x40, 0x80 + point % 0x40]
    ensures ReadUtf8(s) == Some((point, 3))
  {
    SixMore(point);
    SixMore(point / 0x40);
    assert s[0] == s[..3][0] && s[1] == s[..3][1] && s[2] == s[..3][2];
  }

  lemma FourBytes(point: nat, s: seq<byte>)
    requires 0x1_0000 <= point <= 0x10_FFFF && |s| >= 4
    requires s[..4] ==
      [0xF0 + point / 0x4_0000, 0x80 + point / 0x1000 % 0x40, 0x80 + point / 0x40 % 0x40, 0x80 + point % 0x40]
    ensures ReadUtf8(s) == Some((point, 4))
  {
    SixMore(point);
    SixMore(point / 0x40);
    SixMore(point / 0x1000);
    assert s[0] == s[..4][0] && s[1] == s[..4][1] && s[2] == s[..4][2] && s[3] == s[..4][3];
  }

  // ----- Numbers -----

  function Pow10(k: nat): (p: nat)
    ensures p > 0
  {
    if k == 0 then 1 else 10 * Pow10(k - 1)
  }

  /** The number decimal digits stand for. */
  function Value(digits: seq<byte>): int {
    if digits == [] then 0 else (digits[0] as int - 48) * Pow10(|digits| - 1) + Value(digits[1..])
  }

  function Sign(negative: bool): seq<byte> {
    if negative then [45] else []
  }

  function Signed(negative: bool, v: int): int {
    if negative then -v else v
  }

  /** A point and digits, if there are any. */
  function FractionText(fraction: seq<byte>): seq<byte> {
    if fraction == [] then [] else [46] + fraction
  }

  function ExponentText(e: Option<Exponent>): seq<byte> {
    if e.None? then [] else [e.value.mark] + e.value.sign + e.value.digits
  }

  predicate ExponentAllowed(e: Option<Exponent>) {
    e.Some? ==> e.value.mark in {69, 101} && e.value.sign in {[], [43], [45]} && AllDigits(e.value.digits)
  }

  // ----- Values as they are written -----

  function Text(d: Doc): seq<byte>
    decreases d
  {
    match d
    case Nothing => [110, 117, 108, 108]
    case Truth(b) => if b then [116, 114, 117, 101] else [102, 97, 108, 115, 101]
    case Whole(negative, digits) => Sign(negative) + digits
    case Real(negative, digits, fraction, exponent) =>
      Sign(negative) + digits + FractionText(fraction) + ExponentText(exponent)
    case Quoted(pieces) => QuotedText(pieces)
    case Row(slots, pad) => [91] + if slots == [] then pad + [93] else SlotsText(slots)
    case Table(entries, pad) => [123] + if entries == [] then pad + [125] else EntriesText(entries)
  }

  function SlotText(s: Slot): seq<byte>
    decreases s
  {
    s.before + Text(s.item) + s.after
  }

  /** The slots up to the closing bracket, with it. */
  function SlotsText(slots: seq<Slot>): seq<byte>
    decreases slots
  {
    if slots == [] then [] else SlotText(slots[0]) + if |slots| == 1 then [93] else [44] + SlotsText(slots[1..])
  }

  function EntryText(e: Entry): seq<byte>
    decreases e
  {
    e.before + QuotedText(e.key) + e.colon + [58] + e.gap + Text(e.value) + e.after
  }

  function EntriesText(entries: seq<Entry>): seq<byte>
    decreases entries
  {
    if entries == [] then []
    else EntryText(entries[0]) + if |entries| == 1 then [125] else [44] + EntriesText(entries[1..])
  }

  function Meaning(d: Doc): Json
    decreases d
  {
    match d
    case Nothing => Null
    case Truth(b) => Bool(b)
    case Whole(negative, digits) => Num(Signed(negative, Value(digits)))
    case Real(_, _, _, _) => Fraction(Text(d))
    case Quoted(pieces) => Str(CString(PiecesMeaning(pieces)))
    case Row(slots, _) => Arr(SlotsMeaning(slots))
    case Table(entries, _) => Obj(EntriesMeaning(entries))
  }

  function SlotMeaning(s: Slot): Json
    decreases s
  {
    Meaning(s.item)
  }

  function SlotsMeaning(slots: seq<Slot>): seq<Json>
    decreases slots
  {
    if slots == [] then [] else [SlotMeaning(slots[0])] + SlotsMeaning(slots[1..])
  }

  function EntryMeaning(e: Entry): Member
    decreases e
  {
    Member(CString(PiecesMeaning(e.key)), Meaning(e.value))
  }

  function EntriesMeaning(entries: seq<Entry>): seq<Member>
    decreases entries
  {
    if entries == [] then [] else [EntryMeaning(entries[0])] + EntriesMeaning(entries[1..])
  }

  predicate Allowed(d: Doc)
    decreases d
  {
    match d
    case Nothing => true
    case Truth(_) => true
    case Whole(_, digits) => AllDigits(digits) && |Text(d)| <= 63
    case Real(_, digits, fraction, exponent) =>
      && AllDigits(digits) && (fraction != [] ==> AllDigits(fraction)) && ExponentAllowed(exponent)
      && (fraction != [] || exponent.Some?) && |Text(d)| <= 63
    case Quoted(pieces) => PiecesAllowed(pieces)
    case Row(slots, pad) => Blank(pad) && SlotsAllowed(slots)
    case Table(entries, pad) => Blank(pad) && EntriesAllowed(entries)
  }

  predicate SlotAllowed(s: Slot)
    decreases s
  {
    Blank(s.before) && Blank(s.after) && Allowed(s.item)
  }

  predicate SlotsAllowed(slots: seq<Slot>)
    decreases slots
  {
    slots == [] || (SlotAllowed(slots[0]) && SlotsAllowed(slots[1..]))
  }

  predicate EntryAllowed(e: Entry)
    decreases e
  {
    Blank(e.before) && Blank(e.colon) && Blank(e.gap) && Blank(e.after) && PiecesAllowed(e.key) && Allowed(e.value)
  }

  predicate EntriesAllowed(entries: seq<Entry>)
    decreases entries
  {
    entries == [] || (EntryAllowed(entries[0]) && EntriesAllowed(entries[1..]))
  }
}
