/** What is printed, formatted or not, is a JSON text of the tree; parsing it gives
    back the tree exactly when it nests no deeper than the limit. */
module JsonRoundTrip {
  import opened Prelude
  import opened Bytes
  import opened Json
  import opened JsonText
  import opened JsonReading

  // ----- The text a tree is printed as -----

  function PieceOf(c: byte): Piece {
    if EscapeLetter(c) != 0 then Short(EscapeLetter(c))
    else if c < 32 then Unicode(c, [48, 48, HexDigit(c / 16), HexDigit(c % 16)])
    else Raw(c)
  }

  function PiecesOf(text: seq<byte>): seq<Piece> {
    if text == [] then [] else [PieceOf(text[0])] + PiecesOf(text[1..])
  }

  function DocOf(t: Json, depth: nat, format: bool): Doc
    decreases t
  {
    match t
    case Null => Nothing
    case Bool(b) => Truth(b)
    case Num(i) => Whole(i < 0, Digits(if i < 0 then -i else i))
    case Fraction(_) => Nothing
    case Str(text) => Quoted(PiecesOf(text))
    case Arr(items) => Row(SlotsOf(items, depth + 1, format, []), [])
    case Obj(members) => Table(EntriesOf(members, depth, format), LineAt(depth, format))
  }

  /** A new line, indented. */
  function LineAt(depth: nat, format: bool): seq<byte> {
    If(format, [NEWLINE]) + If(format, Tabs(depth))
  }

  function SlotsOf(items: seq<Json>, depth: nat, format: bool, before: seq<byte>): seq<Slot>
    decreases items
  {
    if items == [] then []
    else [Slot(before, DocOf(items[0], depth, format), [])] + SlotsOf(items[1..], depth, format, If(format, [SPACE]))
  }

  function EntryOf(m: Member, depth: nat, format: bool, last: bool): Entry
    decreases m
  {
    Entry(LineAt(depth + 1, format), PiecesOf(m.key), [], If(format, [TAB]), DocOf(m.value, depth + 1, format),
          if last then LineAt(depth, format) else [])
  }

  function EntriesOf(members: seq<Member>, depth: nat, format: bool): seq<Entry>
    decreases members
  {
    if members == [] then []
    else [EntryOf(members[0], depth, format, |members| == 1)] + EntriesOf(members[1..], depth, format)
  }

  // ----- Strings -----

  lemma PieceBack(c: byte)
    requires c != 0
    ensures PieceAllowed(PieceOf(c)) && PieceText(PieceOf(c)) == Escape(c) && PieceMeaning(PieceOf(c)) == [c]
  {
  }

  lemma {:induction false} PiecesBack(text: seq<byte>)
    requires 0 !in text
    ensures PiecesAllowed(PiecesOf(text)) && PiecesText(PiecesOf(text)) == Escaped(text)
    ensures PiecesMeaning(PiecesOf(text)) == text
  {
    if text != [] {
      assert text[0] in text;
      PieceBack(text[0]);
      PiecesBack(text[1..]);
      assert PiecesOf(text)[1..] == PiecesOf(text[1..]);
    }
  }

  /** A printed string is read back. */
  lemma StringBack(text: seq<byte>, rest: Suffix)
    requires 0 !in text
    ensures ParseString(PrintString(text) + rest) == Some((text, rest))
  {
    PiecesBack(text);
    StringReads(PiecesOf(text), rest);
    CStringWhole(text);
  }

  // ----- Numbers -----

  lemma {:induction false} DigitsBack(n: nat)
    ensures Value(Digits(n)) == n
  {
    if n >= 10 {
      DigitsBack(n / 10);
      ValueMore(Digits(n / 10), 48 + n % 10);
    } else {
      assert Digits(n)[1..] == [];
    }
  }

  lemma {:induction false} DigitsLength(n: nat, k: nat)
    requires k > 0 && n < Pow10(k)
    ensures |Digits(n)| <= k
  {
    if n >= 10 {
      assert Pow10(k) == 10 * Pow10(k - 1);
      DigitsLength(n / 10, k - 1);
    }
  }

  lemma IntBack(i: int)
    requires INT_MIN <= i <= INT_MAX
    ensures var d := Whole(i < 0, Digits(if i < 0 then -i else i));
      Allowed(d) && Text(d) == Decimal(i) && Meaning(d) == Num(i)
  {
    var n := if i < 0 then -i else i;
    assert Pow10(10) == 10000000000 by {
      assert Pow10(5) == 100000;
    }
    DigitsLength(n, 10);
    DigitsBack(n);
  }

  /** A printed integer is read back. */
  lemma NumberBack(i: int, rest: Suffix)
    requires INT_MIN <= i <= INT_MAX && Ends(rest)
    ensures ParseNumber(Decimal(i) + rest) == Some((Num(i), rest))
  {
    IntBack(i);
    WholeReads(Whole(i < 0, Digits(if i < 0 then -i else i)), rest);
  }

  // ----- Trees -----

  lemma LineBlank(depth: nat, format: bool)
    ensures Blank(LineAt(depth, format))
  {
  }

  /** The layout denotes the tree and follows the grammar. */
  lemma {:induction false} DocBack(t: Json, depth: nat, format: bool)
    requires Plain(t)
    ensures Allowed(DocOf(t, depth, format)) && Meaning(DocOf(t, depth, format)) == t
    decreases t
  {
    match t
    case Null =>
    case Bool(_) =>
    case Num(i) => IntBack(i);
    case Str(text) =>
      PiecesBack(text);
      CStringWhole(text);
    case Arr(items) => SlotsBack(items, depth + 1, format, []);
    case Obj(members) =>
      LineBlank(depth, format);
      EntriesBack(members, depth, format);
  }

  lemma {:induction false} SlotsBack(items: seq<Json>, depth: nat, format: bool, before: seq<byte>)
    requires PlainItems(items) && Blank(before)
    ensures var slots := SlotsOf(items, depth, format, before); SlotsAllowed(slots) && SlotsMeaning(slots) == items
    decreases items
  {
    if items != [] {
      DocBack(items[0], depth, format);
      SlotsBack(items[1..], depth, format, If(format, [SPACE]));
      var slots := SlotsOf(items, depth, format, before);
      assert slots[1..] == SlotsOf(items[1..], depth, format, If(format, [SPACE]));
      assert SlotsMeaning(slots) == [items[0]] + items[1..];
    }
  }

  lemma {:induction false} EntryBack(m: Member, depth: nat, format: bool, last: bool)
    requires PlainMember(m)
    ensures EntryAllowed(EntryOf(m, depth, format, last)) && EntryMeaning(EntryOf(m, depth, format, last)) == m
    decreases m
  {
    LineBlank(depth + 1, format);
    LineBlank(depth, format);
    PiecesBack(m.key);
    CStringWhole(m.key);
    DocBack(m.value, depth + 1, format);
  }

  lemma MoreMembers(e: Entry, es: seq<Entry>)
    requires EntryAllowed(e) && EntriesAllowed(es)
    ensures EntriesAllowed([e] + es) && EntriesMeaning([e] + es) == [EntryMeaning(e)] + EntriesMeaning(es)
  {
    assert ([e] + es)[1..] == es;
  }

  lemma {:induction false} EntriesBack(members: seq<Member>, depth: nat, format: bool)
    requires PlainMembers(members)
    ensures var es := EntriesOf(members, depth, format); EntriesAllowed(es) && EntriesMeaning(es) == members
    decreases members
  {
    if members != [] {
      EntryBack(members[0], depth, format, |members| == 1);
      EntriesBack(members[1..], depth, format);
      MoreMembers(EntryOf(members[0], depth, format, |members| == 1), EntriesOf(members[1..], depth, format));
      assert [members[0]] + members[1..] == members;
    }
  }

  // ----- The printer writes that text -----

  lemma {:induction false} DocPrinted(t: Json, depth: nat, format: bool)
    requires Plain(t)
    ensures Text(DocOf(t, depth, format)) == Print(t, depth, format)
    decreases t
  {
    match t
    case Null =>
    case Bool(_) =>
    case Num(i) => IntBack(i);
    case Str(text) => PiecesBack(text);
    case Arr(items) =>
      if items != [] {
        SlotsPrinted(items, depth + 1, format, []);
        assert [] + PrintItems(items, depth + 1, format) == PrintItems(items, depth + 1, format);
      }
    case Obj(members) =>
      if members != [] {
        EntriesPrinted(members, depth, format);
      }
      ObjectPrinted(members, depth, format);
  }

  lemma ObjectPrinted(members: seq<Member>, depth: nat, format: bool)
    requires members != [] ==>
      EntriesText(EntriesOf(members, depth, format)) ==
      If(format, [NEWLINE]) + PrintMembers(members, depth + 1, format) + If(format, Tabs(depth)) + [CLOSE_OBJECT]
    ensures Text(DocOf(Obj(members), depth, format)) == Print(Obj(members), depth, format)
  {
    var lines, tabs := If(format, [NEWLINE]), If(format, Tabs(depth));
    if members == [] {
      assert [OPEN_OBJECT] + lines + [] + tabs + [CLOSE_OBJECT] == [OPEN_OBJECT] + (lines + tabs + [CLOSE_OBJECT]);
    } else {
      FourParts(lines, PrintMembers(members, depth + 1, format), tabs);
    }
  }

  lemma FourParts(a: seq<byte>, b: seq<byte>, c: seq<byte>)
    ensures [123] + (a + b + c + [125]) == [123] + a + b + c + [125]
  {
  }

  lemma {:induction false} SlotsPrinted(items: seq<Json>, depth: nat, format: bool, before: seq<byte>)
    requires items != [] && PlainItems(items)
    ensures SlotsText(SlotsOf(items, depth, format, before)) ==
      before + PrintItems(items, depth, format) + [CLOSE_ARRAY]
    decreases items
  {
    var slots, text := SlotsOf(items, depth, format, before), Print(items[0], depth, format);
    DocPrinted(items[0], depth, format);
    assert SlotText(slots[0]) == before + text;
    if |items| == 1 {
      assert items[1..] == [];
      assert PrintItems(items, depth, format) == text;
    } else {
      var gap, others := If(format, [SPACE]), PrintItems(items[1..], depth, format);
      SlotsPrinted(items[1..], depth, format, gap);
      assert slots[1..] == SlotsOf(items[1..], depth, format, gap);
      MoreSlots(before, text, gap, others);
      assert ItemSeparator(format) == [COMMA] + gap;
    }
  }

  lemma MoreSlots(before: seq<byte>, text: seq<byte>, gap: seq<byte>, others: seq<byte>)
    ensures before + text + ([44] + (gap + others + [93])) == before + (text + ([44] + gap) + others) + [93]
  {
  }

  lemma {:induction false} EntryPrinted(m: Member, depth: nat, format: bool, last: bool)
    requires PlainMember(m)
    ensures EntryText(EntryOf(m, depth, format, last)) ==
      If(format, [NEWLINE]) + PrintMember(m, depth + 1, format) + if last then LineAt(depth, format) else []
    decreases m
  {
    DocPrinted(m.value, depth + 1, format);
    PiecesBack(m.key);
    assert KeySeparator(format) == [COLON] + If(format, [TAB]);
    MemberParts(If(format, [NEWLINE]), If(format, Tabs(depth + 1)), PrintString(m.key), If(format, [TAB]),
                Print(m.value, depth + 1, format), if last then LineAt(depth, format) else []);
  }

  lemma MemberParts(a: seq<byte>, b: seq<byte>, c: seq<byte>, d: seq<byte>, e: seq<byte>, f: seq<byte>)
    ensures a + b + c + [] + [58] + d + e + f == a + (b + c + ([58] + d) + e) + f
  {
  }

  lemma {:induction false} EntriesPrinted(members: seq<Member>, depth: nat, format: bool)
    requires members != [] && PlainMembers(members)
    ensures EntriesText(EntriesOf(members, depth, format)) ==
      If(format, [NEWLINE]) + PrintMembers(members, depth + 1, format) + If(format, Tabs(depth)) + [CLOSE_OBJECT]
    decreases members
  {
    var es, line := EntriesOf(members, depth, format), If(format, [NEWLINE]);
    var m := PrintMember(members[0], depth + 1, format);
    EntryPrinted(members[0], depth, format, |members| == 1);
    if |members| == 1 {
      assert members[1..] == [];
      OneEntryPrinted(line, m, If(format, Tabs(depth)));
    } else {
      EntriesPrinted(members[1..], depth, format);
      assert es[1..] == EntriesOf(members[1..], depth, format);
      MoreEntries(line, m, PrintMembers(members[1..], depth + 1, format), If(format, Tabs(depth)));
    }
  }

  lemma OneEntryPrinted(line: seq<byte>, m: seq<byte>, tabs: seq<byte>)
    ensures line + m + (line + tabs) + [125] == line + (m + [] + line + []) + tabs + [125]
  {
  }

  lemma MoreEntries(line: seq<byte>, m: seq<byte>, others: seq<byte>, tabs: seq<byte>)
    ensures line + m + [] + ([44] + (line + others + tabs + [125])) == line + (m + [44] + line + others) + tabs + [125]
  {
  }

  // ----- Round trip -----

  /** What is printed is a JSON text of the tree, in both forms. */
  lemma PrintedIsText(t: Json, format: bool)
    requires Plain(t)
    ensures var d := DocOf(t, 0, format); Allowed(d) && Meaning(d) == t && Text(d) == Print(t, 0, format)
  {
    DocBack(t, 0, format);
    DocPrinted(t, 0, format);
  }

  /** Parsing the printed form of a tree of null, booleans, int-range integers,
      C strings, arrays and objects gives back that tree, in order, if and only if
      its nesting is within the parser's limit; otherwise parsing fails. This holds
      for both forms of printing and with or without the check for trailing text. */
  lemma RoundTrip(t: Json, format: bool, terminated: bool)
    requires Plain(t)
    ensures Parse(Print(t, 0, format), terminated) == if Nesting(t) <= NESTING_LIMIT then Some(t) else None
  {
    var d := DocOf(t, 0, format);
    PrintedIsText(t, format);
    EveryTextIsRead(d, false, [], [], terminated);
    assert Mark(false) + [] + Text(d) + [] == Text(d);
  }

  // ----- Layout -----

  /** [true,null], with a space behind the comma when formatted. */
  lemma ArrayPrinted(format: bool)
    ensures Print(Arr([Bool(true), Null]), 0, format) ==
      [91, 116, 114, 117, 101, 44] + (if format then [32] else []) + [110, 117, 108, 108, 93]
  {
    assert [Bool(true), Null][1..] == [Null] && [Null][1..] == [];
    assert PrintItems([], 1, format) == [];
    assert PrintItems([Null], 1, format) == NULL_TEXT;
  }

  /** {"a":1}. */
  lemma ObjectPrintedPlain()
    ensures Print(Obj([Member([97], Num(1))]), 0, false) == [123, 34, 97, 34, 58, 49, 125]
  {
    KeyPrinted();
    OneMemberPrinted(Member([97], Num(1)), 1, false);
  }

  /** The same formatted: the member on a line of its own, with tabs. */
  lemma ObjectPrintedOnLines()
    ensures Print(Obj([Member([97], Num(1))]), 0, true) == [123, 10, 9, 34, 97, 34, 58, 9, 49, 10, 125]
  {
    KeyPrinted();
    assert Tabs(1) == [9] && Tabs(0) == [];
    OneMemberPrinted(Member([97], Num(1)), 1, true);
  }

  lemma KeyPrinted()
    ensures PrintString([97]) == [34, 97, 34] && Decimal(1) == [49]
  {
    assert [97][1..] == [];
  }

  lemma OneMemberPrinted(m: Member, depth: nat, format: bool)
    ensures PrintMembers([m], depth, format) == PrintMember(m, depth, format) + If(format, [10])
  {
    assert [m][1..] == [];
    assert PrintMembers([], depth, format) == [];
  }

  /** Arrays nested n deep. */
  function Nested(n: nat): Json {
    if n == 0 then Null else Arr([Nested(n - 1)])
  }

  lemma {:induction false} NestedDepth(n: nat)
    ensures Plain(Nested(n)) && Nesting(Nested(n)) == n
  {
    if n > 0 {
      NestedDepth(n - 1);
      assert [Nested(n - 1)][1..] == [];
      assert NestingOfItems([Nested(n - 1)][1..]) == 0;
    }
  }

  /** One level more than the limit is printed but not read back. */
  lemma TooDeepIsNotReadBack(format: bool, terminated: bool)
    ensures Parse(Print(Nested(NESTING_LIMIT + 1), 0, format), terminated) == None
    ensures Parse(Print(Nested(NESTING_LIMIT), 0, format), terminated) == Some(Nested(NESTING_LIMIT))
  {
    NestedDepth(NESTING_LIMIT + 1);
    NestedDepth(NESTING_LIMIT);
    RoundTrip(Nested(NESTING_LIMIT + 1), format, terminated);
    RoundTrip(Nested(NESTING_LIMIT), format, terminated);
  }
}
