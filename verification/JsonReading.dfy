/** The parser of app/cJSON.c reads from every allowed text the tree it denotes,
    within the nesting limit. */
module JsonReading {
  import opened Prelude
  import opened Bytes
  import opened Json
  import opened JsonText

  // ----- Reading a string -----

  lemma UnitReads(digits: seq<byte>, unit: nat)
    requires SpellsUnit(digits, unit)
    ensures Hex4(digits) == unit && 34 !in digits && 92 !in digits
  {
    DigitReads(digits[0], unit / 0x1000);
    DigitReads(digits[1], unit / 0x100 % 16);
    DigitReads(digits[2], unit / 16 % 16);
    DigitReads(digits[3], unit % 16);
    FourNibbles(unit);
  }

  lemma DigitReads(digit: byte, value: nat)
    requires Spells(digit, value)
    ensures HexValue(digit) == Some(value) && digit != 34 && digit != 92
  {
  }

  lemma FourNibbles(unit: nat)
    requires unit <= 0xFFFF
    ensures ((unit / 0x1000 * 16 + unit / 0x100 % 16) * 16 + unit / 16 % 16) * 16 + unit % 16 == unit
  {
  }

  lemma {:induction false} EndPassesPlain(plain: seq<byte>, rest: Suffix)
    requires QUOTE !in plain && BACKSLASH !in plain
    ensures StringEnd(plain + rest) == Later(StringEnd(rest), |plain|)
  {
    if plain == [] {
      assert plain + rest == rest;
    } else {
      assert plain[0] in plain;
      assert (plain + rest)[1..] == plain[1..] + rest;
      EndPassesPlain(plain[1..], rest);
    }
  }

  /** Scanning passes an escape and the plain bytes behind it. */
  lemma EndPassesEscape(letter: byte, plain: seq<byte>, rest: Suffix)
    requires QUOTE !in plain && BACKSLASH !in plain
    ensures StringEnd([92, letter] + plain + rest) == Later(StringEnd(rest), 2 + |plain|)
  {
    var s := [92, letter] + plain + rest;
    assert s[2..] == plain + rest;
    EndPassesPlain(plain, rest);
  }

  lemma EndPassesPair(first: seq<byte>, second: seq<byte>, rest: Suffix)
    requires QUOTE !in first && BACKSLASH !in first && QUOTE !in second && BACKSLASH !in second
    ensures StringEnd([92, 117] + first + [92, 117] + second + rest) ==
      Later(StringEnd(rest), 4 + |first| + |second|)
  {
    EndPassesEscape(117, second, rest);
    EndPassesEscape(117, first, [92, 117] + second + rest);
    assert [92, 117] + first + [92, 117] + second + rest == [92, 117] + first + ([92, 117] + second + rest);
  }

  lemma UnicodeText(p: Piece)
    requires PieceAllowed(p) && p.Unicode?
    ensures if p.point <= 0xFFFF then p.digits[..4] == p.digits && PieceText(p) == [92, 117] + p.digits
      else PieceText(p) == [92, 117] + p.digits[..4] + [92, 117] + p.digits[4..]
  {
  }

  lemma EndPassesPiece(p: Piece, rest: Suffix)
    requires PieceAllowed(p)
    ensures StringEnd(PieceText(p) + rest) == Later(StringEnd(rest), |PieceText(p)|)
  {
    match p
    case Raw(b) => EndPassesPlain([b], rest);
    case Short(letter) =>
      EndPassesEscape(letter, [], rest);
      assert [92, letter] + [] == [92, letter];
    case Unicode(point, digits) =>
      UnicodeText(p);
      if point <= 0xFFFF {
        UnitReads(digits, point);
        EndPassesEscape(117, digits, rest);
      } else {
        UnitReads(digits[..4], 0xD800 + (point - 0x1_0000) / 0x400);
        UnitReads(digits[4..], 0xDC00 + (point - 0x1_0000) % 0x400);
        EndPassesPair(digits[..4], digits[4..], rest);
      }
  }

  /** The pair of surrogates of a code point gives it back. */
  lemma PairReads(point: nat, high: nat, low: nat)
    requires 0xFFFF < point <= 0x10_FFFF
    requires high == 0xD800 + (point - 0x1_0000) / 0x400 && low == 0xDC00 + (point - 0x1_0000) % 0x400
    ensures 0xD800 <= high <= 0xDBFF && 0xDC00 <= low <= 0xDFFF
    ensures 0x1_0000 + high % 0x400 * 0x400 + low % 0x400 == point
  {
  }

  lemma UnitElement(digits: seq<byte>, point: nat, rest: Suffix, n: nat)
    requires SpellsUnit(digits, point) && !(0xD800 <= point <= 0xDFFF) && 6 <= n < 6 + |rest|
    ensures Element([92, 117] + digits + rest, n) == Some((Utf8(point), 6))
  {
    UnitReads(digits, point);
    var s := [92, 117] + digits + rest;
    assert s[2..6] == digits;
  }

  lemma PairParts(first: seq<byte>, second: seq<byte>, rest: Suffix)
    requires |first| == 4 && |second| == 4
    ensures var s := [92, 117] + first + [92, 117] + second + rest;
      s[0] == 92 && s[1] == 117 && s[2..6] == first && s[6] == 92 && s[7] == 117 && s[8..12] == second
  {
  }

  lemma PairElement(first: seq<byte>, second: seq<byte>, point: nat, rest: Suffix, n: nat)
    requires 0xFFFF < point <= 0x10_FFFF && 12 <= n < 12 + |rest|
    requires SpellsUnit(first, 0xD800 + (point - 0x1_0000) / 0x400)
    requires SpellsUnit(second, 0xDC00 + (point - 0x1_0000) % 0x400)
    ensures Element([92, 117] + first + [92, 117] + second + rest, n) == Some((Utf8(point), 12))
  {
    var high, low := 0xD800 + (point - 0x1_0000) / 0x400, 0xDC00 + (point - 0x1_0000) % 0x400;
    UnitReads(first, high);
    UnitReads(second, low);
    PairReads(point, high, low);
    PairParts(first, second, rest);
    PairUtf16([92, 117] + first + [92, 117] + second + rest, n, point, high, low);
  }

  lemma PairUtf16(s: Suffix, n: nat, point: nat, high: nat, low: nat)
    requires 12 <= n < |s| && point <= 0x10_FFFF && s[0] == 92 && s[1] == 117 && s[6] == 92 && s[7] == 117
    requires Hex4(s[2..6]) == high && 0xD800 <= high <= 0xDBFF && Hex4(s[8..12]) == low && 0xDC00 <= low <= 0xDFFF
    requires 0x1_0000 + high % 0x400 * 0x400 + low % 0x400 == point
    ensures Element(s, n) == Some((Utf8(point), 12))
  {
  }

  lemma PieceElement(p: Piece, rest: Suffix, n: nat)
    requires PieceAllowed(p) && |PieceText(p)| <= n < |PieceText(p)| + |rest|
    ensures Element(PieceText(p) + rest, n) == Some((PieceMeaning(p), |PieceText(p)|))
  {
    match p
    case Raw(b) =>
    case Short(letter) =>
    case Unicode(point, digits) =>
      UnicodeText(p);
      if point <= 0xFFFF {
        UnitElement(digits, point, rest, n);
      } else {
        PairElement(digits[..4], digits[4..], point, rest, n);
      }
  }

  lemma PiecesFront(ps: seq<Piece>, rest: Suffix)
    requires PiecesAllowed(ps) && ps != []
    ensures PiecesText(ps) + rest == PieceText(ps[0]) + (PiecesText(ps[1..]) + rest)
    ensures |PiecesText(ps)| == |PieceText(ps[0])| + |PiecesText(ps[1..])| && PieceText(ps[0]) != []
  {
    Associates(PieceText(ps[0]), PiecesText(ps[1..]), rest);
  }

  lemma {:induction false} PiecesEnd(ps: seq<Piece>, rest: Suffix)
    requires PiecesAllowed(ps) && At(rest, QUOTE)
    ensures StringEnd(PiecesText(ps) + rest) == Some(|PiecesText(ps)|)
  {
    if ps == [] {
      assert PiecesText(ps) + rest == rest;
    } else {
      PiecesEnd(ps[1..], rest);
      EndPassesPiece(ps[0], PiecesText(ps[1..]) + rest);
      PiecesFront(ps, rest);
    }
  }

  lemma DecodedMore(piece: seq<byte>, meaning: seq<byte>, tail: Suffix, n: nat)
    requires piece != [] && |piece| <= n < |piece| + |tail|
    requires Element(piece + tail, n) == Some((meaning, |piece|))
    ensures Decoded(piece + tail, n) ==
      var rest := Decoded(tail, n - |piece|);
      if rest.None? then None else Some(meaning + rest.value)
  {
    assert (piece + tail)[|piece|..] == tail;
  }

  lemma {:induction false} PiecesDecoded(ps: seq<Piece>, rest: Suffix)
    requires PiecesAllowed(ps) && rest != []
    ensures Decoded(PiecesText(ps) + rest, |PiecesText(ps)|) == Some(PiecesMeaning(ps))
  {
    if ps != [] {
      var n := |PiecesText(ps)|;
      var tail := PiecesText(ps[1..]) + rest;
      PiecesDecoded(ps[1..], rest);
      PiecesFront(ps, rest);
      PieceElement(ps[0], tail, n);
      DecodedMore(PieceText(ps[0]), PieceMeaning(ps[0]), tail, n);
    }
  }

  /** Any string literal is read as what it denotes, up to a NUL. */
  lemma StringReads(ps: seq<Piece>, rest: Suffix)
    requires PiecesAllowed(ps)
    ensures ParseString(QuotedText(ps) + rest) == Some((CString(PiecesMeaning(ps)), rest))
  {
    var body := PiecesText(ps) + ([QUOTE] + rest);
    assert QuotedText(ps) + rest == [QUOTE] + body;
    assert (QuotedText(ps) + rest)[1..] == body;
    PiecesEnd(ps, [QUOTE] + rest);
    PiecesDecoded(ps, [QUOTE] + rest);
    assert body[|PiecesText(ps)| + 1..] == rest;
  }

  /** A \uXXXX that is half of a pair makes the literal fail. */
  lemma LoneSurrogateRefused(digits: seq<byte>, unit: nat, rest: Suffix)
    requires SpellsUnit(digits, unit) && 0xD800 <= unit <= 0xDFFF
    ensures ParseString([34, 92, 117] + digits + [34] + rest).None?
  {
    UnitReads(digits, unit);
    var body := [92, 117] + digits + ([34] + rest);
    var s := [34, 92, 117] + digits + [34] + rest;
    assert s[1..] == body;
    EndPassesEscape(117, digits, [34] + rest);
    assert body[2..6] == digits;
    assert Element(body, 6).None?;
  }

  // ----- Whitespace -----

  lemma {:induction false} SkipBlank(blank: seq<byte>, s: Suffix)
    requires Blank(blank) && s != [] && s[0] > 32
    ensures Skip(blank + s) == s
  {
    if blank == [] {
      assert blank + s == s;
    } else {
      SkipBlank(blank[1..], s);
      assert (blank + s)[1..] == blank[1..] + s;
    }
  }

  lemma {:induction false} SkipAgain(s: Suffix)
    ensures Skip(Skip(s)) == Skip(s)
  {
    if |s| > 1 && s[0] <= 32 {
      SkipAgain(s[1..]);
    }
  }

  /** Blank space to the end leaves the last byte. */
  lemma {:induction false} SkipToEnd(blank: seq<byte>, last: byte)
    requires Blank(blank)
    ensures Skip(blank + [last]) == [last]
  {
    if blank == [] {
      assert blank + [last] == [last];
    } else {
      SkipToEnd(blank[1..], last);
      assert (blank + [last])[1..] == blank[1..] + [last];
    }
  }

  // ----- Numbers -----

  /** What follows a number ends it. */
  predicate Ends(rest: Suffix) {
    rest == [] || !IsNumberByte(rest[0])
  }

  lemma {:induction false} NumberLengthIs(text: seq<byte>, rest: Suffix, limit: nat)
    requires (forall i | 0 <= i < |text| :: IsNumberByte(text[i])) && Ends(rest) && |text| <= limit
    ensures NumberLength(text + rest, limit) == |text|
  {
    if text != [] {
      NumberLengthIs(text[1..], rest, limit - 1);
      assert (text + rest)[1..] == text[1..] + rest;
    } else {
      assert text + rest == rest;
    }
  }

  lemma {:induction false} DigitCountIs(digits: seq<byte>, tail: seq<byte>)
    requires (forall i | 0 <= i < |digits| :: IsDigit(digits[i])) && (tail == [] || !IsDigit(tail[0]))
    ensures DigitCount(digits + tail) == |digits|
  {
    if digits != [] {
      DigitCountIs(digits[1..], tail);
      assert (digits + tail)[1..] == digits[1..] + tail;
    } else {
      assert digits + tail == tail;
    }
  }

  lemma {:induction false} ValueMore(digits: seq<byte>, digit: byte)
    ensures Value(digits + [digit]) == 10 * Value(digits) + (digit as int - 48)
  {
    if digits != [] {
      var more := digits + [digit];
      ValueMore(digits[1..], digit);
      assert more[1..] == digits[1..] + [digit];
      TimesTen(digits[0] as int - 48, Pow10(|digits| - 1));
    }
  }

  lemma TimesTen(d: int, p: nat)
    ensures d * (10 * p) == 10 * (d * p)
  {
  }

  /** Adding digits up from the front gives their number. */
  lemma {:induction false} DigitsValueIs(digits: seq<byte>)
    ensures DigitsValue(digits) == Value(digits)
  {
    if digits != [] {
      DigitsValueIs(Front(digits));
      ValueMore(Front(digits), Last(digits));
      assert digits == Front(digits) + [Last(digits)];
    }
  }

  lemma TokenReads(text: seq<byte>, v: Json, rest: Suffix)
    requires |text| <= NUMBER_BUFFER && (forall i | 0 <= i < |text| :: IsNumberByte(text[i])) && Ends(rest)
    requires Number(text) == Some((v, |text|))
    ensures ParseNumber(text + rest) == Some((v, rest))
  {
    NumberLengthIs(text, rest, NUMBER_BUFFER);
    var s := text + rest;
    assert s[..|text|] == text;
    assert s[|text|..] == rest;
  }

  lemma SignStart(negative: bool, digits: seq<byte>, tail: seq<byte>)
    requires AllDigits(digits) && (tail == [] || !IsDigit(tail[0]))
    ensures var token, start := Sign(negative) + digits + tail, |Sign(negative)|;
      && start == (if At(token, MINUS) then 1 else 0) && token[start..] == digits + tail
      && DigitCount(token[start..]) == |digits| && token[start + |digits|..] == tail
  {
    DigitCountIs(digits, tail);
  }

  lemma WholeNumber(negative: bool, digits: seq<byte>)
    requires AllDigits(digits)
    ensures var text := Sign(negative) + digits;
      Number(text) == Some((Num(Signed(negative, Value(digits))), |text|))
  {
    var text, start := Sign(negative) + digits, |Sign(negative)|;
    assert text + [] == text && digits + [] == digits;
    SignStart(negative, digits, []);
    DigitsValueIs(digits);
    assert text[start..|text|] == text[start..] == digits;
  }

  lemma WholeReads(d: Doc, rest: Suffix)
    requires Allowed(d) && d.Whole? && Ends(rest)
    ensures ParseNumber(Text(d) + rest) == Some((Meaning(d), rest))
  {
    WholeNumber(d.negative, d.digits);
    NumberBytes(d);
    TokenReads(Text(d), Meaning(d), rest);
  }

  predicate DigitsIn(s: seq<byte>, from: nat, to: nat)
    requires to <= |s|
  {
    forall k | from <= k < to :: IsDigit(s[k])
  }

  lemma {:induction false} CountAt(s: seq<byte>, from: nat, to: nat)
    requires from <= to <= |s| && DigitsIn(s, from, to) && (to < |s| ==> !IsDigit(s[to]))
    ensures from + DigitCount(s[from..]) == to
    decreases |s| - from
  {
    if from < to {
      CountAt(s, from + 1, to);
      assert s[from..][1..] == s[from + 1..];
    }
  }

  /** The number's parts by position: digits up to `whole`, a fraction up to
      `mantissa`, and the digits of an exponent from `first` on. */
  predicate InParts(s: seq<byte>, start: nat, whole: nat, mantissa: nat, first: nat) {
    && start < whole <= mantissa <= |s| && DigitsIn(s, start, whole)
    && (whole < mantissa ==> s[whole] == 46 && whole + 1 < mantissa && DigitsIn(s, whole + 1, mantissa))
    && (mantissa < |s| ==>
          && s[mantissa] in {69, 101} && first < |s| && DigitsIn(s, first, |s|)
          && first == mantissa + if s[mantissa + 1] in {43, MINUS} then 2 else 1)
  }

  lemma StrtodTakes(s: seq<byte>, start: nat, whole: nat, mantissa: nat, first: nat)
    requires InParts(s, start, whole, mantissa, first)
    ensures StrtodEnd(s, start) == |s| && DigitCount(s[start..]) == whole - start
  {
    CountAt(s, start, whole);
    if whole < mantissa {
      CountAt(s, whole + 1, mantissa);
    }
    if mantissa < |s| {
      CountAt(s, first, |s|);
    }
  }

  lemma Part(a: seq<byte>, b: seq<byte>, c: seq<byte>, k: nat)
    requires k < |b|
    ensures (a + b + c)[|a| + k] == b[k]
  {
  }

  lemma ExponentInParts(front: seq<byte>, e: Exponent)
    requires ExponentAllowed(Some(e))
    ensures var s, m, first := front + ExponentText(Some(e)), |front|, |front| + 1 + |e.sign|;
      && m + 1 < |s| && s[m] in {69, 101} && first < |s| && DigitsIn(s, first, |s|)
      && first == m + if s[m + 1] in {43, MINUS} then 2 else 1
  {
    var text, s := ExponentText(Some(e)), front + ExponentText(Some(e));
    assert forall k | 0 <= k < |text| :: s[|front| + k] == text[k];
    assert forall k | 0 <= k < |e.digits| :: text[1 + |e.sign| + k] == e.digits[k];
    forall k | |front| + 1 + |e.sign| <= k < |s| ensures IsDigit(s[k]) {
      assert s[k] == text[k - |front|] == e.digits[k - |front| - 1 - |e.sign|];
    }
    assert s[|front|] == text[0] && s[|front| + 1] == text[1];
  }

  lemma MantissaInParts(sign: seq<byte>, digits: seq<byte>, fraction: seq<byte>, tail: seq<byte>)
    requires AllDigits(digits) && (fraction != [] ==> AllDigits(fraction))
    ensures var s := sign + digits + FractionText(fraction) + tail;
      var whole, mantissa := |sign| + |digits|, |sign| + |digits| + |FractionText(fraction)|;
      && DigitsIn(s, |sign|, whole)
      && (whole < mantissa ==> s[whole] == 46 && whole + 1 < mantissa && DigitsIn(s, whole + 1, mantissa))
  {
    var text := FractionText(fraction);
    var s := sign + digits + text + tail;
    forall k: nat | k < |digits| ensures s[|sign| + k] == digits[k] {
      Part(sign, digits, text, k);
    }
    forall k: nat | k < |text| ensures s[|sign + digits| + k] == text[k] {
      Part(sign + digits, text, tail, k);
    }
    forall k | |sign| <= k < |sign| + |digits| ensures IsDigit(s[k]) {
      assert s[k] == digits[k - |sign|];
    }
    if fraction != [] {
      forall k | |sign| + |digits| + 1 <= k < |sign| + |digits| + |text| ensures IsDigit(s[k]) {
        assert s[k] == text[k - |sign| - |digits|] == fraction[k - |sign| - |digits| - 1];
      }
    }
  }

  lemma RealInParts(d: Doc) returns (first: nat)
    requires Allowed(d) && d.Real?
    ensures var start := |Sign(d.negative)|;
      var whole := start + |d.digits|;
      InParts(Text(d), start, whole, whole + |FractionText(d.fraction)|, first)
    ensures |Sign(d.negative)| + |d.digits| < |Text(d)|
  {
    var sign, front := Sign(d.negative), Sign(d.negative) + d.digits + FractionText(d.fraction);
    MantissaInParts(sign, d.digits, d.fraction, ExponentText(d.exponent));
    first := 0;
    if d.exponent.Some? {
      ExponentInParts(front, d.exponent.value);
      first := |front| + 1 + |d.exponent.value.sign|;
    }
  }

  lemma RealReads(d: Doc, rest: Suffix)
    requires Allowed(d) && d.Real? && Ends(rest)
    ensures ParseNumber(Text(d) + rest) == Some((Fraction(Text(d)), rest))
  {
    var text, start := Text(d), |Sign(d.negative)|;
    var first := RealInParts(d);
    StrtodTakes(text, start, start + |d.digits|, start + |d.digits| + |FractionText(d.fraction)|, first);
    assert text[..|text|] == text;
    NumberBytes(d);
    SignFirst(d);
    TokenReads(text, Fraction(text), rest);
  }

  lemma SignFirst(d: Doc)
    requires Allowed(d) && (d.Whole? || d.Real?)
    ensures |Sign(d.negative)| == if At(Text(d), MINUS) then 1 else 0
  {
  }

  lemma NumberBytes(d: Doc)
    requires Allowed(d) && (d.Whole? || d.Real?)
    ensures forall i | 0 <= i < |Text(d)| :: IsNumberByte(Text(d)[i])
    ensures Text(d) != [] && (Text(d)[0] == MINUS || IsDigit(Text(d)[0]))
  {
  }

  /** A longer integer is cut: 63 bytes of it are the number, the rest is left. */
  lemma LongNumberIsCut(negative: bool, digits: seq<byte>, rest: Suffix)
    requires AllDigits(digits) && |Sign(negative) + digits| > 63
    ensures var text, front := Sign(negative) + digits, digits[..63 - |Sign(negative)|];
      ParseNumber(text + rest) == Some((Num(Signed(negative, Value(front))), text[63..] + rest))
  {
    var text, front := Sign(negative) + digits, digits[..63 - |Sign(negative)|];
    assert text[..63] == Sign(negative) + front;
    WholeNumber(negative, front);
    var s := text + rest;
    FullBuffer(text, rest, 63);
    assert s[..63] == text[..63] && s[63..] == text[63..] + rest;
  }

  lemma {:induction false} FullBuffer(text: seq<byte>, rest: Suffix, limit: nat)
    requires (forall i | 0 <= i < |text| :: IsNumberByte(text[i])) && limit <= |text|
    ensures NumberLength(text + rest, limit) == limit
  {
    if limit > 0 {
      FullBuffer(text[1..], rest, limit - 1);
      assert (text + rest)[1..] == text[1..] + rest;
    }
  }

  // ----- Words -----

  lemma FirstDiffers(s: Suffix, word: seq<byte>)
    requires s != [] && word != [] && s[0] != word[0]
    ensures !StartsWith(s, word)
  {
    if |word| <= |s| {
      assert s[..|word|][0] == s[0];
    }
  }

  lemma NotWord(s: Suffix)
    requires s != [] && s[0] !in {110, 102, 116}
    ensures !StartsWith(s, NULL_TEXT) && !StartsWith(s, FALSE_TEXT) && !StartsWith(s, TRUE_TEXT)
  {
    FirstDiffers(s, NULL_TEXT);
    FirstDiffers(s, FALSE_TEXT);
    FirstDiffers(s, TRUE_TEXT);
  }

  lemma WordReads(d: Doc, level: nat, rest: Suffix)
    requires d.Nothing? || d.Truth?
    ensures ParseValue(Text(d) + rest, level) == Some((Meaning(d), rest))
  {
    var s := Text(d) + rest;
    assert s[..|Text(d)|] == Text(d) && s[|Text(d)|..] == rest;
    if d == Truth(true) {
      FirstDiffers(s, NULL_TEXT);
      FirstDiffers(s, FALSE_TEXT);
    } else if d == Truth(false) {
      FirstDiffers(s, NULL_TEXT);
    }
  }

  // ----- Values -----

  predicate Fits(nesting: nat, depth: nat) {
    depth + nesting <= NESTING_LIMIT
  }

  /** The value is read from its text, with more text to come. */
  predicate Reads(v: Json, text: seq<byte>, level: nat, rest: Suffix) {
    ParseValue(text + rest, level) == if Fits(Nesting(v), level) then Some((v, rest)) else None
  }

  predicate MemberReads(m: Member, text: seq<byte>, level: nat, rest: Suffix) {
    ParseMember(text + rest, level) == if Fits(NestingOfMember(m), level) then Some((m, rest)) else None
  }

  predicate ItemsRead(items: seq<Json>, text: Suffix, level: nat, rest: Suffix) {
    ParseItems(text, level) == if Fits(NestingOfItems(items), level) then Some((items, rest)) else None
  }

  predicate MembersRead(members: seq<Member>, text: Suffix, level: nat, rest: Suffix) {
    ParseMembers(text, level) == if Fits(NestingOfMembers(members), level) then Some((members, rest)) else None
  }

  /** A value starts with a visible byte that neither separates nor closes. */
  predicate Visible(text: seq<byte>) {
    text != [] && text[0] > 32 && text[0] !in {44, 58, 93, 125}
  }

  lemma TextVisible(d: Doc)
    requires Allowed(d)
    ensures Visible(Text(d))
  {
    if d.Whole? || d.Real? {
      NumberBytes(d);
    }
  }

  lemma LeafReads(d: Doc, level: nat, rest: Suffix)
    requires Allowed(d) && !d.Row? && !d.Table? && Ends(rest) && level <= NESTING_LIMIT
    ensures Reads(Meaning(d), Text(d), level, rest)
  {
    match d
    case Nothing => WordReads(d, level, rest);
    case Truth(_) => WordReads(d, level, rest);
    case Whole(_, _) =>
      WholeReads(d, rest);
      NumberParsed(d, level, rest);
    case Real(_, _, _, _) =>
      RealReads(d, rest);
      NumberParsed(d, level, rest);
    case Quoted(pieces) => QuotedReads(pieces, level, rest);
  }

  lemma NumberParsed(d: Doc, level: nat, rest: Suffix)
    requires Allowed(d) && (d.Whole? || d.Real?)
    ensures ParseValue(Text(d) + rest, level) == ParseNumber(Text(d) + rest)
  {
    NumberBytes(d);
    NotWord(Text(d) + rest);
  }

  lemma QuotedReads(pieces: seq<Piece>, level: nat, rest: Suffix)
    requires PiecesAllowed(pieces)
    ensures ParseValue(QuotedText(pieces) + rest, level) == Some((Str(CString(PiecesMeaning(pieces))), rest))
  {
    StringReads(pieces, rest);
    NotWord(QuotedText(pieces) + rest);
  }

  // ----- Arrays -----

  /** One item, then what the byte after it calls for. */
  lemma ItemThen(v: Json, before: seq<byte>, text: seq<byte>, after: seq<byte>, next: Suffix, level: nat)
    requires Reads(v, text, level, after + next) && Visible(text) && Blank(before) && Blank(after)
    requires next != [] && next[0] in {44, 93}
    ensures ParseItems(before + (text + (after + next)), level) ==
      if !Fits(Nesting(v), level) then None
      else if next[0] == 93 then Some(([v], next[1..]))
      else if ParseItems(next[1..], level).None? then None
      else Some(([v] + ParseItems(next[1..], level).value.0, ParseItems(next[1..], level).value.1))
  {
    SkipBlank(before, text + (after + next));
    SkipBlank(after, next);
  }

  lemma LastItemReads(v: Json, s: Slot, text: seq<byte>, level: nat, rest: Suffix)
    requires Reads(v, text, level, s.after + ([93] + rest)) && Visible(text) && Blank(s.before) && Blank(s.after)
    ensures ItemsRead([v], s.before + text + s.after + [93] + rest, level, rest)
  {
    ItemThen(v, s.before, text, s.after, [93] + rest, level);
    assert s.before + text + s.after + [93] + rest == s.before + (text + (s.after + ([93] + rest)));
    assert ([93] + rest)[1..] == rest;
    OnlyItem(v);
  }

  lemma OnlyItem(v: Json)
    ensures NestingOfItems([v]) == Nesting(v)
  {
    assert [v][1..] == [];
    assert NestingOfItems([v][1..]) == 0;
  }

  lemma MoreItemsRead(v: Json, vs: seq<Json>, s: Slot, text: seq<byte>, others: seq<byte>, level: nat, rest: Suffix)
    requires Reads(v, text, level, s.after + ([44] + others)) && Visible(text) && Blank(s.before) && Blank(s.after)
    requires ItemsRead(vs, others, level, rest)
    ensures ItemsRead([v] + vs, s.before + (text + (s.after + ([44] + others))), level, rest)
  {
    ItemThen(v, s.before, text, s.after, [44] + others, level);
    assert ([44] + others)[1..] == others;
    assert ([v] + vs)[1..] == vs;
  }

  lemma EndsBehind(after: seq<byte>, next: Suffix)
    requires Blank(after) && next != [] && next[0] in {44, 93, 125}
    ensures Ends(after + next)
  {
  }

  lemma {:induction false} SlotReads(s: Slot, level: nat, next: Suffix)
    requires SlotAllowed(s) && level <= NESTING_LIMIT && next != [] && next[0] in {44, 93}
    ensures Reads(SlotMeaning(s), Text(s.item), level, s.after + next) && Visible(Text(s.item))
    decreases s
  {
    EndsBehind(s.after, next);
    TextVisible(s.item);
    DocReads(s.item, level, s.after + next);
  }

  lemma {:induction false} SlotsRead(slots: seq<Slot>, level: nat, rest: Suffix)
    requires slots != [] && SlotsAllowed(slots) && level <= NESTING_LIMIT
    ensures ItemsRead(SlotsMeaning(slots), SlotsText(slots) + rest, level, rest)
    decreases slots, 0
  {
    var s, tail := slots[0], slots[1..];
    if |slots| == 1 {
      SlotReads(s, level, [93] + rest);
      LastItemReads(SlotMeaning(s), s, Text(s.item), level, rest);
      OneSlot(slots);
    } else {
      var others := SlotsText(tail) + rest;
      SlotReads(s, level, [44] + others);
      SlotsRead(tail, level, rest);
      MoreItemsRead(SlotMeaning(s), SlotsMeaning(tail), s, Text(s.item), others, level, rest);
      FirstSlot(slots, rest);
    }
  }

  lemma OneSlot(slots: seq<Slot>)
    requires |slots| == 1
    ensures SlotsMeaning(slots) == [SlotMeaning(slots[0])] && SlotsText(slots) == SlotText(slots[0]) + [93]
  {
    assert slots[1..] == [];
    assert SlotsMeaning(slots[1..]) == [];
  }

  lemma FirstSlot(slots: seq<Slot>, rest: Suffix)
    requires |slots| > 1
    ensures var s := slots[0];
      SlotsText(slots) + rest == s.before + (Text(s.item) + (s.after + ([44] + (SlotsText(slots[1..]) + rest))))
  {
    Regroup(slots[0].before, Text(slots[0].item), slots[0].after, SlotsText(slots[1..]), rest);
  }

  lemma Regroup(a: seq<byte>, b: seq<byte>, c: seq<byte>, d: seq<byte>, rest: seq<byte>)
    ensures a + b + c + ([44] + d) + rest == a + (b + (c + ([44] + (d + rest))))
  {
  }

  lemma ArrayOf(items: seq<Json>, inside: Suffix, level: nat, rest: Suffix)
    requires level < NESTING_LIMIT ==> ItemsRead(items, inside, level + 1, rest)
    requires Skip(inside) != [] && Skip(inside)[0] != 93 && level <= NESTING_LIMIT
    ensures ParseValue([91] + inside, level) ==
      if Fits(Nesting(Arr(items)), level) then Some((Arr(items), rest)) else None
  {
    var s := [91] + inside;
    assert s[1..] == inside;
    NotWord(s);
    SkipAgain(inside);
  }

  lemma EmptyArray(pad: seq<byte>, level: nat, rest: Suffix)
    requires Blank(pad) && level <= NESTING_LIMIT
    ensures Reads(Arr([]), [91] + (pad + [93]), level, rest)
  {
    var inside := pad + ([93] + rest);
    var s := [91] + (pad + [93]) + rest;
    assert s[1..] == inside;
    NotWord(s);
    SkipBlank(pad, [93] + rest);
    assert ([93] + rest)[1..] == rest;
  }

  lemma SlotsStart(slots: seq<Slot>, rest: Suffix)
    requires slots != [] && SlotsAllowed(slots)
    ensures var inside := Skip(SlotsText(slots) + rest); inside != [] && inside[0] != 93
  {
    var s := slots[0];
    TextVisible(s.item);
    var behind := if |slots| == 1 then [93] else [44] + SlotsText(slots[1..]);
    assert SlotsText(slots) == s.before + Text(s.item) + s.after + behind;
    FiveParts(s.before, Text(s.item), s.after, behind, rest);
    StartsAt(s.before, Text(s.item), s.after + behind + rest);
  }

  lemma FiveParts(a: seq<byte>, b: seq<byte>, c: seq<byte>, d: seq<byte>, e: seq<byte>)
    ensures a + b + c + d + e == a + (b + (c + d + e))
  {
  }

  lemma StartsAt(before: seq<byte>, text: seq<byte>, behind: seq<byte>)
    requires Blank(before) && text != [] && text[0] > 32
    ensures Skip(before + (text + behind)) == text + behind
  {
    SkipBlank(before, text + behind);
  }

  lemma FullArray(slots: seq<Slot>, pad: seq<byte>, level: nat, rest: Suffix)
    requires slots != [] && SlotsAllowed(slots) && level <= NESTING_LIMIT
    requires level < NESTING_LIMIT ==> ItemsRead(SlotsMeaning(slots), SlotsText(slots) + rest, level + 1, rest)
    ensures Reads(Arr(SlotsMeaning(slots)), Text(Row(slots, pad)), level, rest)
  {
    var text := SlotsText(slots);
    SlotsStart(slots, rest);
    ArrayOf(SlotsMeaning(slots), text + rest, level, rest);
    Associates([91], text, rest);
    assert Text(Row(slots, pad)) == [91] + text;
  }

  lemma {:induction false} ArrayReads(slots: seq<Slot>, pad: seq<byte>, level: nat, rest: Suffix)
    requires SlotsAllowed(slots) && Blank(pad) && level <= NESTING_LIMIT
    ensures Reads(Arr(SlotsMeaning(slots)), Text(Row(slots, pad)), level, rest)
    decreases slots, 1
  {
    if slots == [] {
      EmptyArray(pad, level, rest);
    } else {
      if level < NESTING_LIMIT {
        SlotsRead(slots, level + 1, rest);
      }
      FullArray(slots, pad, level, rest);
    }
  }

  // ----- Objects -----

  lemma MemberSteps(s: Suffix, start: Suffix, key: seq<byte>, afterKey: Suffix, colon: Suffix, value: Suffix,
    level: nat)
    requires Skip(s) == start && ParseString(start) == Some((key, afterKey))
    requires Skip(afterKey) == colon && At(colon, COLON) && Skip(colon[1..]) == value
    ensures ParseMember(s, level) ==
      var v := ParseValue(value, level);
      if v.None? then None else Some((Member(key, v.value.0), v.value.1))
  {
  }

  /** Blank space, a key, blank space, a colon, blank space and a value. */
  lemma MemberOf(e: Entry, v: Json, text: seq<byte>, level: nat, rest: Suffix)
    requires Blank(e.before) && Blank(e.colon) && Blank(e.gap) && PiecesAllowed(e.key) && Visible(text)
    requires Reads(v, text, level, rest)
    ensures ParseMember(e.before + (QuotedText(e.key) + (e.colon + ([58] + (e.gap + (text + rest))))), level) ==
      if Fits(Nesting(v), level) then Some((Member(CString(PiecesMeaning(e.key)), v), rest)) else None
  {
    var colon := [58] + (e.gap + (text + rest));
    var start := QuotedText(e.key) + (e.colon + colon);
    SkipBlank(e.before, start);
    StringReads(e.key, e.colon + colon);
    SkipBlank(e.colon, colon);
    assert colon[1..] == e.gap + (text + rest);
    SkipBlank(e.gap, text + rest);
    MemberSteps(e.before + start, start, CString(PiecesMeaning(e.key)), e.colon + colon, colon, text + rest, level);
  }

  /** One member, then what the byte after it calls for. */
  lemma MemberThen(m: Member, s: Suffix, after: seq<byte>, next: Suffix, level: nat)
    requires ParseMember(s, level) == if Fits(NestingOfMember(m), level) then Some((m, after + next)) else None
    requires Blank(after) && next != [] && next[0] in {44, 125}
    ensures ParseMembers(s, level) ==
      if !Fits(NestingOfMember(m), level) then None
      else if next[0] == 125 then Some(([m], next[1..]))
      else if ParseMembers(next[1..], level).None? then None
      else Some(([m] + ParseMembers(next[1..], level).value.0, ParseMembers(next[1..], level).value.1))
  {
    SkipBlank(after, next);
  }

  lemma {:induction false} EntryReads(e: Entry, level: nat, next: Suffix)
    requires EntryAllowed(e) && level <= NESTING_LIMIT && next != [] && next[0] in {44, 125}
    ensures ParseMember(EntryFront(e) + (e.after + next), level) ==
      if Fits(NestingOfMember(EntryMeaning(e)), level) then Some((EntryMeaning(e), e.after + next)) else None
    decreases e
  {
    EndsBehind(e.after, next);
    TextVisible(e.value);
    DocReads(e.value, level, e.after + next);
    MemberOf(e, Meaning(e.value), Text(e.value), level, e.after + next);
    FrontParts(e.before, QuotedText(e.key), e.colon, e.gap, Text(e.value), e.after + next);
  }

  /** An entry up to its value. */
  function EntryFront(e: Entry): seq<byte> {
    e.before + QuotedText(e.key) + e.colon + [58] + e.gap + Text(e.value)
  }

  lemma FrontParts(a: seq<byte>, b: seq<byte>, c: seq<byte>, d: seq<byte>, e: seq<byte>, f: seq<byte>)
    ensures a + b + c + [58] + d + e + f == a + (b + (c + ([58] + (d + (e + f)))))
  {
  }

  lemma LastEntryReads(m: Member, front: seq<byte>, after: seq<byte>, level: nat, rest: Suffix)
    requires Blank(after)
    requires ParseMember(front + (after + ([125] + rest)), level) ==
      if Fits(NestingOfMember(m), level) then Some((m, after + ([125] + rest))) else None
    ensures MembersRead([m], front + after + [125] + rest, level, rest)
  {
    MemberThen(m, front + (after + ([125] + rest)), after, [125] + rest, level);
    assert front + after + [125] + rest == front + (after + ([125] + rest));
    assert ([125] + rest)[1..] == rest;
    OnlyMember(m);
  }

  lemma OnlyMember(m: Member)
    ensures NestingOfMembers([m]) == NestingOfMember(m)
  {
    assert [m][1..] == [];
    assert NestingOfMembers([m][1..]) == 0;
  }

  lemma MoreEntriesRead(m: Member, ms: seq<Member>, front: seq<byte>, after: seq<byte>, others: seq<byte>, level: nat,
    rest: Suffix)
    requires Blank(after) && MembersRead(ms, others, level, rest)
    requires ParseMember(front + (after + ([44] + others)), level) ==
      if Fits(NestingOfMember(m), level) then Some((m, after + ([44] + others))) else None
    ensures MembersRead([m] + ms, front + (after + ([44] + others)), level, rest)
  {
    MemberThen(m, front + (after + ([44] + others)), after, [44] + others, level);
    assert ([44] + others)[1..] == others;
    assert ([m] + ms)[1..] == ms;
  }

  lemma OneEntry(entries: seq<Entry>)
    requires |entries| == 1
    ensures EntriesMeaning(entries) == [EntryMeaning(entries[0])]
    ensures EntriesText(entries) == EntryFront(entries[0]) + entries[0].after + [125]
  {
    assert entries[1..] == [];
    assert EntriesMeaning(entries[1..]) == [];
  }

  lemma FirstEntry(entries: seq<Entry>, rest: Suffix)
    requires |entries| > 1
    ensures var e := entries[0];
      EntriesText(entries) + rest == EntryFront(e) + (e.after + ([44] + (EntriesText(entries[1..]) + rest)))
  {
    RegroupEntry(EntryFront(entries[0]), entries[0].after, EntriesText(entries[1..]), rest);
  }

  lemma RegroupEntry(a: seq<byte>, b: seq<byte>, c: seq<byte>, rest: seq<byte>)
    ensures a + b + ([44] + c) + rest == a + (b + ([44] + (c + rest)))
  {
  }

  lemma {:induction false} EntriesRead(entries: seq<Entry>, level: nat, rest: Suffix)
    requires entries != [] && EntriesAllowed(entries) && level <= NESTING_LIMIT
    ensures MembersRead(EntriesMeaning(entries), EntriesText(entries) + rest, level, rest)
    decreases entries, 0
  {
    var e, tail := entries[0], entries[1..];
    if |entries| == 1 {
      EntryReads(e, level, [125] + rest);
      LastEntryReads(EntryMeaning(e), EntryFront(e), e.after, level, rest);
      OneEntry(entries);
    } else {
      var others := EntriesText(tail) + rest;
      EntryReads(e, level, [44] + others);
      EntriesRead(tail, level, rest);
      MoreEntriesRead(EntryMeaning(e), EntriesMeaning(tail), EntryFront(e), e.after, others, level, rest);
      FirstEntry(entries, rest);
    }
  }

  lemma MembersSkip(inside: Suffix, level: nat)
    ensures ParseMembers(Skip(inside), level) == ParseMembers(inside, level)
  {
    SkipAgain(inside);
    assert ParseMember(Skip(inside), level) == ParseMember(inside, level);
  }

  lemma ObjectOf(members: seq<Member>, inside: Suffix, level: nat, rest: Suffix)
    requires level < NESTING_LIMIT ==> MembersRead(members, inside, level + 1, rest)
    requires Skip(inside) != [] && Skip(inside)[0] != 125 && level <= NESTING_LIMIT
    ensures ParseValue([123] + inside, level) ==
      if Fits(Nesting(Obj(members)), level) then Some((Obj(members), rest)) else None
  {
    var s := [123] + inside;
    assert s[1..] == inside;
    NotWord(s);
    MembersSkip(inside, level + 1);
    ObjectSteps(s, inside, level);
  }

  lemma ObjectSteps(s: Suffix, inside: Suffix, level: nat)
    requires s != [] && s[0] == OPEN_OBJECT && s[1..] == inside && Skip(inside) != [] && Skip(inside)[0] != CLOSE_OBJECT
    requires ParseMembers(Skip(inside), level + 1) == ParseMembers(inside, level + 1)
    requires !StartsWith(s, NULL_TEXT) && !StartsWith(s, FALSE_TEXT) && !StartsWith(s, TRUE_TEXT)
    ensures ParseValue(s, level) ==
      if level >= NESTING_LIMIT || ParseMembers(inside, level + 1).None? then None
      else Some((Obj(ParseMembers(inside, level + 1).value.0), ParseMembers(inside, level + 1).value.1))
  {
  }

  lemma EmptyObject(pad: seq<byte>, level: nat, rest: Suffix)
    requires Blank(pad) && level <= NESTING_LIMIT
    ensures Reads(Obj([]), [123] + (pad + [125]), level, rest)
  {
    var inside := pad + ([125] + rest);
    var s := [123] + (pad + [125]) + rest;
    assert s[1..] == inside;
    NotWord(s);
    SkipBlank(pad, [125] + rest);
    assert ([125] + rest)[1..] == rest;
  }

  lemma EntriesStart(entries: seq<Entry>, rest: Suffix)
    requires entries != [] && EntriesAllowed(entries)
    ensures var inside := Skip(EntriesText(entries) + rest); inside != [] && inside[0] != 125
  {
    var e := entries[0];
    var front := e.colon + [58] + e.gap + Text(e.value) + e.after;
    var behind := if |entries| == 1 then [125] else [44] + EntriesText(entries[1..]);
    StartsAt(e.before, QuotedText(e.key), front + behind + rest);
    EntryParts(e.before, QuotedText(e.key), e.colon, e.gap, Text(e.value), e.after, behind, rest);
  }

  lemma EntryParts(a: seq<byte>, b: seq<byte>, c: seq<byte>, d: seq<byte>, e: seq<byte>, f: seq<byte>, g: seq<byte>,
    rest: seq<byte>)
    ensures a + b + c + [58] + d + e + f + g + rest == a + (b + (c + [58] + d + e + f + g + rest))
  {
  }

  lemma FullObject(entries: seq<Entry>, pad: seq<byte>, level: nat, rest: Suffix)
    requires entries != [] && EntriesAllowed(entries) && level <= NESTING_LIMIT
    requires level < NESTING_LIMIT ==>
      MembersRead(EntriesMeaning(entries), EntriesText(entries) + rest, level + 1, rest)
    ensures Reads(Obj(EntriesMeaning(entries)), Text(Table(entries, pad)), level, rest)
  {
    var text := EntriesText(entries);
    EntriesStart(entries, rest);
    ObjectOf(EntriesMeaning(entries), text + rest, level, rest);
    Associates([123], text, rest);
    assert Text(Table(entries, pad)) == [123] + text;
  }

  lemma {:induction false} ObjectReads(entries: seq<Entry>, pad: seq<byte>, level: nat, rest: Suffix)
    requires EntriesAllowed(entries) && Blank(pad) && level <= NESTING_LIMIT
    ensures Reads(Obj(EntriesMeaning(entries)), Text(Table(entries, pad)), level, rest)
    decreases entries, 1
  {
    if entries == [] {
      EmptyObject(pad, level, rest);
    } else {
      if level < NESTING_LIMIT {
        EntriesRead(entries, level + 1, rest);
      }
      FullObject(entries, pad, level, rest);
    }
  }

  // ----- Any text -----

  lemma {:induction false} DocReads(d: Doc, level: nat, rest: Suffix)
    requires Allowed(d) && Ends(rest) && level <= NESTING_LIMIT
    ensures Reads(Meaning(d), Text(d), level, rest)
    decreases d
  {
    match d
    case Row(slots, pad) => ArrayReads(slots, pad, level, rest);
    case Table(entries, pad) => ObjectReads(entries, pad, level, rest);
    case _ => LeafReads(d, level, rest);
  }

  // ----- The whole text -----

  function Mark(mark: bool): seq<byte> {
    if mark then [0xEF, 0xBB, 0xBF] else []
  }

  lemma MarkSkipped(mark: bool, rest: seq<byte>)
    requires |rest| > 1 && rest[0] < 128
    ensures var content := Mark(mark) + rest;
      content != [] && (if |content| > 4 && StartsWith(content, BOM) then content[3..] else content) == rest
  {
    if mark {
      assert (BOM + rest)[..3] == BOM && (BOM + rest)[3..] == rest;
    } else {
      assert [] + rest == rest;
      FirstDiffers(rest, BOM);
    }
  }

  lemma TextParts(mark: seq<byte>, before: seq<byte>, text: seq<byte>, after: seq<byte>)
    ensures mark + before + text + after + [0] == mark + (before + (text + (after + [0])))
  {
  }

  lemma AsciiStart(before: seq<byte>, d: Doc, behind: seq<byte>)
    requires Allowed(d) && Blank(before) && behind != []
    ensures var s := before + (Text(d) + behind); |s| > 1 && s[0] < 128
  {
    if d.Whole? || d.Real? {
      NumberBytes(d);
    }
    assert Text(d) != [] && Text(d)[0] < 128;
  }

  /** The value is parsed where it starts; then the rest is looked at. */
  lemma ParsedFrom(mark: bool, before: seq<byte>, d: Doc, after: seq<byte>, terminated: bool)
    requires Allowed(d) && Blank(before)
    ensures Parse(Mark(mark) + before + Text(d) + after, terminated) ==
      var v := ParseValue(Text(d) + (after + [0]), 0);
      if v.None? || (terminated && !At(Skip(v.value.1), 0)) then None else Some(v.value.0)
  {
    AsciiStart(before, d, after + [0]);
    TextParts(Mark(mark), before, Text(d), after);
    MarkSkipped(mark, before + (Text(d) + (after + [0])));
    TextVisible(d);
    SkipBlank(before, Text(d) + (after + [0]));
  }

  lemma EndsAtNul(after: seq<byte>)
    requires Blank(after)
    ensures Ends(after + [0])
  {
  }

  /** Every allowed text, with blank space around it and a byte order mark before it
      or none, is read as the tree it denotes if that nests within the limit, and is
      refused otherwise. */
  lemma EveryTextIsRead(d: Doc, mark: bool, before: seq<byte>, after: seq<byte>, terminated: bool)
    requires Allowed(d) && Blank(before) && Blank(after)
    ensures Parse(Mark(mark) + before + Text(d) + after, terminated) ==
      if Nesting(Meaning(d)) <= 1000 then Some(Meaning(d)) else None
  {
    ParsedFrom(mark, before, d, after, terminated);
    EndsAtNul(after);
    DocReads(d, 0, after + [0]);
    SkipToEnd(after, 0);
  }

  /** Anything visible behind the value makes a parse that asks for the end fail. */
  lemma TrailingTextRefused(d: Doc, mark: bool, before: seq<byte>, after: seq<byte>, more: seq<byte>)
    requires Allowed(d) && Blank(before) && Blank(after)
    requires more != [] && more[0] > 32 && (after == [] ==> Ends(more))
    ensures Parse(Mark(mark) + before + Text(d) + (after + more), true) == None
  {
    ParsedFrom(mark, before, d, after + more, true);
    Associates(after, more, [0]);
    DocReads(d, 0, after + (more + [0]));
    SkipBlank(after, more + [0]);
  }
}
