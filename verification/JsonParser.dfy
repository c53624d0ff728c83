/** The parser of app/cJSON.c as it runs: one offset and one depth over the
    content, moved forward by every construct. */
module JsonParser {
  import opened Prelude
  import opened Bytes
  import opened Json

  /** parse_hex4. */
  method ParseHex4(input: seq<byte>) returns (h: nat)
    requires |input| == 4
    ensures h == Hex4(input)
  {
    h := 0;
    for i := 0 to 4
      invariant h == HexPrefix(input[..i]) && forall k | 0 <= k < i :: HexValue(input[k]).Some?
    {
      var digit := HexValue(input[i]);
      if digit.None? {
        return 0;
      }
      FrontLast(input[..i], input[i]);
      assert input[..i + 1] == input[..i] + [input[i]];
      h := 16 * h + digit.value;
    }
    HexPrefixIs(input);
  }

  lemma HexPrefixIs(s: seq<byte>)
    requires |s| == 4 && forall k | 0 <= k < 4 :: HexValue(s[k]).Some?
    ensures HexPrefix(s[..4]) == Hex4(s)
  {
    assert Front(s[..4]) == s[..3] && Front(s[..3]) == s[..2] && Front(s[..2]) == s[..1] && Front(s[..1]) == [];
    assert HexPrefix(s[..1]) == HexValue(s[0]).value;
    assert HexPrefix(s[..2]) == 16 * HexPrefix(s[..1]) + HexValue(s[1]).value;
  }

  /** The value of hexadecimal digits. */
  function HexPrefix(s: seq<byte>): nat {
    if s == [] then 0
    else 16 * HexPrefix(Front(s)) + (if HexValue(Last(s)).Some? then HexValue(Last(s)).value else 0)
  }

  /** The encoding loop of utf16_literal_to_utf8: continuation bytes from the last
      to the second, six bits each, then the marked first byte. */
  method EncodeUtf8(codepoint: nat) returns (out: seq<byte>)
    requires codepoint <= 0x10_FFFF
    ensures out == Utf8(codepoint)
  {
    var length, mark := 1, 0;
    if codepoint >= 0x1_0000 { length, mark := 4, 0xF0; }
    else if codepoint >= 0x800 { length, mark := 3, 0xE0; }
    else if codepoint >= 0x80 { length, mark := 2, 0xC0; }
    var left, rest := EncodeContinuations(codepoint, length - 1);
    AllContinuations(codepoint);
    out := [mark + left] + rest;
  }

  method EncodeContinuations(codepoint: nat, n: nat) returns (left: nat, out: seq<byte>)
    ensures left == codepoint / Pow64(n) && out == Continuations(codepoint, n)
  {
    out := [];
    left := codepoint;
    var position := n;
    ghost var done := 0;
    while position > 0
      invariant done + position == n && left == codepoint / Pow64(done)
      invariant out == Continuations(codepoint, done)
    {
      DivideTwice(codepoint, Pow64(done));
      out := [0x80 + left % 0x40] + out;
      left := left / 0x40;
      position := position - 1;
      done := done + 1;
    }
  }

  function Pow64(n: nat): (p: nat)
    ensures p > 0
  {
    if n == 0 then 1 else 0x40 * Pow64(n - 1)
  }

  /** The last n bytes of an encoding. */
  function Continuations(cp: nat, n: nat): seq<byte> {
    if n == 0 then [] else [0x80 + cp / Pow64(n - 1) % 0x40] + Continuations(cp, n - 1)
  }

  lemma AllContinuations(cp: nat)
    ensures Continuations(cp, 0) == [] && Continuations(cp, 1) == [0x80 + cp % 0x40]
    ensures Continuations(cp, 2) == [0x80 + cp / 0x40 % 0x40, 0x80 + cp % 0x40]
    ensures Continuations(cp, 3) == [0x80 + cp / 0x1000 % 0x40, 0x80 + cp / 0x40 % 0x40, 0x80 + cp % 0x40]
    ensures Pow64(0) == 1 && Pow64(1) == 0x40 && Pow64(2) == 0x1000 && Pow64(3) == 0x4_0000
  {
    assert Pow64(1) == 0x40 && Pow64(2) == 0x1000;
    assert Continuations(cp, 1) == [0x80 + cp % 0x40];
    assert Continuations(cp, 2) == [0x80 + cp / 0x40 % 0x40] + Continuations(cp, 1);
  }

  lemma DivideTwice(a: nat, p: nat)
    requires p > 0
    ensures a / p / 0x40 == a / (0x40 * p)
  {
    var q := a / p;
    var low, high := q % 0x40, q / 0x40;
    ProductSplit(p, low, high, a % p);
    DivModUnique(a, 0x40 * p, high, p * low + a % p);
  }

  lemma ProductSplit(p: nat, low: nat, high: nat, r: nat)
    requires p > 0 && low < 0x40 && r < p
    ensures p * (0x40 * high + low) + r == 0x40 * p * high + (p * low + r)
    ensures 0 <= p * low + r < 0x40 * p
  {
    assert p * (0x40 * high + low) == p * (0x40 * high) + p * low;
    assert p * (0x40 * high) == 0x40 * p * high;
    assert p * low <= p * 0x3F;
  }

  class ParseBuffer {
    const content: seq<byte>
    var offset: nat
    var depth: nat

    ghost predicate Valid()
      reads this
    {
      offset <= |content|
    }

    ghost function Rest(): seq<byte>
      requires Valid()
      reads this
    {
      content[offset..]
    }

    constructor (text: seq<byte>)
      ensures Valid() && content == text && offset == 0 && depth == 0
    {
      content, offset, depth := text, 0, 0;
    }

    method SkipWhitespace()
      requires Valid()
      modifies this`offset
      ensures Valid() && offset >= old(offset) && Rest() == Skip(old(Rest()))
    {
      if offset == |content| {
        return;
      }
      while offset < |content| && content[offset] <= 32
        invariant old(offset) <= offset <= |content|
        invariant Rest() == [] ==> Skip(old(Rest())) == content[|content| - 1..]
        invariant Rest() != [] ==> Skip(old(Rest())) == Skip(Rest())
        decreases |content| - offset
      {
        assert content[offset..][1..] == content[offset + 1..];
        offset := offset + 1;
      }
      if offset == |content| {
        offset := offset - 1;
      }
    }

    /** Moves past a byte if it comes next. */
    method Take(c: byte) returns (found: bool)
      requires Valid()
      modifies this`offset
      ensures Valid() && found == At(old(Rest()), c)
      ensures offset == old(offset) + if found then 1 else 0
      ensures Rest() == if found then old(Rest())[1..] else old(Rest())
    {
      found := offset < |content| && content[offset] == c;
      assert found ==> content[offset..][1..] == content[offset + 1..];
      if found {
        offset := offset + 1;
      }
    }

    /** Moves past a word if it comes next. */
    method Accept(word: seq<byte>) returns (found: bool)
      requires Valid()
      modifies this`offset
      ensures Valid() && found == StartsWith(old(Rest()), word)
      ensures offset == old(offset) + if found then |word| else 0
    {
      found := offset + |word| <= |content| && content[offset..offset + |word|] == word;
      assert |word| <= |Rest()| ==> Rest()[..|word|] == content[offset..offset + |word|];
      if found {
        offset := offset + |word|;
      }
    }

    /** The loop that copies a number's bytes aside. */
    method CopyNumber() returns (token: seq<byte>)
      requires Valid()
      ensures token == Rest()[..NumberLength(Rest(), NUMBER_BUFFER)]
    {
      var i: nat := 0;
      token := [];
      ghost var s := Rest();
      while i < NUMBER_BUFFER && offset + i < |content| && IsNumberByte(content[offset + i])
        invariant i <= |s| && token == s[..i] && NumberGoesOn(s, i)
      {
        NumberStep(s, i);
        assert s[..i + 1] == s[..i] + [s[i]];
        token := token + [content[offset + i]];
        i := i + 1;
      }
    }

    method ReadNumber() returns (v: Option<Json>)
      requires Valid()
      modifies this`offset
      ensures Valid()
      ensures v.None? <==> ParseNumber(old(Rest())).None?
      ensures v.Some? ==> ParseNumber(old(Rest())) == Some((v.value, Rest()))
    {
      var token := CopyNumber();
      var n := Number(token);
      if n.None? {
        return None;
      }
      assert Rest()[n.value.1..] == content[offset + n.value.1..];
      offset := offset + n.value.1;
      return Some(n.value.0);
    }

    /** utf16_literal_to_utf8 at position p of a literal that closes at end. */
    method ReadUtf16(p: nat, end: nat) returns (r: Option<(seq<byte>, nat)>)
      requires p < end < |content|
      ensures r == Utf16(content[p..], end - p)
    {
      if end - p < 6 { return None; }
      ghost var s := content[p..];
      assert content[p + 2..p + 6] == s[2..6];
      var first := ParseHex4(content[p + 2..p + 6]);
      if 0xDC00 <= first <= 0xDFFF { return None; }
      if 0xD800 <= first <= 0xDBFF {
        var q := p + 6;
        if end - q < 6 { return None; }
        if content[q] != BACKSLASH || content[q + 1] != 117 { return None; }
        assert content[q + 2..q + 6] == s[8..12];
        var second := ParseHex4(content[q + 2..q + 6]);
        if second < 0xDC00 || second > 0xDFFF { return None; }
        var wide := EncodeUtf8(0x1_0000 + first % 0x400 * 0x400 + second % 0x400);
        return Some((wide, 12));
      }
      var out := EncodeUtf8(first);
      return Some((out, 6));
    }

    /** The first pass of parse_string: the closing quote. */
    method FindEnd() returns (end: Option<nat>)
      requires Valid() && offset < |content|
      ensures end == LiteralEnd(content, offset)
    {
      var e := offset + 1;
      ghost var all := StringEnd(content[e..]);
      while e < |content| && content[e] != QUOTE
        invariant offset < e <= |content|
        invariant EndAt(content, e, all, offset + 1)
        decreases |content| - e
      {
        var next := PassByte(e, all, offset + 1);
        if next.None? { return None; }
        e := next.value;
      }
      EndStop(content, e, all, offset + 1);
      return if e < |content| then Some(e) else None;
    }

    /** One pass of that loop: a byte, or an escape unless the content ends within it. */
    method PassByte(e: nat, ghost all: Option<nat>, ghost start: nat) returns (next: Option<nat>)
      requires e < |content| && content[e] != QUOTE && EndAt(content, e, all, start)
      ensures next.None? ==> all == None
      ensures next.Some? ==> e < next.value && EndAt(content, next.value, all, start)
    {
      EndStep(content, e, all, start);
      if content[e] == BACKSLASH {
        return if e + 1 >= |content| then None else Some(e + 2);
      }
      return Some(e + 1);
    }

    /** One element of a literal that closes at end: the bytes to write and how
        many were read. */
    method ReadElement(p: nat, end: nat) returns (r: Option<(seq<byte>, nat)>)
      requires p < end < |content|
      ensures r == Element(content[p..], end - p)
    {
      if content[p] != BACKSLASH {
        return Some(([content[p]], 1));
      } else if content[p + 1] == 117 {
        r := ReadUtf16(p, end);
      } else if Unescape(content[p + 1]) != 0 {
        return Some(([Unescape(content[p + 1])], 2));
      } else {
        return None;
      }
    }

    /** One pass of the loop below; ok says whether the element could be read. */
    method NextElement(p: nat, end: nat, out: seq<byte>, ghost all: Option<seq<byte>>)
      returns (next: nat, text: seq<byte>, ok: bool)
      requires p < end < |content| && DecodesAt(content, p, end, out, all)
      ensures ok ==> p < next && DecodesAt(content, next, end, text, all)
      ensures !ok ==> all == None
    {
      var r := ReadElement(p, end);
      DecodesStep(content, p, end, out, all);
      ok := r.Some?;
      next, text := p, out;
      if ok {
        next, text := p + r.value.1, out + r.value.0;
      }
    }

    /** The second pass: the bytes between the quotes, unescaped. */
    method ReadElements(open: nat, end: nat) returns (text: Option<seq<byte>>)
      requires open < end < |content|
      ensures text == LiteralText(content, open, end)
    {
      var p: nat, out: seq<byte> := open + 1, [];
      ghost var all := LiteralText(content, open, end);
      DecodesStart(content, open, end);
      var ok := true;
      while p < end && ok
        invariant ok ==> DecodesAt(content, p, end, out, all)
        invariant !ok ==> all == None
        decreases ok, end + 1 - p
      {
        p, out, ok := NextElement(p, end, out, all);
      }
      if ok {
        DecodesEnd(content, p, end, out, all);
      }
      return if ok then Some(out) else None;
    }

    method ReadString() returns (text: Option<seq<byte>>)
      requires Valid()
      modifies this`offset
      ensures Valid()
      ensures ReadsAs(content, old(offset), text, offset)
    {
      ghost var was := offset;
      if offset == |content| || content[offset] != QUOTE {
        StringFails(content, was);
        return None;
      }
      var end := FindEnd();
      if end.None? {
        StringFails(content, was);
        return None;
      }
      var out := ReadElements(offset, end.value);
      StringReads(content, was, end, out);
      if out.None? { return None; }
      offset := end.value + 1;
      return Some(CString(out.value));
    }

    method ReadValue() returns (v: Option<Json>)
      requires Valid()
      modifies this
      ensures Valid()
      ensures v.None? <==> ParseValue(old(Rest()), old(depth)).None?
      ensures v.Some? ==> ParseValue(old(Rest()), old(depth)) == Some((v.value, Rest())) && depth == old(depth)
      decreases |Rest()|, 2
    {
      ghost var s := Rest();
      var found := Accept(NULL_TEXT);
      if found { return Some(Null); }
      found := Accept(FALSE_TEXT);
      if found { return Some(Bool(false)); }
      found := Accept(TRUE_TEXT);
      if found { return Some(Bool(true)); }
      if offset == |content| { return None; }
      if content[offset] == QUOTE {
        var text := ReadString();
        return if text.None? then None else Some(Str(text.value));
      } else if content[offset] == MINUS || IsDigit(content[offset]) {
        v := ReadNumber();
      } else if content[offset] == OPEN_ARRAY {
        v := ReadArray();
      } else if content[offset] == OPEN_OBJECT {
        v := ReadObject();
      } else {
        return None;
      }
    }

    /** Moves past an opening bracket, and past the closing one if it comes next. */
    method Enter(close: byte) returns (empty: bool)
      requires Valid() && Rest() != []
      modifies this`offset
      ensures Valid() && empty == At(Skip(old(Rest())[1..]), close) && offset > old(offset)
      ensures Rest() == if empty then Skip(old(Rest())[1..])[1..] else Skip(old(Rest())[1..])
    {
      assert Rest()[1..] == content[offset + 1..];
      offset := offset + 1;
      SkipWhitespace();
      empty := Take(close);
    }

    method ReadArray() returns (v: Option<Json>)
      requires Valid() && At(Rest(), OPEN_ARRAY)
      modifies this
      ensures Valid()
      ensures v.None? <==> ParseArray(old(Rest()), old(depth)).None?
      ensures v.Some? ==> ParseArray(old(Rest()), old(depth)) == Some((v.value, Rest())) && depth == old(depth)
      decreases |Rest()|, 1
    {
      if depth >= NESTING_LIMIT { return None; }
      depth := depth + 1;
      var empty := Enter(CLOSE_ARRAY);
      if empty {
        depth := depth - 1;
        return Some(Arr([]));
      }
      if offset == |content| { return None; }
      var items := ReadItems();
      if items.None? { return None; }
      depth := depth - 1;
      return Some(Arr(items.value));
    }

    /** The loop over comma-separated items, up to the closing bracket. */
    method ReadItems() returns (items: Option<seq<Json>>)
      requires Valid()
      modifies this
      ensures Valid()
      ensures items.None? <==> ParseItems(old(Rest()), old(depth)).None?
      ensures items.Some? ==> ParseItems(old(Rest()), old(depth)) == Some((items.value, Rest())) && depth == old(depth)
      decreases |Rest()|, 5
    {
      var sofar: seq<Json> := [];
      var more := true;
      ghost var all := ParseItems(Rest(), depth);
      ItemsStart(Rest(), depth);
      while more
        invariant Valid() && offset >= old(offset) && depth == old(depth)
        invariant more ==> ItemsGoOn(sofar, Rest(), depth, all)
        invariant !more ==> ItemsStop(sofar, Rest(), all)
        decreases more, |content| - offset
      {
        var item: Option<Json>;
        item, more := NextItem(sofar, all);
        if item.None? { return None; }
        sofar := sofar + [item.value];
      }
      var closed := Take(CLOSE_ARRAY);
      return if closed then Some(sofar) else None;
    }

    /** One pass of that loop; more says whether a comma followed, which is read too. */
    method NextItem(ghost sofar: seq<Json>, ghost all: Option<(seq<Json>, Suffix)>)
      returns (item: Option<Json>, more: bool)
      requires Valid() && ItemsGoOn(sofar, Rest(), depth, all)
      modifies this
      ensures Valid()
      ensures item.None? ==> all == None
      ensures item.Some? ==> depth == old(depth) && offset >= old(offset) && (more ==> offset > old(offset))
      ensures item.Some? && more ==> ItemsGoOn(sofar + [item.value], Rest(), depth, all)
      ensures item.Some? && !more ==> ItemsStop(sofar + [item.value], Rest(), all)
      decreases |Rest()|, 4
    {
      ghost var here, start := Rest(), depth;
      more := false;
      item := ReadSpaced();
      if item.None? {
        ItemsFail(sofar, here, start, all);
        return;
      }
      ItemsStep(sofar, item.value, here, Rest(), depth, all);
      more := Take(COMMA);
    }

    /** A value with the whitespace before and behind it. */
    method ReadSpaced() returns (v: Option<Json>)
      requires Valid()
      modifies this
      ensures Valid()
      ensures v.None? <==> ParseValue(Skip(old(Rest())), old(depth)).None?
      ensures v.Some? ==> depth == old(depth) && offset >= old(offset)
      ensures v.Some? ==>
        var p := ParseValue(Skip(old(Rest())), old(depth)).value; p.0 == v.value && Rest() == Skip(p.1)
      decreases |Rest()|, 3
    {
      SkipWhitespace();
      v := ReadValue();
      if v.Some? {
        SkipWhitespace();
      }
    }

    method ReadObject() returns (v: Option<Json>)
      requires Valid() && At(Rest(), OPEN_OBJECT)
      modifies this
      ensures Valid()
      ensures v.None? <==> ParseObject(old(Rest()), old(depth)).None?
      ensures v.Some? ==> ParseObject(old(Rest()), old(depth)) == Some((v.value, Rest())) && depth == old(depth)
      decreases |Rest()|, 1
    {
      if depth >= NESTING_LIMIT { return None; }
      depth := depth + 1;
      var empty := Enter(CLOSE_OBJECT);
      if empty {
        depth := depth - 1;
        return Some(Obj([]));
      }
      if offset == |content| { return None; }
      var members := ReadMembers();
      if members.None? { return None; }
      depth := depth - 1;
      return Some(Obj(members.value));
    }

    /** The loop over comma-separated members, up to the closing bracket. */
    method ReadMembers() returns (members: Option<seq<Member>>)
      requires Valid()
      modifies this
      ensures Valid()
      ensures members.None? <==> ParseMembers(old(Rest()), old(depth)).None?
      ensures members.Some? ==> ParseMembers(old(Rest()), old(depth)) == Some((members.value, Rest()))
      ensures members.Some? ==> depth == old(depth)
      decreases |Rest()|, 5
    {
      var sofar: seq<Member> := [];
      var more := true;
      ghost var all := ParseMembers(Rest(), depth);
      MembersStart(Rest(), depth);
      while more
        invariant Valid() && offset >= old(offset) && depth == old(depth)
        invariant more ==> MembersGoOn(sofar, Rest(), depth, all)
        invariant !more ==> MembersStop(sofar, Rest(), all)
        decreases more, |content| - offset
      {
        var m: Option<Member>;
        m, more := NextMember(sofar, all);
        if m.None? { return None; }
        sofar := sofar + [m.value];
      }
      var closed := Take(CLOSE_OBJECT);
      return if closed then Some(sofar) else None;
    }

    /** One pass of that loop; more says whether a comma followed, which is read too. */
    method NextMember(ghost sofar: seq<Member>, ghost all: Option<(seq<Member>, Suffix)>)
      returns (m: Option<Member>, more: bool)
      requires Valid() && MembersGoOn(sofar, Rest(), depth, all)
      modifies this
      ensures Valid()
      ensures m.None? ==> all == None
      ensures m.Some? ==> depth == old(depth) && offset >= old(offset) && (more ==> offset > old(offset))
      ensures m.Some? && more ==> MembersGoOn(sofar + [m.value], Rest(), depth, all)
      ensures m.Some? && !more ==> MembersStop(sofar + [m.value], Rest(), all)
      decreases |Rest()|, 4
    {
      ghost var here, start := Rest(), depth;
      more := false;
      m := ReadMember();
      if m.None? {
        MembersFail(sofar, here, start, all);
        return;
      }
      SkipWhitespace();
      MembersStep(sofar, m.value, here, Rest(), depth, all);
      more := Take(COMMA);
    }

    method ReadMember() returns (m: Option<Member>)
      requires Valid()
      modifies this
      ensures Valid()
      ensures m.None? <==> ParseMember(old(Rest()), old(depth)).None?
      ensures m.Some? ==> ParseMember(old(Rest()), old(depth)) == Some((m.value, Rest())) && depth == old(depth)
      decreases |Rest()|, 3
    {
      ghost var s, d := Rest(), depth;
      var key := ReadKey();
      MemberParses(s, d, key, Rest());
      if key.None? { return None; }
      var value := ReadValue();
      if value.None? { return None; }
      return Some(Member(key.value, value.value));
    }

    /** The name of a member and the colon behind it. */
    method ReadKey() returns (key: Option<seq<byte>>)
      requires Valid()
      modifies this`offset
      ensures Valid() && KeyReads(old(Rest()), key, Rest())
      ensures key.Some? ==> |Rest()| < |old(Rest())|
    {
      SkipWhitespace();
      key := ReadString();
      if key.None? { return None; }
      SkipWhitespace();
      var colon := Take(COLON);
      if !colon { return None; }
      SkipWhitespace();
    }

    /** cJSON_ParseWithLengthOpts. */
    method ParseAll(terminated: bool) returns (v: Option<Json>)
      requires Valid() && offset == 0 && depth == 0
      modifies this
      ensures v == ParseContent(content, terminated)
    {
      if |content| == 0 { return None; }
      assert content[0..] == content;
      if |content| > 4 {
        var bom := Accept(BOM);
      }
      SkipWhitespace();
      v := ReadValue();
      if v.Some? && terminated {
        SkipWhitespace();
        if offset >= |content| || content[offset] != 0 { return None; }
      }
    }
  }

  /** all is where the quote lies counting from start; scanning from e finds it too. */
  ghost predicate EndAt(content: seq<byte>, e: nat, all: Option<nat>, start: nat) {
    start <= e <= |content| && all == Later(StringEnd(content[e..]), e - start)
  }

  /** Scanning for the closing quote goes on behind a byte or an escape. */
  lemma EndStep(content: seq<byte>, e: nat, all: Option<nat>, start: nat)
    requires e < |content| && content[e] != QUOTE && EndAt(content, e, all, start)
    ensures content[e] != BACKSLASH ==> EndAt(content, e + 1, all, start)
    ensures content[e] == BACKSLASH && e + 1 >= |content| ==> all == None
    ensures content[e] == BACKSLASH && e + 1 < |content| ==> EndAt(content, e + 2, all, start)
  {
    if content[e] != BACKSLASH {
      assert content[e..][1..] == content[e + 1..];
    } else if e + 1 < |content| {
      assert content[e..][2..] == content[e + 2..];
    }
  }

  lemma EndStop(content: seq<byte>, e: nat, all: Option<nat>, start: nat)
    requires e <= |content| && (e < |content| ==> content[e] == QUOTE) && EndAt(content, e, all, start)
    ensures all == if e < |content| then Some(e - start) else None
  {
  }

  /** all is the decoded literal; out is what comes before position p. */
  ghost predicate DecodesAt(content: seq<byte>, p: nat, end: nat, out: seq<byte>, all: Option<seq<byte>>) {
    end < |content| && p <= end + 1 &&
    if p > end then all == Some(out)
    else
      var rest := Decoded(content[p..], end - p);
      all == if rest.None? then None else Some(out + rest.value)
  }

  lemma DecodesStart(content: seq<byte>, offset: nat, end: nat)
    requires offset < end < |content|
    ensures DecodesAt(content, offset + 1, end, [], LiteralText(content, offset, end))
  {
    var all := LiteralText(content, offset, end);
    if all.Some? {
      assert [] + all.value == all.value;
    }
  }

  lemma DecodesStep(content: seq<byte>, p: nat, end: nat, out: seq<byte>, all: Option<seq<byte>>)
    requires p < end && DecodesAt(content, p, end, out, all)
    ensures var e := Element(content[p..], end - p);
      if e.None? then all == None else DecodesAt(content, p + e.value.1, end, out + e.value.0, all)
  {
    var e := Element(content[p..], end - p);
    if e.Some? && p + e.value.1 <= end {
      assert content[p..][e.value.1..] == content[p + e.value.1..];
      var rest := Decoded(content[p + e.value.1..], end - p - e.value.1);
      if rest.Some? {
        Associates(out, e.value.0, rest.value);
      }
    }
  }

  lemma DecodesEnd(content: seq<byte>, p: nat, end: nat, out: seq<byte>, all: Option<seq<byte>>)
    requires p >= end && DecodesAt(content, p, end, out, all)
    ensures all == Some(out)
  {
    assert out + [] == out;
  }

  /** The first i bytes belong to the number. */
  ghost predicate NumberGoesOn(s: Suffix, i: nat) {
    i <= NUMBER_BUFFER && i <= |s| && NumberLength(s, NUMBER_BUFFER) == i + NumberLength(s[i..], NUMBER_BUFFER - i)
  }

  lemma NumberStep(s: Suffix, i: nat)
    requires NumberGoesOn(s, i) && i < NUMBER_BUFFER && i < |s| && IsNumberByte(s[i])
    ensures NumberGoesOn(s, i + 1)
  {
    assert s[i..][1..] == s[i + 1..];
  }

  /** A key and its colon come next, and rest is where the value starts. */
  ghost predicate KeyReads(s: Suffix, key: Option<seq<byte>>, rest: Suffix) {
    var k := ParseString(Skip(s));
    if k.None? || !At(Skip(k.value.1), COLON) then key == None
    else key == Some(k.value.0) && rest == Skip(Skip(k.value.1)[1..])
  }

  lemma MemberParses(s: Suffix, depth: nat, key: Option<seq<byte>>, rest: Suffix)
    requires KeyReads(s, key, rest)
    ensures ParseMember(s, depth) ==
      var v := ParseValue(rest, depth);
      if key.None? || v.None? then None else Some((Member(key.value, v.value.0), v.value.1))
  {
  }

  /** Where the literal opened at offset closes. */
  function LiteralEnd(content: seq<byte>, offset: nat): (end: Option<nat>)
    requires offset < |content|
    ensures end.Some? ==> offset < end.value < |content|
  {
    Later(StringEnd(content[offset + 1..]), offset + 1)
  }

  function LiteralText(content: seq<byte>, offset: nat, end: nat): Option<seq<byte>>
    requires offset < end < |content|
  {
    Decoded(content[offset + 1..], end - offset - 1)
  }

  /** The string literal at offset reads as text and ends before next. */
  ghost predicate ReadsAs(content: seq<byte>, offset: nat, text: Option<seq<byte>>, next: nat) {
    offset <= |content| &&
    if text.None? then ParseString(content[offset..]) == None
    else next <= |content| && ParseString(content[offset..]) == Some((text.value, content[next..]))
  }

  /** A string literal that closes at end and decodes to text. */
  lemma StringReads(content: seq<byte>, offset: nat, end: Option<nat>, text: Option<seq<byte>>)
    requires offset < |content| && content[offset] == QUOTE
    requires end == LiteralEnd(content, offset) && end.Some?
    requires text == LiteralText(content, offset, end.value)
    ensures ReadsAs(content, offset, if text.None? then None else Some(CString(text.value)), end.value + 1)
  {
    var body := content[offset + 1..];
    assert content[offset..][1..] == body;
    assert body[end.value - offset - 1 + 1..] == content[end.value + 1..];
  }

  lemma StringFails(content: seq<byte>, offset: nat)
    requires offset <= |content|
    requires offset < |content| && content[offset] == QUOTE ==> LiteralEnd(content, offset).None?
    ensures ReadsAs(content, offset, None, offset)
  {
    if offset < |content| {
      assert content[offset..][1..] == content[offset + 1..];
    }
  }

  /** all is what the loop should yield; sofar is what comes before here. */
  ghost predicate ItemsGoOn(sofar: seq<Json>, here: Suffix, depth: nat, all: Option<(seq<Json>, Suffix)>) {
    var rest := ParseItems(here, depth);
    all == if rest.None? then None else Some((sofar + rest.value.0, rest.value.1))
  }

  /** The last one has been read and s is what follows. */
  ghost predicate ItemsStop(sofar: seq<Json>, s: Suffix, all: Option<(seq<Json>, Suffix)>) {
    all == if At(s, CLOSE_ARRAY) then Some((sofar, s[1..])) else None
  }

  lemma ItemsStart(here: Suffix, depth: nat)
    ensures ItemsGoOn([], here, depth, ParseItems(here, depth))
  {
    var all := ParseItems(here, depth);
    if all.Some? {
      assert [] + all.value.0 == all.value.0;
    }
  }

  lemma ItemsFail(sofar: seq<Json>, here: Suffix, depth: nat, all: Option<(seq<Json>, Suffix)>)
    requires ItemsGoOn(sofar, here, depth, all) && ParseValue(Skip(here), depth).None?
    ensures all == None
  {
  }

  lemma ItemsStep(sofar: seq<Json>, item: Json, here: Suffix, after: Suffix, depth: nat,
    all: Option<(seq<Json>, Suffix)>)
    requires ItemsGoOn(sofar, here, depth, all)
    requires var v := ParseValue(Skip(here), depth); v.Some? && v.value.0 == item && after == Skip(v.value.1)
    ensures At(after, COMMA) ==> ItemsGoOn(sofar + [item], after[1..], depth, all)
    ensures !At(after, COMMA) ==> ItemsStop(sofar + [item], after, all)
  {
    if At(after, COMMA) && ParseItems(after[1..], depth).Some? {
      Associates(sofar, [item], ParseItems(after[1..], depth).value.0);
    }
  }

  /** all is what the loop should yield; sofar is what comes before here. */
  ghost predicate MembersGoOn(sofar: seq<Member>, here: Suffix, depth: nat, all: Option<(seq<Member>, Suffix)>) {
    var rest := ParseMembers(here, depth);
    all == if rest.None? then None else Some((sofar + rest.value.0, rest.value.1))
  }

  /** The last one has been read and s is what follows. */
  ghost predicate MembersStop(sofar: seq<Member>, s: Suffix, all: Option<(seq<Member>, Suffix)>) {
    all == if At(s, CLOSE_OBJECT) then Some((sofar, s[1..])) else None
  }

  lemma MembersStart(here: Suffix, depth: nat)
    ensures MembersGoOn([], here, depth, ParseMembers(here, depth))
  {
    var all := ParseMembers(here, depth);
    if all.Some? {
      assert [] + all.value.0 == all.value.0;
    }
  }

  lemma MembersFail(sofar: seq<Member>, here: Suffix, depth: nat, all: Option<(seq<Member>, Suffix)>)
    requires MembersGoOn(sofar, here, depth, all) && ParseMember(here, depth).None?
    ensures all == None
  {
  }

  lemma MembersStep(sofar: seq<Member>, m: Member, here: Suffix, after: Suffix, depth: nat,
    all: Option<(seq<Member>, Suffix)>)
    requires MembersGoOn(sofar, here, depth, all)
    requires var v := ParseMember(here, depth); v.Some? && v.value.0 == m && after == Skip(v.value.1)
    ensures At(after, COMMA) ==> MembersGoOn(sofar + [m], after[1..], depth, all)
    ensures !At(after, COMMA) ==> MembersStop(sofar + [m], after, all)
  {
    if At(after, COMMA) && ParseMembers(after[1..], depth).Some? {
      Associates(sofar, [m], ParseMembers(after[1..], depth).value.0);
    }
  }
}
