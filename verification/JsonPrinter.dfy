/** The printer of app/cJSON.c as it runs: values are written behind the offset as
    C strings, and the offset catches up by measuring them. */
module JsonPrinter {
  import opened Prelude
  import opened Bytes
  import opened Json

  class PrintBuffer {
    var buffer: array<byte>
    var offset: nat
    var depth: nat
    const format: bool

    ghost predicate Valid()
      reads this
    {
      offset < buffer.Length
    }

    /** The offset stands at the end of the text s. */
    ghost predicate Settled(s: seq<byte>)
      reads this, buffer
    {
      Valid() && buffer[..offset] == s
    }

    /** s is in the buffer, ended by a NUL; what lies behind the offset is a C string. */
    ghost predicate Pending(s: seq<byte>)
      reads this, buffer
    {
      Valid() && offset <= |s| < buffer.Length && buffer[..|s|] == s && buffer[|s|] == 0 && 0 !in s[offset..]
    }

    constructor (fmt: bool)
      ensures Settled([]) && fresh(buffer) && depth == 0 && format == fmt
    {
      buffer := new byte[256];
      offset, depth, format := 0, 0, fmt;
      new;
      assert buffer[..0] == [];
    }

    /** ensure: room for needed bytes and a NUL behind the offset. */
    method Ensure(needed: nat, ghost s: seq<byte>)
      requires Settled(s)
      modifies this`buffer
      ensures Settled(s) && (buffer == old(buffer) || fresh(buffer))
      ensures offset + needed + 1 <= buffer.Length
    {
      var total := needed + offset + 1;
      if total <= buffer.Length {
        return;
      }
      var was, n := buffer, offset;
      buffer := new byte[total * 2](i reads was => if 0 <= i <= n < was.Length then was[i] else 0);
      assert buffer[..offset] == was[..offset];
    }

    /** Copies bytes into the buffer. */
    method Copy(at: nat, bytes: seq<byte>)
      requires at + |bytes| <= buffer.Length
      modifies buffer
      ensures buffer[..at + |bytes|] == old(buffer[..at]) + bytes
      ensures forall i | at + |bytes| <= i < buffer.Length :: buffer[i] == old(buffer[i])
    {
      forall i | 0 <= i < |bytes| {
        buffer[at + i] := bytes[i];
      }
    }

    /** strcpy of a word behind the offset. */
    method PutWord(word: seq<byte>, ghost s: seq<byte>)
      requires Settled(s) && 0 !in word
      modifies this`buffer, buffer
      ensures Pending(s + word) && (buffer == old(buffer) || fresh(buffer))
    {
      Ensure(|word| + 1, s);
      Copy(offset, word + [0]);
      Terminated(s, word, buffer[..offset + |word| + 1]);
    }

    /** Punctuation and indentation: written, and the offset moved at once. */
    method Emit(bytes: seq<byte>, ghost s: seq<byte>)
      requires Settled(s)
      modifies this`buffer, this`offset, buffer
      ensures Settled(s + bytes) && (buffer == old(buffer) || fresh(buffer))
    {
      Ensure(|bytes| + 1, s);
      Copy(offset, bytes);
      assert buffer[..offset + |bytes|] == s + bytes;
      offset := offset + |bytes|;
    }

    /** update_offset: strlen of what lies behind the offset. */
    method UpdateOffset(ghost s: seq<byte>)
      requires Pending(s)
      modifies this`offset
      ensures Settled(s)
    {
      var end := offset;
      assert forall k | offset <= k < |s| :: s[k] == s[offset..][k - offset] && s[k] == buffer[..|s|][k];
      while buffer[end] != 0
        invariant offset <= end <= |s|
        decreases |s| - end
      {
        end := end + 1;
      }
      offset := end;
    }

    method PrintNumber(i: int, ghost s: seq<byte>)
      requires Settled(s)
      modifies this`buffer, this`offset, buffer
      ensures Pending(s + Decimal(i)) && (buffer == old(buffer) || fresh(buffer))
    {
      var digits := Decimal(i);
      Ensure(|digits| + 1, s);
      Copy(offset, digits + [0]);
      Terminated(s, digits, buffer[..offset + |digits| + 1]);
      offset := offset + |digits|;
    }

    /** How many bytes escaping adds. */
    method CountEscapes(text: seq<byte>) returns (n: nat)
      ensures n == |Escaped(text)| - |text|
    {
      n := 0;
      for i := 0 to |text|
        invariant n == |Escaped(text[..i])| - i
      {
        EscapedMore(text, i);
        if EscapeLetter(text[i]) != 0 {
          n := n + 1;
        } else if text[i] < 32 {
          n := n + 5;
        }
      }
      assert text[..|text|] == text;
    }

    /** print_string_ptr: measure, then copy, or escape byte by byte. */
    method PrintStringPtr(text: seq<byte>, ghost s: seq<byte>)
      requires Settled(s) && 0 !in text
      modifies this`buffer, buffer
      ensures Pending(s + PrintString(text)) && (buffer == old(buffer) || fresh(buffer))
    {
      var escapes := CountEscapes(text);
      Ensure(|text| + escapes + 3, s);
      WriteQuoted(text, escapes);
      EscapedHasNoNul(text);
      Terminated(s, PrintString(text), buffer[..offset + |text| + escapes + 3]);
    }

    method WriteQuoted(text: seq<byte>, escapes: nat)
      requires escapes == |Escaped(text)| - |text| && offset + |text| + escapes + 3 <= buffer.Length
      modifies buffer
      ensures buffer[..offset + |text| + escapes + 3] == old(buffer[..offset]) + (PrintString(text) + [0])
    {
      ghost var before := buffer[..offset];
      Copy(offset, [QUOTE]);
      WriteBody(offset + 1, text, escapes);
      Copy(offset + 1 + |text| + escapes, [QUOTE, 0]);
      Closing(before, Escaped(text));
    }

    method WriteBody(at: nat, text: seq<byte>, escapes: nat)
      requires escapes == |Escaped(text)| - |text| && at + |text| + escapes <= buffer.Length
      modifies buffer
      ensures buffer[..at + |text| + escapes] == old(buffer[..at]) + Escaped(text)
    {
      if escapes == 0 {
        NothingEscaped(text);
        Copy(at, text);
      } else {
        WriteEscaped(at, text);
      }
    }

    /** The escaping loop, writing from position at. */
    method WriteEscaped(at: nat, text: seq<byte>)
      requires at + |Escaped(text)| <= buffer.Length
      modifies buffer
      ensures buffer[..at + |Escaped(text)|] == old(buffer[..at]) + Escaped(text)
    {
      var out := at;
      ghost var before := buffer[..at];
      for i := 0 to |text|
        invariant out == at + |Escaped(text[..i])| <= buffer.Length
        invariant buffer[..out] == before + Escaped(text[..i])
      {
        EscapedMore(text, i);
        EscapedPrefix(text, i + 1);
        Copy(out, Escape(text[i]));
        Associates(before, Escaped(text[..i]), Escape(text[i]));
        out := out + |Escape(text[i])|;
      }
      assert text[..|text|] == text;
    }

    method PrintValue(t: Json, ghost s: seq<byte>)
      requires Settled(s) && Plain(t)
      modifies this`buffer, this`offset, this`depth, buffer
      ensures Pending(s + Print(t, depth, format)) && depth == old(depth) && (buffer == old(buffer) || fresh(buffer))
      decreases t
    {
      match t {
        case Null => PutWord(NULL_TEXT, s);
        case Bool(b) => PutWord(if b then TRUE_TEXT else FALSE_TEXT, s);
        case Num(i) => PrintNumber(i, s);
        case Str(text) => PrintStringPtr(text, s);
        case Arr(items) => PrintArray(items, s);
        case Obj(members) => PrintObject(members, s);
      }
    }

    method PrintArray(items: seq<Json>, ghost s: seq<byte>)
      requires Settled(s) && PlainItems(items)
      modifies this`buffer, this`offset, this`depth, buffer
      ensures Pending(s + Print(Arr(items), depth, format)) && depth == old(depth) &&
        (buffer == old(buffer) || fresh(buffer))
      decreases items, 2
    {
      ghost var level := depth;
      Emit([OPEN_ARRAY], s);
      depth := depth + 1;
      PrintEach(items, s + [OPEN_ARRAY]);
      ArrayText(items, level, format, s);
      Close([CLOSE_ARRAY], s + [OPEN_ARRAY] + PrintItems(items, level + 1, format),
            s + Print(Arr(items), level, format));
    }

    /** The closing bracket, one level further out. */
    method Close(text: seq<byte>, ghost s: seq<byte>, ghost whole: seq<byte>)
      requires Settled(s) && 0 !in text && depth > 0 && s + text == whole
      modifies this`buffer, this`depth, buffer
      ensures Pending(whole) && depth == old(depth) - 1 && (buffer == old(buffer) || fresh(buffer))
    {
      PutWord(text, s);
      depth := depth - 1;
    }

    /** The loop of print_array. */
    method PrintEach(items: seq<Json>, ghost s: seq<byte>)
      requires Settled(s) && PlainItems(items)
      modifies this`buffer, this`offset, this`depth, buffer
      ensures Settled(s + PrintItems(items, depth, format)) && depth == old(depth) &&
        (buffer == old(buffer) || fresh(buffer))
      decreases items, 1
    {
      ghost var done: seq<byte> := s;
      assert items[0..] == items;
      for k := 0 to |items|
        invariant Settled(done) && depth == old(depth) && (buffer == old(buffer) || fresh(buffer))
        invariant ItemsLeft(done, items, k, depth, format, s)
      {
        PlainItemAt(items, k);
        ItemsFrom(items, k, depth, format, done, s);
        PrintValue(items[k], done);
        UpdateOffset(done + Print(items[k], depth, format));
        Emit(If(k + 1 < |items|, ItemSeparator(format)), done + Print(items[k], depth, format));
        done := done + Print(items[k], depth, format) + If(k + 1 < |items|, ItemSeparator(format));
      }
      ItemsDone(done, items, depth, format, s);
    }

    method PrintObject(members: seq<Member>, ghost s: seq<byte>)
      requires Settled(s) && PlainMembers(members)
      modifies this`buffer, this`offset, this`depth, buffer
      ensures Pending(s + Print(Obj(members), depth, format)) && depth == old(depth) &&
        (buffer == old(buffer) || fresh(buffer))
      decreases members, 2
    {
      ghost var level := depth;
      PrintOpenObject(members, s);
      ObjectText(members, level, format, s);
      CloseObject(OpenObject(members, level, format, s), s + Print(Obj(members), level, format));
    }

    method CloseObject(ghost s: seq<byte>, ghost whole: seq<byte>)
      requires depth > 0 && Settled(s) && s + (If(format, Tabs(depth - 1)) + [CLOSE_OBJECT]) == whole
      modifies this`buffer, this`depth, buffer
      ensures Pending(whole) && depth == old(depth) - 1 && (buffer == old(buffer) || fresh(buffer))
    {
      Close(If(format, Tabs(depth - 1)) + [CLOSE_OBJECT], s, whole);
    }

    method PrintOpenObject(members: seq<Member>, ghost s: seq<byte>)
      requires Settled(s) && PlainMembers(members)
      modifies this`buffer, this`offset, this`depth, buffer
      ensures Settled(OpenObject(members, old(depth), format, s)) && depth == old(depth) + 1
      ensures buffer == old(buffer) || fresh(buffer)
      decreases members, 1, 1
    {
      Emit([OPEN_OBJECT] + If(format, [NEWLINE]), s);
      depth := depth + 1;
      PrintEachMember(members, s + ([OPEN_OBJECT] + If(format, [NEWLINE])));
    }

    /** The loop of print_object. */
    method PrintEachMember(members: seq<Member>, ghost s: seq<byte>)
      requires Settled(s) && PlainMembers(members)
      modifies this`buffer, this`offset, this`depth, buffer
      ensures Settled(s + PrintMembers(members, depth, format)) && depth == old(depth) &&
        (buffer == old(buffer) || fresh(buffer))
      decreases members, 1, 0
    {
      ghost var done: seq<byte> := s;
      assert members[0..] == members;
      for k := 0 to |members|
        invariant Settled(done) && depth == old(depth) && (buffer == old(buffer) || fresh(buffer))
        invariant MembersLeft(done, members, k, depth, format, s)
      {
        PlainMemberAt(members, k);
        MembersFrom(members, k, depth, format, done, s);
        PrintOneMember(members[k], k + 1 == |members|, done);
        done := done + MemberLine(members[k], k + 1 == |members|, depth, format);
      }
      MembersDone(done, members, depth, format, s);
    }

    method PrintOneMember(m: Member, last: bool, ghost s: seq<byte>)
      requires Settled(s) && PlainMember(m)
      modifies this`buffer, this`offset, this`depth, buffer
      ensures Settled(s + MemberLine(m, last, depth, format)) && depth == old(depth) &&
        (buffer == old(buffer) || fresh(buffer))
      decreases m
    {
      ghost var s3 := s + If(format, Tabs(depth)) + PrintString(m.key) + KeySeparator(format);
      PrintKey(m.key, s);
      PrintValue(m.value, s3);
      ghost var s4 := s3 + Print(m.value, depth, format);
      UpdateOffset(s4);
      Emit(If(!last, [COMMA]) + If(format, [NEWLINE]), s4);
      MemberRegrouped(s, If(format, Tabs(depth)), PrintString(m.key), KeySeparator(format),
        Print(m.value, depth, format), If(!last, [COMMA]) + If(format, [NEWLINE]));
    }

    method PrintKey(key: seq<byte>, ghost s: seq<byte>)
      requires Settled(s) && 0 !in key
      modifies this`buffer, this`offset, buffer
      ensures Settled(s + If(format, Tabs(depth)) + PrintString(key) + KeySeparator(format))
      ensures buffer == old(buffer) || fresh(buffer)
    {
      ghost var s1 := s + If(format, Tabs(depth));
      if format {
        Emit(Tabs(depth), s);
      }
      PrintStringPtr(key, s1);
      UpdateOffset(s1 + PrintString(key));
      Emit(KeySeparator(format), s1 + PrintString(key));
    }

    /** print: the finished text. */
    method PrintAll(t: Json) returns (text: seq<byte>)
      requires Settled([]) && Plain(t) && depth == 0
      modifies this`buffer, this`offset, this`depth, buffer
      ensures text == Print(t, 0, format)
    {
      PrintValue(t, []);
      assert [] + Print(t, 0, format) == Print(t, 0, format);
      UpdateOffset(Print(t, 0, format));
      text := buffer[..offset];
    }
  }

  // ----- Facts about printed text -----

  /** A printed member with what separates it from the next. */
  function MemberLine(m: Member, last: bool, depth: nat, format: bool): seq<byte> {
    PrintMember(m, depth, format) + (If(!last, [COMMA]) + If(format, [NEWLINE]))
  }

  lemma ArrayText(items: seq<Json>, depth: nat, format: bool, s: seq<byte>)
    ensures s + [OPEN_ARRAY] + PrintItems(items, depth + 1, format) + [CLOSE_ARRAY] ==
      s + Print(Arr(items), depth, format)
  {
    Regrouped(s, [OPEN_ARRAY], PrintItems(items, depth + 1, format), [CLOSE_ARRAY]);
  }

  /** An object up to its closing bracket. */
  function OpenObject(members: seq<Member>, depth: nat, format: bool, s: seq<byte>): seq<byte> {
    s + ([OPEN_OBJECT] + If(format, [NEWLINE])) + PrintMembers(members, depth + 1, format)
  }

  lemma ObjectText(members: seq<Member>, depth: nat, format: bool, s: seq<byte>)
    ensures OpenObject(members, depth, format, s) + (If(format, Tabs(depth)) + [CLOSE_OBJECT]) ==
      s + Print(Obj(members), depth, format)
  {
    var open, body := [OPEN_OBJECT] + If(format, [NEWLINE]), PrintMembers(members, depth + 1, format);
    Regrouped(s, open, body, If(format, Tabs(depth)) + [CLOSE_OBJECT]);
    Associates(open + body, If(format, Tabs(depth)), [CLOSE_OBJECT]);
  }

  lemma Regrouped(s: seq<byte>, a: seq<byte>, b: seq<byte>, c: seq<byte>)
    ensures s + a + b + c == s + (a + b + c)
  {
  }

  lemma MemberRegrouped(s: seq<byte>, a: seq<byte>, b: seq<byte>, c: seq<byte>, d: seq<byte>, e: seq<byte>)
    ensures s + a + b + c + d + e == s + (a + b + c + d + e)
  {
  }

  lemma {:induction false} PlainItemAt(items: seq<Json>, k: nat)
    requires PlainItems(items) && k < |items|
    ensures Plain(items[k])
  {
    if k > 0 {
      PlainItemAt(items[1..], k - 1);
    }
  }

  lemma {:induction false} PlainMemberAt(members: seq<Member>, k: nat)
    requires PlainMembers(members) && k < |members|
    ensures PlainMember(members[k])
  {
    if k > 0 {
      PlainMemberAt(members[1..], k - 1);
    }
  }

  /** done is s with the items before the k-th printed behind it. */
  ghost predicate ItemsLeft(done: seq<byte>, items: seq<Json>, k: nat, depth: nat, format: bool, s: seq<byte>) {
    k <= |items| && done + PrintItems(items[k..], depth, format) == s + PrintItems(items, depth, format)
  }

  lemma ItemsFrom(items: seq<Json>, k: nat, depth: nat, format: bool, done: seq<byte>, s: seq<byte>)
    requires k < |items| && ItemsLeft(done, items, k, depth, format, s)
    ensures ItemsLeft(done + Print(items[k], depth, format) + If(k + 1 < |items|, ItemSeparator(format)),
                      items, k + 1, depth, format, s)
  {
    assert items[k..][1..] == items[k + 1..];
    Regrouped(done, Print(items[k], depth, format), If(k + 1 < |items|, ItemSeparator(format)),
      PrintItems(items[k + 1..], depth, format));
  }

  lemma ItemsDone(done: seq<byte>, items: seq<Json>, depth: nat, format: bool, s: seq<byte>)
    requires ItemsLeft(done, items, |items|, depth, format, s)
    ensures done == s + PrintItems(items, depth, format)
  {
    assert done + [] == done;
  }

  ghost predicate MembersLeft(done: seq<byte>, members: seq<Member>, k: nat, depth: nat, format: bool, s: seq<byte>) {
    k <= |members| && done + PrintMembers(members[k..], depth, format) == s + PrintMembers(members, depth, format)
  }

  lemma MembersFrom(members: seq<Member>, k: nat, depth: nat, format: bool, done: seq<byte>, s: seq<byte>)
    requires k < |members| && MembersLeft(done, members, k, depth, format, s)
    ensures MembersLeft(done + MemberLine(members[k], k + 1 == |members|, depth, format),
                        members, k + 1, depth, format, s)
  {
    assert members[k..][1..] == members[k + 1..];
    var m, comma, line := PrintMember(members[k], depth, format), If(k + 1 < |members|, [COMMA]), If(format, [NEWLINE]);
    Associates(m, comma, line);
    Associates(done, m + (comma + line), PrintMembers(members[k + 1..], depth, format));
  }

  lemma MembersDone(done: seq<byte>, members: seq<Member>, depth: nat, format: bool, s: seq<byte>)
    requires MembersLeft(done, members, |members|, depth, format, s)
    ensures done == s + PrintMembers(members, depth, format)
  {
    assert done + [] == done;
  }

  lemma {:induction false} EscapedAppend(a: seq<byte>, b: seq<byte>)
    ensures Escaped(a + b) == Escaped(a) + Escaped(b)
  {
    if a == [] {
      assert a + b == b;
    } else {
      assert (a + b)[1..] == a[1..] + b;
      EscapedAppend(a[1..], b);
      Associates(Escape(a[0]), Escaped(a[1..]), Escaped(b));
    }
  }

  lemma EscapedMore(text: seq<byte>, i: nat)
    requires i < |text|
    ensures Escaped(text[..i + 1]) == Escaped(text[..i]) + Escape(text[i])
  {
    assert text[..i + 1] == text[..i] + [text[i]];
    EscapedAppend(text[..i], [text[i]]);
    assert Escaped([text[i]]) == Escape(text[i]) by {
      assert [text[i]][1..] == [];
    }
  }

  lemma EscapedPrefix(text: seq<byte>, i: nat)
    requires i <= |text|
    ensures |Escaped(text[..i])| <= |Escaped(text)|
  {
    EscapedAppend(text[..i], text[i..]);
    assert text[..i] + text[i..] == text;
  }

  lemma {:induction false} EscapedLength(text: seq<byte>)
    ensures |Escaped(text)| >= |text|
  {
    if text != [] {
      EscapedLength(text[1..]);
    }
  }

  /** When escaping adds nothing the text stands for itself. */
  lemma {:induction false} NothingEscaped(text: seq<byte>)
    requires |Escaped(text)| == |text|
    ensures Escaped(text) == text
  {
    if text != [] {
      EscapedLength(text[1..]);
      NothingEscaped(text[1..]);
    }
  }

  lemma {:induction false} EscapedHasNoNul(text: seq<byte>)
    requires 0 !in text
    ensures 0 !in PrintString(text)
  {
    if text != [] {
      assert text[0] in text;
      EscapedHasNoNul(text[1..]);
      assert PrintString(text[1..])[1..|Escaped(text[1..])| + 1] == Escaped(text[1..]);
    }
  }

  /** A word with its NUL behind s. */
  lemma Terminated(s: seq<byte>, word: seq<byte>, all: seq<byte>)
    requires all == s + (word + [0])
    ensures all[..|s + word|] == s + word && all[|s + word|] == 0 && (s + word)[|s|..] == word
  {
  }

  lemma Closing(s: seq<byte>, body: seq<byte>)
    ensures s + [QUOTE] + body + [QUOTE, 0] == s + ([QUOTE] + body + [QUOTE] + [0])
  {
  }
}
