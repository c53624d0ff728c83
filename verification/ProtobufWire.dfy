/** The protobuf wire format of app/engine/sparkplug_pb.c: the growable buffer,
    the writers, the reader and its cursor. */
module ProtobufWire {
  import opened Prelude
  import opened Bytes

  const TWO29 := 0x2000_0000
  const TWO31 := 0x8000_0000
  const TWO32 := 0x1_0000_0000
  const TWO63 := 0x8000_0000_0000_0000
  const TWO64 := 0x1_0000_0000_0000_0000

  /** (int)v for an unsigned v. */
  function ToInt32(v: nat): int {
    var low := v % TWO32;
    if low < TWO31 then low else low - TWO32
  }

  // ----- Variable-length integers -----

  function Varint(v: nat): (r: seq<byte>)
    ensures r != []
  {
    if v < 128 then [v] else [v % 128 + 128] + Varint(v / 128)
  }

  function Weight(k: nat): (w: nat)
    ensures w > 0
  {
    if k == 0 then 1 else 128 * Weight(k - 1)
  }

  /** What is left of 64 bits after k groups of seven. */
  function Room(k: nat): (r: nat)
    requires k <= 10
    ensures r > 0
    decreases 10 - k
  {
    if k == 10 then 1 else if k == 9 then 2 else 128 * Room(k + 1)
  }

  lemma RoomIs64Bits()
    ensures Room(0) == TWO64
  {
    assert Room(8) == 0x100 && Room(7) == 0x8000 && Room(6) == 0x40_0000;
    assert Room(5) == 0x2000_0000 && Room(4) == 0x10_0000_0000 && Room(3) == 0x800_0000_0000;
    assert Room(2) == 0x4_0000_0000_0000 && Room(1) == 0x200_0000_0000_0000;
  }

  /** The bits the k-th byte contributes; the tenth has room for one. */
  function Low(b: byte, k: nat): nat {
    if k == 9 then b % 2 else b % 128
  }

  /** The value of the groups from the k-th on and the bytes they take. */
  function Scan(s: seq<byte>, k: nat): (r: Option<(nat, nat)>)
    requires k <= 10
    ensures r.Some? ==> 0 < r.value.1 <= |s|
    decreases |s|
  {
    if s == [] || k == 10 then None
    else if s[0] < 128 then Some((Low(s[0], k), 1))
    else
      var rest := Scan(s[1..], k + 1);
      if rest.None? then None else Some((Low(s[0], k) + 128 * rest.value.0, rest.value.1 + 1))
  }

  /** Any bytes the reader accepts denote a 64-bit value. */
  lemma {:induction false} ScanBound(s: seq<byte>, k: nat)
    requires k <= 10 && Scan(s, k).Some?
    ensures Scan(s, k).value.0 < Room(k)
    decreases |s|
  {
    if s[0] >= 128 {
      ScanBound(s[1..], k + 1);
    }
  }

  /** Reading back a written value stops where the writer stopped. */
  lemma {:induction false} ScanVarint(v: nat, k: nat, rest: seq<byte>)
    requires k < 10 && v < Room(k)
    ensures Scan(Varint(v) + rest, k) == Some((v, |Varint(v)|))
    ensures |Varint(v)| <= 10 - k
    decreases 10 - k
  {
    var s := Varint(v) + rest;
    if v >= 128 {
      assert k < 9;
      ScanVarint(v / 128, k + 1, rest);
      assert s[1..] == Varint(v / 128) + rest;
    }
  }

  /** The reader looks at no byte past the ones it takes. */
  lemma {:induction false} ScanLocal(s: seq<byte>, k: nat, rest: seq<byte>)
    requires k <= 10 && Scan(s, k).Some?
    ensures Scan(s + rest, k) == Scan(s, k)
    decreases |s|
  {
    assert (s + rest)[0] == s[0];
    if s[0] >= 128 {
      ScanLocal(s[1..], k + 1, rest);
      assert (s + rest)[1..] == s[1..] + rest;
    }
  }

  /** (byte & 0x7F) << 7k in 64 bits. */
  lemma Shifted(b: byte, k: nat)
    requires k < 10
    ensures (b % 128 * Weight(k)) % TWO64 == Low(b, k) * Weight(k)
  {
    WeightValues();
    if k == 9 {
      assert b % 128 == 2 * (b % 128 / 2) + b % 2;
    } else {
      SmallProduct(b % 128, Weight(k));
    }
  }

  lemma WeightValues()
    ensures Weight(9) == TWO63 && forall k | 0 <= k <= 8 :: Weight(k) <= 0x100_0000_0000_0000
  {
    assert Weight(1) == 0x80 && Weight(2) == 0x4000 && Weight(3) == 0x20_0000 && Weight(4) == 0x1000_0000;
    assert Weight(5) == 0x8_0000_0000 && Weight(6) == 0x400_0000_0000 && Weight(7) == 0x2_0000_0000_0000;
    assert Weight(8) == 0x100_0000_0000_0000 && Weight(9) == TWO63;
  }

  lemma SmallProduct(x: nat, w: nat)
    requires x <= 127 && w <= 0x100_0000_0000_0000
    ensures (x * w) % TWO64 == x * w
  {
    var p := x * w;
    assert p <= 127 * w;
    SmallMod(p);
  }

  lemma SmallMod(p: nat)
    requires p < TWO64
    ensures p % TWO64 == p
  {
  }

  // ----- Fields -----

  datatype Content = Number(v: nat) | Fixed64(bits64: nat) | Chunk(bytes: seq<byte>) | Fixed32(bits32: nat)

  datatype Field = Field(number: int, content: Content)

  function WireType(c: Content): nat {
    match c
    case Number(_) => 0
    case Fixed64(_) => 1
    case Chunk(_) => 2
    case Fixed32(_) => 5
  }

  /** A field any writer may produce. */
  predicate WellFormed(f: Field) {
    0 < f.number < TWO29 &&
    match f.content
    case Number(v) => v < TWO64
    case Fixed64(v) => v < TWO64
    case Chunk(b) => |b| < TWO31
    case Fixed32(v) => v < TWO32
  }

  function WriteContent(c: Content): seq<byte> {
    match c
    case Number(v) => Varint(v)
    case Fixed64(v) => LittleBytes(v, 8)
    case Chunk(b) => Varint(|b|) + b
    case Fixed32(v) => LittleBytes(v, 4)
  }

  /** A writer's field numbers are positive. */
  function WriteField(f: Field): seq<byte> {
    Varint(if f.number < 0 then 0 else f.number * 8 + WireType(f.content)) + WriteContent(f.content)
  }

  predicate Legal(fs: seq<Field>) {
    forall i | 0 <= i < |fs| :: WellFormed(fs[i])
  }

  function WriteFields(fs: seq<Field>): seq<byte> {
    if fs == [] then [] else WriteField(fs[0]) + WriteFields(fs[1..])
  }

  function ReadContent(s: seq<byte>, wireType: nat): (r: Option<(Content, nat)>)
    ensures r.Some? ==> r.value.1 <= |s| && WireType(r.value.0) == wireType
  {
    if wireType == 0 then
      var v := Scan(s, 0);
      if v.None? then None else Some((Number(v.value.0), v.value.1))
    else if wireType == 1 then
      if |s| < 8 then None else Some((Fixed64(Little(s[..8])), 8))
    else if wireType == 5 then
      if |s| < 4 then None else Some((Fixed32(Little(s[..4])), 4))
    else if wireType == 2 then
      var v := Scan(s, 0);
      if v.None? || v.value.0 > |s| - v.value.1 then None
      else Some((Chunk(s[v.value.1..v.value.1 + v.value.0]), v.value.1 + v.value.0))
    else None
  }

  /** The field at the front of the bytes and the number of bytes it takes. */
  function ReadField(s: seq<byte>): (r: Option<(Field, nat)>)
    ensures r.Some? ==> 0 < r.value.1 <= |s|
  {
    var key := Scan(s, 0);
    if key.None? then None
    else
      var c := ReadContent(s[key.value.1..], key.value.0 % 8);
      if c.None? then None else Some((Field(ToInt32(key.value.0 / 8), c.value.0), key.value.1 + c.value.1))
  }

  lemma FixedWritten(v: nat, n: nat, rest: seq<byte>)
    requires (n == 8 && v < TWO64) || (n == 4 && v < TWO32)
    ensures |LittleBytes(v, n) + rest| >= n && Little((LittleBytes(v, n) + rest)[..n]) == v
  {
    assert Pow256(4) == TWO32;
    if n == 8 {
      assert Pow256(8) == 256 * (256 * (256 * (256 * Pow256(4))));
    }
    LittleRoundTrip(v, n);
    assert (LittleBytes(v, n) + rest)[..n] == LittleBytes(v, n);
  }

  lemma ReadChunkWritten(b: seq<byte>, rest: seq<byte>)
    requires |b| < TWO31
    ensures ReadContent(Varint(|b|) + b + rest, 2) == Some((Chunk(b), |Varint(|b|)| + |b|))
  {
    RoomIs64Bits();
    var prefix := Varint(|b|);
    var s := prefix + b + rest;
    ScanVarint(|b|, 0, b + rest);
    assert s == prefix + (b + rest);
    assert s[|prefix|..|prefix| + |b|] == b;
  }

  lemma KeySplit(number: nat, wireType: nat)
    requires number < TWO29 && wireType < 8
    ensures number * 8 + wireType < TWO64
    ensures (number * 8 + wireType) % 8 == wireType
    ensures ToInt32((number * 8 + wireType) / 8) == number
  {
    assert (number * 8 + wireType) / 8 == number;
  }

  lemma ReadContentWritten(c: Content, rest: seq<byte>)
    requires WellFormed(Field(1, c))
    ensures ReadContent(WriteContent(c) + rest, WireType(c)) == Some((c, |WriteContent(c)|))
  {
    RoomIs64Bits();
    match c
    case Number(v) => ScanVarint(v, 0, rest);
    case Fixed64(v) =>
      FixedWritten(v, 8, rest);
    case Fixed32(v) =>
      FixedWritten(v, 4, rest);
    case Chunk(b) =>
      ReadChunkWritten(b, rest);
  }

  lemma ReadFieldWritten(f: Field, rest: seq<byte>)
    requires WellFormed(f)
    ensures ReadField(WriteField(f) + rest) == Some((f, |WriteField(f)|))
  {
    var wt := WireType(f.content);
    KeySplit(f.number, wt);
    ReadContentWritten(f.content, rest);
    ReadFieldParts(f.number * 8 + wt, wt, f.number, WriteContent(f.content) + rest);
    FieldText(f, rest);
  }

  lemma FieldText(f: Field, rest: seq<byte>)
    requires f.number >= 0
    ensures var key := Varint(f.number * 8 + WireType(f.content));
      && WriteField(f) + rest == key + (WriteContent(f.content) + rest)
      && |WriteField(f)| == |key| + |WriteContent(f.content)|
  {
    Associates(Varint(f.number * 8 + WireType(f.content)), WriteContent(f.content), rest);
  }

  lemma ReadFieldParts(key: nat, wireType: nat, number: int, tail: seq<byte>)
    requires key < TWO64 && key % 8 == wireType && ToInt32(key / 8) == number && ReadContent(tail, wireType).Some?
    ensures ReadField(Varint(key) + tail) ==
      Some((Field(number, ReadContent(tail, wireType).value.0),
            |Varint(key)| + ReadContent(tail, wireType).value.1))
  {
    RoomIs64Bits();
    ScanVarint(key, 0, tail);
    assert (Varint(key) + tail)[|Varint(key)|..] == tail;
  }

  lemma ReadContentLocal(s: seq<byte>, wireType: nat, rest: seq<byte>)
    requires ReadContent(s, wireType).Some?
    ensures ReadContent(s + rest, wireType) == ReadContent(s, wireType)
  {
    if wireType == 0 {
      ScanLocal(s, 0, rest);
    } else if wireType == 1 {
      assert (s + rest)[..8] == s[..8];
    } else if wireType == 5 {
      assert (s + rest)[..4] == s[..4];
    } else {
      ScanLocal(s, 0, rest);
      var v := Scan(s, 0).value;
      assert (s + rest)[v.1..v.1 + v.0] == s[v.1..v.1 + v.0];
    }
  }

  lemma ReadFieldLocal(s: seq<byte>, rest: seq<byte>)
    requires ReadField(s).Some?
    ensures ReadField(s + rest) == ReadField(s)
  {
    var key := Scan(s, 0).value;
    ScanLocal(s, 0, rest);
    var tail := s[key.1..];
    assert (s + rest)[key.1..] == tail + rest;
    ReadContentLocal(tail, key.0 % 8, rest);
  }

  /** The seven-bit groups of v, lowest first, in at most ten bytes. */
  method VarintGroups(v: nat) returns (groups: seq<byte>)
    requires v < TWO64
    ensures groups == Varint(v) && |groups| <= 10
  {
    RoomIs64Bits();
    var tmp := new byte[10];
    var n: nat, left: nat, more := 0, v, true;
    while more
      invariant n <= 10 && left < Room(n)
      invariant more <==> n == 0 || left != 0
      invariant more ==> n < 10
      invariant more ==> tmp[..n] + Varint(left) == Varint(v)
      invariant !more ==> tmp[..n] == Varint(v)
      decreases 10 - n
    {
      ghost var done := tmp[..n];
      tmp[n] := if left / 128 != 0 then left % 128 + 128 else left % 128;
      assert tmp[..n + 1] == done + [tmp[n]];
      GroupStep(done, left, Varint(v));
      left := left / 128;
      n := n + 1;
      more := left != 0 && n < 10;
    }
    groups := tmp[..n];
  }

  lemma GroupStep(done: seq<byte>, left: nat, all: seq<byte>)
    requires done + Varint(left) == all
    ensures left < 128 ==> done + [left % 128] == all
    ensures left >= 128 ==> done + [left % 128 + 128] + Varint(left / 128) == all
  {
  }

  // ----- The growable buffer -----

  class ByteBuffer {
    var data: array<byte>
    var len: nat

    ghost predicate Valid()
      reads this
    {
      len <= data.Length
    }

    ghost function Contents(): seq<byte>
      requires Valid()
      reads this, data
    {
      data[..len]
    }

    constructor ()
      ensures Valid() && Contents() == [] && fresh(data)
    {
      data := new byte[0];
      len := 0;
    }

    /** Room for more bytes by doubling; never more than twice what is needed. */
    method Reserve(extra: nat)
      requires Valid()
      modifies this
      ensures Valid() && Contents() == old(Contents()) && len == old(len)
      ensures data == old(data) || fresh(data)
      ensures len + extra <= data.Length
      ensures data == old(data) || data.Length == 128 || data.Length < 2 * (len + extra)
    {
      if len + extra <= data.Length {
        return;
      }
      var cap := if data.Length > 0 then data.Length else 128;
      while cap < len + extra
        invariant cap > 0 && (cap == data.Length < len + extra || cap == 128 || cap < 2 * (len + extra))
        decreases len + extra - cap
      {
        cap := cap * 2;
      }
      var was, n := data, len;
      data := new byte[cap](i reads was => if 0 <= i < n <= was.Length then was[i] else 0);
    }

    method Put(src: seq<byte>)
      requires Valid()
      modifies this, data
      ensures Valid() && (data == old(data) || fresh(data))
      ensures Contents() == old(Contents()) + src
    {
      ghost var before := Contents();
      Reserve(|src|);
      forall i | 0 <= i < |src| {
        data[len + i] := src[i];
      }
      len := len + |src|;
      assert data[..len] == before + src;
    }

    method PutVarint(v: nat)
      requires Valid() && v < TWO64
      modifies this, data
      ensures Valid() && (data == old(data) || fresh(data))
      ensures Contents() == old(Contents()) + Varint(v)
    {
      var groups := VarintGroups(v);
      Put(groups);
    }

    method PutContent(c: Content)
      requires Valid() && WellFormed(Field(1, c))
      modifies this, data
      ensures Valid() && (data == old(data) || fresh(data))
      ensures Contents() == old(Contents()) + WriteContent(c)
    {
      match c {
        case Number(v) => PutVarint(v);
        case Fixed64(v) => PutLittle(v, 8);
        case Fixed32(v) => PutLittle(v, 4);
        case Chunk(b) =>
          ghost var before := Contents();
          PutVarint(|b|);
          Put(b);
          assert Contents() == before + (Varint(|b|) + b);
      }
    }

    method PutField(f: Field)
      requires Valid() && WellFormed(f)
      modifies this, data
      ensures Valid() && (data == old(data) || fresh(data))
      ensures Contents() == old(Contents()) + WriteField(f)
    {
      ghost var before := Contents();
      PutVarint(f.number * 8 + WireType(f.content));
      PutContent(f.content);
      assert Contents() == before + WriteField(f);
    }

    method PutLittle(v: nat, n: nat)
      requires Valid()
      modifies this, data
      ensures Valid() && (data == old(data) || fresh(data))
      ensures Contents() == old(Contents()) + LittleBytes(v, n)
    {
      var le: seq<byte>, left := [], v;
      for i := 0 to n
        invariant le + LittleBytes(left, n - i) == LittleBytes(v, n)
        invariant Valid() && Contents() == old(Contents()) && data == old(data)
      {
        assert LittleBytes(left, n - i) == [left % 256] + LittleBytes(left / 256, n - i - 1);
        le := le + [left % 256];
        left := left / 256;
      }
      assert le == LittleBytes(v, n);
      Put(le);
    }
  }

  // ----- The reader -----

  class Reader {
    const data: seq<byte>
    var pos: nat

    ghost predicate Valid()
      reads this
    {
      pos <= |data|
    }

    ghost function Rest(): seq<byte>
      requires Valid()
      reads this
    {
      data[pos..]
    }

    constructor (bytes: seq<byte>)
      ensures Valid() && data == bytes && pos == 0
    {
      data, pos := bytes, 0;
    }

    method ReadVarint() returns (r: Option<nat>)
      requires Valid()
      modifies this
      ensures Valid() && pos >= old(pos)
      ensures r.None? <==> Scan(old(Rest()), 0).None?
      ensures r.Some? ==> Scan(old(Rest()), 0) == Some((r.value, pos - old(pos))) && r.value < TWO64
    {
      var v: nat, k: nat := 0, 0;
      ghost var all := Rest();
      while pos < |data| && k <= 9
        invariant Valid() && k <= 10 && pos == old(pos) + k && Rest() == all[k..]
        invariant v < Weight(k)
        invariant Total(v, k, all[k..]) == Total(0, 0, all)
      {
        var b := data[pos];
        pos := pos + 1;
        Shifted(b, k);
        TotalStep(v, k, all[k..]);
        assert all[k..][0] == b && all[k..][1..] == all[k + 1..];
        v := v + (b % 128 * Weight(k)) % TWO64;
        k := k + 1;
        if b < 128 {
          TotalFromStart(all);
          return Some(v);
        }
      }
      TotalFromStart(all);
      return None;
    }

    method Skip(wireType: nat) returns (ok: bool)
      requires Valid()
      modifies this
      ensures Valid() && pos >= old(pos)
      ensures ok <==> ReadContent(old(Rest()), wireType).Some?
      ensures ok ==> pos == old(pos) + ReadContent(old(Rest()), wireType).value.1
    {
      if wireType == 0 {
        var v := ReadVarint();
        return v.Some?;
      } else if wireType == 1 {
        if |data| - pos < 8 { return false; }
        pos := pos + 8;
        return true;
      } else if wireType == 5 {
        if |data| - pos < 4 { return false; }
        pos := pos + 4;
        return true;
      } else if wireType == 2 {
        var v := ReadVarint();
        if v.None? { return false; }
        if v.value > |data| - pos { return false; }
        pos := pos + v.value;
        return true;
      }
      return false;
    }
  }

  /** The whole value and length, v being the sum of the first k groups. */
  ghost function Total(v: nat, k: nat, rest: seq<byte>): Option<(nat, nat)>
    requires k <= 10
  {
    var r := Scan(rest, k);
    if r.None? then None else Some((v + Weight(k) * r.value.0, k + r.value.1))
  }

  lemma TotalFromStart(all: seq<byte>)
    ensures Total(0, 0, all) == Scan(all, 0)
    ensures Scan(all, 0).Some? ==> Scan(all, 0).value.0 < TWO64
  {
    RoomIs64Bits();
    if Scan(all, 0).Some? {
      ScanBound(all, 0);
    }
  }

  lemma TotalStep(v: nat, k: nat, rest: seq<byte>)
    requires k < 10 && v < Weight(k) && rest != []
    ensures v + Low(rest[0], k) * Weight(k) < Weight(k + 1)
    ensures Total(v, k, rest) ==
      if rest[0] < 128 then Some((v + Low(rest[0], k) * Weight(k), k + 1))
      else Total(v + Low(rest[0], k) * Weight(k), k + 1, rest[1..])
  {
    SumBound(v, Low(rest[0], k), Weight(k));
    var more := Scan(rest[1..], k + 1);
    if more.Some? {
      ScanSplits(Low(rest[0], k), Weight(k), more.value.0);
    }
  }

  lemma SumBound(v: nat, low: nat, w: nat)
    requires v < w && low < 128
    ensures v + low * w < 128 * w
  {
    assert low * w <= 127 * w;
  }

  lemma ScanSplits(low: nat, w: nat, x: nat)
    ensures w * (low + 128 * x) == low * w + 128 * w * x
  {
    assert w * (low + 128 * x) == w * low + w * (128 * x);
    assert w * (128 * x) == 128 * w * x;
  }
}
