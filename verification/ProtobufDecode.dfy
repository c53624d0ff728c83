/** decode_metric as the reader runs it, and what it does not depend on: the
    order of the fields and any field it does not know. */
module ProtobufDecode {
  import opened Prelude
  import opened Bytes
  import opened ProtobufWire
  import opened ProtobufMetric

  // ----- The decoding loop -----

  method ReadNumber(r: Reader, wireType: nat) returns (v: Option<nat>)
    requires r.Valid()
    modifies r
    ensures r.Valid()
    ensures v.Some? <==> wireType == 0 && ReadContent(old(r.Rest()), wireType).Some?
    ensures v.Some? ==> ReadContent(old(r.Rest()), wireType) == Some((Number(v.value), r.pos - old(r.pos)))
    ensures v.Some? ==> r.pos >= old(r.pos)
  {
    if wireType != 0 { return None; }
    v := r.ReadVarint();
  }

  method ReadChunk(r: Reader, wireType: nat) returns (v: Option<seq<byte>>)
    requires r.Valid()
    modifies r
    ensures r.Valid()
    ensures v.Some? <==> wireType == 2 && ReadContent(old(r.Rest()), wireType).Some?
    ensures v.Some? ==> ReadContent(old(r.Rest()), wireType) == Some((Chunk(v.value), r.pos - old(r.pos)))
    ensures v.Some? ==> r.pos >= old(r.pos)
  {
    if wireType != 2 { return None; }
    ghost var s, start := r.Rest(), r.pos;
    var n := r.ReadVarint();
    if n.None? || n.value > |r.data| - r.pos { return None; }
    assert r.data[r.pos..r.pos + n.value] == s[r.pos - start..r.pos - start + n.value];
    v := Some(r.data[r.pos..r.pos + n.value]);
    r.pos := r.pos + n.value;
  }

  /** width little-endian bytes, combined as the shifts of the source do. */
  method ReadFixed(r: Reader, wireType: nat, width: nat) returns (v: Option<nat>)
    requires r.Valid() && (width == 4 || width == 8)
    modifies r
    ensures r.Valid() && r.pos == old(r.pos) + (if v.Some? then width else 0)
    ensures v.Some? <==> wireType == (if width == 4 then 5 else 1) && width <= |old(r.Rest())|
    ensures v.Some? ==> v.value == Little(old(r.Rest())[..width])
  {
    if wireType != (if width == 4 then 5 else 1) || |r.data| - r.pos < width { return None; }
    var bits: nat, weight: nat := 0, 1;
    ghost var s := r.Rest();
    for i := 0 to width
      invariant bits == Little(s[..i]) && weight == Pow256(i) && r.pos == old(r.pos)
    {
      LittleAppend(s[..i], s[i]);
      assert s[..i + 1] == s[..i] + [s[i]];
      bits := bits + r.data[r.pos + i] * weight;
      weight := 256 * weight;
    }
    r.pos := r.pos + width;
    return Some(bits);
  }

  /** The switch of decode_metric: read what the field number calls for. */
  method ReadKnown(r: Reader, number: int, wireType: nat, d: Decoded) returns (d': Option<Decoded>)
    requires r.Valid()
    modifies r
    ensures r.Valid()
    ensures var c := ReadContent(old(r.Rest()), wireType);
      && (d'.Some? <==> c.Some? && Apply(d, Field(number, c.value.0)).Some?)
      && (d'.Some? ==> d' == Apply(d, Field(number, c.value.0)) && r.pos == old(r.pos) + c.value.1)
  {
    d' := None;
    if number == NAME || number == STRING_VALUE {
      var v := ReadChunk(r, wireType);
      if v.Some? {
        d' := Apply(d, Field(number, Chunk(v.value)));
      }
    } else if number == FLOAT_VALUE {
      var v := ReadFixed(r, wireType, 4);
      if v.Some? {
        d' := Some(WithValue(d, Single(v.value)));
      }
    } else if number == DOUBLE_VALUE {
      var v := ReadFixed(r, wireType, 8);
      if v.Some? {
        d' := Some(WithValue(d, Double(v.value)));
      }
    } else if number in {ALIAS, DATATYPE, IS_NULL, INT_VALUE, LONG_VALUE, BOOL_VALUE} {
      var v := ReadNumber(r, wireType);
      if v.Some? {
        d' := Apply(d, Field(number, Number(v.value)));
      }
    } else {
      var ok := r.Skip(wireType);
      if ok {
        d' := Some(d);
      }
    }
  }

  method DecodeMetric(bytes: seq<byte>) returns (d: Option<Decoded>)
    ensures d == MetricAt(bytes)
  {
    var r := new Reader(bytes);
    var dm := Blank;
    while r.pos < |r.data|
      invariant r.Valid() && r.data == bytes
      invariant Run(bytes, Blank) == Run(r.Rest(), dm)
      decreases |r.data| - r.pos
    {
      ghost var s := r.Rest();
      var key := r.ReadVarint();
      if key.None? { return None; }
      assert r.Rest() == s[Scan(s, 0).value.1..];
      var next := ReadKnown(r, ToInt32(key.value / 8), key.value % 8, dm);
      if next.None? { return None; }
      assert r.Rest() == s[ReadField(s).value.1..];
      dm := next.value;
    }
    assert Run(r.Rest(), dm) == Some(dm);
    return Some(Finish(dm));
  }

  // ----- Unknown fields -----

  predicate Known(n: int) {
    n in {NAME, ALIAS, DATATYPE, IS_NULL} || INT_VALUE <= n <= STRING_VALUE
  }

  /** The bytes are a whole number of fields. */
  predicate Whole(s: seq<byte>)
    decreases |s|
  {
    s == [] || (ReadField(s).Some? && Whole(s[ReadField(s).value.1..]))
  }

  lemma {:induction false} RunAppend(x: seq<byte>, y: seq<byte>, d: Decoded)
    requires Whole(x)
    ensures Run(x + y, d) == if Run(x, d).None? then None else Run(y, Run(x, d).value)
    decreases |x|
  {
    if x == [] {
      assert x + y == y;
    } else {
      var f := ReadField(x).value;
      ReadFieldLocal(x, y);
      assert (x + y)[f.1..] == x[f.1..] + y;
      if Apply(d, f.0).Some? {
        RunAppend(x[f.1..], y, Apply(d, f.0).value);
      }
    }
  }

  /** Any single field the decoder does not know, however encoded, may be put
      between any two fields of a metric without changing what is decoded. */
  lemma UnknownFieldIgnored(x: seq<byte>, u: seq<byte>, y: seq<byte>)
    requires Whole(x)
    requires ReadField(u).Some? && ReadField(u).value.1 == |u| && !Known(ReadField(u).value.0.number)
    ensures MetricAt(x + u + y) == MetricAt(x + y)
  {
    Associates(x, u, y);
    RunAppend(x, u + y, Blank);
    RunAppend(x, y, Blank);
    if Run(x, Blank).Some? {
      RunPassesUnknown(u, y, Run(x, Blank).value);
    }
  }

  lemma RunPassesUnknown(u: seq<byte>, y: seq<byte>, d: Decoded)
    requires ReadField(u).Some? && ReadField(u).value.1 == |u| && !Known(ReadField(u).value.0.number)
    ensures Run(u + y, d) == Run(y, d)
  {
    UnknownAlone(u, d);
    RunAppend(u, y, d);
  }

  lemma UnknownAlone(u: seq<byte>, d: Decoded)
    requires ReadField(u).Some? && ReadField(u).value.1 == |u| && !Known(ReadField(u).value.0.number)
    ensures Whole(u) && Run(u, d) == Some(d)
  {
    assert u[|u|..] == [];
    assert Whole([]) && Run([], d) == Some(d);
  }

  // ----- Field order -----

  /** The value fields share one slot; every other field has its own. */
  function SlotOf(n: int): int {
    if INT_VALUE <= n <= STRING_VALUE then INT_VALUE else n
  }

  predicate OncePerSlot(fs: seq<Field>) {
    forall i, j | 0 <= i < j < |fs| && Known(fs[i].number) :: SlotOf(fs[i].number) != SlotOf(fs[j].number)
  }

  /** The field in a slot, if any. */
  function Pick(fs: seq<Field>, slot: int): (r: Option<Field>)
    ensures r.Some? ==> r.value in fs && SlotOf(r.value.number) == slot
    ensures r.None? ==> forall f | f in fs :: SlotOf(f.number) != slot
  {
    if fs == [] then None
    else if SlotOf(Last(fs).number) == slot then Some(Last(fs))
    else
      var r := Pick(Front(fs), slot);
      assert fs == Front(fs) + [Last(fs)];
      r
  }

  /** The right wire type for its number. */
  predicate Typed(f: Field) {
    Apply(Blank, f).Some?
  }

  function Put(d: Decoded, f: Option<Field>): Decoded {
    if f.None? || Apply(d, f.value).None? then d else Apply(d, f.value).value
  }

  /** What a metric's fields say, read slot by slot in no particular order. */
  function Summary(fs: seq<Field>): Decoded {
    Put(Put(Put(Put(Put(Blank, Pick(fs, NAME)), Pick(fs, ALIAS)), Pick(fs, DATATYPE)), Pick(fs, IS_NULL)),
      Pick(fs, INT_VALUE))
  }

  predicate AllTyped(fs: seq<Field>) {
    forall f | f in fs :: Typed(f)
  }

  lemma ApplyIgnoresState(d: Decoded, f: Field)
    ensures Apply(d, f).Some? <==> Typed(f)
  {
  }

  lemma SummaryGrows(fs: seq<Field>, f: Field)
    requires Typed(f) && AllTyped(fs)
    requires Known(f.number) ==> Pick(fs, SlotOf(f.number)).None?
    ensures Apply(Summary(fs), f) == Some(Summary(fs + [f]))
  {
    FrontLast(fs, f);
    ApplyIgnoresState(Summary(fs), f);
    forall slot | slot in {NAME, ALIAS, DATATYPE, IS_NULL, INT_VALUE}
      ensures Pick(fs + [f], slot) == if SlotOf(f.number) == slot then Some(f) else Pick(fs, slot)
    {
    }
    var name, alias, dt := Pick(fs, NAME), Pick(fs, ALIAS), Pick(fs, DATATYPE);
    var isNull, value := Pick(fs, IS_NULL), Pick(fs, INT_VALUE);
    SlotsCommute(name, alias, dt, isNull, value, f);
  }

  predicate InSlot(f: Option<Field>, slot: int) {
    f.Some? ==> SlotOf(f.value.number) == slot && Typed(f.value)
  }

  lemma SlotsCommute(name: Option<Field>, alias: Option<Field>, dt: Option<Field>, isNull: Option<Field>,
    value: Option<Field>, f: Field)
    requires InSlot(name, NAME) && InSlot(alias, ALIAS) && InSlot(dt, DATATYPE) && InSlot(isNull, IS_NULL) &&
      InSlot(value, INT_VALUE)
    requires Typed(f)
    requires SlotOf(f.number) == NAME ==> name.None?
    requires SlotOf(f.number) == ALIAS ==> alias.None?
    requires SlotOf(f.number) == DATATYPE ==> dt.None?
    requires SlotOf(f.number) == IS_NULL ==> isNull.None?
    requires SlotOf(f.number) == INT_VALUE ==> value.None?
    ensures Apply(Put(Put(Put(Put(Put(Blank, name), alias), dt), isNull), value), f) == Some(
      Put(Put(Put(Put(Put(Blank,
        if SlotOf(f.number) == NAME then Some(f) else name),
        if SlotOf(f.number) == ALIAS then Some(f) else alias),
        if SlotOf(f.number) == DATATYPE then Some(f) else dt),
        if SlotOf(f.number) == IS_NULL then Some(f) else isNull),
        if SlotOf(f.number) == INT_VALUE then Some(f) else value))
  {
    if SlotOf(f.number) != INT_VALUE {
      var d := Put(Put(Put(Put(Blank, name), alias), dt), isNull);
      PutCommutes(d, value, f);
      if SlotOf(f.number) != IS_NULL {
        PutCommutes(Put(Put(Put(Blank, name), alias), dt), isNull, f);
        if SlotOf(f.number) != DATATYPE {
          PutCommutes(Put(Put(Blank, name), alias), dt, f);
          if SlotOf(f.number) != ALIAS {
            PutCommutes(Put(Blank, name), alias, f);
          }
        }
      }
    }
  }

  /** Fields of different slots may be taken in either order. */
  lemma PutCommutes(d: Decoded, g: Option<Field>, f: Field)
    requires Typed(f)
    requires g.Some? ==> Typed(g.value) && Known(g.value.number) && SlotOf(g.value.number) != SlotOf(f.number)
    ensures Apply(Put(d, g), f) == Some(Put(Put(d, Some(f)), g))
  {
    if g.Some? {
      if SlotOf(f.number) == INT_VALUE {
        TypedCommute(d, f, g.value);
      } else {
        TypedCommute(d, g.value, f);
      }
    }
  }

  /** A value field and one that is none, or two that are none. */
  lemma TypedCommute(d: Decoded, f: Field, g: Field)
    requires Typed(f) && Typed(g) && SlotOf(f.number) != SlotOf(g.number) && SlotOf(g.number) != INT_VALUE
    ensures Apply(d, f).Some? && Apply(d, g).Some?
    ensures Apply(Apply(d, f).value, g).Some? && Apply(Apply(d, f).value, g) == Apply(Apply(d, g).value, f)
  {
  }

  lemma {:induction false} FoldIsSummary(fs: seq<Field>)
    requires OncePerSlot(fs)
    ensures AllTyped(fs) ==> Fold(fs, Blank) == Some(Summary(fs))
    ensures !AllTyped(fs) ==> Fold(fs, Blank) == None
  {
    if fs != [] {
      var front, f := Front(fs), Last(fs);
      assert fs == front + [f];
      FoldIsSummary(front);
      FoldAppend(front, [f], Blank);
      if AllTyped(front) {
        FoldOne(f, Summary(front));
        ApplyIgnoresState(Summary(front), f);
        if Typed(f) {
          SummaryGrows(front, f);
        }
      }
    }
  }

  lemma PickIsMembership(fs: seq<Field>, f: Field)
    requires OncePerSlot(fs) && f in fs && Known(f.number)
    ensures Pick(fs, SlotOf(f.number)) == Some(f)
  {
    var g := Pick(fs, SlotOf(f.number)).value;
    var i :| 0 <= i < |fs| && fs[i] == f;
    var j :| 0 <= j < |fs| && fs[j] == g;
    assert !(i < j) && !(j < i);
  }

  lemma SameMembersSamePick(fs: seq<Field>, gs: seq<Field>, slot: int)
    requires OncePerSlot(fs) && OncePerSlot(gs) && slot in {NAME, ALIAS, DATATYPE, IS_NULL, INT_VALUE}
    requires forall f :: f in fs <==> f in gs
    ensures Pick(fs, slot) == Pick(gs, slot)
  {
    if Pick(fs, slot).Some? {
      PickIsMembership(gs, Pick(fs, slot).value);
    }
  }

  /** Two metrics with the same fields in any order decode alike, and are refused
      alike, when no slot is filled twice. */
  lemma FieldOrderIrrelevant(fs: seq<Field>, gs: seq<Field>)
    requires Legal(fs) && Legal(gs) && OncePerSlot(fs) && OncePerSlot(gs)
    requires forall f :: f in fs <==> f in gs
    ensures MetricAt(WriteFields(fs)) == MetricAt(WriteFields(gs))
    ensures MetricAt(WriteFields(fs)).Some? <==> AllTyped(fs)
  {
    RunFields(fs, Blank);
    RunFields(gs, Blank);
    FoldIsSummary(fs);
    FoldIsSummary(gs);
    forall slot | slot in {NAME, ALIAS, DATATYPE, IS_NULL, INT_VALUE} ensures Pick(fs, slot) == Pick(gs, slot) {
      SameMembersSamePick(fs, gs, slot);
    }
  }
}
