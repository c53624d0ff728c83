/** One Sparkplug metric on the wire: encode_metric and decode_metric of
    app/engine/sparkplug_pb.c. A float or double is carried as its raw bits. */
module ProtobufMetric {
  import opened Prelude
  import opened Bytes
  import opened ProtobufWire

  const PAYLOAD_TIMESTAMP := 1
  const PAYLOAD_METRICS := 2
  const PAYLOAD_SEQ := 3

  const NAME := 1
  const ALIAS := 2
  const TIMESTAMP := 3
  const DATATYPE := 4
  const IS_HISTORICAL := 5
  const IS_NULL := 7
  const INT_VALUE := 10
  const LONG_VALUE := 11
  const FLOAT_VALUE := 12
  const DOUBLE_VALUE := 13
  const BOOL_VALUE := 14
  const STRING_VALUE := 15

  const INT8 := 1
  const INT16 := 2
  const INT32 := 3
  const INT64 := 4
  const UINT8 := 5
  const UINT16 := 6
  const UINT32 := 7
  const UINT64 := 8
  const FLOAT := 9
  const DOUBLE := 10
  const BOOLEAN := 11
  const STRING := 12
  const DATETIME := 13
  const TEXT := 14
  const UUID := 15

  const MAX_NAME := 255
  const MAX_VALUE := 511

  const TRUE: seq<byte> := [116, 114, 117, 101]
  const FALSE: seq<byte> := [102, 97, 108, 115, 101]

  predicate IsSigned(dt: int) {
    dt == INT8 || dt == INT16 || dt == INT32 || dt == INT64
  }

  predicate IsInteger(dt: int) {
    INT8 <= dt <= UINT64 || dt == DATETIME
  }

  predicate IsString(dt: int) {
    dt == STRING || dt == TEXT || dt == UUID
  }

  datatype Metric = Metric(
    name: seq<byte>, alias: nat, hasAlias: bool, timestamp: nat, dt: int, isNull: bool, isHistorical: bool,
    i64: int, floatBits: nat, doubleBits: nat, text: seq<byte>)

  /** The ranges of the C fields; names and texts are C strings. */
  predicate ValidMetric(m: Metric) {
    0 !in m.name && 0 !in m.text && |m.name| < TWO31 && |m.text| < TWO31 &&
    m.alias < TWO64 && m.timestamp < TWO64 && -TWO31 <= m.dt < TWO31 && -TWO63 <= m.i64 < TWO63 &&
    m.floatBits < TWO32 && m.doubleBits < TWO64
  }

  datatype Shown = Text(text: seq<byte>) | Single(bits: nat) | Double(bits: nat)

  // ----- What a metric's integer means once narrowed -----

  function Width(dt: int): (w: nat)
    ensures w > 0 && w % 2 == 0
  {
    if dt == INT8 || dt == UINT8 then 0x100
    else if dt == INT16 || dt == UINT16 then 0x1_0000
    else if dt == INT32 || dt == UINT32 then TWO32
    else TWO64
  }

  predicate InRange(dt: int, v: int) {
    if IsSigned(dt) then -(Width(dt) / 2) <= v < Width(dt) / 2 else 0 <= v < Width(dt)
  }

  /** The integer of the datatype's width nearest the one stored. */
  function Narrow(dt: int, i: int): int {
    if IsSigned(dt) then (i + Width(dt) / 2) % Width(dt) - Width(dt) / 2 else i % Width(dt)
  }

  /** Narrowing is the one value of the datatype congruent to i. */
  lemma NarrowUnique(dt: int, i: int, v: int)
    ensures InRange(dt, Narrow(dt, i)) && (Narrow(dt, i) - i) % Width(dt) == 0
    ensures InRange(dt, v) && (v - i) % Width(dt) == 0 ==> v == Narrow(dt, i)
  {
    var w := Width(dt);
    var half := if IsSigned(dt) then w / 2 else 0;
    var q := (i + half) / w;
    assert Narrow(dt, i) - i == w * -q;
    MultipleMod(w, -q);
    if InRange(dt, v) && (v - i) % w == 0 {
      var p := (v - i) / w;
      assert v - Narrow(dt, i) == w * p + w * q;
      assert w * p + w * q == w * (p + q);
      TimesSign(w, p + q);
    }
  }

  lemma MultipleMod(w: nat, q: int)
    requires w > 0
    ensures (w * q) % w == 0
  {
    var r := (w * q) % w;
    var d := q - (w * q) / w;
    assert w * d == r by {
      assert w * d == w * q - w * ((w * q) / w);
    }
    TimesSign(w, d);
  }

  // ----- Encoding -----

  /** encode_value. */
  function ValueField(m: Metric): Option<Field> {
    if m.dt == INT8 || m.dt == UINT8 then Some(Field(INT_VALUE, Number(m.i64 % 0x100)))
    else if m.dt == INT16 || m.dt == UINT16 then Some(Field(INT_VALUE, Number(m.i64 % 0x1_0000)))
    else if m.dt == INT32 || m.dt == UINT32 then Some(Field(INT_VALUE, Number(m.i64 % TWO32)))
    else if m.dt == INT64 || m.dt == UINT64 || m.dt == DATETIME then Some(Field(LONG_VALUE, Number(m.i64 % TWO64)))
    else if m.dt == FLOAT then Some(Field(FLOAT_VALUE, Fixed32(m.floatBits)))
    else if m.dt == DOUBLE then Some(Field(DOUBLE_VALUE, Fixed64(m.doubleBits)))
    else if m.dt == BOOLEAN then Some(Field(BOOL_VALUE, Number(if m.i64 != 0 then 1 else 0)))
    else if IsString(m.dt) then Some(Field(STRING_VALUE, Chunk(m.text)))
    else None
  }

  function Optional(given: bool, f: Field): seq<Field> {
    if given then [f] else []
  }

  /** Everything but the value, in encode_metric's order. */
  function HeaderFields(m: Metric): seq<Field> {
    Optional(m.name != [], Field(NAME, Chunk(m.name))) +
    Optional(m.hasAlias, Field(ALIAS, Number(m.alias))) +
    Optional(m.timestamp != 0, Field(TIMESTAMP, Number(m.timestamp))) +
    [Field(DATATYPE, Number(m.dt % TWO32))] +
    Optional(m.isHistorical, Field(IS_HISTORICAL, Number(1)))
  }

  function ValueFields(m: Metric): seq<Field> {
    if m.isNull then [Field(IS_NULL, Number(1))] else if ValueField(m).Some? then [ValueField(m).value] else []
  }

  function MetricFields(m: Metric): seq<Field> {
    HeaderFields(m) + ValueFields(m)
  }

  function MetricField(m: Metric): Field {
    Field(PAYLOAD_METRICS, Chunk(WriteFields(MetricFields(m))))
  }

  lemma MetricFieldsLegal(m: Metric)
    requires ValidMetric(m)
    ensures Legal(MetricFields(m))
  {
    HeaderFieldsLegal(m);
    ValueFieldsLegal(m);
  }

  lemma HeaderFieldsLegal(m: Metric)
    requires ValidMetric(m)
    ensures Legal(HeaderFields(m))
  {
  }

  lemma ValueFieldsLegal(m: Metric)
    requires ValidMetric(m)
    ensures Legal(ValueFields(m))
  {
  }

  lemma {:induction false} WriteFieldsAppend(fs: seq<Field>, gs: seq<Field>)
    ensures WriteFields(fs + gs) == WriteFields(fs) + WriteFields(gs)
  {
    if fs == [] {
      assert fs + gs == gs;
    } else {
      var all, tail := fs + gs, fs[1..];
      assert all[0] == fs[0] && all[1..] == tail + gs;
      WriteFieldsAppend(tail, gs);
      var a, b, c := WriteField(fs[0]), WriteFields(tail), WriteFields(gs);
      assert WriteFields(fs) == a + b && WriteFields(all) == a + (b + c);
      Associates(a, b, c);
    }
  }

  lemma WriteNext(fs: seq<Field>, f: Field)
    ensures WriteFields(fs + [f]) == WriteFields(fs) + WriteField(f)
  {
    WriteFieldsAppend(fs, [f]);
    WriteOne(f);
  }

  lemma WriteOne(f: Field)
    ensures WriteFields([f]) == WriteField(f)
  {
    assert [f][1..] == [];
    assert WriteFields([f][1..]) == [];
  }

  method PutOptional(b: ByteBuffer, given: bool, f: Field, ghost sofar: seq<Field>)
    requires b.Valid() && (given ==> WellFormed(f)) && b.Contents() == WriteFields(sofar)
    modifies b, b.data
    ensures b.Valid() && (b.data == old(b.data) || fresh(b.data))
    ensures b.Contents() == WriteFields(sofar + Optional(given, f))
  {
    WriteFieldsAppend(sofar, Optional(given, f));
    if given {
      b.PutField(f);
      WriteOne(f);
    }
  }

  /** encode_metric: the optional fields in order, then null or the value. */
  method EncodeMetric(out: ByteBuffer, m: Metric)
    requires out.Valid() && ValidMetric(m) && WellFormed(MetricField(m))
    modifies out, out.data
    ensures out.Valid() && (out.data == old(out.data) || fresh(out.data))
    ensures out.Contents() == old(out.Contents()) + WriteField(MetricField(m))
  {
    var mb := new ByteBuffer();
    PutHeader(mb, m);
    if m.isNull {
      PutOptional(mb, true, Field(IS_NULL, Number(1)), HeaderFields(m));
    } else if ValueField(m).Some? {
      MetricFieldsLegal(m);
      PutOptional(mb, true, ValueField(m).value, HeaderFields(m));
    } else {
      assert MetricFields(m) == HeaderFields(m);
    }
    out.PutField(Field(PAYLOAD_METRICS, Chunk(mb.data[..mb.len])));
  }

  method PutHeader(mb: ByteBuffer, m: Metric)
    requires mb.Valid() && ValidMetric(m) && mb.Contents() == []
    modifies mb, mb.data
    ensures mb.Valid() && (mb.data == old(mb.data) || fresh(mb.data))
    ensures mb.Contents() == WriteFields(HeaderFields(m))
  {
    ghost var named := Optional(m.name != [], Field(NAME, Chunk(m.name)));
    PutOptional(mb, m.name != [], Field(NAME, Chunk(m.name)), []);
    assert [] + named == named;
    ghost var aliased := named + Optional(m.hasAlias, Field(ALIAS, Number(m.alias)));
    PutOptional(mb, m.hasAlias, Field(ALIAS, Number(m.alias)), named);
    ghost var timed := aliased + Optional(m.timestamp != 0, Field(TIMESTAMP, Number(m.timestamp)));
    PutOptional(mb, m.timestamp != 0, Field(TIMESTAMP, Number(m.timestamp)), aliased);
    PutOptional(mb, true, Field(DATATYPE, Number(m.dt % TWO32)), timed);
    PutOptional(mb, m.isHistorical, Field(IS_HISTORICAL, Number(1)), timed + [Field(DATATYPE, Number(m.dt % TWO32))]);
  }

  // ----- Decoding -----

  datatype Decoded = Decoded(
    name: seq<byte>, alias: nat, hasAlias: bool, dt: int, isNull: bool,
    value: Shown, hasValue: bool, pendingInt: nat, pendingKind: nat)

  const Blank := Decoded([], 0, false, 0, false, Text([]), false, 0, 0)

  /** render_int. */
  function Render(dt: int, raw: nat, isLong: bool): seq<byte> {
    if IsSigned(dt) then
      Decimal(
        if isLong then Signed(raw, TWO64)
        else if dt == INT8 then Signed(raw, 0x100)
        else if dt == INT16 then Signed(raw, 0x1_0000)
        else Signed(raw, TWO32))
    else Decimal(raw)
  }

  /** The two's complement value of raw's low bits. */
  function Signed(raw: nat, width: nat): int
    requires width > 0
  {
    var low := raw % width;
    if low < width / 2 then low else low - width
  }

  function WithValue(d: Decoded, v: Shown): Decoded {
    d.(value := v, hasValue := true, pendingKind := 0)
  }

  /** One case of decode_metric's switch. */
  function Apply(d: Decoded, f: Field): Option<Decoded> {
    var n := f.number;
    if n == NAME then
      if f.content.Chunk? then Some(d.(name := CString(Take(f.content.bytes, MAX_NAME)))) else None
    else if n == ALIAS then
      if f.content.Number? then Some(d.(alias := f.content.v, hasAlias := true)) else None
    else if n == DATATYPE then
      if f.content.Number? then Some(d.(dt := ToInt32(f.content.v))) else None
    else if n == IS_NULL then
      if f.content.Number? then Some(d.(isNull := f.content.v != 0)) else None
    else if n == INT_VALUE then
      if f.content.Number? then Some(d.(pendingInt := f.content.v, pendingKind := 1)) else None
    else if n == LONG_VALUE then
      if f.content.Number? then Some(d.(pendingInt := f.content.v, pendingKind := 2)) else None
    else if n == FLOAT_VALUE then
      if f.content.Fixed32? then Some(WithValue(d, Single(f.content.bits32))) else None
    else if n == DOUBLE_VALUE then
      if f.content.Fixed64? then Some(WithValue(d, Double(f.content.bits64))) else None
    else if n == BOOL_VALUE then
      if f.content.Number? then Some(WithValue(d, Text(if f.content.v != 0 then TRUE else FALSE))) else None
    else if n == STRING_VALUE then
      if f.content.Chunk? then Some(WithValue(d, Text(CString(Take(f.content.bytes, MAX_VALUE))))) else None
    else Some(d)
  }

  /** After the last field: render a pending integer, drop the value of a null. */
  function Finish(d: Decoded): Decoded {
    var r := if d.pendingKind != 0 && !d.hasValue
             then d.(value := Text(Render(d.dt, d.pendingInt, d.pendingKind == 2)), hasValue := true) else d;
    if r.isNull then r.(value := Text([]), hasValue := false) else r
  }

  function Run(s: seq<byte>, d: Decoded): Option<Decoded>
    decreases |s|
  {
    if s == [] then Some(d)
    else
      var r := ReadField(s);
      if r.None? || Apply(d, r.value.0).None? then None
      else Run(s[r.value.1..], Apply(d, r.value.0).value)
  }

  function MetricAt(s: seq<byte>): Option<Decoded> {
    var d := Run(s, Blank);
    if d.None? then None else Some(Finish(d.value))
  }

  function Fold(fs: seq<Field>, d: Decoded): Option<Decoded> {
    if fs == [] then Some(d)
    else
      var r := Apply(d, fs[0]);
      if r.None? then None else Fold(fs[1..], r.value)
  }

  lemma {:induction false} RunFields(fs: seq<Field>, d: Decoded)
    requires Legal(fs)
    ensures Run(WriteFields(fs), d) == Fold(fs, d)
  {
    if fs != [] {
      var rest := WriteFields(fs[1..]);
      ReadFieldWritten(fs[0], rest);
      assert (WriteField(fs[0]) + rest)[|WriteField(fs[0])|..] == rest;
      if Apply(d, fs[0]).Some? {
        RunFields(fs[1..], Apply(d, fs[0]).value);
      }
    }
  }

  // ----- Round trip -----

  /** What a host should be shown for a metric. */
  function ShownValue(m: Metric): Shown {
    if m.isNull then Text([])
    else if IsInteger(m.dt) then Text(Decimal(Narrow(m.dt, m.i64)))
    else if m.dt == FLOAT then Single(m.floatBits)
    else if m.dt == DOUBLE then Double(m.doubleBits)
    else if m.dt == BOOLEAN then Text(if m.i64 != 0 then TRUE else FALSE)
    else if IsString(m.dt) then Text(Take(m.text, MAX_VALUE))
    else Text([])
  }

  lemma NarrowSigned(i: int, w: nat)
    requires w > 0 && w % 2 == 0
    ensures Signed(i % w, w) == (i + w / 2) % w - w / 2
  {
    var low := i % w;
    assert low % w == low by {
      DivModUnique(low, w, 0, low);
    }
    var q := i / w;
    var half := w / 2;
    if low < half {
      DivModUnique(i + half, w, q, low + half);
    } else {
      assert i + half == w * (q + 1) + (low - half) by {
        assert w * (q + 1) == w * q + w;
      }
      DivModUnique(i + half, w, q + 1, low - half);
    }
  }

  lemma RenderedInteger(m: Metric)
    requires ValidMetric(m) && IsInteger(m.dt)
    ensures Render(m.dt, ValueField(m).value.content.v, ValueField(m).value.number == LONG_VALUE) ==
      Decimal(Narrow(m.dt, m.i64))
  {
    if IsSigned(m.dt) {
      NarrowSigned(m.i64, Width(m.dt));
    }
  }

  lemma DatatypeReturns(dt: int)
    requires -TWO31 <= dt < TWO31
    ensures ToInt32(dt % TWO32) == dt
  {
  }

  lemma NoNulTaken(s: seq<byte>, n: nat)
    requires 0 !in s
    ensures CString(Take(s, n)) == Take(s, n)
  {
    CStringWhole(Take(s, n));
  }

  /** State of the decoder once everything but the value has been read. */
  function Headed(m: Metric): Decoded {
    Blank.(name := Take(m.name, MAX_NAME), alias := if m.hasAlias then m.alias else 0, hasAlias := m.hasAlias,
           dt := m.dt)
  }

  lemma {:induction false} FoldAppend(fs: seq<Field>, gs: seq<Field>, d: Decoded)
    ensures Fold(fs + gs, d) == if Fold(fs, d).None? then None else Fold(gs, Fold(fs, d).value)
  {
    if fs == [] {
      assert fs + gs == gs;
    } else {
      assert (fs + gs)[1..] == fs[1..] + gs;
      if Apply(d, fs[0]).Some? {
        FoldAppend(fs[1..], gs, Apply(d, fs[0]).value);
      }
    }
  }

  lemma FoldOne(f: Field, d: Decoded)
    ensures Fold([f], d) == Apply(d, f)
  {
  }

  lemma HeaderFolds(m: Metric)
    requires ValidMetric(m)
    ensures Fold(HeaderFields(m), Blank) == Some(Headed(m))
  {
    NoNulTaken(m.name, MAX_NAME);
    DatatypeReturns(m.dt);
    var a := Optional(m.name != [], Field(NAME, Chunk(m.name)));
    var b := Optional(m.hasAlias, Field(ALIAS, Number(m.alias)));
    var c := Optional(m.timestamp != 0, Field(TIMESTAMP, Number(m.timestamp)));
    var e := [Field(DATATYPE, Number(m.dt % TWO32))];
    var f := Optional(m.isHistorical, Field(IS_HISTORICAL, Number(1)));
    var named := Blank.(name := Take(m.name, MAX_NAME));
    assert Fold(a, Blank) == Some(named);
    FoldAppend(a, b, Blank);
    var aliased := named.(alias := if m.hasAlias then m.alias else 0, hasAlias := m.hasAlias);
    assert Fold(b, named) == Some(aliased);
    FoldAppend(a + b, c, Blank);
    assert Fold(c, aliased) == Some(aliased);
    FoldAppend(a + b + c, e, Blank);
    FoldAppend(a + b + c + e, f, Blank);
    assert Fold(e, aliased) == Some(Headed(m));
    assert Fold(f, Headed(m)) == Some(Headed(m));
  }

  /** Decoding what was encoded yields the metric's name, alias and datatype and
      its value narrowed to the datatype; only over-long texts are cut. */
  lemma MetricRoundTrip(m: Metric)
    requires ValidMetric(m)
    ensures var d := MetricAt(WriteFields(MetricFields(m)));
      && d.Some? && d.value.name == Take(m.name, MAX_NAME)
      && d.value.hasAlias == m.hasAlias && d.value.alias == (if m.hasAlias then m.alias else 0)
      && d.value.dt == m.dt && d.value.value == ShownValue(m)
  {
    MetricFieldsLegal(m);
    RunFields(MetricFields(m), Blank);
    HeaderFolds(m);
    FoldAppend(HeaderFields(m), ValueFields(m), Blank);
    if !m.isNull && IsInteger(m.dt) {
      IntegerFolds(m);
    } else {
      OtherFolds(m);
    }
  }

  lemma IntegerFolds(m: Metric)
    requires ValidMetric(m) && IsInteger(m.dt) && !m.isNull
    ensures var d := Fold(ValueFields(m), Headed(m));
      d.Some? && Finish(d.value).value == ShownValue(m) &&
        Finish(d.value).(value := Text([]), hasValue := false, pendingInt := 0, pendingKind := 0) == Headed(m)
  {
    var f := ValueField(m).value;
    FoldOne(f, Headed(m));
    RenderedInteger(m);
  }

  lemma OtherFolds(m: Metric)
    requires ValidMetric(m) && (m.isNull || !IsInteger(m.dt))
    ensures var d := Fold(ValueFields(m), Headed(m));
      d.Some? && Finish(d.value).value == ShownValue(m) &&
        Finish(d.value).(value := Text([]), hasValue := false, isNull := false) == Headed(m)
  {
    if ValueFields(m) != [] {
      FoldOne(ValueFields(m)[0], Headed(m));
    }
    NoNulTaken(m.text, MAX_VALUE);
  }
}
