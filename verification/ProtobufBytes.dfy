/** The payload byte by byte: which fields a metric carries, under which numbers of
    the Sparkplug B schema, and examples of what they look like on the wire. */
module ProtobufBytes {
  import opened Prelude
  import opened Bytes
  import opened ProtobufWire
  import opened ProtobufMetric
  import opened ProtobufPayload

  // ----- Fields by number -----

  /** The value of a metric that is not null, by datatype: 1 to 4 signed, 5 to 8
      unsigned, 9 float, 10 double, 11 boolean, 12 string, 13 date, 14 text, 15 UUID. */
  predicate IsValueField(m: Metric, f: Field) {
    match m.dt
    case 1 => f == Field(10, Number(m.i64 % 0x100))
    case 5 => f == Field(10, Number(m.i64 % 0x100))
    case 2 => f == Field(10, Number(m.i64 % 0x1_0000))
    case 6 => f == Field(10, Number(m.i64 % 0x1_0000))
    case 3 => f == Field(10, Number(m.i64 % 0x1_0000_0000))
    case 7 => f == Field(10, Number(m.i64 % 0x1_0000_0000))
    case 4 => f == Field(11, Number(m.i64 % 0x1_0000_0000_0000_0000))
    case 8 => f == Field(11, Number(m.i64 % 0x1_0000_0000_0000_0000))
    case 13 => f == Field(11, Number(m.i64 % 0x1_0000_0000_0000_0000))
    case 9 => f == Field(12, Fixed32(m.floatBits))
    case 10 => f == Field(13, Fixed64(m.doubleBits))
    case 11 => f == Field(14, Number(if m.i64 == 0 then 0 else 1))
    case 12 => f == Field(15, Chunk(m.text))
    case 14 => f == Field(15, Chunk(m.text))
    case 15 => f == Field(15, Chunk(m.text))
    case _ => false
  }

  /** A field of the metric: its name, alias and timestamp if it has them, its
      datatype, the historical mark of a replayed sample, and null or the value. */
  predicate IsFieldOf(m: Metric, f: Field) {
    || (m.name != [] && f == Field(1, Chunk(m.name)))
    || (m.hasAlias && f == Field(2, Number(m.alias)))
    || (m.timestamp != 0 && f == Field(3, Number(m.timestamp)))
    || f == Field(4, Number(m.dt % 0x1_0000_0000))
    || (m.isHistorical && f == Field(5, Number(1)))
    || (if m.isNull then f == Field(7, Number(1)) else IsValueField(m, f))
  }

  lemma ValueFieldIs(m: Metric, f: Field)
    ensures ValueField(m) == Some(f) <==> IsValueField(m, f)
  {
  }

  lemma InOptional(given: bool, x: Field, f: Field)
    ensures f in Optional(given, x) <==> given && f == x
  {
  }

  lemma HeaderFieldsAre(m: Metric, f: Field)
    ensures f in HeaderFields(m) <==>
      || (m.name != [] && f == Field(1, Chunk(m.name)))
      || (m.hasAlias && f == Field(2, Number(m.alias)))
      || (m.timestamp != 0 && f == Field(3, Number(m.timestamp)))
      || f == Field(4, Number(m.dt % 0x1_0000_0000))
      || (m.isHistorical && f == Field(5, Number(1)))
  {
    InOptional(m.name != [], Field(NAME, Chunk(m.name)), f);
    InOptional(m.hasAlias, Field(ALIAS, Number(m.alias)), f);
    InOptional(m.timestamp != 0, Field(TIMESTAMP, Number(m.timestamp)), f);
    InOptional(m.isHistorical, Field(IS_HISTORICAL, Number(1)), f);
  }

  /** A metric is written as exactly its fields, no two under one number. */
  lemma MetricFieldsAre(m: Metric, f: Field)
    ensures f in MetricFields(m) <==> IsFieldOf(m, f)
    ensures forall j, k | 0 <= j < k < |MetricFields(m)| :: MetricFields(m)[j].number < MetricFields(m)[k].number
  {
    HeaderFieldsAre(m, f);
    ValueFieldIs(m, f);
    FieldsAscend(m);
  }

  lemma FieldsAscend(m: Metric)
    ensures forall j, k | 0 <= j < k < |MetricFields(m)| :: MetricFields(m)[j].number < MetricFields(m)[k].number
  {
    HeaderRises(Optional(m.name != [], Field(NAME, Chunk(m.name))), Optional(m.hasAlias, Field(ALIAS, Number(m.alias))),
                Optional(m.timestamp != 0, Field(TIMESTAMP, Number(m.timestamp))),
                [Field(DATATYPE, Number(m.dt % TWO32))], Optional(m.isHistorical, Field(IS_HISTORICAL, Number(1))));
    Joins(HeaderFields(m), ValueFields(m), 5, 15);
  }

  lemma HeaderRises(a: seq<Field>, b: seq<Field>, c: seq<Field>, d: seq<Field>, e: seq<Field>)
    requires |a| <= 1 && |b| <= 1 && |c| <= 1 && |d| <= 1 && |e| <= 1
    requires (a != [] ==> a[0].number == 1) && (b != [] ==> b[0].number == 2) && (c != [] ==> c[0].number == 3)
    requires (d != [] ==> d[0].number == 4) && (e != [] ==> e[0].number == 5)
    ensures Rising(a + b + c + d + e, 5)
  {
    Joins(a, b, 1, 2);
    Joins(a + b, c, 2, 3);
    Joins(a + b + c, d, 3, 4);
    Joins(a + b + c + d, e, 4, 5);
  }

  /** Numbers rise, and none is above the bound. */
  ghost predicate Rising(fs: seq<Field>, bound: int) {
    && (forall j, k | 0 <= j < k < |fs| :: fs[j].number < fs[k].number)
    && forall k | 0 <= k < |fs| :: fs[k].number <= bound
  }

  lemma Joins(a: seq<Field>, b: seq<Field>, low: int, high: int)
    requires Rising(a, low) && |b| <= 1 && (b != [] ==> low < b[0].number <= high) && low <= high
    ensures Rising(a + b, high)
  {
  }

  // ----- What the values mean -----

  /** The range of each integer datatype. */
  lemma IntegerRanges(v: int)
    ensures InRange(1, v) <==> -128 <= v < 128
    ensures InRange(2, v) <==> -32768 <= v < 32768
    ensures InRange(3, v) <==> -0x8000_0000 <= v < 0x8000_0000
    ensures InRange(4, v) <==> -0x8000_0000_0000_0000 <= v < 0x8000_0000_0000_0000
    ensures InRange(5, v) <==> 0 <= v < 256
    ensures InRange(6, v) <==> 0 <= v < 65536
    ensures InRange(7, v) <==> 0 <= v < 0x1_0000_0000
    ensures InRange(8, v) <==> 0 <= v < 0x1_0000_0000_0000_0000
    ensures InRange(13, v) <==> 0 <= v < 0x1_0000_0000_0000_0000
  {
  }

  /** A host is shown at most 255 bytes of a name and 511 of a text, and the words
      true and false. */
  lemma ShownAre(m: Metric)
    requires !m.isNull
    ensures Expected(m).name == if |m.name| <= 255 then m.name else m.name[..255]
    ensures m.dt == 12 ==> ShownValue(m) == Text(if |m.text| <= 511 then m.text else m.text[..511])
    ensures m.dt == 11 ==> ShownValue(m) == Text(if m.i64 == 0 then [102, 97, 108, 115, 101] else [116, 114, 117, 101])
  {
  }

  // ----- Examples -----

  lemma VarintBytes()
    ensures Varint(1) == [0x01] && Varint(150) == [0x96, 0x01] && Varint(300) == [0xAC, 0x02]
    ensures Varint(0xFFFF_FFFF) == [0xFF, 0xFF, 0xFF, 0xFF, 0x0F]
  {
  }

  /** Field 2 holding a text, and the value -1 of an Int32. */
  lemma FieldBytes()
    ensures WriteField(Field(2, Chunk([0x68, 0x69]))) == [0x12, 0x02, 0x68, 0x69]
    ensures WriteField(Field(10, Number(0xFFFF_FFFF))) == [0x50, 0xFF, 0xFF, 0xFF, 0xFF, 0x0F]
  {
  }

  /** A float and a double of value 1. */
  lemma FixedBytes()
    ensures WriteField(Field(12, Fixed32(0x3F80_0000))) == [0x65, 0x00, 0x00, 0x80, 0x3F]
    ensures WriteField(Field(13, Fixed64(0x3FF0_0000_0000_0000))) ==
      [0x69, 0x00, 0x00, 0x00, 0x00, 0x00, 0x00, 0xF0, 0x3F]
  {
    LittleOne(0x3F80, 2, 0x3F, 0x80, [0x3F]);
    LittleOne(0x3F_8000, 3, 0x3F80, 0, [0x80, 0x3F]);
    LittleOne(0x3F80_0000, 4, 0x3F_8000, 0, [0x00, 0x80, 0x3F]);
    LittleOne(0x3FF0, 2, 0x3F, 0xF0, [0x3F]);
    LittleOne(0x3F_F000, 3, 0x3FF0, 0, [0xF0, 0x3F]);
    LittleOne(0x3FF0_0000, 4, 0x3F_F000, 0, [0x00, 0xF0, 0x3F]);
    LittleOne(0x3F_F000_0000, 5, 0x3FF0_0000, 0, [0x00, 0x00, 0xF0, 0x3F]);
    LittleOne(0x3FF0_0000_0000, 6, 0x3F_F000_0000, 0, [0x00, 0x00, 0x00, 0xF0, 0x3F]);
    LittleOne(0x3F_F000_0000_0000, 7, 0x3FF0_0000_0000, 0, [0x00, 0x00, 0x00, 0x00, 0xF0, 0x3F]);
    LittleOne(0x3FF0_0000_0000_0000, 8, 0x3F_F000_0000_0000, 0, [0x00, 0x00, 0x00, 0x00, 0x00, 0xF0, 0x3F]);
  }

  lemma LittleOne(v: nat, n: nat, high: nat, low: byte, rest: seq<byte>)
    requires n > 0 && v == 256 * high + low && LittleBytes(high, n - 1) == rest
    ensures LittleBytes(v, n) == [low] + rest
  {
    DivModUnique(v, 256, high, low);
  }

  lemma WriteFirst(f: Field, fs: seq<Field>)
    ensures WriteFields([f] + fs) == WriteField(f) + WriteFields(fs)
  {
    assert ([f] + fs)[1..] == fs;
  }

  lemma SmallFields()
    ensures WriteField(Field(1, Chunk([0x54]))) == [0x0A, 0x01, 0x54]
    ensures WriteField(Field(2, Number(1))) == [0x10, 0x01] && WriteField(Field(3, Number(2))) == [0x18, 0x02]
    ensures WriteField(Field(4, Number(3))) == [0x20, 0x03]
  {
  }

  lemma FiveFields(a: Field, b: Field, c: Field, d: Field, e: Field)
    ensures WriteFields([a, b, c, d, e]) ==
      WriteField(a) + (WriteField(b) + (WriteField(c) + (WriteField(d) + WriteField(e))))
  {
    WriteOne(e);
    WriteFirst(d, [e]);
    WriteFirst(c, [d] + [e]);
    WriteFirst(b, [c] + ([d] + [e]));
    WriteFirst(a, [b] + ([c] + ([d] + [e])));
    assert [a] + ([b] + ([c] + ([d] + [e]))) == [a, b, c, d, e];
  }

  lemma ExampleFields()
    ensures MetricFields(Metric([0x54], 1, true, 2, 3, false, false, -1, 0, 0, [])) ==
      [Field(1, Chunk([0x54])), Field(2, Number(1)), Field(3, Number(2)), Field(4, Number(3)),
       Field(10, Number(0xFFFF_FFFF))]
  {
  }

  /** Metric "T" with alias 1, taken at time 2, an Int32 of value -1. */
  lemma MetricBytes()
    ensures WriteFields(MetricFields(Metric([0x54], 1, true, 2, 3, false, false, -1, 0, 0, []))) ==
      [0x0A, 0x01, 0x54, 0x10, 0x01, 0x18, 0x02, 0x20, 0x03, 0x50, 0xFF, 0xFF, 0xFF, 0xFF, 0x0F]
  {
    ExampleFields();
    FieldBytes();
    SmallFields();
    FiveFields(Field(1, Chunk([0x54])), Field(2, Number(1)), Field(3, Number(2)), Field(4, Number(3)),
               Field(10, Number(0xFFFF_FFFF)));
  }

  lemma OneFields()
    ensures WriteField(Field(1, Number(5))) == [0x08, 0x05] && WriteField(Field(3, Number(7))) == [0x18, 0x07]
  {
  }

  /** A payload of time 5 and sequence number 7 without metrics, and one without a
      sequence number. */
  lemma PayloadBytes()
    ensures WriteFields(PayloadFields(5, true, 7, [])) == [0x08, 0x05, 0x18, 0x07]
    ensures WriteFields(PayloadFields(5, false, 7, [])) == [0x08, 0x05]
  {
    OneFields();
    WriteOne(Field(1, Number(5)));
    WriteOne(Field(3, Number(7)));
    WriteFirst(Field(1, Number(5)), [Field(3, Number(7))]);
    assert PayloadFields(5, true, 7, []) == [Field(1, Number(5))] + [Field(3, Number(7))];
    assert PayloadFields(5, false, 7, []) == [Field(1, Number(5))];
  }
}
