/** Whole Sparkplug payloads: SPB_Encode and SPB_Decode of
    app/engine/sparkplug_pb.c and the round trip between them. */
module ProtobufPayload {
  import opened Prelude
  import opened Bytes
  import opened ProtobufWire
  import opened ProtobufMetric
  import opened ProtobufDecode

  const MAX_METRICS := 4096

  /** One call of the handler. */
  datatype Call = Call(name: seq<byte>, alias: nat, hasAlias: bool, dt: int, value: Shown)

  /** The handler calls made, and the value returned. */
  datatype Outcome = Outcome(calls: seq<Call>, code: int)

  function MetricsFields(ms: seq<Metric>): seq<Field> {
    Map(MetricField, ms)
  }

  function SeqFields(hasSeq: bool, number: nat): seq<Field> {
    Optional(hasSeq, Field(PAYLOAD_SEQ, Number(number)))
  }

  function PayloadFields(timestamp: nat, hasSeq: bool, number: nat, ms: seq<Metric>): seq<Field> {
    [Field(PAYLOAD_TIMESTAMP, Number(timestamp))] + MetricsFields(ms) + SeqFields(hasSeq, number)
  }

  predicate ValidPayload(timestamp: nat, number: nat, ms: seq<Metric>) {
    timestamp < TWO64 && number < TWO64 && forall i | 0 <= i < |ms| :: ValidMetric(ms[i])
  }

  /** Buffer lengths are C ints. */
  predicate FitsInt(fs: seq<Field>) {
    |WriteFields(fs)| < TWO31
  }

  lemma {:induction false} FieldFits(fs: seq<Field>, i: nat)
    requires i < |fs|
    ensures |WriteContent(fs[i].content)| <= |WriteFields(fs)|
  {
    if i > 0 {
      FieldFits(fs[1..], i - 1);
    }
  }

  lemma ChunkFits(fs: seq<Field>, i: nat)
    requires i < |fs| && FitsInt(fs) && fs[i].content.Chunk? && fs[i].number == PAYLOAD_METRICS
    ensures WellFormed(fs[i])
  {
    FieldFits(fs, i);
  }

  lemma MetricFits(timestamp: nat, hasSeq: bool, number: nat, ms: seq<Metric>, i: nat)
    requires i < |ms| && FitsInt(PayloadFields(timestamp, hasSeq, number, ms))
    ensures WellFormed(MetricsFields(ms)[i])
  {
    var fs := PayloadFields(timestamp, hasSeq, number, ms);
    var metrics := MetricsFields(ms);
    assert fs[i + 1] == metrics[i];
    IsChunk(ms[i]);
    ChunkFits(fs, i + 1);
  }

  lemma IsChunk(m: Metric)
    ensures MetricField(m).content.Chunk? && MetricField(m).number == PAYLOAD_METRICS
  {
  }

  lemma PayloadLegal(timestamp: nat, hasSeq: bool, number: nat, ms: seq<Metric>)
    requires ValidPayload(timestamp, number, ms) && FitsInt(PayloadFields(timestamp, hasSeq, number, ms))
    ensures Legal(PayloadFields(timestamp, hasSeq, number, ms))
  {
    var first := [Field(PAYLOAD_TIMESTAMP, Number(timestamp))];
    var metrics, last := MetricsFields(ms), SeqFields(hasSeq, number);
    forall i | 0 <= i < |metrics| ensures WellFormed(metrics[i]) {
      MetricFits(timestamp, hasSeq, number, ms, i);
    }
    assert Legal(first) && Legal(metrics) && Legal(last);
  }

  method PutMetrics(out: ByteBuffer, ms: seq<Metric>, ghost sofar: seq<Field>)
    requires out.Valid() && out.Contents() == WriteFields(sofar)
    requires forall i | 0 <= i < |ms| :: ValidMetric(ms[i]) && WellFormed(MetricField(ms[i]))
    modifies out, out.data
    ensures out.Valid() && (out.data == old(out.data) || fresh(out.data))
    ensures out.Contents() == WriteFields(sofar + MetricsFields(ms))
  {
    assert sofar + MetricsFields(ms[..0]) == sofar;
    for i := 0 to |ms|
      invariant out.Valid() && (out.data == old(out.data) || fresh(out.data))
      invariant out.Contents() == WriteFields(sofar + MetricsFields(ms[..i]))
    {
      EncodeMetric(out, ms[i]);
      MapLast(MetricField, ms, i);
      WriteAfter(sofar, MetricsFields(ms[..i]), MetricField(ms[i]));
    }
    assert ms[..|ms|] == ms;
  }

  lemma WriteAfter(sofar: seq<Field>, fs: seq<Field>, f: Field)
    ensures WriteFields(sofar + (fs + [f])) == WriteFields(sofar + fs) + WriteField(f)
  {
    Associates(sofar, fs, [f]);
    WriteNext(sofar + fs, f);
  }

  method Encode(timestamp: nat, hasSeq: bool, number: nat, ms: seq<Metric>) returns (out: ByteBuffer)
    requires ValidPayload(timestamp, number, ms) && FitsInt(PayloadFields(timestamp, hasSeq, number, ms))
    ensures fresh(out) && out.Valid() && out.Contents() == WriteFields(PayloadFields(timestamp, hasSeq, number, ms))
  {
    forall i | 0 <= i < |ms| ensures WellFormed(MetricField(ms[i])) {
      MetricFits(timestamp, hasSeq, number, ms, i);
    }
    out := new ByteBuffer();
    ghost var first := Field(PAYLOAD_TIMESTAMP, Number(timestamp));
    PutOptional(out, true, Field(PAYLOAD_TIMESTAMP, Number(timestamp)), []);
    assert [] + Optional(true, first) == [first];
    PutMetrics(out, ms, [first]);
    PutOptional(out, hasSeq, Field(PAYLOAD_SEQ, Number(number)), [first] + MetricsFields(ms));
  }

  function CallOf(d: Decoded): Call {
    Call(d.name, d.alias, d.hasAlias, d.dt, d.value)
  }

  /** One field of a payload: the calls after it, or none when decoding stops. */
  function Handle(calls: seq<Call>, f: Field): Option<seq<Call>> {
    if f.number == PAYLOAD_METRICS && f.content.Chunk? then
      var d := MetricAt(f.content.bytes);
      if d.None? || |calls| + 1 > MAX_METRICS then None else Some(calls + [CallOf(d.value)])
    else Some(calls)
  }

  function Deliver(s: seq<byte>, calls: seq<Call>): Outcome
    decreases |s|
  {
    if s == [] then Outcome(calls, |calls|)
    else
      var r := ReadField(s);
      if r.None? || Handle(calls, r.value.0).None? then Outcome(calls, -1)
      else Deliver(s[r.value.1..], Handle(calls, r.value.0).value)
  }

  method Decode(bytes: seq<byte>) returns (o: Outcome)
    ensures o == Deliver(bytes, [])
  {
    var r := new Reader(bytes);
    var calls := [];
    while r.pos < |r.data|
      invariant r.Valid() && r.data == bytes
      invariant Deliver(bytes, []) == Deliver(r.Rest(), calls)
      decreases |r.data| - r.pos
    {
      var ok;
      calls, ok := DecodeNext(r, calls);
      if !ok { return Outcome(calls, -1); }
    }
    return Outcome(calls, |calls|);
  }

  /** One pass of that loop: a metric is decoded and handed on, another field skipped. */
  method DecodeNext(r: Reader, calls: seq<Call>) returns (more: seq<Call>, ok: bool)
    requires r.Valid() && r.pos < |r.data|
    modifies r
    ensures r.Valid() && (ok ==> r.pos > old(r.pos))
    ensures Deliver(old(r.Rest()), calls) == if ok then Deliver(r.Rest(), more) else Outcome(more, -1)
  {
    ghost var s := r.Rest();
    more := calls;
    var key := r.ReadVarint();
    if key.None? { return calls, false; }
    assert r.Rest() == s[Scan(s, 0).value.1..];
    var wireType := key.value % 8;
    if ToInt32(key.value / 8) == PAYLOAD_METRICS && wireType == 2 {
      var chunk := ReadChunk(r, wireType);
      if chunk.None? { return calls, false; }
      var d := DecodeMetric(chunk.value);
      if d.None? || |calls| + 1 > MAX_METRICS { return calls, false; }
      more := calls + [CallOf(d.value)];
    } else {
      var skipped := r.Skip(wireType);
      if !skipped { return calls, false; }
    }
    assert r.Rest() == s[ReadField(s).value.1..];
    ok := true;
  }

  // ----- Round trip -----

  function HandleAll(calls: seq<Call>, fs: seq<Field>): Outcome
    decreases |fs|
  {
    if fs == [] then Outcome(calls, |calls|)
    else if Handle(calls, fs[0]).None? then Outcome(calls, -1)
    else HandleAll(Handle(calls, fs[0]).value, fs[1..])
  }

  lemma {:induction false} DeliverFields(fs: seq<Field>, calls: seq<Call>)
    requires Legal(fs)
    ensures Deliver(WriteFields(fs), calls) == HandleAll(calls, fs)
  {
    if fs != [] {
      var rest := WriteFields(fs[1..]);
      ReadFieldWritten(fs[0], rest);
      assert (WriteField(fs[0]) + rest)[|WriteField(fs[0])|..] == rest;
      if Handle(calls, fs[0]).Some? {
        DeliverFields(fs[1..], Handle(calls, fs[0]).value);
      }
    }
  }

  /** The call a host's handler should get for a metric. */
  function Expected(m: Metric): Call {
    Call(Take(m.name, MAX_NAME), if m.hasAlias then m.alias else 0, m.hasAlias, m.dt, ShownValue(m))
  }

  function ExpectedCalls(ms: seq<Metric>): seq<Call> {
    Map(Expected, ms)
  }

  lemma HandleMetric(calls: seq<Call>, m: Metric)
    requires ValidMetric(m)
    ensures Handle(calls, MetricField(m)) == if |calls| < MAX_METRICS then Some(calls + [Expected(m)]) else None
  {
    MetricRoundTrip(m);
  }

  lemma HandleSeq(calls: seq<Call>, hasSeq: bool, number: nat)
    ensures HandleAll(calls, SeqFields(hasSeq, number)) == Outcome(calls, |calls|)
  {
    var fs := SeqFields(hasSeq, number);
    if fs != [] {
      assert fs[1..] == [];
    }
  }

  lemma {:induction false} HandleMetrics(calls: seq<Call>, ms: seq<Metric>, hasSeq: bool, number: nat)
    requires forall i | 0 <= i < |ms| :: ValidMetric(ms[i])
    requires |calls| <= MAX_METRICS
    ensures HandleAll(calls, MetricsFields(ms) + SeqFields(hasSeq, number)) == Handed(calls, ms)
    decreases |ms|
  {
    var tail := SeqFields(hasSeq, number);
    if ms == [] {
      assert MetricsFields(ms) + tail == tail;
      assert calls + ExpectedCalls(ms) == calls;
      HandleSeq(calls, hasSeq, number);
    } else {
      Associates([MetricField(ms[0])], MetricsFields(ms[1..]), tail);
      HandleMetric(calls, ms[0]);
      HandleFirst(calls, MetricField(ms[0]), MetricsFields(ms[1..]) + tail);
      HandedFirst(calls, ms);
      if |calls| < MAX_METRICS {
        HandleMetrics(calls + [Expected(ms[0])], ms[1..], hasSeq, number);
      }
    }
  }

  /** What has been delivered after ms, up to the limit. */
  function Handed(calls: seq<Call>, ms: seq<Metric>): Outcome
    requires |calls| <= MAX_METRICS
  {
    if |calls| + |ms| <= MAX_METRICS then Outcome(calls + ExpectedCalls(ms), |calls| + |ms|)
    else Outcome((calls + ExpectedCalls(ms))[..MAX_METRICS], -1)
  }

  lemma HandedFirst(calls: seq<Call>, ms: seq<Metric>)
    requires ms != [] && |calls| <= MAX_METRICS
    ensures Handed(calls, ms) ==
      if |calls| < MAX_METRICS then Handed(calls + [Expected(ms[0])], ms[1..]) else Outcome(calls, -1)
  {
    CallsSplit(calls, ms);
  }

  lemma CallsSplit(calls: seq<Call>, ms: seq<Metric>)
    requires ms != []
    ensures calls + ExpectedCalls(ms) == calls + [Expected(ms[0])] + ExpectedCalls(ms[1..])
    ensures |calls| == MAX_METRICS ==> (calls + ExpectedCalls(ms))[..MAX_METRICS] == calls
  {
    assert ExpectedCalls(ms) == [Expected(ms[0])] + ExpectedCalls(ms[1..]);
  }

  lemma HandleFirst(calls: seq<Call>, f: Field, rest: seq<Field>)
    ensures HandleAll(calls, [f] + rest) ==
      if Handle(calls, f).None? then Outcome(calls, -1) else HandleAll(Handle(calls, f).value, rest)
  {
    assert ([f] + rest)[1..] == rest;
  }

  /** Decoding an encoded payload calls the handler once per metric, in order, with
      the metric's name, alias, datatype and narrowed value; past the limit of 4096
      it has delivered the first 4096 and fails. */
  lemma PayloadRoundTrip(timestamp: nat, hasSeq: bool, number: nat, ms: seq<Metric>)
    requires ValidPayload(timestamp, number, ms) && FitsInt(PayloadFields(timestamp, hasSeq, number, ms))
    ensures Deliver(WriteFields(PayloadFields(timestamp, hasSeq, number, ms)), []) ==
      if |ms| <= 4096 then Outcome(ExpectedCalls(ms), |ms|) else Outcome(ExpectedCalls(ms)[..4096], -1)
  {
    PayloadLegal(timestamp, hasSeq, number, ms);
    DeliverFields(PayloadFields(timestamp, hasSeq, number, ms), []);
    HandleAfterTimestamp(timestamp, MetricsFields(ms), SeqFields(hasSeq, number));
    HandleMetrics([], ms, hasSeq, number);
    assert [] + ExpectedCalls(ms) == ExpectedCalls(ms);
  }

  lemma HandleAfterTimestamp(timestamp: nat, metrics: seq<Field>, tail: seq<Field>)
    ensures HandleAll([], [Field(PAYLOAD_TIMESTAMP, Number(timestamp))] + metrics + tail) ==
      HandleAll([], metrics + tail)
  {
    var first := Field(PAYLOAD_TIMESTAMP, Number(timestamp));
    Associates([first], metrics, tail);
    HandleFirst([], first, metrics + tail);
  }

  /** Fields a payload decoder does not deliver may stand between any two fields. */
  lemma {:induction false} DeliverAppend(x: seq<byte>, y: seq<byte>, calls: seq<Call>)
    requires Whole(x)
    ensures Deliver(x, calls).code == -1 ==> Deliver(x + y, calls) == Deliver(x, calls)
    ensures Deliver(x, calls).code != -1 ==> Deliver(x + y, calls) == Deliver(y, Deliver(x, calls).calls)
    decreases |x|
  {
    if x == [] {
      assert x + y == y;
    } else {
      var f := ReadField(x).value;
      ReadFieldLocal(x, y);
      assert (x + y)[f.1..] == x[f.1..] + y;
      if Handle(calls, f.0).Some? {
        DeliverAppend(x[f.1..], y, Handle(calls, f.0).value);
      }
    }
  }

  lemma ForeignFieldIgnored(x: seq<byte>, u: seq<byte>, y: seq<byte>)
    requires Whole(x)
    requires ReadField(u).Some? && ReadField(u).value.1 == |u|
    requires ReadField(u).value.0.number != PAYLOAD_METRICS || !ReadField(u).value.0.content.Chunk?
    ensures Deliver(x + u + y, []) == Deliver(x + y, [])
  {
    assert u[|u|..] == [];
    assert Whole(u[|u|..]);
    assert x + u + y == x + (u + y);
    DeliverAppend(x, u + y, []);
    DeliverAppend(x, y, []);
    DeliverAppend(u, y, Deliver(x, []).calls);
  }
}
