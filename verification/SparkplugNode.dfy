/** The edge node of app/engine/sparkplug.c as a value, with every callback as a
    function on it, and the uplink (MQTT session, broker, listening host) its
    messages leave through. The configuration is fixed, enabled and has valid ids. */
module SparkplugNode {
  import opened Prelude
  import opened SparkplugHost

  const MAX_METRICS := 128
  const HISTORY_MAX := 256
  const VALUE_LEN := 256
  const REBIRTH := "Node Control/Rebirth"

  // ----- Uplink -----

  /** A will held by the broker; birthed when the host got an NBIRTH of its session. */
  datatype Will = Will(bdSeq: nat, birthed: bool)

  /** session is the open MQTT session; pending are wills of ended sessions the
      broker has not delivered yet; registered lists the bdSeq of every will a
      session was opened with. view is what the host knows of each alias. late
      and orphaned record what happened: an NBIRTH arriving while a will was
      pending, and the delivery of a will whose session the host never saw born. */
  datatype Broker = Broker(
    session: Option<Will>,
    pending: seq<Will>,
    host: Host,
    view: map<nat, Value>,
    late: bool,
    orphaned: bool,
    registered: seq<nat>)

  /** sends and arrives count how many more publishes of this session succeed and
      how many reach the host, so a failure is final for its session; lost is set
      once one did not get through. sent logs every publish that succeeded. */
  datatype Link = Link(connected: bool, sends: nat, arrives: nat, lost: bool, sent: seq<Message>, broker: Broker)

  /** What a host that keeps values knows: the latest birth plus later live data. */
  function Look(view: map<nat, Value>, ms: seq<Metric>): map<nat, Value> {
    if ms == [] then view
    else
      var m := Last(ms);
      var seen := Look(view, Front(ms));
      if m.alias.Some? && !m.historical then seen[m.alias.value := m.value] else seen
  }

  function Arrive(b: Broker, msg: Message): Broker {
    var birth := msg.kind == NBIRTH;
    b.(host := Show(b.host, msg),
       view := if msg.kind == NDEATH then b.view else Look(if birth then map[] else b.view, msg.metrics),
       session := if birth && b.session.Some? then Some(b.session.value.(birthed := true)) else b.session,
       late := b.late || (birth && b.pending != []))
  }

  function CanSend(k: Link): bool {
    k.connected && k.sends > 0
  }

  /** MQTT_Publish_Binary as the node sees it: it succeeds exactly when CanSend. */
  function Send(k: Link, msg: Message): Link {
    if !k.connected then k
    else if k.sends == 0 then k.(lost := true)
    else if k.arrives == 0 then k.(sends := k.sends - 1, lost := true, sent := k.sent + [msg])
    else k.(sends := k.sends - 1, arrives := k.arrives - 1, sent := k.sent + [msg], broker := Arrive(k.broker, msg))
  }

  // ----- Node -----

  /** Binding of a metric to a device event: its path and the payload field to read. */
  datatype Source = Source(path: string, key: string)
  datatype Def = Def(name: string, source: Option<Source>)
  datatype Config = Config(hasDevice: bool, defs: seq<Def>)

  /** What Sparkplug_Configure lets into the registry. */
  predicate ValidConfig(c: Config) {
    && |c.defs| <= MAX_METRICS
    && forall d | d in c.defs :: d.name != "" && d.name != BD_SEQ && d.name != REBIRTH
  }

  datatype Reading = Reading(text: string, ts: nat)
  datatype Sample = Sample(def: nat, reading: Reading)

  datatype Node = Node(
    cfg: Config,
    bdSeq: nat,
    seqNo: nat,
    birthSent: bool,
    hostOnline: bool,
    values: seq<Option<Reading>>,
    queue: seq<Sample>,
    link: Link)

  predicate Valid(n: Node) {
    && ValidConfig(n.cfg)
    && |n.values| == |n.cfg.defs|
    && |n.queue| <= HISTORY_MAX
    && n.seqNo < 256
    && forall s | s in n.queue :: s.def < |n.cfg.defs|
  }

  /** The alias of metric i; 0 is reserved. */
  function Alias(i: nat): nat { i + 1 }

  function Clip(text: string): string {
    if |text| < VALUE_LEN then text else text[..VALUE_LEN - 1]
  }

  function WireValue(v: Option<Reading>): Value {
    if v.Some? then Text(v.value.text) else Null
  }

  function BirthMetric(n: Node, i: nat, now: nat): Metric
    requires Valid(n) && i < |n.values|
  {
    var v := n.values[i];
    Metric(Some(n.cfg.defs[i].name), Some(Alias(i)), WireValue(v), if v.Some? then v.value.ts else now, false)
  }

  function BirthMetrics(n: Node, now: nat): seq<Metric>
    requires Valid(n)
  {
    seq(|n.values|, i requires 0 <= i < |n.values| => BirthMetric(n, i, now))
  }

  function NodeControls(bdSeq: nat, now: nat): seq<Metric> {
    [Metric(Some(BD_SEQ), None, Int(bdSeq), now, false), Metric(Some(REBIRTH), None, Flag(false), now, false)]
  }

  function NodeBirth(n: Node, now: nat): Message
    requires Valid(n)
  {
    Message(NBIRTH, Some(0), NodeControls(n.bdSeq, now) + if n.cfg.hasDevice then [] else BirthMetrics(n, now))
  }

  function DeviceBirth(n: Node, now: nat): Message
    requires Valid(n)
  {
    Message(DBIRTH, Some(1), BirthMetrics(n, now))
  }

  function PublishBirth(n: Node, now: nat): (r: Node)
    requires Valid(n)
    ensures Valid(r)
  {
    var n1 := n.(seqNo := 1, link := Send(n.link, NodeBirth(n, now)));
    if !CanSend(n.link) then n1
    else if !n.cfg.hasDevice then n1.(birthSent := true)
    else
      var n2 := n1.(seqNo := 2, link := Send(n1.link, DeviceBirth(n, now)));
      if !CanSend(n1.link) then n2 else n2.(birthSent := true)
  }

  function NextSeq(s: nat): nat { (s + 1) % 256 }

  function DataKind(n: Node): Kind {
    if n.cfg.hasDevice then DDATA else NDATA
  }

  function ReplayMetric(n: Node, s: Sample): Metric
    requires s.def < |n.cfg.defs|
  {
    Metric(Some(n.cfg.defs[s.def].name), Some(Alias(s.def)), Text(s.reading.text), s.reading.ts, true)
  }

  function ReplayMetrics(n: Node, q: seq<Sample>): seq<Metric>
    requires forall s | s in q :: s.def < |n.cfg.defs|
  {
    seq(|q|, k requires 0 <= k < |q| => ReplayMetric(n, q[k]))
  }

  function FlushHistory(n: Node): (r: Node)
    requires Valid(n)
    ensures Valid(r)
  {
    if n.queue == [] then n
    else
      var msg := Message(DataKind(n), Some(n.seqNo), ReplayMetrics(n, n.queue));
      n.(seqNo := NextSeq(n.seqNo), link := Send(n.link, msg), queue := if CanSend(n.link) then [] else n.queue)
  }

  /** buffer_sample: a full ring gives up its oldest entry. */
  function Enqueue(q: seq<Sample>, s: Sample): seq<Sample> {
    if |q| < HISTORY_MAX then q + [s] else q[1..] + [s]
  }

  function EnqueueAll(q: seq<Sample>, ss: seq<Sample>): (r: seq<Sample>)
    ensures |q| <= HISTORY_MAX ==> |r| <= HISTORY_MAX
    ensures forall s | s in r :: s in q || s in ss
  {
    if ss == [] then q else Enqueue(EnqueueAll(q, Front(ss)), Last(ss))
  }

  /** Samples are buffered while this holds, and published live otherwise. */
  predicate Muted(n: Node) {
    !n.birthSent || !n.hostOnline || !n.link.connected
  }

  function Remember(values: seq<Option<Reading>>, ss: seq<Sample>): (r: seq<Option<Reading>>)
    requires forall s | s in ss :: s.def < |values|
    ensures |r| == |values|
  {
    if ss == [] then values
    else
      assert Last(ss) in ss;
      Remember(values, Front(ss))[Last(ss).def := Some(Last(ss).reading)]
  }

  function DataMetrics(ss: seq<Sample>): seq<Metric> {
    seq(|ss|, k requires 0 <= k < |ss| =>
      Metric(None, Some(Alias(ss[k].def)), Text(ss[k].reading.text), ss[k].reading.ts, false))
  }

  /** The common tail of a device event and a rule publish: every sample updates
      its metric and is either buffered or part of one live DATA message. */
  function Accept(n: Node, ss: seq<Sample>): (r: Node)
    requires Valid(n) && forall s | s in ss :: s.def < |n.values|
    ensures Valid(r)
  {
    var n1 := n.(values := Remember(n.values, ss));
    if Muted(n) then n1.(queue := EnqueueAll(n.queue, ss))
    else if ss == [] then n1
    else n1.(seqNo := NextSeq(n.seqNo), link := Send(n.link, Message(DataKind(n), Some(n.seqNo), DataMetrics(ss))))
  }

  /** A device event: its path and its fields rendered as text. */
  datatype DeviceEvent = DeviceEvent(path: string, fields: map<string, string>)

  predicate PathMatches(path: string, prefix: string) {
    && prefix <= path
    && (|path| == |prefix| || path[|prefix|] == '/')
  }

  predicate Reports(n: Node, i: nat, ev: DeviceEvent)
    requires Valid(n) && i < |n.values|
  {
    var src := n.cfg.defs[i].source;
    && src.Some? && src.value.path != "" && src.value.key != ""
    && PathMatches(ev.path, src.value.path)
    && src.value.key in ev.fields
    && !(n.values[i].Some? && n.values[i].value.text == Clip(ev.fields[src.value.key]))
  }

  /** Report by exception: one sample for each bound metric among the first k whose value changed. */
  function EventSamples(n: Node, ev: DeviceEvent, ts: nat, k: nat): (ss: seq<Sample>)
    requires Valid(n) && k <= |n.values|
    ensures forall s | s in ss :: s.def < k
  {
    if k == 0 then []
    else
      var before := EventSamples(n, ev, ts, k - 1);
      if Reports(n, k - 1, ev)
      then before + [Sample(k - 1, Reading(Clip(ev.fields[n.cfg.defs[k - 1].source.value.key]), ts))]
      else before
  }

  /** One entry of a rule's metric list. */
  datatype Item = Item(name: string, value: string)

  /** find_def: the first definition of that name. */
  function FindDef(defs: seq<Def>, name: string, from: nat): (i: Option<nat>)
    requires from <= |defs|
    ensures i.Some? ==> from <= i.value < |defs| && defs[i.value].name == name
    ensures i.None? ==> forall k | from <= k < |defs| :: defs[k].name != name
    decreases |defs| - from
  {
    if from == |defs| then None
    else if defs[from].name == name then Some(from)
    else FindDef(defs, name, from + 1)
  }

  /** Undeclared names are skipped and at most MAX_METRICS entries are taken. */
  function ItemSamples(n: Node, items: seq<Item>, ts: nat): (ss: seq<Sample>)
    requires Valid(n)
    ensures forall s | s in ss :: s.def < |n.values|
    ensures |ss| <= MAX_METRICS
  {
    if items == [] then []
    else
      var before := ItemSamples(n, Front(items), ts);
      var d := FindDef(n.cfg.defs, Last(items).name, 0);
      if |before| < MAX_METRICS && Last(items).name != "" && d.Some?
      then before + [Sample(d.value, Reading(Clip(Last(items).value), ts))]
      else before
  }

  function OnPreconnect(n: Node): Node {
    n.(hostOnline := true, bdSeq := n.bdSeq + 1, birthSent := false)
  }

  function OnConnected(n: Node, now: nat): (r: Node)
    requires Valid(n)
    ensures Valid(r)
  {
    var n1 := PublishBirth(n, now);
    if n1.birthSent then FlushHistory(n1) else n1
  }

  function OnDisconnected(n: Node): Node {
    n.(birthSent := false)
  }

  /** A STATE message of the primary host. */
  function OnHostState(n: Node, online: bool, now: nat): (r: Node)
    requires Valid(n)
    ensures Valid(r)
  {
    var n1 := n.(hostOnline := online);
    if online && !n.hostOnline then OnConnected(n1, now)
    else if online then PublishBirth(n1, now)
    else n1
  }

  function NodeDeath(bdSeq: nat, now: nat): Message {
    Message(NDEATH, None, [Metric(Some(BD_SEQ), None, Int(bdSeq), now, false)])
  }

  /** Graceful shutdown announces its own death; a clean DISCONNECT suppresses the will. */
  function Cleanup(n: Node, now: nat): Node {
    n.(birthSent := false, link := if n.birthSent then Send(n.link, NodeDeath(n.bdSeq, now)) else n.link)
  }
}
