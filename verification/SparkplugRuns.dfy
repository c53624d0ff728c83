/** Node, MQTT worker, broker and host composed: runs are arbitrary sequences of
    steps, and the theorems hold after every one of them. */
module SparkplugRuns {
  import opened Prelude
  import opened SparkplugHost
  import opened SparkplugNode

  /** Where the process and its MQTT worker stand between two callbacks. */
  datatype Phase = Stopped | Idle | Ready | Linked | Up | Down

  datatype World = World(phase: Phase, disk: nat, node: Node)

  /** How a CONNECT ends: never seen by the broker, accepted but given up by the
      client, or a session with its budget of successful and arriving publishes. */
  datatype Outcome = Refused | GivenUp | Accepted(sends: nat, arrives: nat)

  datatype Step =
    | Start
    | Preconnect
    | CrashInPreconnect(saved: bool)
    | Connect(outcome: Outcome)
    | ConnectedCallback(now: nat)
    | EventFires(event: DeviceEvent, ts: nat)
    | RuleFires(items: seq<Item>, ts: nat)
    | HostStateArrives(online: bool, now: nat)
    | RebirthCommand(now: nat)
    | BrokerLosesClient
    | Drop
    | DisconnectedCallback
    | DeliverWill(i: nat)
    | Shutdown(now: nat, clean: bool)
    | Crash

  const NoBroker := Broker(None, [], FreshHost, map[], false, false, [])

  function Boot(cfg: Config, saved: nat, link: Link): Node {
    Node(cfg, saved, 0, false, true, seq(|cfg.defs|, _ => None), [], link.(connected := false))
  }

  function Init(cfg: Config): World {
    World(Stopped, 0, Boot(cfg, 0, Link(false, 0, 0, false, [], NoBroker)))
  }

  /** The broker ends the session and owes the host its will. */
  function EndSession(b: Broker): Broker {
    if b.session.None? then b else b.(session := None, pending := b.pending + [b.session.value])
  }

  function Unlink(n: Node): Node {
    n.(link := n.link.(connected := false, broker := EndSession(n.link.broker)))
  }

  function Connected(n: Node, o: Outcome): Node {
    var b := n.link.broker.(registered := n.link.broker.registered + [n.bdSeq]);
    match o
    case Refused => n
    case GivenUp => n.(link := n.link.(broker := b.(pending := b.pending + [Will(n.bdSeq, false)])))
    case Accepted(sends, arrives) =>
      n.(link := n.link.(connected := true, sends := sends, arrives := arrives, lost := false,
                         broker := b.(session := Some(Will(n.bdSeq, false)))))
  }

  function Deliver(b: Broker, i: nat): Broker
    requires i < |b.pending|
  {
    var w := b.pending[i];
    Arrive(b, NodeDeath(w.bdSeq, 0)).(
      pending := b.pending[..i] + b.pending[i + 1..],
      orphaned := b.orphaned || (!w.birthed && b.host.bdSeq != Null))
  }

  function ShutDown(n: Node, now: nat, clean: bool): Node {
    var n1 := Cleanup(n, now);
    if clean && CanSend(n1.link) && n1.link.arrives > 0
    then n1.(link := n1.link.(connected := false, broker := n1.link.broker.(session := None)))
    else Unlink(n1)
  }

  /** A step whose moment has not come leaves the world as it is. */
  function Next(w: World, s: Step): (w': World)
    requires Valid(w.node)
    ensures Valid(w'.node) && w'.node.cfg == w.node.cfg
  {
    var n := w.node;
    var running := w.phase != Stopped;
    match s
    case Start => if running then w else World(Idle, w.disk, Boot(n.cfg, w.disk, n.link))
    case Preconnect => if w.phase != Idle then w else World(Ready, n.bdSeq + 1, OnPreconnect(n))
    case CrashInPreconnect(saved) =>
      if w.phase != Idle then w else World(Stopped, if saved then n.bdSeq + 1 else w.disk, Unlink(n))
    case Connect(o) =>
      if w.phase != Ready then w else w.(phase := if o.Accepted? then Linked else Idle, node := Connected(n, o))
    case ConnectedCallback(now) => if w.phase != Linked then w else w.(phase := Up, node := OnConnected(n, now))
    case EventFires(ev, ts) =>
      if running then w.(node := Accept(n, EventSamples(n, ev, ts, |n.values|))) else w
    case RuleFires(items, ts) => if running then w.(node := Accept(n, ItemSamples(n, items, ts))) else w
    case HostStateArrives(online, now) => if running then w.(node := OnHostState(n, online, now)) else w
    case RebirthCommand(now) => if running then w.(node := PublishBirth(n, now)) else w
    case BrokerLosesClient =>
      w.(node := n.(link := n.link.(arrives := 0, broker := EndSession(n.link.broker))))
    case Drop => if w.phase != Up then w else w.(phase := Down, node := Unlink(n))
    case DisconnectedCallback => if w.phase != Down then w else w.(phase := Idle, node := OnDisconnected(n))
    case DeliverWill(i) =>
      if i < |n.link.broker.pending| then w.(node := n.(link := n.link.(broker := Deliver(n.link.broker, i)))) else w
    case Shutdown(now, clean) => if running then w.(phase := Stopped, node := ShutDown(n, now, clean)) else w
    case Crash => if running then w.(phase := Stopped, node := Unlink(n)) else w
  }

  function Exec(w: World, steps: seq<Step>): (w': World)
    requires Valid(w.node)
    ensures Valid(w'.node) && w'.node.cfg == w.node.cfg
  {
    if steps == [] then w else Next(Exec(w, Front(steps)), Last(steps))
  }

  // ----- What a message does to the host -----

  ghost predicate Declares(h: Host, n: Node, k: nat)
    requires Valid(n) && k <= |n.values|
  {
    forall i: nat | i < k :: Alias(i) in h.aliases && h.aliases[Alias(i)] == n.cfg.defs[i].name
  }

  ghost predicate Shows(view: map<nat, Value>, values: seq<Option<Reading>>, k: nat)
    requires k <= |values|
  {
    forall i: nat | i < k :: Alias(i) in view && view[Alias(i)] == WireValue(values[i])
  }

  lemma {:induction false} SeeSplit(h: Host, kind: Kind, a: seq<Metric>, b: seq<Metric>)
    ensures SeeMetrics(h, kind, a + b) == SeeMetrics(SeeMetrics(h, kind, a), kind, b)
  {
    if b == [] {
      assert a + b == a;
    } else {
      SeeSplit(h, kind, a, Front(b));
      assert Front(a + b) == a + Front(b);
    }
  }

  lemma {:induction false} LookSplit(view: map<nat, Value>, a: seq<Metric>, b: seq<Metric>)
    ensures Look(view, a + b) == Look(Look(view, a), b)
  {
    if b == [] {
      assert a + b == a;
    } else {
      LookSplit(view, a, Front(b));
      assert Front(a + b) == a + Front(b);
    }
  }

  lemma {:induction false} SeeBirthMetrics(h: Host, kind: Kind, n: Node, now: nat, k: nat)
    requires Valid(n) && k <= |n.values|
    ensures var r := SeeMetrics(h, kind, BirthMetrics(n, now)[..k]);
      && r == h.(aliases := r.aliases) && Declares(r, n, k)
  {
    if k > 0 {
      var ms := BirthMetrics(n, now);
      SeeBirthMetrics(h, kind, n, now, k - 1);
      assert Front(ms[..k]) == ms[..k - 1];
      SeeBirthMetric(SeeMetrics(h, kind, ms[..k - 1]), kind, n, now, k - 1);
    }
  }

  lemma SeeBirthMetric(h: Host, kind: Kind, n: Node, now: nat, i: nat)
    requires Valid(n) && i < |n.values| && Declares(h, n, i)
    ensures var r := SeeMetric(h, kind, BirthMetric(n, i, now));
      && r == h.(aliases := r.aliases) && Declares(r, n, i + 1)
  {
    assert n.cfg.defs[i] in n.cfg.defs;
  }

  lemma {:induction false} LookBirthMetrics(view: map<nat, Value>, n: Node, now: nat, k: nat)
    requires Valid(n) && k <= |n.values|
    ensures Shows(Look(view, BirthMetrics(n, now)[..k]), n.values, k)
  {
    if k > 0 {
      var ms := BirthMetrics(n, now);
      LookBirthMetrics(view, n, now, k - 1);
      assert Front(ms[..k]) == ms[..k - 1];
    }
  }

  lemma {:induction false} SeeData(h: Host, kind: Kind, n: Node, ss: seq<Sample>)
    requires Valid(n) && (forall s | s in ss :: s.def < |n.values|)
    requires kind in {NDATA, DDATA} && Declares(h, n, |n.values|)
    ensures SeeMetrics(h, kind, DataMetrics(ss)) == h
  {
    if ss != [] {
      assert Last(ss) in ss;
      SeeData(h, kind, n, Front(ss));
      assert Front(DataMetrics(ss)) == DataMetrics(Front(ss));
    }
  }

  lemma {:induction false} LookData(view: map<nat, Value>, values: seq<Option<Reading>>, ss: seq<Sample>)
    requires (forall s | s in ss :: s.def < |values|) && Shows(view, values, |values|)
    ensures Shows(Look(view, DataMetrics(ss)), Remember(values, ss), |values|)
  {
    if ss != [] {
      assert Last(ss) in ss;
      LookData(view, values, Front(ss));
      assert Front(DataMetrics(ss)) == DataMetrics(Front(ss));
    }
  }

  lemma {:induction false} SeeReplay(h: Host, view: map<nat, Value>, kind: Kind, n: Node, q: seq<Sample>)
    requires Valid(n) && (forall s | s in q :: s.def < |n.cfg.defs|)
    requires kind in {NDATA, DDATA} && Declares(h, n, |n.values|)
    ensures SeeMetrics(h, kind, ReplayMetrics(n, q)) == h
    ensures Look(view, ReplayMetrics(n, q)) == view
  {
    if q != [] {
      assert Last(q) in q;
      SeeReplay(h, view, kind, n, Front(q));
      assert Front(ReplayMetrics(n, q)) == ReplayMetrics(n, Front(q));
      var i := Last(q).def;
      assert h.aliases[Alias(i)] == n.cfg.defs[i].name;
      assert h.aliases == h.aliases[Alias(i) := n.cfg.defs[i].name];
    }
  }

  lemma SeeControls(h: Host, bdSeq: nat, now: nat)
    ensures SeeMetrics(h, NBIRTH, NodeControls(bdSeq, now)) == h.(bdSeq := Int(bdSeq))
  {
    var c := NodeControls(bdSeq, now);
    assert Front(c) == [c[0]] && Front([c[0]]) == [];
    var h1 := SeeMetric(h, NBIRTH, c[0]);
    assert h1 == h.(bdSeq := Int(bdSeq));
    assert SeeMetric(h1, NBIRTH, c[1]) == h1;
    assert SeeMetrics(h, NBIRTH, [c[0]]) == h1;
  }

  lemma NodeBirthArrives(n: Node, now: nat)
    requires Valid(n)
    ensures var b := Arrive(n.link.broker, NodeBirth(n, now));
      && b.host.problems == n.link.broker.host.problems
      && b.host.bdSeq == Int(n.bdSeq) && b.host.wanted == Some(1) && b.host.birthSeen
      && (!n.cfg.hasDevice ==> Declares(b.host, n, |n.values|) && Shows(b.view, n.values, |n.values|))
  {
    var header := SeeHeader(n.link.broker.host, NBIRTH, Some(0));
    var controls := NodeControls(n.bdSeq, now);
    var ms := if n.cfg.hasDevice then [] else BirthMetrics(n, now);
    SeeControls(header, n.bdSeq, now);
    SeeSplit(header, NBIRTH, controls, ms);
    if !n.cfg.hasDevice {
      assert ms[..|ms|] == ms;
      SeeBirthMetrics(SeeMetrics(header, NBIRTH, controls), NBIRTH, n, now, |ms|);
      LookSplit(map[], controls, ms);
      LookBirthMetrics(Look(map[], controls), n, now, |ms|);
    }
  }

  lemma DeviceBirthArrives(n: Node, b: Broker, now: nat)
    requires Valid(n) && b.host.wanted == Some(1)
    ensures var b' := Arrive(b, DeviceBirth(n, now));
      && b'.host == b.host.(aliases := b'.host.aliases, wanted := Some(2))
      && Declares(b'.host, n, |n.values|) && Shows(b'.view, n.values, |n.values|)
      && b' == b.(host := b'.host, view := b'.view)
  {
    var ms := BirthMetrics(n, now);
    assert ms[..|ms|] == ms;
    SeeBirthMetrics(SeeHeader(b.host, DBIRTH, Some(1)), DBIRTH, n, now, |ms|);
    LookBirthMetrics(b.view, n, now, |ms|);
  }

  /** An NDEATH raises a flag exactly when it names another bdSeq than the last birth. */
  lemma DeathArrives(b: Broker, bdSeq: nat, now: nat)
    ensures var b' := Arrive(b, NodeDeath(bdSeq, now));
      && b' == b.(host := b.host.(problems := b'.host.problems))
      && (b'.host.problems == b.host.problems <==> b.host.bdSeq == Null || b.host.bdSeq == Int(bdSeq))
      && b.host.problems <= b'.host.problems
  {
    var m := NodeDeath(bdSeq, now).metrics[0];
    assert Front([m]) == [];
    assert NodeDeath(bdSeq, now).metrics == [m];
    assert SeeMetrics(b.host, NDEATH, [m]) == SeeMetric(b.host, NDEATH, m);
  }

  // ----- Invariant -----

  /** Nothing this session published has failed or been lost so far. */
  predicate Live(k: Link) {
    k.connected && !k.lost
  }

  ghost predicate Synced(n: Node)
    requires Valid(n)
  {
    var h := n.link.broker.host;
    h.birthSeen && h.wanted == Some(n.seqNo) && h.bdSeq == Int(n.bdSeq) && Declares(h, n, |n.values|)
  }

  ghost predicate Known(n: Node)
    requires Valid(n)
  {
    Shows(n.link.broker.view, n.values, |n.values|)
  }

  /** Failure is final, and only an open session delivers. */
  predicate LinkInv(n: Node) {
    var k := n.link;
    && (k.connected && k.lost ==> k.sends == 0 || k.arrives == 0)
    && (k.connected && k.arrives > 0 ==> k.broker.session.Some?)
    && (k.broker.session.Some? ==> k.connected && k.broker.session.value.bdSeq == n.bdSeq)
  }

  /** Every will knows whether the host's birth is its own. */
  predicate WillInv(b: Broker, w: Will) {
    w.birthed <==> b.host.bdSeq == Int(w.bdSeq)
  }

  ghost predicate BrokerInv(b: Broker) {
    && (b.session.Some? ==> WillInv(b, b.session.value))
    && (!b.late ==>
          && (b.host.problems == [] <==> !b.orphaned)
          && forall w | w in b.pending :: WillInv(b, w))
  }

  /** All but what the host knows of values, which a birth re-establishes. */
  ghost predicate StreamInv(n: Node) {
    && Valid(n)
    && LinkInv(n)
    && BrokerInv(n.link.broker)
    && (Live(n.link) && n.birthSent ==> Synced(n))
  }

  ghost predicate NodeInv(n: Node) {
    && StreamInv(n)
    && (Live(n.link) && n.birthSent && n.hostOnline ==> Known(n))
  }

  predicate PhaseInv(w: World) {
    var n := w.node;
    var b := n.link.broker;
    && (w.phase in {Linked, Up} <==> n.link.connected)
    && (w.phase != Stopped ==> n.bdSeq == w.disk)
    && (w.phase in {Idle, Ready} ==> !n.birthSent)
    && (b.host.bdSeq.Null? || b.host.bdSeq.Int?)
    && (b.host.bdSeq.Int? ==> b.host.bdSeq.n <= w.disk && (w.phase == Ready ==> b.host.bdSeq.n < n.bdSeq))
  }

  /** Wills registered so far have strictly increasing bdSeq, none beyond what is on disk. */
  predicate RegisteredInv(w: World) {
    var r := w.node.link.broker.registered;
    && (forall i, j | 0 <= i < j < |r| :: r[i] < r[j])
    && (forall i | 0 <= i < |r| :: r[i] <= w.disk && (w.phase == Ready ==> r[i] < w.node.bdSeq))
    && (w.node.link.broker.session.Some? ==> r != [] && Last(r) == w.node.link.broker.session.value.bdSeq)
  }

  ghost predicate Inv(w: World) {
    NodeInv(w.node) && PhaseInv(w) && RegisteredInv(w)
  }

  // ----- Every operation keeps the node's part of the invariant -----

  lemma BirthKeeps(n: Node, now: nat)
    requires StreamInv(n)
    ensures NodeInv(PublishBirth(n, now))
  {
    if CanSend(n.link) && n.link.arrives > 0 {
      NodeBirthArrives(n, now);
      var n1 := n.(seqNo := 1, link := Send(n.link, NodeBirth(n, now)));
      assert n1.link.broker.late == (n.link.broker.late || n.link.broker.pending != []);
      if n.cfg.hasDevice && CanSend(n1.link) && n1.link.arrives > 0 {
        DeviceBirthArrives(n, n1.link.broker, now);
      }
    }
  }

  lemma FlushKeeps(n: Node)
    requires NodeInv(n) && n.birthSent
    ensures NodeInv(FlushHistory(n))
  {
    if n.queue != [] && CanSend(n.link) && n.link.arrives > 0 {
      var kind := DataKind(n);
      var h := SeeHeader(n.link.broker.host, kind, Some(n.seqNo));
      SeeReplay(h, n.link.broker.view, kind, n, n.queue);
    }
  }

  lemma AcceptKeeps(n: Node, ss: seq<Sample>)
    requires NodeInv(n) && forall s | s in ss :: s.def < |n.values|
    ensures NodeInv(Accept(n, ss))
  {
    if !Muted(n) {
      if ss != [] && CanSend(n.link) && n.link.arrives > 0 {
        var kind := DataKind(n);
        SeeData(SeeHeader(n.link.broker.host, kind, Some(n.seqNo)), kind, n, ss);
        LookData(n.link.broker.view, n.values, ss);
      }
    }
  }

  lemma ConnectedKeeps(n: Node, now: nat)
    requires StreamInv(n)
    ensures NodeInv(OnConnected(n, now))
  {
    BirthKeeps(n, now);
    var n1 := PublishBirth(n, now);
    if n1.birthSent {
      FlushKeeps(n1);
    }
  }

  lemma HostStateKeeps(n: Node, online: bool, now: nat)
    requires NodeInv(n)
    ensures NodeInv(OnHostState(n, online, now))
  {
    var n1 := n.(hostOnline := online);
    assert StreamInv(n1);
    BirthKeeps(n1, now);
    ConnectedKeeps(n1, now);
  }

  lemma DeliverKeeps(n: Node, i: nat)
    requires NodeInv(n) && i < |n.link.broker.pending|
    ensures NodeInv(n.(link := n.link.(broker := Deliver(n.link.broker, i))))
  {
    var b := n.link.broker;
    DeathArrives(b, b.pending[i].bdSeq, 0);
    assert WillInv(b, b.pending[i]) || b.late;
    var b' := Deliver(b, i);
    assert forall w | w in b'.pending :: w in b.pending;
  }

  lemma CleanupKeeps(n: Node, now: nat)
    requires NodeInv(n)
    ensures NodeInv(Cleanup(n, now)) && Cleanup(n, now).link.broker.registered == n.link.broker.registered
    ensures Cleanup(n, now).link.broker.host.bdSeq == n.link.broker.host.bdSeq
    ensures Cleanup(n, now).link.broker.session == n.link.broker.session
  {
    DeathArrives(n.link.broker, n.bdSeq, now);
  }

  lemma UnlinkKeeps(n: Node)
    requires NodeInv(n)
    ensures NodeInv(Unlink(n))
    ensures Unlink(n).link.broker.registered == n.link.broker.registered && Unlink(n).link.broker.session.None?
    ensures Unlink(n).link.broker.host == n.link.broker.host
  {
  }

  // ----- Every step keeps the invariant -----

  /** What no publishing operation changes. */
  predicate SameSession(n: Node, n': Node) {
    var b, b' := n.link.broker, n'.link.broker;
    && n'.bdSeq == n.bdSeq
    && n'.link.connected == n.link.connected
    && b'.registered == b.registered
    && b'.orphaned == b.orphaned
    && b'.session.Some? == b.session.Some?
    && (b.session.Some? ==> b'.session.value.bdSeq == b.session.value.bdSeq)
    && (b'.host.bdSeq == b.host.bdSeq || b'.host.bdSeq == Int(n.bdSeq))
    && (!n.link.connected ==> n'.birthSent == n.birthSent && b' == b)
  }

  lemma SendSameSession(n: Node, msg: Message)
    requires msg.kind != NBIRTH
    ensures SameSession(n, n.(link := Send(n.link, msg)))
  {
    HeaderFlagged(n.link.broker.host, msg.kind, msg.seqNo);
    MetricsFlagged(SeeHeader(n.link.broker.host, msg.kind, msg.seqNo), msg.kind, msg.metrics);
  }

  lemma BirthSameSession(n: Node, now: nat)
    requires Valid(n)
    ensures SameSession(n, PublishBirth(n, now))
  {
    NodeBirthArrives(n, now);
    SendSameSession(n.(link := Send(n.link, NodeBirth(n, now))), DeviceBirth(n, now));
  }

  lemma FlushSameSession(n: Node)
    requires Valid(n)
    ensures SameSession(n, FlushHistory(n))
  {
    if n.queue != [] {
      SendSameSession(n, Message(DataKind(n), Some(n.seqNo), ReplayMetrics(n, n.queue)));
    }
  }

  lemma AcceptSameSession(n: Node, ss: seq<Sample>)
    requires Valid(n) && forall s | s in ss :: s.def < |n.values|
    ensures SameSession(n, Accept(n, ss))
  {
    if !Muted(n) {
      SendSameSession(n, Message(DataKind(n), Some(n.seqNo), DataMetrics(ss)));
    }
  }

  lemma ConnectedSameSession(n: Node, now: nat)
    requires Valid(n)
    ensures SameSession(n, OnConnected(n, now))
  {
    BirthSameSession(n, now);
    FlushSameSession(PublishBirth(n, now));
  }

  /** The session-keeping steps leave phase, disk and wills in order. */
  lemma SameSessionKeeps(w: World, n': Node, phase: Phase)
    requires Inv(w) && NodeInv(n') && SameSession(w.node, n')
    requires w.phase != Stopped && (phase == w.phase || (w.phase == Linked && phase == Up))
    ensures Inv(w.(phase := phase, node := n'))
  {
  }

  lemma HostStateSameSession(n: Node, online: bool, now: nat)
    requires Valid(n)
    ensures SameSession(n, OnHostState(n, online, now))
  {
    BirthSameSession(n.(hostOnline := online), now);
    ConnectedSameSession(n.(hostOnline := online), now);
  }

  /** The steps in which the node publishes within its session. */
  predicate Publishes(s: Step) {
    s.EventFires? || s.RuleFires? || s.HostStateArrives? || s.RebirthCommand? || s.ConnectedCallback?
  }

  lemma StepSameSession(w: World, s: Step)
    requires Valid(w.node) && Publishes(s)
    ensures SameSession(w.node, Next(w, s).node)
  {
    var n := w.node;
    match s
    case EventFires(ev, ts) => AcceptSameSession(n, EventSamples(n, ev, ts, |n.values|));
    case RuleFires(items, ts) => AcceptSameSession(n, ItemSamples(n, items, ts));
    case HostStateArrives(online, now) => HostStateSameSession(n, online, now);
    case RebirthCommand(now) => BirthSameSession(n, now);
    case ConnectedCallback(now) => ConnectedSameSession(n, now);
  }

  lemma PublishKeepsNode(w: World, s: Step)
    requires Inv(w) && Publishes(s) && Next(w, s) != w
    ensures NodeInv(Next(w, s).node)
  {
    var n := w.node;
    match s
    case EventFires(ev, ts) => AcceptKeeps(n, EventSamples(n, ev, ts, |n.values|));
    case RuleFires(items, ts) => AcceptKeeps(n, ItemSamples(n, items, ts));
    case HostStateArrives(online, now) => HostStateKeeps(n, online, now);
    case RebirthCommand(now) => BirthKeeps(n, now);
    case ConnectedCallback(now) => ConnectedKeeps(n, now);
  }

  lemma PublishStepKeeps(w: World, s: Step)
    requires Inv(w) && Publishes(s)
    ensures Inv(Next(w, s))
  {
    if Next(w, s) != w {
      PublishKeepsNode(w, s);
      StepSameSession(w, s);
      SameSessionKeeps(w, Next(w, s).node, Next(w, s).phase);
    }
  }

  lemma ConnectKeeps(w: World, o: Outcome)
    requires Inv(w)
    ensures Inv(Next(w, Connect(o)))
  {
  }

  lemma NextKeeps(w: World, s: Step)
    requires Inv(w)
    ensures Inv(Next(w, s))
  {
    match s
    case Start => LocalStepKeeps(w, s);
    case Preconnect => LocalStepKeeps(w, s);
    case CrashInPreconnect(_) => UnlinkStepKeeps(w, s);
    case Connect(o) => ConnectKeeps(w, o);
    case ConnectedCallback(_) => PublishStepKeeps(w, s);
    case EventFires(_, _) => PublishStepKeeps(w, s);
    case RuleFires(_, _) => PublishStepKeeps(w, s);
    case HostStateArrives(_, _) => PublishStepKeeps(w, s);
    case RebirthCommand(_) => PublishStepKeeps(w, s);
    case BrokerLosesClient => LossKeeps(w);
    case Drop => UnlinkStepKeeps(w, s);
    case DisconnectedCallback => LocalStepKeeps(w, s);
    case DeliverWill(i) => DeliverStepKeeps(w, i);
    case Shutdown(now, clean) => ShutdownKeeps(w, now, clean);
    case Crash => UnlinkStepKeeps(w, s);
  }

  lemma LocalStepKeeps(w: World, s: Step)
    requires Inv(w) && (s.Start? || s.Preconnect? || s.DisconnectedCallback?)
    ensures Inv(Next(w, s))
  {
  }

  lemma LossKeeps(w: World)
    requires Inv(w)
    ensures Inv(Next(w, BrokerLosesClient))
  {
  }

  lemma UnlinkStepKeeps(w: World, s: Step)
    requires Inv(w) && (s.CrashInPreconnect? || s.Drop? || s.Crash?)
    ensures Inv(Next(w, s))
  {
    UnlinkKeeps(w.node);
  }

  lemma DeliverStepKeeps(w: World, i: nat)
    requires Inv(w)
    ensures Inv(Next(w, DeliverWill(i)))
  {
    var b := w.node.link.broker;
    if i < |b.pending| {
      DeliverKeeps(w.node, i);
      DeathArrives(b, b.pending[i].bdSeq, 0);
    }
  }

  lemma ShutdownKeeps(w: World, now: nat, clean: bool)
    requires Inv(w)
    ensures Inv(Next(w, Shutdown(now, clean)))
  {
    CleanupKeeps(w.node, now);
    UnlinkKeeps(Cleanup(w.node, now));
  }

  lemma {:induction false} RunKeeps(cfg: Config, steps: seq<Step>)
    requires ValidConfig(cfg)
    ensures Inv(Exec(Init(cfg), steps)) && Exec(Init(cfg), steps).node.cfg == cfg
  {
    if steps != [] {
      RunKeeps(cfg, Front(steps));
      NextKeeps(Exec(Init(cfg), Front(steps)), Last(steps));
    }
  }
}
