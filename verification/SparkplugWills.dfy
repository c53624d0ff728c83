/** The log of everything sent, and the will of the session it was sent in. */
module SparkplugWills {
  import opened Prelude
  import opened SparkplugHost
  import opened SparkplugNode
  import opened SparkplugRuns

  /** A birth or a death of the node names this bdSeq. */
  predicate Names(msg: Message, bdSeq: nat) {
    msg.kind in {NBIRTH, NDEATH} ==>
      msg.metrics != [] && msg.metrics[0].name == Some(BD_SEQ) && msg.metrics[0].value == Int(bdSeq)
  }

  /** The log only grows, in an open connection, by messages that name the node's bdSeq. */
  predicate Adds(n: Node, n': Node) {
    var before, after := n.link.sent, n'.link.sent;
    && |before| <= |after| && after[..|before|] == before
    && (|before| < |after| ==> n.link.connected)
    && forall i | |before| <= i < |after| :: Names(after[i], n.bdSeq)
  }

  predicate SameBdSeq(n: Node, n': Node) {
    n'.bdSeq == n.bdSeq && n'.link.connected == n.link.connected
  }

  lemma SendAdds(n: Node, msg: Message)
    requires Names(msg, n.bdSeq)
    ensures Adds(n, n.(link := Send(n.link, msg))) && SameBdSeq(n, n.(link := Send(n.link, msg)))
  {
  }

  lemma AddsMore(a: Node, b: Node, c: Node)
    requires Adds(a, b) && Adds(b, c) && SameBdSeq(a, b)
    ensures Adds(a, c)
  {
    var x, y, z := a.link.sent, b.link.sent, c.link.sent;
    assert z[..|x|] == z[..|y|][..|x|];
    forall i | |x| <= i < |z| ensures Names(z[i], a.bdSeq) {
      if i < |y| {
        assert z[i] == z[..|y|][i];
      }
    }
  }

  lemma BirthAdds(n: Node, now: nat)
    requires Valid(n)
    ensures Adds(n, PublishBirth(n, now)) && SameBdSeq(n, PublishBirth(n, now))
  {
    var n1 := n.(link := Send(n.link, NodeBirth(n, now)));
    SendAdds(n, NodeBirth(n, now));
    SendAdds(n1, DeviceBirth(n, now));
    AddsMore(n, n1, n1.(link := Send(n1.link, DeviceBirth(n, now))));
  }

  lemma FlushAdds(n: Node)
    requires Valid(n)
    ensures Adds(n, FlushHistory(n)) && SameBdSeq(n, FlushHistory(n))
  {
    if n.queue != [] {
      SendAdds(n, Message(DataKind(n), Some(n.seqNo), ReplayMetrics(n, n.queue)));
    }
  }

  lemma AcceptAdds(n: Node, ss: seq<Sample>)
    requires Valid(n) && forall s | s in ss :: s.def < |n.values|
    ensures Adds(n, Accept(n, ss)) && SameBdSeq(n, Accept(n, ss))
  {
    SendAdds(n, Message(DataKind(n), Some(n.seqNo), DataMetrics(ss)));
  }

  lemma ConnectedAdds(n: Node, now: nat)
    requires Valid(n)
    ensures Adds(n, OnConnected(n, now)) && SameBdSeq(n, OnConnected(n, now))
  {
    BirthAdds(n, now);
    FlushAdds(PublishBirth(n, now));
    AddsMore(n, PublishBirth(n, now), OnConnected(n, now));
  }

  lemma HostStateAdds(n: Node, online: bool, now: nat)
    requires Valid(n)
    ensures Adds(n, OnHostState(n, online, now)) && SameBdSeq(n, OnHostState(n, online, now))
  {
    ConnectedAdds(n.(hostOnline := online), now);
    BirthAdds(n.(hostOnline := online), now);
  }

  lemma ShutdownAdds(n: Node, now: nat, clean: bool)
    ensures Adds(n, ShutDown(n, now, clean))
  {
    SendAdds(n, NodeDeath(n.bdSeq, now));
  }

  lemma NextAdds(w: World, s: Step)
    requires Valid(w.node)
    ensures Adds(w.node, Next(w, s).node)
  {
    var n := w.node;
    if w.phase != Stopped {
      match s
      case EventFires(ev, ts) => AcceptAdds(n, EventSamples(n, ev, ts, |n.values|));
      case RuleFires(items, ts) => AcceptAdds(n, ItemSamples(n, items, ts));
      case ConnectedCallback(now) => ConnectedAdds(n, now);
      case HostStateArrives(online, now) => HostStateAdds(n, online, now);
      case RebirthCommand(now) => BirthAdds(n, now);
      case Shutdown(now, clean) => ShutdownAdds(n, now, clean);
      case _ =>
    }
  }

  // ----- The will in force -----

  /** The bdSeq of the will registered last. */
  function WillNow(w: World): Option<nat> {
    var r := w.node.link.broker.registered;
    if r == [] then None else Some(Last(r))
  }

  /** A connected node speaks in the session it registered its will for. */
  predicate Held(w: World) {
    w.node.link.connected ==> WillNow(w) == Some(w.node.bdSeq)
  }

  lemma SameSessionHeld(w: World, n': Node, phase: Phase)
    requires Held(w) && SameSession(w.node, n')
    ensures Held(w.(phase := phase, node := n'))
  {
  }

  lemma PublishHeld(w: World, s: Step)
    requires Valid(w.node) && Held(w) && w.phase != Stopped
    requires s.EventFires? || s.RuleFires? || s.RebirthCommand?
    ensures Held(Next(w, s))
  {
    var n := w.node;
    match s
    case EventFires(ev, ts) =>
      AcceptSameSession(n, EventSamples(n, ev, ts, |n.values|));
      SameSessionHeld(w, Next(w, s).node, w.phase);
    case RuleFires(items, ts) =>
      AcceptSameSession(n, ItemSamples(n, items, ts));
      SameSessionHeld(w, Next(w, s).node, w.phase);
    case RebirthCommand(now) =>
      BirthSameSession(n, now);
      SameSessionHeld(w, Next(w, s).node, w.phase);
  }

  lemma HostStateHeld(w: World, online: bool, now: nat)
    requires Valid(w.node) && Held(w)
    ensures Held(w.(node := OnHostState(w.node, online, now)))
  {
    var n := w.node.(hostOnline := online);
    BirthSameSession(n, now);
    ConnectedSameSession(n, now);
  }

  lemma NextHeld(w: World, s: Step)
    requires Inv(w) && Held(w)
    ensures Held(Next(w, s))
  {
    if w.phase != Stopped {
      match s
      case EventFires(ev, ts) => PublishHeld(w, s);
      case RuleFires(items, ts) => PublishHeld(w, s);
      case RebirthCommand(now) => PublishHeld(w, s);
      case ConnectedCallback(now) => ConnectedSameSession(w.node, now);
      case HostStateArrives(online, now) => HostStateHeld(w, online, now);
      case _ =>
    }
  }

  /** For each message of the log, the will in force when it was sent. */
  function WillsAtSend(cfg: Config, steps: seq<Step>): seq<Option<nat>>
    requires ValidConfig(cfg)
  {
    if steps == [] then []
    else
      var w := Exec(Init(cfg), Front(steps));
      var n, n' := |w.node.link.sent|, |Next(w, Last(steps)).node.link.sent|;
      WillsAtSend(cfg, Front(steps)) + if n' <= n then [] else seq(n' - n, _ => WillNow(w))
  }

  /** Over every run, each NBIRTH and each NDEATH the node sends, whether or not it
      arrives, names the bdSeq of the will registered for its session. */
  lemma {:induction false} BirthsNameTheirWill(cfg: Config, steps: seq<Step>)
    requires ValidConfig(cfg)
    ensures Held(Exec(Init(cfg), steps))
    ensures var sent, wills := Exec(Init(cfg), steps).node.link.sent, WillsAtSend(cfg, steps);
      |wills| == |sent| && forall i | 0 <= i < |sent| && sent[i].kind in {NBIRTH, NDEATH} ::
        wills[i].Some? && Names(sent[i], wills[i].value)
  {
    if steps != [] {
      var w, s := Exec(Init(cfg), Front(steps)), Last(steps);
      BirthsNameTheirWill(cfg, Front(steps));
      RunKeeps(cfg, Front(steps));
      NextAdds(w, s);
      NextHeld(w, s);
      var before, after := w.node.link.sent, Next(w, s).node.link.sent;
      assert forall i | 0 <= i < |before| :: after[i] == after[..|before|][i];
    }
  }
}
