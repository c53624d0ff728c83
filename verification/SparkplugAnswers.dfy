/** How the node answers its host: when it counts the host as there, when it tells
    it everything anew, and what kinds of messages it sends at all. */
module SparkplugAnswers {
  import opened Prelude
  import opened SparkplugHost
  import opened SparkplugNode
  import opened SparkplugRuns

  // ----- Whether the host is there -----

  /** A process and a session start out trusting that the host is there; from then
      on its last STATE says. */
  function HostSaid(cfg: Config, steps: seq<Step>): bool
    requires ValidConfig(cfg)
  {
    if steps == [] then true
    else
      var before, phase := HostSaid(cfg, Front(steps)), Exec(Init(cfg), Front(steps)).phase;
      match Last(steps)
      case Start => phase == Stopped || before
      case Preconnect => phase == Idle || before
      case HostStateArrives(online, _) => if phase == Stopped then before else online
      case _ => before
  }

  lemma HostStep(w: World, s: Step)
    requires Valid(w.node)
    ensures Next(w, s).node.hostOnline ==
      match s
      case Start => w.phase == Stopped || w.node.hostOnline
      case Preconnect => w.phase == Idle || w.node.hostOnline
      case HostStateArrives(online, _) => if w.phase == Stopped then w.node.hostOnline else online
      case _ => w.node.hostOnline
  {
  }

  /** The node counts the host as there exactly as told. */
  lemma {:induction false} HostIsKnown(cfg: Config, steps: seq<Step>)
    requires ValidConfig(cfg)
    ensures Exec(Init(cfg), steps).node.hostOnline == HostSaid(cfg, steps)
  {
    if steps != [] {
      HostIsKnown(cfg, Front(steps));
      HostStep(Exec(Init(cfg), Front(steps)), Last(steps));
    }
  }

  // ----- Births on demand -----

  /** A session is up, the host asks for a rebirth, or says that it is there. */
  predicate AsksForBirth(w: World, s: Step) {
    match s
    case ConnectedCallback(_) => w.phase == Linked
    case RebirthCommand(_) => w.phase != Stopped
    case HostStateArrives(online, _) => w.phase != Stopped && online
    case _ => false
  }

  function Clock(s: Step): nat
    requires s.ConnectedCallback? || s.RebirthCommand? || s.HostStateArrives?
  {
    s.now
  }

  /** The node's birth, and its device's if it has one. */
  function Births(n: Node, now: nat): seq<Message>
    requires Valid(n)
  {
    [NodeBirth(n, now)] + if n.cfg.hasDevice then [DeviceBirth(n, now)] else []
  }

  lemma BirthGoesOut(n: Node, now: nat)
    requires Valid(n) && n.link.connected && n.link.sends >= |Births(n, now)|
    ensures var r := PublishBirth(n, now);
      && r.link.sent == n.link.sent + Births(n, now) && r.birthSent
      && r.queue == n.queue && r.values == n.values && r.hostOnline == n.hostOnline
  {
    if n.cfg.hasDevice {
      assert n.link.sent + [NodeBirth(n, now)] + [DeviceBirth(n, now)] == n.link.sent + Births(n, now);
    }
  }

  /** Asked for a birth over a link that carries it, the node sends its birth
      certificates before anything else, and then only what it held back. */
  lemma BirthOnDemand(w: World, s: Step)
    requires Valid(w.node) && AsksForBirth(w, s)
    requires w.node.link.connected && w.node.link.sends >= |Births(w.node, Clock(s))|
    ensures var n, n' := w.node, Next(w, s).node;
      && n'.birthSent
      && (n'.link.sent == n.link.sent + Births(n, Clock(s)) ||
          (|n'.link.sent| > 0 && Front(n'.link.sent) == n.link.sent + Births(n, Clock(s)) &&
           n.queue != [] && |Last(n'.link.sent).metrics| == |n.queue|))
  {
    var n := if s.HostStateArrives? then w.node.(hostOnline := s.online) else w.node;
    assert BirthMetrics(n, Clock(s)) == BirthMetrics(w.node, Clock(s));
    BirthGoesOut(n, Clock(s));
  }

  /** Any other step leaves no birth in the log that was not there. */
  lemma NoBirthUnasked(w: World, s: Step)
    requires Valid(w.node) && !AsksForBirth(w, s)
    ensures var before, after := w.node.link.sent, Next(w, s).node.link.sent;
      after == before || (|after| == |before| + 1 && Front(after) == before && Last(after).kind !in {NBIRTH, DBIRTH})
  {
  }

  // ----- Kinds of messages -----

  /** A node with a device speaks for it in DBIRTH and DDATA, one without in NDATA. */
  predicate KindsMatch(cfg: Config, sent: seq<Message>) {
    forall i | 0 <= i < |sent| ::
      sent[i].kind in if cfg.hasDevice then {NBIRTH, DBIRTH, DDATA, NDEATH} else {NBIRTH, NDATA, NDEATH}
  }

  lemma SendMatches(cfg: Config, k: Link, msg: Message)
    requires KindsMatch(cfg, k.sent) && KindsMatch(cfg, [msg])
    ensures KindsMatch(cfg, Send(k, msg).sent)
  {
    assert [msg][0].kind == msg.kind;
  }

  lemma BirthMatches(n: Node, now: nat)
    requires Valid(n) && KindsMatch(n.cfg, n.link.sent)
    ensures KindsMatch(n.cfg, PublishBirth(n, now).link.sent)
  {
    SendMatches(n.cfg, n.link, NodeBirth(n, now));
    if n.cfg.hasDevice {
      SendMatches(n.cfg, Send(n.link, NodeBirth(n, now)), DeviceBirth(n, now));
    }
  }

  lemma ConnectedMatches(n: Node, now: nat)
    requires Valid(n) && KindsMatch(n.cfg, n.link.sent)
    ensures KindsMatch(n.cfg, OnConnected(n, now).link.sent)
  {
    BirthMatches(n, now);
    var n1 := PublishBirth(n, now);
    SendMatches(n.cfg, n1.link, Message(DataKind(n1), Some(n1.seqNo), ReplayMetrics(n1, n1.queue)));
  }

  lemma AcceptMatches(n: Node, ss: seq<Sample>)
    requires Valid(n) && (forall s | s in ss :: s.def < |n.values|) && KindsMatch(n.cfg, n.link.sent)
    ensures KindsMatch(n.cfg, Accept(n, ss).link.sent)
  {
    SendMatches(n.cfg, n.link, Message(DataKind(n), Some(n.seqNo), DataMetrics(ss)));
  }

  lemma NextMatches(w: World, s: Step)
    requires Valid(w.node) && KindsMatch(w.node.cfg, w.node.link.sent)
    ensures KindsMatch(w.node.cfg, Next(w, s).node.link.sent)
  {
    var n := w.node;
    match s
    case ConnectedCallback(now) => ConnectedMatches(n, now);
    case EventFires(ev, ts) => AcceptMatches(n, EventSamples(n, ev, ts, |n.values|));
    case RuleFires(items, ts) => AcceptMatches(n, ItemSamples(n, items, ts));
    case HostStateArrives(online, now) =>
      BirthMatches(n.(hostOnline := online), now);
      ConnectedMatches(n.(hostOnline := online), now);
    case RebirthCommand(now) => BirthMatches(n, now);
    case Shutdown(now, _) => SendMatches(n.cfg, n.link, NodeDeath(n.bdSeq, now));
    case _ =>
  }

  /** Over every run, the kinds of what is sent match the node. */
  lemma {:induction false} SentKinds(cfg: Config, steps: seq<Step>)
    requires ValidConfig(cfg)
    ensures KindsMatch(cfg, Exec(Init(cfg), steps).node.link.sent)
  {
    if steps != [] {
      SentKinds(cfg, Front(steps));
      NextMatches(Exec(Init(cfg), Front(steps)), Last(steps));
    }
  }
}
