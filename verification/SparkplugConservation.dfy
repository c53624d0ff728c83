/** No sample is lost or doubled: what every run of the composed system does with
    the samples it accepts. */
module SparkplugConservation {
  import opened Prelude
  import opened SparkplugHost
  import opened SparkplugNode
  import opened SparkplugRuns

  /** What becomes of a sample when it is accepted: Missed is a live publish that failed. */
  datatype Fate = SentLive | Missed | Buffered

  function FateNow(n: Node): Fate {
    if Muted(n) then Buffered else if CanSend(n.link) then SentLive else Missed
  }

  function Offered(w: World, s: Step): (ss: seq<Sample>)
    requires Valid(w.node)
    ensures forall x | x in ss :: x.def < |w.node.values|
  {
    if w.phase == Stopped then []
    else match s
      case EventFires(ev, ts) => EventSamples(w.node, ev, ts, |w.node.values|)
      case RuleFires(items, ts) => ItemSamples(w.node, items, ts)
      case _ => []
  }

  /** All samples accepted in a run, in order. */
  function AllTaken(cfg: Config, steps: seq<Step>): (ss: seq<Sample>)
    requires ValidConfig(cfg)
    ensures forall x | x in ss :: x.def < |cfg.defs|
  {
    if steps == [] then []
    else AllTaken(cfg, Front(steps)) + Offered(Exec(Init(cfg), Front(steps)), Last(steps))
  }

  /** Those that met the given fate. */
  function TakenAs(cfg: Config, steps: seq<Step>, fate: Fate): (ss: seq<Sample>)
    requires ValidConfig(cfg)
    ensures forall x | x in ss :: x.def < |cfg.defs|
  {
    if steps == [] then []
    else
      var w := Exec(Init(cfg), Front(steps));
      TakenAs(cfg, Front(steps), fate) + if FateNow(w.node) == fate then Offered(w, Last(steps)) else []
  }

  lemma {:induction false} EverySampleHasOneFate(cfg: Config, steps: seq<Step>)
    requires ValidConfig(cfg)
    ensures multiset(AllTaken(cfg, steps)) ==
      multiset(TakenAs(cfg, steps, SentLive)) + multiset(TakenAs(cfg, steps, Missed)) +
        multiset(TakenAs(cfg, steps, Buffered))
  {
    if steps != [] {
      EverySampleHasOneFate(cfg, Front(steps));
    }
  }

  function Only(ms: seq<Metric>, historical: bool): seq<Metric> {
    if ms == [] then []
    else Only(Front(ms), historical) + if Last(ms).historical == historical then [Last(ms)] else []
  }

  /** The metrics of all DATA messages on the wire that are, or are not, historical. */
  function OnWire(sent: seq<Message>, historical: bool): seq<Metric> {
    if sent == [] then []
    else
      OnWire(Front(sent), historical) +
      if Last(sent).kind in {NDATA, DDATA} then Only(Last(sent).metrics, historical) else []
  }

  lemma {:induction false} OnlySame(ms: seq<Metric>, historical: bool)
    requires forall m | m in ms :: m.historical == historical
    ensures Only(ms, historical) == ms && Only(ms, !historical) == []
  {
    if ms != [] {
      OnlySame(Front(ms), historical);
      assert Last(ms) in ms;
    }
  }

  lemma SendOnWire(k: Link, msg: Message, historical: bool)
    ensures OnWire(Send(k, msg).sent, historical) == OnWire(k.sent, historical) +
      if CanSend(k) && msg.kind in {NDATA, DDATA} then Only(msg.metrics, historical) else []
  {
    FrontLast(k.sent, msg);
  }

  lemma BirthOnWire(n: Node, now: nat, historical: bool)
    requires Valid(n)
    ensures OnWire(PublishBirth(n, now).link.sent, historical) == OnWire(n.link.sent, historical)
    ensures PublishBirth(n, now).queue == n.queue
  {
    SendOnWire(n.link, NodeBirth(n, now), historical);
    SendOnWire(Send(n.link, NodeBirth(n, now)), DeviceBirth(n, now), historical);
  }

  /** A replay sends exactly the queue, oldest first and marked historical, or leaves it as it is. */
  lemma FlushOnWire(n: Node)
    requires Valid(n)
    ensures var r := FlushHistory(n);
      && OnWire(r.link.sent, false) == OnWire(n.link.sent, false)
      && (|| (r.queue == [] && OnWire(r.link.sent, true) == OnWire(n.link.sent, true) + ReplayMetrics(n, n.queue))
          || (r.queue == n.queue && OnWire(r.link.sent, true) == OnWire(n.link.sent, true)))
      && (r.queue == [] <==> n.queue == [] || CanSend(n.link))
  {
    var ms := ReplayMetrics(n, n.queue);
    OnlySame(ms, true);
    var msg := Message(DataKind(n), Some(n.seqNo), ms);
    SendOnWire(n.link, msg, true);
    SendOnWire(n.link, msg, false);
  }

  lemma AcceptOnWire(n: Node, ss: seq<Sample>)
    requires Valid(n) && forall s | s in ss :: s.def < |n.values|
    ensures var r := Accept(n, ss);
      && OnWire(r.link.sent, true) == OnWire(n.link.sent, true)
      && OnWire(r.link.sent, false) ==
        OnWire(n.link.sent, false) + (if FateNow(n) == SentLive then DataMetrics(ss) else [])
  {
    var ms := DataMetrics(ss);
    OnlySame(ms, false);
    var msg := Message(DataKind(n), Some(n.seqNo), ms);
    SendOnWire(n.link, msg, true);
    SendOnWire(n.link, msg, false);
  }

  lemma ConnectedOnWire(n: Node, now: nat)
    requires Valid(n)
    ensures var r := OnConnected(n, now);
      && OnWire(r.link.sent, false) == OnWire(n.link.sent, false)
      && (|| (r.queue == [] && OnWire(r.link.sent, true) == OnWire(n.link.sent, true) + ReplayMetrics(n, n.queue))
          || (r.queue == n.queue && OnWire(r.link.sent, true) == OnWire(n.link.sent, true)))
  {
    BirthOnWire(n, now, true);
    BirthOnWire(n, now, false);
    FlushOnWire(PublishBirth(n, now));
    assert ReplayMetrics(PublishBirth(n, now), n.queue) == ReplayMetrics(n, n.queue);
  }

  /** What one step does to the buffer and the wire. */
  ghost predicate Moves(w: World, s: Step, n': Node)
    requires Valid(w.node)
  {
    var n := w.node;
    var live, live' := OnWire(n.link.sent, false), OnWire(n'.link.sent, false);
    var old_, new_ := OnWire(n.link.sent, true), OnWire(n'.link.sent, true);
    && live' == live + (if FateNow(n) == SentLive then DataMetrics(Offered(w, s)) else [])
    && (|| (FateNow(n) == Buffered && n'.queue == EnqueueAll(n.queue, Offered(w, s)) && new_ == old_)
        || (FateNow(n) != Buffered && n'.queue == n.queue && new_ == old_)
        || (Offered(w, s) == [] && n'.queue == [] && new_ == old_ + ReplayMetrics(n, n.queue))
        || (s.Start? && n'.queue == [] && new_ == old_))
  }

  lemma AcceptMoves(w: World, s: Step)
    requires Valid(w.node) && w.phase != Stopped && (s.EventFires? || s.RuleFires?)
    ensures Moves(w, s, Next(w, s).node)
  {
    AcceptOnWire(w.node, Offered(w, s));
  }

  /** A birth moves no sample. */
  lemma BirthMoves(w: World, s: Step)
    requires Valid(w.node) && w.phase != Stopped && s.RebirthCommand?
    ensures Moves(w, s, Next(w, s).node)
  {
    NothingOffered(w.node);
    BirthOnWire(w.node, s.now, true);
    BirthOnWire(w.node, s.now, false);
  }

  lemma ConnectedMoves(w: World, s: Step)
    requires Valid(w.node) && w.phase != Stopped && s.ConnectedCallback?
    ensures Moves(w, s, Next(w, s).node)
  {
    NothingOffered(w.node);
    ConnectedOnWire(w.node, s.now);
  }

  lemma HostStateMoves(w: World, s: Step)
    requires Valid(w.node) && w.phase != Stopped && s.HostStateArrives?
    ensures Moves(w, s, Next(w, s).node)
  {
    NothingOffered(w.node);
    var n := w.node.(hostOnline := s.online);
    if s.online {
      if w.node.hostOnline {
        BirthOnWire(n, s.now, true);
        BirthOnWire(n, s.now, false);
        Unmoved(w, s, PublishBirth(n, s.now));
      } else {
        ConnectedOnWire(n, s.now);
        assert ReplayMetrics(n, n.queue) == ReplayMetrics(w.node, n.queue);
        ReplayedOrNot(w, s, OnConnected(n, s.now));
      }
    } else {
      Unmoved(w, s, n);
    }
  }

  lemma Unmoved(w: World, s: Step, n': Node)
    requires Valid(w.node) && Offered(w, s) == [] && n'.queue == w.node.queue
    requires OnWire(n'.link.sent, true) == OnWire(w.node.link.sent, true)
    requires OnWire(n'.link.sent, false) == OnWire(w.node.link.sent, false)
    ensures Moves(w, s, n')
  {
    NothingOffered(w.node);
  }

  lemma ReplayedOrNot(w: World, s: Step, n': Node)
    requires Valid(w.node) && Offered(w, s) == []
    requires OnWire(n'.link.sent, false) == OnWire(w.node.link.sent, false)
    requires var n := w.node;
      || (n'.queue == [] && OnWire(n'.link.sent, true) == OnWire(n.link.sent, true) + ReplayMetrics(n, n.queue))
      || (n'.queue == n.queue && OnWire(n'.link.sent, true) == OnWire(n.link.sent, true))
    ensures Moves(w, s, n')
  {
    NothingOffered(w.node);
  }

  lemma ShutdownMoves(w: World, s: Step)
    requires Valid(w.node) && w.phase != Stopped && s.Shutdown?
    ensures Moves(w, s, Next(w, s).node)
  {
    NothingOffered(w.node);
    SendOnWire(w.node.link, NodeDeath(w.node.bdSeq, s.now), true);
    SendOnWire(w.node.link, NodeDeath(w.node.bdSeq, s.now), false);
  }

  /** Steps that publish nothing. */
  lemma SilentMoves(w: World, s: Step)
    requires Valid(w.node) && (w.phase == Stopped || !(s.EventFires? || s.RuleFires? || Speaks(s)))
    ensures Moves(w, s, Next(w, s).node)
  {
    NothingOffered(w.node);
  }

  /** The steps in which the node sends without being offered samples. */
  predicate Speaks(s: Step) {
    s.RebirthCommand? || s.ConnectedCallback? || s.HostStateArrives? || s.Shutdown?
  }

  lemma NothingOffered(n: Node)
    ensures DataMetrics([]) == [] && EnqueueAll(n.queue, []) == n.queue
  {
  }

  lemma NextMoves(w: World, s: Step)
    requires Valid(w.node)
    ensures Moves(w, s, Next(w, s).node)
  {
    if w.phase == Stopped {
      SilentMoves(w, s);
    } else if s.EventFires? || s.RuleFires? {
      AcceptMoves(w, s);
    } else if s.RebirthCommand? {
      BirthMoves(w, s);
    } else if s.ConnectedCallback? {
      ConnectedMoves(w, s);
    } else if s.HostStateArrives? {
      HostStateMoves(w, s);
    } else if s.Shutdown? {
      ShutdownMoves(w, s);
    } else {
      SilentMoves(w, s);
    }
  }

  lemma DataMetricsAppend(a: seq<Sample>, b: seq<Sample>)
    ensures DataMetrics(a + b) == DataMetrics(a) + DataMetrics(b)
  {
  }

  lemma LiveStep(w: World, s: Step)
    requires Valid(w.node)
    ensures OnWire(Next(w, s).node.link.sent, false) ==
      OnWire(w.node.link.sent, false) + DataMetrics(if FateNow(w.node) == SentLive then Offered(w, s) else [])
  {
    NextMoves(w, s);
  }

  /** Every sample taken live is on the wire, once and in order. */
  lemma {:induction false} LiveSamplesAreOnWire(cfg: Config, steps: seq<Step>)
    requires ValidConfig(cfg)
    ensures OnWire(Exec(Init(cfg), steps).node.link.sent, false) == DataMetrics(TakenAs(cfg, steps, SentLive))
  {
    if steps != [] {
      var w := Exec(Init(cfg), Front(steps));
      LiveSamplesAreOnWire(cfg, Front(steps));
      LiveStep(w, Last(steps));
      DataMetricsAppend(TakenAs(cfg, Front(steps), SentLive),
        if FateNow(w.node) == SentLive then Offered(w, Last(steps)) else []);
    }
  }

  /** How a sample left the buffer: replayed, dropped by newer ones, or lost with the process. */
  datatype How = Replayed | Dropped | Forgotten
  datatype Exit = Exit(sample: Sample, how: How)

  function Leave(ss: seq<Sample>, how: How): (gone: seq<Exit>) {
    seq(|ss|, i requires 0 <= i < |ss| => Exit(ss[i], how))
  }

  function Samples(gone: seq<Exit>): (ss: seq<Sample>) {
    seq(|gone|, i requires 0 <= i < |gone| => gone[i].sample)
  }

  function Replays(gone: seq<Exit>): seq<Sample> {
    if gone == [] then []
    else Replays(Front(gone)) + if Last(gone).how == Replayed then [Last(gone).sample] else []
  }

  lemma LastLeaves(gone: seq<Exit>, ss: seq<Sample>, how: How)
    requires ss != []
    ensures gone + Leave(ss, how) == gone + Leave(Front(ss), how) + [Exit(Last(ss), how)]
  {
  }

  lemma {:induction false} LeaveReplays(gone: seq<Exit>, ss: seq<Sample>, how: How)
    ensures Replays(gone + Leave(ss, how)) == if how == Replayed then Replays(gone) + ss else Replays(gone)
  {
    if ss == [] {
      assert gone + Leave(ss, how) == gone;
      assert Replays(gone) + [] == Replays(gone);
    } else {
      LeaveReplays(gone, Front(ss), how);
      LastLeaves(gone, ss, how);
      FrontLast(gone + Leave(Front(ss), how), Exit(Last(ss), how));
      assert Replays(gone) + Front(ss) + [Last(ss)] == Replays(gone) + ss;
    }
  }

  function ReplayMetricOf(cfg: Config, s: Sample): Metric {
    Metric(Some(if s.def < |cfg.defs| then cfg.defs[s.def].name else ""), Some(Alias(s.def)), Text(s.reading.text),
      s.reading.ts, true)
  }

  function ReplayList(cfg: Config, q: seq<Sample>): seq<Metric> {
    seq(|q|, k requires 0 <= k < |q| => ReplayMetricOf(cfg, q[k]))
  }

  /** buffered samples leave first in, first out; those replayed are exactly the
      historical metrics on the wire; a dropped one had 256 newer ones behind it. */
  ghost predicate Accounts(cfg: Config, buffered: seq<Sample>, queue: seq<Sample>, wire: seq<Metric>, gone: seq<Exit>) {
    && buffered == Samples(gone) + queue
    && wire == ReplayList(cfg, Replays(gone))
    && (forall p | 0 <= p < |gone| && gone[p].how == Dropped :: p + 256 < |buffered|)
  }

  /** Nothing was lost with a process. */
  predicate Remembers(gone: seq<Exit>) {
    forall p | 0 <= p < |gone| :: gone[p].how != Forgotten
  }

  function Newest(all: seq<Sample>): seq<Sample> {
    if |all| <= 256 then all else all[|all| - 256..]
  }

  lemma NewestMore(all: seq<Sample>, s: Sample)
    ensures Newest(all + [s]) == Enqueue(Newest(all), s)
  {
  }

  /** The ring keeps the newest 256 of what it held and what came. */
  lemma {:induction false} EnqueueAllKeepsNewest(q: seq<Sample>, ss: seq<Sample>)
    requires |q| <= 256
    ensures EnqueueAll(q, ss) == Newest(q + ss)
  {
    if ss == [] {
      assert q + ss == q;
    } else {
      EnqueueAllKeepsNewest(q, Front(ss));
      NewestMore(q + Front(ss), Last(ss));
      assert q + ss == q + Front(ss) + [Last(ss)];
    }
  }

  lemma ReplayListAppend(cfg: Config, a: seq<Sample>, b: seq<Sample>)
    ensures ReplayList(cfg, a + b) == ReplayList(cfg, a) + ReplayList(cfg, b)
  {
  }

  lemma ReplayAccounts(cfg: Config, buffered: seq<Sample>, queue: seq<Sample>, wire: seq<Metric>, gone: seq<Exit>)
    requires Accounts(cfg, buffered, queue, wire, gone)
    ensures Accounts(cfg, buffered, [], wire + ReplayList(cfg, queue), gone + Leave(queue, Replayed))
    ensures Remembers(gone) ==> Remembers(gone + Leave(queue, Replayed))
  {
    LeaveReplays(gone, queue, Replayed);
    ReplayListAppend(cfg, Replays(gone), queue);
    assert Samples(gone + Leave(queue, Replayed)) + [] == Samples(gone) + queue;
  }

  lemma ForgetAccounts(cfg: Config, buffered: seq<Sample>, queue: seq<Sample>, wire: seq<Metric>, gone: seq<Exit>)
    requires Accounts(cfg, buffered, queue, wire, gone)
    ensures Accounts(cfg, buffered, [], wire, gone + Leave(queue, Forgotten))
    ensures Remembers(gone) && queue == [] ==> Remembers(gone + Leave(queue, Forgotten))
  {
    LeaveReplays(gone, queue, Forgotten);
    assert Samples(gone + Leave(queue, Forgotten)) + [] == Samples(gone) + queue;
  }

  /** The first k of all leave dropped, with 256 of them left behind. */
  lemma DropAccounts(cfg: Config, buffered: seq<Sample>, all: seq<Sample>, wire: seq<Metric>, gone: seq<Exit>, k: nat)
    requires Accounts(cfg, buffered, all, wire, gone) && k <= |all| && (k > 0 ==> k + 256 <= |all|)
    ensures Accounts(cfg, buffered, all[k..], wire, gone + Leave(all[..k], Dropped))
    ensures Remembers(gone) ==> Remembers(gone + Leave(all[..k], Dropped))
  {
    LeaveReplays(gone, all[..k], Dropped);
    assert all == all[..k] + all[k..];
    assert Samples(gone + Leave(all[..k], Dropped)) == Samples(gone) + all[..k];
    Associates(Samples(gone), all[..k], all[k..]);
  }

  lemma EnqueueAccounts(cfg: Config, buffered: seq<Sample>, queue: seq<Sample>, ss: seq<Sample>, wire: seq<Metric>,
    gone: seq<Exit>)
    returns (gone': seq<Exit>)
    requires Accounts(cfg, buffered, queue, wire, gone) && |queue| <= 256
    ensures Accounts(cfg, buffered + ss, EnqueueAll(queue, ss), wire, gone')
    ensures Remembers(gone) ==> Remembers(gone')
  {
    EnqueueAllKeepsNewest(queue, ss);
    var all := queue + ss;
    var k := if |all| <= 256 then 0 else |all| - 256;
    assert EnqueueAll(queue, ss) == all[k..];
    Associates(Samples(gone), queue, ss);
    DropAccounts(cfg, buffered + ss, all, wire, gone, k);
    gone' := gone + Leave(all[..k], Dropped);
  }

  lemma ReplayMetricsAre(n: Node)
    requires Valid(n)
    ensures ReplayMetrics(n, n.queue) == ReplayList(n.cfg, n.queue)
  {
  }

  lemma StepAccounts(w: World, s: Step, buffered: seq<Sample>, gone: seq<Exit>) returns (gone': seq<Exit>)
    requires Valid(w.node)
    requires Accounts(w.node.cfg, buffered, w.node.queue, OnWire(w.node.link.sent, true), gone)
    ensures var n' := Next(w, s).node;
      Accounts(w.node.cfg, buffered + (if FateNow(w.node) == Buffered then Offered(w, s) else []),
               n'.queue, OnWire(n'.link.sent, true), gone')
    ensures Remembers(gone) && (s.Start? ==> w.node.queue == []) ==> Remembers(gone')
  {
    NextMoves(w, s);
    var n, n' := w.node, Next(w, s).node;
    var ss := Offered(w, s);
    var wire, wire' := OnWire(n.link.sent, true), OnWire(n'.link.sent, true);
    assert buffered + [] == buffered;
    if FateNow(n) == Buffered && n'.queue == EnqueueAll(n.queue, ss) && wire' == wire {
      gone' := EnqueueAccounts(n.cfg, buffered, n.queue, ss, wire, gone);
    } else if FateNow(n) != Buffered && n'.queue == n.queue && wire' == wire {
      gone' := gone;
    } else if ss == [] && n'.queue == [] && wire' == wire + ReplayMetrics(n, n.queue) {
      ReplayMetricsAre(n);
      ReplayAccounts(n.cfg, buffered, n.queue, wire, gone);
      gone' := gone + Leave(n.queue, Replayed);
    } else {
      assert s.Start? && ss == [];
      ForgetAccounts(n.cfg, buffered, n.queue, wire, gone);
      gone' := gone + Leave(n.queue, Forgotten);
    }
  }

  /** Every buffered sample is still queued or left it in order, and every
      replayed one is on the wire once. */
  lemma {:induction false} BufferedSamplesAccounted(cfg: Config, steps: seq<Step>) returns (gone: seq<Exit>)
    requires ValidConfig(cfg)
    ensures var n := Exec(Init(cfg), steps).node;
      Accounts(cfg, TakenAs(cfg, steps, Buffered), n.queue, OnWire(n.link.sent, true), gone)
    ensures (forall i | 1 <= i < |steps| :: !steps[i].Start?) ==> Remembers(gone)
  {
    if steps == [] {
      gone := [];
      assert Samples([]) + [] == [];
    } else {
      var before := BufferedSamplesAccounted(cfg, Front(steps));
      gone := StepAccounts(Exec(Init(cfg), Front(steps)), Last(steps), TakenAs(cfg, Front(steps), Buffered), before);
    }
  }

  // ----- The whole account -----

  /** The sample a metric carries. */
  function SampleOf(m: Metric): Sample {
    Sample(
      if m.alias.Some? && m.alias.value > 0 then m.alias.value - 1 else 0,
      Reading(if m.value.Text? then m.value.text else "", m.ts))
  }

  function SamplesOf(ms: seq<Metric>): (ss: seq<Sample>)
    ensures |ss| == |ms| && forall i | 0 <= i < |ms| :: ss[i] == SampleOf(ms[i])
  {
    seq(|ms|, i requires 0 <= i < |ms| => SampleOf(ms[i]))
  }

  lemma DataMetricsBack(ss: seq<Sample>)
    ensures SamplesOf(DataMetrics(ss)) == ss
  {
  }

  /** A live publish fails: samples come while the node is not muted, yet nothing
      is added to what was sent. */
  predicate PublishFails(w: World, s: Step)
    requires Valid(w.node)
  {
    Offered(w, s) != [] && !Muted(w.node) && Next(w, s).node.link.sent == w.node.link.sent
  }

  /** The samples of failed live publishes. */
  function Failed(cfg: Config, steps: seq<Step>): seq<Sample>
    requires ValidConfig(cfg)
  {
    if steps == [] then []
    else
      var w := Exec(Init(cfg), Front(steps));
      Failed(cfg, Front(steps)) + if PublishFails(w, Last(steps)) then Offered(w, Last(steps)) else []
  }

  /** The publish fails exactly when the link cannot send. */
  lemma FailsExactlyWhenMissed(w: World, s: Step)
    requires Valid(w.node)
    ensures PublishFails(w, s) <==> Offered(w, s) != [] && FateNow(w.node) == Missed
  {
    if Offered(w, s) != [] && !Muted(w.node) {
      var n, ss := w.node, Offered(w, s);
      var msg := Message(DataKind(n), Some(n.seqNo), DataMetrics(ss));
      assert Next(w, s).node.link == Send(n.link, msg);
      assert |n.link.sent + [msg]| > |n.link.sent|;
    }
  }

  lemma {:induction false} FailedAreMissed(cfg: Config, steps: seq<Step>)
    requires ValidConfig(cfg)
    ensures Failed(cfg, steps) == TakenAs(cfg, steps, Missed)
  {
    if steps != [] {
      FailedAreMissed(cfg, Front(steps));
      FailsExactlyWhenMissed(Exec(Init(cfg), Front(steps)), Last(steps));
    }
  }

  predicate NoPublishFails(cfg: Config, steps: seq<Step>)
    requires ValidConfig(cfg)
  {
    forall i | 0 <= i < |steps| :: !PublishFails(Exec(Init(cfg), steps[..i]), steps[i])
  }

  lemma {:induction false} NothingFailed(cfg: Config, steps: seq<Step>)
    requires ValidConfig(cfg) && NoPublishFails(cfg, steps)
    ensures Failed(cfg, steps) == []
  {
    if steps != [] {
      var front := Front(steps);
      forall i | 0 <= i < |front| ensures !PublishFails(Exec(Init(cfg), front[..i]), front[i]) {
        assert front[..i] == steps[..i] && front[i] == steps[i];
      }
      NothingFailed(cfg, front);
      assert steps[..|front|] == front && !PublishFails(Exec(Init(cfg), steps[..|front|]), steps[|front|]);
    }
  }

  lemma LiveSamplesBack(cfg: Config, steps: seq<Step>)
    requires ValidConfig(cfg)
    ensures SamplesOf(OnWire(Exec(Init(cfg), steps).node.link.sent, false)) == TakenAs(cfg, steps, SentLive)
  {
    LiveSamplesAreOnWire(cfg, steps);
    DataMetricsBack(TakenAs(cfg, steps, SentLive));
  }

  lemma Total(all: seq<Sample>, live: seq<Sample>, failed: seq<Sample>, buffered: seq<Sample>, left: seq<Sample>,
    queue: seq<Sample>)
    requires multiset(all) == multiset(live) + multiset(failed) + multiset(buffered) && buffered == left + queue
    ensures multiset(all) == multiset(live) + multiset(failed) + multiset(left) + multiset(queue)
  {
  }

  /** Over every run, the samples accepted are, each counted once, those of the live
      metrics on the wire, those of live publishes that failed, those that left the
      buffer, and those still in it. The ones that left it replayed are exactly the
      historical metrics on the wire, in order; a dropped one was pushed out by newer
      ones; none was forgotten unless the process restarted, and when no live
      publish failed there is no other place a sample can be. */
  lemma SamplesConserved(cfg: Config, steps: seq<Step>) returns (gone: seq<Exit>)
    requires ValidConfig(cfg)
    ensures var n := Exec(Init(cfg), steps).node;
      && multiset(AllTaken(cfg, steps)) ==
         multiset(SamplesOf(OnWire(n.link.sent, false))) + multiset(Failed(cfg, steps)) +
         multiset(Samples(gone)) + multiset(n.queue)
      && OnWire(n.link.sent, true) == ReplayList(cfg, Replays(gone))
      && (forall p | 0 <= p < |gone| && gone[p].how == Dropped :: p + 256 < |gone| + |n.queue|)
    ensures (forall i | 1 <= i < |steps| :: !steps[i].Start?) ==> Remembers(gone)
    ensures NoPublishFails(cfg, steps) ==> Failed(cfg, steps) == []
  {
    gone := BufferedSamplesAccounted(cfg, steps);
    EverySampleHasOneFate(cfg, steps);
    LiveSamplesBack(cfg, steps);
    FailedAreMissed(cfg, steps);
    if NoPublishFails(cfg, steps) {
      NothingFailed(cfg, steps);
    }
    var n := Exec(Init(cfg), steps).node;
    Total(AllTaken(cfg, steps), SamplesOf(OnWire(n.link.sent, false)), Failed(cfg, steps),
          TakenAs(cfg, steps, Buffered), Samples(gone), n.queue);
  }
}
