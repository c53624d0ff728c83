/** What every run of the composed system guarantees. */
module SparkplugGuarantees {
  import opened Prelude
  import opened SparkplugHost
  import opened SparkplugNode
  import opened SparkplugRuns

  // ----- The validating host stays quiet -----

  /** The step delivers the will of a session whose NBIRTH never reached the
      host, to a host that has seen an earlier session born. */
  predicate Orphans(w: World, s: Step) {
    var b := w.node.link.broker;
    && s.DeliverWill? && s.i < |b.pending|
    && !b.pending[s.i].birthed && b.host.bdSeq != Null
  }

  predicate OrphanFree(cfg: Config, steps: seq<Step>)
    requires ValidConfig(cfg)
  {
    forall i: nat | i < |steps| :: !OrphansAt(cfg, steps, i)
  }

  predicate OrphansAt(cfg: Config, steps: seq<Step>, i: nat)
    requires ValidConfig(cfg) && i < |steps|
  {
    Orphans(Exec(Init(cfg), steps[..i]), steps[i])
  }

  lemma OrphanStep(w: World, s: Step)
    requires Valid(w.node)
    ensures Next(w, s).node.link.broker.orphaned == (w.node.link.broker.orphaned || Orphans(w, s))
  {
    if Publishes(s) {
      StepSameSession(w, s);
    } else if s.Shutdown? {
      SendSameSession(w.node, NodeDeath(w.node.bdSeq, s.now));
    } else if !s.DeliverWill? {
      OthersDeliverNothing(w, s);
    }
  }

  lemma OthersDeliverNothing(w: World, s: Step)
    requires Valid(w.node) && !Publishes(s) && !s.Shutdown? && !s.DeliverWill?
    ensures Next(w, s).node.link.broker.orphaned == w.node.link.broker.orphaned
  {
  }

  lemma {:induction false} OrphanHistory(cfg: Config, steps: seq<Step>)
    requires ValidConfig(cfg)
    ensures Exec(Init(cfg), steps).node.link.broker.orphaned <==> !OrphanFree(cfg, steps)
  {
    if steps != [] {
      OrphanHistory(cfg, Front(steps));
      OrphanStep(Exec(Init(cfg), Front(steps)), Last(steps));
      OrphanFreeSplits(cfg, steps);
    }
  }

  lemma OrphanFreeSplits(cfg: Config, steps: seq<Step>)
    requires ValidConfig(cfg) && steps != []
    ensures OrphanFree(cfg, steps) <==>
      OrphanFree(cfg, Front(steps)) && !Orphans(Exec(Init(cfg), Front(steps)), Last(steps))
  {
    var front := Front(steps);
    forall i: nat | i < |front| ensures OrphansAt(cfg, steps, i) == OrphansAt(cfg, front, i) {
      assert front[..i] == steps[..i];
    }
    assert OrphansAt(cfg, steps, |front|) == Orphans(Exec(Init(cfg), front), Last(steps)) by {
      assert steps[..|front|] == front;
    }
  }

  /** With wills delivered before the next NBIRTH, the host's problems list is
      empty exactly when no will of an unborn session was delivered to it. */
  lemma HostQuietExactlyWithoutOrphans(cfg: Config, steps: seq<Step>)
    requires ValidConfig(cfg)
    requires !Exec(Init(cfg), steps).node.link.broker.late
    ensures Exec(Init(cfg), steps).node.link.broker.host.problems == [] <==> OrphanFree(cfg, steps)
  {
    RunKeeps(cfg, steps);
    OrphanHistory(cfg, steps);
  }

  const BareConfig := Config(false, [])

  /** A session from PRECONNECT to the delivery of its will, with its publish budgets. */
  function Lifetime(sends: nat, arrives: nat): seq<Step> {
    [Preconnect, Connect(Accepted(sends, arrives)), ConnectedCallback(0), Drop, DeliverWill(0), DisconnectedCallback]
  }

  lemma ExecOne(w: World, steps: seq<Step>, s: Step)
    requires Valid(w.node)
    ensures Exec(w, steps + [s]) == Next(Exec(w, steps), s)
  {
    FrontLast(steps, s);
  }

  /** Between sessions, with nothing pending and the host's last birth known. */
  predicate Quiet(w: World, bdSeq: nat, birth: Value) {
    var b := w.node.link.broker;
    && Valid(w.node) && w.node.cfg == BareConfig && w.phase == Idle && !w.node.link.connected
    && w.node.bdSeq == bdSeq && !w.node.birthSent
    && b.pending == [] && b.session == None && !b.late && b.host.bdSeq == birth
  }

  lemma Opened(w: World, bdSeq: nat, birth: Value, sends: nat, arrives: nat) returns (w': World)
    requires Quiet(w, bdSeq, birth)
    ensures w' == Next(Next(w, Preconnect), Connect(Accepted(sends, arrives)))
    ensures w'.phase == Linked && w'.node.bdSeq == bdSeq + 1 && Valid(w'.node) && !w'.node.birthSent
    ensures w'.node.cfg == BareConfig && w'.node.queue == w.node.queue
    ensures w'.node.link == w.node.link.(connected := true, sends := sends, arrives := arrives, lost := false,
              broker := w.node.link.broker.(session := Some(Will(bdSeq + 1, false)),
                registered := w.node.link.broker.registered + [bdSeq + 1]))
  {
    w' := Next(Next(w, Preconnect), Connect(Accepted(sends, arrives)));
  }

  /** One publish that arrives, or none at all. */
  lemma CalledBack(w: World) returns (w': World)
    requires Valid(w.node) && w.phase == Linked && w.node.cfg == BareConfig && w.node.queue == [] && !w.node.birthSent
    requires var k := w.node.link; k.connected && k.sends == k.arrives && k.sends <= 1
    requires var b := w.node.link.broker; b.session == Some(Will(w.node.bdSeq, false)) && b.pending == [] && !b.late
    ensures w' == Next(w, ConnectedCallback(0)) && w'.phase == Up && Valid(w'.node) && w'.node.bdSeq == w.node.bdSeq
    ensures w'.node.cfg == BareConfig && w'.node.queue == []
    ensures var b, b' := w.node.link.broker, w'.node.link.broker;
      && b'.session == Some(Will(w.node.bdSeq, w.node.link.sends == 1)) && b'.pending == [] && !b'.late
      && b'.host.bdSeq == (if w.node.link.sends == 1 then Int(w.node.bdSeq) else b.host.bdSeq)
      && b'.host.problems == b.host.problems
  {
    NodeBirthArrives(w.node, 0);
    w' := Next(w, ConnectedCallback(0));
  }

  lemma DroppedFrom(w: World, birthed: bool) returns (w': World)
    requires Valid(w.node) && w.phase == Up
    requires var b := w.node.link.broker; b.session == Some(Will(w.node.bdSeq, birthed)) && b.pending == []
    ensures w' == Next(w, Drop) && w'.phase == Down && !w'.node.link.connected && Valid(w'.node)
    ensures w'.node == w.node.(link := w'.node.link)
    ensures w'.node.link.broker == w.node.link.broker.(session := None, pending := [Will(w.node.bdSeq, birthed)])
  {
    w' := Next(w, Drop);
  }

  lemma Delivered(w: World, will: Will) returns (w': World)
    requires Valid(w.node) && w.node.link.broker.pending == [will]
    ensures w' == Next(w, DeliverWill(0)) && w'.phase == w.phase && Valid(w'.node)
    ensures w'.node == w.node.(link := w.node.link.(broker := w'.node.link.broker))
    ensures var b, b' := w.node.link.broker, w'.node.link.broker;
      && b'.pending == [] && b'.session == b.session && b'.late == b.late && b'.host.bdSeq == b.host.bdSeq
      && b.host.problems <= b'.host.problems
      && (b.host.bdSeq != Null && b.host.bdSeq != Int(will.bdSeq) ==> b'.host.problems != b.host.problems)
  {
    DeathArrives(w.node.link.broker, will.bdSeq, 0);
    w' := Next(w, DeliverWill(0));
  }

  lemma Ended(w: World, birthed: bool) returns (w': World)
    requires Valid(w.node) && w.phase == Up && w.node.cfg == BareConfig
    requires var b := w.node.link.broker; b.session == Some(Will(w.node.bdSeq, birthed)) && b.pending == [] && !b.late
    ensures w' == Next(Next(Next(w, Drop), DeliverWill(0)), DisconnectedCallback)
    ensures Quiet(w', w.node.bdSeq, w.node.link.broker.host.bdSeq) && w'.node.queue == w.node.queue
    ensures var h := w.node.link.broker.host;
      h.bdSeq != Null && h.bdSeq != Int(w.node.bdSeq) ==> w'.node.link.broker.host.problems != []
  {
    var w1 := DroppedFrom(w, birthed);
    var w2 := Delivered(w1, Will(w.node.bdSeq, birthed));
    w' := Next(w2, DisconnectedCallback);
  }

  /** A whole session with room for one publish, or for none. */
  lemma Lived(w: World, bdSeq: nat, birth: Value, room: nat) returns (w': World)
    requires Quiet(w, bdSeq, birth) && w.node.queue == [] && room <= 1
    ensures w' == Exec(w, Lifetime(room, room))
    ensures Quiet(w', bdSeq + 1, if room == 1 then Int(bdSeq + 1) else birth) && w'.node.queue == []
    ensures room == 0 && birth.Int? && birth.n <= bdSeq ==> w'.node.link.broker.host.problems != []
  {
    var w1 := Opened(w, bdSeq, birth, room, room);
    var w2 := CalledBack(w1);
    w' := Ended(w2, room == 1);
    LifetimeRuns(w, room);
  }

  lemma {:induction false} ExecConcat(w: World, a: seq<Step>, b: seq<Step>)
    requires Valid(w.node)
    ensures Exec(w, a + b) == Exec(Exec(w, a), b)
  {
    if b == [] {
      assert a + b == a;
    } else {
      assert Front(a + b) == a + Front(b);
      ExecConcat(w, a, Front(b));
    }
  }

  lemma ExecTwo(w: World, s: Step, t: Step)
    requires Valid(w.node)
    ensures Exec(w, [s, t]) == Next(Next(w, s), t)
  {
    assert [] + [s] == [s] && [s] + [t] == [s, t];
    ExecOne(w, [], s);
    ExecOne(w, [s], t);
  }

  lemma ExecThree(w: World, s: Step, t: Step, u: Step)
    requires Valid(w.node)
    ensures Exec(w, [s, t, u]) == Next(Next(Next(w, s), t), u)
  {
    ExecTwo(w, s, t);
    assert [s, t] + [u] == [s, t, u];
    ExecOne(w, [s, t], u);
  }

  lemma LifetimeRuns(w: World, room: nat)
    requires Valid(w.node)
    ensures Exec(w, Lifetime(room, room)) ==
      Next(Next(Next(Next(Next(Next(w, Preconnect), Connect(Accepted(room, room))), ConnectedCallback(0)), Drop),
        DeliverWill(0)), DisconnectedCallback)
  {
    var a := [Preconnect, Connect(Accepted(room, room)), ConnectedCallback(0)];
    var b := [Drop, DeliverWill(0), DisconnectedCallback];
    assert Lifetime(room, room) == a + b;
    ExecConcat(w, a, b);
    ExecThree(w, Preconnect, Connect(Accepted(room, room)), ConnectedCallback(0));
    ExecThree(Exec(w, a), Drop, DeliverWill(0), DisconnectedCallback);
  }

  /** The list does not stay empty on every run: a session that connects after a
      born one but dies before its own NBIRTH leaves a will the host cannot match. */
  lemma UnbornSessionIsFlagged()
    ensures var w := Exec(Init(BareConfig), [Start] + Lifetime(1, 1) + Lifetime(0, 0));
      !w.node.link.broker.late && w.node.link.broker.host.problems != []
  {
    var w0 := Init(BareConfig);
    ExecConcat(w0, [Start], Lifetime(1, 1));
    ExecConcat(w0, [Start] + Lifetime(1, 1), Lifetime(0, 0));
    ExecOne(w0, [], Start);
    assert [] + [Start] == [Start];
    var w1 := Next(w0, Start);
    var w2 := Lived(w1, 0, Null, 1);
    var w3 := Lived(w2, 1, Int(1), 0);
  }

  // ----- The host knows what the device knows -----

  lemma HostKnowsEveryValue(cfg: Config, steps: seq<Step>)
    requires ValidConfig(cfg)
    ensures var n := Exec(Init(cfg), steps).node;
      Live(n.link) && n.birthSent && n.hostOnline ==>
        forall i: nat | i < |n.values| ::
          Alias(i) in n.link.broker.view && n.link.broker.view[Alias(i)] == WireValue(n.values[i])
  {
    RunKeeps(cfg, steps);
  }

  // ----- bdSeq -----

  /** No two sessions are opened with the same bdSeq, whatever crashes, failed
      handshakes and restarts came between, and a session's will and the birth
      the host got from it agree. */
  lemma SessionsNeverShareBdSeq(cfg: Config, steps: seq<Step>)
    requires ValidConfig(cfg)
    ensures var w := Exec(Init(cfg), steps); var b := w.node.link.broker;
      && (forall i, j | 0 <= i < j < |b.registered| :: b.registered[i] < b.registered[j])
      && (forall i | 0 <= i < |b.registered| :: b.registered[i] <= w.disk)
      && (b.session.Some? ==> b.registered != [] && b.session.value.bdSeq == Last(b.registered))
      && (b.session.Some? && b.session.value.birthed ==> b.host.bdSeq == Int(b.session.value.bdSeq))
  {
    RunKeeps(cfg, steps);
  }
}
