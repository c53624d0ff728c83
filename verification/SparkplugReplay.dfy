/** That samples do get through: what an event or a rule changes is taken up, goes
    out at once or is kept, and is replayed as soon as the host can be reached; and
    that no session of a born node ends unannounced. */
module SparkplugReplay {
  import opened Prelude
  import opened SparkplugHost
  import opened SparkplugNode
  import opened SparkplugRuns
  import opened SparkplugConservation
  import opened SparkplugWills

  // ----- The replay happens -----

  /** Connected with nothing lost so far, the node is born, and holds nothing back
      unless its host is offline. */
  predicate Delivered(w: World) {
    w.phase == Up && Live(w.node.link) ==> w.node.birthSent && (w.node.hostOnline ==> w.node.queue == [])
  }

  lemma BirthDelivers(n: Node, now: nat)
    requires Valid(n)
    ensures var r := PublishBirth(n, now);
      && r.queue == n.queue && r.hostOnline == n.hostOnline && (Live(r.link) ==> r.birthSent)
  {
  }

  lemma ConnectedDelivers(n: Node, now: nat)
    requires Valid(n)
    ensures var r := OnConnected(n, now);
      Live(r.link) ==> r.birthSent && r.queue == []
  {
    BirthDelivers(n, now);
  }

  lemma AcceptDelivers(w: World, ss: seq<Sample>)
    requires Inv(w) && Delivered(w) && forall s | s in ss :: s.def < |w.node.values|
    ensures Delivered(w.(node := Accept(w.node, ss)))
  {
  }

  lemma HostStateDelivers(w: World, online: bool, now: nat)
    requires Inv(w) && Delivered(w)
    ensures Delivered(w.(node := OnHostState(w.node, online, now)))
  {
    var n1 := w.node.(hostOnline := online);
    BirthDelivers(n1, now);
    ConnectedDelivers(n1, now);
  }

  lemma NextDelivers(w: World, s: Step)
    requires Inv(w) && Delivered(w)
    ensures Delivered(Next(w, s))
  {
    match s
    case ConnectedCallback(now) => ConnectedDelivers(w.node, now);
    case EventFires(ev, ts) => AcceptDelivers(w, EventSamples(w.node, ev, ts, |w.node.values|));
    case RuleFires(items, ts) => AcceptDelivers(w, ItemSamples(w.node, items, ts));
    case HostStateArrives(online, now) => HostStateDelivers(w, online, now);
    case RebirthCommand(now) => BirthDelivers(w.node, now);
    case _ =>
  }

  /** After every run: while the connection is up and has lost nothing, the node is
      born and, unless its host is offline, every sample it buffered has been
      replayed. */
  lemma {:induction false} BufferIsReplayed(cfg: Config, steps: seq<Step>)
    requires ValidConfig(cfg)
    ensures Delivered(Exec(Init(cfg), steps))
  {
    if steps != [] {
      BufferIsReplayed(cfg, Front(steps));
      RunKeeps(cfg, Front(steps));
      NextDelivers(Exec(Init(cfg), Front(steps)), Last(steps));
    }
  }

  // ----- What an event changes -----

  /** The text as it is kept: at most 255 characters of it. */
  predicate KeptAs(text: string, kept: string) {
    kept <= text && |kept| == if |text| < 256 then |text| else 255
  }

  /** The event is at the definition's path or below it and has its field. */
  predicate Concerns(d: Def, ev: DeviceEvent) {
    && d.source.Some? && d.source.value.path != "" && d.source.value.key != ""
    && (ev.path == d.source.value.path || d.source.value.path + "/" <= ev.path)
    && d.source.value.key in ev.fields
  }

  /** The event carries a text for the definition that its value does not show yet. */
  predicate Changes(d: Def, v: Option<Reading>, ev: DeviceEvent) {
    Concerns(d, ev) && !(v.Some? && KeptAs(ev.fields[d.source.value.key], v.value.text))
  }

  lemma ReportsExactlyChanges(n: Node, i: nat, ev: DeviceEvent)
    requires Valid(n) && i < |n.values|
    ensures Reports(n, i, ev) <==> Changes(n.cfg.defs[i], n.values[i], ev)
  {
    var d := n.cfg.defs[i];
    if d.source.Some? {
      BelowIsDeeper(ev.path, d.source.value.path);
      if d.source.value.key in ev.fields {
        ClipIsKept(ev.fields[d.source.value.key]);
      }
    }
  }

  lemma BelowIsDeeper(path: string, prefix: string)
    ensures PathMatches(path, prefix) <==> path == prefix || prefix + "/" <= path
  {
    if prefix <= path && |path| > |prefix| && path[|prefix|] == '/' {
      assert prefix + "/" == path[..|prefix| + 1];
    }
    if prefix + "/" <= path {
      assert (prefix + "/")[..|prefix|] == prefix && path[..|prefix|] == (prefix + "/")[..|prefix|];
    }
  }

  lemma ClipIsKept(text: string)
    ensures KeptAs(text, Clip(text)) && forall kept :: KeptAs(text, kept) ==> kept == Clip(text)
  {
  }

  /** One sample for each of the first k definitions the event changes, in order. */
  ghost predicate SamplesOfChanges(n: Node, ev: DeviceEvent, ts: nat, k: nat, ss: seq<Sample>)
    requires Valid(n) && k <= |n.values|
  {
    && (forall a, b | 0 <= a < b < |ss| :: ss[a].def < ss[b].def)
    && (forall a | 0 <= a < |ss| :: ss[a].def < k && Changes(n.cfg.defs[ss[a].def], n.values[ss[a].def], ev) &&
          ss[a].reading.ts == ts &&
          KeptAs(ev.fields[n.cfg.defs[ss[a].def].source.value.key], ss[a].reading.text))
    && (forall i | 0 <= i < k && Changes(n.cfg.defs[i], n.values[i], ev) :: exists a :: 0 <= a < |ss| && ss[a].def == i)
  }

  lemma SampleOfChange(n: Node, i: nat, ev: DeviceEvent, ts: nat, before: seq<Sample>)
    requires Valid(n) && i < |n.values| && Changes(n.cfg.defs[i], n.values[i], ev)
    requires SamplesOfChanges(n, ev, ts, i, before)
    ensures SamplesOfChanges(n, ev, ts, i + 1,
      before + [Sample(i, Reading(Clip(ev.fields[n.cfg.defs[i].source.value.key]), ts))])
  {
    ClipIsKept(ev.fields[n.cfg.defs[i].source.value.key]);
    var ss := before + [Sample(i, Reading(Clip(ev.fields[n.cfg.defs[i].source.value.key]), ts))];
    assert ss[|before|].def == i;
    forall j | 0 <= j < i && Changes(n.cfg.defs[j], n.values[j], ev)
      ensures exists a :: 0 <= a < |ss| && ss[a].def == j
    {
      var a :| 0 <= a < |before| && before[a].def == j;
      assert ss[a].def == j;
    }
  }

  /** Report by exception: an event is sampled for exactly the definitions it changes. */
  lemma {:induction false} EventSamplesChanges(n: Node, ev: DeviceEvent, ts: nat, k: nat)
    requires Valid(n) && k <= |n.values|
    ensures SamplesOfChanges(n, ev, ts, k, EventSamples(n, ev, ts, k))
  {
    if k > 0 {
      var before := EventSamples(n, ev, ts, k - 1);
      EventSamplesChanges(n, ev, ts, k - 1);
      ReportsExactlyChanges(n, k - 1, ev);
      if Reports(n, k - 1, ev) {
        SampleOfChange(n, k - 1, ev, ts, before);
      }
    }
  }

  /** The value of a definition after some samples is that of its last one. */
  lemma {:induction false} RememberIsLast(values: seq<Option<Reading>>, ss: seq<Sample>, a: nat)
    requires (forall s | s in ss :: s.def < |values|) && a < |ss|
    requires forall b | a < b < |ss| :: ss[b].def != ss[a].def
    ensures ss[a] in ss && Remember(values, ss)[ss[a].def] == Some(ss[a].reading)
  {
    assert Last(ss) in ss;
    if a < |ss| - 1 {
      assert Front(ss)[a] == ss[a];
      RememberIsLast(values, Front(ss), a);
    }
  }

  lemma {:induction false} RememberKeeps(values: seq<Option<Reading>>, ss: seq<Sample>, i: nat)
    requires (forall s | s in ss :: s.def < |values|) && i < |values|
    requires forall a | 0 <= a < |ss| :: ss[a].def != i
    ensures Remember(values, ss)[i] == values[i]
  {
    if ss != [] {
      assert Last(ss) in ss;
      RememberKeeps(values, Front(ss), i);
    }
  }

  lemma TakenUp(n: Node, ev: DeviceEvent, ts: nat, ss: seq<Sample>, i: nat)
    requires Valid(n) && i < |n.values| && forall s | s in ss :: s.def < |n.values|
    requires SamplesOfChanges(n, ev, ts, |n.values|, ss)
    ensures var d, v, v' := n.cfg.defs[i], n.values[i], Remember(n.values, ss)[i];
      if Changes(d, v, ev) then v'.Some? && v'.value.ts == ts && KeptAs(ev.fields[d.source.value.key], v'.value.text)
      else v' == v
  {
    if Changes(n.cfg.defs[i], n.values[i], ev) {
      var a :| 0 <= a < |ss| && ss[a].def == i;
      RememberIsLast(n.values, ss, a);
    } else {
      RememberKeeps(n.values, ss, i);
    }
  }

  /** After an event at a running node every definition it changes shows the event's
      field, as of now, and every other its old value. */
  lemma EventIsTakenUp(w: World, ev: DeviceEvent, ts: nat, i: nat)
    requires Valid(w.node) && w.phase != Stopped && i < |w.node.values|
    ensures var d, v, v' := w.node.cfg.defs[i], w.node.values[i], Next(w, EventFires(ev, ts)).node.values[i];
      if Changes(d, v, ev) then v'.Some? && v'.value.ts == ts && KeptAs(ev.fields[d.source.value.key], v'.value.text)
      else v' == v
  {
    var n := w.node;
    EventSamplesChanges(n, ev, ts, |n.values|);
    TakenUp(n, ev, ts, EventSamples(n, ev, ts, |n.values|), i);
    EventRemembered(w, ev, ts);
  }

  lemma EventRemembered(w: World, ev: DeviceEvent, ts: nat)
    requires Valid(w.node) && w.phase != Stopped
    ensures Next(w, EventFires(ev, ts)).node.values ==
      Remember(w.node.values, EventSamples(w.node, ev, ts, |w.node.values|))
  {
  }

  // ----- What a rule publishes -----

  predicate IsDeclared(c: Config, name: string) {
    name != "" && exists d | d in c.defs :: d.name == name
  }

  /** The items whose metric is declared, in order. */
  function Declared(c: Config, items: seq<Item>): seq<Item> {
    if items == [] then []
    else Declared(c, Front(items)) + if IsDeclared(c, Last(items).name) then [Last(items)] else []
  }

  /** A rule's items are sampled in order, as far as they are declared: the first
      128 of these, each under the first definition of its name. */
  lemma {:induction false} ItemSamplesDeclared(n: Node, items: seq<Item>, ts: nat)
    requires Valid(n)
    ensures var ss, ds := ItemSamples(n, items, ts), Declared(n.cfg, items);
      && |ss| == (if |ds| <= 128 then |ds| else 128)
      && forall k | 0 <= k < |ss| ::
           && n.cfg.defs[ss[k].def].name == ds[k].name
           && (forall d | 0 <= d < ss[k].def :: n.cfg.defs[d].name != ds[k].name)
           && ss[k].reading.ts == ts && KeptAs(ds[k].value, ss[k].reading.text)
  {
    if items != [] {
      ItemSamplesDeclared(n, Front(items), ts);
      ClipIsKept(Last(items).value);
      FindsFirst(n.cfg.defs, Last(items).name, 0);
      var ds, before := Declared(n.cfg, items), Declared(n.cfg, Front(items));
      assert forall k | 0 <= k < |before| :: ds[k] == before[k];
    }
  }

  lemma {:induction false} FindsFirst(defs: seq<Def>, name: string, from: nat)
    requires from <= |defs|
    ensures FindDef(defs, name, from).Some? <==> exists k :: from <= k < |defs| && defs[k].name == name
    ensures FindDef(defs, name, from).Some? ==>
      forall k | from <= k < FindDef(defs, name, from).value :: defs[k].name != name
    decreases |defs| - from
  {
    if from < |defs| && defs[from].name != name {
      FindsFirst(defs, name, from + 1);
    }
  }

  // ----- Sent at once or kept -----

  /** The node has announced itself, its host is there and its connection is up. */
  predicate Reachable(n: Node) {
    n.birthSent && n.hostOnline && n.link.connected
  }

  /** The samples of an event or a rule go out in one message while the host can be
      reached, and into the buffer, with nothing sent, while it cannot. */
  lemma SentOrKept(w: World, s: Step)
    requires Valid(w.node) && Offered(w, s) != []
    ensures var n, n' := w.node, Next(w, s).node;
      if Reachable(n) then
        n'.queue == n.queue &&
        n'.link.sent ==
          n.link.sent +
          if n.link.sends > 0 then [Message(DataKind(n), Some(n.seqNo), DataMetrics(Offered(w, s)))] else []
      else n'.link == n.link && n'.queue == Newest(n.queue + Offered(w, s))
  {
    EnqueueAllKeepsNewest(w.node.queue, Offered(w, s));
    OfferedIsAccepted(w, s);
    AcceptSendsOrKeeps(w.node, Offered(w, s));
  }

  lemma OfferedIsAccepted(w: World, s: Step)
    requires Valid(w.node) && Offered(w, s) != []
    ensures Next(w, s).node == Accept(w.node, Offered(w, s))
  {
  }

  lemma AcceptSendsOrKeeps(n: Node, ss: seq<Sample>)
    requires Valid(n) && ss != [] && forall s | s in ss :: s.def < |n.values|
    ensures var n' := Accept(n, ss);
      if Reachable(n) then
        n'.queue == n.queue &&
        n'.link.sent ==
          n.link.sent + if n.link.sends > 0 then [Message(DataKind(n), Some(n.seqNo), DataMetrics(ss))] else []
      else n'.link == n.link && n'.queue == EnqueueAll(n.queue, ss)
  {
  }

  /** A birth tells the host the name, alias and last reading of every definition,
      and nothing where there is none. */
  lemma BirthTells(n: Node, now: nat, i: nat)
    requires Valid(n) && i < |n.values|
    ensures var m := (if n.cfg.hasDevice then DeviceBirth(n, now).metrics else NodeBirth(n, now).metrics[2..])[i];
      && m.name == Some(n.cfg.defs[i].name) && !m.historical
      && (if n.values[i].Some? then SampleOf(m) == Sample(i, n.values[i].value) else m.value == Null && m.ts == now)
    ensures NodeBirth(n, now).metrics[1].name == Some("Node Control/Rebirth")
  {
  }

  // ----- No silent end -----

  /** The broker owes the host the will of the session that was open. */
  predicate WillIsDue(b: Broker, b': Broker) {
    b.session.Some? && b'.pending == b.pending + [b.session.value]
  }

  /** The node told the host of its death itself, by the bdSeq of its session's will. */
  predicate DeathIsTold(n: Node, n': Node, now: nat) {
    var death := NodeDeath(n.bdSeq, now);
    && n.link.broker.session.Some? && Names(death, n.link.broker.session.value.bdSeq)
    && n'.link.sent == n.link.sent + [death] && n'.link.broker.host == Show(n.link.broker.host, death)
  }

  lemma ShutdownIsTold(w: World, now: nat, clean: bool)
    requires Inv(w) && w.phase != Stopped && w.node.link.broker.session.Some?
    ensures var n, n' := w.node, ShutDown(w.node, now, clean);
      WillIsDue(n.link.broker, n'.link.broker) || (clean && (n.birthSent ==> DeathIsTold(n, n', now)))
  {
    assert LinkInv(w.node);
  }

  lemma OthersLeaveWill(w: World, s: Step)
    requires Valid(w.node) && !Publishes(s) && !s.Shutdown?
    requires w.node.link.broker.session.Some? && Next(w, s).node.link.broker.session.None?
    ensures WillIsDue(w.node.link.broker, Next(w, s).node.link.broker)
  {
  }

  /** When the broker ends a session it either owes the host its will, or the node
      has shut down cleanly and, if it was born, told the host of its death itself. */
  lemma NoSilentEnd(cfg: Config, steps: seq<Step>, s: Step)
    requires ValidConfig(cfg)
    requires Exec(Init(cfg), steps).node.link.broker.session.Some?
    requires Next(Exec(Init(cfg), steps), s).node.link.broker.session.None?
    ensures var n, n' := Exec(Init(cfg), steps).node, Next(Exec(Init(cfg), steps), s).node;
      || WillIsDue(n.link.broker, n'.link.broker)
      || (s.Shutdown? && s.clean && (n.birthSent ==> DeathIsTold(n, n', s.now)))
  {
    var w := Exec(Init(cfg), steps);
    RunKeeps(cfg, steps);
    if Publishes(s) {
      StepSameSession(w, s);
    } else if s.Shutdown? {
      ShutdownIsTold(w, s.now, s.clean);
    } else {
      OthersLeaveWill(w, s);
    }
  }
}
