/** The static state of app/engine/sparkplug.c as an object: every callback
    updates its fields in place and is proved to compute the function of the
    same name in SparkplugNode. */
module SparkplugSession {
  import opened Prelude
  import opened SparkplugHost
  import N = SparkplugNode

  class EdgeNode {
    const cfg: N.Config
    var bdSeq: nat
    var seqNo: nat
    var birthSent: bool
    var hostOnline: bool
    const values: array<Option<N.Reading>>
    const history: array<N.Sample>
    var head: nat
    var count: nat
    var link: N.Link

    ghost predicate Valid()
      reads this, values, history
    {
      && N.ValidConfig(cfg)
      && values.Length == |cfg.defs|
      && history.Length == N.HISTORY_MAX
      && head < N.HISTORY_MAX && count <= N.HISTORY_MAX
      && seqNo < 256
      && forall s | s in Queue() :: s.def < |cfg.defs|
    }

    /** The ring's contents, oldest first. */
    ghost function Queue(): (q: seq<N.Sample>)
      requires history.Length == N.HISTORY_MAX
      reads this`head, this`count, history
      ensures |q| == count
    {
      RingContents(history[..], head, count)
    }

    static function RingContents(ring: seq<N.Sample>, head: nat, count: nat): (q: seq<N.Sample>)
      requires |ring| == N.HISTORY_MAX
    {
      seq(count, k requires 0 <= k => ring[(head + k) % N.HISTORY_MAX])
    }

    ghost function State(): (n: N.Node)
      requires Valid()
      reads this, values, history
      ensures N.Valid(n)
    {
      N.Node(cfg, bdSeq, seqNo, birthSent, hostOnline, values[..], Queue(), link)
    }

    /** A fresh process: bdSeq is what the last one persisted. */
    constructor (cfg: N.Config, saved: nat, link: N.Link)
      requires N.ValidConfig(cfg)
      ensures Valid() && fresh(values) && fresh(history)
      ensures State() == N.Node(cfg, saved, 0, false, true, seq(|cfg.defs|, _ => None), [], link)
    {
      this.cfg := cfg;
      bdSeq, seqNo, birthSent, hostOnline := saved, 0, false, true;
      values := new Option<N.Reading>[|cfg.defs|](_ => None);
      history := new N.Sample[N.HISTORY_MAX](_ => N.Sample(0, N.Reading("", 0)));
      head, count := 0, 0;
      this.link := link;
      new;
      assert values[..] == seq(|cfg.defs|, _ => None);
    }

    method TakeSeq() returns (s: nat)
      requires seqNo < 256
      modifies this`seqNo
      ensures s == old(seqNo) && seqNo == N.NextSeq(s)
    {
      s := seqNo;
      seqNo := (seqNo + 1) % 256;
    }

    method Publish(msg: Message) returns (ok: bool)
      modifies this`link
      ensures link == N.Send(old(link), msg)
      ensures ok == N.CanSend(old(link))
    {
      ok := link.connected && link.sends > 0;
      link := N.Send(link, msg);
    }

    method BirthList(now: nat) returns (ms: seq<Metric>)
      requires Valid()
      ensures ms == N.BirthMetrics(State(), now)
    {
      ms := [];
      for i := 0 to |cfg.defs|
        invariant ms == N.BirthMetrics(State(), now)[..i]
      {
        var v := values[i];
        ms := ms + [Metric(Some(cfg.defs[i].name), Some(N.Alias(i)), N.WireValue(v),
                         if v.Some? then v.value.ts else now, false)];
      }
    }

    method PublishBirth(now: nat)
      requires Valid()
      modifies this`seqNo, this`birthSent, this`link
      ensures Valid() && State() == N.PublishBirth(old(State()), now)
    {
      var ms := BirthList(now);
      var node := N.NodeControls(bdSeq, now);
      if !cfg.hasDevice {
        node := node + ms;
      }
      seqNo := 0;
      var s := TakeSeq();
      assert N.NodeControls(bdSeq, now) + [] == N.NodeControls(bdSeq, now);
      var ok := Publish(Message(NBIRTH, Some(s), node));
      if !ok {
        return;
      }
      if cfg.hasDevice {
        s := TakeSeq();
        ok := Publish(Message(DBIRTH, Some(s), ms));
        if !ok {
          return;
        }
      }
      birthSent := true;
    }

    method FlushHistory()
      requires Valid()
      modifies this`seqNo, this`link, this`head, this`count
      ensures Valid() && State() == N.FlushHistory(old(State()))
    {
      if count == 0 {
        return;
      }
      ghost var n := State();
      var ms: seq<Metric> := [];
      for k := 0 to count
        invariant State() == n
        invariant ms == N.ReplayMetrics(n, n.queue)[..k]
      {
        var s := history[(head + k) % N.HISTORY_MAX];
        assert s == n.queue[k];
        ms := ms + [Metric(Some(cfg.defs[s.def].name), Some(N.Alias(s.def)), Text(s.reading.text), s.reading.ts, true)];
      }
      assert ms == N.ReplayMetrics(n, n.queue);
      var s := TakeSeq();
      var ok := Publish(Message(if cfg.hasDevice then DDATA else NDATA, Some(s), ms));
      if !ok {
        return;
      }
      head, count := 0, 0;
      assert Queue() == [];
    }

    /** The ring refines a bounded queue that drops its oldest entry. */
    method BufferSample(def: nat, text: string, ts: nat)
      requires Valid() && def < |cfg.defs|
      modifies this`head, this`count, history
      ensures Valid()
      ensures State() == old(State()).(queue := N.Enqueue(old(State()).queue, N.Sample(def, N.Reading(text, ts))))
    {
      ghost var q := Queue();
      var slot := (head + count) % N.HISTORY_MAX;
      if count < N.HISTORY_MAX {
        count := count + 1;
      } else {
        slot := head;
        head := (head + 1) % N.HISTORY_MAX;
      }
      history[slot] := N.Sample(def, N.Reading(text, ts));
      if old(count) < N.HISTORY_MAX {
        RingGrows(old(history[..]), head, old(count), N.Sample(def, N.Reading(text, ts)));
      } else {
        RingTurns(old(history[..]), slot, N.Sample(def, N.Reading(text, ts)));
      }
      assert Queue() == N.Enqueue(q, N.Sample(def, N.Reading(text, ts)));
    }

    /** A position of the ring, without the remainder. */
    static lemma RingIndex(head: nat, k: nat)
      requires head < N.HISTORY_MAX && k <= N.HISTORY_MAX
      ensures (head + k) % N.HISTORY_MAX == if head + k < N.HISTORY_MAX then head + k else head + k - N.HISTORY_MAX
    {
    }

    static lemma RingGrows(ring: seq<N.Sample>, head: nat, count: nat, s: N.Sample)
      requires |ring| == N.HISTORY_MAX && head < N.HISTORY_MAX && count < N.HISTORY_MAX
      ensures RingContents(ring[(head + count) % N.HISTORY_MAX := s], head, count + 1) ==
        RingContents(ring, head, count) + [s]
    {
      var next := RingContents(ring[(head + count) % N.HISTORY_MAX := s], head, count + 1);
      forall k | 0 <= k < count ensures next[k] == RingContents(ring, head, count)[k] {
        RingIndex(head, k);
        RingIndex(head, count);
      }
    }

    static lemma RingTurns(ring: seq<N.Sample>, head: nat, s: N.Sample)
      requires |ring| == N.HISTORY_MAX && head < N.HISTORY_MAX
      ensures RingContents(ring[head := s], (head + 1) % N.HISTORY_MAX, N.HISTORY_MAX) ==
        RingContents(ring, head, N.HISTORY_MAX)[1..] + [s]
    {
      var first := (head + 1) % N.HISTORY_MAX;
      var next, was := RingContents(ring[head := s], first, N.HISTORY_MAX), RingContents(ring, head, N.HISTORY_MAX);
      RingIndex(head, 1);
      forall k: nat | k < N.HISTORY_MAX ensures next[k] == (was[1..] + [s])[k] {
        RingIndex(first, k);
        RingIndex(head, k + 1);
      }
    }

    method IsMuted() returns (muted: bool)
      requires Valid()
      ensures muted == N.Muted(State())
    {
      muted := !birthSent || !hostOnline || !link.connected;
    }

    method PublishData(ms: seq<Metric>) returns (ok: bool)
      requires seqNo < 256
      modifies this`seqNo, this`link
      ensures var quiet := ms == [] || !old(birthSent) || !old(hostOnline) || !old(link.connected);
        && (quiet ==> seqNo == old(seqNo) && link == old(link) && ok == (ms == []))
        && (!quiet ==>
              && seqNo == N.NextSeq(old(seqNo))
              && link == N.Send(old(link), Message(if cfg.hasDevice then DDATA else NDATA, Some(old(seqNo)), ms))
              && ok == N.CanSend(old(link)))
    {
      if ms == [] {
        return true;
      }
      if !birthSent || !hostOnline || !link.connected {
        return false;
      }
      var s := TakeSeq();
      ok := Publish(Message(if cfg.hasDevice then DDATA else NDATA, Some(s), ms));
    }

    /** One metric of an event or a rule publish: remember it, list it, buffer it when muted. */
    method TakeSample(def: nat, text: string, ts: nat, ms: seq<Metric>, ghost n: N.Node, ghost ss: seq<N.Sample>)
      returns (ms': seq<Metric>)
      requires Valid() && N.Valid(n) && def < |cfg.defs| && n.cfg == cfg
      requires forall s | s in ss :: s.def < |n.values|
      requires State() == Taken(n, ss) && ms == N.DataMetrics(ss)
      modifies this`head, this`count, history, values
      ensures Valid()
      ensures State() == Taken(n, ss + [N.Sample(def, N.Reading(text, ts))])
      ensures ms' == N.DataMetrics(ss + [N.Sample(def, N.Reading(text, ts))])
    {
      ghost var s := N.Sample(def, N.Reading(text, ts));
      FrontLast(ss, s);
      values[def] := Some(N.Reading(text, ts));
      ms' := ms + [Metric(None, Some(N.Alias(def)), Text(text), ts, false)];
      assert N.Remember(n.values, ss + [s]) == N.Remember(n.values, ss)[def := Some(s.reading)];
      assert values[..] == N.Remember(n.values, ss + [s]);
      assert Queue() == Taken(n, ss).queue;
      var muted := IsMuted();
      if muted {
        BufferSample(def, text, ts);
      }
    }

    /** The node after a prefix of the samples of one call, before anything is published. */
    static ghost function Taken(n: N.Node, ss: seq<N.Sample>): N.Node
      requires N.Valid(n) && forall s | s in ss :: s.def < |n.values|
    {
      n.(values := N.Remember(n.values, ss), queue := if N.Muted(n) then N.EnqueueAll(n.queue, ss) else n.queue)
    }

    /** One pass of the loop over the definitions: a changed field is reported. */
    method ReportChange(i: nat, ev: N.DeviceEvent, ts: nat, ms: seq<Metric>, ghost n: N.Node, ghost ss: seq<N.Sample>)
      returns (more: seq<Metric>, ghost taken: seq<N.Sample>)
      requires Valid() && N.Valid(n) && n.cfg == cfg && i < |cfg.defs|
      requires ss == N.EventSamples(n, ev, ts, i) && State() == Taken(n, ss) && ms == N.DataMetrics(ss)
      requires forall k | i <= k < |n.values| :: values[k] == n.values[k]
      modifies this`head, this`count, history, values
      ensures Valid() && taken == N.EventSamples(n, ev, ts, i + 1) && |taken| <= |ss| + 1
      ensures State() == Taken(n, taken) && more == N.DataMetrics(taken)
      ensures forall k | i < k < |n.values| :: values[k] == n.values[k]
    {
      more, taken := ms, ss;
      var src := cfg.defs[i].source;
      if src.Some? && src.value.path != "" && N.PathMatches(ev.path, src.value.path)
         && src.value.key != "" && src.value.key in ev.fields {
        var text := N.Clip(ev.fields[src.value.key]);
        if !(values[i].Some? && values[i].value.text == text) {
          more := TakeSample(i, text, ts, ms, n, ss);
          taken := ss + [N.Sample(i, N.Reading(text, ts))];
          assert forall k | i < k < |n.values| :: values[..][k] == n.values[k];
        }
      }
    }

    method OnDeviceEvent(ev: N.DeviceEvent, ts: nat)
      requires Valid()
      modifies this`seqNo, this`link, this`head, this`count, history, values
      ensures Valid()
      ensures State() == N.Accept(old(State()), N.EventSamples(old(State()), ev, ts, |cfg.defs|))
    {
      ghost var n := State();
      var ms: seq<Metric> := [];
      ghost var ss: seq<N.Sample> := [];
      for i := 0 to |cfg.defs|
        invariant Valid()
        invariant ss == N.EventSamples(n, ev, ts, i) && |ss| <= i
        invariant State() == Taken(n, ss) && ms == N.DataMetrics(ss)
        invariant forall k | i <= k < |n.values| :: values[k] == n.values[k]
      {
        ms, ss := ReportChange(i, ev, ts, ms, n, ss);
      }
      var _ := PublishData(ms);
      assert Queue() == Taken(n, ss).queue;
    }

    /** Buffered for replay counts as accepted. */
    method RulePublish(items: seq<N.Item>, ts: nat) returns (ok: bool)
      requires Valid()
      modifies this`seqNo, this`link, this`head, this`count, history, values
      ensures Valid()
      ensures var n := old(State()); var ss := N.ItemSamples(n, items, ts);
        && State() == N.Accept(n, ss)
        && ok == (ss != [] && (N.Muted(n) || N.CanSend(n.link)))
    {
      ghost var n := State();
      var ms: seq<Metric> := [];
      ghost var ss: seq<N.Sample> := [];
      for i := 0 to |items|
        invariant Valid()
        invariant ss == N.ItemSamples(n, items[..i], ts)
        invariant State() == Taken(n, ss) && ms == N.DataMetrics(ss)
      {
        assert items[..i + 1] == items[..i] + [items[i]];
        FrontLast(items[..i], items[i]);
        if |ms| < N.MAX_METRICS && items[i].name != "" {
          var d := N.FindDef(cfg.defs, items[i].name, 0);
          if d.Some? {
            var text := N.Clip(items[i].value);
            ms := TakeSample(d.value, text, ts, ms, n, ss);
            ss := ss + [N.Sample(d.value, N.Reading(text, ts))];
          }
        }
      }
      assert items[..|items|] == items;
      ok := if ms != [] then true else false;
      if ok {
        ok := PublishData(ms);
      }
      assert Queue() == Taken(n, ss).queue;
      if !ok && ms != [] {
        ok := IsMuted();
      }
    }

    /** The last step before CONNECT: a new bdSeq, persisted and put into the will. */
    method OnPreconnect() returns (saved: nat, will: Message)
      requires Valid()
      modifies this`hostOnline, this`bdSeq, this`birthSent
      ensures Valid() && State() == N.OnPreconnect(old(State()))
      ensures saved == bdSeq && will == N.NodeDeath(bdSeq, 0)
    {
      hostOnline := true;
      bdSeq := bdSeq + 1;
      saved := bdSeq;
      birthSent := false;
      will := N.NodeDeath(bdSeq, 0);
    }

    method OnConnected(now: nat)
      requires Valid()
      modifies this`seqNo, this`birthSent, this`link, this`head, this`count
      ensures Valid() && State() == N.OnConnected(old(State()), now)
    {
      PublishBirth(now);
      if birthSent {
        FlushHistory();
      }
    }

    method OnDisconnected()
      requires Valid()
      modifies this`birthSent
      ensures Valid() && State() == N.OnDisconnected(old(State()))
    {
      birthSent := false;
    }

    method OnHostState(online: bool, now: nat)
      requires Valid()
      modifies this`hostOnline, this`seqNo, this`birthSent, this`link, this`head, this`count
      ensures Valid() && State() == N.OnHostState(old(State()), online, now)
    {
      var wasOnline := hostOnline;
      hostOnline := online;
      if online && !wasOnline {
        PublishBirth(now);
        if birthSent {
          FlushHistory();
        }
      } else if online {
        PublishBirth(now);
      }
    }

    method Cleanup(now: nat)
      requires Valid()
      modifies this`birthSent, this`link
      ensures Valid() && State() == N.Cleanup(old(State()), now)
    {
      if birthSent && link.connected {
        var _ := Publish(N.NodeDeath(bdSeq, now));
      }
      birthSent := false;
    }
  }
}
