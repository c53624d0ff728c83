/** The requests the protocol logs for a flash that nothing disturbs are those of
    its rhythm. */
module FlashTrace {
  import opened Prelude
  import opened FlashTable
  import opened FlashRhythm
  import opened FlashProtocol
  import opened FlashSafety

  /** What has been sent for a run, in order. */
  function Commands(log: seq<Event>, gen: nat): seq<Command> {
    if log == [] then []
    else Commands(Front(log), gen) + if Last(log).Begin? && Last(log).gen == gen then [Last(log).command] else []
  }

  lemma CommandsMore(log: seq<Event>, e: Event, gen: nat)
    ensures Commands(log + [e], gen) == Commands(log, gen) + if e.Begin? && e.gen == gen then [e.command] else []
  {
    FrontLast(log, e);
  }

  // ----- What disturbs a flash -----

  /** The step refreshes the run, asks it to stop, reports its time limit or its
      rule's disabling, or fails its first request. */
  predicate Disturbs(w: World, s: Step, gen: nat) {
    match s
    case Fire(j) =>
      FreshJob(j) && FirstMatch(w.table, j, 0).Some? && w.table[FirstMatch(w.table, j, 0).value].gen == gen
    case End(_) => false
    case Move(t, limit, ok) =>
      t < |w.threads| &&
      match w.threads[t]
      case Scanning(target, _, at, _) => at < MAX_RUNS && Wants(target, w.table[at]) && w.table[at].gen == gen
      case Opening(_, g, _, inFlight) => g == gen && inFlight && !ok
      case Working(_, g) => g == gen && limit
      case _ => false
  }

  predicate Undisturbed(steps: seq<Step>, gen: nat) {
    forall i | 0 <= i < |steps| :: !Disturbs(Exec(steps[..i]), steps[i], gen)
  }

  /** The step starts run gen. */
  predicate Starts(w: World, s: Step, gen: nat)
    requires InRange(w)
  {
    && Next(w, s).started == gen && w.started < gen
    && s.Move? && s.t < |w.threads| && w.threads[s.t].Scanning? && w.threads[s.t].goal.StartJob?
  }

  /** The job the run was started with. */
  function JobOf(steps: seq<Step>, gen: nat): Option<Job> {
    if steps == [] then None
    else if Starts(Exec(Front(steps)), Last(steps), gen)
    then Some(Exec(Front(steps)).threads[Last(steps).t].goal.job)
    else JobOf(Front(steps), gen)
  }

  // ----- Keeping to the rhythm -----

  /** How a flash goes on: a counted one's requests are to make up run; one without
      a count goes on as start does, for ever. */
  datatype Rhythm = Counted(run: seq<Command>) | Endless(start: Job)

  ghost function RhythmOf(j: Job): Rhythm
    requires Counting(j) || Uncounted(j)
  {
    if Counting(j) then Counted(Run(j)) else Endless(j)
  }

  /** A run whose flash is at job has sent exactly what it should have by now. */
  ghost predicate Keeps(r: Rhythm, job: Job, sent: seq<Command>) {
    match r
    case Counted(run) => Counting(job) && sent + Trace(job) == run
    case Endless(start) =>
      Uncounted(start) && sent != [] && sent == Steady(start, |sent|) && job == Stage(start, |sent| - 1)
  }

  predicate Complete(r: Rhythm, sent: seq<Command>) {
    r.Counted? && sent == r.run
  }

  /** Once the driving thread's present request is out, what has been sent is right. */
  ghost predicate Remains(th: Thread, job: Job, sent: seq<Command>, r: Rhythm) {
    if th.Requesting? && th.final then Complete(r, sent)
    else if (th.Sending? && th.after.OpenRun?) || (th.Opening? && !th.inFlight)
    then (if th.Sending? then th.after.first else th.first) == Shine(job) && Keeps(r, job, sent + [Shine(job)])
    else Keeps(r, job, sent)
  }

  /** Run gen, whose rhythm is r, has sent the front of it and has the rest before it. */
  ghost predicate OnTrack(w: World, gen: nat, r: Rhythm) {
    gen in w.phases &&
    match w.phases[gen]
    case Held(i, k) =>
      i < MAX_RUNS && k < |w.threads| && w.threads[k] == Working(i, gen) && !w.table[i].stopReq &&
      Remains(w.threads[k], w.table[i].job, Commands(w.log, gen), r)
    case Driven(i, k) =>
      i < MAX_RUNS && k < |w.threads| && !w.table[i].stopReq &&
      Remains(w.threads[k], w.table[i].job, Commands(w.log, gen), r)
    case Owed(_) => false
    case Over => Complete(r, Commands(w.log, gen))
  }

  /** Nobody waits for the run to end. */
  predicate Unawaited(w: World, gen: nat) {
    forall t | 0 <= t < |w.threads| :: !(w.threads[t].Waiting? && w.threads[t].awaited == gen)
  }

  /** Who answers for the run, what its slot holds and what it has sent stay. */
  ghost predicate Untouched(w: World, w': World, gen: nat) {
    && gen in w.phases && gen in w'.phases && w'.phases[gen] == w.phases[gen]
    && Commands(w'.log, gen) == Commands(w.log, gen)
    && (w.phases[gen].Held? || w.phases[gen].Driven? ==>
          var i, k := w.phases[gen].slot, w.phases[gen].who;
          i < MAX_RUNS && k < |w.threads| ==>
            w'.table[i] == w.table[i] && k < |w'.threads| && w'.threads[k] == w.threads[k])
  }

  lemma UntouchedOnTrack(w: World, w': World, gen: nat, r: Rhythm)
    requires OnTrack(w, gen, r) && Untouched(w, w', gen)
    ensures OnTrack(w', gen, r)
  {
  }

  lemma FireOnTrack(w: World, j: Job, gen: nat, r: Rhythm)
    requires Safe(w) && FreshJob(j) && OnTrack(w, gen, r) && Unawaited(w, gen) && !Disturbs(w, Fire(j), gen)
    ensures OnTrack(Fired(w, j), gen, r) && Unawaited(Fired(w, j), gen)
  {
    assert RunInv(w, gen);
    UntouchedOnTrack(w, Fired(w, j), gen, r);
  }

  /** The thread that answers for the run. */
  predicate Answers(w: World, t: nat, gen: nat)
    requires gen in w.phases
  {
    (w.phases[gen].Held? || w.phases[gen].Driven?) && w.phases[gen].who == t
  }

  lemma ScanPastUntouched(w: World, t: nat, limit: bool, ok: bool, gen: nat)
    requires Safe(w) && t < |w.threads| && w.threads[t].Scanning? && w.threads[t].at < MAX_RUNS
    requires gen in w.phases && !Answers(w, t, gen) && Unawaited(w, gen) && !Disturbs(w, Move(t, limit, ok), gen)
    ensures Untouched(w, Scan(w, t), gen) && Unawaited(Scan(w, t), gen)
  {
    assert RunInv(w, gen);
  }

  lemma ClaimUntouched(w: World, t: nat, gen: nat)
    requires Safe(w) && t < |w.threads| && w.threads[t].Scanning? && Scan(w, t).started < GENERATIONS
    requires w.threads[t].at == MAX_RUNS && gen in w.phases && !Answers(w, t, gen) && Unawaited(w, gen)
    ensures Untouched(w, Scan(w, t), gen) && Unawaited(Scan(w, t), gen)
  {
    assert RunInv(w, gen);
  }

  lemma ScanOnTrack(w: World, t: nat, limit: bool, ok: bool, gen: nat, r: Rhythm)
    requires Safe(w) && t < |w.threads| && w.threads[t].Scanning? && Scan(w, t).started < GENERATIONS
    requires OnTrack(w, gen, r) && Unawaited(w, gen) && !Disturbs(w, Move(t, limit, ok), gen)
    ensures OnTrack(Scan(w, t), gen, r) && Unawaited(Scan(w, t), gen)
  {
    assert ThreadInRange(w.threads[t]) && RunInv(w, gen);
    if w.threads[t].at < MAX_RUNS {
      ScanPastUntouched(w, t, limit, ok, gen);
    } else {
      ClaimUntouched(w, t, gen);
    }
    UntouchedOnTrack(w, Scan(w, t), gen, r);
  }

  lemma WakeOnTrack(w: World, t: nat, gen: nat, r: Rhythm)
    requires Safe(w) && t < |w.threads| && w.threads[t].Waiting?
    requires OnTrack(w, gen, r) && Unawaited(w, gen)
    ensures OnTrack(Wake(w, t), gen, r) && Unawaited(Wake(w, t), gen)
  {
    assert RunInv(w, gen);
    assert w.threads[t].awaited != gen;
    UntouchedOnTrack(w, Wake(w, t), gen, r);
  }

  /** A thread that sends the all-offs it owes still has the same to do after them. */
  lemma SendingOnTrack(w: World, w': World, t: nat, gen: nat, r: Rhythm)
    requires OnTrack(w, gen, r) && t < |w.threads| == |w'.threads|
    requires w.threads[t].Sending? && w'.threads[t].Sending? && w'.threads[t].after == w.threads[t].after
    requires w'.threads == w.threads[t := w'.threads[t]] && w'.table == w.table
    requires gen in w'.phases && w'.phases[gen] == w.phases[gen] && Commands(w'.log, gen) == Commands(w.log, gen)
    ensures OnTrack(w', gen, r)
  {
  }

  /** An all-off that is owed is that of another run. */
  lemma OwedOnTrack(w: World, t: nat, gen: nat, r: Rhythm)
    requires Safe(w) && t < |w.threads| && w.threads[t].Sending? && w.threads[t].owed != []
    requires OnTrack(w, gen, r) && Unawaited(w, gen)
    ensures OnTrack(SendOff(w, t), gen, r) && Unawaited(SendOff(w, t), gen)
  {
    assert ThreadInv(w, t);
    var th := w.threads[t];
    assert th.owed[0] in th.owed && th.owed[0] != gen;
    CommandsMore(w.log, if th.inFlight then Done(th.owed[0]) else Begin(th.owed[0], Dark, true), gen);
    SendingOnTrack(w, SendOff(w, t), t, gen, r);
  }

  lemma NoneOwedOnTrack(w: World, t: nat, gen: nat, r: Rhythm)
    requires Safe(w) && t < |w.threads| && w.threads[t].Sending? && w.threads[t].owed == []
    requires OnTrack(w, gen, r) && Unawaited(w, gen)
    ensures OnTrack(SendOff(w, t), gen, r) && Unawaited(SendOff(w, t), gen)
  {
    assert RunInv(w, gen) && ThreadInv(w, t);
  }

  lemma SendOffOnTrack(w: World, t: nat, gen: nat, r: Rhythm)
    requires Safe(w) && t < |w.threads| && w.threads[t].Sending?
    requires OnTrack(w, gen, r) && Unawaited(w, gen)
    ensures OnTrack(SendOff(w, t), gen, r) && Unawaited(SendOff(w, t), gen)
  {
    if w.threads[t].owed == [] {
      NoneOwedOnTrack(w, t, gen, r);
    } else {
      OwedOnTrack(w, t, gen, r);
    }
  }

  /** The first edge of another run begins. */
  lemma OtherEdgeOnTrack(w: World, t: nat, ok: bool, gen: nat, r: Rhythm)
    requires Safe(w) && t < |w.threads| && w.threads[t].Opening? && w.threads[t].gen != gen && !w.threads[t].inFlight
    requires OnTrack(w, gen, r) && Unawaited(w, gen)
    ensures OnTrack(Open(w, t, ok), gen, r) && Unawaited(Open(w, t, ok), gen)
  {
    assert RunInv(w, gen) && ThreadInv(w, t);
    CommandsMore(w.log, Begin(w.threads[t].gen, w.threads[t].first, false), gen);
    UntouchedOnTrack(w, Open(w, t, ok), gen, r);
  }

  /** Another run's slot and thread are not those of this one. */
  lemma OtherSlot(w: World, t: nat, gen: nat, r: Rhythm)
    requires Safe(w) && t < |w.threads| && w.threads[t].Opening? && w.threads[t].gen != gen && OnTrack(w, gen, r)
    ensures !Answers(w, t, gen)
    ensures w.phases[gen].Held? || w.phases[gen].Driven? ==> w.phases[gen].slot != w.threads[t].slot
  {
    assert RunInv(w, gen) && ThreadInv(w, t);
    assert RunInv(w, w.threads[t].gen);
  }

  /** What the first edge of another run does when it is back. */
  lemma OtherLanded(w: World, t: nat, ok: bool, gen: nat)
    requires Safe(w) && t < |w.threads| && w.threads[t].Opening? && w.threads[t].gen != gen && w.threads[t].inFlight
    requires gen in w.phases
    ensures gen in Open(w, t, ok).phases && Open(w, t, ok).phases[gen] == w.phases[gen]
    ensures Open(w, t, ok).log == w.log + [Done(w.threads[t].gen)]
    ensures |w.threads| <= |Open(w, t, ok).threads|
    ensures forall k | 0 <= k < |w.threads| && k != t :: Open(w, t, ok).threads[k] == w.threads[k]
    ensures forall i | 0 <= i < MAX_RUNS && i != w.threads[t].slot :: Open(w, t, ok).table[i] == w.table[i]
    ensures Unawaited(w, gen) ==> Unawaited(Open(w, t, ok), gen)
  {
  }

  /** It is back. */
  lemma OtherLandedOnTrack(w: World, t: nat, ok: bool, gen: nat, r: Rhythm)
    requires Safe(w) && t < |w.threads| && w.threads[t].Opening? && w.threads[t].gen != gen && w.threads[t].inFlight
    requires OnTrack(w, gen, r) && Unawaited(w, gen)
    ensures OnTrack(Open(w, t, ok), gen, r) && Unawaited(Open(w, t, ok), gen)
  {
    OtherSlot(w, t, gen, r);
    CommandsMore(w.log, Done(w.threads[t].gen), gen);
    OtherLanded(w, t, ok, gen);
    UntouchedOnTrack(w, Open(w, t, ok), gen, r);
  }

  lemma FirstEdgeOnTrack(w: World, t: nat, ok: bool, gen: nat, r: Rhythm)
    requires Safe(w) && t < |w.threads| && w.threads[t].Opening? && w.threads[t].gen == gen && !w.threads[t].inFlight
    requires OnTrack(w, gen, r) && Unawaited(w, gen)
    ensures OnTrack(Open(w, t, ok), gen, r) && Unawaited(Open(w, t, ok), gen)
  {
    assert RunInv(w, gen) && ThreadInv(w, t);
    var th := w.threads[t];
    CommandsMore(w.log, Begin(gen, th.first, false), gen);
  }

  /** The first edge has landed and the worker takes over. */
  lemma LandedOnTrack(w: World, t: nat, gen: nat, r: Rhythm)
    requires Safe(w) && t < |w.threads| && w.threads[t].Opening? && w.threads[t].gen == gen && w.threads[t].inFlight
    requires OnTrack(w, gen, r) && Unawaited(w, gen)
    ensures OnTrack(Open(w, t, true), gen, r) && Unawaited(Open(w, t, true), gen)
  {
    assert ThreadInv(w, t);
    CommandsMore(w.log, Done(gen), gen);
    Handover(w, t, gen);
  }

  lemma Handover(w: World, t: nat, gen: nat)
    requires Safe(w) && EdgeIsBack(w, t) && w.threads[t].gen == gen && !w.table[w.threads[t].slot].stopReq
    ensures var w', slot := Open(w, t, true), w.threads[t].slot;
      && w'.log == w.log + [Done(gen)] && w'.phases == w.phases[gen := Held(slot, |w.threads|)]
      && w'.threads == w.threads[t := Finished] + [Working(slot, gen)]
      && w'.table[slot].job == w.table[slot].job && !w'.table[slot].stopReq
  {
    assert ThreadInv(w, t) && RunInv(w, gen);
  }

  lemma OpenOnTrack(w: World, t: nat, limit: bool, ok: bool, gen: nat, r: Rhythm)
    requires Safe(w) && t < |w.threads| && w.threads[t].Opening?
    requires OnTrack(w, gen, r) && Unawaited(w, gen) && !Disturbs(w, Move(t, limit, ok), gen)
    ensures OnTrack(Open(w, t, ok), gen, r) && Unawaited(Open(w, t, ok), gen)
  {
    if w.threads[t].gen != gen {
      if w.threads[t].inFlight {
        OtherLandedOnTrack(w, t, ok, gen, r);
      } else {
        OtherEdgeOnTrack(w, t, ok, gen, r);
      }
    } else if !w.threads[t].inFlight {
      FirstEdgeOnTrack(w, t, ok, gen, r);
    } else {
      LandedOnTrack(w, t, gen, r);
    }
  }

  lemma OtherWorkOnTrack(w: World, t: nat, limit: bool, gen: nat, r: Rhythm)
    requires Safe(w) && t < |w.threads| && w.threads[t].Working? && w.threads[t].gen != gen
    requires OnTrack(w, gen, r) && Unawaited(w, gen)
    ensures OnTrack(Work(w, t, limit), gen, r) && Unawaited(Work(w, t, limit), gen)
  {
    assert RunInv(w, gen) && ThreadInv(w, t);
    var th := w.threads[t];
    var turn := WorkerTurn(w.table, th.slot, th.gen, limit).1;
    if turn.Act? {
      CommandsMore(w.log, Begin(th.gen, turn.command, turn.final), gen);
    }
    UntouchedOnTrack(w, Work(w, t, limit), gen, r);
  }

  predicate Turning(w: World, t: nat, gen: nat) {
    && t < |w.threads| && w.threads[t].Working? && w.threads[t].gen == gen
    && gen in w.phases && w.phases[gen] == Held(w.threads[t].slot, t)
  }

  /** The worker's own turn, while nobody asks the run to stop. */
  lemma OwnTurn(w: World, t: nat, gen: nat)
    requires Safe(w) && Turning(w, t, gen) && !w.table[w.threads[t].slot].stopReq
    ensures var w', slot, job := Work(w, t, false), w.threads[t].slot, w.table[w.threads[t].slot].job;
      && w'.log == w.log + [Begin(gen, Advance(job).command, Advance(job).final)]
      && w'.phases == w.phases[gen := Driven(slot, t)]
      && w'.threads == w.threads[t := Requesting(slot, gen, Advance(job).final)]
      && w'.table[slot].job == Advance(job).job && !w'.table[slot].stopReq
  {
    assert RunInv(w, gen);
  }

  /** Its command is the next one of the rhythm. */
  lemma NextOfRhythm(job: Job, log: seq<Event>, gen: nat, r: Rhythm)
    requires Keeps(r, job, Commands(log, gen))
    ensures var e := Advance(job);
      var done := Commands(log + [Begin(gen, e.command, e.final)], gen);
      if e.final then Complete(r, done) else Keeps(r, e.job, done)
  {
    var sent, e := Commands(log, gen), Advance(job);
    CommandsMore(log, Begin(gen, e.command, e.final), gen);
    match r
    case Endless(start) => SteadyMore(start, |sent| - 1);
    case Counted(_) =>
      AdvanceCounts(job);
      if e.final {
        assert Trace(job) == [e.command];
      } else {
        Associates(sent, [e.command], Trace(e.job));
      }
  }

  lemma OwnWorkOnTrack(w: World, t: nat, gen: nat, r: Rhythm)
    requires Safe(w) && Turning(w, t, gen)
    requires OnTrack(w, gen, r) && Unawaited(w, gen)
    ensures OnTrack(Work(w, t, false), gen, r) && Unawaited(Work(w, t, false), gen)
  {
    OwnTurn(w, t, gen);
    NextOfRhythm(w.table[w.threads[t].slot].job, w.log, gen, r);
  }

  lemma WorkOnTrack(w: World, t: nat, limit: bool, ok: bool, gen: nat, r: Rhythm)
    requires Safe(w) && t < |w.threads| && w.threads[t].Working?
    requires OnTrack(w, gen, r) && Unawaited(w, gen) && !Disturbs(w, Move(t, limit, ok), gen)
    ensures OnTrack(Work(w, t, limit), gen, r) && Unawaited(Work(w, t, limit), gen)
  {
    if w.threads[t].gen != gen {
      OtherWorkOnTrack(w, t, limit, gen, r);
    } else {
      assert ThreadInv(w, t);
      if w.phases[gen].Held? {
        OwnWorkOnTrack(w, t, gen, r);
      } else {
        OverWorkOnTrack(w, t, gen, r);
      }
    }
  }

  /** A worker whose run is over leaves. */
  lemma OverWorkOnTrack(w: World, t: nat, gen: nat, r: Rhythm)
    requires Safe(w) && t < |w.threads| && w.threads[t].Working? && w.threads[t].gen == gen
    requires OnTrack(w, gen, r) && Unawaited(w, gen) && w.phases[gen].Over?
    ensures OnTrack(Work(w, t, false), gen, r) && Unawaited(Work(w, t, false), gen)
  {
    assert SlotInv(w, w.threads[t].slot);
  }

  lemma OtherReturnOnTrack(w: World, t: nat, gen: nat, r: Rhythm)
    requires Safe(w) && t < |w.threads| && w.threads[t].Requesting? && w.threads[t].gen != gen
    requires OnTrack(w, gen, r) && Unawaited(w, gen)
    ensures OnTrack(Return(w, t), gen, r) && Unawaited(Return(w, t), gen)
  {
    assert RunInv(w, gen) && ThreadInv(w, t);
    assert RunInv(w, w.threads[t].gen);
    CommandsMore(w.log, Done(w.threads[t].gen), gen);
    UntouchedOnTrack(w, Return(w, t), gen, r);
  }

  lemma OwnReturnOnTrack(w: World, t: nat, gen: nat, r: Rhythm)
    requires Safe(w) && t < |w.threads| && w.threads[t].Requesting? && w.threads[t].gen == gen
    requires OnTrack(w, gen, r) && Unawaited(w, gen)
    ensures OnTrack(Return(w, t), gen, r) && Unawaited(Return(w, t), gen)
  {
    assert ThreadInv(w, t);
    CommandsMore(w.log, Done(gen), gen);
  }

  lemma ReturnOnTrack(w: World, t: nat, gen: nat, r: Rhythm)
    requires Safe(w) && t < |w.threads| && w.threads[t].Requesting?
    requires OnTrack(w, gen, r) && Unawaited(w, gen)
    ensures OnTrack(Return(w, t), gen, r) && Unawaited(Return(w, t), gen)
  {
    if w.threads[t].gen == gen {
      OwnReturnOnTrack(w, t, gen, r);
    } else {
      OtherReturnOnTrack(w, t, gen, r);
    }
  }

  lemma NextOnTrack(w: World, s: Step, gen: nat, r: Rhythm)
    requires Safe(w) && Next(w, s).started < GENERATIONS
    requires OnTrack(w, gen, r) && Unawaited(w, gen) && !Disturbs(w, s, gen)
    ensures OnTrack(Next(w, s), gen, r) && Unawaited(Next(w, s), gen)
  {
    match s
    case Fire(j) => if FreshJob(j) { FireOnTrack(w, j, gen, r); }
    case End(target) => UntouchedOnTrack(w, Next(w, s), gen, r);
    case Move(t, limit, ok) => if t < |w.threads| { MoveOnTrack(w, t, limit, ok, gen, r); }
  }

  lemma MoveOnTrack(w: World, t: nat, limit: bool, ok: bool, gen: nat, r: Rhythm)
    requires Safe(w) && t < |w.threads| && Moved(w, t, limit, ok).started < GENERATIONS
    requires OnTrack(w, gen, r) && Unawaited(w, gen) && !Disturbs(w, Move(t, limit, ok), gen)
    ensures OnTrack(Moved(w, t, limit, ok), gen, r) && Unawaited(Moved(w, t, limit, ok), gen)
  {
    match w.threads[t]
    case Scanning(_, _, _, _) => ScanOnTrack(w, t, limit, ok, gen, r);
    case Waiting(_, _, _, _, _) => WakeOnTrack(w, t, gen, r);
    case Sending(_, _, _) => SendOffOnTrack(w, t, gen, r);
    case Opening(_, _, _, _) => OpenOnTrack(w, t, limit, ok, gen, r);
    case Working(_, _) => WorkOnTrack(w, t, limit, ok, gen, r);
    case Requesting(_, _, _) => ReturnOnTrack(w, t, gen, r);
    case Finished =>
  }

  // ----- From its start -----

  /** Nothing has been sent, and nobody waits, for a run that has not started. */
  ghost predicate Unborn(w: World) {
    forall g: nat | g > w.started :: Commands(w.log, g) == [] && Unawaited(w, g)
  }

  /** What a step logs is about a started run. */
  lemma LogsStarted(w: World, s: Step)
    requires Safe(w)
    ensures Next(w, s).log == w.log || exists e: Event :: Next(w, s).log == w.log + [e] && e.gen <= w.started
  {
    if s.Move? && s.t < |w.threads| {
      var th := w.threads[s.t];
      assert ThreadInv(w, s.t);
      if th.Sending? && th.owed != [] {
        assert th.owed[0] in w.phases;
        var e := if th.inFlight then Done(th.owed[0]) else Begin(th.owed[0], Dark, true);
        assert Next(w, s).log == w.log + [e];
      } else if th.Opening? {
        var e := if th.inFlight then Done(th.gen) else Begin(th.gen, th.first, false);
        assert Next(w, s).log == w.log + [e];
      } else if th.Working? {
        var turn := WorkerTurn(w.table, th.slot, th.gen, s.limit).1;
        if turn.Act? {
          assert Next(w, s).log == w.log + [Begin(th.gen, turn.command, turn.final)];
        }
      } else if th.Requesting? {
        assert Next(w, s).log == w.log + [Done(th.gen)];
      }
    }
  }

  lemma NextUnsent(w: World, s: Step, g: nat)
    requires Safe(w) && Unborn(w) && g > Next(w, s).started
    ensures Commands(Next(w, s).log, g) == []
  {
    LogsStarted(w, s);
    StartedGrows(w, s);
    assert Commands(w.log, g) == [];
    if e: Event :| Next(w, s).log == w.log + [e] && e.gen <= w.started {
      CommandsMore(w.log, e, g);
    }
  }

  /** A thread only comes to wait for a run that is in the table. */
  lemma WaitsForStarted(w: World, t: nat, limit: bool, ok: bool)
    requires Safe(w) && t < |w.threads|
    ensures var w' := Moved(w, t, limit, ok);
      && |w.threads| <= |w'.threads| && (forall k | 0 <= k < |w.threads| && k != t :: w'.threads[k] == w.threads[k])
      && (forall k | |w.threads| <= k < |w'.threads| :: !w'.threads[k].Waiting?)
      && (w'.threads[t].Waiting? ==> w'.threads[t] == w.threads[t] || w'.threads[t].awaited <= w.started)
  {
    if w.threads[t].Scanning? && w.threads[t].at < MAX_RUNS {
      assert SlotInv(w, w.threads[t].at);
    }
  }

  lemma NextUnawaited(w: World, s: Step, g: nat)
    requires Safe(w) && Unborn(w) && g > Next(w, s).started && Next(w, s).started >= w.started
    ensures Unawaited(Next(w, s), g)
  {
    assert Unawaited(w, g);
    if s.Move? && s.t < |w.threads| {
      WaitsForStarted(w, s.t, s.limit, s.ok);
    }
  }

  lemma NextUnborn(w: World, s: Step)
    requires Safe(w) && Unborn(w)
    ensures Unborn(Next(w, s))
  {
    StartedGrows(w, s);
    forall g: nat | g > Next(w, s).started ensures Commands(Next(w, s).log, g) == [] && Unawaited(Next(w, s), g) {
      NextUnsent(w, s, g);
      NextUnawaited(w, s, g);
    }
  }

  /** A start puts its run on track. */
  lemma StartOnTrack(w: World, t: nat)
    requires Safe(w) && Unborn(w) && t < |w.threads| && w.threads[t].Scanning? && w.threads[t].goal.StartJob?
    requires Scan(w, t).started == w.started + 1 < GENERATIONS
    requires Counting(w.threads[t].goal.job) || Uncounted(w.threads[t].goal.job)
    ensures var w' := Scan(w, t);
      OnTrack(w', w'.started, RhythmOf(w.threads[t].goal.job)) && Unawaited(w', w'.started)
  {
    var gen := w.started + 1;
    var job := w.threads[t].goal.job;
    var first := job.(idx := 0, lit := true);
    assert Commands(w.log, gen) == [] && Unawaited(w, gen);
    assert [] + [Shine(first)] == [Shine(first)];
  }

  lemma {:induction false} UnbornAlways(steps: seq<Step>)
    requires Exec(steps).started < GENERATIONS
    ensures Unborn(Exec(steps))
  {
    if steps != [] {
      ExecStep(steps);
      UnbornAlways(Front(steps));
      RunSafe(Front(steps));
      NextUnborn(Exec(Front(steps)), Last(steps));
    }
  }

  lemma {:induction false} StaysOnTrack(steps: seq<Step>, gen: nat)
    requires Exec(steps).started < GENERATIONS && Undisturbed(steps, gen)
    requires JobOf(steps, gen).Some?
    requires Counting(JobOf(steps, gen).value) || Uncounted(JobOf(steps, gen).value)
    ensures OnTrack(Exec(steps), gen, RhythmOf(JobOf(steps, gen).value)) && Unawaited(Exec(steps), gen)
  {
    var front, s := Front(steps), Last(steps);
    var w := Exec(front);
    ExecStep(steps);
    RunSafe(front);
    UnbornAlways(front);
    UndisturbedFront(steps, gen);
    if !Starts(w, s, gen) {
      StaysOnTrack(front, gen);
    }
    StepOnTrack(w, s, gen, JobOf(steps, gen).value);
  }

  lemma StepOnTrack(w: World, s: Step, gen: nat, job: Job)
    requires Safe(w) && Unborn(w) && Next(w, s).started < GENERATIONS && (Counting(job) || Uncounted(job))
    requires Starts(w, s, gen) ==> w.threads[s.t].goal.job == job
    requires !Starts(w, s, gen) ==> OnTrack(w, gen, RhythmOf(job)) && Unawaited(w, gen) && !Disturbs(w, s, gen)
    ensures OnTrack(Next(w, s), gen, RhythmOf(job)) && Unawaited(Next(w, s), gen)
  {
    if Starts(w, s, gen) {
      StartOnTrack(w, s.t);
    } else {
      NextOnTrack(w, s, gen, RhythmOf(job));
    }
  }

  lemma UndisturbedFront(steps: seq<Step>, gen: nat)
    requires steps != [] && Undisturbed(steps, gen)
    ensures Undisturbed(Front(steps), gen) && !Disturbs(Exec(Front(steps)), Last(steps), gen)
  {
    var front := Front(steps);
    forall i | 0 <= i < |front| ensures !Disturbs(Exec(front[..i]), front[i], gen) {
      assert front[..i] == steps[..i] && front[i] == steps[i];
    }
    assert steps[..|front|] == front && !Disturbs(Exec(steps[..|front|]), steps[|front|], gen);
  }

  /** However starters, enders and workers interleave: the requests sent for a
      counted flash that is not refreshed, not asked to stop, within its limit and
      lands its first request are the front of its rhythm, and all of it once the
      run has left the table. */
  lemma FlashKeepsItsRhythm(steps: seq<Step>, gen: nat)
    requires Exec(steps).started < GENERATIONS && Undisturbed(steps, gen)
    requires JobOf(steps, gen).Some? && Counting(JobOf(steps, gen).value)
    ensures var w, sent, run := Exec(steps), Commands(Exec(steps).log, gen), Run(JobOf(steps, gen).value);
      && sent <= run
      && ((forall i | 0 <= i < MAX_RUNS :: !(w.table[i].used && w.table[i].gen == gen)) ==> sent == run)
  {
    StaysOnTrack(steps, gen);
    RunSafe(steps);
    assert RunInv(Exec(steps), gen);
  }

  /** A flash without a count that nothing disturbs stays in the table, and its
      requests go round and round. */
  lemma EndlessFlashGoesRound(steps: seq<Step>, gen: nat)
    requires Exec(steps).started < GENERATIONS && Undisturbed(steps, gen)
    requires JobOf(steps, gen).Some? && Uncounted(JobOf(steps, gen).value)
    ensures var w, sent, j := Exec(steps), Commands(Exec(steps).log, gen), JobOf(steps, gen).value;
      && (forall k | 0 <= k < |sent| :: sent[k] == EndlessAt(j, k))
      && exists i :: 0 <= i < MAX_RUNS && w.table[i].used && w.table[i].gen == gen
  {
    StaysOnTrack(steps, gen);
    RunSafe(steps);
    var w, sent, j := Exec(steps), Commands(Exec(steps).log, gen), JobOf(steps, gen).value;
    assert RunInv(w, gen) && w.table[w.phases[gen].slot].used;
    forall k | 0 <= k < |sent| ensures sent[k] == EndlessAt(j, k) {
      SentIsSteady(w, gen, j);
      SteadyIs(j, |sent|, k);
    }
  }

  lemma SentIsSteady(w: World, gen: nat, j: Job)
    requires Safe(w) && Uncounted(j) && OnTrack(w, gen, Endless(j)) && Commands(w.log, gen) != []
    ensures Commands(w.log, gen) == Steady(j, |Commands(w.log, gen)|)
  {
    var sent, job := Commands(w.log, gen), w.table[w.phases[gen].slot].job;
    if Keeps(Endless(j), job, sent + [Shine(job)]) {
      FrontIsSteady(j, job, sent, Shine(job));
    }
  }

  lemma FrontIsSteady(j: Job, job: Job, sent: seq<Command>, c: Command)
    requires Keeps(Endless(j), job, sent + [c])
    ensures sent == Steady(j, |sent|)
  {
    FrontLast(sent, c);
    FrontLast(Steady(j, |sent|), Last(Steady(j, |sent| + 1)));
  }

  /** So a sequence flash that has left the table has lit its ports in order, each
      as often as its count says. */
  lemma SequenceIsSent(steps: seq<Step>, gen: nat)
    requires Exec(steps).started < GENERATIONS && Undisturbed(steps, gen)
    requires JobOf(steps, gen).Some? && Counting(JobOf(steps, gen).value) && !JobOf(steps, gen).value.together
    requires forall i | 0 <= i < MAX_RUNS :: !(Exec(steps).table[i].used && Exec(steps).table[i].gen == gen)
    ensures var j, sent := JobOf(steps, gen).value, Commands(Exec(steps).log, gen);
      var n := |j.ports|;
      && sent != [] && Last(sent) == Dark
      && Lit(sent) == seq(j.cyclesLeft * n, i requires 0 <= i => i % n)
      && forall p: nat | p < n :: multiset(Lit(sent))[p] == j.cyclesLeft
  {
    FlashKeepsItsRhythm(steps, gen);
    SequenceFlash(JobOf(steps, gen).value);
  }

  /** And at no moment of any of its requests are two of its ports lit. */
  lemma SentNeverTwoLit(steps: seq<Step>, gen: nat, i: nat, k: nat)
    requires Exec(steps).started < GENERATIONS && Undisturbed(steps, gen)
    requires JobOf(steps, gen).Some? && Counting(JobOf(steps, gen).value) && !JobOf(steps, gen).value.together
    requires var n, sent := |JobOf(steps, gen).value.ports|, Commands(Exec(steps).log, gen);
      i < |sent| && k <= |Body(n, sent[i])|
    ensures var n, sent := |JobOf(steps, gen).value.ports|, Commands(Exec(steps).log, gen);
      |Switch(LitAfter(n, sent[..i]), Body(n, sent[i])[..k])| <= 1
  {
    FlashKeepsItsRhythm(steps, gen);
    var j, sent := JobOf(steps, gen).value, Commands(Exec(steps).log, gen);
    assert sent[..i] == Run(j)[..i] && sent[i] == Run(j)[i];
    RunNeverTwoLit(j, i, k);
  }

  /** A together flash that has left the table was on exactly as often as its count
      says when it has gaps, and once without a break when it has none. */
  lemma TogetherIsSent(steps: seq<Step>, gen: nat)
    requires Exec(steps).started < GENERATIONS && Undisturbed(steps, gen)
    requires JobOf(steps, gen).Some? && Counting(JobOf(steps, gen).value) && JobOf(steps, gen).value.together
    requires forall i | 0 <= i < MAX_RUNS :: !(Exec(steps).table[i].used && Exec(steps).table[i].gen == gen)
    ensures var j, sent := JobOf(steps, gen).value, Commands(Exec(steps).log, gen);
      && sent != [] && Last(sent) == Dark
      && OnPeriods(sent, false) == if j.offMs > 0 then j.cyclesLeft else 1
  {
    FlashKeepsItsRhythm(steps, gen);
    TogetherFlash(JobOf(steps, gen).value);
  }
}
