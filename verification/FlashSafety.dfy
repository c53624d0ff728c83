/** What holds in every reachable state of the io_flash protocol, with fewer
    starts than there are generation numbers. */
module FlashSafety {
  import opened Prelude
  import opened FlashTable
  import opened FlashProtocol

  // ----- One run's requests -----

  /** How far the requests of one run have come: none in flight, one in flight
      (the closing one or another), closed by its all-off, or out of order. */
  datatype Status = Quiet | InFlight(final: bool) | Closed | Broken

  function Observe(s: Status, e: Event, gen: nat): Status {
    if e.gen != gen then s
    else match s
      case Quiet => if e.Begin? then InFlight(e.final) else Broken
      case InFlight(final) => if e.Begin? then Broken else if final then Closed else Quiet
      case Closed => Broken
      case Broken => Broken
  }

  function StatusOf(log: seq<Event>, gen: nat): Status {
    if log == [] then Quiet else Observe(StatusOf(Front(log), gen), Last(log), gen)
  }

  lemma Logged(log: seq<Event>, e: Event, gen: nat)
    ensures StatusOf(log + [e], gen) == Observe(StatusOf(log, gen), e, gen)
  {
    FrontLast(log, e);
  }

  // ----- Invariant -----

  predicate Owes(th: Thread, gen: nat) {
    (th.Scanning? || th.Waiting? || th.Sending?) && gen in th.owed
  }

  predicate Drives(th: Thread, slot: nat, gen: nat) {
    || (th.Sending? && th.after.OpenRun? && th.after.slot == slot && th.after.gen == gen)
    || (th.Opening? && th.slot == slot && th.gen == gen)
    || (th.Requesting? && th.slot == slot && th.gen == gen)
  }

  /** The request a driving thread has under way for its run. */
  function DriverStatus(th: Thread): Status {
    match th
    case Opening(_, _, _, true) => InFlight(false)
    case Requesting(_, _, final) => InFlight(final)
    case _ => Quiet
  }

  function OwerStatus(th: Thread, gen: nat): Status {
    if th.Sending? && th.inFlight && th.owed != [] && th.owed[0] == gen then InFlight(true) else Quiet
  }

  predicate SlotInv(w: World, i: nat)
    requires i < MAX_RUNS
  {
    var s := w.table[i];
    s.used ==>
      && s.gen in w.phases
      && (if s.busy then w.phases[s.gen].Driven? else w.phases[s.gen].Held?)
      && w.phases[s.gen].slot == i
  }

  predicate RunInv(w: World, gen: nat)
    requires gen in w.phases
  {
    match w.phases[gen]
    case Held(i, _) =>
      i < MAX_RUNS && w.table[i].used && w.table[i].gen == gen && !w.table[i].busy && StatusOf(w.log, gen) == Quiet
    case Driven(i, t) =>
      && i < MAX_RUNS && w.table[i].used && w.table[i].gen == gen && w.table[i].busy
      && t < |w.threads| && Drives(w.threads[t], i, gen) && StatusOf(w.log, gen) == DriverStatus(w.threads[t])
    case Owed(t) => t < |w.threads| && Owes(w.threads[t], gen) && StatusOf(w.log, gen) == OwerStatus(w.threads[t], gen)
    case Over => StatusOf(w.log, gen) == Closed
  }

  predicate Ended(p: Phase) {
    p.Owed? || p.Over?
  }

  predicate ThreadInv(w: World, t: nat)
    requires t < |w.threads|
  {
    var th := w.threads[t];
    && (th.Scanning? || th.Waiting? || th.Sending? ==>
          && Distinct(th.owed)
          && forall g | g in th.owed :: g in w.phases && w.phases[g] == Owed(t))
    && (th.Sending? && th.inFlight ==> th.owed != [])
    && (th.Sending? && th.after.OpenRun? ==>
          th.after.gen in w.phases && w.phases[th.after.gen] == Driven(th.after.slot, t))
    && (th.Opening? || th.Requesting? ==> th.gen in w.phases && w.phases[th.gen] == Driven(th.slot, t))
    && (th.Working? ==> th.gen in w.phases && (w.phases[th.gen] == Held(th.slot, t) || Ended(w.phases[th.gen])))
  }

  ghost predicate Safe(w: World) {
    && InRange(w)
    && (forall g | g in w.phases :: 1 <= g <= w.started && RunInv(w, g))
    && (forall g | 1 <= g <= w.started :: g in w.phases)
    && (forall g: nat | g > w.started || g == 0 :: StatusOf(w.log, g) == Quiet)
    && (forall i | 0 <= i < MAX_RUNS :: SlotInv(w, i))
    && (forall t | 0 <= t < |w.threads| :: ThreadInv(w, t))
  }

  // ----- Every step keeps it -----

  /** A step of thread t that answers for run gen in slot i touches nothing else:
      not the other threads, slots and runs, nor how t stands to other runs. */
  ghost predicate Local(w: World, w': World, t: nat, i: nat, gen: nat) {
    && |w.threads| <= |w'.threads| && i < MAX_RUNS
    && (forall k | 0 <= k < |w.threads| && k != t :: w'.threads[k] == w.threads[k])
    && (forall k | 0 <= k < MAX_RUNS && k != i :: w'.table[k] == w.table[k])
    && (forall g | g != gen :: (g in w'.phases <==> g in w.phases) && (g in w.phases ==> w'.phases[g] == w.phases[g]))
    && (forall g: nat | g != gen :: StatusOf(w'.log, g) == StatusOf(w.log, g))
    && (w.table[i].used && w.table[i].gen != gen ==>
          w'.table[i].used && w'.table[i].gen == w.table[i].gen && w'.table[i].busy == w.table[i].busy)
    && (t < |w.threads| ==> forall g: nat | g != gen :: SameStanding(w.threads[t], w'.threads[t], g))
    && (gen in w.phases ==> match w.phases[gen]
          case Held(s, k) => s == i && gen in w'.phases && (k == t || Ended(w'.phases[gen]))
          case Driven(s, k) => s == i && k == t
          case Owed(k) => k == t && gen in w'.phases && Ended(w'.phases[gen])
          case Over => false)
  }

  ghost predicate SameStanding(th: Thread, th': Thread, g: nat) {
    && (Owes(th, g) ==> Owes(th', g) && OwerStatus(th', g) == OwerStatus(th, g))
    && forall s: nat | Drives(th, s, g) :: Drives(th', s, g) && DriverStatus(th') == DriverStatus(th)
  }

  lemma OtherRunsKeep(w: World, w': World, t: nat, i: nat, gen: nat)
    requires Safe(w) && Local(w, w', t, i, gen)
    ensures forall g | g in w'.phases && g != gen :: RunInv(w', g)
  {
    forall g | g in w'.phases && g != gen ensures RunInv(w', g) {
      assert RunInv(w, g);
      if t < |w.threads| {
        assert SameStanding(w.threads[t], w'.threads[t], g);
      }
    }
  }

  /** What is left to show for a local step: its own run, slot and threads. */
  lemma LocalKeeps(w: World, w': World, t: nat, i: nat, gen: nat)
    requires Safe(w) && InRange(w') && Local(w, w', t, i, gen)
    requires forall g | 1 <= g <= w'.started :: g in w'.phases
    requires w.started <= w'.started && (gen in w'.phases ==> 1 <= gen <= w'.started && RunInv(w', gen))
    requires gen == 0 || gen in w'.phases
    requires StatusOf(w'.log, 0) == Quiet
    requires SlotInv(w', i)
    requires forall k | 0 <= k < |w'.threads| && (k == t || k >= |w.threads|) :: ThreadInv(w', k)
    ensures Safe(w')
  {
    OtherRunsKeep(w, w', t, i, gen);
    forall k | 0 <= k < MAX_RUNS ensures SlotInv(w', k) {
      assert SlotInv(w, k);
    }
    forall k | 0 <= k < |w'.threads| ensures ThreadInv(w', k) {
      if k < |w.threads| {
        assert ThreadInv(w, k);
      }
    }
  }

  /** The log grew by an event of run gen, or not at all. */
  lemma LogLocal(w: World, w': World, gen: nat)
    requires w'.log == w.log || exists e: Event :: e.gen == gen && w'.log == w.log + [e]
    ensures forall g: nat | g != gen :: StatusOf(w'.log, g) == StatusOf(w.log, g)
    ensures w'.log != w.log ==> StatusOf(w'.log, gen) == Observe(StatusOf(w.log, gen), Last(w'.log), gen)
  {
    if w'.log != w.log {
      var e: Event :| e.gen == gen && w'.log == w.log + [e];
      forall g: nat ensures StatusOf(w'.log, g) == Observe(StatusOf(w.log, g), e, g) {
        Logged(w.log, e, g);
      }
    }
  }

  lemma FireKeeps(w: World, j: Job)
    requires Safe(w) && FreshJob(j)
    ensures Safe(Fired(w, j))
  {
    var w' := Fired(w, j);
    var m := FirstMatch(w.table, j, 0);
    var i := if m.Some? then m.value else 0;
    assert SlotInv(w, i);
    LocalKeeps(w, w', |w.threads|, i, 0);
  }

  lemma EndKeeps(w: World, target: Target)
    requires Safe(w)
    ensures Safe(Next(w, End(target)))
  {
    assert SlotInv(w, 0);
    LocalKeeps(w, Next(w, End(target)), |w.threads|, 0, 0);
  }

  predicate Claiming(w: World, t: nat) {
    && t < |w.threads| && w.threads[t].Scanning? && w.threads[t].at == MAX_RUNS
    && w.threads[t].goal.StartJob? && FirstFree(w.table, 0).Some?
  }

  lemma ClaimLocal(w: World, t: nat)
    requires Safe(w) && Claiming(w, t) && w.started + 1 < GENERATIONS
    ensures Local(w, Claim(w, t), t, FirstFree(w.table, 0).value, w.started + 1)
  {
    assert ThreadInv(w, t);
    var w', gen := Claim(w, t), w.started + 1;
    assert gen !in w.phases;
    forall g: nat | g != gen ensures SameStanding(w.threads[t], w'.threads[t], g) {
      ClaimStanding(w, t, g);
    }
  }

  lemma ClaimStanding(w: World, t: nat, g: nat)
    requires Safe(w) && Claiming(w, t) && w.started + 1 < GENERATIONS && g != w.started + 1
    ensures SameStanding(w.threads[t], Claim(w, t).threads[t], g)
  {
  }

  lemma ClaimKeeps(w: World, t: nat)
    requires Safe(w) && Claiming(w, t) && w.started + 1 < GENERATIONS
    ensures Safe(Scan(w, t))
  {
    ClaimLocal(w, t);
    assert ThreadInv(w, t);
    LocalKeeps(w, Claim(w, t), t, FirstFree(w.table, 0).value, w.started + 1);
  }

  /** A step that changes no run's phase: thread t gets ahead, and at most a stop
      is asked for in slot i. */
  lemma QuietKeeps(w: World, w': World, t: nat, i: nat)
    requires Safe(w) && InRange(w') && t < |w.threads| && i < MAX_RUNS
    requires |w'.threads| == |w.threads| && w' == w.(table := w'.table, threads := w.threads[t := w'.threads[t]])
    requires w'.table == w.table[i := w.table[i].(stopReq := w'.table[i].stopReq)]
    requires forall g: nat :: SameStanding(w.threads[t], w'.threads[t], g)
    requires ThreadInv(w', t)
    ensures Safe(w')
  {
    assert SlotInv(w, i);
    LocalKeeps(w, w', t, i, 0);
  }

  lemma ScanPastKeeps(w: World, t: nat)
    requires Safe(w) && t < |w.threads| && w.threads[t].Scanning? && w.threads[t].at < MAX_RUNS
    ensures Safe(Scan(w, t))
  {
    var th := w.threads[t];
    var w' := Scan(w, t);
    assert ThreadInv(w, t);
    assert forall g: nat :: SameStanding(th, w'.threads[t], g);
    assert w' == w.(table := w'.table, threads := w.threads[t := w'.threads[t]]);
    QuietKeeps(w, w', t, th.at);
  }

  lemma ScanDoneKeeps(w: World, t: nat)
    requires Safe(w) && t < |w.threads| && w.threads[t].Scanning? && w.threads[t].at == MAX_RUNS
    requires w.threads[t].goal.JustEnd? || FirstFree(w.table, 0).None?
    ensures Safe(Scan(w, t))
  {
    var th := w.threads[t];
    var w' := Scan(w, t);
    assert ThreadInv(w, t);
    assert w' == WithThread(w, t, Sending(th.owed, false, Finish));
    assert forall g: nat :: SameStanding(th, w'.threads[t], g);
    QuietKeeps(w, w', t, 0);
  }

  lemma ScanKeeps(w: World, t: nat)
    requires Safe(w) && t < |w.threads| && w.threads[t].Scanning? && Scan(w, t).started < GENERATIONS
    ensures Safe(Scan(w, t))
  {
    var th := w.threads[t];
    assert ThreadInRange(th);
    if th.at < MAX_RUNS {
      ScanPastKeeps(w, t);
    } else if th.goal.JustEnd? || FirstFree(w.table, 0).None? {
      ScanDoneKeeps(w, t);
    } else {
      ClaimKeeps(w, t);
    }
  }

  predicate Freeing(w: World, t: nat) {
    t < |w.threads| && w.threads[t].Waiting? && w.threads[t].at < MAX_RUNS &&
    EndTry(w.table, w.threads[t].at, w.threads[t].awaited).1.Freed?
  }

  lemma FreeLocal(w: World, t: nat)
    requires Safe(w) && Freeing(w, t)
    ensures Local(w, Wake(w, t), t, w.threads[t].at, w.threads[t].awaited)
    ensures w.threads[t].awaited in w.phases && w.phases[w.threads[t].awaited].Held?
    ensures w.threads[t].awaited !in w.threads[t].owed
  {
    var th := w.threads[t];
    var i, gen := th.at, th.awaited;
    assert ThreadInv(w, t) && SlotInv(w, i) && RunInv(w, gen);
    assert Wake(w, t).threads == w.threads[t := Scanning(th.target, th.goal, i + 1, th.owed + [gen])];
    assert gen !in th.owed;
  }

  /** The wait is over and the ender frees the slot: it owes the run's all-off. */
  lemma FreeKeeps(w: World, t: nat)
    requires Safe(w) && Freeing(w, t)
    ensures Safe(Wake(w, t))
  {
    var th := w.threads[t];
    FreeLocal(w, t);
    assert ThreadInv(w, t) && RunInv(w, th.awaited);
    LocalKeeps(w, Wake(w, t), t, th.at, th.awaited);
  }

  lemma WakeKeeps(w: World, t: nat)
    requires Safe(w) && t < |w.threads| && w.threads[t].Waiting?
    ensures Safe(Wake(w, t))
  {
    var th := w.threads[t];
    match EndTry(w.table, th.at, th.awaited).1
    case Freed => FreeKeeps(w, t);
    case AlreadyOver =>
      assert ThreadInv(w, t);
      QuietKeeps(w, Wake(w, t), t, th.at);
    case Blocked =>
  }

  lemma OffBeginsKeeps(w: World, t: nat)
    requires Safe(w) && t < |w.threads| && w.threads[t].Sending? && w.threads[t].owed != [] && !w.threads[t].inFlight
    ensures Safe(SendOff(w, t))
  {
    var w' := SendOff(w, t);
    var th := w.threads[t];
    var gen := th.owed[0];
    assert ThreadInv(w, t) && SlotInv(w, 0) && RunInv(w, gen);
    LogLocal(w, w', gen);
    assert Local(w, w', t, 0, gen);
    LocalKeeps(w, w', t, 0, gen);
  }

  lemma OffReturnsLocal(w: World, t: nat)
    requires Safe(w) && t < |w.threads| && w.threads[t].Sending? && w.threads[t].owed != [] && w.threads[t].inFlight
    ensures Local(w, SendOff(w, t), t, 0, w.threads[t].owed[0])
  {
    var w' := SendOff(w, t);
    var th := w.threads[t];
    var gen, rest := th.owed[0], th.owed[1..];
    assert ThreadInv(w, t) && RunInv(w, gen);
    LogLocal(w, w', gen);
    forall g: nat | g != gen ensures SameStanding(th, w'.threads[t], g) {
      assert th.owed == [gen] + rest;
      assert g in th.owed ==> g in rest;
    }
  }

  lemma DistinctRest(owed: seq<nat>)
    requires Distinct(owed) && owed != []
    ensures Distinct(owed[1..]) && owed[0] !in owed[1..]
    ensures forall g | g in owed[1..] :: g in owed
  {
    assert forall a | 0 <= a < |owed[1..]| :: owed[1..][a] == owed[a + 1];
  }

  lemma OffReturnsKeeps(w: World, t: nat)
    requires Safe(w) && t < |w.threads| && w.threads[t].Sending? && w.threads[t].owed != [] && w.threads[t].inFlight
    ensures Safe(SendOff(w, t))
  {
    var w' := SendOff(w, t);
    var gen := w.threads[t].owed[0];
    OffReturnsLocal(w, t);
    assert ThreadInv(w, t) && SlotInv(w, 0) && RunInv(w, gen);
    DistinctRest(w.threads[t].owed);
    Logged(w.log, Done(gen), gen);
    assert ThreadInv(w', t);
    LocalKeeps(w, w', t, 0, gen);
  }

  lemma SendOffKeeps(w: World, t: nat)
    requires Safe(w) && t < |w.threads| && w.threads[t].Sending?
    ensures Safe(SendOff(w, t))
  {
    var th := w.threads[t];
    if th.owed == [] {
      assert ThreadInv(w, t);
      QuietKeeps(w, SendOff(w, t), t, 0);
    } else if th.inFlight {
      OffReturnsKeeps(w, t);
    } else {
      OffBeginsKeeps(w, t);
    }
  }

  lemma FirstEdgeLocal(w: World, t: nat, ok: bool)
    requires Safe(w) && t < |w.threads| && w.threads[t].Opening? && !w.threads[t].inFlight
    ensures Local(w, Open(w, t, ok), t, w.threads[t].slot, w.threads[t].gen)
    ensures StatusOf(Open(w, t, ok).log, 0) == Quiet
  {
    var w', th := Open(w, t, ok), w.threads[t];
    assert ThreadInv(w, t) && RunInv(w, th.gen);
    LogLocal(w, w', th.gen);
  }

  lemma FirstEdgeOwn(w: World, t: nat, ok: bool)
    requires Safe(w) && t < |w.threads| && w.threads[t].Opening? && !w.threads[t].inFlight
    ensures var w', th := Open(w, t, ok), w.threads[t];
      && th.gen in w'.phases && 1 <= th.gen <= w'.started && RunInv(w', th.gen)
      && SlotInv(w', th.slot) && ThreadInv(w', t)
  {
    var th := w.threads[t];
    assert ThreadInv(w, t) && RunInv(w, th.gen) && SlotInv(w, th.slot);
    Logged(w.log, Begin(th.gen, th.first, false), th.gen);
  }

  lemma FirstEdgeBeginsKeeps(w: World, t: nat, ok: bool)
    requires Safe(w) && t < |w.threads| && w.threads[t].Opening? && !w.threads[t].inFlight
    ensures Safe(Open(w, t, ok))
  {
    FirstEdgeLocal(w, t, ok);
    FirstEdgeOwn(w, t, ok);
    LocalKeeps(w, Open(w, t, ok), t, w.threads[t].slot, w.threads[t].gen);
  }

  predicate EdgeIsBack(w: World, t: nat) {
    t < |w.threads| && w.threads[t].Opening? && w.threads[t].inFlight && w.threads[t].slot < MAX_RUNS
  }

  /** The first edge landed, but somebody asked the run to stop. */
  lemma LandStoppedKeeps(w: World, t: nat, ok: bool)
    requires Safe(w) && EdgeIsBack(w, t)
    requires w.table[w.threads[t].slot].stopReq
    ensures Safe(Open(w, t, ok))
  {
    var w' := Open(w, t, ok);
    var th := w.threads[t];
    var s := w.table[th.slot];
    assert ThreadInv(w, t) && RunInv(w, th.gen) && SlotInv(w, th.slot);
    assert w'.log == w.log + [Done(th.gen)];
    LogLocal(w, w', th.gen);
    assert w'.table == w.table[th.slot := s.(busy := false)];
    assert w'.threads == w.threads[t := Finished];
    assert Local(w, w', t, th.slot, th.gen);
    LocalKeeps(w, w', t, th.slot, th.gen);
  }

  lemma LandStartedLocal(w: World, t: nat)
    requires Safe(w) && EdgeIsBack(w, t) && !w.table[w.threads[t].slot].stopReq
    ensures Local(w, Open(w, t, true), t, w.threads[t].slot, w.threads[t].gen)
  {
    var w' := Open(w, t, true);
    var th := w.threads[t];
    assert ThreadInv(w, t) && RunInv(w, th.gen);
    assert w'.log == w.log + [Done(th.gen)];
    LogLocal(w, w', th.gen);
    assert w'.threads == w.threads[t := Finished] + [Working(th.slot, th.gen)];
  }

  /** The first edge landed and a worker takes the run over. */
  lemma LandStartedKeeps(w: World, t: nat)
    requires Safe(w) && EdgeIsBack(w, t) && !w.table[w.threads[t].slot].stopReq
    ensures Safe(Open(w, t, true))
  {
    var w' := Open(w, t, true);
    var th := w.threads[t];
    LandStartedLocal(w, t);
    assert ThreadInv(w, t) && RunInv(w, th.gen) && SlotInv(w, th.slot);
    Logged(w.log, Done(th.gen), th.gen);
    assert w'.table == w.table[th.slot := w.table[th.slot].(busy := false)];
    LocalKeeps(w, w', t, th.slot, th.gen);
  }

  lemma LandFailedLocal(w: World, t: nat, ok: bool)
    requires Safe(w) && EdgeIsBack(w, t)
    requires !w.table[w.threads[t].slot].stopReq && !ok
    ensures Local(w, Open(w, t, ok), t, w.threads[t].slot, w.threads[t].gen)
  {
    var w' := Open(w, t, ok);
    var th := w.threads[t];
    assert ThreadInv(w, t) && RunInv(w, th.gen);
    assert w'.log == w.log + [Done(th.gen)];
    LogLocal(w, w', th.gen);
    assert w'.table == w.table[th.slot := w.table[th.slot].(busy := false, used := false)];
    assert w'.threads == w.threads[t := Sending([th.gen], false, Finish)];
  }

  /** The first edge failed: the starter ends its own run. */
  lemma LandFailedKeeps(w: World, t: nat, ok: bool)
    requires Safe(w) && EdgeIsBack(w, t)
    requires !w.table[w.threads[t].slot].stopReq && !ok
    ensures Safe(Open(w, t, ok))
  {
    var th := w.threads[t];
    LandFailedLocal(w, t, ok);
    assert ThreadInv(w, t) && RunInv(w, th.gen) && SlotInv(w, th.slot);
    Logged(w.log, Done(th.gen), th.gen);
    LocalKeeps(w, Open(w, t, ok), t, th.slot, th.gen);
  }

  lemma TurnLocal(w: World, t: nat, limit: bool)
    requires Safe(w) && t < |w.threads| && w.threads[t].Working?
    requires WorkerTurn(w.table, w.threads[t].slot, w.threads[t].gen, limit).1.Act?
    ensures Local(w, Work(w, t, limit), t, w.threads[t].slot, w.threads[t].gen)
    ensures var th, s := w.threads[t], Work(w, t, limit).table[w.threads[t].slot];
      s.used && s.busy && s.gen == th.gen && th.gen in w.phases && w.phases[th.gen] == Held(th.slot, t)
  {
    var w' := Work(w, t, limit);
    var th := w.threads[t];
    var turn := WorkerTurn(w.table, th.slot, th.gen, limit).1;
    assert ThreadInv(w, t) && SlotInv(w, th.slot) && RunInv(w, th.gen);
    assert w'.threads == w.threads[t := Requesting(th.slot, th.gen, turn.final)];
    assert w'.log == w.log + [Begin(th.gen, turn.command, turn.final)];
    LogLocal(w, w', th.gen);
  }

  lemma TurnKeeps(w: World, t: nat, limit: bool)
    requires Safe(w) && t < |w.threads| && w.threads[t].Working?
    requires WorkerTurn(w.table, w.threads[t].slot, w.threads[t].gen, limit).1.Act?
    ensures Safe(Work(w, t, limit))
  {
    var th := w.threads[t];
    var turn := WorkerTurn(w.table, th.slot, th.gen, limit).1;
    TurnLocal(w, t, limit);
    assert RunInv(w, th.gen);
    Logged(w.log, Begin(th.gen, turn.command, turn.final), th.gen);
    LocalKeeps(w, Work(w, t, limit), t, th.slot, th.gen);
  }

  lemma WorkKeeps(w: World, t: nat, limit: bool)
    requires Safe(w) && t < |w.threads| && w.threads[t].Working?
    ensures Safe(Work(w, t, limit))
  {
    var th := w.threads[t];
    if WorkerTurn(w.table, th.slot, th.gen, limit).1.Quit? {
      QuietKeeps(w, Work(w, t, limit), t, th.slot);
    } else {
      TurnKeeps(w, t, limit);
    }
  }

  lemma ReturnKeeps(w: World, t: nat)
    requires Safe(w) && t < |w.threads| && w.threads[t].Requesting?
    ensures Safe(Return(w, t))
  {
    var w' := Return(w, t);
    var th := w.threads[t];
    assert ThreadInv(w, t) && RunInv(w, th.gen);
    assert w'.log == w.log + [Last(w'.log)];
    LogLocal(w, w', th.gen);
    LocalKeeps(w, w', t, th.slot, th.gen);
  }

  lemma MoveKeeps(w: World, t: nat, limit: bool, ok: bool)
    requires Safe(w) && t < |w.threads| && Moved(w, t, limit, ok).started < GENERATIONS
    ensures Safe(Moved(w, t, limit, ok))
  {
    match w.threads[t]
    case Scanning(_, _, _, _) => ScanKeeps(w, t);
    case Waiting(_, _, _, _, _) => WakeKeeps(w, t);
    case Sending(_, _, _) => SendOffKeeps(w, t);
    case Opening(slot, _, _, inFlight) =>
      assert ThreadInRange(w.threads[t]);
      if !inFlight {
        FirstEdgeBeginsKeeps(w, t, ok);
      } else if w.table[slot].stopReq {
        LandStoppedKeeps(w, t, ok);
      } else if ok {
        LandStartedKeeps(w, t);
      } else {
        LandFailedKeeps(w, t, ok);
      }
    case Working(_, _) => WorkKeeps(w, t, limit);
    case Requesting(_, _, _) => ReturnKeeps(w, t);
    case Finished =>
  }

  lemma NextKeeps(w: World, s: Step)
    requires Safe(w) && Next(w, s).started < GENERATIONS
    ensures Safe(Next(w, s))
  {
    match s
    case Fire(j) => if FreshJob(j) { FireKeeps(w, j); }
    case End(target) => EndKeeps(w, target);
    case Move(t, limit, ok) => if t < |w.threads| { MoveKeeps(w, t, limit, ok); }
  }

  lemma {:induction false} RunSafe(steps: seq<Step>)
    requires Exec(steps).started < GENERATIONS
    ensures Safe(Exec(steps))
  {
    if steps == [] {
      assert forall g: nat :: StatusOf([], g) == Quiet;
    } else {
      ExecStep(steps);
      RunSafe(Front(steps));
      NextKeeps(Exec(Front(steps)), Last(steps));
    }
  }

  // ----- Guarantees -----

  /** The plain reading of an unbroken run of requests: a new one begins only
      after the one before it completed, and none begins after the closing one. */
  ghost predicate OneAtATime(log: seq<Event>, gen: nat) {
    forall i, j | 0 <= i < j < |log| && log[i].Begin? && log[i].gen == gen && log[j].Begin? && log[j].gen == gen ::
      !log[i].final && exists k | i < k < j :: log[k] == Done(gen)
  }

  /** How many closing all-offs of the run have begun. */
  function Closings(log: seq<Event>, gen: nat): nat {
    if log == [] then 0
    else Closings(Front(log), gen) + if Last(log).Begin? && Last(log).gen == gen && Last(log).final then 1 else 0
  }

  lemma {:induction false} NoClosingBegun(log: seq<Event>, gen: nat)
    requires Closings(log, gen) == 0
    ensures forall i | 0 <= i < |log| && log[i].Begin? && log[i].gen == gen :: !log[i].final
  {
    if log != [] {
      NoClosingBegun(Front(log), gen);
      assert forall i | 0 <= i < |log| - 1 :: Front(log)[i] == log[i];
    }
  }

  lemma {:induction false} UnbrokenMeansInTurn(log: seq<Event>, gen: nat)
    requires StatusOf(log, gen) != Broken
    ensures OneAtATime(log, gen)
    ensures Closings(log, gen) == if StatusOf(log, gen) in {InFlight(true), Closed} then 1 else 0
    ensures StatusOf(log, gen) == Quiet ==>
      forall i | 0 <= i < |log| && log[i].Begin? && log[i].gen == gen :: exists k | i < k < |log| :: log[k] == Done(gen)
  {
    if log != [] {
      var front, e, n := Front(log), Last(log), |log| - 1;
      UnbrokenMeansInTurn(front, gen);
      assert forall i | 0 <= i < n :: front[i] == log[i];
      assert log[n] == e;
      forall i | 0 <= i < n && log[i].Begin? && log[i].gen == gen && StatusOf(front, gen) == Quiet
        ensures exists k | i < k < n :: log[k] == Done(gen)
      {
        var k :| i < k < n && front[k] == Done(gen);
        assert log[k] == Done(gen);
      }
      forall i, j | 0 <= i < j < |log| && log[i].Begin? && log[i].gen == gen && log[j].Begin? && log[j].gen == gen
        ensures !log[i].final && exists k | i < k < j :: log[k] == Done(gen)
      {
        if j < n {
          assert front[i] == log[i] && front[j] == log[j];
          var k :| i < k < j && front[k] == Done(gen);
          assert log[k] == Done(gen);
        } else {
          NoClosingBegun(front, gen);
        }
      }
    }
  }

  /** In every run, however starters, enders and workers interleave, the requests
      of one flash never overlap and nothing follows its closing all-off, of which
      there is at most one. */
  lemma RequestsTakeTurns(steps: seq<Step>, gen: nat)
    requires Exec(steps).started < GENERATIONS
    ensures OneAtATime(Exec(steps).log, gen) && Closings(Exec(steps).log, gen) <= 1
  {
    RunSafe(steps);
    var w := Exec(steps);
    if gen in w.phases {
      assert RunInv(w, gen);
    }
    UnbrokenMeansInTurn(w.log, gen);
  }

  /** A flash that was started, has left the table and is owed no all-off any more
      got exactly one, and it is complete. */
  lemma EndedFlashIsSwitchedOff(steps: seq<Step>, gen: nat)
    requires var w := Exec(steps);
      && 1 <= gen <= w.started < GENERATIONS
      && (forall i | 0 <= i < MAX_RUNS :: !(w.table[i].used && w.table[i].gen == gen))
      && (forall t | 0 <= t < |w.threads| :: !Owes(w.threads[t], gen))
    ensures StatusOf(Exec(steps).log, gen) == Closed && Closings(Exec(steps).log, gen) == 1
  {
    RunSafe(steps);
    assert RunInv(Exec(steps), gen);
    UnbrokenMeansInTurn(Exec(steps).log, gen);
  }

  /** The run is in the hands it was in, or its request has just completed. */
  ghost predicate StillDriven(w: World, w': World, gen: nat)
    requires gen in w.phases
  {
    (gen in w'.phases && w'.phases[gen] == w.phases[gen]) || w'.log == w.log + [Done(gen)]
  }

  lemma EnderLeavesDriven(w: World, t: nat, gen: nat)
    requires Safe(w) && t < |w.threads| && (w.threads[t].Waiting? || w.threads[t].Sending?)
    requires gen in w.phases && w.phases[gen].Driven?
    ensures StillDriven(w, Moved(w, t, false, true), gen)
    ensures forall limit, ok :: Moved(w, t, limit, ok) == Moved(w, t, false, true)
  {
    assert ThreadInv(w, t);
    if w.threads[t].Waiting? {
      assert SlotInv(w, w.threads[t].at);
    } else if w.threads[t].owed != [] {
      assert w.threads[t].owed[0] in w.threads[t].owed;
    }
  }

  lemma StarterLeavesDriven(w: World, t: nat, ok: bool, gen: nat)
    requires Safe(w) && t < |w.threads| && w.threads[t].Opening?
    requires gen in w.phases && w.phases[gen].Driven?
    ensures StillDriven(w, Open(w, t, ok), gen)
  {
  }

  lemma ScanLeavesDriven(w: World, t: nat, gen: nat)
    requires Safe(w) && t < |w.threads| && w.threads[t].Scanning? && Scan(w, t).started < GENERATIONS
    requires gen in w.phases && w.phases[gen].Driven?
    ensures StillDriven(w, Scan(w, t), gen)
  {
  }

  lemma WorkerLeavesDriven(w: World, t: nat, limit: bool, gen: nat)
    requires Safe(w) && t < |w.threads| && w.threads[t].Working?
    requires gen in w.phases && w.phases[gen].Driven?
    ensures StillDriven(w, Work(w, t, limit), gen)
  {
    assert ThreadInv(w, t) && SlotInv(w, w.threads[t].slot);
  }

  /** Only the completion of its request takes a run from the thread that drives it. */
  lemma DrivenStays(w: World, t: nat, limit: bool, ok: bool, gen: nat)
    requires Safe(w) && t < |w.threads| && Moved(w, t, limit, ok).started < GENERATIONS
    requires gen in w.phases && w.phases[gen].Driven?
    ensures StillDriven(w, Moved(w, t, limit, ok), gen)
  {
    match w.threads[t]
    case Waiting(_, _, _, _, _) => EnderLeavesDriven(w, t, gen);
    case Sending(_, _, _) => EnderLeavesDriven(w, t, gen);
    case Opening(_, _, _, _) => StarterLeavesDriven(w, t, ok, gen);
    case Working(_, _) => WorkerLeavesDriven(w, t, limit, gen);
    case Requesting(_, _, _) =>
    case Scanning(_, _, _, _) => ScanLeavesDriven(w, t, gen);
    case Finished =>
  }

  lemma DrivenStaysOnStep(w: World, s: Step, gen: nat)
    requires Safe(w) && Next(w, s).started < GENERATIONS
    requires gen in w.phases && w.phases[gen].Driven?
    requires StatusOf(w.log, gen).InFlight? && StatusOf(Next(w, s).log, gen).InFlight?
    ensures gen in Next(w, s).phases && Next(w, s).phases[gen] == w.phases[gen]
  {
    if s.Move? && s.t < |w.threads| {
      DrivenStays(w, s.t, s.limit, s.ok, gen);
      Logged(w.log, Done(gen), gen);
    }
  }

  /** While a request of a flash stays in flight, its slot is neither freed nor reassigned. */
  lemma SlotStaysWhileInFlight(steps: seq<Step>, s: Step, i: nat)
    requires i < MAX_RUNS && Exec(steps).started < GENERATIONS && Next(Exec(steps), s).started < GENERATIONS
    requires var w := Exec(steps);
      w.table[i].used && StatusOf(w.log, w.table[i].gen).InFlight? &&
      StatusOf(Next(w, s).log, w.table[i].gen).InFlight?
    ensures var w, w' := Exec(steps), Next(Exec(steps), s);
      w'.table[i].used && w'.table[i].gen == w.table[i].gen
  {
    RunSafe(steps);
    var w := Exec(steps);
    var w' := Next(w, s);
    var gen := w.table[i].gen;
    assert gen in w.phases && w.phases[gen].Driven? && w.phases[gen].slot == i by {
      assert SlotInv(w, i);
      assert RunInv(w, gen);
    }
    DrivenStaysOnStep(w, s, gen);
    NextKeeps(w, s);
    assert RunInv(w', gen);
  }

  // ----- Ports -----

  predicate SharePort(a: Slot, b: Slot) {
    a.used && b.used && a.job.host == b.job.host && Mask(a.job) * Mask(b.job) != {}
  }

  /** With starts serialised: at most one start is ending runs, the slots behind
      it hold nothing it conflicts with, and live runs share no port. */
  ghost predicate Exclusive(w: World) {
    && InRange(w)
    && (forall a, b | 0 <= a < b < |w.threads| :: !(Starting(w.threads[a]) && Starting(w.threads[b])))
    && (forall t | 0 <= t < |w.threads| && Starting(w.threads[t]) :: StartInv(w, w.threads[t]))
    && (forall i, k | 0 <= i < k < MAX_RUNS :: !SharePort(w.table[i], w.table[k]))
  }

  predicate StartInv(w: World, th: Thread)
    requires Starting(th)
  {
    && th.target == OnPorts(th.goal.job.host, Mask(th.goal.job)) && th.at <= MAX_RUNS
    && (forall i | 0 <= i < th.at :: !Wants(th.target, w.table[i]))
    && (th.Waiting? ==> th.at < MAX_RUNS && (w.table[th.at].used ==> w.table[th.at].gen == th.awaited))
  }

  /** Slots only lose runs or keep host and mask. */
  predicate NoNewRuns(t: Table, t': Table) {
    forall i | 0 <= i < MAX_RUNS && t'[i].used ::
      t[i].used && t'[i].gen == t[i].gen && t'[i].job.host == t[i].job.host && Mask(t'[i].job) == Mask(t[i].job)
  }

  lemma ShrinkKeeps(w: World, w': World, t: nat)
    requires Exclusive(w) && InRange(w') && NoNewRuns(w.table, w'.table)
    requires |w.threads| <= |w'.threads|
    requires forall k | 0 <= k < |w.threads| && k != t :: w'.threads[k] == w.threads[k]
    requires forall k | |w.threads| <= k < |w'.threads| && k != t :: !Starting(w'.threads[k])
    requires t < |w'.threads| && Starting(w'.threads[t]) ==>
      && StartInv(w', w'.threads[t])
      && (forall k | 0 <= k < |w.threads| && k != t :: !Starting(w.threads[k]))
    ensures Exclusive(w')
  {
    forall i, k | 0 <= i < k < MAX_RUNS ensures !SharePort(w'.table[i], w'.table[k]) {
      assert !SharePort(w.table[i], w.table[k]);
    }
    forall k | 0 <= k < |w'.threads| && Starting(w'.threads[k]) ensures StartInv(w', w'.threads[k]) {
      if k != t {
        assert StartInv(w, w.threads[k]);
        forall i | 0 <= i < w.threads[k].at ensures !Wants(w'.threads[k].target, w'.table[i]) {
          assert !Wants(w.threads[k].target, w.table[i]);
        }
      }
    }
  }

  lemma FireExclusive(w: World, j: Job)
    requires Exclusive(w) && FreshJob(j) && Fired(w, j).serial
    ensures Exclusive(Fired(w, j))
  {
    var w' := Fired(w, j);
    var m := FirstMatch(w.table, j, 0);
    if m.Some? {
      RefreshKeeps(j, w.table[m.value]);
    }
    ShrinkKeeps(w, w', |w.threads|);
  }

  lemma ClaimExclusive(w: World, t: nat)
    requires Exclusive(w) && Claiming(w, t)
    ensures Exclusive(Claim(w, t))
  {
    var w' := Claim(w, t);
    var th := w.threads[t];
    var i := FirstFree(w.table, 0).value;
    assert StartInv(w, th);
    assert Mask(w'.table[i].job) == Mask(th.goal.job);
    forall a, b | 0 <= a < b < MAX_RUNS ensures !SharePort(w'.table[a], w'.table[b]) {
      assert !SharePort(w.table[a], w.table[b]);
      assert !Wants(th.target, w.table[a]) && !Wants(th.target, w.table[b]);
    }
    assert Starting(w.threads[t]);
    assert forall k | 0 <= k < |w'.threads| :: !Starting(w'.threads[k]);
  }

  lemma SendOffExclusive(w: World, t: nat)
    requires Exclusive(w) && t < |w.threads| && w.threads[t].Sending?
    ensures Exclusive(SendOff(w, t))
  {
    var w' := SendOff(w, t);
    assert NoNewRuns(w.table, w'.table);
    ShrinkKeeps(w, w', t);
  }

  lemma OpenShrinks(w: World, t: nat, ok: bool)
    requires InRange(w) && t < |w.threads| && w.threads[t].Opening?
    ensures NoNewRuns(w.table, Open(w, t, ok).table)
  {
  }

  lemma OpenExclusive(w: World, t: nat, ok: bool)
    requires Exclusive(w) && t < |w.threads| && w.threads[t].Opening?
    ensures Exclusive(Open(w, t, ok))
  {
    OpenShrinks(w, t, ok);
    ShrinkKeeps(w, Open(w, t, ok), t);
  }

  lemma WorkExclusive(w: World, t: nat, limit: bool)
    requires Exclusive(w) && t < |w.threads| && w.threads[t].Working?
    ensures Exclusive(Work(w, t, limit))
  {
    var w' := Work(w, t, limit);
    assert NoNewRuns(w.table, w'.table);
    ShrinkKeeps(w, w', t);
  }

  lemma ReturnExclusive(w: World, t: nat)
    requires Exclusive(w) && t < |w.threads| && w.threads[t].Requesting?
    ensures Exclusive(Return(w, t))
  {
    var w' := Return(w, t);
    assert NoNewRuns(w.table, w'.table);
    ShrinkKeeps(w, w', t);
  }

  lemma WakeExclusive(w: World, t: nat)
    requires Exclusive(w) && t < |w.threads| && w.threads[t].Waiting?
    ensures Exclusive(Wake(w, t))
  {
    var th := w.threads[t];
    var w' := Wake(w, t);
    assert Starting(th) ==> StartInv(w, th);
    assert NoNewRuns(w.table, w'.table);
    ShrinkKeeps(w, w', t);
  }

  lemma ScanPastExclusive(w: World, t: nat)
    requires Exclusive(w) && t < |w.threads| && w.threads[t].Scanning? && w.threads[t].at < MAX_RUNS
    ensures Exclusive(Scan(w, t))
  {
    var th := w.threads[t];
    var w' := Scan(w, t);
    assert Starting(th) ==> StartInv(w, th);
    assert forall i | 0 <= i < th.at :: Wants(th.target, w'.table[i]) == Wants(th.target, w.table[i]);
    ShrinkKeeps(w, w', t);
  }

  lemma ScanExclusive(w: World, t: nat)
    requires Exclusive(w) && t < |w.threads| && w.threads[t].Scanning?
    ensures Exclusive(Scan(w, t))
  {
    var th := w.threads[t];
    assert ThreadInRange(th);
    if th.at < MAX_RUNS {
      ScanPastExclusive(w, t);
    } else if th.goal.StartJob? && FirstFree(w.table, 0).Some? {
      ClaimExclusive(w, t);
    } else {
      ScanDoneExclusive(w, t);
    }
  }

  lemma ScanDoneExclusive(w: World, t: nat)
    requires Exclusive(w) && t < |w.threads| && w.threads[t].Scanning? && w.threads[t].at == MAX_RUNS
    requires w.threads[t].goal.JustEnd? || FirstFree(w.table, 0).None?
    ensures Exclusive(Scan(w, t))
  {
    ShrinkKeeps(w, Scan(w, t), t);
  }

  lemma MoveExclusive(w: World, t: nat, limit: bool, ok: bool)
    requires Exclusive(w) && t < |w.threads|
    ensures Exclusive(Moved(w, t, limit, ok))
  {
    match w.threads[t]
    case Scanning(_, _, _, _) => ScanExclusive(w, t);
    case Waiting(_, _, _, _, _) => WakeExclusive(w, t);
    case Sending(_, _, _) => SendOffExclusive(w, t);
    case Opening(_, _, _, _) => OpenExclusive(w, t, ok);
    case Working(_, _) => WorkExclusive(w, t, limit);
    case Requesting(_, _, _) => ReturnExclusive(w, t);
    case Finished =>
  }

  lemma SerialBefore(w: World, s: Step)
    requires InRange(w) && Next(w, s).serial
    ensures w.serial
  {
  }

  lemma NextExclusive(w: World, s: Step)
    requires Exclusive(w) && Next(w, s).serial
    ensures Exclusive(Next(w, s))
  {
    match s
    case Fire(j) => if FreshJob(j) { FireExclusive(w, j); }
    case End(target) => ShrinkKeeps(w, Next(w, s), |w.threads|);
    case Move(t, limit, ok) => if t < |w.threads| { MoveExclusive(w, t, limit, ok); }
  }

  lemma {:induction false} RunExclusive(steps: seq<Step>)
    requires Exec(steps).serial
    ensures Exclusive(Exec(steps))
  {
    if steps != [] {
      ExecStep(steps);
      SerialBefore(Exec(Front(steps)), Last(steps));
      RunExclusive(Front(steps));
      NextExclusive(Exec(Front(steps)), Last(steps));
    }
  }

  /** With starts serialised, two live flashes on one host never share a port. */
  lemma LiveFlashesShareNoPort(steps: seq<Step>, i: nat, k: nat)
    requires Exec(steps).serial && i < k < MAX_RUNS
    requires var t := Exec(steps).table; t[i].used && t[k].used && t[i].job.host == t[k].job.host
    ensures Mask(Exec(steps).table[i].job) * Mask(Exec(steps).table[k].job) == {}
  {
    RunExclusive(steps);
    assert !SharePort(Exec(steps).table[i], Exec(steps).table[k]);
  }
}
