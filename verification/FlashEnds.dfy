/** What brings a flash to its end: its limit, a stop request, an ender that wants
    it; and that nothing else does. */
module FlashEnds {
  import opened Prelude
  import opened FlashTable
  import opened FlashProtocol
  import opened FlashSafety

  // ----- Runs go on -----

  lemma LogGrows(w: World, s: Step)
    requires InRange(w)
    ensures w.log <= Next(w, s).log
  {
    if s.Move? && s.t < |w.threads| {
      MovedLogs(w, s.t, s.limit, s.ok);
    }
  }

  lemma MovedLogs(w: World, t: nat, limit: bool, ok: bool)
    requires InRange(w) && t < |w.threads|
    ensures w.log <= Moved(w, t, limit, ok).log
  {
  }

  lemma {:induction false} RunGrows(steps: seq<Step>, more: seq<Step>)
    ensures Exec(steps).log <= Exec(steps + more).log && Exec(steps).started <= Exec(steps + more).started
  {
    if more == [] {
      assert steps + more == steps;
    } else {
      RunGrows(steps, Front(more));
      OneMore(steps, more);
      LogGrows(Exec(steps + Front(more)), Last(more));
    }
  }

  lemma OneMore(steps: seq<Step>, more: seq<Step>)
    requires more != []
    ensures Exec(steps + more) == Next(Exec(steps + Front(more)), Last(more))
    ensures Exec(steps + Front(more)).started <= Exec(steps + more).started
  {
    assert Front(steps + more) == steps + Front(more) && Last(steps + more) == Last(more);
    ExecStep(steps + more);
  }

  /** Nobody but thread t moves. */
  predicate WithoutThread(steps: seq<Step>, t: nat) {
    forall s | s in steps :: !(s.Move? && s.t == t)
  }

  lemma OthersLeaveThread(w: World, s: Step, t: nat)
    requires InRange(w) && t < |w.threads| && !(s.Move? && s.t == t)
    ensures t < |Next(w, s).threads| && Next(w, s).threads[t] == w.threads[t]
  {
    if s.Move? && s.t < |w.threads| {
      MoversLeaveThread(w, s.t, s.limit, s.ok, t);
    }
  }

  lemma MoversLeaveThread(w: World, t: nat, limit: bool, ok: bool, k: nat)
    requires InRange(w) && t < |w.threads| && k < |w.threads| && k != t
    ensures |w.threads| <= |Moved(w, t, limit, ok).threads| && Moved(w, t, limit, ok).threads[k] == w.threads[k]
  {
  }

  lemma {:induction false} ThreadStays(steps: seq<Step>, others: seq<Step>, t: nat)
    requires t < |Exec(steps).threads| && WithoutThread(others, t)
    ensures t < |Exec(steps + others).threads| && Exec(steps + others).threads[t] == Exec(steps).threads[t]
  {
    if others == [] {
      assert steps + others == steps;
    } else {
      ThreadStays(steps, Front(others), t);
      OneMore(steps, others);
      OthersLeaveThread(Exec(steps + Front(others)), Last(others), t);
    }
  }

  // ----- The limit -----

  /** Thread t is the worker of a run that is in the table and not asked to stop. */
  predicate Tends(w: World, t: nat) {
    && t < |w.threads| && w.threads[t].Working? && w.threads[t].slot < MAX_RUNS
    && var s := w.table[w.threads[t].slot];
       s.used && s.gen == w.threads[t].gen && !s.stopReq
  }

  lemma LimitCloses(w: World, t: nat, ok: bool)
    requires InRange(w) && Tends(w, t)
    ensures var w', th := Next(w, Move(t, true, ok)), w.threads[t];
      && w'.log == w.log + [Begin(th.gen, Dark, true)]
      && t < |w'.threads| && w'.threads[t] == Requesting(th.slot, th.gen, true)
  {
  }

  lemma ClosingReturns(w: World, t: nat, limit: bool, ok: bool)
    requires Safe(w) && t < |w.threads| && w.threads[t].Requesting? && w.threads[t].final
    ensures var w', th := Next(w, Move(t, limit, ok)), w.threads[t];
      && w'.log == w.log + [Done(th.gen)] && !w'.table[th.slot].used
      && th.gen in w'.phases && w'.phases[th.gen] == Over
  {
    assert ThreadInv(w, t) && RunInv(w, w.threads[t].gen);
  }

  /** A worker that wakes at its run's limit, by time or because its rule was
      disabled, sends the closing all-off at once; whatever the others do
      meanwhile, the run leaves the table when that request is back, and nothing
      is sent for it afterwards. */
  lemma LimitEndsRun(steps: seq<Step>, t: nat, ok: bool, others: seq<Step>, limit': bool, ok': bool, later: seq<Step>)
    requires Tends(Exec(steps), t) && WithoutThread(others, t)
    requires Exec(steps + [Move(t, true, ok)] + others + [Move(t, limit', ok')] + later).started < GENERATIONS
    ensures var w, slot, gen := Exec(steps), Exec(steps).threads[t].slot, Exec(steps).threads[t].gen;
      var asked := Exec(steps + [Move(t, true, ok)]);
      var back := Exec(steps + [Move(t, true, ok)] + others);
      var gone := Exec(steps + [Move(t, true, ok)] + others + [Move(t, limit', ok')]);
      && asked.log == w.log + [Begin(gen, Dark, true)]
      && gone.log == back.log + [Done(gen)]
      && !gone.table[slot].used && gen in gone.phases && gone.phases[gen] == Over
      && NoneBegins(Exec(steps + [Move(t, true, ok)] + others + [Move(t, limit', ok')] + later).log, |asked.log|, gen)
  {
    var first := steps + [Move(t, true, ok)];
    var second := first + others + [Move(t, limit', ok')];
    RunGrows(first + others, [Move(t, limit', ok')]);
    RunGrows(second, later);
    RunGrows(first, others);
    OneMore(steps, [Move(t, true, ok)]);
    assert steps + [] == steps && first + others + [] == first + others;
    LimitCloses(Exec(steps), t, ok);
    ThreadStays(first, others, t);
    OneMore(first + others, [Move(t, limit', ok')]);
    RunSafe(first + others);
    ClosingReturns(Exec(first + others), t, limit', ok');
    RequestsTakeTurns(second + later, Exec(steps).threads[t].gen);
    ClosingIsLast(Exec(second + later).log, |Exec(first).log| - 1, Exec(steps).threads[t].gen);
  }

  /** From position from on no request of the run begins. */
  predicate NoneBegins(log: seq<Event>, from: nat, gen: nat) {
    forall k | from <= k < |log| :: !(log[k].Begin? && log[k].gen == gen)
  }

  lemma ClosingIsLast(log: seq<Event>, at: nat, gen: nat)
    requires OneAtATime(log, gen) && at < |log| && log[at] == Begin(gen, Dark, true)
    ensures NoneBegins(log, at + 1, gen)
  {
  }

  // ----- A stop request -----

  /** The starter has not sent the run's first request yet. */
  predicate FirstDue(th: Thread, gen: nat) {
    (th.Sending? && th.after.OpenRun? && th.after.gen == gen) || (th.Opening? && th.gen == gen && !th.inFlight)
  }

  /** Run gen was started in slot i, its first request is out, and as long as it is
      in the table it is asked to stop. */
  ghost predicate Stopping(w: World, i: nat, gen: nat) {
    && i < MAX_RUNS && gen in w.phases
    && (w.table[i].used && w.table[i].gen == gen ==> w.table[i].stopReq)
    && (w.phases[gen].Held? || w.phases[gen].Driven? ==> w.phases[gen].slot == i)
    && forall t | 0 <= t < |w.threads| :: !FirstDue(w.threads[t], gen)
  }

  /** What a step begins for the run. */
  ghost predicate OnlyCloses(log: seq<Event>, log': seq<Event>, gen: nat) {
    log <= log' &&
    forall k | |log| <= k < |log'| && log'[k].Begin? && log'[k].gen == gen :: log'[k] == Begin(gen, Dark, true)
  }

  lemma FireStaysStopping(w: World, j: Job, i: nat, gen: nat)
    requires Safe(w) && Stopping(w, i, gen) && FreshJob(j)
    ensures Stopping(Fired(w, j), i, gen)
  {
  }

  lemma ScanStaysStopping(w: World, t: nat, i: nat, gen: nat)
    requires Safe(w) && Stopping(w, i, gen) && t < |w.threads| && w.threads[t].Scanning?
    requires Scan(w, t).started < GENERATIONS
    ensures Stopping(Scan(w, t), i, gen)
  {
    assert RunInv(w, gen) && ThreadInRange(w.threads[t]);
    if w.threads[t].at == MAX_RUNS && w.threads[t].goal.StartJob? && FirstFree(w.table, 0).Some? {
      ClaimStaysStopping(w, t, i, gen);
    }
  }

  lemma ClaimStaysStopping(w: World, t: nat, i: nat, gen: nat)
    requires Safe(w) && Stopping(w, i, gen) && Claiming(w, t) && w.started + 1 < GENERATIONS
    ensures Stopping(Claim(w, t), i, gen)
  {
    assert RunInv(w, gen);
  }

  lemma WakeStaysStopping(w: World, t: nat, i: nat, gen: nat)
    requires Safe(w) && Stopping(w, i, gen) && t < |w.threads| && w.threads[t].Waiting?
    ensures Stopping(Wake(w, t), i, gen)
  {
    assert RunInv(w, gen);
  }

  lemma SendOffStaysStopping(w: World, t: nat, i: nat, gen: nat)
    requires Safe(w) && Stopping(w, i, gen) && t < |w.threads| && w.threads[t].Sending?
    ensures Stopping(SendOff(w, t), i, gen) && OnlyCloses(w.log, SendOff(w, t).log, gen)
  {
    assert RunInv(w, gen) && !FirstDue(w.threads[t], gen);
  }

  lemma OpenStaysStopping(w: World, t: nat, ok: bool, i: nat, gen: nat)
    requires Safe(w) && Stopping(w, i, gen) && t < |w.threads| && w.threads[t].Opening?
    ensures Stopping(Open(w, t, ok), i, gen) && OnlyCloses(w.log, Open(w, t, ok).log, gen)
  {
    assert !FirstDue(w.threads[t], gen);
    if w.threads[t].gen == gen {
      LandingStaysStopping(w, t, ok, i, gen);
    } else if w.threads[t].inFlight {
      OtherLandingStaysStopping(w, t, ok, i, gen);
    } else {
      OtherEdgeStaysStopping(w, t, ok, i, gen);
    }
  }

  lemma OtherEdgeStaysStopping(w: World, t: nat, ok: bool, i: nat, gen: nat)
    requires Safe(w) && Stopping(w, i, gen)
    requires t < |w.threads| && w.threads[t].Opening? && w.threads[t].gen != gen && !w.threads[t].inFlight
    ensures Stopping(Open(w, t, ok), i, gen) && OnlyCloses(w.log, Open(w, t, ok).log, gen)
  {
  }

  lemma OtherLandingStaysStopping(w: World, t: nat, ok: bool, i: nat, gen: nat)
    requires Safe(w) && Stopping(w, i, gen) && EdgeIsBack(w, t) && w.threads[t].gen != gen
    ensures Stopping(Open(w, t, ok), i, gen) && OnlyCloses(w.log, Open(w, t, ok).log, gen)
  {
    assert RunInv(w, gen) && ThreadInv(w, t);
  }

  lemma LandingStaysStopping(w: World, t: nat, ok: bool, i: nat, gen: nat)
    requires Safe(w) && Stopping(w, i, gen) && EdgeIsBack(w, t) && w.threads[t].gen == gen
    ensures Stopping(Open(w, t, ok), i, gen) && OnlyCloses(w.log, Open(w, t, ok).log, gen)
  {
    assert RunInv(w, gen) && ThreadInv(w, t);
  }

  lemma WorkStaysStopping(w: World, t: nat, limit: bool, i: nat, gen: nat)
    requires Safe(w) && Stopping(w, i, gen) && t < |w.threads| && w.threads[t].Working?
    ensures Stopping(Work(w, t, limit), i, gen) && OnlyCloses(w.log, Work(w, t, limit).log, gen)
  {
    assert RunInv(w, gen) && ThreadInv(w, t) && SlotInv(w, w.threads[t].slot);
  }

  lemma ReturnStaysStopping(w: World, t: nat, i: nat, gen: nat)
    requires Safe(w) && Stopping(w, i, gen) && t < |w.threads| && w.threads[t].Requesting?
    ensures Stopping(Return(w, t), i, gen) && OnlyCloses(w.log, Return(w, t).log, gen)
  {
    assert RunInv(w, gen) && ThreadInv(w, t);
  }

  lemma StoppingStep(w: World, s: Step, i: nat, gen: nat)
    requires Safe(w) && Stopping(w, i, gen) && Next(w, s).started < GENERATIONS
    ensures Stopping(Next(w, s), i, gen) && OnlyCloses(w.log, Next(w, s).log, gen)
  {
    match s
    case Fire(j) => if FreshJob(j) { FireStaysStopping(w, j, i, gen); }
    case End(_) =>
    case Move(t, limit, ok) =>
      if t < |w.threads| {
        match w.threads[t]
        case Scanning(_, _, _, _) => ScanStaysStopping(w, t, i, gen);
        case Waiting(_, _, _, _, _) => WakeStaysStopping(w, t, i, gen);
        case Sending(_, _, _) => SendOffStaysStopping(w, t, i, gen);
        case Opening(_, _, _, _) => OpenStaysStopping(w, t, ok, i, gen);
        case Working(_, _) => WorkStaysStopping(w, t, limit, i, gen);
        case Requesting(_, _, _) => ReturnStaysStopping(w, t, i, gen);
        case Finished =>
      }
  }

  lemma {:induction false} StaysStopping(steps: seq<Step>, more: seq<Step>, i: nat, gen: nat)
    requires Stopping(Exec(steps), i, gen) && Exec(steps + more).started < GENERATIONS
    ensures Stopping(Exec(steps + more), i, gen) && OnlyCloses(Exec(steps).log, Exec(steps + more).log, gen)
  {
    if more == [] {
      assert steps + more == steps;
    } else {
      OneMore(steps, more);
      StaysStopping(steps, Front(more), i, gen);
      RunSafe(steps + Front(more));
      StoppingStep(Exec(steps + Front(more)), Last(more), i, gen);
    }
  }

  /** From the moment a run whose first request is out is asked to stop, nothing
      but its closing all-off begins for it. */
  lemma StopIsObeyed(steps: seq<Step>, more: seq<Step>, i: nat)
    requires i < MAX_RUNS && Exec(steps).table[i].used && Exec(steps).table[i].stopReq
    requires forall t | 0 <= t < |Exec(steps).threads| :: !FirstDue(Exec(steps).threads[t], Exec(steps).table[i].gen)
    requires Exec(steps + more).started < GENERATIONS
    ensures OnlyCloses(Exec(steps).log, Exec(steps + more).log, Exec(steps).table[i].gen)
  {
    var gen := Exec(steps).table[i].gen;
    RunGrows(steps, more);
    RunSafe(steps);
    assert SlotInv(Exec(steps), i) && RunInv(Exec(steps), gen);
    StaysStopping(steps, more, i, gen);
  }

  // ----- Enders -----

  /** Which runs an ender is to end. */
  predicate InTarget(target: Target, j: Job) {
    match target
    case OnPorts(host, ports) => j.host == host && exists p :: p in j.ports && p in ports
    case OfRule(rule) => j.rule == rule
    case Everything => true
  }

  lemma WantsInTarget(target: Target, s: Slot)
    ensures Wants(target, s) <==> s.used && InTarget(target, s.job)
  {
    if target.OnPorts? && s.used {
      if p :| p in s.job.ports && p in target.ports {
        assert p in Mask(s.job) * target.ports;
      }
      if p :| p in Mask(s.job) * target.ports {
        assert p in s.job.ports && p in target.ports;
      }
    }
  }

  predicate Tabled(w: World, i: nat, gen: nat)
    requires i < MAX_RUNS
  {
    w.table[i].used && w.table[i].gen == gen
  }

  /** What a run is for does not change while it is in the table. */
  predicate SamePlace(j: Job, j': Job) {
    j'.rule == j.rule && j'.host == j.host && Mask(j') == Mask(j)
  }

  lemma SameTarget(target: Target, j: Job, j': Job)
    requires SamePlace(j, j')
    ensures InTarget(target, j') <==> InTarget(target, j)
  {
    assert forall p :: p in j'.ports <==> p in Mask(j');
    assert forall p :: p in j.ports <==> p in Mask(j);
  }

  lemma RunStaysItself(w: World, s: Step, i: nat, gen: nat)
    requires Safe(w) && Next(w, s).started < GENERATIONS && i < MAX_RUNS && gen <= w.started
    requires Tabled(Next(w, s), i, gen)
    ensures Tabled(w, i, gen) && SamePlace(w.table[i].job, Next(w, s).table[i].job)
  {
    match s
    case Fire(j) =>
    case End(_) =>
    case Move(t, limit, ok) => if t < |w.threads| { MovedStaysItself(w, t, limit, ok, i, gen); }
  }

  lemma MovedStaysItself(w: World, t: nat, limit: bool, ok: bool, i: nat, gen: nat)
    requires Safe(w) && t < |w.threads| && Moved(w, t, limit, ok).started < GENERATIONS
    requires i < MAX_RUNS && gen <= w.started && Tabled(Moved(w, t, limit, ok), i, gen)
    ensures Tabled(w, i, gen) && SamePlace(w.table[i].job, Moved(w, t, limit, ok).table[i].job)
  {
    match w.threads[t]
    case Scanning(_, _, _, _) => ScanStaysItself(w, t, i, gen);
    case Waiting(_, _, _, _, _) =>
    case Sending(_, _, _) =>
    case Opening(_, _, _, _) => OpenStaysItself(w, t, ok, i, gen);
    case Working(_, _) => WorkStaysItself(w, t, limit, i, gen);
    case Requesting(_, _, _) =>
    case Finished =>
  }

  lemma ScanStaysItself(w: World, t: nat, i: nat, gen: nat)
    requires Safe(w) && t < |w.threads| && w.threads[t].Scanning? && Scan(w, t).started < GENERATIONS
    requires i < MAX_RUNS && gen <= w.started && Tabled(Scan(w, t), i, gen)
    ensures Tabled(w, i, gen) && SamePlace(w.table[i].job, Scan(w, t).table[i].job)
  {
  }

  lemma OpenStaysItself(w: World, t: nat, ok: bool, i: nat, gen: nat)
    requires Safe(w) && t < |w.threads| && w.threads[t].Opening?
    requires i < MAX_RUNS && Tabled(Open(w, t, ok), i, gen)
    ensures Tabled(w, i, gen) && SamePlace(w.table[i].job, Open(w, t, ok).table[i].job)
  {
  }

  lemma WorkStaysItself(w: World, t: nat, limit: bool, i: nat, gen: nat)
    requires Safe(w) && t < |w.threads| && w.threads[t].Working?
    requires i < MAX_RUNS && Tabled(Work(w, t, limit), i, gen)
    ensures Tabled(w, i, gen) && SamePlace(w.table[i].job, Work(w, t, limit).table[i].job)
  {
  }

  /** Thread t is an ender that has not come past the run yet. */
  predicate WillEnd(w: World, t: nat, target: Target, i: nat, gen: nat)
    requires i < MAX_RUNS
  {
    && t < |w.threads| && InTarget(target, w.table[i].job)
    && match w.threads[t]
       case Scanning(wanted, _, at, _) => wanted == target && at <= i
       case Waiting(wanted, _, at, awaited, _) => wanted == target && (at < i || (at == i && awaited == gen))
       case _ => false
  }

  lemma EnderComesBy(w: World, t: nat, limit: bool, ok: bool, target: Target, i: nat, gen: nat)
    requires Safe(w) && i < MAX_RUNS && Tabled(w, i, gen) && WillEnd(w, t, target, i, gen)
    requires Moved(w, t, limit, ok).started < GENERATIONS
    ensures var w' := Moved(w, t, limit, ok); Tabled(w', i, gen) ==> WillEnd(w', t, target, i, gen)
    ensures w.threads[t].Scanning? && w.threads[t].at == i ==> Moved(w, t, limit, ok).table[i].stopReq
  {
    WantsInTarget(target, w.table[i]);
  }

  lemma EndingStep(w: World, s: Step, t: nat, target: Target, i: nat, gen: nat)
    requires Safe(w) && Next(w, s).started < GENERATIONS && i < MAX_RUNS && gen <= w.started
    requires t < |w.threads| && (Tabled(w, i, gen) ==> WillEnd(w, t, target, i, gen))
    ensures t < |Next(w, s).threads| && (Tabled(Next(w, s), i, gen) ==> WillEnd(Next(w, s), t, target, i, gen))
  {
    if Tabled(Next(w, s), i, gen) {
      RunStaysItself(w, s, i, gen);
      SameTarget(target, w.table[i].job, Next(w, s).table[i].job);
    }
    if s.Move? && s.t == t {
      if Tabled(w, i, gen) {
        EnderComesBy(w, t, s.limit, s.ok, target, i, gen);
      }
    } else {
      OthersLeaveThread(w, s, t);
    }
  }

  lemma {:induction false} EnderGoesOn(steps: seq<Step>, more: seq<Step>, t: nat, target: Target, i: nat, gen: nat)
    requires Exec(steps + more).started < GENERATIONS && i < MAX_RUNS && gen <= Exec(steps).started
    requires t < |Exec(steps).threads| && (Tabled(Exec(steps), i, gen) ==> WillEnd(Exec(steps), t, target, i, gen))
    ensures var w := Exec(steps + more);
      t < |w.threads| && (Tabled(w, i, gen) ==> WillEnd(w, t, target, i, gen))
  {
    if more == [] {
      assert steps + more == steps;
    } else {
      OneMore(steps, more);
      RunGrows(steps, Front(more));
      EnderGoesOn(steps, Front(more), t, target, i, gen);
      RunSafe(steps + Front(more));
      EndingStep(Exec(steps + Front(more)), Last(more), t, target, i, gen);
    }
  }

  /** An ender that has been through the table has ended every run it was to end:
      none of those that were in the table when it came is there any more. */
  lemma EnderEndsItsRuns(steps: seq<Step>, target: Target, more: seq<Step>, i: nat)
    requires Exec(steps + [End(target)] + more).started < GENERATIONS
    requires i < MAX_RUNS && Exec(steps).table[i].used && InTarget(target, Exec(steps).table[i].job)
    ensures var t, w := |Exec(steps).threads|, Exec(steps + [End(target)] + more);
      && t < |w.threads|
      && (!w.threads[t].Scanning? && !w.threads[t].Waiting? ==> !Tabled(w, i, Exec(steps).table[i].gen))
  {
    var gen := Exec(steps).table[i].gen;
    RunGrows(steps + [End(target)], more);
    OneMore(steps, [End(target)]);
    assert steps + [] == steps;
    RunSafe(steps);
    assert SlotInv(Exec(steps), i);
    EnderGoesOn(steps + [End(target)], more, |Exec(steps).threads|, target, i, gen);
  }

  // ----- Nothing else ends a run -----

  /** A waiting ender waits for a run it is to end. */
  predicate WaitsForItsOwn(w: World, t: nat)
    requires t < |w.threads|
  {
    var th := w.threads[t];
    th.Waiting? && th.at < MAX_RUNS ==>
      th.awaited <= w.started && (Tabled(w, th.at, th.awaited) ==> InTarget(th.target, w.table[th.at].job))
  }

  lemma WaitBegins(w: World, t: nat, limit: bool, ok: bool)
    requires Safe(w) && t < |w.threads| && Moved(w, t, limit, ok).started < GENERATIONS
    requires Moved(w, t, limit, ok).threads[t].Waiting? && Moved(w, t, limit, ok).threads[t] != w.threads[t]
    ensures var th := Moved(w, t, limit, ok).threads[t];
      && th.at < MAX_RUNS && th.awaited <= w.started
      && Tabled(w, th.at, th.awaited) && InTarget(th.target, w.table[th.at].job)
  {
    if w.threads[t].Scanning? && w.threads[t].at < MAX_RUNS {
      assert SlotInv(w, w.threads[t].at);
      WantsInTarget(w.threads[t].target, w.table[w.threads[t].at]);
    }
  }

  lemma WaitsKeep(w: World, s: Step, k: nat)
    requires Safe(w) && Next(w, s).started < GENERATIONS && k < |Next(w, s).threads|
    requires forall t | 0 <= t < |w.threads| :: WaitsForItsOwn(w, t)
    ensures WaitsForItsOwn(Next(w, s), k)
  {
    var w' := Next(w, s);
    var th := w'.threads[k];
    if th.Waiting? && th.at < MAX_RUNS {
      StartedGrows(w, s);
      NewThreadsDoNotWait(w, s, k);
      if w.threads[k] != th {
        OnlyOneMoves(w, s, k);
        WaitBegins(w, k, s.limit, s.ok);
      }
      assert WaitsForItsOwn(w, k);
      if Tabled(w', th.at, th.awaited) {
        RunStaysItself(w, s, th.at, th.awaited);
        SameTarget(th.target, w.table[th.at].job, w'.table[th.at].job);
      }
    }
  }

  lemma NewThreadsDoNotWait(w: World, s: Step, k: nat)
    requires Safe(w) && k < |Next(w, s).threads| && Next(w, s).threads[k].Waiting?
    ensures k < |w.threads|
  {
  }

  lemma OnlyOneMoves(w: World, s: Step, k: nat)
    requires InRange(w) && k < |w.threads| && Next(w, s).threads[k] != w.threads[k]
    ensures s.Move? && s.t == k
  {
    if !(s.Move? && s.t == k) {
      OthersLeaveThread(w, s, k);
    }
  }

  lemma {:induction false} WaitersKeep(steps: seq<Step>)
    requires Exec(steps).started < GENERATIONS
    ensures forall t | 0 <= t < |Exec(steps).threads| :: WaitsForItsOwn(Exec(steps), t)
  {
    if steps != [] {
      ExecStep(steps);
      WaitersKeep(Front(steps));
      RunSafe(Front(steps));
      forall t: nat | t < |Exec(steps).threads| ensures WaitsForItsOwn(Exec(steps), t) {
        WaitsKeep(Exec(Front(steps)), Last(steps), t);
      }
    }
  }

  /** What may take a run out of the table: its own closing request is back, its
      starter's first request failed, or an ender frees it that is to end it. */
  predicate MayEnd(w: World, s: Step, i: nat, gen: nat)
    requires i < MAX_RUNS
  {
    s.Move? && s.t < |w.threads| &&
    match w.threads[s.t]
    case Requesting(slot, g, final) => slot == i && g == gen && final
    case Opening(slot, g, _, inFlight) => slot == i && g == gen && inFlight && !s.ok
    case Waiting(target, _, at, awaited, _) => at == i && awaited == gen && InTarget(target, w.table[i].job)
    case _ => false
  }

  /** A run leaves the table only in one of these ways, and is asked to stop only
      by an ender that is to end it. */
  lemma NothingElseEndsARun(steps: seq<Step>, s: Step, i: nat, gen: nat)
    requires Next(Exec(steps), s).started < GENERATIONS && i < MAX_RUNS && Tabled(Exec(steps), i, gen)
    ensures !Tabled(Next(Exec(steps), s), i, gen) ==> MayEnd(Exec(steps), s, i, gen)
    ensures Next(Exec(steps), s).table[i].stopReq && !Exec(steps).table[i].stopReq ==>
      s.Move? && s.t < |Exec(steps).threads| && Exec(steps).threads[s.t].Scanning? &&
      InTarget(Exec(steps).threads[s.t].target, Exec(steps).table[i].job)
  {
    var w := Exec(steps);
    StartedGrows(w, s);
    RunSafe(steps);
    WaitersKeep(steps);
    assert SlotInv(w, i);
    match s
    case Fire(j) => FireKeepsRuns(w, j, i);
    case End(_) =>
    case Move(t, limit, ok) => if t < |w.threads| { LeavesTable(w, t, limit, ok, i, gen); }
  }

  lemma FireKeepsRuns(w: World, j: Job, i: nat)
    requires InRange(w) && i < MAX_RUNS
    ensures var s, s' := w.table[i], Next(w, Fire(j)).table[i];
      s'.used == s.used && s'.gen == s.gen && s'.stopReq == s.stopReq
  {
  }

  lemma LeavesTable(w: World, t: nat, limit: bool, ok: bool, i: nat, gen: nat)
    requires Safe(w) && t < |w.threads| && i < MAX_RUNS && Tabled(w, i, gen) && WaitsForItsOwn(w, t)
    ensures !Tabled(Moved(w, t, limit, ok), i, gen) ==> MayEnd(w, Move(t, limit, ok), i, gen)
    ensures Moved(w, t, limit, ok).table[i].stopReq && !w.table[i].stopReq ==>
      w.threads[t].Scanning? && InTarget(w.threads[t].target, w.table[i].job)
  {
    match w.threads[t]
    case Scanning(target, _, _, _) => WantsInTarget(target, w.table[i]);
    case Waiting(_, _, _, _, _) =>
    case Sending(_, _, _) =>
    case Opening(_, _, _, _) => OpenerLeavesTable(w, t, ok, i, gen);
    case Working(_, _) => WorkerLeavesTable(w, t, limit, i);
    case Requesting(_, _, _) => ReturnLeavesTable(w, t, i, gen);
    case Finished =>
  }

  lemma OpenerLeavesTable(w: World, t: nat, ok: bool, i: nat, gen: nat)
    requires Safe(w) && t < |w.threads| && w.threads[t].Opening? && i < MAX_RUNS && Tabled(w, i, gen)
    ensures !Tabled(Open(w, t, ok), i, gen) ==> MayEnd(w, Move(t, false, ok), i, gen)
    ensures Open(w, t, ok).table[i].stopReq == w.table[i].stopReq
  {
    assert ThreadInv(w, t);
  }

  lemma WorkerLeavesTable(w: World, t: nat, limit: bool, i: nat)
    requires InRange(w) && t < |w.threads| && w.threads[t].Working? && i < MAX_RUNS
    ensures var s, s' := w.table[i], Work(w, t, limit).table[i];
      s'.used == s.used && s'.gen == s.gen && s'.stopReq == s.stopReq
  {
  }

  lemma ReturnLeavesTable(w: World, t: nat, i: nat, gen: nat)
    requires Safe(w) && t < |w.threads| && w.threads[t].Requesting? && i < MAX_RUNS && Tabled(w, i, gen)
    ensures !Tabled(Return(w, t), i, gen) ==> MayEnd(w, Move(t, false, false), i, gen)
    ensures Return(w, t).table[i].stopReq == w.table[i].stopReq
  {
    assert ThreadInv(w, t);
  }

  // ----- A worker's turn -----

  /** The flash that is on is the last the count allows. */
  predicate CountReached(j: Job) {
    j.lit && j.cyclesLeft == 1 && (j.together || j.idx + 1 == |j.ports|)
  }

  /** A worker closes its run exactly when it tends it and the limit or the count
      is reached. */
  lemma ClosesExactlyWhenDue(w: World, t: nat, limit: bool, ok: bool)
    requires InRange(w) && t < |w.threads| && w.threads[t].Working?
    ensures var th := w.threads[t];
      Moved(w, t, limit, ok).log == w.log + [Begin(th.gen, Dark, true)] <==>
      Tends(w, t) && (limit || CountReached(w.table[th.slot].job))
  {
    assert |w.log + [Begin(w.threads[t].gen, Dark, true)]| > |w.log|;
    if Tends(w, t) && !limit {
      var e := Advance(w.table[w.threads[t].slot].job);
      assert Last(w.log + [Begin(w.threads[t].gen, e.command, e.final)]).final == e.final;
    }
  }

  // ----- Firing again -----

  /** A running flash of the same rule on the same ports of the same device. */
  ghost predicate Running(s: Slot, j: Job) {
    s.used && j.rule != "" && s.job.rule == j.rule && s.job.host == j.host &&
    forall p :: p in s.job.ports <==> p in j.ports
  }

  lemma MatchesIsRunning(j: Job, s: Slot)
    ensures Matches(j, s) <==> Running(s, j)
  {
    assert forall p :: p in Mask(j) <==> p in j.ports;
    assert forall p :: p in Mask(s.job) <==> p in s.job.ports;
  }

  /** Firing starts no new flash exactly when one is running that it refreshes: the
      first such takes the new limits and goes on where it is; nothing is sent. */
  lemma FireRefreshesExactly(w: World, j: Job)
    requires InRange(w) && FreshJob(j)
    ensures Next(w, Fire(j)).log == w.log
    ensures |Next(w, Fire(j)).threads| == |w.threads| <==> exists i :: 0 <= i < MAX_RUNS && Running(w.table[i], j)
    ensures forall i |
      0 <= i < MAX_RUNS && Running(w.table[i], j) && (forall k | 0 <= k < i :: !Running(w.table[k], j)) ::
      var was, now := w.table[i].job, Next(w, Fire(j)).table[i].job;
      now == j.(idx := was.idx, lit := was.lit)
    ensures forall i | 0 <= i < MAX_RUNS && !Running(w.table[i], j) :: Next(w, Fire(j)).table[i] == w.table[i]
  {
    forall i | 0 <= i < MAX_RUNS ensures Matches(j, w.table[i]) <==> Running(w.table[i], j) {
      MatchesIsRunning(j, w.table[i]);
    }
  }
}
