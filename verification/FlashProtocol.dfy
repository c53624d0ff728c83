/** Starters, enders and workers of io_flash running concurrently over one table:
    every interleaving of their sections under the lock and of the requests they
    send without it. */
module FlashProtocol {
  import opened Prelude
  import opened FlashTable

  /** A request to the camera begins and completes; final is a run's closing all-off. */
  datatype Event = Begin(gen: nat, command: Command, final: bool) | Done(gen: nat)

  datatype Goal = JustEnd | StartJob(job: Job)

  /** What a thread does once it has sent the all-offs it owes. */
  datatype After = Finish | OpenRun(slot: nat, gen: nat, first: Command)

  datatype Thread =
    | Scanning(target: Target, goal: Goal, at: nat, owed: seq<nat>)
    | Waiting(target: Target, goal: Goal, at: nat, awaited: nat, owed: seq<nat>)
    | Sending(owed: seq<nat>, inFlight: bool, after: After)
    | Opening(slot: nat, gen: nat, first: Command, inFlight: bool)
    | Working(slot: nat, gen: nat)
    | Requesting(slot: nat, gen: nat, final: bool)
    | Finished

  /** Who answers for a started run: the table, with the thread that tends it; the
      thread whose request for it is due or in flight; the thread that owes its
      all-off; or nobody any more. */
  datatype Phase = Held(slot: nat, who: nat) | Driven(slot: nat, who: nat) | Owed(who: nat) | Over

  /** phases and serial are history variables: serial says no flash was started
      while another start was still ending the runs it takes ports from. */
  datatype World = World(table: Table, started: nat, threads: seq<Thread>, log: seq<Event>, phases: map<nat, Phase>,
    serial: bool)

  datatype Step =
    | Fire(job: Job)
    | End(target: Target)
    | Move(t: nat, limit: bool, ok: bool)

  function Init(): World {
    World(seq(MAX_RUNS, _ => FreeSlot), 0, [], [], map[], true)
  }

  predicate Starting(th: Thread) {
    (th.Scanning? || th.Waiting?) && th.goal.StartJob?
  }

  predicate NoneStarting(threads: seq<Thread>) {
    forall t | 0 <= t < |threads| :: !Starting(threads[t])
  }

  /** ports come parsed: distinct, at least one, and starting at the first. */
  predicate FreshJob(j: Job) {
    ValidJob(j) && j.idx == 0
  }

  function Fired(w: World, j: Job): (w': World)
    requires FreshJob(j) && InRange(w)
    ensures InRange(w')
  {
    var m := FirstMatch(w.table, j, 0);
    if m.Some? then
      RefreshKeeps(j, w.table[m.value]);
      w.(table := w.table[m.value := Refreshed(j, w.table[m.value])])
    else w.(
      threads := w.threads + [Scanning(OnPorts(j.host, Mask(j)), StartJob(j), 0, [])],
      serial := w.serial && NoneStarting(w.threads))
  }

  function WithThread(w: World, t: nat, th: Thread): World
    requires t < |w.threads|
  {
    w.(threads := w.threads[t := th])
  }

  /** The starter's claim of the first free slot; the all-offs it owes go out first. */
  function Claim(w: World, t: nat): (w': World)
    requires InRange(w) && t < |w.threads| && w.threads[t].Scanning?
    requires w.threads[t].goal.StartJob? && FirstFree(w.table, 0).Some?
    ensures InRange(w')
  {
    var i := FirstFree(w.table, 0).value;
    var j := w.threads[t].goal.job;
    var gen := (w.started + 1) % GENERATIONS;
    WithThread(
      w.(table := w.table[i := Claimed(j, gen)], started := w.started + 1, phases := w.phases[gen := Driven(i, t)]),
      t, Sending(w.threads[t].owed, false, OpenRun(i, gen, if j.together then AllOn else Light(0))))
  }

  function Scan(w: World, t: nat): (w': World)
    requires InRange(w) && t < |w.threads| && w.threads[t].Scanning?
    ensures InRange(w')
  {
    var th := w.threads[t];
    if th.at < MAX_RUNS then
      if Wants(th.target, w.table[th.at])
      then WithThread(w.(table := RequestStop(w.table, th.at)), t,
        Waiting(th.target, th.goal, th.at, w.table[th.at].gen, th.owed))
      else WithThread(w, t, Scanning(th.target, th.goal, th.at + 1, th.owed))
    else if th.goal.JustEnd? || FirstFree(w.table, 0).None? then WithThread(w, t, Sending(th.owed, false, Finish))
    else Claim(w, t)
  }

  function Wake(w: World, t: nat): (w': World)
    requires InRange(w) && t < |w.threads| && w.threads[t].Waiting?
    ensures InRange(w')
  {
    var th := w.threads[t];
    var (table, result) := EndTry(w.table, th.at, th.awaited);
    match result
    case Blocked => w
    case AlreadyOver => WithThread(w, t, Scanning(th.target, th.goal, th.at + 1, th.owed))
    case Freed =>
      WithThread(w.(table := table, phases := w.phases[th.awaited := Owed(t)]), t,
                 Scanning(th.target, th.goal, th.at + 1, th.owed + [th.awaited]))
  }

  function SendOff(w: World, t: nat): (w': World)
    requires InRange(w) && t < |w.threads| && w.threads[t].Sending?
    ensures InRange(w')
  {
    var th := w.threads[t];
    if th.owed == []
    then WithThread(w, t, if th.after.Finish? then Finished
                          else Opening(th.after.slot, th.after.gen, th.after.first, false))
    else if !th.inFlight then WithThread(w.(log := w.log + [Begin(th.owed[0], Dark, true)]), t,
      Sending(th.owed, true, th.after))
    else WithThread(w.(log := w.log + [Done(th.owed[0])], phases := w.phases[th.owed[0] := Over]), t,
                    Sending(th.owed[1..], false, th.after))
  }

  /** The first edge; when it lands the starter hands the run to a new worker,
      leaves it to whoever asked it to stop, or ends it because it failed. */
  function Open(w: World, t: nat, ok: bool): (w': World)
    requires InRange(w) && t < |w.threads| && w.threads[t].Opening?
    ensures InRange(w')
  {
    var th := w.threads[t];
    if !th.inFlight then WithThread(w.(log := w.log + [Begin(th.gen, th.first, false)]), t,
      Opening(th.slot, th.gen, th.first, true))
    else
      var (table, what) := Landed(w.table, th.slot, th.gen, ok);
      var landed := w.(log := w.log + [Done(th.gen)], table := table, phases := w.phases[th.gen := Held(th.slot, t)]);
      match what
      case LeftToEnder => WithThread(landed, t, Finished)
      case StartWorker =>
        var w1 := WithThread(landed, t, Finished);
        w1.(threads := w1.threads + [Working(th.slot, th.gen)],
            phases := w.phases[th.gen := Held(th.slot, |w.threads|)])
      case StartFailed =>
        WithThread(landed.(phases := w.phases[th.gen := Owed(t)]), t, Sending([th.gen], false, Finish))
  }

  function Work(w: World, t: nat, limit: bool): (w': World)
    requires InRange(w) && t < |w.threads| && w.threads[t].Working?
    ensures InRange(w')
  {
    var th := w.threads[t];
    var (table, turn) := WorkerTurn(w.table, th.slot, th.gen, limit);
    if turn.Quit? then WithThread(w, t, Finished)
    else WithThread(
           w.(table := table, log := w.log + [Begin(th.gen, turn.command, turn.final)],
              phases := w.phases[th.gen := Driven(th.slot, t)]),
           t, Requesting(th.slot, th.gen, turn.final))
  }

  function Return(w: World, t: nat): (w': World)
    requires InRange(w) && t < |w.threads| && w.threads[t].Requesting?
    ensures InRange(w')
  {
    var th := w.threads[t];
    WithThread(
      w.(table := Settled(w.table, th.slot, th.gen, th.final), log := w.log + [Done(th.gen)],
         phases := w.phases[th.gen := if th.final then Over else Held(th.slot, t)]),
      t, if th.final then Finished else Working(th.slot, th.gen))
  }

  /** Indices a thread carries stay inside the table, and jobs stay well formed. */
  predicate InRange(w: World) {
    && (forall i | 0 <= i < MAX_RUNS :: ValidJob(w.table[i].job))
    && forall t | 0 <= t < |w.threads| :: ThreadInRange(w.threads[t])
  }

  predicate ThreadInRange(th: Thread) {
    match th
    case Scanning(_, g, at, _) => at <= MAX_RUNS && (g.StartJob? ==> FreshJob(g.job))
    case Waiting(_, g, at, _, _) => at < MAX_RUNS && (g.StartJob? ==> FreshJob(g.job))
    case Sending(_, _, after) => after.OpenRun? ==> after.slot < MAX_RUNS
    case Opening(slot, _, _, _) => slot < MAX_RUNS
    case Working(slot, _) => slot < MAX_RUNS
    case Requesting(slot, _, _) => slot < MAX_RUNS
    case Finished => true
  }

  /** Thread t takes its next step; limit and ok are what its clock and its request report. */
  function Moved(w: World, t: nat, limit: bool, ok: bool): (w': World)
    requires InRange(w) && t < |w.threads|
    ensures InRange(w')
  {
    var th := w.threads[t];
    if th.Scanning? then Scan(w, t)
    else if th.Waiting? then Wake(w, t)
    else if th.Sending? then SendOff(w, t)
    else if th.Opening? then Open(w, t, ok)
    else if th.Working? then Work(w, t, limit)
    else if th.Requesting? then Return(w, t)
    else w
  }

  function Next(w: World, s: Step): (w': World)
    requires InRange(w)
    ensures InRange(w')
  {
    match s
    case Fire(j) =>
      if FreshJob(j) then Fired(w, j) else w
    case End(target) => w.(threads := w.threads + [Scanning(target, JustEnd, 0, [])])
    case Move(t, limit, ok) => if t < |w.threads| then Moved(w, t, limit, ok) else w
  }

  function Exec(steps: seq<Step>): (w: World)
    ensures InRange(w)
  {
    if steps == [] then Init() else Next(Exec(Front(steps)), Last(steps))
  }

  lemma MovedGrows(w: World, t: nat, limit: bool, ok: bool)
    requires InRange(w) && t < |w.threads|
    ensures Moved(w, t, limit, ok).started >= w.started
  {
  }

  /** Starts are only ever counted up. */
  lemma StartedGrows(w: World, s: Step)
    requires InRange(w)
    ensures Next(w, s).started >= w.started
  {
    if s.Move? && s.t < |w.threads| {
      MovedGrows(w, s.t, s.limit, s.ok);
    }
  }

  lemma ExecStep(steps: seq<Step>)
    requires steps != []
    ensures Exec(steps) == Next(Exec(Front(steps)), Last(steps))
    ensures Exec(Front(steps)).started <= Exec(steps).started
  {
    StartedGrows(Exec(Front(steps)), Last(steps));
  }
}
