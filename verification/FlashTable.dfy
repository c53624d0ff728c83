/** The io_flash run table of app/engine/actions.c: a run's rhythm, and what each
    section of code that holds io_flash_lock does to the table. */
module FlashTable {
  import opened Prelude

  const MAX_RUNS := 16
  /** guint gen wraps here. */
  const GENERATIONS := 0x1_0000_0000

  /** What a run flashes; cyclesLeft < 0 means no count limit. */
  datatype Job = Job(rule: string, host: string, ports: seq<nat>, together: bool, offMs: nat, cyclesLeft: int,
    idx: nat, lit: bool)

  predicate Distinct(ports: seq<nat>) {
    forall a, b | 0 <= a < b < |ports| :: ports[a] != ports[b]
  }

  predicate ValidJob(j: Job) {
    j.ports != [] && Distinct(j.ports) && j.idx < |j.ports|
  }

  function PortSet(ports: seq<nat>): set<nat> {
    set p | p in ports
  }

  /** The port mask. */
  function Mask(j: Job): set<nat> {
    PortSet(j.ports)
  }

  /** What one request shows: every port, a single position, or none. */
  datatype Command = AllOn | Light(pos: nat) | Dark

  function Shine(j: Job): Command {
    if j.together then AllOn else Light(j.idx)
  }

  /** One due edge of a running flash: the run afterwards, what to send, and
      whether the flash count is reached with it. */
  datatype Edge = Edge(job: Job, command: Command, final: bool)

  function Advance(j: Job): (e: Edge)
    requires ValidJob(j)
    ensures ValidJob(e.job) && Mask(e.job) == Mask(j) && e.job.host == j.host
    ensures e.final ==> e.command == Dark
  {
    if !j.lit then Edge(j.(lit := true), Shine(j), false)
    else
      var counted := (j.together || j.idx == |j.ports| - 1) && j.cyclesLeft > 0;
      var j1 := j.(
        lit := false,
        idx := if j.together then 0 else (j.idx + 1) % |j.ports|,
        cyclesLeft := if counted then j.cyclesLeft - 1 else j.cyclesLeft);
      if counted && j1.cyclesLeft == 0 then Edge(j1, Dark, true)
      else if j.offMs > 0 then Edge(j1, Dark, false)
      else Edge(j1.(lit := true), Shine(j1), false)
  }

  /** One entry of the table. */
  datatype Slot = Slot(used: bool, busy: bool, stopReq: bool, gen: nat, job: Job)

  const FreeSlot := Slot(false, false, false, 0, Job("", "", [0], false, 0, -1, 0, false))

  type Table = t: seq<Slot> | |t| == MAX_RUNS witness seq(MAX_RUNS, _ => FreeSlot)

  /** Which runs an ender ends. */
  datatype Target = OnPorts(host: string, ports: set<nat>) | OfRule(rule: string) | Everything

  predicate Wants(t: Target, s: Slot) {
    s.used && match t
      case OnPorts(host, ports) => Mask(s.job) * ports != {} && s.job.host == host
      case OfRule(rule) => s.job.rule == rule
      case Everything => true
  }

  /** A re-fire of the same rule on the same ports finds its running flash. */
  predicate Matches(j: Job, s: Slot) {
    s.used && j.rule != "" && s.job.rule == j.rule && Mask(s.job) == Mask(j) && s.job.host == j.host
  }

  /** The refreshed run keeps its rhythm: the position and phase it is in. */
  function Refreshed(j: Job, s: Slot): Slot {
    s.(job := s.job.(ports := j.ports, together := j.together, offMs := j.offMs, cyclesLeft := j.cyclesLeft))
  }

  lemma {:induction false} MaskSize(ports: seq<nat>)
    requires Distinct(ports)
    ensures |PortSet(ports)| == |ports|
  {
    if ports == [] {
      assert PortSet(ports) == {};
    } else {
      var front := Front(ports);
      MaskSize(front);
      assert forall a | 0 <= a < |front| :: front[a] == ports[a] && ports[a] != ports[|ports| - 1];
      assert PortSet(ports) == PortSet(front) + {Last(ports)};
    }
  }

  /** Equal masks mean equally many ports, so the position stays in range. */
  lemma RefreshKeeps(j: Job, s: Slot)
    requires ValidJob(j) && ValidJob(s.job) && Matches(j, s)
    ensures ValidJob(Refreshed(j, s).job) && Mask(Refreshed(j, s).job) == Mask(s.job)
  {
    MaskSize(j.ports);
    MaskSize(s.job.ports);
  }

  function RequestStop(t: Table, i: nat): Table
    requires i < MAX_RUNS
  {
    if t[i].used then t[i := t[i].(stopReq := true)] else t
  }

  /** One pass of io_flash_end_locked: its wait goes on, its run is over, or it frees the slot. */
  datatype EndResult = Blocked | AlreadyOver | Freed

  function EndTry(t: Table, i: nat, gen: nat): (Table, EndResult)
    requires i < MAX_RUNS
  {
    if !t[i].used || t[i].gen != gen then (t, AlreadyOver)
    else if t[i].busy then (t, Blocked)
    else (t[i := t[i].(used := false)], Freed)
  }

  function FirstFree(t: Table, from: nat): (i: Option<nat>)
    requires from <= MAX_RUNS
    ensures i.Some? ==> from <= i.value < MAX_RUNS && !t[i.value].used
    ensures i.Some? ==> forall k | from <= k < i.value :: t[k].used
    ensures i.None? ==> forall k | from <= k < MAX_RUNS :: t[k].used
    decreases MAX_RUNS - from
  {
    if from == MAX_RUNS then None else if !t[from].used then Some(from) else FirstFree(t, from + 1)
  }

  function FirstMatch(t: Table, j: Job, from: nat): (i: Option<nat>)
    requires from <= MAX_RUNS
    ensures i.Some? ==> from <= i.value < MAX_RUNS && Matches(j, t[i.value])
    ensures i.Some? ==> forall k | from <= k < i.value :: !Matches(j, t[k])
    ensures i.None? ==> forall k | from <= k < MAX_RUNS :: !Matches(j, t[k])
    decreases MAX_RUNS - from
  {
    if from == MAX_RUNS then None else if Matches(j, t[from]) then Some(from) else FirstMatch(t, j, from + 1)
  }

  /** The claimed slot is busy at once: its first edge is sent without the lock. */
  function Claimed(j: Job, gen: nat): Slot {
    Slot(true, true, false, gen, j.(idx := 0, lit := true))
  }

  /** What a worker does when it wakes: leave, or send a command. */
  datatype Turn = Quit | Act(command: Command, final: bool)

  /** limit: the rule was disabled or the time limit has passed. */
  function WorkerTurn(t: Table, i: nat, gen: nat, limit: bool): (Table, Turn)
    requires i < MAX_RUNS && (t[i].used ==> ValidJob(t[i].job))
  {
    var s := t[i];
    if !s.used || s.gen != gen || s.stopReq then (t, Quit)
    else if limit then (t[i := s.(busy := true)], Act(Dark, true))
    else
      var e := Advance(s.job);
      (t[i := s.(busy := true, job := e.job)], Act(e.command, e.final))
  }

  /** The worker's request came back. */
  function Settled(t: Table, i: nat, gen: nat, final: bool): Table
    requires i < MAX_RUNS
  {
    var s := t[i].(busy := false);
    t[i := if final && s.used && s.gen == gen then s.(used := false) else s]
  }

  /** What the starter does when its first edge is back. */
  datatype Landing = LeftToEnder | StartWorker | StartFailed

  function Landed(t: Table, i: nat, gen: nat, ok: bool): (Table, Landing)
    requires i < MAX_RUNS
  {
    var s := t[i].(busy := false);
    if !s.used || s.gen != gen || s.stopReq then (t[i := s], LeftToEnder)
    else if ok then (t[i := s], StartWorker)
    else (t[i := s.(used := false)], StartFailed)
  }

  /** The table as an object; every method is one section under the lock. */
  class FlashRuns {
    const runs: array<Slot>
    var lastGen: nat

    ghost predicate Valid()
      reads this, runs
    {
      && runs.Length == MAX_RUNS
      && lastGen < GENERATIONS
      && forall i | 0 <= i < MAX_RUNS :: ValidJob(runs[i].job)
    }

    ghost function Slots(): Table
      requires runs.Length == MAX_RUNS
      reads runs
    {
      runs[..]
    }

    constructor ()
      ensures Valid() && fresh(runs)
      ensures Slots() == seq(MAX_RUNS, _ => FreeSlot) && lastGen == 0
    {
      runs := new Slot[MAX_RUNS](_ => FreeSlot);
      lastGen := 0;
      new;
      assert runs[..] == seq(MAX_RUNS, _ => FreeSlot);
    }

    method Refresh(j: Job) returns (refreshed: bool)
      requires Valid() && ValidJob(j) && j.idx == 0
      modifies runs
      ensures var m := FirstMatch(old(Slots()), j, 0);
        && refreshed == m.Some?
        && Slots() == if m.Some? then old(Slots())[m.value := Refreshed(j, old(Slots())[m.value])] else old(Slots())
      ensures Valid()
    {
      refreshed := false;
      ghost var t := Slots();
      for i := 0 to MAX_RUNS
        invariant Valid()
        invariant !refreshed ==> Slots() == t && FirstMatch(t, j, 0) == FirstMatch(t, j, i)
        invariant refreshed ==> FirstMatch(t, j, 0).Some?
        invariant refreshed ==>
          Slots() == t[FirstMatch(t, j, 0).value := Refreshed(j, t[FirstMatch(t, j, 0).value])]
      {
        if !refreshed && Matches(j, runs[i]) {
          RefreshKeeps(j, runs[i]);
          runs[i] := Refreshed(j, runs[i]);
          refreshed := true;
        }
      }
    }

    method Claim(j: Job) returns (slot: Option<nat>)
      requires Valid() && ValidJob(j)
      modifies this`lastGen, runs
      ensures Valid() && slot == FirstFree(old(Slots()), 0)
      ensures slot.None? ==> Slots() == old(Slots()) && lastGen == old(lastGen)
      ensures slot.Some? ==> lastGen == (old(lastGen) + 1) % GENERATIONS
      ensures slot.Some? ==> Slots() == old(Slots())[slot.value := Claimed(j, lastGen)]
    {
      slot := None;
      for i := 0 to MAX_RUNS
        invariant slot.None? ==> FirstFree(Slots(), 0) == FirstFree(Slots(), i)
        invariant slot.Some? ==> slot == FirstFree(Slots(), 0)
      {
        if slot.None? && !runs[i].used {
          slot := Some(i);
        }
      }
      if slot.Some? {
        lastGen := (lastGen + 1) % GENERATIONS;
        runs[slot.value] := Claimed(j, lastGen);
      }
    }

    method AskToStop(i: nat) returns (gen: nat)
      requires Valid() && i < MAX_RUNS
      modifies runs
      ensures Valid() && Slots() == RequestStop(old(Slots()), i) && gen == old(runs[i].gen)
    {
      gen := runs[i].gen;
      if runs[i].used {
        runs[i] := runs[i].(stopReq := true);
      }
    }

    method TryEnd(i: nat, gen: nat) returns (r: EndResult)
      requires Valid() && i < MAX_RUNS
      modifies runs
      ensures Valid() && (Slots(), r) == EndTry(old(Slots()), i, gen)
    {
      if runs[i].used && runs[i].gen == gen && runs[i].busy {
        return Blocked;
      }
      if !runs[i].used || runs[i].gen != gen {
        return AlreadyOver;
      }
      runs[i] := runs[i].(used := false);
      return Freed;
    }

    method TakeTurn(i: nat, gen: nat, limit: bool) returns (turn: Turn)
      requires Valid() && i < MAX_RUNS
      modifies runs
      ensures Valid() && (Slots(), turn) == WorkerTurn(old(Slots()), i, gen, limit)
    {
      var r := runs[i];
      if !(r.used && r.gen == gen && !r.stopReq) {
        return Quit;
      }
      var final, command, job := false, Dark, r.job;
      if limit {
        final := true;
      } else {
        var lightNow := true;
        if job.lit {
          var cycleDone := job.together || job.idx == |job.ports| - 1;
          job := job.(lit := false, idx := if job.together then 0 else (job.idx + 1) % |job.ports|);
          if cycleDone && job.cyclesLeft > 0 {
            job := job.(cyclesLeft := job.cyclesLeft - 1);
            final := job.cyclesLeft == 0;
          }
          lightNow := !final && job.offMs == 0;
        }
        if lightNow {
          command := if job.together then AllOn else Light(job.idx);
          job := job.(lit := true);
        }
      }
      runs[i] := r.(busy := true, job := job);
      turn := Act(command, final);
    }

    /** The section behind the first edge. */
    method Land(i: nat, gen: nat, ok: bool) returns (what: Landing)
      requires Valid() && i < MAX_RUNS
      modifies runs
      ensures Valid() && (Slots(), what) == Landed(old(Slots()), i, gen, ok)
    {
      runs[i] := runs[i].(busy := false);
      if !runs[i].used || runs[i].gen != gen || runs[i].stopReq {
        return LeftToEnder;
      }
      if ok {
        return StartWorker;
      }
      runs[i] := runs[i].(used := false);
      assert Slots() == Landed(old(Slots()), i, gen, ok).0;
      return StartFailed;
    }

    method Settle(i: nat, gen: nat, final: bool)
      requires Valid() && i < MAX_RUNS
      modifies runs
      ensures Valid() && Slots() == Settled(old(Slots()), i, gen, final)
    {
      runs[i] := runs[i].(busy := false);
      if final && runs[i].used && runs[i].gen == gen {
        runs[i] := runs[i].(used := false);
      }
    }
  }
}
