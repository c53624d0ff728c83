/** The firing gate of app/engine/rule_engine.c: cooldown, lifetime and per-period
    limits and trigger correlation, over every run of trigger events. */
module RateGate {
  import opened Prelude

  const MAX_TRIGGERS := 16

  datatype Logic = Or | And | AndActive

  /** A rule's settings; period is the text of max_exec_period. */
  datatype Config = Config(logic: Logic, triggers: nat, window: int, cooldown: int, limit: int, period: string)

  predicate ValidConfig(c: Config) {
    c.triggers <= MAX_TRIGGERS
  }

  function PeriodSeconds(c: Config): int {
    if c.period == "hour" then 3600 else if c.period == "day" then 86400 else 60
  }

  type Stamps = s: seq<int> | |s| == MAX_TRIGGERS witness seq(MAX_TRIGGERS, _ => 0)

  /** What the engine keeps of a rule between events. */
  datatype Gate = Gate(enabled: bool, lastFired: int, executions: nat, inPeriod: nat, periodStart: int, firedAt: Stamps)

  /** A call of on_trigger_fired: the clock as read for correlation, cooldown, limit
      and execution, whether all triggers are active, whether the conditions pass. */
  datatype Event = Event(trigger: int, t1: int, t2: int, t3: int, t4: int, allActive: bool, passes: bool)

  datatype Step = Trigger(e: Event) | SetEnabled(on: bool)

  /** An execution, with the start of the counting period it fell in. */
  datatype Execution = Execution(at: int, period: int)

  /** log is every execution; seen is every trigger noted since the last one. */
  datatype World = World(gate: Gate, log: seq<Execution>, seen: seq<(int, int)>)

  function NoStamps(): Stamps {
    seq(MAX_TRIGGERS, _ => 0)
  }

  function Start(enabled: bool): World {
    World(Gate(enabled, 0, 0, 0, 0, NoStamps()), [], [])
  }

  predicate Correlates(c: Config) {
    c.logic == And && c.triggers > 1
  }

  /** The trigger's stamp is taken before anything can block the event. */
  function Noted(c: Config, g: Gate, e: Event): Gate {
    if Correlates(c) && 0 <= e.trigger < c.triggers && e.trigger < MAX_TRIGGERS
    then g.(firedAt := g.firedAt[e.trigger := e.t1]) else g
  }

  predicate AllFired(c: Config, g: Gate, now: int) {
    forall i | 0 <= i < c.triggers && i < MAX_TRIGGERS ::
      g.firedAt[i] != 0 && (c.window > 0 ==> now - g.firedAt[i] <= c.window)
  }

  predicate Together(c: Config, g: Gate, e: Event) {
    if Correlates(c) then AllFired(c, g, e.t1)
    else c.logic == AndActive && c.triggers > 1 ==> e.allActive
  }

  predicate Cooling(c: Config, g: Gate, e: Event) {
    c.cooldown > 0 && g.lastFired > 0 && e.t2 - g.lastFired < c.cooldown
  }

  predicate RollsOver(c: Config, g: Gate, e: Event) {
    c.limit > 0 && c.period != "" && (g.periodStart == 0 || e.t3 - g.periodStart >= PeriodSeconds(c))
  }

  function Rolled(c: Config, g: Gate, e: Event): Gate {
    if RollsOver(c, g, e) then g.(periodStart := e.t3, inPeriod := 0) else g
  }

  predicate Exhausted(c: Config, g: Gate) {
    c.limit > 0 && (if c.period != "" then g.inPeriod >= c.limit else g.executions >= c.limit)
  }

  function Executed(c: Config, g: Gate, e: Event): Gate {
    Gate(g.enabled, e.t4, g.executions + 1, if c.period != "" then g.inPeriod + 1 else g.inPeriod, g.periodStart,
         if c.logic == And then NoStamps() else g.firedAt)
  }

  /** The gate after an event, and whether the rule executed. */
  function Fire(c: Config, g: Gate, e: Event): (Gate, bool) {
    if !g.enabled then (g, false)
    else
      var noted := Noted(c, g, e);
      if !Together(c, noted, e) || Cooling(c, noted, e) then (noted, false)
      else
        var rolled := Rolled(c, noted, e);
        if Exhausted(c, rolled) || !e.passes then (rolled, false)
        else (Executed(c, rolled, e), true)
  }

  function Next(c: Config, w: World, s: Step): World {
    match s
    case SetEnabled(on) => w.(gate := w.gate.(enabled := on))
    case Trigger(e) =>
      var r := Fire(c, w.gate, e);
      if r.1 then World(r.0, w.log + [Execution(e.t4, r.0.periodStart)], [])
      else w.(gate := r.0, seen := if w.gate.enabled then w.seen + [(e.trigger, e.t1)] else w.seen)
  }

  function Exec(c: Config, enabled: bool, steps: seq<Step>): World {
    if steps == [] then Start(enabled) else Next(c, Exec(c, enabled, Front(steps)), Last(steps))
  }

  /** The clock when the run has reached its end. */
  function Clock(steps: seq<Step>): int {
    if steps == [] then 1
    else match Last(steps)
      case SetEnabled(_) => Clock(Front(steps))
      case Trigger(e) => e.t4
  }

  /** The clock is positive and never goes back, within an event or between events. */
  predicate Timely(steps: seq<Step>) {
    steps == [] ||
    (Timely(Front(steps)) &&
     match Last(steps)
     case SetEnabled(_) => true
     case Trigger(e) => Clock(Front(steps)) <= e.t1 <= e.t2 <= e.t3 <= e.t4)
  }

  // ----- Counting executions -----

  function InPeriod(log: seq<Execution>, period: int): nat {
    if log == [] then 0 else InPeriod(Front(log), period) + if Last(log).period == period then 1 else 0
  }

  /** Executions in the window [from, to). */
  function InWindow(log: seq<Execution>, from: int, to: int): nat {
    if log == [] then 0 else InWindow(Front(log), from, to) + if from <= Last(log).at < to then 1 else 0
  }

  lemma CountMore(log: seq<Execution>, x: Execution, period: int)
    ensures InPeriod(log + [x], period) == InPeriod(log, period) + if x.period == period then 1 else 0
  {
    FrontLast(log, x);
  }

  /** Executions of two periods cover a window that holds no others. */
  lemma {:induction false} CoveredBy(log: seq<Execution>, from: int, to: int, p: int, q: int)
    requires forall i | 0 <= i < |log| && from <= log[i].at < to :: log[i].period == p || log[i].period == q
    ensures InWindow(log, from, to) <= InPeriod(log, p) + InPeriod(log, q)
  {
    if log != [] {
      CoveredBy(Front(log), from, to, p, q);
    }
  }

  lemma {:induction false} NoneIn(log: seq<Execution>, from: int, to: int)
    requires forall i | 0 <= i < |log| :: !(from <= log[i].at < to)
    ensures InWindow(log, from, to) == 0
  {
    if log != [] {
      NoneIn(Front(log), from, to);
    }
  }

  // ----- Invariant -----

  /** Each execution happens in its counting period, and a later period starts a
      whole period after and only once the earlier one's executions are done. */
  predicate Periods(log: seq<Execution>, length: int) {
    && (forall i | 0 <= i < |log| :: log[i].period <= log[i].at)
    && (forall i, j | 0 <= i < j < |log| :: log[i].period == log[j].period ||
          (log[i].period + length <= log[j].period && log[i].at <= log[j].period))
  }

  predicate Spaced(log: seq<Execution>, gap: int) {
    forall i, j | 0 <= i < j < |log| :: log[j].at - log[i].at >= gap
  }

  /** The stamp of trigger i is when it was last noted since the last execution. */
  function LastSeen(seen: seq<(int, int)>, i: int): int {
    if seen == [] then 0 else if Last(seen).0 == i then Last(seen).1 else LastSeen(Front(seen), i)
  }

  ghost predicate Inv(c: Config, w: World, now: int) {
    && w.gate.executions == |w.log|
    && (w.log == [] ==> w.gate.lastFired == 0)
    && (w.log != [] ==> w.gate.lastFired == Last(w.log).at)
    && (forall i | 0 <= i < |w.log| :: 0 < w.log[i].at <= now)
    && (c.cooldown > 0 ==> Spaced(w.log, c.cooldown))
    && (c.limit > 0 && c.period == "" ==> |w.log| <= c.limit)
    && (c.limit > 0 && c.period != "" ==> PeriodInv(c, w, now))
    && (Correlates(c) ==> forall i | 0 <= i < c.triggers && i < MAX_TRIGGERS ::
          w.gate.firedAt[i] == LastSeen(w.seen, i))
  }

  ghost predicate PeriodInv(c: Config, w: World, now: int) {
    && Periods(w.log, PeriodSeconds(c))
    && (forall p: int :: InPeriod(w.log, p) <= c.limit)
    && w.gate.inPeriod == InPeriod(w.log, w.gate.periodStart) && 0 <= w.gate.periodStart <= now
    && (w.log != [] ==> w.gate.periodStart != 0)
    && (forall i | 0 <= i < |w.log| :: w.log[i].period == w.gate.periodStart ||
          (w.log[i].period + PeriodSeconds(c) <= w.gate.periodStart && w.log[i].at <= w.gate.periodStart))
  }

  lemma LaterKeeps(c: Config, w: World, now: int, later: int)
    requires Inv(c, w, now) && now <= later
    ensures Inv(c, w, later)
  {
  }

  /** Noting a trigger keeps the stamps in step with what was seen. */
  lemma NotedKeeps(c: Config, w: World, now: int, e: Event)
    requires Inv(c, w, now)
    ensures Inv(c, w.(gate := Noted(c, w.gate, e), seen := w.seen + [(e.trigger, e.t1)]), now)
  {
    FrontLast(w.seen, (e.trigger, e.t1));
  }

  /** A period that starts later than every execution's has none yet. */
  lemma {:induction false} FreshPeriod(log: seq<Execution>, period: int)
    requires forall i | 0 <= i < |log| :: log[i].period < period
    ensures InPeriod(log, period) == 0
  {
    if log != [] {
      FreshPeriod(Front(log), period);
    }
  }

  lemma RolledKeeps(c: Config, w: World, now: int, e: Event)
    requires Inv(c, w, now) && 0 < now <= e.t3
    ensures Inv(c, w.(gate := Rolled(c, w.gate, e)), e.t3)
    ensures c.limit > 0 && c.period != "" ==> Rolled(c, w.gate, e).periodStart != 0
  {
    if RollsOver(c, w.gate, e) {
      FreshPeriod(w.log, e.t3);
    }
  }

  lemma ExecutedKeeps(c: Config, w: World, now: int, e: Event)
    requires Inv(c, w, now) && 0 < now <= e.t4 && e.t2 <= e.t4
    requires !Cooling(c, w.gate, e) && !Exhausted(c, w.gate)
    requires c.limit > 0 && c.period != "" ==> w.gate.periodStart != 0
    ensures Inv(c, World(Executed(c, w.gate, e), w.log + [Execution(e.t4, w.gate.periodStart)], []), e.t4)
  {
    var x := Execution(e.t4, w.gate.periodStart);
    var w' := World(Executed(c, w.gate, e), w.log + [x], []);
    if c.limit > 0 && c.period != "" {
      PeriodsKeep(c, w, now, e);
    }
    if c.cooldown > 0 {
      SpacingKeeps(c, w, now, e);
    }
    LogKeeps(w.log, x, now);
    assert w'.gate.firedAt == (if c.logic == And then NoStamps() else w.gate.firedAt);
  }

  lemma LogKeeps(log: seq<Execution>, x: Execution, now: int)
    requires forall i | 0 <= i < |log| :: 0 < log[i].at <= now
    requires 0 < now <= x.at
    ensures var log' := log + [x]; Last(log') == x && forall i | 0 <= i < |log'| :: 0 < log'[i].at <= x.at
  {
  }

  lemma SpacingKeeps(c: Config, w: World, now: int, e: Event)
    requires Inv(c, w, now) && c.cooldown > 0 && !Cooling(c, w.gate, e) && e.t2 <= e.t4
    ensures Spaced(w.log + [Execution(e.t4, w.gate.periodStart)], c.cooldown)
  {
    if w.log != [] {
      SpacedMore(w.log, Execution(e.t4, w.gate.periodStart), c.cooldown);
    }
  }

  lemma PeriodsKeep(c: Config, w: World, now: int, e: Event)
    requires c.limit > 0 && c.period != "" && PeriodInv(c, w, now) && now <= e.t4
    requires w.gate.inPeriod < c.limit && w.gate.periodStart != 0
    ensures PeriodInv(c, World(Executed(c, w.gate, e), w.log + [Execution(e.t4, w.gate.periodStart)], []), e.t4)
  {
    var x := Execution(e.t4, w.gate.periodStart);
    forall p: int ensures InPeriod(w.log + [x], p) <= c.limit {
      CountMore(w.log, x, p);
    }
    CountMore(w.log, x, w.gate.periodStart);
    PeriodsMore(w.log, x, PeriodSeconds(c));
  }

  lemma PeriodsMore(log: seq<Execution>, x: Execution, length: int)
    requires Periods(log, length) && x.period <= x.at
    requires forall i | 0 <= i < |log| ::
      log[i].period == x.period || (log[i].period + length <= x.period && log[i].at <= x.period)
    ensures Periods(log + [x], length)
  {
  }

  lemma SpacedMore(log: seq<Execution>, x: Execution, gap: int)
    requires Spaced(log, gap) && log != [] && x.at - Last(log).at >= gap >= 0
    ensures Spaced(log + [x], gap)
  {
    forall i | 0 <= i < |log| ensures x.at - log[i].at >= gap {
      if i < |log| - 1 {
        assert log[|log| - 1].at - log[i].at >= gap;
      }
    }
  }

  lemma TriggerKeeps(c: Config, w: World, now: int, e: Event)
    requires Inv(c, w, now) && 0 < now <= e.t1 <= e.t2 <= e.t3 <= e.t4
    ensures Inv(c, Next(c, w, Trigger(e)), e.t4)
  {
    if w.gate.enabled {
      var w1 := w.(gate := Noted(c, w.gate, e), seen := w.seen + [(e.trigger, e.t1)]);
      NotedKeeps(c, w, now, e);
      if Together(c, w1.gate, e) && !Cooling(c, w1.gate, e) {
        var w2 := w1.(gate := Rolled(c, w1.gate, e));
        RolledKeeps(c, w1, now, e);
        if !Exhausted(c, w2.gate) && e.passes {
          ExecutedKeeps(c, w2, e.t3, e);
        } else {
          LaterKeeps(c, w2, e.t3, e.t4);
        }
      } else {
        LaterKeeps(c, w1, now, e.t4);
      }
    } else {
      LaterKeeps(c, w, now, e.t4);
    }
  }

  lemma {:induction false} RunKeeps(c: Config, enabled: bool, steps: seq<Step>)
    requires Timely(steps)
    ensures Clock(steps) > 0 && Inv(c, Exec(c, enabled, steps), Clock(steps))
  {
    if steps != [] {
      RunKeeps(c, enabled, Front(steps));
      match Last(steps)
      case SetEnabled(_) =>
      case Trigger(e) => TriggerKeeps(c, Exec(c, enabled, Front(steps)), Clock(Front(steps)), e);
    }
  }

  // ----- What holds of every run -----

  /** Executions are at least the cooldown apart and, without a period, at most as
      many as the limit. */
  lemma CooldownAndLifetime(c: Config, enabled: bool, steps: seq<Step>)
    requires Timely(steps)
    ensures c.cooldown > 0 ==> Spaced(Exec(c, enabled, steps).log, c.cooldown)
    ensures c.limit > 0 && c.period == "" ==> |Exec(c, enabled, steps).log| <= c.limit
    ensures Exec(c, enabled, steps).gate.executions == |Exec(c, enabled, steps).log|
  {
    RunKeeps(c, enabled, steps);
  }

  /** With a period: at most the limit in each counting period, and at most twice
      the limit in any window of one period's length, wherever it starts. */
  lemma PeriodLimits(c: Config, enabled: bool, steps: seq<Step>, period: int, from: int)
    requires Timely(steps) && c.limit > 0 && c.period != ""
    ensures InPeriod(Exec(c, enabled, steps).log, period) <= c.limit
    ensures var seconds := if c.period == "hour" then 3600 else if c.period == "day" then 86400 else 60;
      InWindow(Exec(c, enabled, steps).log, from, from + seconds) <= 2 * c.limit
  {
    RunKeeps(c, enabled, steps);
    TwoPeriods(Exec(c, enabled, steps).log, PeriodSeconds(c), from, c.limit);
  }

  /** A window of one period's length meets at most two counting periods. */
  lemma TwoPeriods(log: seq<Execution>, length: int, from: int, limit: int)
    requires Periods(log, length) && length > 0 && forall p: int :: InPeriod(log, p) <= limit
    ensures InWindow(log, from, from + length) <= 2 * limit
  {
    var to := from + length;
    if i :| 0 <= i < |log| && from <= log[i].at < to {
      var p := log[i].period;
      if j :| 0 <= j < |log| && from <= log[j].at < to && log[j].period != p {
        var q := log[j].period;
        forall k | 0 <= k < |log| && from <= log[k].at < to ensures log[k].period == p || log[k].period == q {
          ThreePeriods(log, length, from, i, j, k);
        }
        CoveredBy(log, from, to, p, q);
      } else {
        CoveredBy(log, from, to, p, p - length);
      }
    } else {
      NoneIn(log, from, to);
      assert InPeriod(log, 0) <= limit;
    }
  }

  lemma Ordered(log: seq<Execution>, length: int, i: nat, j: nat)
    requires Periods(log, length) && length > 0 && i < |log| && j < |log| && log[i].period < log[j].period
    ensures log[i].period + length <= log[j].period && log[i].at <= log[j].period <= log[j].at
  {
    assert !(j < i);
  }

  lemma ThreePeriods(log: seq<Execution>, length: int, from: int, i: nat, j: nat, k: nat)
    requires Periods(log, length) && length > 0 && i < |log| && j < |log| && k < |log|
    requires from <= log[i].at < from + length && from <= log[j].at < from + length && from <= log[k].at < from + length
    requires log[i].period != log[j].period
    ensures log[k].period == log[i].period || log[k].period == log[j].period
  {
    var a := if log[i].period < log[j].period then i else j;
    var b := if log[i].period < log[j].period then j else i;
    Ordered(log, length, a, b);
    if log[k].period < log[a].period {
      Ordered(log, length, k, a);
    } else if log[a].period < log[k].period < log[b].period {
      Ordered(log, length, a, k);
      Ordered(log, length, k, b);
    } else if log[k].period > log[b].period {
      Ordered(log, length, b, k);
    }
  }

  /** Trigger i is among those seen, no longer ago than the window if there is one. */
  predicate NotedWithin(seen: seq<(int, int)>, i: int, now: int, window: int) {
    exists k | 0 <= k < |seen| :: seen[k].0 == i && (window > 0 ==> now - seen[k].1 <= window)
  }

  /** A rule that needs all its triggers executes only when each of them has been
      noted since the last execution, lately enough when there is a window. */
  lemma CorrelatedExecution(c: Config, enabled: bool, steps: seq<Step>, e: Event, i: nat)
    requires Timely(steps + [Trigger(e)]) && Correlates(c) && ValidConfig(c) && i < c.triggers
    requires Fire(c, Exec(c, enabled, steps).gate, e).1
    ensures NotedWithin(Exec(c, enabled, steps).seen + [(e.trigger, e.t1)], i, e.t1, c.window)
  {
    FrontLast(steps, Trigger(e));
    RunKeeps(c, enabled, steps);
    var w := Exec(c, enabled, steps);
    NotedKeeps(c, w, Clock(steps), e);
    var seen := w.seen + [(e.trigger, e.t1)];
    var noted := Noted(c, w.gate, e);
    assert noted.firedAt[i] == LastSeen(seen, i) != 0;
    SeenIn(seen, i);
  }

  lemma {:induction false} SeenIn(seen: seq<(int, int)>, i: int)
    ensures LastSeen(seen, i) != 0 ==> (i, LastSeen(seen, i)) in seen
  {
    if seen != [] {
      SeenIn(Front(seen), i);
      assert Last(seen) in seen;
    }
  }

  // ----- The rule's record in place -----

  class Rule {
    const config: Config
    var enabled: bool
    var lastFired: int
    var executions: nat
    var inPeriod: nat
    var periodStart: int
    const firedAt: array<int>

    ghost predicate Valid() {
      firedAt.Length == MAX_TRIGGERS && ValidConfig(config)
    }

    ghost function State(): Gate
      requires Valid()
      reads this, firedAt
    {
      Gate(enabled, lastFired, executions, inPeriod, periodStart, firedAt[..])
    }

    constructor (c: Config, on: bool)
      requires ValidConfig(c)
      ensures Valid() && fresh(firedAt) && config == c && State() == Start(on).gate
    {
      config, enabled := c, on;
      lastFired, executions, inPeriod, periodStart := 0, 0, 0, 0;
      firedAt := new int[MAX_TRIGGERS](_ => 0);
      new;
      assert firedAt[..] == NoStamps();
    }

    /** The correlation block: stamp the trigger, then look at all of them. */
    method Correlate(e: Event) returns (all: bool)
      requires Valid() && Correlates(config)
      modifies firedAt
      ensures State() == Noted(config, old(State()), e)
      ensures all == AllFired(config, State(), e.t1)
    {
      if 0 <= e.trigger < config.triggers {
        firedAt[e.trigger] := e.t1;
      }
      for i := 0 to config.triggers
        invariant forall j | 0 <= j < i :: firedAt[j] != 0 && (config.window > 0 ==> e.t1 - firedAt[j] <= config.window)
      {
        if firedAt[i] == 0 || (config.window > 0 && e.t1 - firedAt[i] > config.window) {
          return false;
        }
      }
      return true;
    }

    /** on_trigger_fired up to the execution of the actions. */
    method OnTriggerFired(e: Event) returns (executed: bool)
      requires Valid()
      modifies this, firedAt
      ensures Valid() && (State(), executed) == Fire(config, old(State()), e)
    {
      if !enabled {
        return false;
      }
      if config.logic == And && config.triggers > 1 {
        var all := Correlate(e);
        if !all {
          return false;
        }
      }
      if config.logic == AndActive && config.triggers > 1 && !e.allActive {
        return false;
      }
      if config.cooldown > 0 && lastFired > 0 && e.t2 - lastFired < config.cooldown {
        return false;
      }
      var within := WithinLimit(e);
      if !within || !e.passes {
        return false;
      }
      Record(e);
      return true;
    }

    /** The limit block: the period rolls over, then the count is looked at. */
    method WithinLimit(e: Event) returns (within: bool)
      requires Valid()
      modifies this`periodStart, this`inPeriod
      ensures State() == Rolled(config, old(State()), e) && within == !Exhausted(config, State())
    {
      within := true;
      if config.limit > 0 {
        if config.period != "" {
          var seconds := if config.period == "hour" then 3600 else if config.period == "day" then 86400 else 60;
          if periodStart == 0 || e.t3 - periodStart >= seconds {
            periodStart := e.t3;
            inPeriod := 0;
          }
          within := inPeriod < config.limit;
        } else {
          within := executions < config.limit;
        }
      }
    }

    method Record(e: Event)
      requires Valid() && enabled
      modifies this, firedAt
      ensures State() == Executed(config, old(State()), e)
    {
      if config.logic == And {
        ClearStamps();
      }
      lastFired := e.t4;
      executions := executions + 1;
      if config.period != "" {
        inPeriod := inPeriod + 1;
      }
    }

    method ClearStamps()
      requires Valid()
      modifies firedAt
      ensures firedAt[..] == NoStamps()
    {
      forall i | 0 <= i < MAX_TRIGGERS {
        firedAt[i] := 0;
      }
    }
  }
}
