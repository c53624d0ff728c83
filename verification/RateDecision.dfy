/** The other side of the firing gate: a rule executes exactly when its logic, its
    cooldown and its limits allow it, told by the executions so far alone. */
module RateDecision {
  import opened Prelude
  import opened RateGate

  function EnabledBy(enabled: bool, steps: seq<Step>): bool {
    if steps == [] then enabled
    else if Last(steps).SetEnabled? then Last(steps).on
    else EnabledBy(enabled, Front(steps))
  }

  /** The triggers have come together: each noted since the last execution and within
      the window, or all active at once, when the rule asks for that. */
  predicate Gathered(c: Config, seen: seq<(int, int)>, e: Event) {
    && (c.logic == And && c.triggers > 1 ==>
          forall i | 0 <= i < c.triggers :: NotedWithin(seen + [(e.trigger, e.t1)], i, e.t1, c.window))
    && (c.logic == AndActive && c.triggers > 1 ==> e.allActive)
  }

  predicate Rested(c: Config, log: seq<Execution>, e: Event) {
    c.cooldown > 0 && log != [] ==> e.t2 - Last(log).at >= c.cooldown
  }

  /** The length of a counting period: an hour, a day or else a minute, in seconds. */
  function Length(period: string): nat {
    match period
    case "hour" => 3600
    case "day" => 86400
    case _ => 60
  }

  /** Fewer executions than the limit: ever, or in the counting period of the last
      one unless that period has run out. */
  predicate BelowLimit(c: Config, log: seq<Execution>, e: Event) {
    c.limit > 0 && log != [] ==>
      if c.period == "" then |log| < c.limit
      else InPeriod(log, Last(log).period) < c.limit || e.t3 - Last(log).period >= Length(c.period)
  }

  predicate MayExecute(c: Config, log: seq<Execution>, seen: seq<(int, int)>, enabled: bool, e: Event) {
    enabled && e.passes && Gathered(c, seen, e) && Rested(c, log, e) && BelowLimit(c, log, e)
  }

  // ----- What the gate keeps of the triggers seen -----

  predicate SeenInOrder(seen: seq<(int, int)>, now: int) {
    && (forall k | 0 <= k < |seen| :: 0 < seen[k].1 <= now)
    && forall a, b | 0 <= a < b < |seen| :: seen[a].1 <= seen[b].1
  }

  lemma {:induction false} SeenKeeps(c: Config, enabled: bool, steps: seq<Step>)
    requires Timely(steps)
    ensures Clock(steps) > 0 && SeenInOrder(Exec(c, enabled, steps).seen, Clock(steps))
    ensures Exec(c, enabled, steps).gate.enabled == EnabledBy(enabled, steps)
  {
    if steps != [] {
      SeenKeeps(c, enabled, Front(steps));
    }
  }

  /** The last stamp decides whether the trigger was noted lately enough. */
  lemma {:induction false} LastSeenDecides(seen: seq<(int, int)>, now: int, i: int, window: int)
    requires SeenInOrder(seen, now)
    ensures NotedWithin(seen, i, now, window) <==>
      LastSeen(seen, i) != 0 && (window > 0 ==> now - LastSeen(seen, i) <= window)
  {
    if seen != [] {
      var front := Front(seen);
      LastSeenDecides(front, now, i, window);
      if NotedWithin(front, i, now, window) {
        var k :| 0 <= k < |front| && front[k].0 == i && (window > 0 ==> now - front[k].1 <= window);
        assert seen[k] == front[k];
      }
      if Last(seen).0 != i && NotedWithin(seen, i, now, window) {
        var k :| 0 <= k < |seen| && seen[k].0 == i && (window > 0 ==> now - seen[k].1 <= window);
        assert front[k] == seen[k];
      }
    }
  }

  lemma GatheredExactly(c: Config, w: World, now: int, e: Event)
    requires ValidConfig(c) && Inv(c, w, now) && SeenInOrder(w.seen, now) && now <= e.t1 && 0 < e.t1
    ensures Together(c, Noted(c, w.gate, e), e) <==> Gathered(c, w.seen, e)
  {
    if Correlates(c) {
      var seen := w.seen + [(e.trigger, e.t1)];
      NotedKeeps(c, w, now, e);
      forall i | 0 <= i < c.triggers
        ensures NotedWithin(seen, i, e.t1, c.window) <==>
          var at := Noted(c, w.gate, e).firedAt[i]; at != 0 && (c.window > 0 ==> e.t1 - at <= c.window)
      {
        LastSeenDecides(seen, e.t1, i, c.window);
      }
    }
  }

  lemma RestedExactly(c: Config, w: World, now: int, e: Event)
    requires Inv(c, w, now)
    ensures Cooling(c, Noted(c, w.gate, e), e) <==> !Rested(c, w.log, e)
  {
  }

  /** A period that began after the last execution has none yet. */
  lemma LimitExactly(c: Config, w: World, now: int, e: Event)
    requires Inv(c, w, now) && now <= e.t3
    ensures Exhausted(c, Rolled(c, Noted(c, w.gate, e), e)) <==> !BelowLimit(c, w.log, e)
  {
    if c.limit > 0 && c.period != "" && !RollsOver(c, w.gate, e) && w.log != [] {
      if Last(w.log).period != w.gate.periodStart {
        FreshPeriod(w.log, w.gate.periodStart);
      }
    }
  }

  /** A rule executes on an event exactly when it may, and then once, at the event. */
  lemma ExecutesExactly(c: Config, enabled: bool, steps: seq<Step>, e: Event)
    requires ValidConfig(c) && Timely(steps + [Trigger(e)])
    ensures var w, log' := Exec(c, enabled, steps), Exec(c, enabled, steps + [Trigger(e)]).log;
      if MayExecute(c, w.log, w.seen, EnabledBy(enabled, steps), e)
      then |log'| == |w.log| + 1 && Front(log') == w.log && Last(log').at == e.t4
      else log' == w.log
  {
    FrontLast(steps, Trigger(e));
    RunKeeps(c, enabled, steps);
    SeenKeeps(c, enabled, steps);
    var w, now := Exec(c, enabled, steps), Clock(steps);
    GatheredExactly(c, w, now, e);
    RestedExactly(c, w, now, e);
    LimitExactly(c, w, now, e);
  }

  // ----- Counting periods -----

  /** The moment is when some event's limit was looked at. */
  predicate IsReading(steps: seq<Step>, at: int) {
    exists k | 0 <= k < |steps| :: steps[k].Trigger? && steps[k].e.t3 == at
  }

  /** The counting periods of the executions, and the present one, are readings. */
  ghost predicate PeriodsRead(w: World, steps: seq<Step>) {
    && (w.gate.periodStart == 0 || IsReading(steps, w.gate.periodStart))
    && forall i | 0 <= i < |w.log| :: w.log[i].period == 0 || IsReading(steps, w.log[i].period)
  }

  lemma ReadingsStay(steps: seq<Step>, at: int)
    requires steps != [] && IsReading(Front(steps), at)
    ensures IsReading(steps, at)
  {
    var k :| 0 <= k < |Front(steps)| && Front(steps)[k].Trigger? && Front(steps)[k].e.t3 == at;
    assert steps[k] == Front(steps)[k];
  }

  lemma {:induction false} PeriodsAreRead(c: Config, enabled: bool, steps: seq<Step>)
    requires c.limit > 0 && c.period != ""
    ensures PeriodsRead(Exec(c, enabled, steps), steps)
  {
    if steps != [] {
      PeriodsAreRead(c, enabled, Front(steps));
      forall at | IsReading(Front(steps), at) ensures IsReading(steps, at) {
        ReadingsStay(steps, at);
      }
      if Last(steps).Trigger? {
        assert IsReading(steps, Last(steps).e.t3);
      }
    }
  }

  /** Every execution falls in a counting period that began when the limit of some
      event was looked at, and not after the execution. */
  lemma PeriodsBeginAtEvents(c: Config, enabled: bool, steps: seq<Step>, i: nat)
    requires Timely(steps) && c.limit > 0 && c.period != "" && i < |Exec(c, enabled, steps).log|
    ensures var x := Exec(c, enabled, steps).log[i]; 0 < x.period <= x.at && IsReading(steps, x.period)
  {
    PeriodsAreRead(c, enabled, steps);
    RunKeeps(c, enabled, steps);
    PeriodsPositive(c, enabled, steps, i);
  }

  lemma {:induction false} PeriodsPositive(c: Config, enabled: bool, steps: seq<Step>, i: nat)
    requires Timely(steps) && c.limit > 0 && c.period != "" && i < |Exec(c, enabled, steps).log|
    ensures Exec(c, enabled, steps).log[i].period > 0
  {
    if steps != [] {
      RunKeeps(c, enabled, Front(steps));
      RunKeeps(c, enabled, steps);
      if i < |Exec(c, enabled, Front(steps)).log| {
        PeriodsPositive(c, enabled, Front(steps), i);
      }
    }
  }
}
