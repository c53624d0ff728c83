/** That nobody waits for ever: an ender waits only for a request that is in flight,
    some thread can always go on, and a start that fails is cleaned up. */
module FlashProgress {
  import opened Prelude
  import opened FlashTable
  import opened FlashProtocol
  import opened FlashSafety

  /** The run that an ender waits for has a request in flight. */
  predicate InFlightAt(w: World, th: Thread)
    requires th.Waiting? && th.at < MAX_RUNS
  {
    var s := w.table[th.at];
    s.used && s.gen == th.awaited && s.busy
  }

  /** An ender waits exactly while the request is in flight; then it goes on to the
      next slot, and the run it waited for is out of the table. */
  lemma WaitsExactlyInFlight(w: World, t: nat, limit: bool, ok: bool)
    requires InRange(w) && t < |w.threads| && w.threads[t].Waiting?
    ensures var w', th := Moved(w, t, limit, ok), w.threads[t];
      if InFlightAt(w, th) then w' == w
      else
        && w'.threads[t].Scanning? && w'.threads[t].at == th.at + 1
        && w'.threads[t].target == th.target && w'.threads[t].goal == th.goal
        && !(w'.table[th.at].used && w'.table[th.at].gen == th.awaited)
  {
  }

  /** Thread t takes a step when it is its turn. */
  predicate GoesOn(w: World, t: nat)
    requires InRange(w) && t < |w.threads|
  {
    Moved(w, t, false, true).threads[t] != w.threads[t]
  }

  lemma OnlyWaitersStay(w: World, t: nat)
    requires InRange(w) && t < |w.threads| && w.threads[t] != Finished
    ensures GoesOn(w, t) || (w.threads[t].Waiting? && InFlightAt(w, w.threads[t]))
  {
    if w.threads[t].Waiting? {
      WaitsExactlyInFlight(w, t, false, true);
    }
  }

  /** A request in flight belongs to a thread that can go on. */
  lemma DriverGoesOn(w: World, i: nat) returns (k: nat)
    requires Safe(w) && i < MAX_RUNS && w.table[i].used && w.table[i].busy
    ensures k < |w.threads| && w.threads[k] != Finished && GoesOn(w, k)
  {
    var gen := w.table[i].gen;
    assert SlotInv(w, i) && RunInv(w, gen);
    k := w.phases[gen].who;
    OnlyWaitersStay(w, k);
  }

  /** There is no deadlock: in every reachable state in which some thread is not
      finished, some thread goes on. */
  lemma NoDeadlock(steps: seq<Step>, t: nat)
    requires Exec(steps).started < GENERATIONS && t < |Exec(steps).threads| && Exec(steps).threads[t] != Finished
    ensures exists k :: 0 <= k < |Exec(steps).threads| && GoesOn(Exec(steps), k)
  {
    var w := Exec(steps);
    RunSafe(steps);
    OnlyWaitersStay(w, t);
    if !GoesOn(w, t) {
      var k := DriverGoesOn(w, w.threads[t].at);
    }
  }

  /** When the first edge of a flash is back and nobody has asked the run to stop, a
      worker takes it over; if the request failed, the slot is free again and the
      next thing the starter does is to send the run's all-off. */
  lemma StartIsHandedOn(w: World, t: nat, limit: bool, ok: bool)
    requires Safe(w) && t < |w.threads| && w.threads[t].Opening? && w.threads[t].inFlight
    requires var th := w.threads[t]; !w.table[th.slot].stopReq
    ensures var w', th := Moved(w, t, limit, ok), w.threads[t];
      if ok then
        && w'.threads[t] == Finished && Last(w'.threads) == Working(th.slot, th.gen)
        && w'.table[th.slot].used && w'.table[th.slot].gen == th.gen && !w'.table[th.slot].busy
      else
        && !w'.table[th.slot].used
        && Moved(w', t, limit, ok).log == w'.log + [Begin(th.gen, Dark, true)]
  {
    var th := w.threads[t];
    assert ThreadInv(w, t) && RunInv(w, th.gen);
  }
}
