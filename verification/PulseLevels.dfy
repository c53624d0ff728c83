/** What a port shows at every moment of a run: the state last asked for, until its
    timer fires or its camera sequence ends, and from then on the state it had
    before; and that every pulse can end. */
module PulseLevels {
  import opened Prelude
  import opened TimedOutputs
  import opened TimedOutputRuns

  // ----- Requests -----

  /** Some entry is free, or is freed because the request takes all its ports. */
  predicate HasRoom(t: Table, host: string, ps: seq<Setting>) {
    exists i | 0 <= i < 32 :: !t[i].used || (t[i].host == host && forall s | s in t[i].restore :: Lists(ps, s.port))
  }

  /** No port of the request waits for the engine to close the books on a camera
      sequence that is over. */
  predicate Unbooked(w: World, host: string, ps: seq<Setting>) {
    forall k, i | 0 <= k < |ps| && 0 <= i < 32 && Holds(w.table[i], host, ps[k].port) ::
      w.table[i].byTimer || (host, ps[k].port) in w.running
  }

  /** The step asks for a state of the port: a timed action with room for its
      booking, or a plain setting. */
  predicate Asks(w: World, s: Step, h: string, p: nat) {
    (s.Timed? || s.Plain?) && s.host == h && Lists(s.ps, p)
    && 1 <= |s.ps| <= 16 && DistinctPorts(s.ps)
    && (if s.Timed? then HasRoom(w.table, h, s.ps) else Unbooked(w, h, s.ps))
  }

  /** The step ends the port's pulse: the timer of the restore that holds it fires,
      or its camera sequence is over. */
  predicate EndsPulse(w: World, s: Step, h: string, p: nat) {
    match s
    case TimerFires(i) => i < 32 && w.table[i].byTimer && Holds(w.table[i], h, p)
    case CameraEnds(host, port) => (host, port) == (h, p) && (h, p) in w.running
    case _ => false
  }

  lemma RoomExactly(t: Table, host: string, ps: seq<Setting>)
    ensures FreeIndex(ClaimedTable(t, host, ps), 0).Some? <==> HasRoom(t, host, ps)
  {
    var claimed := ClaimedTable(t, host, ps);
    forall i | 0 <= i < 32
      ensures !claimed[i].used <==>
        !t[i].used || (t[i].host == host && forall s | s in t[i].restore :: Lists(ps, s.port))
    {
      var left := Without(t[i].restore, ps);
      if left != [] {
        assert left[0] in t[i].restore;
      } else {
        assert forall s | s in t[i].restore :: s !in left;
      }
    }
  }

  /** A timed action with room sets exactly its own ports, each to its own state. */
  lemma TimedSets(w: World, host: string, ps: seq<Setting>, h: string, p: nat)
    requires ValidRequest(ps)
    ensures var after := Level(Switched(w, host, ps), h, p);
      if h == host && Lists(ps, p) then StateIn(ps, p) == Some(after) else after == Level(w, h, p)
    ensures HasRoom(w.table, host, ps) ==>
      Level(TimedAction(w, host, ps), h, p) == Level(Switched(w, host, ps), h, p)
    ensures !HasRoom(w.table, host, ps) ==> TimedAction(w, host, ps) == w
  {
    PutLevels(w.levels, host, ps, h, p);
    RoomExactly(w.table, host, ps);
  }

  /** What any step makes of a port. */
  lemma NextLevel(w: World, s: Step, h: string, p: nat)
    requires Inv(w)
    ensures Level(Next(w, s), h, p) ==
      if Asks(w, s, h, p) then StateIn(s.ps, p).value
      else if EndsPulse(w, s, h, p) then Recorded(w, h, p)
      else Level(w, h, p)
  {
    match s
    case Timed(host, ps) =>
      if ValidRequest(ps) {
        TimedSets(w, host, ps, h, p);
      }
    case Plain(host, ps) =>
      if ValidRequest(ps) {
        UnbookedExactly(w, host, ps);
        PutLevels(w.levels, host, ps, h, p);
      }
    case CameraEnds(host, port) =>
      if EndsPulse(w, s, h, p) {
        SequenceReturns(w, h, p);
      }
    case TimerFires(i) =>
      if i < MAX_PENDING && MayFire(w, i) {
        FiredLevel(w, i, h, p);
        if Holds(w.table[i], h, p) {
          HolderDecides(w, i, h, p);
        }
      }
  }

  lemma UnbookedExactly(w: World, host: string, ps: seq<Setting>)
    ensures MaySet(w, host, ps) <==> ValidRequest(ps) && Unbooked(w, host, ps)
  {
  }

  /** A running camera sequence returns its port to the state on record. */
  lemma SequenceReturns(w: World, h: string, p: nat)
    requires Inv(w) && (h, p) in w.running
    ensures w.running[(h, p)] == Recorded(w, h, p)
  {
    assert Booked(w, h, p);
    var i :| 0 <= i < MAX_PENDING && Holds(w.table[i], h, p) && !w.table[i].byTimer;
    HolderDecides(w, i, h, p);
    assert DueKnown(w, i, h, p);
  }

  // ----- Every run -----

  /** The state a port shows: the one last asked for, or, once its pulse has ended
      since, the one it was meant to return to. */
  function Shown(w: World, steps: seq<Step>, h: string, p: nat): bool {
    if steps == [] then Level(w, h, p)
    else
      var before, s := Exec(w, Front(steps)), Last(steps);
      if Asks(before, s, h, p) then StateIn(s.ps, p).value
      else if EndsPulse(before, s, h, p) then Intended(w, Front(steps), h, p)
      else Shown(w, Front(steps), h, p)
  }

  /** At every moment of every run a port is in the state last asked for it until
      its timer fires or its camera sequence ends, and then in its intended one. */
  lemma {:induction false} PortsShowWhatWasAsked(w: World, steps: seq<Step>, h: string, p: nat)
    requires Idle(w)
    ensures Level(Exec(w, steps), h, p) == Shown(w, steps, h, p)
  {
    if steps != [] {
      PortsShowWhatWasAsked(w, Front(steps), h, p);
      PortsComeBack(w, Front(steps), h, p);
      NextLevel(Exec(w, Front(steps)), Last(steps), h, p);
    }
  }

  /** The entry holds the ports of the request and no others. */
  ghost predicate BooksExactly(e: Pending, h: string, ps: seq<Setting>) {
    && e.used && e.host == h && e.byTimer == (|ps| > 1)
    && forall q :: Lists(e.restore, q) <==> Lists(ps, q)
  }

  ghost predicate OnTheBooks(t: Table, h: string, ps: seq<Setting>) {
    exists i | 0 <= i < 32 :: BooksExactly(t[i], h, ps)
  }

  lemma TimedBooks(w: World, h: string, ps: seq<Setting>, i: nat)
    requires Inv(w) && ValidRequest(ps) && FreeIndex(ClaimedTable(w.table, h, ps), 0) == Some(i)
    ensures OnTheBooks(TimedAction(w, h, ps).table, h, ps)
  {
    var e := TimedAction(w, h, ps).table[i];
    forall q: nat ensures Lists(e.restore, q) <==> Lists(ps, q) {
      RestoresState(w, h, ps, q);
    }
    assert BooksExactly(e, h, ps);
  }

  lemma TimedHolds(w: World, h: string, ps: seq<Setting>, i: nat, p: nat)
    requires Inv(w) && ValidRequest(ps) && FreeIndex(ClaimedTable(w.table, h, ps), 0) == Some(i) && Lists(ps, p)
    ensures HeldState(TimedAction(w, h, ps).table, h, p) == Some(Recorded(w, h, p))
  {
    HoldsAfter(w, h, ps, i, h, p);
    TimedKeeps(w, h, ps);
    HolderDecides(TimedAction(w, h, ps), i, h, p);
  }

  /** A timed action with room is on the books for exactly its ports, each to return
      to its intended state: by the engine's timer for several ports, by a camera
      sequence that is now under way for a single one. */
  lemma TimedIsBooked(w: World, steps: seq<Step>, ps: seq<Setting>, h: string, p: nat)
    requires Idle(w) && Asks(Exec(w, steps), Timed(h, ps), h, p)
    ensures var w' := Exec(w, steps + [Timed(h, ps)]);
      && OnTheBooks(w'.table, h, ps)
      && HeldState(w'.table, h, p) == Some(Intended(w, steps, h, p))
      && ((h, p) in w'.running <==> |ps| == 1)
  {
    var w1 := Exec(w, steps);
    FrontLast(steps, Timed(h, ps));
    PortsComeBack(w, steps, h, p);
    RoomExactly(w1.table, h, ps);
    assert Exec(w, steps + [Timed(h, ps)]) == TimedAction(w1, h, ps);
    var i := FreeIndex(ClaimedTable(w1.table, h, ps), 0).value;
    TimedBooks(w1, h, ps, i);
    TimedHolds(w1, h, ps, i, p);
    RunningAfter(w1, h, ps, h, p);
  }

  /** The steps that end a pulse booked in entry i: the camera's end of its sequence,
      if it runs one, then the timer of the entry. */
  function Ending(w: World, i: nat, h: string, p: nat): seq<Step> {
    (if (h, p) in w.running then [CameraEnds(h, p)] else []) + [TimerFires(i)]
  }

  /** Every port that is held can be let go again: the ends of its pulse leave it in
      its intended state and held by nothing. */
  lemma EveryPulseCanEnd(w: World, steps: seq<Step>, i: nat, h: string, p: nat)
    requires Idle(w) && i < 32 && Holds(Exec(w, steps).table[i], h, p)
    ensures var w' := Exec(w, steps + Ending(Exec(w, steps), i, h, p));
      HeldState(w'.table, h, p).None? && Level(w', h, p) == Intended(w, steps, h, p) && (h, p) !in w'.running
  {
    var w1, ends := Exec(w, steps), Ending(Exec(w, steps), i, h, p);
    PortsComeBack(w, steps, h, p);
    if (h, p) in w1.running {
      var mid := steps + [CameraEnds(h, p)];
      FrontLast(steps, CameraEnds(h, p));
      assert steps + ends == mid + [TimerFires(i)];
      PortsComeBack(w, mid, h, p);
      TimerLetsGo(w, mid, i, h, p);
    } else {
      assert steps + ends == steps + [TimerFires(i)];
      TimerLetsGo(w, steps, i, h, p);
    }
  }

  lemma TimerLetsGo(w: World, steps: seq<Step>, i: nat, h: string, p: nat)
    requires Idle(w) && i < MAX_PENDING && Holds(Exec(w, steps).table[i], h, p) && (h, p) !in Exec(w, steps).running
    ensures var w' := Exec(w, steps + [TimerFires(i)]);
      HeldState(w'.table, h, p).None? && Level(w', h, p) == Intended(w, steps, h, p) && (h, p) !in w'.running
  {
    var w1 := Exec(w, steps);
    FrontLast(steps, TimerFires(i));
    PortsComeBack(w, steps, h, p);
    assert MayFire(w1, i) by {
      var k :| 0 <= k < |w1.table[i].restore| && w1.table[i].restore[k].port == p;
    }
    PortsComeBack(w, steps + [TimerFires(i)], h, p);
    assert HeldOnce(w1, h, p);
    forall j: nat | j < MAX_PENDING ensures !Holds(Next(w1, TimerFires(i)).table[j], h, p) {
      FiredHolds(w1, i, j, h, p);
    }
  }
}
