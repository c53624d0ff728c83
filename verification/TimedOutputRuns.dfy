/** Timed actions, camera sequences and timers over the table of pending
    restores: every run of them, with every device request succeeding. */
module TimedOutputRuns {
  import opened Prelude
  import opened TimedOutputs

  /** A port of a device. */
  type Key = (string, nat)

  /** levels are the ports' present states; running maps each port with a camera
      sequence under way to the state the camera will return it to. */
  datatype World = World(table: Table, levels: map<Key, bool>, running: map<Key, bool>)

  datatype Step =
    | Timed(host: string, ps: seq<Setting>)
    | Plain(host: string, ps: seq<Setting>)
    | CameraEnds(host: string, port: nat)
    | TimerFires(i: nat)

  function Level(w: World, host: string, port: nat): bool {
    if (host, port) in w.levels then w.levels[(host, port)] else false
  }

  /** One setPorts call. */
  function Put(levels: map<Key, bool>, host: string, ps: seq<Setting>): map<Key, bool> {
    if ps == [] then levels else Put(levels, host, Front(ps))[(host, Last(ps).port) := Last(ps).closed]
  }

  /** The state a timed action records for a port: the one another action holds
      it to, else the one it is in. */
  function Recorded(w: World, host: string, port: nat): bool {
    var held := HeldState(w.table, host, port);
    if held.Some? then held.value else Level(w, host, port)
  }

  function Restores(w: World, host: string, ps: seq<Setting>): seq<Setting> {
    seq(|ps|, k requires 0 <= k < |ps| => Setting(ps[k].port, Recorded(w, host, ps[k].port)))
  }

  /** Ports of the request whose camera sequence the request replaces. */
  function Cancelled(w: World, host: string, ps: seq<Setting>): set<Key> {
    set k | k in w.running && k.0 == host && Lists(ps, k.1) && InSequence(w.table, MAX_PENDING, host, ps, k.1)
  }

  /** Everything of a timed action but its booking: claim the ports, cancel camera
      sequences, set the ports. A single port is given to the camera as a sequence. */
  function Switched(w: World, host: string, ps: seq<Setting>): World
    requires ValidRequest(ps)
  {
    World(
      ClaimedTable(w.table, host, ps),
      Put(w.levels, host, ps),
      if |ps| == 1 then w.running[(host, ps[0].port) := Restores(w, host, ps)[0].closed]
      else w.running - Cancelled(w, host, ps))
  }

  /** A timed action with room in the table for its booking. */
  function TimedAction(w: World, host: string, ps: seq<Setting>): World
    requires ValidRequest(ps)
  {
    var table := ClaimedTable(w.table, host, ps);
    var restore := Restores(w, host, ps);
    var at := FreeIndex(table, 0);
    if at.None? then w
    else Switched(w, host, ps).(table := table[at.value := Pending(true, |ps| > 1, host, restore)])
  }

  /** A port whose camera sequence has ended but whose booking is still there. */
  predicate Lingers(w: World, host: string, port: nat) {
    (host, port) !in w.running
    && exists i | 0 <= i < MAX_PENDING :: Holds(w.table[i], host, port) && !w.table[i].byTimer
  }

  predicate MaySet(w: World, host: string, ps: seq<Setting>) {
    ValidRequest(ps) && forall k | 0 <= k < |ps| :: !Lingers(w, host, ps[k].port)
  }

  /** The camera finishes a sequence before the engine's timer for it fires. */
  predicate MayFire(w: World, i: nat)
    requires i < MAX_PENDING
  {
    var e := w.table[i];
    e.used && (!e.byTimer ==> forall k | 0 <= k < |e.restore| :: (e.host, e.restore[k].port) !in w.running)
  }

  function Next(w: World, s: Step): World {
    match s
    case Timed(host, ps) => if ValidRequest(ps) then TimedAction(w, host, ps) else w
    case Plain(host, ps) =>
      if MaySet(w, host, ps) then w.(levels := Put(w.levels, host, ps)) else w
    case CameraEnds(host, port) =>
      if (host, port) in w.running
      then w.(levels := w.levels[(host, port) := w.running[(host, port)]], running := w.running - {(host, port)}) else w
    case TimerFires(i) =>
      if i < MAX_PENDING && MayFire(w, i) then
        var e := w.table[i];
        w.(table := w.table[i := e.(used := false)],
           levels := if e.byTimer then Put(w.levels, e.host, e.restore) else w.levels)
      else w
  }

  function Exec(w: World, steps: seq<Step>): World {
    if steps == [] then w else Next(Exec(w, Front(steps)), Last(steps))
  }

  // ----- Invariant -----

  predicate EntryOk(e: Pending) {
    e.used ==> e.restore != [] && DistinctPorts(e.restore) && (!e.byTimer ==> |e.restore| == 1)
  }

  /** At most one entry holds a port of a device. */
  predicate HeldOnce(w: World, host: string, port: nat) {
    forall i, j | 0 <= i < j < MAX_PENDING && Holds(w.table[i], host, port) :: !Holds(w.table[j], host, port)
  }

  /** An entry of a camera sequence records what the camera returns the port to,
      or the state it already has. */
  predicate DueKnown(w: World, i: nat, host: string, port: nat)
    requires i < MAX_PENDING
  {
    Holds(w.table[i], host, port) && !w.table[i].byTimer ==>
      StateIn(w.table[i].restore, port) ==
        Some(if (host, port) in w.running then w.running[(host, port)] else Level(w, host, port))
  }

  ghost predicate Inv(w: World) {
    && (forall i | 0 <= i < MAX_PENDING :: EntryOk(w.table[i]))
    && (forall host, port: nat :: HeldOnce(w, host, port))
    && (forall host, port: nat | (host, port) in w.running :: Booked(w, host, port))
    && (forall i: nat, host, port: nat | i < MAX_PENDING :: DueKnown(w, i, host, port))
  }

  /** A running sequence has its entry in the table. */
  predicate Booked(w: World, host: string, port: nat) {
    exists i | 0 <= i < MAX_PENDING :: Holds(w.table[i], host, port) && !w.table[i].byTimer
  }

  lemma HolderDecides(w: World, i: nat, host: string, port: nat)
    requires Inv(w) && i < MAX_PENDING && Holds(w.table[i], host, port)
    ensures HeldState(w.table, host, port) == StateIn(w.table[i].restore, port)
  {
    var j :| 0 <= j < MAX_PENDING && Holds(w.table[j], host, port) &&
      StateIn(w.table[j].restore, port) == HeldState(w.table, host, port);
    assert HeldOnce(w, host, port);
  }

  lemma {:induction false} PutLevels(levels: map<Key, bool>, host: string, ps: seq<Setting>, h: string, p: nat)
    requires DistinctPorts(ps)
    ensures var after := Put(levels, host, ps);
      if h == host && Lists(ps, p) then (h, p) in after && Some(after[(h, p)]) == StateIn(ps, p)
      else ((h, p) in after <==> (h, p) in levels) && ((h, p) in levels ==> after[(h, p)] == levels[(h, p)])
  {
    if ps != [] {
      var n := |ps| - 1;
      PutLevels(levels, host, Front(ps), h, p);
      assert forall k | 0 <= k < n :: Front(ps)[k] == ps[k];
      if Lists(ps, p) {
        var k :| 0 <= k < |ps| && ps[k].port == p;
        StateAt(ps, k);
        if k < n {
          StateAt(Front(ps), k);
          assert Front(ps)[k].port == p;
        } else {
          assert !Lists(Front(ps), p);
        }
      }
    }
  }

  // ----- Timed actions -----

  lemma ClaimedHolds(e: Pending, host: string, ps: seq<Setting>, h: string, p: nat)
    ensures Holds(Claimed(e, host, ps), h, p) <==> Holds(e, h, p) && !(h == host && Lists(ps, p))
  {
    var c := Claimed(e, host, ps);
    if e.used && e.host == host {
      var left := Without(e.restore, ps);
      if Lists(left, p) {
        var k :| 0 <= k < |left| && left[k].port == p;
        assert left[k] in e.restore;
      }
      if Lists(e.restore, p) && !Lists(ps, p) {
        var k :| 0 <= k < |e.restore| && e.restore[k].port == p;
        assert e.restore[k] in left;
      }
    }
  }

  lemma {:induction false} WithoutDistinct(restore: seq<Setting>, ps: seq<Setting>)
    requires DistinctPorts(restore)
    ensures DistinctPorts(Without(restore, ps))
  {
    if restore != [] {
      var front := Front(restore);
      WithoutDistinct(front, ps);
      var before := Without(front, ps);
      forall a | 0 <= a < |before| ensures before[a].port != Last(restore).port {
        assert before[a] in front;
      }
    }
  }

  lemma ClaimedState(e: Pending, host: string, ps: seq<Setting>, p: nat)
    requires EntryOk(e)
    ensures EntryOk(Claimed(e, host, ps))
    ensures Holds(Claimed(e, host, ps), e.host, p) ==> StateIn(Claimed(e, host, ps).restore, p) == StateIn(e.restore, p)
  {
    if e.used && e.host == host {
      var left := Without(e.restore, ps);
      WithoutDistinct(e.restore, ps);
      if Lists(left, p) {
        var k :| 0 <= k < |left| && left[k].port == p;
        StateAt(left, k);
        assert left[k] in e.restore;
        var m :| 0 <= m < |e.restore| && e.restore[m] == left[k];
        StateAt(e.restore, m);
      }
    }
  }

  lemma RestoresState(w: World, host: string, ps: seq<Setting>, p: nat)
    requires DistinctPorts(ps)
    ensures var r := Restores(w, host, ps);
      && |r| == |ps| && DistinctPorts(r) && (Lists(r, p) <==> Lists(ps, p))
      && (Lists(ps, p) ==> StateIn(r, p) == Some(Recorded(w, host, p)))
  {
    var r := Restores(w, host, ps);
    if Lists(r, p) {
      var k :| 0 <= k < |r| && r[k].port == p;
      assert ps[k].port == p;
    }
    if Lists(ps, p) {
      var k :| 0 <= k < |ps| && ps[k].port == p;
      assert r[k].port == p;
      StateAt(r, k);
    }
  }

  /** What entry i holds after a timed action: the new entry exactly the ports of
      the request, every other entry what it held of the rest. */
  lemma HoldsAfter(w: World, host: string, ps: seq<Setting>, i: nat, h: string, p: nat)
    requires Inv(w) && ValidRequest(ps) && i < MAX_PENDING
    requires FreeIndex(ClaimedTable(w.table, host, ps), 0).Some?
    ensures var e := TimedAction(w, host, ps).table[i];
      && EntryOk(e)
      && if i == FreeIndex(ClaimedTable(w.table, host, ps), 0).value then
           (Holds(e, h, p) <==> h == host && Lists(ps, p)) &&
           (Holds(e, h, p) ==> StateIn(e.restore, p) == Some(Recorded(w, host, p))) && e.byTimer == (|ps| > 1)
         else
           (Holds(e, h, p) <==> Holds(w.table[i], h, p) && !(h == host && Lists(ps, p))) &&
           (Holds(e, h, p) ==> StateIn(e.restore, p) == StateIn(w.table[i].restore, p))
           && e.byTimer == w.table[i].byTimer
  {
    RestoresState(w, host, ps, p);
    ClaimedHolds(w.table[i], host, ps, h, p);
    ClaimedState(w.table[i], host, ps, p);
  }

  lemma RunningAfter(w: World, host: string, ps: seq<Setting>, h: string, p: nat)
    requires Inv(w) && ValidRequest(ps)
    requires FreeIndex(ClaimedTable(w.table, host, ps), 0).Some?
    ensures var w' := TimedAction(w, host, ps);
      if h == host && Lists(ps, p)
      then ((h, p) in w'.running <==> |ps| == 1) && (|ps| == 1 ==> w'.running[(h, p)] == Recorded(w, host, p))
      else
        && ((h, p) in w'.running <==> (h, p) in w.running)
        && ((h, p) in w.running ==> w'.running[(h, p)] == w.running[(h, p)])
  {
    if |ps| > 1 && h == host && Lists(ps, p) && (h, p) in w.running {
      assert Booked(w, h, p);
      assert InSequence(w.table, MAX_PENDING, host, ps, p);
    }
  }

  lemma TimedHeldOnce(w: World, host: string, ps: seq<Setting>, h: string, p: nat)
    requires Inv(w) && ValidRequest(ps)
    requires FreeIndex(ClaimedTable(w.table, host, ps), 0).Some?
    ensures HeldOnce(TimedAction(w, host, ps), h, p)
  {
    var w' := TimedAction(w, host, ps);
    assert HeldOnce(w, h, p);
    forall i: nat, j: nat | i < j < MAX_PENDING && Holds(w'.table[i], h, p) ensures !Holds(w'.table[j], h, p) {
      HoldsAfter(w, host, ps, i, h, p);
      HoldsAfter(w, host, ps, j, h, p);
    }
  }

  lemma TimedBooked(w: World, host: string, ps: seq<Setting>, h: string, p: nat)
    requires Inv(w) && ValidRequest(ps)
    requires FreeIndex(ClaimedTable(w.table, host, ps), 0).Some?
    requires (h, p) in TimedAction(w, host, ps).running
    ensures Booked(TimedAction(w, host, ps), h, p)
  {
    var at := FreeIndex(ClaimedTable(w.table, host, ps), 0).value;
    RunningAfter(w, host, ps, h, p);
    if h == host && Lists(ps, p) {
      HoldsAfter(w, host, ps, at, h, p);
    } else {
      assert Booked(w, h, p);
      var i :| 0 <= i < MAX_PENDING && Holds(w.table[i], h, p) && !w.table[i].byTimer;
      ClaimedHolds(w.table[i], host, ps, h, p);
      HoldsAfter(w, host, ps, i, h, p);
    }
  }

  lemma TimedDueKnown(w: World, host: string, ps: seq<Setting>, i: nat, h: string, p: nat)
    requires Inv(w) && ValidRequest(ps) && i < MAX_PENDING
    requires FreeIndex(ClaimedTable(w.table, host, ps), 0).Some?
    ensures DueKnown(TimedAction(w, host, ps), i, h, p)
  {
    assert DueKnown(w, i, h, p);
    HoldsAfter(w, host, ps, i, h, p);
    RunningAfter(w, host, ps, h, p);
    PutLevels(w.levels, host, ps, h, p);
  }

  lemma TimedKeeps(w: World, host: string, ps: seq<Setting>)
    requires Inv(w) && ValidRequest(ps)
    ensures Inv(TimedAction(w, host, ps))
  {
    if FreeIndex(ClaimedTable(w.table, host, ps), 0).Some? {
      var w' := TimedAction(w, host, ps);
      forall i: nat | i < MAX_PENDING ensures EntryOk(w'.table[i]) {
        HoldsAfter(w, host, ps, i, host, 0);
      }
      forall h, p: nat ensures HeldOnce(w', h, p) {
        TimedHeldOnce(w, host, ps, h, p);
      }
      forall h, p: nat | (h, p) in w'.running ensures Booked(w', h, p) {
        TimedBooked(w, host, ps, h, p);
      }
      forall i: nat, h, p: nat | i < MAX_PENDING ensures DueKnown(w', i, h, p) {
        TimedDueKnown(w, host, ps, i, h, p);
      }
    }
  }

  /** A timed action changes what no port is to return to. */
  lemma TimedRecorded(w: World, host: string, ps: seq<Setting>, h: string, p: nat)
    requires Inv(w) && ValidRequest(ps)
    ensures Recorded(TimedAction(w, host, ps), h, p) == Recorded(w, h, p)
  {
    var at := FreeIndex(ClaimedTable(w.table, host, ps), 0);
    var w' := TimedAction(w, host, ps);
    if at.Some? {
      TimedKeeps(w, host, ps);
      if h == host && Lists(ps, p) {
        HoldsAfter(w, host, ps, at.value, h, p);
        HolderDecides(w', at.value, h, p);
      } else if i :| 0 <= i < MAX_PENDING && Holds(w.table[i], h, p) {
        ClaimedHolds(w.table[i], host, ps, h, p);
        HoldsAfter(w, host, ps, i, h, p);
        HolderDecides(w, i, h, p);
        HolderDecides(w', i, h, p);
      } else {
        forall i | 0 <= i < MAX_PENDING ensures !Holds(w'.table[i], h, p) {
          HoldsAfter(w, host, ps, i, h, p);
        }
        PutLevels(w.levels, host, ps, h, p);
      }
    }
  }

  // ----- Other steps -----

  lemma PlainKeeps(w: World, host: string, ps: seq<Setting>)
    requires Inv(w) && ValidRequest(ps)
    ensures Inv(Next(w, Plain(host, ps)))
  {
    var w' := Next(w, Plain(host, ps));
    if MaySet(w, host, ps) {
      forall h, p: nat ensures HeldOnce(w', h, p) {
        assert HeldOnce(w, h, p);
      }
      forall h, p: nat | (h, p) in w'.running ensures Booked(w', h, p) {
        assert Booked(w, h, p);
      }
      forall i: nat, h, p: nat | i < MAX_PENDING ensures DueKnown(w', i, h, p) {
        assert DueKnown(w, i, h, p);
        PutLevels(w.levels, host, ps, h, p);
        if h == host && Lists(ps, p) {
          var k :| 0 <= k < |ps| && ps[k].port == p;
          assert !Lingers(w, host, ps[k].port);
        }
      }
    }
  }

  lemma CameraEndsKeeps(w: World, host: string, port: nat)
    requires Inv(w) && (host, port) in w.running
    ensures Inv(Next(w, CameraEnds(host, port)))
    ensures forall h, p: nat :: Recorded(Next(w, CameraEnds(host, port)), h, p) == Recorded(w, h, p)
  {
    var w' := Next(w, CameraEnds(host, port));
    forall h, p: nat ensures HeldOnce(w', h, p) {
      assert HeldOnce(w, h, p);
    }
    forall h, p: nat | (h, p) in w'.running ensures Booked(w', h, p) {
      assert Booked(w, h, p);
    }
    forall i: nat, h, p: nat | i < MAX_PENDING ensures DueKnown(w', i, h, p) {
      assert DueKnown(w, i, h, p);
    }
    forall h, p: nat ensures Recorded(w', h, p) == Recorded(w, h, p) {
      if h == host && p == port {
        assert Booked(w, host, port);
      }
    }
  }

  lemma FiredHolds(w: World, i: nat, j: nat, h: string, p: nat)
    requires i < MAX_PENDING && j < MAX_PENDING && MayFire(w, i)
    ensures var w' := Next(w, TimerFires(i));
      (Holds(w'.table[j], h, p) <==> Holds(w.table[j], h, p) && j != i) && (j != i ==> w'.table[j] == w.table[j])
  {
  }

  lemma FiredLevel(w: World, i: nat, h: string, p: nat)
    requires Inv(w) && i < MAX_PENDING && MayFire(w, i)
    ensures var w' := Next(w, TimerFires(i));
      if Holds(w.table[i], h, p) then Some(Level(w', h, p)) == StateIn(w.table[i].restore, p)
      else Level(w', h, p) == Level(w, h, p)
  {
    var e := w.table[i];
    if e.byTimer {
      PutLevels(w.levels, e.host, e.restore, h, p);
    } else if Holds(e, h, p) {
      var k :| 0 <= k < |e.restore| && e.restore[k].port == p;
      assert DueKnown(w, i, h, p);
    }
  }

  lemma TimerFiresKeeps(w: World, i: nat)
    requires Inv(w) && i < MAX_PENDING && MayFire(w, i)
    ensures Inv(Next(w, TimerFires(i)))
  {
    var w' := Next(w, TimerFires(i));
    forall h, p: nat ensures HeldOnce(w', h, p) {
      assert HeldOnce(w, h, p);
    }
    forall h, p: nat | (h, p) in w'.running ensures Booked(w', h, p) {
      assert Booked(w, h, p);
      var j :| 0 <= j < MAX_PENDING && Holds(w.table[j], h, p) && !w.table[j].byTimer;
      FiredHolds(w, i, j, h, p);
    }
    forall j: nat, h, p: nat | j < MAX_PENDING ensures DueKnown(w', j, h, p) {
      assert DueKnown(w, j, h, p);
      FiredHolds(w, i, j, h, p);
      FiredLevel(w, i, h, p);
      assert HeldOnce(w, h, p);
    }
  }

  /** A port under a camera sequence is held by no timer entry, so firing a timer
      leaves every port where it is to return to. */
  lemma TimerFiresRecorded(w: World, i: nat, h: string, p: nat)
    requires Inv(w) && i < MAX_PENDING && MayFire(w, i)
    ensures Recorded(Next(w, TimerFires(i)), h, p) == Recorded(w, h, p)
  {
    var w' := Next(w, TimerFires(i));
    TimerFiresKeeps(w, i);
    FiredLevel(w, i, h, p);
    assert HeldOnce(w, h, p);
    if Holds(w.table[i], h, p) {
      HolderDecides(w, i, h, p);
    } else if j: nat :| j < MAX_PENDING && Holds(w.table[j], h, p) {
      HolderDecides(w, j, h, p);
      FiredHolds(w, i, j, h, p);
      HolderDecides(w', j, h, p);
    } else {
      assert forall j: nat | j < MAX_PENDING :: !Holds(w'.table[j], h, p);
    }
  }

  lemma NextKeeps(w: World, s: Step)
    requires Inv(w)
    ensures Inv(Next(w, s))
  {
    match s
    case Timed(host, ps) =>
      if ValidRequest(ps) {
        TimedKeeps(w, host, ps);
      }
    case Plain(host, ps) =>
      if ValidRequest(ps) {
        PlainKeeps(w, host, ps);
      }
    case CameraEnds(host, port) =>
      if (host, port) in w.running {
        CameraEndsKeeps(w, host, port);
      }
    case TimerFires(i) =>
      if i < MAX_PENDING && MayFire(w, i) {
        TimerFiresKeeps(w, i);
      }
  }

  // ----- Every run -----

  /** A plain setting of the port while no timed action holds it; only such a
      setting is meant to last. */
  predicate Lasts(w: World, s: Step, host: string, port: nat) {
    s.Plain? && s.host == host && MaySet(w, host, s.ps) && Lists(s.ps, port) &&
    HeldState(w.table, host, port).None?
  }

  /** The state the port is meant to be in when no pulse is on: the one it began
      with, or the last one set to stay. */
  function Intended(w: World, steps: seq<Step>, host: string, port: nat): bool {
    if steps == [] then Level(w, host, port)
    else if Lasts(Exec(w, Front(steps)), Last(steps), host, port) then StateIn(Last(steps).ps, port).value
    else Intended(w, Front(steps), host, port)
  }

  predicate Idle(w: World) {
    w.running == map[] && forall i | 0 <= i < MAX_PENDING :: !w.table[i].used
  }

  lemma NextRecorded(w: World, s: Step, host: string, port: nat)
    requires Inv(w)
    ensures Recorded(Next(w, s), host, port) ==
      if Lasts(w, s, host, port) then StateIn(s.ps, port).value else Recorded(w, host, port)
  {
    match s
    case Timed(h, ps) =>
      if ValidRequest(ps) {
        TimedRecorded(w, h, ps, host, port);
      }
    case Plain(h, ps) =>
      if ValidRequest(ps) {
        PutLevels(w.levels, h, ps, host, port);
      }
    case CameraEnds(h, p) =>
      if (h, p) in w.running {
        CameraEndsKeeps(w, h, p);
      }
    case TimerFires(i) =>
      if i < MAX_PENDING && MayFire(w, i) {
        TimerFiresRecorded(w, i, host, port);
      }
  }

  /** After any run of timed actions, plain settings, camera sequences and timers,
      the state on record for every port is its intended one; a port that no
      pending restore holds is in that state, and no camera sequence will move it.
      At most one pending restore holds it. */
  lemma {:induction false} PortsComeBack(w: World, steps: seq<Step>, host: string, port: nat)
    requires Idle(w)
    ensures Inv(Exec(w, steps))
    ensures HeldOnce(Exec(w, steps), host, port)
    ensures Recorded(Exec(w, steps), host, port) == Intended(w, steps, host, port)
    ensures HeldState(Exec(w, steps).table, host, port).None? ==>
      Level(Exec(w, steps), host, port) == Intended(w, steps, host, port) && (host, port) !in Exec(w, steps).running
  {
    if steps != [] {
      PortsComeBack(w, Front(steps), host, port);
      NextKeeps(Exec(w, Front(steps)), Last(steps));
      NextRecorded(Exec(w, Front(steps)), Last(steps), host, port);
    }
    assert HeldOnce(Exec(w, steps), host, port);
    if (host, port) in Exec(w, steps).running {
      assert Booked(Exec(w, steps), host, port);
    }
  }

  // ----- The action and the timer over the real table -----

  /** The engine's table together with the ports it drives; `levels` and `running`
      stand for the devices and change only through requests to them. */
  class Outputs {
    const pending: PendingTable
    var levels: map<Key, bool>
    var running: map<Key, bool>

    ghost predicate Valid()
      reads pending
    {
      pending.Valid()
    }

    ghost function State(): World
      requires Valid()
      reads this, pending, pending.entries
    {
      World(pending.Contents(), levels, running)
    }

    constructor ()
      ensures Valid() && fresh(pending) && fresh(pending.entries)
      ensures Idle(State()) && State().levels == map[]
    {
      pending := new PendingTable();
      levels, running := map[], map[];
    }

    /** One setPorts request. */
    method Post(host: string, ps: seq<Setting>)
      modifies this`levels
      ensures levels == Put(old(levels), host, ps)
    {
      for k := 0 to |ps|
        invariant levels == Put(old(levels), host, ps[..k])
      {
        FrontLast(ps[..k], ps[k]);
        assert ps[..k + 1] == ps[..k] + [ps[k]];
        levels := levels[(host, ps[k].port) := ps[k].closed];
      }
      assert ps[..|ps|] == ps;
    }

    /** Restores to book: held states first, present states for the rest. */
    method FindRestores(host: string, ps: seq<Setting>) returns (restore: seq<Setting>)
      requires Valid()
      ensures restore == Restores(State(), host, ps)
    {
      var held := pending.HeldStates(host, ps);
      restore := [];
      ghost var all := Restores(State(), host, ps);
      for k := 0 to |ps|
        invariant restore == all[..k]
      {
        var key := (host, ps[k].port);
        var closed := if held[k].Some? then held[k].value else if key in levels then levels[key] else false;
        restore := restore + [Setting(ps[k].port, closed)];
      }
    }

    /** A timed request. When all entries are taken once its ports are claimed, it
        switches the ports and books nothing. */
    method TimedOutput(host: string, ps: seq<Setting>)
      requires Valid() && ValidRequest(ps)
      modifies this, pending.entries
      ensures Valid()
      ensures State() ==
        if FreeIndex(ClaimedTable(old(State()).table, host, ps), 0).Some? then Next(old(State()), Timed(host, ps))
        else Switched(old(State()), host, ps)
    {
      ghost var w := State();
      var restore := FindRestores(host, ps);
      var seqPorts := pending.Claim(host, ps);
      if |ps| > 1 {
        running := map k | k in running && !(k.0 == host && k.1 in seqPorts) :: running[k];
        assert running == w.running - Cancelled(w, host, ps);
      } else {
        running := running[(host, ps[0].port) := restore[0].closed];
      }
      Post(host, ps);
      var at := pending.Add(host, restore, |ps| > 1);
    }

    method TimerCallback(i: nat)
      requires Valid() && i < MAX_PENDING && MayFire(State(), i)
      modifies this, pending.entries
      ensures Valid() && State() == Next(old(State()), TimerFires(i))
    {
      var e := pending.entries[i];
      pending.entries[i] := e.(used := false);
      if e.byTimer {
        Post(e.host, e.restore);
      }
    }
  }
}
