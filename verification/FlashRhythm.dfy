/** The sequence of requests one undisturbed flash sends, from its first edge to
    the all-off that ends it. */
module FlashRhythm {
  import opened Prelude
  import opened FlashTable

  /** Flashes not yet completed, counting the one that is lit. */
  function Left(j: Job): int
    requires ValidJob(j)
  {
    if j.together then j.cyclesLeft else j.cyclesLeft * |j.ports| - j.idx
  }

  function ToGo(j: Job): int
    requires ValidJob(j)
  {
    2 * Left(j) + if j.lit then 0 else 1
  }

  /** A flash with a count that has not run out. */
  predicate Counting(j: Job) {
    ValidJob(j) && j.cyclesLeft > 0 && (j.together ==> j.idx == 0)
  }

  lemma AdvanceCounts(j: Job)
    requires Counting(j)
    ensures Left(j) > 0
    ensures var e := Advance(j);
      && (e.final <==> j.lit && Left(j) == 1)
      && (!e.final ==>
            Counting(e.job) && Left(e.job) == Left(j) - (if j.lit then 1 else 0) && 0 <= ToGo(e.job) < ToGo(j))
  {
    AtLeastOnce(|j.ports|, j.cyclesLeft);
    if j.lit && !j.together {
      if j.idx < |j.ports| - 1 {
        AdvanceInRound(j);
      } else {
        AdvanceEndsRound(j);
      }
    }
  }

  /** One port on in the same round. */
  lemma AdvanceInRound(j: Job)
    requires Counting(j) && j.lit && !j.together && j.idx < |j.ports| - 1
    ensures var e := Advance(j); !e.final && Counting(e.job) && Left(e.job) == Left(j) - 1 && Left(j) > 1
  {
    AtLeastOnce(|j.ports|, j.cyclesLeft);
    SmallMod(j.idx + 1, |j.ports|);
  }

  /** The last port of a round: one round less. */
  lemma AdvanceEndsRound(j: Job)
    requires Counting(j) && j.lit && !j.together && j.idx == |j.ports| - 1
    ensures var e := Advance(j);
      (e.final <==> j.cyclesLeft == 1) && (e.final <==> Left(j) == 1) &&
      (!e.final ==> Counting(e.job) && Left(e.job) == Left(j) - 1)
  {
    var n, c := |j.ports|, j.cyclesLeft;
    OneRoundLess(n, c);
    assert Advance(j).final || Advance(j).job.idx == 0 by {
      DivModUnique(j.idx + 1, n, 1, 0);
    }
    assert Left(j) == c * n - n + 1;
    assert Advance(j).final || Left(Advance(j).job) == (c - 1) * n;
  }

  lemma OneRoundLess(n: nat, c: int)
    requires n > 0 && c > 0
    ensures (c - 1) * n == c * n - n && c * n >= n
    ensures if c == 1 then c * n == n else (c - 1) * n >= n
  {
    AtLeastOnce(n, c);
    if c > 1 {
      AtLeastOnce(n, c - 1);
    }
  }

  lemma AtLeastOnce(n: nat, c: int)
    requires n > 0 && c > 0
    ensures c * n >= n
  {
    assert (c - 1) * n >= 0;
    assert c * n == (c - 1) * n + n;
  }

  lemma SmallMod(k: nat, n: nat)
    requires k < n
    ensures k % n == k
  {
  }

  /** Everything the worker sends after the edge that is showing now. */
  ghost function Trace(j: Job): seq<Command>
    requires Counting(j)
    decreases Left(j), if j.lit then 0 else 1
  {
    AdvanceCounts(j);
    var e := Advance(j);
    [e.command] + if e.final then [] else Trace(e.job)
  }

  /** The whole run: the starter's first edge and then the worker's. */
  ghost function Run(j: Job): seq<Command>
    requires Counting(j)
  {
    var first := j.(idx := 0, lit := true);
    [Shine(first)] + Trace(first)
  }

  /** c rounds over n positions, each shown and, with a gap, darkened again. */
  function Rounds(n: nat, from: nat, total: nat, gap: bool): (r: seq<Command>)
    requires n > 0 && from <= total
    decreases total - from
  {
    if from == total then []
    else [Light(from % n)] + (if gap && from + 1 < total then [Dark] else []) + Rounds(n, from + 1, total, gap)
  }

  /** All ports on and off again, the last off left to the end of the run. */
  function Pulses(left: nat, gap: bool): seq<Command> {
    if left == 0 then []
    else [AllOn] + (if gap && left > 1 then [Dark] else []) + Pulses(left - 1, gap)
  }

  lemma ModStep(k: nat, n: nat)
    requires n > 0
    ensures (k + 1) % n == (k % n + 1) % n
  {
    var q, r := k / n, k % n;
    if r == n - 1 {
      NextMultiple(n, q);
      DivModUnique(k + 1, n, q + 1, 0);
    } else {
      DivModUnique(k + 1, n, q, r + 1);
      SmallMod(r + 1, n);
    }
  }

  lemma NextMultiple(n: nat, q: nat)
    ensures n * (q + 1) == n * q + n
  {
  }

  /** The dark between two flashes. */
  function Gap(gap: bool): seq<Command> {
    if gap then [Dark] else []
  }

  /** The job as its next flash shows. */
  function Following(j: Job): Job
    requires ValidJob(j)
  {
    Advance(j).job.(lit := true)
  }

  lemma NextFlash(j: Job)
    requires Counting(j) && j.lit && Left(j) > 1
    ensures Counting(Following(j)) && Left(Following(j)) == Left(j) - 1
    ensures Trace(j) == Gap(j.offMs > 0) + ([Shine(Following(j))] + Trace(Following(j)))
  {
    AdvanceCounts(j);
    var e := Advance(j);
    if j.offMs > 0 {
      AdvanceCounts(e.job);
      assert Advance(e.job).job == Following(j);
      assert Trace(j) == [Dark] + Trace(e.job);
    } else {
      assert e.job == Following(j);
      assert Trace(j) == [Shine(e.job)] + Trace(e.job);
    }
  }

  lemma LastFlash(j: Job)
    requires Counting(j) && j.lit && Left(j) == 1
    ensures Trace(j) == [Dark]
  {
    AdvanceCounts(j);
  }

  lemma NextRound(n: nat, k: nat, total: nat, gap: bool, rest: seq<Command>)
    requires n > 0 && k + 1 < total
    requires rest == Rounds(n, k + 1, total, gap) + [Dark]
    ensures [Light(k % n)] + (Gap(gap) + rest) == Rounds(n, k, total, gap) + [Dark]
  {
  }

  /** From the moment flash k of total is showing. */
  lemma {:induction false} SequenceTrace(j: Job, k: nat, total: nat)
    requires Counting(j) && !j.together && j.lit
    requires k < total && j.idx == k % |j.ports| && Left(j) == total - k
    ensures [Shine(j)] + Trace(j) == Rounds(|j.ports|, k, total, j.offMs > 0) + [Dark]
    decreases total - k
  {
    var n := |j.ports|;
    if k + 1 == total {
      LastFlash(j);
      assert Rounds(n, k, total, j.offMs > 0) == [Light(k % n)];
    } else {
      NextFlash(j);
      ModStep(k, n);
      SequenceTrace(Following(j), k + 1, total);
      NextRound(n, k, total, j.offMs > 0, [Shine(Following(j))] + Trace(Following(j)));
    }
  }

  lemma NextPulse(left: nat, gap: bool, rest: seq<Command>)
    requires left > 0 && rest == Pulses(left, gap) + [Dark]
    ensures [AllOn] + (Gap(gap) + rest) == Pulses(left + 1, gap) + [Dark]
  {
  }

  lemma {:induction false} TogetherTrace(j: Job)
    requires Counting(j) && j.together && j.lit
    ensures [Shine(j)] + Trace(j) == Pulses(j.cyclesLeft, j.offMs > 0) + [Dark]
    decreases j.cyclesLeft
  {
    if j.cyclesLeft == 1 {
      LastFlash(j);
      assert Pulses(1, j.offMs > 0) == [AllOn] + [] + Pulses(0, j.offMs > 0);
    } else {
      NextFlash(j);
      TogetherTrace(Following(j));
      NextPulse(j.cyclesLeft - 1, j.offMs > 0, [Shine(Following(j))] + Trace(Following(j)));
    }
  }

  /** The positions lit, in order. */
  function Lit(cs: seq<Command>): seq<nat> {
    if cs == [] then [] else (if cs[0].Light? then [cs[0].pos] else []) + Lit(cs[1..])
  }

  lemma {:induction false} RoundsLit(n: nat, from: nat, total: nat, gap: bool)
    requires n > 0 && from <= total
    ensures Lit(Rounds(n, from, total, gap) + [Dark]) == seq(total - from, i => (from + i) % n)
    decreases total - from
  {
    if from == total {
      assert Rounds(n, from, total, gap) + [Dark] == [Dark];
    } else {
      RoundsLit(n, from + 1, total, gap);
      var rest := Rounds(n, from + 1, total, gap) + [Dark];
      FirstLit(from % n, gap && from + 1 < total, rest);
      if gap && from + 1 < total {
        assert Rounds(n, from, total, gap) + [Dark] == [Light(from % n), Dark] + rest;
      } else {
        assert Rounds(n, from, total, gap) + [Dark] == [Light(from % n)] + rest;
      }
      CountFrom(n, from, total);
    }
  }

  lemma FirstLit(p: nat, gap: bool, rest: seq<Command>)
    ensures Lit((if gap then [Light(p), Dark] else [Light(p)]) + rest) == [p] + Lit(rest)
  {
    assert ([Light(p), Dark] + rest)[1..] == [Dark] + rest;
    assert ([Dark] + rest)[1..] == rest;
    assert ([Light(p)] + rest)[1..] == rest;
  }

  lemma CountFrom(n: nat, from: nat, total: nat)
    requires n > 0 && from < total
    ensures seq(total - from, i => (from + i) % n) == [from % n] + seq(total - (from + 1), i => (from + 1 + i) % n)
  {
  }

  lemma RoundSplit(n: nat, c: nat)
    requires n > 0 && c > 0
    ensures c * n == (c - 1) * n + n
    ensures seq(c * n, i requires 0 <= i => i % n) ==
      seq((c - 1) * n, i requires 0 <= i => i % n) + seq(n, i requires 0 <= i => i)
  {
    var before := (c - 1) * n;
    assert c * n == before + n;
    forall i: nat | before <= i < before + n ensures i % n == i - before {
      DivModUnique(i, n, c - 1, i - before);
    }
  }

  /** Count of p among 0 .. n-1 repeated c times. */
  lemma {:induction false} EachOnce(n: nat, c: nat, p: nat)
    requires p < n
    ensures multiset(seq(c * n, i requires 0 <= i => i % n))[p] == c
  {
    if c == 0 {
      assert seq(0, i requires 0 <= i => i % n) == [];
    } else {
      EachOnce(n, c - 1, p);
      RoundSplit(n, c);
      RangeOnce(n, p);
    }
  }

  lemma {:induction false} RangeOnce(n: nat, p: nat)
    ensures multiset(seq(n, i requires 0 <= i => i))[p] == if p < n then 1 else 0
  {
    if n > 0 {
      RangeOnce(n - 1, p);
      assert seq(n, i requires 0 <= i => i) == seq(n - 1, i requires 0 <= i => i) + [n - 1];
    } else {
      assert seq(n, i requires 0 <= i => i) == [];
    }
  }

  lemma FromZero(n: nat, total: nat)
    requires n > 0
    ensures seq(total - 0, i => (0 + i) % n) == seq(total, i requires 0 <= i => i % n)
  {
  }

  /** A sequence flash lights its ports in order, round after round, each exactly
      as often as the count says, and ends with all of them off. */
  lemma SequenceFlash(j: Job)
    requires Counting(j) && !j.together
    ensures var n, c := |j.ports|, j.cyclesLeft;
      && Last(Run(j)) == Dark
      && Lit(Run(j)) == seq(c * n, i requires 0 <= i => i % n)
      && forall p: nat | p < n :: multiset(Lit(Run(j)))[p] == c
  {
    var first := j.(idx := 0, lit := true);
    var n, c := |j.ports|, j.cyclesLeft;
    AtLeastOnce(n, c);
    var total := c * n;
    SmallMod(0, n);
    SequenceTrace(first, 0, total);
    RoundsLit(n, 0, total, j.offMs > 0);
    FromZero(n, total);
    forall p: nat | p < n ensures multiset(Lit(Run(j)))[p] == c {
      EachOnce(n, c, p);
    }
  }

  /** The times a together flash comes on after being off. */
  function OnPeriods(cs: seq<Command>, on: bool): nat {
    if cs == [] then 0
    else (if cs[0] == AllOn && !on then 1 else 0) + OnPeriods(cs[1..], cs[0] == AllOn)
  }

  lemma {:induction false} PulsesOnPeriods(left: nat, gap: bool, on: bool)
    ensures OnPeriods(Pulses(left, gap) + [Dark], on) ==
      if left == 0 || (on && !gap) then 0 else if on then left - 1 else if gap then left else 1
  {
    if left == 0 {
      assert Pulses(0, gap) + [Dark] == [Dark];
    } else {
      var rest := Pulses(left - 1, gap) + [Dark];
      var whole := Pulses(left, gap) + [Dark];
      if gap && left > 1 {
        assert whole == [AllOn, Dark] + rest;
        assert whole[1..] == [Dark] + rest && ([Dark] + rest)[1..] == rest;
        PulsesOnPeriods(left - 1, gap, false);
      } else {
        assert whole == [AllOn] + rest;
        assert whole[1..] == rest;
        PulsesOnPeriods(left - 1, gap, true);
      }
    }
  }

  /** Together mode gives exactly the counted number of on periods when there is
      a gap between them, and a single unbroken one when there is none. */
  lemma TogetherFlash(j: Job)
    requires Counting(j) && j.together
    ensures Last(Run(j)) == Dark
    ensures OnPeriods(Run(j), false) == if j.offMs > 0 then j.cyclesLeft else 1
  {
    TogetherTrace(j.(idx := 0, lit := true));
    PulsesOnPeriods(j.cyclesLeft, j.offMs > 0, false);
  }

  // ----- One request, port by port -----

  /** What the camera is told about one position. */
  datatype Setting = Setting(pos: nat, on: bool)

  predicate Wanted(c: Command, pos: nat) {
    c == AllOn || c == Light(pos)
  }

  /** The positions of one polarity, in flash order. */
  function Polarity(n: nat, c: Command, on: bool): seq<Setting> {
    if n == 0 then []
    else Polarity(n - 1, c, on) + if Wanted(c, n - 1) == on then [Setting(n - 1, on)] else []
  }

  /** io_flash_apply lists the positions turning off before those coming on. */
  function Body(n: nat, c: Command): seq<Setting> {
    Polarity(n, c, false) + Polarity(n, c, true)
  }

  method ApplyBody(n: nat, c: Command) returns (body: seq<Setting>)
    ensures body == Body(n, c)
  {
    body := [];
    for wantOn := 0 to 2
      invariant body == if wantOn == 0 then [] else if wantOn == 1 then Polarity(n, c, false) else Body(n, c)
    {
      ghost var before := body;
      for i := 0 to n
        invariant body == before + Polarity(i, c, wantOn == 1)
      {
        var on := c == AllOn || c == Light(i);
        if on == (wantOn == 1) {
          body := body + [Setting(i, on)];
        }
      }
    }
  }

  /** The lit positions after the camera has switched a list of settings in order. */
  function Switch(lit: set<nat>, body: seq<Setting>): set<nat> {
    if body == [] then lit
    else
      var before := Switch(lit, Front(body));
      if Last(body).on then before + {Last(body).pos} else before - {Last(body).pos}
  }

  lemma {:induction false} PolarityShape(n: nat, c: Command, on: bool)
    ensures forall s | s in Polarity(n, c, on) :: s.on == on && s.pos < n && Wanted(c, s.pos) == on
    ensures forall p: nat | p < n && Wanted(c, p) == on :: Setting(p, on) in Polarity(n, c, on)
  {
    if n > 0 {
      PolarityShape(n - 1, c, on);
    }
  }

  lemma {:induction false} SwitchSplit(lit: set<nat>, a: seq<Setting>, b: seq<Setting>)
    ensures Switch(lit, a + b) == Switch(Switch(lit, a), b)
  {
    if b == [] {
      assert a + b == a;
    } else {
      assert Front(a + b) == a + Front(b);
      SwitchSplit(lit, a, Front(b));
    }
  }

  lemma {:induction false} SwitchSame(lit: set<nat>, body: seq<Setting>, on: bool)
    requires forall s | s in body :: s.on == on
    ensures Switch(lit, body) == if on then lit + (set s | s in body :: s.pos) else lit - (set s | s in body :: s.pos)
  {
    if body != [] {
      SwitchSame(lit, Front(body), on);
      assert Last(body) in body;
      assert body == Front(body) + [Last(body)];
    }
  }

  /** What is lit after the offs, and while the offs or the ons are under way. */
  lemma DuringSwitch(n: nat, c: Command, lit: set<nat>, k: nat)
    requires c != AllOn && (c.Light? ==> c.pos < n)
    requires forall p | p in lit :: p < n
    requires k <= |Body(n, c)|
    ensures var now := Switch(lit, Body(n, c)[..k]);
      now <= lit || (c.Light? && now <= {c.pos})
  {
    var offs := Polarity(n, c, false);
    if k <= |offs| {
      assert Body(n, c)[..k] == offs[..k];
      PolarityShape(n, c, false);
      SwitchSame(lit, offs[..k], false);
    } else {
      assert Body(n, c)[..k] == offs + Polarity(n, c, true)[..k - |offs|];
      DuringOns(n, c, lit, k - |offs|);
    }
  }

  lemma DuringOns(n: nat, c: Command, lit: set<nat>, k: nat)
    requires c != AllOn && (c.Light? ==> c.pos < n)
    requires forall p | p in lit :: p < n
    requires 0 < k <= |Polarity(n, c, true)|
    ensures c.Light? && Switch(lit, Polarity(n, c, false) + Polarity(n, c, true)[..k]) <= {c.pos}
  {
    var offs, some := Polarity(n, c, false), Polarity(n, c, true)[..k];
    PolarityShape(n, c, true);
    AfterOffs(n, c, lit);
    SwitchSplit(lit, offs, some);
    SwitchSame(Switch(lit, offs), some, true);
  }

  lemma AfterOffs(n: nat, c: Command, lit: set<nat>)
    requires c != AllOn
    requires forall p | p in lit :: p < n
    ensures Switch(lit, Polarity(n, c, false)) <= if c.Light? then {c.pos} else {}
  {
    PolarityShape(n, c, false);
    SwitchSame(lit, Polarity(n, c, false), false);
    forall p | p in lit && !Wanted(c, p) ensures p !in Switch(lit, Polarity(n, c, false)) {
      assert Setting(p, false) in Polarity(n, c, false);
    }
  }

  /** A request that lights one position or none leaves exactly that lit, and at
      no point while the camera works through it are two positions lit. */
  lemma NeverTwoLit(n: nat, c: Command, lit: set<nat>, k: nat)
    requires c != AllOn && (c.Light? ==> c.pos < n)
    requires |lit| <= 1 && (forall p | p in lit :: p < n)
    requires k <= |Body(n, c)|
    ensures |Switch(lit, Body(n, c)[..k])| <= 1
    ensures Switch(lit, Body(n, c)) == if c.Light? then {c.pos} else {}
  {
    DuringSwitch(n, c, lit, k);
    var now := Switch(lit, Body(n, c)[..k]);
    if now <= lit {
      SubsetSize(now, lit);
    } else {
      SubsetSize(now, {c.pos});
    }
    AfterOffs(n, c, lit);
    PolarityShape(n, c, true);
    SwitchSplit(lit, Polarity(n, c, false), Polarity(n, c, true));
    SwitchSame(Switch(lit, Polarity(n, c, false)), Polarity(n, c, true), true);
    if c.Light? {
      assert Setting(c.pos, true) in Polarity(n, c, true);
    }
  }

  lemma {:induction false} SubsetSize(a: set<nat>, b: set<nat>)
    requires a <= b
    ensures |a| <= |b|
    decreases a
  {
    if x :| x in a {
      SubsetSize(a - {x}, b - {x});
    }
  }

  // ----- A flash without a count -----

  predicate Uncounted(j: Job) {
    ValidJob(j) && j.cyclesLeft <= 0 && (j.together ==> j.idx == 0)
  }

  /** The flash after its first edge and k more. */
  function Stage(j: Job, k: nat): (r: Job)
    requires Uncounted(j)
    ensures Uncounted(r) && r.ports == j.ports && r.together == j.together && r.offMs == j.offMs
  {
    if k == 0 then j.(idx := 0, lit := true) else Advance(Stage(j, k - 1)).job
  }

  /** Its first m requests. */
  function Steady(j: Job, m: nat): (r: seq<Command>)
    requires Uncounted(j)
    ensures |r| == m
  {
    if m == 0 then []
    else Steady(j, m - 1) + [if m == 1 then Shine(Stage(j, 0)) else Advance(Stage(j, m - 2)).command]
  }

  lemma SteadyMore(j: Job, m: nat)
    requires Uncounted(j)
    ensures Steady(j, m + 2) == Steady(j, m + 1) + [Advance(Stage(j, m)).command]
    ensures Stage(j, m + 1) == Advance(Stage(j, m)).job && !Advance(Stage(j, m)).final
  {
  }

  /** What request k shows. */
  function EndlessAt(j: Job, k: nat): Command
    requires j.ports != []
  {
    if j.offMs > 0 && k % 2 == 1 then Dark
    else if j.together then AllOn
    else Light((if j.offMs > 0 then k / 2 else k) % |j.ports|)
  }

  lemma {:induction false} StageIs(j: Job, k: nat)
    requires Uncounted(j)
    ensures var a := Stage(j, k);
      && a.lit == !(j.offMs > 0 && k % 2 == 1)
      && (!j.together ==> a.idx == (if j.offMs > 0 then (k + 1) / 2 else k) % |j.ports|)
  {
    if k == 0 {
      SmallMod(0, |j.ports|);
    } else {
      StageIs(j, k - 1);
      ModStep(if j.offMs > 0 then k / 2 else k - 1, |j.ports|);
    }
  }

  /** A flash without a count goes round for ever: with a gap each flash is followed
      by a dark, without one the next follows at once. */
  lemma {:induction false} SteadyIs(j: Job, m: nat, k: nat)
    requires Uncounted(j) && k < m
    ensures Steady(j, m)[k] == EndlessAt(j, k)
  {
    if k < m - 1 {
      SteadyIs(j, m - 1, k);
    } else if m == 1 {
      StageIs(j, 0);
    } else {
      StageIs(j, m - 2);
      StageIs(j, m - 1);
    }
  }

  // ----- Every request of a sequence run -----

  predicate ShowsAtMostOne(n: nat, c: Command) {
    c != AllOn && (c.Light? ==> c.pos < n)
  }

  /** The lit positions after whole requests, starting from darkness. */
  function LitAfter(n: nat, cs: seq<Command>): set<nat> {
    if cs == [] then {} else Switch(LitAfter(n, Front(cs)), Body(n, Last(cs)))
  }

  lemma {:induction false} TraceShowsAtMostOne(j: Job)
    requires Counting(j) && !j.together
    ensures forall c | c in Trace(j) :: ShowsAtMostOne(|j.ports|, c)
    decreases Left(j), if j.lit then 0 else 1
  {
    AdvanceCounts(j);
    var e := Advance(j);
    if !e.final {
      TraceShowsAtMostOne(e.job);
    }
  }

  lemma {:induction false} LitAfterAtMostOne(n: nat, cs: seq<Command>)
    requires forall c | c in cs :: ShowsAtMostOne(n, c)
    ensures |LitAfter(n, cs)| <= 1 && forall p | p in LitAfter(n, cs) :: p < n
  {
    if cs != [] {
      LitAfterAtMostOne(n, Front(cs));
      assert Last(cs) in cs;
      NeverTwoLit(n, Last(cs), LitAfter(n, Front(cs)), 0);
    }
  }

  /** At no prefix of any request of a sequence flash, from the first edge to the
      closing all-off, are two of its ports lit. */
  lemma RunNeverTwoLit(j: Job, i: nat, k: nat)
    requires Counting(j) && !j.together && i < |Run(j)| && k <= |Body(|j.ports|, Run(j)[i])|
    ensures |Switch(LitAfter(|j.ports|, Run(j)[..i]), Body(|j.ports|, Run(j)[i])[..k])| <= 1
  {
    var n := |j.ports|;
    TraceShowsAtMostOne(j.(idx := 0, lit := true));
    assert forall c | c in Run(j) :: ShowsAtMostOne(n, c);
    assert Run(j)[i] in Run(j);
    LitAfterAtMostOne(n, Run(j)[..i]);
    NeverTwoLit(n, Run(j)[i], LitAfter(n, Run(j)[..i]), k);
  }
}
