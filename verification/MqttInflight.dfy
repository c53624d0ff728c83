/** QoS 1 publishes awaiting acknowledgement in app/engine/mqtt_client.c: packet
    identifiers, the table of copies kept for resending, and what goes on the wire
    over any run. */
module MqttInflight {
  import opened Prelude
  import opened Bytes
  import opened MqttWire

  const MAX_INFLIGHT := 64
  const ACK_TIMEOUT := 5
  const MAX_RETRIES := 3
  const IDS := 65535

  /** serial numbers the identifier allocations and only tells publishes apart. */
  datatype Slot = Slot(used: bool, serial: nat, pid: nat, packet: seq<byte>, sentAt: int, retries: nat)

  const Free := Slot(false, 0, 0, [], 0, 0)

  type Slots = s: seq<Slot> | |s| == MAX_INFLIGHT witness seq(MAX_INFLIGHT, _ => Free)

  /** packet_id after an allocation: 16 bits, skipping 0. */
  function NextId(id: nat): nat {
    if (id + 1) % 0x1_0000 == 0 then 1 else (id + 1) % 0x1_0000
  }

  function IdOf(serial: nat): nat {
    1 + serial % IDS
  }

  lemma IdsCount(k: nat)
    ensures NextId(IdOf(k)) == IdOf(k + 1)
  {
    var q, r := k / IDS, k % IDS;
    if r + 1 == IDS {
      DivModUnique(k + 1, IDS, q + 1, 0);
    } else {
      DivModUnique(k + 1, IDS, q, r + 1);
    }
  }

  /** The two allocations are a multiple of 65535 apart. */
  predicate Recurs(a: nat, b: nat) {
    (a - b) % IDS == 0
  }

  /** Identifiers are 16-bit and never 0, and repeat only 65535 allocations later. */
  lemma IdsDistinct(a: nat, b: nat)
    ensures 0 < IdOf(a) < 0x1_0000
    ensures IdOf(a) == IdOf(b) <==> Recurs(a, b)
    ensures a < b < a + IDS ==> IdOf(a) != IdOf(b)
  {
    var qa, qb := a / IDS, b / IDS;
    assert a - b == IDS * (qa - qb) + (a % IDS - b % IDS);
    if IdOf(a) == IdOf(b) {
      MultipleOf(qa - qb);
    } else if (a - b) % IDS == 0 {
      var q := (a - b) / IDS;
      assert a % IDS - b % IDS == IDS * (q - qa + qb);
      TimesSign(IDS, q - qa + qb);
    }
    if a < b < a + IDS && (a - b) % IDS == 0 {
      TimesSign(IDS, (a - b) / IDS);
    }
  }

  lemma MultipleOf(q: int)
    ensures (IDS * q) % IDS == 0
  {
  }

  // ----- Steps on values -----

  datatype Sent = Sent(serial: nat, packet: seq<byte>)

  /** log is every QoS 1 packet sent, oldest first. */
  datatype World = World(slots: Slots, count: nat, nextId: nat, issued: nat, log: seq<Sent>)

  datatype Step =
    | Allocate
    | Publish(topic: seq<byte>, payload: seq<byte>, retain: bool, sent: bool, now: int)
    | Ack(pid: nat)
    | Retransmit(now: int, sends: nat)
    | Clear

  function Start(): World {
    World(seq(MAX_INFLIGHT, _ => Free), 0, 1, 0, [])
  }

  function FreeSlot(slots: Slots, i: nat): (r: Option<nat>)
    requires i <= MAX_INFLIGHT
    ensures r.Some? ==> i <= r.value < MAX_INFLIGHT && !slots[r.value].used
    ensures r.None? ==> forall j | i <= j < MAX_INFLIGHT :: slots[j].used
    decreases MAX_INFLIGHT - i
  {
    if i == MAX_INFLIGHT then None else if !slots[i].used then Some(i) else FreeSlot(slots, i + 1)
  }

  function Holder(slots: Slots, pid: nat, i: nat): (r: Option<nat>)
    requires i <= MAX_INFLIGHT
    ensures r.Some? ==> i <= r.value < MAX_INFLIGHT && slots[r.value].used && slots[r.value].pid == pid
    ensures r.Some? ==> forall j | i <= j < r.value :: !(slots[j].used && slots[j].pid == pid)
    ensures r.None? ==> forall j | i <= j < MAX_INFLIGHT :: !(slots[j].used && slots[j].pid == pid)
    decreases MAX_INFLIGHT - i
  {
    if i == MAX_INFLIGHT then None
    else if slots[i].used && slots[i].pid == pid then Some(i)
    else Holder(slots, pid, i + 1)
  }

  function Release(w: World, i: nat): World
    requires i < MAX_INFLIGHT
  {
    w.(slots := w.slots[i := Free], count := if w.count > 0 then w.count - 1 else 0)
  }

  function Track(w: World, serial: nat, pid: nat, packet: seq<byte>, now: int): World {
    var i := FreeSlot(w.slots, 0);
    if i.None? then w
    else w.(slots := w.slots[i.value := Slot(true, serial, pid, packet, now, 0)], count := w.count + 1)
  }

  function Allocated(w: World): World {
    w.(nextId := NextId(w.nextId), issued := w.issued + 1)
  }

  function FrameOf(topic: seq<byte>, payload: seq<byte>, retain: bool, pid: nat): seq<byte> {
    Frame(PublishPacket(topic, payload, retain, 1, pid))
  }

  function Published(w: World, topic: seq<byte>, payload: seq<byte>, retain: bool, sent: bool, now: int): World {
    var packet := FrameOf(topic, payload, retain, w.nextId);
    var w' := Allocated(w);
    if |packet| > MAX_PACKET || !sent then w'
    else Track(w'.(log := w.log + [Sent(w.issued, packet)]), w.issued, w.nextId, packet, now)
  }

  /** Setting bit 3 of the header. */
  function WithDup(packet: seq<byte>): seq<byte> {
    if packet == [] || packet[0] / 8 % 2 == 1 then packet
    else
      var header: byte := (packet[0] + 8) % 256;
      [header] + packet[1..]
  }

  predicate Due(s: Slot, now: int) {
    s.used && now - s.sentAt >= ACK_TIMEOUT
  }

  /** A due slot is resent, or given up after the last retry. */
  function Retry(w: World, i: nat, now: int, ok: bool): World
    requires i < MAX_INFLIGHT
  {
    var s := w.slots[i];
    if s.retries >= MAX_RETRIES then Release(w, i)
    else
      var packet := WithDup(s.packet);
      w.(slots := w.slots[i := s.(packet := packet, retries := s.retries + 1, sentAt := now)],
         log := if ok then w.log + [Sent(s.serial, packet)] else w.log)
  }

  /** The pass of inflight_retransmit from slot i; it stops at the first send that
      fails, `sends` of them succeeding before. */
  function RetransmitFrom(w: World, i: nat, now: int, sends: nat): World
    requires i <= MAX_INFLIGHT
    decreases MAX_INFLIGHT - i
  {
    if i == MAX_INFLIGHT then w
    else if !Due(w.slots[i], now) then RetransmitFrom(w, i + 1, now, sends)
    else if w.slots[i].retries >= MAX_RETRIES then RetransmitFrom(Retry(w, i, now, true), i + 1, now, sends)
    else if sends == 0 then Retry(w, i, now, false)
    else RetransmitFrom(Retry(w, i, now, true), i + 1, now, sends - 1)
  }

  function ClearFrom(w: World, i: nat): World
    requires i <= MAX_INFLIGHT
    decreases MAX_INFLIGHT - i
  {
    if i == MAX_INFLIGHT then w
    else ClearFrom(if w.slots[i].used then Release(w, i) else w, i + 1)
  }

  function Next(w: World, s: Step): World {
    match s
    case Allocate => Allocated(w)
    case Publish(topic, payload, retain, sent, now) => Published(w, topic, payload, retain, sent, now)
    case Ack(pid) => var i := Holder(w.slots, pid, 0); if i.None? then w else Release(w, i.value)
    case Retransmit(now, sends) => RetransmitFrom(w, 0, now, sends)
    case Clear => ClearFrom(w, 0)
  }

  function Exec(steps: seq<Step>): World {
    if steps == [] then Start() else Next(Exec(Front(steps)), Last(steps))
  }

  // ----- What was sent of one publish -----

  /** The copies of a publish on the wire, in order. */
  function Copies(log: seq<Sent>, serial: nat): seq<seq<byte>> {
    if log == [] then []
    else Copies(Front(log), serial) + if Last(log).serial == serial then [Last(log).packet] else []
  }

  predicate DupClear(packet: seq<byte>) {
    packet != [] && packet[0] / 8 % 2 == 0
  }

  /** First the packet with DUP clear, then only copies with DUP set. */
  predicate SentProperly(copies: seq<seq<byte>>) {
    copies != [] ==>
      DupClear(copies[0]) && forall k | 1 <= k < |copies| :: copies[k] == WithDup(copies[0]) && !DupClear(copies[k])
  }

  lemma CopiesMore(log: seq<Sent>, serial: nat, packet: seq<byte>, s: nat)
    ensures Copies(log + [Sent(serial, packet)], s) == Copies(log, s) + if s == serial then [packet] else []
  {
    FrontLast(log, Sent(serial, packet));
  }

  lemma DupSet(packet: seq<byte>)
    requires DupClear(packet)
    ensures !DupClear(WithDup(packet)) && WithDup(WithDup(packet)) == WithDup(packet)
    ensures WithDup(packet)[1..] == packet[1..] && WithDup(packet)[0] == packet[0] + 8
  {
  }

  // ----- Invariant -----

  function UsedCount(slots: seq<Slot>): nat {
    if slots == [] then 0 else UsedCount(Front(slots)) + if Last(slots).used then 1 else 0
  }

  /** A tracked publish: its identifier is its own, and what was sent of it is the
      first copy and at most one more for each retry. */
  predicate SlotOk(s: Slot, issued: nat, log: seq<Sent>) {
    s.used ==>
      && s.serial < issued && s.pid == IdOf(s.serial) && s.retries <= MAX_RETRIES
      && var copies := Copies(log, s.serial);
         1 <= |copies| <= 1 + s.retries && SentProperly(copies)
         && s.packet == if s.retries == 0 then copies[0] else WithDup(copies[0])
  }

  predicate Distinct(slots: Slots) {
    forall i, j | 0 <= i < j < MAX_INFLIGHT && slots[i].used && slots[j].used :: slots[i].serial != slots[j].serial
  }

  ghost predicate Inv(w: World) {
    && w.count == UsedCount(w.slots)
    && w.nextId == IdOf(w.issued)
    && Distinct(w.slots)
    && (forall i | 0 <= i < MAX_INFLIGHT :: SlotOk(w.slots[i], w.issued, w.log))
    && (forall serial: nat :: |Copies(w.log, serial)| <= 1 + MAX_RETRIES && SentProperly(Copies(w.log, serial)))
    && (forall serial: nat | serial >= w.issued :: Copies(w.log, serial) == [])
  }

  lemma {:induction false} CountSet(slots: seq<Slot>, i: nat, s: Slot)
    requires i < |slots|
    ensures UsedCount(slots[i := s]) == UsedCount(slots) - (if slots[i].used then 1 else 0) + (if s.used then 1 else 0)
  {
    if i < |slots| - 1 {
      CountSet(Front(slots), i, s);
      assert Front(slots[i := s]) == Front(slots)[i := s];
    } else {
      assert Front(slots[i := s]) == Front(slots);
    }
  }

  lemma {:induction false} CountBound(slots: seq<Slot>)
    ensures UsedCount(slots) <= |slots|
    ensures (exists i | 0 <= i < |slots| :: slots[i].used) ==> UsedCount(slots) > 0
  {
    if slots != [] {
      CountBound(Front(slots));
      if i :| 0 <= i < |slots| && slots[i].used && i < |slots| - 1 {
        assert Front(slots)[i].used;
      }
    }
  }

  lemma {:induction false} FreeCount(slots: seq<Slot>)
    requires forall i | 0 <= i < |slots| :: !slots[i].used
    ensures UsedCount(slots) == 0
  {
    if slots != [] {
      FreeCount(Front(slots));
    }
  }

  lemma StartOk()
    ensures Inv(Start())
  {
    FreeCount(Start().slots);
  }

  lemma ReleaseKeeps(w: World, i: nat)
    requires Inv(w) && i < MAX_INFLIGHT && w.slots[i].used
    ensures Inv(Release(w, i))
  {
    CountBound(w.slots);
    CountSet(w.slots, i, Free);
  }

  lemma AllocateKeeps(w: World)
    requires Inv(w)
    ensures Inv(Allocated(w))
  {
    IdsCount(w.issued);
  }

  /** A packet just built has DUP clear. */
  lemma FrameHasDupClear(topic: seq<byte>, payload: seq<byte>, retain: bool, pid: nat)
    ensures DupClear(FrameOf(topic, payload, retain, pid))
  {
  }

  /** The log grows by the first copy of a new publish. */
  lemma FirstCopy(w: World, packet: seq<byte>)
    requires Inv(w) && DupClear(packet)
    ensures Inv(Allocated(w).(log := w.log + [Sent(w.issued, packet)]))
    ensures Copies(w.log + [Sent(w.issued, packet)], w.issued) == [packet]
  {
    var log := w.log + [Sent(w.issued, packet)];
    AllocateKeeps(w);
    forall serial: nat ensures Copies(log, serial) == if serial == w.issued then [packet] else Copies(w.log, serial) {
      CopiesMore(w.log, w.issued, packet, serial);
    }
  }

  lemma TrackKeeps(w: World, serial: nat, packet: seq<byte>, now: int)
    requires Inv(w) && serial < w.issued && Copies(w.log, serial) == [packet] && SentProperly([packet])
    requires forall i | 0 <= i < MAX_INFLIGHT && w.slots[i].used :: w.slots[i].serial != serial
    ensures Inv(Track(w, serial, IdOf(serial), packet, now))
  {
    var i := FreeSlot(w.slots, 0);
    if i.Some? {
      CountSet(w.slots, i.value, Slot(true, serial, IdOf(serial), packet, now, 0));
    }
  }

  lemma PublishKeeps(w: World, topic: seq<byte>, payload: seq<byte>, retain: bool, sent: bool, now: int)
    requires Inv(w)
    ensures Inv(Published(w, topic, payload, retain, sent, now))
  {
    var packet := FrameOf(topic, payload, retain, w.nextId);
    AllocateKeeps(w);
    if |packet| <= MAX_PACKET && sent {
      FrameHasDupClear(topic, payload, retain, w.nextId);
      FirstCopy(w, packet);
      TrackKeeps(Allocated(w).(log := w.log + [Sent(w.issued, packet)]), w.issued, packet, now);
    }
  }

  lemma RetryKeeps(w: World, i: nat, now: int, ok: bool)
    requires Inv(w) && i < MAX_INFLIGHT && w.slots[i].used
    ensures Inv(Retry(w, i, now, ok))
  {
    var s := w.slots[i];
    if s.retries >= MAX_RETRIES {
      ReleaseKeeps(w, i);
    } else {
      var w' := Retry(w, i, now, ok);
      CountSet(w.slots, i, w'.slots[i]);
      forall serial: nat
        ensures |Copies(w'.log, serial)| <= 1 + MAX_RETRIES && SentProperly(Copies(w'.log, serial))
        ensures serial >= w.issued ==> Copies(w'.log, serial) == []
      {
        RetryCopies(w, i, now, ok, serial);
      }
      forall j | 0 <= j < MAX_INFLIGHT ensures SlotOk(w'.slots[j], w'.issued, w'.log) {
        RetrySlot(w, i, now, ok, j);
      }
    }
  }

  lemma OneMoreCopy(copies: seq<seq<byte>>)
    requires copies != [] && SentProperly(copies)
    ensures SentProperly(copies + [WithDup(copies[0])])
  {
    DupSet(copies[0]);
  }

  /** What a resend adds to the copies of any publish. */
  lemma RetryCopies(w: World, i: nat, now: int, ok: bool, serial: nat)
    requires Inv(w) && i < MAX_INFLIGHT && w.slots[i].used && w.slots[i].retries < MAX_RETRIES
    ensures var copies, copies' := Copies(w.log, serial), Copies(Retry(w, i, now, ok).log, serial);
      && copies' == (if ok && serial == w.slots[i].serial then copies + [WithDup(copies[0])] else copies)
      && |copies'| <= 1 + MAX_RETRIES && SentProperly(copies')
  {
    var s := w.slots[i];
    assert SlotOk(s, w.issued, w.log);
    var copies := Copies(w.log, s.serial);
    DupSet(copies[0]);
    OneMoreCopy(copies);
    CopiesMore(w.log, s.serial, WithDup(s.packet), serial);
  }

  lemma RetrySlot(w: World, i: nat, now: int, ok: bool, j: nat)
    requires Inv(w) && i < MAX_INFLIGHT && w.slots[i].used && w.slots[i].retries < MAX_RETRIES && j < MAX_INFLIGHT
    ensures var w' := Retry(w, i, now, ok); SlotOk(w'.slots[j], w'.issued, w'.log)
  {
    var s := w.slots[j];
    assert SlotOk(s, w.issued, w.log);
    if s.used {
      RetryCopies(w, i, now, ok, s.serial);
      DupSet(Copies(w.log, s.serial)[0]);
    }
  }

  lemma {:induction false} RetransmitKeeps(w: World, i: nat, now: int, sends: nat)
    requires Inv(w) && i <= MAX_INFLIGHT
    ensures Inv(RetransmitFrom(w, i, now, sends))
    decreases MAX_INFLIGHT - i
  {
    if i < MAX_INFLIGHT {
      if !Due(w.slots[i], now) {
        RetransmitKeeps(w, i + 1, now, sends);
      } else if w.slots[i].retries >= MAX_RETRIES {
        RetryKeeps(w, i, now, true);
        RetransmitKeeps(Retry(w, i, now, true), i + 1, now, sends);
      } else if sends == 0 {
        RetryKeeps(w, i, now, false);
      } else {
        RetryKeeps(w, i, now, true);
        RetransmitKeeps(Retry(w, i, now, true), i + 1, now, sends - 1);
      }
    }
  }

  lemma {:induction false} ClearKeeps(w: World, i: nat)
    requires Inv(w) && i <= MAX_INFLIGHT && forall j | 0 <= j < i :: !w.slots[j].used
    ensures Inv(ClearFrom(w, i)) && ClearFrom(w, i).count == 0
    decreases MAX_INFLIGHT - i
  {
    if i == MAX_INFLIGHT {
      FreeCount(w.slots);
    } else {
      if w.slots[i].used {
        ReleaseKeeps(w, i);
      }
      ClearKeeps(if w.slots[i].used then Release(w, i) else w, i + 1);
    }
  }

  lemma {:induction false} RunKeeps(steps: seq<Step>)
    ensures Inv(Exec(steps))
  {
    if steps == [] {
      StartOk();
    } else {
      RunKeeps(Front(steps));
      NextKeeps(Exec(Front(steps)), Last(steps));
    }
  }

  lemma NextKeeps(w: World, s: Step)
    requires Inv(w)
    ensures Inv(Next(w, s))
  {
    match s
    case Allocate => AllocateKeeps(w);
    case Publish(topic, payload, retain, sent, now) => PublishKeeps(w, topic, payload, retain, sent, now);
    case Ack(pid) =>
      if Holder(w.slots, pid, 0).Some? {
        ReleaseKeeps(w, Holder(w.slots, pid, 0).value);
      }
    case Retransmit(now, sends) => RetransmitKeeps(w, 0, now, sends);
    case Clear => ClearKeeps(w, 0);
  }

  // ----- Over every run -----

  /** Whatever is published, acknowledged, lost or resent: each publish goes out at
      most four times, first with DUP clear, then only as the same bytes with DUP
      set; the counter is the number of tracked publishes and at most 64. */
  lemma EveryPublishSentProperly(steps: seq<Step>, serial: nat)
    ensures var w := Exec(steps);
      && |Copies(w.log, serial)| <= 1 + MAX_RETRIES && SentProperly(Copies(w.log, serial))
      && w.count == UsedCount(w.slots) <= MAX_INFLIGHT
      && 0 < w.nextId < 0x1_0000
  {
    RunKeeps(steps);
    CountBound(Exec(steps).slots);
    IdsDistinct(Exec(steps).issued, 0);
  }

  /** A publish whose send succeeds has gone out exactly once, as the frame of its
      topic and payload under an identifier of its own. */
  lemma PublishGoesOutOnce(steps: seq<Step>, topic: seq<byte>, payload: seq<byte>, retain: bool, now: int)
    requires |FrameOf(topic, payload, retain, Exec(steps).nextId)| <= MAX_PACKET
    ensures var w := Exec(steps);
      Copies(Exec(steps + [Publish(topic, payload, retain, true, now)]).log, w.issued) ==
        [FrameOf(topic, payload, retain, IdOf(w.issued))]
  {
    var w := Exec(steps);
    RunKeeps(steps);
    FrontLast(steps, Publish(topic, payload, retain, true, now));
    FrameHasDupClear(topic, payload, retain, w.nextId);
    FirstCopy(w, FrameOf(topic, payload, retain, w.nextId));
  }

  /** An acknowledgement of the identifier of the publish in slot i releases exactly
      that publish if and only if no earlier slot was filled a multiple of 65535
      allocations away. */
  lemma AckReleasesExactly(steps: seq<Step>, i: nat)
    requires i < MAX_INFLIGHT && Exec(steps).slots[i].used
    ensures var w := Exec(steps);
      Next(w, Ack(w.slots[i].pid)) == Release(w, i) <==>
      (forall j: nat | j < i && w.slots[j].used :: !Recurs(w.slots[j].serial, w.slots[i].serial))
  {
    var slots := Exec(steps).slots;
    forall j: nat | j < i && slots[j].used
      ensures slots[j].pid == slots[i].pid <==> Recurs(slots[j].serial, slots[i].serial)
    {
      Tracked(steps, i, j);
      IdsDistinct(slots[j].serial, slots[i].serial);
    }
    AckReleasesFirst(Exec(steps), i);
  }

  lemma AckReleasesFirst(w: World, i: nat)
    requires i < MAX_INFLIGHT && w.slots[i].used
    ensures Next(w, Ack(w.slots[i].pid)) == Release(w, i) <==>
      (forall j: nat | j < i && w.slots[j].used :: w.slots[j].pid != w.slots[i].pid)
  {
    var k := Holder(w.slots, w.slots[i].pid, 0).value;
    if k < i {
      assert Release(w, k).slots[i].used && !Release(w, i).slots[i].used;
    }
  }

  /** Two tracked publishes of a run. */
  lemma Tracked(steps: seq<Step>, i: nat, j: nat)
    requires i < MAX_INFLIGHT && Exec(steps).slots[i].used && j < MAX_INFLIGHT && Exec(steps).slots[j].used
    ensures var w := Exec(steps);
      && w.slots[i].pid == IdOf(w.slots[i].serial) && w.slots[i].serial < w.issued
      && w.slots[j].pid == IdOf(w.slots[j].serial) && w.slots[j].serial < w.issued
      && (j != i ==> w.slots[j].serial != w.slots[i].serial)
  {
    var w := Exec(steps);
    RunKeeps(steps);
    assert SlotOk(w.slots[i], w.issued, w.log) && SlotOk(w.slots[j], w.issued, w.log);
  }

  /** While no tracked publish is older than 65535 allocations, every
      acknowledgement releases its own publish. */
  lemma RecentAcksAreExact(steps: seq<Step>, i: nat)
    requires i < MAX_INFLIGHT && Exec(steps).slots[i].used
    requires forall j | 0 <= j < MAX_INFLIGHT && Exec(steps).slots[j].used ::
      Exec(steps).issued - Exec(steps).slots[j].serial <= IDS
    ensures Next(Exec(steps), Ack(Exec(steps).slots[i].pid)) == Release(Exec(steps), i)
  {
    var slots := Exec(steps).slots;
    forall j: nat | j < i && slots[j].used ensures !Recurs(slots[j].serial, slots[i].serial) {
      Tracked(steps, i, j);
      IdsDistinct(slots[j].serial, slots[i].serial);
      IdsDistinct(slots[i].serial, slots[j].serial);
    }
    AckReleasesExactly(steps, i);
  }

  // ----- An acknowledgement that releases another publish -----

  function Allocations(n: nat): seq<Step> {
    seq(n, _ => Allocate)
  }

  lemma {:induction false} AllocationsRun(steps: seq<Step>, n: nat)
    ensures var w := Exec(steps);
      Exec(steps + Allocations(n)) == w.(issued := w.issued + n, nextId := Exec(steps + Allocations(n)).nextId)
  {
    if n == 0 {
      assert steps + Allocations(0) == steps;
    } else {
      AllocationsRun(steps, n - 1);
      assert steps + Allocations(n) == steps + Allocations(n - 1) + [Allocate];
      FrontLast(steps + Allocations(n - 1), Allocate);
    }
  }

  const Hello := Publish([97], [], false, true, 0)

  /** The packet of Hello under an identifier fits. */
  lemma HelloFits(pid: nat)
    ensures |FrameOf([97], [], false, pid)| <= MAX_PACKET
  {
  }

  /** What publishing Hello does to the table. */
  lemma HelloRuns(steps: seq<Step>, i: nat)
    requires FreeSlot(Exec(steps).slots, 0) == Some(i)
    ensures var w, w' := Exec(steps), Exec(steps + [Hello]);
      w'.issued == w.issued + 1 &&
      w'.slots == w.slots[i := Slot(true, w.issued, w.nextId, FrameOf([97], [], false, w.nextId), 0, 0)]
  {
    FrontLast(steps, Hello);
    HelloFits(Exec(steps).nextId);
  }

  /** The run: a publish, 65534 other allocations, another publish. */
  function Overtaken(): seq<Step> {
    [Hello] + Allocations(IDS - 1) + [Hello]
  }

  lemma OvertakenSlots()
    ensures var w := Exec(Overtaken());
      w.slots[0].used && w.slots[0].serial == 0 && w.slots[1].used && w.slots[1].serial == IDS
  {
    assert Exec([]) == Start();
    HelloRuns([], 0);
    assert [] + [Hello] == [Hello];
    AllocationsRun([Hello], IDS - 1);
    var slots := Exec([Hello] + Allocations(IDS - 1)).slots;
    assert FreeSlot(slots, 0) == FreeSlot(slots, 1) == Some(1);
    HelloRuns([Hello] + Allocations(IDS - 1), 1);
  }

  /** Acknowledging the second publish of that run releases the first. */
  lemma AckReleasesAnother()
    ensures var w := Exec(Overtaken());
      && w.slots[1].used && Next(w, Ack(w.slots[1].pid)) == Release(w, 0)
      && Next(w, Ack(w.slots[1].pid)).slots[1].used
  {
    OvertakenSlots();
    Tracked(Overtaken(), 0, 1);
    IdsDistinct(0, IDS);
    FirstIsReleased(Exec(Overtaken()));
  }

  lemma FirstIsReleased(w: World)
    requires w.slots[0].used && w.slots[1].used && w.slots[0].pid == w.slots[1].pid
    ensures Next(w, Ack(w.slots[1].pid)) == Release(w, 0) && Release(w, 0).slots[1].used
  {
  }

  // ----- The table in place -----

  class Inflight {
    const slots: array<Slot>
    var count: nat
    var packetId: nat
    var issued: nat
    ghost var log: seq<Sent>

    ghost predicate Valid() {
      slots.Length == MAX_INFLIGHT
    }

    ghost function State(): World
      requires Valid()
      reads this, slots
    {
      World(slots[..], count, packetId, issued, log)
    }

    constructor ()
      ensures Valid() && fresh(slots) && State() == Start()
    {
      slots := new Slot[MAX_INFLIGHT](_ => Free);
      count, packetId, issued, log := 0, 1, 0, [];
      new;
      assert slots[..] == Start().slots;
    }

    method AllocateId() returns (pid: nat)
      requires Valid()
      modifies this
      ensures pid == old(packetId) && State() == Allocated(old(State()))
    {
      pid := packetId;
      packetId := (packetId + 1) % 0x1_0000;
      if packetId == 0 {
        packetId := 1;
      }
      issued := issued + 1;
    }

    /** inflight_add: the first free slot, or untracked when there is none. */
    method Add(serial: nat, pid: nat, packet: seq<byte>, now: int)
      requires Valid()
      modifies this, slots
      ensures State() == Track(old(State()), serial, pid, packet, now)
    {
      var slot := None;
      for i := 0 to MAX_INFLIGHT
        invariant slots[..] == old(slots[..])
        invariant State() == old(State())
        invariant slot.None? ==> FreeSlot(slots[..], 0) == FreeSlot(slots[..], i)
        invariant slot.Some? ==> slot == FreeSlot(slots[..], 0)
      {
        if slot.None? && !slots[i].used {
          slot := Some(i);
        }
      }
      if slot.Some? {
        slots[slot.value] := Slot(true, serial, pid, packet, now, 0);
        count := count + 1;
      }
    }

    method ReleaseSlot(i: nat)
      requires Valid() && i < MAX_INFLIGHT
      modifies this, slots
      ensures State() == Release(old(State()), i)
    {
      slots[i] := Free;
      if count > 0 {
        count := count - 1;
      }
    }

    method Acknowledge(pid: nat)
      requires Valid()
      modifies this, slots
      ensures State() == Next(old(State()), Ack(pid))
    {
      for i := 0 to MAX_INFLIGHT
        invariant State() == old(State())
        invariant Holder(slots[..], pid, 0) == Holder(slots[..], pid, i)
      {
        if slots[i].used && slots[i].pid == pid {
          ReleaseSlot(i);
          return;
        }
      }
    }

    method ClearAll()
      requires Valid()
      modifies this, slots
      ensures State() == Next(old(State()), Clear)
    {
      for i := 0 to MAX_INFLIGHT
        invariant ClearFrom(old(State()), 0) == ClearFrom(State(), i)
      {
        if slots[i].used {
          ReleaseSlot(i);
        }
      }
    }

    /** inflight_retransmit with `sends` sends succeeding before one fails. */
    method RetransmitDue(now: int, sends: nat)
      requires Valid()
      modifies this, slots
      ensures State() == Next(old(State()), Retransmit(now, sends))
    {
      var left := sends;
      for i := 0 to MAX_INFLIGHT
        invariant RetransmitFrom(old(State()), 0, now, sends) == RetransmitFrom(State(), i, now, left)
      {
        var stop;
        left, stop := RetransmitSlot(i, now, left);
        if stop {
          return;
        }
      }
    }

    /** One pass of that loop; it stops at a send that fails. */
    method RetransmitSlot(i: nat, now: int, sends: nat) returns (left: nat, stop: bool)
      requires Valid() && i < MAX_INFLIGHT
      modifies this, slots
      ensures RetransmitFrom(old(State()), i, now, sends) ==
        if stop then State() else RetransmitFrom(State(), i + 1, now, left)
    {
      left, stop := sends, false;
      if slots[i].used && now - slots[i].sentAt >= ACK_TIMEOUT {
        if slots[i].retries >= MAX_RETRIES {
          ReleaseSlot(i);
        } else {
          stop := sends == 0;
          ResendSlot(i, now, !stop);
          left := if stop then 0 else sends - 1;
        }
      }
    }

    method ResendSlot(i: nat, now: int, ok: bool)
      requires Valid() && i < MAX_INFLIGHT && slots[i].retries < MAX_RETRIES
      modifies this, slots
      ensures State() == Retry(old(State()), i, now, ok)
    {
      var s := slots[i];
      var packet := WithDup(s.packet);
      slots[i] := s.(packet := packet, retries := s.retries + 1, sentAt := now);
      if ok {
        log := log + [Sent(s.serial, packet)];
      }
    }

    /** MQTT_Publish_Binary with QoS 1; sent is whether the send succeeds. */
    method PublishQos1(topic: seq<byte>, payload: seq<byte>, retain: bool, sent: bool, now: int) returns (ok: bool)
      requires Valid() && 0 < packetId < 0x1_0000
      modifies this, slots
      ensures State() == Next(old(State()), Publish(topic, payload, retain, sent, now))
    {
      var serial := issued;
      var pid := AllocateId();
      var packet := BuildPublish(topic, payload, retain, 1, pid);
      if packet.None? || !sent {
        return false;
      }
      log := log + [Sent(serial, packet.value)];
      Add(serial, pid, packet.value, now);
      return true;
    }
  }
}
