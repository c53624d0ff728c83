/** When publishes are tracked and resent: exactly which of them, at which pass, and
    when one is given up. */
module MqttResends {
  import opened Prelude
  import opened Bytes
  import opened MqttWire
  import opened MqttInflight

  // ----- Which publish is tracked -----

  lemma {:induction false} AllUsedCount(slots: seq<Slot>)
    ensures UsedCount(slots) == |slots| <==> forall i | 0 <= i < |slots| :: slots[i].used
  {
    CountBound(slots);
    if slots != [] {
      AllUsedCount(Front(slots));
      CountBound(Front(slots));
      assert slots == Front(slots) + [Last(slots)];
    }
  }

  /** A publish that goes out is kept for resending, in a slot that was free, exactly
      when fewer than 64 others are; the others stay as they are. */
  lemma PublishIsTracked(steps: seq<Step>, topic: seq<byte>, payload: seq<byte>, retain: bool, now: int)
    requires |FrameOf(topic, payload, retain, Exec(steps).nextId)| <= MAX_PACKET
    ensures var w, w' := Exec(steps), Exec(steps + [Publish(topic, payload, retain, true, now)]);
      if w.count < 64 then
        exists i :: 0 <= i < 64 && !w.slots[i].used && w'.slots ==
          w.slots[i := Slot(true, w.issued, IdOf(w.issued), FrameOf(topic, payload, retain, IdOf(w.issued)), now, 0)]
      else w'.slots == w.slots
  {
    var w := Exec(steps);
    RunKeeps(steps);
    FrontLast(steps, Publish(topic, payload, retain, true, now));
    AllUsedCount(w.slots);
    CountBound(w.slots);
    TrackedAt(w, topic, payload, retain, now);
  }

  lemma TrackedAt(w: World, topic: seq<byte>, payload: seq<byte>, retain: bool, now: int)
    requires |FrameOf(topic, payload, retain, w.nextId)| <= MAX_PACKET
    ensures var i, w' := FreeSlot(w.slots, 0), Published(w, topic, payload, retain, true, now);
      w'.slots == if i.None? then w.slots else
        w.slots[i.value := Slot(true, w.issued, w.nextId, FrameOf(topic, payload, retain, w.nextId), now, 0)]
  {
  }

  // ----- Which publish is resent -----

  /** It has waited five seconds for its acknowledgement. */
  predicate Waited(s: Slot, now: int) {
    s.used && now - s.sentAt >= 5
  }

  predicate Resendable(s: Slot, now: int) {
    Waited(s, now) && s.retries < 3
  }

  /** How many slots from the i-th up to the j-th are resent before the j-th is
      looked at. */
  function Ahead(slots: Slots, now: int, i: nat, j: nat): nat
    requires i <= j <= 64
    decreases j - i
  {
    if i == j then 0 else (if Resendable(slots[i], now) then 1 else 0) + Ahead(slots, now, i + 1, j)
  }

  /** What a pass makes of a slot: nothing unless it has waited and the pass comes
      so far; else it is given up after three retries, or resent with DUP set. */
  function AfterPass(s: Slot, now: int, reached: bool): Slot {
    if !Waited(s, now) || !reached then s
    else if s.retries < 3 then Slot(true, s.serial, s.pid, WithDup(s.packet), now, s.retries + 1)
    else Free
  }

  lemma AheadSame(slots: Slots, slots': Slots, now: int, i: nat, j: nat)
    requires i <= j <= 64 && forall k | i <= k < j :: slots'[k] == slots[k]
    ensures Ahead(slots', now, i, j) == Ahead(slots, now, i, j)
    decreases j - i
  {
  }

  /** One slot of the pass. */
  function PassStep(w: World, i: nat, now: int, sends: nat): World
    requires i < 64
  {
    if !Waited(w.slots[i], now) then w else Retry(w, i, now, w.slots[i].retries >= 3 || sends > 0)
  }

  lemma PassSteps(w: World, i: nat, now: int, sends: nat)
    requires i < 64
    ensures RetransmitFrom(w, i, now, sends) ==
      if Resendable(w.slots[i], now) && sends == 0 then PassStep(w, i, now, sends)
      else RetransmitFrom(PassStep(w, i, now, sends), i + 1, now,
                          if Resendable(w.slots[i], now) then sends - 1 else sends)
    ensures var w' := PassStep(w, i, now, sends);
      && w'.slots[i] == AfterPass(w.slots[i], now, true)
      && (forall k | 0 <= k < 64 && k != i :: w'.slots[k] == w.slots[k])
  {
  }

  lemma {:induction false} PassSlot(w: World, i: nat, now: int, sends: nat, j: nat)
    requires i <= 64 && j < 64
    ensures RetransmitFrom(w, i, now, sends).slots[j] ==
      if j < i then w.slots[j] else AfterPass(w.slots[j], now, Ahead(w.slots, now, i, j) <= sends)
    decreases 64 - i
  {
    if i < 64 {
      PassSteps(w, i, now, sends);
      var w' := PassStep(w, i, now, sends);
      if !(Resendable(w.slots[i], now) && sends == 0) {
        PassSlot(w', i + 1, now, if Resendable(w.slots[i], now) then sends - 1 else sends, j);
        if j > i {
          AheadSame(w.slots, w'.slots, now, i + 1, j);
        }
      }
    }
  }

  /** A pass resends every publish that has waited five seconds, three times at most,
      with DUP set, and gives up one that has been resent three times; it stops at
      the first send that fails, and leaves every other publish alone. */
  lemma PassResendsExactly(w: World, now: int, sends: nat, j: nat)
    requires j < 64
    ensures Next(w, Retransmit(now, sends)).slots[j] ==
      AfterPass(w.slots[j], now, Ahead(w.slots, now, 0, j) <= sends)
  {
    PassSlot(w, 0, now, sends, j);
  }

  // ----- What the pass sends -----

  /** The copies sent from slot i on: of the resendable ones, in order, the first
      `sends`. */
  function Resent(slots: Slots, now: int, i: nat, sends: nat): seq<Sent>
    requires i <= 64
    decreases 64 - i
  {
    if i == 64 || (Resendable(slots[i], now) && sends == 0) then []
    else if Resendable(slots[i], now)
    then [Sent(slots[i].serial, WithDup(slots[i].packet))] + Resent(slots, now, i + 1, sends - 1)
    else Resent(slots, now, i + 1, sends)
  }

  lemma {:induction false} ResentSame(slots: Slots, slots': Slots, now: int, i: nat, sends: nat)
    requires i <= 64 && forall k | i <= k < 64 :: slots'[k] == slots[k]
    ensures Resent(slots', now, i, sends) == Resent(slots, now, i, sends)
    decreases 64 - i
  {
    if i < 64 {
      ResentSame(slots, slots', now, i + 1, sends);
      if sends > 0 {
        ResentSame(slots, slots', now, i + 1, sends - 1);
      }
    }
  }

  lemma StepSends(w: World, i: nat, now: int, sends: nat)
    requires i < 64
    ensures PassStep(w, i, now, sends).log ==
      w.log + if Resendable(w.slots[i], now) && sends > 0
              then [Sent(w.slots[i].serial, WithDup(w.slots[i].packet))] else []
  {
  }

  lemma {:induction false} PassSends(w: World, i: nat, now: int, sends: nat)
    requires i <= 64
    ensures RetransmitFrom(w, i, now, sends).log == w.log + Resent(w.slots, now, i, sends)
    decreases 64 - i
  {
    if i < 64 {
      PassSteps(w, i, now, sends);
      StepSends(w, i, now, sends);
      var w' := PassStep(w, i, now, sends);
      if !(Resendable(w.slots[i], now) && sends == 0) {
        var left := if Resendable(w.slots[i], now) then sends - 1 else sends;
        PassSends(w', i + 1, now, left);
        ResentSame(w.slots, w'.slots, now, i + 1, left);
      }
    }
  }

  /** A pass puts exactly these copies on the wire, and nothing else. */
  lemma PassSendsExactly(w: World, now: int, sends: nat)
    ensures Next(w, Retransmit(now, sends)).log == w.log + Resent(w.slots, now, 0, sends)
  {
    PassSends(w, 0, now, sends);
  }

  // ----- A new session -----

  lemma {:induction false} ClearedFrom(w: World, i: nat, j: nat)
    requires i <= 64 && j < 64
    ensures ClearFrom(w, i).log == w.log && ClearFrom(w, i).issued == w.issued && ClearFrom(w, i).nextId == w.nextId
    ensures ClearFrom(w, i).slots[j].used ==> j < i && w.slots[j].used
    decreases 64 - i
  {
    if i < 64 {
      ClearedFrom(if w.slots[i].used then Release(w, i) else w, i + 1, j);
    }
  }

  /** Clearing forgets every tracked publish and sends nothing. */
  lemma ClearForgetsAll(steps: seq<Step>)
    ensures var w, w' := Exec(steps), Exec(steps + [Clear]);
      && (forall j | 0 <= j < 64 :: !w'.slots[j].used) && w'.count == 0
      && w'.log == w.log && w'.issued == w.issued && w'.nextId == w.nextId
  {
    var w := Exec(steps);
    FrontLast(steps, Clear);
    RunKeeps(steps);
    ClearKeeps(w, 0);
    forall j: nat | j < 64 ensures !ClearFrom(w, 0).slots[j].used {
      ClearedFrom(w, 0, j);
    }
    ClearedFrom(w, 0, 0);
  }
}
