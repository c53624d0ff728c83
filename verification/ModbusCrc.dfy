/** The CRC of app/engine/modbus_pool.c, the frames it protects and the read loop
    that gathers a response. */
module ModbusCrc {
  import opened Prelude

  type Bytes = seq<bv8>

  // ----- Repeated and folded functions -----

  function Iterate<T>(f: T -> T, x: T, n: nat): T
    decreases n
  {
    if n == 0 then x else f(Iterate(f, x, n - 1))
  }

  function Fold<S>(step: (S, bv8) -> S, start: S, data: Bytes): S {
    if data == [] then start else step(Fold(step, start, Front(data)), Last(data))
  }

  ghost predicate Injective<T(!new)>(f: T -> T) {
    forall x, y :: f(x) == f(y) ==> x == y
  }

  ghost predicate Linear<T(!new)>(f: T -> T, plus: (T, T) -> T) {
    forall x, y :: f(plus(x, y)) == plus(f(x), f(y))
  }

  /** Each byte can be told from the state after it, given the state before it, and
      the other way round. */
  ghost predicate Reversible<S(!new)>(step: (S, bv8) -> S) {
    && (forall s, t, b {:trigger step(s, b), step(t, b)} :: step(s, b) == step(t, b) ==> s == t)
    && (forall s, b, c {:trigger step(s, b), step(s, c)} :: step(s, b) == step(s, c) ==> b == c)
  }

  lemma {:induction false} IterateInjective<T(!new)>(f: T -> T, a: T, b: T, n: nat)
    requires Injective(f) && Iterate(f, a, n) == Iterate(f, b, n)
    ensures a == b
  {
    if n > 0 {
      IterateInjective(f, a, b, n - 1);
    }
  }

  lemma {:induction false} IterateLinear<T(!new)>(f: T -> T, plus: (T, T) -> T, a: T, b: T, n: nat)
    requires Linear(f, plus)
    ensures Iterate(f, plus(a, b), n) == plus(Iterate(f, a, n), Iterate(f, b, n))
  {
    if n > 0 {
      IterateLinear(f, plus, a, b, n - 1);
    }
  }

  lemma {:induction false} FoldAppend<S>(step: (S, bv8) -> S, start: S, s: Bytes, t: Bytes)
    ensures Fold(step, start, s + t) == Fold(step, Fold(step, start, s), t)
  {
    if t == [] {
      assert s + t == s;
    } else {
      FoldAppend(step, start, s, Front(t));
      FrontLast(s + Front(t), Last(t));
      assert s + t == s + Front(t) + [Last(t)];
    }
  }

  lemma FoldMore<S>(step: (S, bv8) -> S, start: S, s: Bytes, b: bv8)
    ensures Fold(step, start, []) == start
    ensures Fold(step, start, s + [b]) == step(Fold(step, start, s), b)
  {
    FrontLast(s, b);
  }

  lemma StepBack<S(!new)>(step: (S, bv8) -> S, s: S, t: S, b: bv8)
    requires Reversible(step) && step(s, b) == step(t, b)
    ensures s == t
  {
  }

  lemma {:induction false} FoldInjective<S(!new)>(step: (S, bv8) -> S, a: S, b: S, data: Bytes)
    requires Reversible(step) && Fold(step, a, data) == Fold(step, b, data)
    ensures a == b
  {
    if data != [] {
      var front, last := Front(data), Last(data);
      assert data == front + [last];
      FoldMore(step, a, front, last);
      FoldMore(step, b, front, last);
      StepBack(step, Fold(step, a, front), Fold(step, b, front), last);
      FoldInjective(step, a, b, front);
    }
  }

  /** Replacing a stretch of bytes changes the final state exactly when it changes
      the state behind the stretch. */
  lemma FoldSplits<S(!new)>(step: (S, bv8) -> S, start: S, before: Bytes, mid: Bytes, mid': Bytes, after: Bytes)
    requires Reversible(step)
    ensures var s := Fold(step, start, before);
      Fold(step, start, before + mid + after) == Fold(step, start, before + mid' + after) <==>
        Fold(step, s, mid) == Fold(step, s, mid')
  {
    FoldAppend(step, start, before + mid, after);
    FoldAppend(step, start, before + mid', after);
    FoldAppend(step, start, before, mid);
    FoldAppend(step, start, before, mid');
    var s := Fold(step, start, before);
    if Fold(step, Fold(step, s, mid), after) == Fold(step, Fold(step, s, mid'), after) {
      FoldInjective(step, Fold(step, s, mid), Fold(step, s, mid'), after);
    }
  }

  // ----- The CRC -----

  const POLYNOMIAL: bv16 := 0xA001
  const INITIAL: bv16 := 0xFFFF

  function Shift(crc: bv16): bv16 {
    if crc & 1 == 1 then (crc >> 1) ^ POLYNOMIAL else crc >> 1
  }

  function Xor(a: bv16, b: bv16): bv16 {
    a ^ b
  }

  function Step(crc: bv16, b: bv8): bv16 {
    Iterate(Shift, Xor(crc, b as bv16), 8)
  }

  function Crc(s: Bytes): bv16 {
    Fold(Step, INITIAL, s)
  }

  method Crc16(buf: Bytes) returns (crc: bv16)
    ensures crc == Crc(buf)
  {
    crc := 0xFFFF;
    for i := 0 to |buf|
      invariant crc == Crc(buf[..i])
    {
      FoldMore(Step, INITIAL, buf[..i], buf[i]);
      assert buf[..i + 1] == buf[..i] + [buf[i]];
      crc := ByteLoop(crc, buf[i]);
    }
    assert buf[..|buf|] == buf;
  }

  /** The inner loop of crc16. */
  method ByteLoop(state: bv16, b: bv8) returns (crc: bv16)
    ensures crc == Step(state, b)
  {
    crc := state ^ (b as bv16);
    ghost var start := Xor(state, b as bv16);
    for j := 0 to 8
      invariant crc == Iterate(Shift, start, j)
    {
      crc := if crc & 1 == 1 then (crc >> 1) ^ 0xA001 else crc >> 1;
    }
  }

  // ----- One byte -----

  lemma ShiftInjective()
    ensures Injective(Shift)
  {
    forall a, b | Shift(a) == Shift(b) ensures a == b {
      ShiftLosesNothing(a, b);
    }
  }

  lemma ShiftLosesNothing(a: bv16, b: bv16)
    requires Shift(a) == Shift(b)
    ensures a == b
  {
  }

  lemma ShiftLinear()
    ensures Linear(Shift, Xor)
  {
    forall a, b ensures Shift(Xor(a, b)) == Xor(Shift(a), Shift(b)) {
      ShiftXor(a, b);
    }
  }

  lemma ShiftXor(a: bv16, b: bv16)
    ensures Shift(Xor(a, b)) == Xor(Shift(a), Shift(b))
  {
    ShiftParts(a);
    ShiftParts(b);
    SumParts(a, b);
    Rearranged(a >> 1, Mask(a), b >> 1, Mask(b));
  }

  lemma SumParts(a: bv16, b: bv16)
    ensures Shift(Xor(a, b)) == ((a >> 1) ^ (b >> 1)) ^ (Mask(a) ^ Mask(b))
  {
    ShiftParts(a ^ b);
    HalfLinear(a, b);
    MaskLinear(a, b);
  }

  /** What the bit shifted out adds. */
  function Mask(crc: bv16): bv16 {
    if crc & 1 == 1 then POLYNOMIAL else 0
  }

  lemma ShiftParts(crc: bv16)
    ensures Shift(crc) == (crc >> 1) ^ Mask(crc)
  {
    XorNothing(crc >> 1);
  }

  lemma XorNothing(x: bv16)
    ensures x ^ 0 == x
  {
  }

  lemma HalfLinear(a: bv16, b: bv16)
    ensures (a ^ b) >> 1 == (a >> 1) ^ (b >> 1)
  {
  }

  lemma MaskLinear(a: bv16, b: bv16)
    ensures Mask(a ^ b) == Mask(a) ^ Mask(b)
  {
  }

  lemma Rearranged(x: bv16, m: bv16, y: bv16, n: bv16)
    ensures (x ^ m) ^ (y ^ n) == (x ^ y) ^ (m ^ n)
  {
  }

  lemma XorCancels(a: bv16, b: bv16, x: bv16)
    ensures Xor(a, x) == Xor(b, x) ==> a == b
    ensures Xor(x, a) == Xor(x, b) ==> a == b
  {
  }

  lemma Widen(x: bv8, y: bv8)
    ensures x as bv16 == y as bv16 ==> x == y
  {
    assert x == (x as bv16) as bv8;
    assert y == (y as bv16) as bv8;
  }

  /** The state after a byte determines the state before it, and the byte. */
  lemma StepReversible()
    ensures Reversible(Step)
  {
    ShiftInjective();
    forall s, t, b | Step(s, b) == Step(t, b) ensures s == t {
      IterateInjective(Shift, Xor(s, b as bv16), Xor(t, b as bv16), 8);
      XorCancels(s, t, b as bv16);
    }
    forall s, b, c | Step(s, b) == Step(s, c) ensures b == c {
      IterateInjective(Shift, Xor(s, b as bv16), Xor(s, c as bv16), 8);
      XorCancels(b as bv16, c as bv16, s);
      Widen(b, c);
    }
  }

  // ----- Frames -----

  function LowByte(crc: bv16): bv8 {
    (crc & 0xFF) as bv8
  }

  function HighByte(crc: bv16): bv8 {
    (crc >> 8) as bv8
  }

  /** The 16-bit word of two bytes, low byte first. */
  function Word(low: bv8, high: bv8): bv16 {
    ((high as bv16) << 8) | (low as bv16)
  }

  lemma WordBytes(low: bv8, high: bv8)
    ensures LowByte(Word(low, high)) == low && HighByte(Word(low, high)) == high
  {
  }

  lemma BytesWord(crc: bv16)
    ensures Word(LowByte(crc), HighByte(crc)) == crc
  {
  }

  /** A frame as it is sent: the address and data, then the CRC, low byte first. */
  function Framed(data: Bytes): Bytes {
    data + [LowByte(Crc(data)), HighByte(Crc(data))]
  }

  /** The receiver's check. */
  predicate Accepts(frame: Bytes) {
    |frame| >= 4 && Crc(frame[..|frame| - 2]) == Word(frame[|frame| - 2], frame[|frame| - 1])
  }

  /** A byte in the upper half just moves down. */
  lemma EightShifts(b: bv8)
    ensures Iterate(Shift, (b as bv16) << 8, 8) == b as bv16
  {
    var d := b as bv16;
    Shifted(b);
    EightSteps(Shift, d << 8, d << 7, d << 6, d << 5, d << 4, d << 3, d << 2, d << 1, d);
  }

  lemma Shifted(b: bv8)
    ensures var d := b as bv16;
      && Shift(d << 8) == d << 7 && Shift(d << 7) == d << 6 && Shift(d << 6) == d << 5 && Shift(d << 5) == d << 4
      && Shift(d << 4) == d << 3 && Shift(d << 3) == d << 2 && Shift(d << 2) == d << 1 && Shift(d << 1) == d
  {
  }

  lemma EightSteps<T>(f: T -> T, a: T, b: T, c: T, d: T, e: T, g: T, h: T, i: T, j: T)
    requires f(a) == b && f(b) == c && f(c) == d && f(d) == e && f(e) == g && f(g) == h && f(h) == i && f(i) == j
    ensures Iterate(f, a, 8) == j
  {
    assert Iterate(f, a, 2) == c;
    assert Iterate(f, a, 4) == e;
    assert Iterate(f, a, 6) == h;
  }

  /** Two bytes are taken in as one 16-bit word. */
  lemma PairIsWord(crc: bv16, low: bv8, high: bv8)
    ensures Step(Step(crc, low), high) == Iterate(Shift, Iterate(Shift, Xor(crc, Word(low, high)), 8), 8)
  {
    ShiftLinear();
    EightShifts(high);
    IterateLinear(Shift, Xor, Xor(crc, low as bv16), (high as bv16) << 8, 8);
    WordXor(crc, low, high);
  }

  lemma WordXor(crc: bv16, low: bv8, high: bv8)
    ensures Xor(Xor(crc, low as bv16), (high as bv16) << 8) == Xor(crc, Word(low, high))
  {
  }

  /** From one state, different pairs of bytes lead to different states. */
  lemma PairInjective(crc: bv16, b: bv8, c: bv8, b': bv8, c': bv8)
    requires Step(Step(crc, b), c) == Step(Step(crc, b'), c')
    ensures b == b' && c == c'
  {
    ShiftInjective();
    PairIsWord(crc, b, c);
    PairIsWord(crc, b', c');
    var x, x' := Xor(crc, Word(b, c)), Xor(crc, Word(b', c'));
    IterateInjective(Shift, Iterate(Shift, x, 8), Iterate(Shift, x', 8), 8);
    IterateInjective(Shift, x, x', 8);
    XorCancels(Word(b, c), Word(b', c'), crc);
    WordBytes(b, c);
    WordBytes(b', c');
  }

  lemma TwoSteps(crc: bv16, b: bv8, c: bv8)
    ensures Fold(Step, crc, [b, c]) == Step(Step(crc, b), c)
  {
    FoldMore(Step, crc, [], b);
    FoldMore(Step, crc, [b], c);
    assert [] + [b] == [b] && [b] + [c] == [b, c];
  }

  /** A state is brought to 0 by its own two bytes. */
  lemma OwnBytesCancel(crc: bv16)
    ensures Step(Step(crc, LowByte(crc)), HighByte(crc)) == 0
  {
    PairIsWord(crc, LowByte(crc), HighByte(crc));
    BytesWord(crc);
    EightShifts(0);
    assert Xor(crc, crc) == (0 as bv16) << 8;
  }

  /** The check passes exactly when the CRC over the complete frame is 0. */
  lemma AcceptsIsZero(frame: Bytes)
    requires |frame| >= 4
    ensures Accepts(frame) <==> Crc(frame) == 0
  {
    var n := |frame|;
    var data, low, high := frame[..n - 2], frame[n - 2], frame[n - 1];
    assert frame == data + [low, high];
    FoldAppend(Step, INITIAL, data, [low, high]);
    TwoSteps(Crc(data), low, high);
    OwnBytesCancel(Crc(data));
    BytesWord(Crc(data));
    WordBytes(low, high);
    if Crc(frame) == 0 {
      PairInjective(Crc(data), low, high, LowByte(Crc(data)), HighByte(Crc(data)));
    }
  }

  /** The CRC of a frame followed by its own CRC is 0, whatever its length, so what
      is sent is accepted. */
  lemma FramedIsAccepted(data: Bytes)
    ensures Crc(Framed(data)) == 0
    ensures |data| >= 2 ==> Accepts(Framed(data))
  {
    var crc := Crc(data);
    FoldAppend(Step, INITIAL, data, [LowByte(crc), HighByte(crc)]);
    TwoSteps(crc, LowByte(crc), HighByte(crc));
    OwnBytesCancel(crc);
    if |data| >= 2 {
      AcceptsIsZero(Framed(data));
    }
  }

  /** A stretch of bytes put in another's place passes the check only if it leads to
      the same state. */
  lemma ChangeDetected(before: Bytes, mid: Bytes, mid': Bytes, after: Bytes)
    requires |before| + |mid| + |after| >= 4 && |mid| == |mid'| && Accepts(before + mid + after)
    ensures Accepts(before + mid' + after) <==> Fold(Step, Crc(before), mid) == Fold(Step, Crc(before), mid')
  {
    AcceptsIsZero(before + mid + after);
    AcceptsIsZero(before + mid' + after);
    StepReversible();
    FoldSplits(Step, INITIAL, before, mid, mid', after);
  }

  lemma OneStep(crc: bv16, b: bv8)
    ensures Fold(Step, crc, [b]) == Step(crc, b)
  {
    FoldMore(Step, crc, [], b);
    assert [] + [b] == [b];
  }

  /** Changing any one byte of a complete frame, data or CRC, is always noticed. */
  lemma OneByteChangeDetected(frame: Bytes, k: nat, b: bv8)
    requires Accepts(frame) && k < |frame| && b != frame[k]
    ensures !Accepts(frame[k := b])
  {
    var before, after := frame[..k], frame[k + 1..];
    assert frame == before + [frame[k]] + after;
    assert frame[k := b] == before + [b] + after;
    ChangeDetected(before, [frame[k]], [b], after);
    OneStep(Crc(before), frame[k]);
    OneStep(Crc(before), b);
    StepReversible();
  }

  /** So is changing two neighbouring bytes in any way. */
  lemma TwoByteChangeDetected(frame: Bytes, k: nat, b: bv8, c: bv8)
    requires Accepts(frame) && k + 1 < |frame| && (b != frame[k] || c != frame[k + 1])
    ensures !Accepts(frame[k := b][k + 1 := c])
  {
    var changed := frame[k := b][k + 1 := c];
    var before, after := frame[..k], frame[k + 2..];
    assert frame == before + [frame[k], frame[k + 1]] + after;
    assert changed == before + [b, c] + after;
    ChangeDetected(before, [frame[k], frame[k + 1]], [b, c], after);
    TwoSteps(Crc(before), frame[k], frame[k + 1]);
    TwoSteps(Crc(before), b, c);
    if Accepts(changed) {
      PairInjective(Crc(before), frame[k], frame[k + 1], b, c);
    }
  }

  // ----- The response -----

  const BUFFER := 256

  /** How long a response should be, judging by its first bytes. */
  function ExpectedLength(got: Bytes): int
    requires |got| >= 5
  {
    if got[1] & 0x80 != 0 then 5
    else if got[1] & 0x7F <= 0x04 then 3 + got[2] as int + 2
    else 8
  }

  predicate Enough(got: Bytes) {
    |got| >= BUFFER || (|got| >= 5 && |got| >= ExpectedLength(got))
  }

  /** The read loop over what each read returns, cut to the room left. */
  function Gather(got: Bytes, pieces: seq<Bytes>): Bytes
    decreases |pieces|
  {
    if Enough(got) || pieces == [] || pieces[0] == [] then got
    else Gather(got + Cut(pieces[0], BUFFER - |got|), pieces[1..])
  }

  function Cut(s: Bytes, n: nat): Bytes {
    if |s| <= n then s else s[..n]
  }

  function Joined(pieces: seq<Bytes>): Bytes {
    if pieces == [] then [] else pieces[0] + Joined(pieces[1..])
  }

  /** A response that is as long as it says. */
  predicate Complete(frame: Bytes) {
    5 <= |frame| <= BUFFER && ExpectedLength(frame) == |frame|
  }

  /** The loop does not stop inside a complete response. */
  lemma NotEnoughYet(frame: Bytes, got: Bytes, rest: Bytes)
    requires Complete(frame) && got + rest == frame && rest != []
    ensures !Enough(got)
  {
    if |got| >= 5 {
      assert got[1] == frame[1] && got[2] == frame[2];
    }
  }

  /** A complete response is gathered whole, in however many pieces it arrives. */
  lemma {:induction false} GatherAnyPieces(frame: Bytes, got: Bytes, pieces: seq<Bytes>)
    requires Complete(frame) && got + Joined(pieces) == frame && forall i | 0 <= i < |pieces| :: pieces[i] != []
    ensures Gather(got, pieces) == frame
    decreases |pieces|
  {
    if pieces == [] {
      assert got == frame;
    } else {
      NotEnoughYet(frame, got, Joined(pieces));
      Associates(got, pieces[0], Joined(pieces[1..]));
      GatherAnyPieces(frame, got + pieces[0], pieces[1..]);
    }
  }

  datatype Outcome = Timeout | BadMessage | Response(pdu: Bytes)

  /** rtu_request and sgw_request once the bytes are in. */
  function Checked(got: Bytes, slave: bv8): Outcome {
    if |got| < 4 then Timeout
    else if !Accepts(got) || got[0] != slave then BadMessage
    else Response(got[1..|got| - 2])
  }

  /** The sending half of both requests: address, data, CRC. */
  method BuildFrame(slave: bv8, pdu: Bytes) returns (frame: Bytes)
    ensures frame == Framed([slave] + pdu)
  {
    frame := [slave] + pdu;
    var crc := Crc16(frame);
    frame := frame + [LowByte(crc), HighByte(crc)];
  }

  method ReceiveResponse(pieces: seq<Bytes>, slave: bv8) returns (o: Outcome)
    ensures o == Checked(Gather([], pieces), slave)
  {
    var rbuf: Bytes := [];
    var i := 0;
    while i < |pieces| && |rbuf| < BUFFER
      invariant 0 <= i <= |pieces| && |rbuf| <= BUFFER
      invariant Gather([], pieces) == Gather(rbuf, pieces[i..])
    {
      var n := pieces[i];
      assert pieces[i..][0] == n && pieces[i..][1..] == pieces[i + 1..];
      if n == [] || (|rbuf| >= 5 && |rbuf| >= ExpectedLength(rbuf)) {
        break;
      }
      rbuf := rbuf + Cut(n, BUFFER - |rbuf|);
      i := i + 1;
    }
    if |rbuf| < 4 { return Timeout; }
    var got := |rbuf|;
    var received := Word(rbuf[got - 2], rbuf[got - 1]);
    var crc := Crc16(rbuf[..got - 2]);
    if crc != received { return BadMessage; }
    if rbuf[0] != slave { return BadMessage; }
    return Response(rbuf[1..got - 2]);
  }

  /** The bytes arrive in pieces, none of them empty. */
  predicate Splits(pieces: seq<Bytes>, s: Bytes) {
    Joined(pieces) == s && forall i | 0 <= i < |pieces| :: pieces[i] != []
  }

  /** A reply framed by the same rules and as long as it says comes through, in
      however many pieces. */
  lemma ReplyComesThrough(slave: bv8, pdu: Bytes, pieces: seq<Bytes>)
    requires Complete(Framed([slave] + pdu)) && Splits(pieces, Framed([slave] + pdu))
    ensures Checked(Gather([], pieces), slave) == Response(pdu)
  {
    var frame := Framed([slave] + pdu);
    assert [] + Joined(pieces) == frame;
    GatherAnyPieces(frame, [], pieces);
    FramedIsAccepted([slave] + pdu);
    PduInside(slave, pdu);
  }

  lemma PduInside(slave: bv8, pdu: Bytes)
    ensures var frame := Framed([slave] + pdu); frame[0] == slave && frame[1..|frame| - 2] == pdu
  {
  }

  // ----- A reply with one byte changed -----

  /** What is gathered is the front of what arrives; reading stops short of the end
      only where the front is as long as its header says. */
  lemma {:induction false} GathersFront(s: Bytes, got: Bytes, pieces: seq<Bytes>)
    requires |s| <= BUFFER && got + Joined(pieces) == s && forall i | 0 <= i < |pieces| :: pieces[i] != []
    ensures var g := Gather(got, pieces); |g| <= |s| && g == s[..|g|] && (|g| < |s| ==> Enough(g))
    decreases |pieces|
  {
    if pieces == [] {
      assert got == s;
    } else if !Enough(got) {
      Associates(got, pieces[0], Joined(pieces[1..]));
      GathersFront(s, got + pieces[0], pieces[1..]);
    }
  }

  /** A front of s, shorter than s, at which reading can stop and which the checks
      let through. */
  predicate PassesAt(s: Bytes, slave: bv8, n: nat) {
    5 <= n < |s| && n >= ExpectedLength(s) && Accepts(s[..n]) && s[0] == slave
  }

  /** A damaged reply. */
  function Damaged(slave: bv8, pdu: Bytes, k: nat, b: bv8): Bytes
    requires k < |Framed([slave] + pdu)|
  {
    Framed([slave] + pdu)[k := b]
  }

  /** Byte k of a reply, which is as long as it says, arrives as another byte b. */
  predicate IsDamage(slave: bv8, pdu: Bytes, k: nat, b: bv8) {
    var frame := Framed([slave] + pdu);
    Complete(frame) && k < |frame| && b != frame[k]
  }

  lemma WholeDamageRefused(slave: bv8, pdu: Bytes, k: nat, b: bv8)
    requires IsDamage(slave, pdu, k, b)
    ensures Checked(Damaged(slave, pdu, k, b), slave) == BadMessage
  {
    FramedIsAccepted([slave] + pdu);
    OneByteChangeDetected(Framed([slave] + pdu), k, b);
  }

  lemma {:induction false} StopsAt(s: Bytes, n: nat)
    requires |s| <= BUFFER && 5 <= n < |s| && n >= ExpectedLength(s)
    ensures Splits([s[..n], s[n..]], s) && Gather([], [s[..n], s[n..]]) == s[..n]
  {
    var pieces := [s[..n], s[n..]];
    assert pieces[1..] == [s[n..]] && pieces[1..][1..] == [];
    assert Joined(pieces[1..]) == s[n..] + [];
    assert [] + s[..n] == s[..n];
  }

  /** A reply with one byte changed is let through, in some pieces, exactly when a
      front of it that is at least as long as the damaged header says is itself a
      frame from the same address. */
  lemma DamagedReplyPassesExactly(slave: bv8, pdu: Bytes, k: nat, b: bv8)
    requires IsDamage(slave, pdu, k, b)
    ensures var s := Damaged(slave, pdu, k, b);
      (exists pieces :: Splits(pieces, s) && Checked(Gather([], pieces), slave).Response?) <==>
      (exists n: nat :: PassesAt(s, slave, n))
  {
    var s := Damaged(slave, pdu, k, b);
    if pieces :| Splits(pieces, s) && Checked(Gather([], pieces), slave).Response? {
      DamagedReplyOutcome(slave, pdu, k, b, pieces);
      assert PassesAt(s, slave, |Gather([], pieces)|);
    }
    if n: nat :| PassesAt(s, slave, n) {
      StopsAt(s, n);
      assert Splits([s[..n], s[n..]], s);
    }
  }

  /** In given pieces: it passes exactly when reading stops at such a front. */
  lemma DamagedReplyOutcome(slave: bv8, pdu: Bytes, k: nat, b: bv8, pieces: seq<Bytes>)
    requires IsDamage(slave, pdu, k, b) && Splits(pieces, Damaged(slave, pdu, k, b))
    ensures var g := Gather([], pieces);
      Checked(g, slave).Response? <==> PassesAt(Damaged(slave, pdu, k, b), slave, |g|)
  {
    var s := Damaged(slave, pdu, k, b);
    assert [] + Joined(pieces) == s;
    GathersFront(s, [], pieces);
    WholeDamageRefused(slave, pdu, k, b);
    FrontPasses(s, slave, Gather([], pieces));
  }

  lemma FrontPasses(s: Bytes, slave: bv8, g: Bytes)
    requires 5 <= |s| <= BUFFER && Checked(s, slave) == BadMessage
    requires |g| <= |s| && g == s[..|g|] && (|g| < |s| ==> Enough(g))
    ensures Checked(g, slave).Response? <==> PassesAt(s, slave, |g|)
  {
    if |g| == |s| {
      assert g == s;
    } else {
      assert g[0] == s[0] && g[1] == s[1] && g[2] == s[2];
    }
  }

  /** Whatever the reply, its damage at byte k and its pieces, it is refused. */
  ghost predicate AlwaysRefused(k: nat) {
    forall slave, pdu, b, pieces ::
      IsDamage(slave, pdu, k, b) && Splits(pieces, Damaged(slave, pdu, k, b)) ==>
        Checked(Gather([], pieces), slave) == BadMessage
  }

  /** Damage to any byte that does not say how long the reply is, data or CRC, is
      refused in however many pieces the reply arrives. */
  lemma DamagedReplyRefused(slave: bv8, pdu: Bytes, k: nat, b: bv8, pieces: seq<Bytes>)
    requires IsDamage(slave, pdu, k, b) && Splits(pieces, Damaged(slave, pdu, k, b)) && k != 1 && k != 2
    ensures Checked(Gather([], pieces), slave) == BadMessage
  {
    var s := Damaged(slave, pdu, k, b);
    assert Complete(s);
    assert [] + Joined(pieces) == s;
    GatherAnyPieces(s, [], pieces);
    WholeDamageRefused(slave, pdu, k, b);
  }

  /** A read reply of four data bytes whose count arrives as two: its first seven
      bytes are a frame of their own, and reading may stop there. */
  lemma DamagedCountPasses(slave: bv8)
    ensures !AlwaysRefused(2)
  {
    var short := [slave, 3, 2, 0, 0];
    var crc := Crc(short);
    var pdu: Bytes := [3, 4, 0, 0, LowByte(crc), HighByte(crc)];
    DamagePasses(slave, pdu, 2, 2, short);
  }

  /** A read reply whose function code arrives as an exception's: its first five
      bytes are a frame of their own. */
  lemma DamagedFunctionPasses(slave: bv8)
    ensures !AlwaysRefused(1)
  {
    var short := [slave, 0x83, 2];
    var crc := Crc(short);
    var pdu: Bytes := [3, 2, LowByte(crc), HighByte(crc)];
    DamagePasses(slave, pdu, 1, 0x83, short);
  }

  lemma DamagePasses(slave: bv8, pdu: Bytes, k: nat, b: bv8, short: Bytes)
    requires IsDamage(slave, pdu, k, b) && |short| >= 3 && short[0] == slave
    requires var s := Damaged(slave, pdu, k, b);
      |short| + 2 < |s| && s[..|short| + 2] == Framed(short) && ExpectedLength(s) <= |short| + 2
    ensures !AlwaysRefused(k)
  {
    var s := Damaged(slave, pdu, k, b);
    var n := |short| + 2;
    FramedIsAccepted(short);
    assert s[0] == s[..n][0];
    StopsAt(s, n);
    PassesOnce(slave, pdu, k, b, [s[..n], s[n..]]);
  }

  lemma PassesOnce(slave: bv8, pdu: Bytes, k: nat, b: bv8, pieces: seq<Bytes>)
    requires IsDamage(slave, pdu, k, b) && Splits(pieces, Damaged(slave, pdu, k, b))
    requires Checked(Gather([], pieces), slave) != BadMessage
    ensures !AlwaysRefused(k)
  {
  }

  /** So one changed byte is sure to be refused exactly when it is neither the
      function code nor the byte count. */
  lemma RefusedExactlyOffTheHeader(k: nat)
    ensures AlwaysRefused(k) <==> k != 1 && k != 2
  {
    if k == 1 {
      DamagedFunctionPasses(1);
    } else if k == 2 {
      DamagedCountPasses(1);
    } else {
      forall slave, pdu, b, pieces | IsDamage(slave, pdu, k, b) && Splits(pieces, Damaged(slave, pdu, k, b))
        ensures Checked(Gather([], pieces), slave) == BadMessage
      {
        DamagedReplyRefused(slave, pdu, k, b, pieces);
      }
    }
  }
}
