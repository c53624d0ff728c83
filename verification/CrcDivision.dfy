/** What the CRC is: the remainder of the message, as a polynomial over two elements,
    on division by x^16 + x^15 + x^2 + 1. Polynomials are their coefficients here,
    the highest power first. */
module CrcDivision {
  import opened Prelude
  import opened ModbusCrc

  type Bits = seq<bool>

  // ----- Polynomials over two elements -----

  function Zeros(n: nat): Bits {
    seq(n, _ => false)
  }

  /** The sum of two polynomials of one length. */
  function Plus(a: Bits, b: Bits): Bits
    requires |a| == |b|
  {
    seq(|a|, k requires 0 <= k < |a| => a[k] != b[k])
  }

  /** The coefficients of x^16 + x^15 + x^2 + 1. */
  const Generator: Bits := [true, true] + Zeros(12) + [true, false, true]

  /** One step of long division: the generator is taken from the front when the
      leading coefficient is one, and the leading coefficient is gone. */
  function Reduced(d: Bits): Bits
    requires |d| >= 17
  {
    if d[0] then Plus(d[..17], Generator)[1..] + d[17..] else d[1..]
  }

  function Remainder(d: Bits): (r: Bits)
    requires |d| >= 16
    ensures |r| == 16
    decreases |d|
  {
    if |d| == 16 then d else Remainder(Reduced(d))
  }

  function Quotient(d: Bits): (q: Bits)
    requires |d| >= 16
    ensures |q| == |d| - 16
    decreases |d|
  {
    if |d| == 16 then [] else [d[0]] + Quotient(Reduced(d))
  }

  /** The product with the generator: its shifted copies, summed. */
  function Multiple(q: Bits): (m: Bits)
    ensures |m| == |q| + 16
  {
    if q == [] then Zeros(16)
    else Plus((if q[0] then Generator else Zeros(17)) + Zeros(|q| - 1), [false] + Multiple(q[1..]))
  }

  /** The part of the product that the leading coefficient of the quotient makes. */
  function Lead(d: Bits): (g: Bits)
    requires |d| >= 17
    ensures |g| == |d|
  {
    (if d[0] then Generator else Zeros(17)) + Zeros(|d| - 17)
  }

  lemma ReducedIsLess(d: Bits)
    requires |d| >= 17
    ensures d == Plus(Lead(d), [false] + Reduced(d))
  {
  }

  lemma PlusAssociates(a: Bits, b: Bits, c: Bits)
    requires |a| == |b| == |c|
    ensures Plus(a, Plus(b, c)) == Plus(Plus(a, b), c)
  {
  }

  /** Long division divides: the dividend is quotient times generator plus remainder. */
  lemma {:induction false} DividesWithRemainder(d: Bits)
    requires |d| >= 16
    ensures Plus(Multiple(Quotient(d)), Zeros(|d| - 16) + Remainder(d)) == d
    decreases |d|
  {
    if |d| > 16 {
      DividesWithRemainder(Reduced(d));
      QuotientLeads(d);
      ReducedIsLess(d);
      OneMoreTerm(d, Lead(d), Reduced(d), Multiple(Quotient(Reduced(d))), Remainder(d));
    } else {
      assert Plus(Zeros(16), d) == d;
    }
  }

  lemma OneMoreTerm(d: Bits, lead: Bits, e: Bits, m: Bits, r: Bits)
    requires |d| == |lead| == |e| + 1 == |m| + 1 && |r| == 16 && |e| >= 16
    requires d == Plus(lead, [false] + e) && Plus(m, Zeros(|e| - 16) + r) == e
    ensures Plus(Plus(lead, [false] + m), Zeros(|d| - 16) + r) == d
  {
    var z := Zeros(|e| - 16) + r;
    PlusMore(false, false, m, z);
    PlusAssociates(lead, [false] + m, [false] + z);
    assert Zeros(|d| - 16) + r == [false] + z;
  }

  lemma QuotientLeads(d: Bits)
    requires |d| >= 17
    ensures Multiple(Quotient(d)) == Plus(Lead(d), [false] + Multiple(Quotient(Reduced(d))))
  {
    assert Quotient(d)[1..] == Quotient(Reduced(d));
  }

  lemma PlusMore(x: bool, y: bool, a: Bits, b: Bits)
    requires |a| == |b|
    ensures Plus([x] + a, [y] + b) == [x != y] + Plus(a, b)
  {
  }

  // ----- The message as a polynomial -----

  /** The low n bits of a word, the lowest first. */
  function LowBits(w: bv16, n: nat): (r: Bits)
    ensures |r| == n
    decreases n
  {
    if n == 0 then [] else [w & 1 == 1] + LowBits(w >> 1, n - 1)
  }

  /** A byte goes in with its low bit first. */
  function MessageBits(s: Bytes): Bits {
    if s == [] then [] else MessageBits(Front(s)) + LowBits(Last(s) as bv16, 8)
  }

  function FrontInverted(m: Bits): Bits {
    seq(|m|, k requires 0 <= k < |m| => if k < 16 then !m[k] else m[k])
  }

  /** The message times x^16, its first sixteen coefficients inverted: the CRC starts
      from all ones. */
  function Dividend(s: Bytes): Bits {
    FrontInverted(MessageBits(s) + Zeros(16))
  }

  /** The coefficient of the highest power is the low bit. */
  function WordBits(w: bv16): (r: Bits)
    ensures |r| == 16
  {
    LowBits(w, 16)
  }

  // ----- Division with a register -----

  /** The register after one more message bit. */
  function Clocked(r: Bits, m: bool): (r': Bits)
    requires |r| == 16
    ensures |r'| == 16
  {
    var moved := r[1..] + [false];
    if r[0] != m then Plus(moved, Generator[1..]) else moved
  }

  function Run(r: Bits, m: Bits): (r': Bits)
    requires |r| == 16
    ensures |r'| == 16
    decreases |m|
  {
    if m == [] then r else Run(Clocked(r, m[0]), m[1..])
  }

  lemma {:induction false} RunOn(r: Bits, m: Bits, n: Bits)
    requires |r| == 16
    ensures Run(r, m + n) == Run(Run(r, m), n)
    decreases |m|
  {
    if m == [] {
      assert m + n == n;
    } else {
      RunOn(Clocked(r, m[0]), m[1..], n);
      assert (m + n)[1..] == m[1..] + n;
    }
  }

  /** What is left to divide: the register over the front of the bits to come. */
  function Over(r: Bits, m: Bits): (d: Bits)
    requires |r| == 16
    ensures |d| == |m| + 16
  {
    Plus(r + Zeros(|m|), m + Zeros(16))
  }

  lemma ReducedAt(d: Bits, k: nat)
    requires |d| >= 17 && k < |d| - 1
    ensures |Reduced(d)| == |d| - 1 && Reduced(d)[k] == (d[k + 1] != (k < 16 && d[0] && Generator[k + 1]))
  {
  }

  lemma ClockedAt(r: Bits, m: bool, k: nat)
    requires |r| == 16 && k < 16
    ensures Clocked(r, m)[k] == ((k < 15 && r[k + 1]) != (r[0] != m && Generator[k + 1]))
  {
  }

  lemma OverAt(r: Bits, m: Bits, k: nat)
    requires |r| == 16 && k < |m| + 16
    ensures Over(r, m)[k] == ((k < 16 && r[k]) != (k < |m| && m[k]))
  {
  }

  lemma ClockReduces(r: Bits, m: Bits)
    requires |r| == 16 && m != []
    ensures Reduced(Over(r, m)) == Over(Clocked(r, m[0]), m[1..])
  {
    var d, r' := Over(r, m), Clocked(r, m[0]);
    OverAt(r, m, 0);
    forall k: nat | k < |m| + 15 ensures Reduced(d)[k] == Over(r', m[1..])[k] {
      ReducedAt(d, k);
      OverAt(r, m, k + 1);
      OverAt(r', m[1..], k);
      if k < 16 {
        ClockedAt(r, m[0], k);
      }
    }
    assert |Reduced(d)| == |m| + 15;
  }

  lemma {:induction false} RunDivides(r: Bits, m: Bits)
    requires |r| == 16
    ensures Remainder(Over(r, m)) == Run(r, m)
    decreases |m|
  {
    if m == [] {
      assert Over(r, m) == r;
    } else {
      ClockReduces(r, m);
      RunDivides(Clocked(r, m[0]), m[1..]);
    }
  }

  // ----- The shift register of the code -----

  function BitWord(m: bool): bv16 {
    if m then 1 else 0
  }

  function Halved(w: bv16, n: nat): bv16
    decreases n
  {
    if n == 0 then w else Halved(w >> 1, n - 1)
  }

  lemma {:induction false} LowBitsMore(w: bv16, n: nat)
    ensures LowBits(w, n + 1) == LowBits(w, n) + [Halved(w, n) & 1 == 1]
    decreases n
  {
    if n > 0 {
      LowBitsMore(w >> 1, n - 1);
      assert LowBits(w, n + 1) == [w & 1 == 1] + (LowBits(w >> 1, n - 1) + [Halved(w, n) & 1 == 1]);
    }
  }

  lemma {:induction false} HalvedTwice(w: bv16, n: nat, k: nat)
    ensures Halved(Halved(w, n), k) == Halved(w, n + k)
    decreases n
  {
    if n > 0 {
      HalvedTwice(w >> 1, n - 1, k);
    }
  }

  lemma EightHalves(w: bv16)
    ensures Halved(w, 8) == w >> 8
  {
    assert Halved(w, 8) == w >> 1 >> 1 >> 1 >> 1 >> 1 >> 1 >> 1 >> 1;
  }

  lemma TopBit(w: bv16)
    ensures Halved(w >> 1, 15) & 1 == 0
  {
    assert Halved(w >> 1, 15) == Halved(w, 16);
    HalvedTwice(w, 8, 8);
    EightHalves(w);
    EightHalves(w >> 8);
  }

  lemma MovedWord(w: bv16)
    ensures WordBits(w >> 1) == WordBits(w)[1..] + [false]
  {
    LowBitsMore(w >> 1, 15);
    TopBit(w);
  }

  lemma LowestXor(a: bv16, b: bv16)
    ensures (a ^ b) & 1 == 1 <==> (a & 1 == 1) != (b & 1 == 1)
  {
  }

  lemma XorAddsLowest(a: bv16, b: bv16, n: nat)
    requires LowBits((a >> 1) ^ (b >> 1), n) == Plus(LowBits(a >> 1, n), LowBits(b >> 1, n))
    ensures LowBits(a ^ b, n + 1) == Plus(LowBits(a, n + 1), LowBits(b, n + 1))
  {
    LowestXor(a, b);
    HalfLinear(a, b);
    PlusMore(a & 1 == 1, b & 1 == 1, LowBits(a >> 1, n), LowBits(b >> 1, n));
  }

  lemma {:induction false} XorAdds(a: bv16, b: bv16, n: nat)
    ensures LowBits(a ^ b, n) == Plus(LowBits(a, n), LowBits(b, n))
    decreases n
  {
    if n > 0 {
      XorAdds(a >> 1, b >> 1, n - 1);
      XorAddsLowest(a, b, n - 1);
    }
  }

  lemma ZeroFirst(w: bv16, half: bv16, n: nat, k: nat, t: Bits)
    requires w & 1 == 0 && w >> 1 == half && LowBits(half, n) == Zeros(k) + t
    ensures LowBits(w, n + 1) == Zeros(k + 1) + t
  {
  }

  /** The code's constant is the generator below x^16. */
  lemma TapsAreGenerator()
    ensures WordBits(0xA001) == Generator[1..]
  {
    var t := [true, false, true];
    assert LowBits(0x0005, 3) == Zeros(0) + t by {
      assert LowBits(0x0002, 2) == [false] + LowBits(0x0001, 1);
    }
    ZeroFirst(0x000A, 0x0005, 3, 0, t);
    ZeroFirst(0x0014, 0x000A, 4, 1, t);
    ZeroFirst(0x0028, 0x0014, 5, 2, t);
    ZeroFirst(0x0050, 0x0028, 6, 3, t);
    ZeroFirst(0x00A0, 0x0050, 7, 4, t);
    ZeroFirst(0x0140, 0x00A0, 8, 5, t);
    ZeroFirst(0x0280, 0x0140, 9, 6, t);
    ZeroFirst(0x0500, 0x0280, 10, 7, t);
    ZeroFirst(0x0A00, 0x0500, 11, 8, t);
    ZeroFirst(0x1400, 0x0A00, 12, 9, t);
    ZeroFirst(0x2800, 0x1400, 13, 10, t);
    ZeroFirst(0x5000, 0x2800, 14, 11, t);
    assert 0xA001 as bv16 >> 1 == 0x5000;
    assert WordBits(0xA001) == [true] + LowBits(0x5000, 15);
  }

  lemma LowBit(w: bv16, y: bv16)
    ensures BitWord(y & 1 == 1) == y & 1
    ensures (w ^ y) & 1 == (w ^ (y & 1)) & 1
    ensures (w ^ (y & 1)) >> 1 == w >> 1
  {
  }

  lemma BitDiffers(w: bv16, m: bool)
    ensures (w ^ BitWord(m)) & 1 == 1 <==> (w & 1 == 1) != m
    ensures (w ^ BitWord(m)) >> 1 == w >> 1
  {
  }

  lemma TapsAdd(w: bv16)
    ensures WordBits(w ^ 0xA001) == Plus(WordBits(w), Generator[1..])
  {
    XorAdds(w, 0xA001, 16);
    TapsAreGenerator();
  }

  /** Halving a word moves its bits up one power, the code's constant adds the
      generator, and the lowest bit is the leading coefficient. */
  ghost predicate Reflects(bits: bv16 -> Bits, w: bv16) {
    && |bits(w)| == 16 && bits(w)[0] == (w & 1 == 1)
    && bits(w >> 1) == bits(w)[1..] + [false]
    && |bits(w >> 1)| == 16 && bits((w >> 1) ^ 0xA001) == Plus(bits(w >> 1), Generator[1..])
  }

  lemma WordReflects(w: bv16)
    ensures Reflects(WordBits, w)
  {
    MovedWord(w);
    TapsAdd(w >> 1);
  }

  lemma ShiftOf(w: bv16, m: bool)
    ensures Shift(Xor(w, BitWord(m))) == if (w & 1 == 1) != m then (w >> 1) ^ 0xA001 else w >> 1
  {
    BitDiffers(w, m);
    ShiftIs(Xor(w, BitWord(m)), w >> 1, (w & 1 == 1) != m);
  }

  lemma ShiftReflects(bits: bv16 -> Bits, w: bv16, m: bool)
    requires Reflects(bits, w)
    ensures bits(Shift(Xor(w, BitWord(m)))) == Clocked(bits(w), m)
  {
    ShiftOf(w, m);
    RegisterIs(bits, w, w >> 1, Shift(Xor(w, BitWord(m))), m);
  }

  lemma RegisterIs(bits: bv16 -> Bits, w: bv16, half: bv16, shifted: bv16, m: bool)
    requires |bits(w)| == |bits(half)| == 16 && bits(half) == bits(w)[1..] + [false]
    requires bits(half ^ 0xA001) == Plus(bits(half), Generator[1..])
    requires shifted == if bits(w)[0] != m then half ^ 0xA001 else half
    ensures bits(shifted) == Clocked(bits(w), m)
  {
    ClockedIs(bits(w), m, bits(half));
  }

  lemma ClockedIs(r: Bits, m: bool, moved: Bits)
    requires |r| == 16 && moved == r[1..] + [false]
    ensures Clocked(r, m) == if r[0] != m then Plus(moved, Generator[1..]) else moved
  {
  }

  lemma ShiftIs(x: bv16, half: bv16, odd: bool)
    requires x >> 1 == half && odd == (x & 1 == 1)
    ensures Shift(x) == if odd then half ^ 0xA001 else half
  {
  }

  /** One turn of the code's inner loop takes in one bit. */
  lemma ShiftClocks(w: bv16, m: bool)
    ensures WordBits(Shift(Xor(w, BitWord(m)))) == Clocked(WordBits(w), m)
  {
    WordReflects(w);
    ShiftReflects(WordBits, w, m);
  }

  /** The word after the low n bits of y, one at a time. */
  function Fed(w: bv16, y: bv16, n: nat): bv16
    decreases n
  {
    if n == 0 then w else Fed(Shift(Xor(w, BitWord(y & 1 == 1))), y >> 1, n - 1)
  }

  lemma {:induction false} FedRuns(w: bv16, y: bv16, n: nat)
    ensures WordBits(Fed(w, y, n)) == Run(WordBits(w), LowBits(y, n))
    decreases n
  {
    if n > 0 {
      ShiftClocks(w, y & 1 == 1);
      FedRuns(Shift(Xor(w, BitWord(y & 1 == 1))), y >> 1, n - 1);
      assert LowBits(y, n)[1..] == LowBits(y >> 1, n - 1);
    }
  }

  lemma {:induction false} ShiftFirst(w: bv16, n: nat)
    ensures Iterate(Shift, Shift(w), n) == Iterate(Shift, w, n + 1)
    decreases n
  {
    if n > 0 {
      ShiftFirst(w, n - 1);
    }
  }

  lemma OneBit(w: bv16, y: bv16)
    ensures Shift(Xor(w, y)) == Xor(Shift(Xor(w, BitWord(y & 1 == 1))), y >> 1)
  {
    LowBit(w, y);
    ShiftParts(w ^ y);
    ShiftParts(w ^ (y & 1));
    HalfLinear(w, y);
    MaskByLowBit(w ^ y, w ^ (y & 1));
    Swapped(w >> 1, y >> 1, Mask(w ^ y));
  }

  lemma MaskByLowBit(a: bv16, b: bv16)
    requires a & 1 == b & 1
    ensures Mask(a) == Mask(b)
  {
  }

  lemma Swapped(x: bv16, y: bv16, m: bv16)
    ensures (x ^ y) ^ m == (x ^ m) ^ y
  {
  }

  /** Taking the bits in all at once or one by one is the same. */
  lemma {:induction false} AtOnce(w: bv16, y: bv16, n: nat)
    ensures Iterate(Shift, Xor(w, y), n) == Xor(Fed(w, y, n), Halved(y, n))
    decreases n
  {
    if n > 0 {
      ShiftFirst(Xor(w, y), n - 1);
      OneBit(w, y);
      AtOnce(Shift(Xor(w, BitWord(y & 1 == 1))), y >> 1, n - 1);
    }
  }

  lemma NothingLeft(w: bv16, b: bv8)
    ensures (b as bv16) >> 8 == 0 && Xor(w, 0) == w
  {
  }

  lemma StepRuns(w: bv16, b: bv8)
    ensures WordBits(Step(w, b)) == Run(WordBits(w), LowBits(b as bv16, 8))
  {
    AtOnce(w, b as bv16, 8);
    EightHalves(b as bv16);
    NothingLeft(Fed(w, b as bv16, 8), b);
    FedRuns(w, b as bv16, 8);
  }

  lemma MessageRuns(r: Bits, s: Bytes)
    requires |r| == 16 && s != []
    ensures Run(r, MessageBits(s)) == Run(Run(r, MessageBits(Front(s))), LowBits(Last(s) as bv16, 8))
  {
    RunOn(r, MessageBits(Front(s)), LowBits(Last(s) as bv16, 8));
  }

  lemma CrcLast(s: Bytes)
    ensures Crc(s) == if s == [] then INITIAL else Step(Crc(Front(s)), Last(s))
  {
  }

  lemma {:induction false} FoldRuns(s: Bytes)
    ensures WordBits(Crc(s)) == Run(WordBits(INITIAL), MessageBits(s))
  {
    CrcLast(s);
    if s != [] {
      FoldRuns(Front(s));
      StepRuns(Crc(Front(s)), Last(s));
      MessageRuns(WordBits(INITIAL), s);
    }
  }

  function Ones(n: nat): Bits {
    seq(n, _ => true)
  }

  lemma OneFirst(w: bv16, half: bv16, n: nat)
    requires w & 1 == 1 && w >> 1 == half && LowBits(half, n) == Ones(n)
    ensures LowBits(w, n + 1) == Ones(n + 1)
  {
  }

  lemma InitialIsOnes()
    ensures WordBits(INITIAL) == Ones(16)
  {
    OneFirst(0x0001, 0x0000, 0);
    OneFirst(0x0003, 0x0001, 1);
    OneFirst(0x0007, 0x0003, 2);
    OneFirst(0x000F, 0x0007, 3);
    OneFirst(0x001F, 0x000F, 4);
    OneFirst(0x003F, 0x001F, 5);
    OneFirst(0x007F, 0x003F, 6);
    OneFirst(0x00FF, 0x007F, 7);
    OneFirst(0x01FF, 0x00FF, 8);
    OneFirst(0x03FF, 0x01FF, 9);
    OneFirst(0x07FF, 0x03FF, 10);
    OneFirst(0x0FFF, 0x07FF, 11);
    OneFirst(0x1FFF, 0x0FFF, 12);
    OneFirst(0x3FFF, 0x1FFF, 13);
    OneFirst(0x7FFF, 0x3FFF, 14);
    OneFirst(0xFFFF, 0x7FFF, 15);
  }

  lemma StartsFromOnes(m: Bits)
    ensures Over(WordBits(INITIAL), m) == FrontInverted(m + Zeros(16))
  {
    InitialIsOnes();
    OnesInvert(m);
  }

  lemma OnesInvert(m: Bits)
    ensures Over(Ones(16), m) == FrontInverted(m + Zeros(16))
  {
  }

  /** The CRC of any message is the remainder of the message on division by
      x^16 + x^15 + x^2 + 1, its first sixteen bits inverted. */
  lemma CrcIsRemainder(s: Bytes)
    ensures WordBits(Crc(s)) == Remainder(Dividend(s))
  {
    FoldRuns(s);
    RunDivides(WordBits(INITIAL), MessageBits(s));
    StartsFromOnes(MessageBits(s));
  }

  // ----- A known frame -----

  lemma KnownSteps()
    ensures Step(0xFFFF, 1) == 0x807E && Step(0x807E, 3) == 0x2140 && Step(0x2140, 0) == 0xF020
    ensures Step(0xF020, 0) == 0xD8F1 && Step(0xD8F1, 0) == 0x8419 && Step(0x8419, 1) == 0x0A84
  {
  }

  /** A read request as it goes over the wire. */
  lemma KnownFrame()
    ensures Framed([1, 3, 0, 0, 0, 1]) == [1, 3, 0, 0, 0, 1, 0x84, 0x0A]
  {
    KnownSteps();
    TwoSteps(INITIAL, 1, 3);
    FoldAppend(Step, INITIAL, [1, 3], [0, 0]);
    TwoSteps(0x2140, 0, 0);
    FoldAppend(Step, INITIAL, [1, 3] + [0, 0], [0, 1]);
    TwoSteps(0xD8F1, 0, 1);
    assert [1 as bv8, 3] + [0, 0] + [0, 1] == [1, 3, 0, 0, 0, 1];
    assert LowByte(0x0A84) == 0x84 && HighByte(0x0A84) == 0x0A;
  }
}
