/** CRC-32C (section 12.1 of RFC 3720) in its reflected, bit-at-a-time form. */
module Crc32c {
  import opened Domain
  import opened Bytes

  const POLYNOMIAL: bv32 := 0x82F6_3B78
  const ALL_ONES: bv32 := 0xFFFF_FFFF

  function BitStep(c: bv32): bv32 {
    if c & 1 == 1 then (c >> 1) ^ POLYNOMIAL else c >> 1
  }

  function Step2(c: bv32): bv32 {
    BitStep(BitStep(c))
  }

  function Step4(c: bv32): bv32 {
    Step2(Step2(c))
  }

  function Step8(c: bv32): bv32 {
    Step4(Step4(c))
  }

  function PushBit(bits: bv8, low: bool): bv8 {
    (bits << 1) | if low then 1 else 0
  }

  /** The `n` lowest binary digits of `x`. */
  function Digits(x: nat, n: nat): bv8 {
    if n == 0 then 0 else PushBit(Digits(x / 2, n - 1), x % 2 == 1)
  }

  /** The octet as eight bits. */
  function Low(b: Octet): bv8 {
    Digits(b, 8)
  }

  function Word(b: Octet): bv32 {
    Low(b) as bv32
  }

  function Xor(c: bv32, d: bv32): bv32 {
    c ^ d
  }

  function ByteStep(c: bv32, b: Octet): bv32 {
    Step8(Xor(c, Word(b)))
  }

  function Update(c: bv32, s: Bytes): bv32
    decreases |s|
  {
    if s == [] then c else Update(ByteStep(c, s[0]), s[1..])
  }

  function Half(c: bv32): bv32 {
    c >> 1
  }

  predicate Odd(c: bv32) {
    c & 1 == 1
  }

  function Not(c: bv32): bv32 {
    !c
  }

  /** The number whose `n` binary digits, the lowest one first, are those of `c`. */
  function Number(c: bv32, n: nat): nat
    decreases n
  {
    if n == 0 then 0 else (if Odd(c) then 1 else 0) + 2 * Number(Half(c), n - 1)
  }

  /** The checksum a final state stands for: the inverted state as a number. */
  function Finish(c: bv32): nat {
    Number(Not(c), 32)
  }

  function Two(n: nat): nat {
    if n == 0 then 1 else 2 * Two(n - 1)
  }

  lemma {:induction false} NumberIsBounded(c: bv32, n: nat)
    ensures Number(c, n) < Two(n)
    decreases n
  {
    hide Half, Odd;
    if n > 0 {
      NumberIsBounded(Half(c), n - 1);
    }
  }

  lemma TwoTo32()
    ensures Two(32) == 0x1_0000_0000
  {
    assert Two(2) == 4 && Two(4) == 16 && Two(6) == 64 && Two(8) == 256;
    assert Two(10) == 0x400 && Two(12) == 0x1000 && Two(14) == 0x4000 && Two(16) == 0x1_0000;
    assert Two(18) == 0x4_0000 && Two(20) == 0x10_0000 && Two(22) == 0x40_0000 && Two(24) == 0x100_0000;
    assert Two(26) == 0x400_0000 && Two(28) == 0x1000_0000 && Two(30) == 0x4000_0000;
  }

  lemma FinishIsBounded(c: bv32)
    ensures Finish(c) < 0x1_0000_0000
  {
    hide Number, Not, Two;
    NumberIsBounded(Not(c), 32);
    TwoTo32();
  }

  function Halves(c: bv32, n: nat): bv32
    decreases n
  {
    if n == 0 then c else Halves(Half(c), n - 1)
  }

  lemma {:induction false} HalvesTwice(c: bv32, m: nat, n: nat)
    ensures Halves(c, m + n) == Halves(Halves(c, m), n)
    decreases m
  {
    hide Half;
    if m > 0 {
      HalvesTwice(Half(c), m - 1, n);
    }
  }

  function Down8(c: bv32): bv32 {
    c >> 8
  }

  lemma EightHalves(c: bv32)
    ensures Halves(c, 8) == Down8(c)
  {
    hide Half;
    var (c1, c2, c3) := (Half(c), Half(Half(c)), Half(Half(Half(c))));
    var (c4, c5, c6) := (Half(c3), Half(Half(c3)), Half(Half(Half(c3))));
    var c8 := Half(Half(c6));
    assert Halves(c8, 0) == c8;
    assert Halves(c6, 2) == Halves(Half(c6), 1);
    assert Halves(c5, 3) == Halves(c6, 2);
    assert Halves(c4, 4) == Halves(c5, 3);
    assert Halves(c3, 5) == Halves(c4, 4);
    assert Halves(c2, 6) == Halves(c3, 5);
    assert Halves(c1, 7) == Halves(c2, 6);
    DownByOnes(c);
  }

  lemma DownByOnes(c: bv32)
    ensures Half(Half(Half(Half(Half(Half(Half(Half(c)))))))) == Down8(c)
  {
  }

  lemma NothingLeft(c: bv32)
    ensures Halves(c, 32) == 0
  {
    hide Halves, Half;
    HalvesTwice(c, 8, 8);
    HalvesTwice(c, 16, 8);
    HalvesTwice(c, 24, 8);
    EightHalves(c);
    EightHalves(Down8(c));
    EightHalves(Down8(Down8(c)));
    EightHalves(Down8(Down8(Down8(c))));
  }

  lemma HalvesDetermine(c: bv32, d: bv32)
    requires Half(c) == Half(d) && Odd(c) == Odd(d)
    ensures c == d
  {
  }

  lemma {:induction false} NumberInjective(c: bv32, d: bv32, n: nat)
    requires Number(c, n) == Number(d, n) && Halves(c, n) == Halves(d, n)
    ensures c == d
    decreases n
  {
    hide Half, Odd;
    if n > 0 {
      NumberInjective(Half(c), Half(d), n - 1);
      HalvesDetermine(c, d);
    }
  }

  lemma FinishInjective(c: bv32, d: bv32)
    requires Finish(c) == Finish(d)
    ensures c == d
  {
    hide Number, Not;
    NothingLeft(Not(c));
    NothingLeft(Not(d));
    NumberInjective(Not(c), Not(d), 32);
    NotInjective(c, d);
  }

  lemma NotInjective(c: bv32, d: bv32)
    requires Not(c) == Not(d)
    ensures c == d
  {
    assert !!c == !!d;
  }

  // ---------- The state is never forgotten ----------

  lemma BitStepInjective(c: bv32, d: bv32)
    requires BitStep(c) == BitStep(d)
    ensures c == d
  {
  }

  lemma Step8Injective(c: bv32, d: bv32)
    requires Step8(c) == Step8(d)
    ensures c == d
  {
    hide BitStep;
    Step4Injective(Step4(c), Step4(d));
    Step4Injective(c, d);
  }

  lemma Step4Injective(c: bv32, d: bv32)
    requires Step4(c) == Step4(d)
    ensures c == d
  {
    hide BitStep;
    BitStepInjective(BitStep(Step2(c)), BitStep(Step2(d)));
    BitStepInjective(Step2(c), Step2(d));
    BitStepInjective(BitStep(c), BitStep(d));
    BitStepInjective(c, d);
  }

  /** The bits fit the `n` lowest places. */
  predicate Fits(bits: bv8, n: nat) {
    match n
    case 0 => bits < 0x01
    case 1 => bits < 0x02
    case 2 => bits < 0x04
    case 3 => bits < 0x08
    case 4 => bits < 0x10
    case 5 => bits < 0x20
    case 6 => bits < 0x40
    case 7 => bits < 0x80
    case _ => true
  }

  lemma PushFits(bits: bv8, low: bool, n: nat)
    requires Fits(bits, n) && n < 8
    ensures Fits(PushBit(bits, low), n + 1) && bits < 0x80
  {
  }

  lemma PushBitInjective(a: bv8, p: bool, b: bv8, q: bool)
    requires a < 0x80 && b < 0x80 && PushBit(a, p) == PushBit(b, q)
    ensures a == b && p == q
  {
    assert PushBit(a, p) & 1 == if p then 1 else 0;
    assert PushBit(b, q) & 1 == if q then 1 else 0;
    assert PushBit(a, p) >> 1 == a && PushBit(b, q) >> 1 == b;
  }

  lemma {:induction false} DigitsFit(x: nat, n: nat)
    requires n <= 8
    ensures Fits(Digits(x, n), n)
  {
    hide PushBit;
    if n > 0 {
      DigitsFit(x / 2, n - 1);
      PushFits(Digits(x / 2, n - 1), x % 2 == 1, n - 1);
    }
  }

  lemma {:induction false} DigitsInjective(x: nat, y: nat, n: nat)
    requires n <= 8 && x < Two(n) && y < Two(n) && Digits(x, n) == Digits(y, n)
    ensures x == y
  {
    hide Fits, PushBit;
    if n > 0 {
      DigitsFit(x / 2, n - 1);
      DigitsFit(y / 2, n - 1);
      PushFits(Digits(x / 2, n - 1), x % 2 == 1, n - 1);
      PushFits(Digits(y / 2, n - 1), y % 2 == 1, n - 1);
      PushBitInjective(Digits(x / 2, n - 1), x % 2 == 1, Digits(y / 2, n - 1), y % 2 == 1);
      DigitsInjective(x / 2, y / 2, n - 1);
    }
  }

  lemma LowInjective(a: Octet, b: Octet)
    requires Low(a) == Low(b)
    ensures a == b
  {
    hide Digits;
    assert Two(2) == 4 && Two(4) == 16 && Two(6) == 64 && Two(8) == 256;
    DigitsInjective(a, b, 8);
  }

  lemma XorInjective(c: bv32, d: bv32, w: bv32)
    requires Xor(c, w) == Xor(d, w)
    ensures c == d
  {
  }

  lemma XorInjectiveRight(c: bv32, v: bv32, w: bv32)
    requires Xor(c, v) == Xor(c, w)
    ensures v == w
  {
  }

  lemma ByteStepInjective(c: bv32, d: bv32, b: Octet)
    requires ByteStep(c, b) == ByteStep(d, b)
    ensures c == d
  {
    hide Step8, Word, Xor;
    Step8Injective(Xor(c, Word(b)), Xor(d, Word(b)));
    XorInjective(c, d, Word(b));
  }

  /** Two different states stay different, whatever follows. */
  lemma {:induction false} UpdateInjective(c: bv32, d: bv32, s: Bytes)
    requires Update(c, s) == Update(d, s)
    ensures c == d
    decreases |s|
  {
    if s != [] {
      hide ByteStep;
      UpdateInjective(ByteStep(c, s[0]), ByteStep(d, s[0]), s[1..]);
      ByteStepInjective(c, d, s[0]);
    }
  }

  lemma {:induction false} UpdateConcat(c: bv32, a: Bytes, b: Bytes)
    ensures Update(c, a + b) == Update(Update(c, a), b)
    decreases |a|
  {
    hide ByteStep;
    if a == [] {
      assert a + b == b;
    } else {
      assert (a + b)[1..] == a[1..] + b;
      UpdateConcat(ByteStep(c, a[0]), a[1..], b);
    }
  }

  // ---------- Four octets enter the state without loss ----------

  lemma BitStepByParity(c: bv32)
    ensures BitStep(c) == if Odd(c) then Xor(Half(c), POLYNOMIAL) else Half(c)
  {
  }

  lemma UpKeepsParity(c: bv32, y: bv32)
    ensures Odd(Xor(c, Up1(y))) == Odd(c)
  {
  }

  lemma HalfOfUp(c: bv32, y: bv32)
    requires y < 0x8000_0000
    ensures Half(Xor(c, Up1(y))) == Xor(Half(c), y)
  {
  }

  lemma XorSwaps(a: bv32, p: bv32, y: bv32)
    ensures Xor(Xor(a, p), y) == Xor(Xor(a, y), p)
  {
    hide Xor;
    XorAssociates(a, p, y);
    XorAssociates(a, y, p);
    XorCommutes(p, y);
  }

  lemma XorCommutes(c: bv32, d: bv32)
    ensures Xor(c, d) == Xor(d, c)
  {
  }

  /** A bit step lets later bits pass by: xor after it is xor one place higher before it. */
  lemma BitStepPasses(c: bv32, y: bv32)
    requires y < 0x8000_0000
    ensures Xor(BitStep(c), y) == BitStep(Xor(c, Up1(y)))
  {
    hide BitStep, Xor, Up1, Half, Odd;
    BitStepByParity(c);
    BitStepByParity(Xor(c, Up1(y)));
    UpKeepsParity(c, y);
    HalfOfUp(c, y);
    XorSwaps(Half(c), POLYNOMIAL, y);
  }

  function Up1(y: bv32): bv32 {
    y << 1
  }

  function Up8(y: bv32): bv32 {
    y << 8
  }

  lemma UpByOnes(y: bv32)
    requires y < 0x0100_0000
    ensures var (y1, y2, y3) := (Up1(y), Up1(Up1(y)), Up1(Up1(Up1(y))));
            var (y4, y5, y6) := (Up1(y3), Up1(Up1(y3)), Up1(Up1(Up1(y3))));
            var y7 := Up1(y6);
            && y < 0x8000_0000 && y1 < 0x8000_0000 && y2 < 0x8000_0000 && y3 < 0x8000_0000
            && y4 < 0x8000_0000 && y5 < 0x8000_0000 && y6 < 0x8000_0000 && y7 < 0x8000_0000
            && Up1(y7) == Up8(y)
  {
  }

  /** So an octet can enter the state eight bit steps early, eight places higher. */
  lemma Step8Passes(c: bv32, y: bv32)
    requires y < 0x0100_0000
    ensures Xor(Step8(c), y) == Step8(Xor(c, Up8(y)))
  {
    hide BitStep, Xor, Up1, Up8;
    UpByOnes(y);
    var y1 := Up1(y);
    var y2 := Up1(y1);
    var y3 := Up1(y2);
    var y4 := Up1(y3);
    var y5 := Up1(y4);
    var y6 := Up1(y5);
    var c1 := BitStep(c);
    var c2 := BitStep(c1);
    var c3 := BitStep(c2);
    var c4 := BitStep(c3);
    var c5 := BitStep(c4);
    var c6 := BitStep(c5);
    BitStepPasses(BitStep(c6), y);
    BitStepPasses(c6, y1);
    BitStepPasses(c5, y2);
    BitStepPasses(c4, y3);
    BitStepPasses(c3, y4);
    BitStepPasses(c2, y5);
    BitStepPasses(c1, y6);
    BitStepPasses(c, Up1(y6));
  }

  lemma XorAssociates(c: bv32, d: bv32, e: bv32)
    ensures Xor(Xor(c, d), e) == Xor(c, Xor(d, e))
  {
  }

  /** The first octets of a stream as one word, the first one lowest. */
  function Gather(s: Bytes): bv32 {
    if s == [] then 0 else Xor(Word(s[0]), Up8(Gather(s[1..])))
  }

  function Step8Times(c: bv32, n: nat): bv32
    decreases n
  {
    if n == 0 then c else Step8Times(Step8(c), n - 1)
  }

  predicate Below(y: bv32, octets: nat) {
    if octets == 0 then y == 0
    else if octets == 1 then y < 0x100
    else if octets == 2 then y < 0x1_0000
    else if octets == 3 then y < 0x100_0000
    else true
  }

  lemma BelowAfterPush(v: bv8, y: bv32, octets: nat)
    requires octets < 4 && Below(y, octets)
    ensures Below(Xor(v as bv32, Up8(y)), octets + 1)
  {
  }

  lemma {:induction false} GatherIsBelow(s: Bytes)
    requires |s| <= 4
    ensures Below(Gather(s), |s|)
  {
    if s == [] {
    } else {
      hide Below, Xor, Up8, Low;
      GatherIsBelow(s[1..]);
      BelowAfterPush(Low(s[0]), Gather(s[1..]), |s| - 1);
    }
  }

  lemma BelowThree(y: bv32, octets: nat)
    requires Below(y, octets) && octets < 4
    ensures y < 0x0100_0000
  {
  }

  lemma PushInjective(v: bv8, y: bv32, w: bv8, z: bv32)
    requires y < 0x0100_0000 && z < 0x0100_0000
    requires Xor(v as bv32, Up8(y)) == Xor(w as bv32, Up8(z))
    ensures v == w && y == z
  {
  }

  lemma {:induction false} GatherInjective(a: Bytes, b: Bytes)
    requires |a| == |b| <= 4 && Gather(a) == Gather(b)
    ensures a == b
  {
    if a != [] {
      hide Below, Xor, Up8, Low;
      var (a', b') := (a[1..], b[1..]);
      GatherIsBelow(a');
      GatherIsBelow(b');
      BelowThree(Gather(a'), |a'|);
      BelowThree(Gather(b'), |b'|);
      PushInjective(Low(a[0]), Gather(a'), Low(b[0]), Gather(b'));
      LowInjective(a[0], b[0]);
      GatherInjective(a', b');
    }
  }

  /** Up to four octets may be mixed into the state at once, before any bit step is made. */
  lemma {:induction false} UpdateFew(c: bv32, s: Bytes)
    requires |s| <= 4
    ensures Update(c, s) == Step8Times(Xor(c, Gather(s)), |s|)
    decreases |s|
  {
    if s == [] {
      assert c ^ 0 == c;
    } else {
      hide Below, Xor, Up8, Word, Step8;
      var (w, t) := (Word(s[0]), s[1..]);
      UpdateFew(ByteStep(c, s[0]), t);
      GatherIsBelow(t);
      BelowThree(Gather(t), |t|);
      Step8Passes(Xor(c, w), Gather(t));
      XorAssociates(c, w, Up8(Gather(t)));
    }
  }

  lemma {:induction false} Step8TimesInjective(c: bv32, d: bv32, n: nat)
    requires Step8Times(c, n) == Step8Times(d, n)
    ensures c == d
    decreases n
  {
    if n > 0 {
      hide Step8;
      Step8TimesInjective(Step8(c), Step8(d), n - 1);
      Step8Injective(c, d);
    }
  }

  /** Up to four octets that differ leave different states. */
  lemma FewAreSeen(c: bv32, a: Bytes, b: Bytes)
    requires |a| == |b| <= 4 && Update(c, a) == Update(c, b)
    ensures a == b
  {
    hide Update, Xor, Gather, Step8Times;
    UpdateFew(c, a);
    UpdateFew(c, b);
    Step8TimesInjective(Xor(c, Gather(a)), Xor(c, Gather(b)), |a|);
    XorInjectiveRight(c, Gather(a), Gather(b));
    GatherInjective(a, b);
  }

  /** Two streams that differ only within four consecutive octets have different checksums. */
  lemma {:induction false} BurstIsSeen(c: bv32, before: Bytes, a: Bytes, b: Bytes, after: Bytes)
    requires |a| == |b| <= 4 && a != b
    ensures Update(c, before + a + after) != Update(c, before + b + after)
  {
    UpdateConcat(c, before + a, after);
    UpdateConcat(c, before, a);
    UpdateConcat(c, before + b, after);
    UpdateConcat(c, before, b);
    hide Update;
    if Update(c, before + a + after) == Update(c, before + b + after) {
      UpdateInjective(Update(c, before + a), Update(c, before + b), after);
      FewAreSeen(Update(c, before), a, b);
    }
  }

  // ---------- The loops ----------

  function BitSteps(c: bv32, n: nat): bv32 {
    if n == 0 then c else BitStep(BitSteps(c, n - 1))
  }

  lemma EightBitSteps(c: bv32)
    ensures BitSteps(c, 8) == Step8(c)
  {
    hide BitStep;
    assert BitSteps(c, 1) == BitStep(c);
    assert BitSteps(c, 2) == Step2(c);
    assert BitSteps(c, 4) == BitStep(BitSteps(c, 3));
    assert BitSteps(c, 6) == BitStep(BitSteps(c, 5));
    assert BitSteps(c, 8) == BitStep(BitSteps(c, 7));
  }

  /** The branch-free step: the low bit, negated, is the mask for the polynomial. */
  lemma MaskedStep(c: bv32)
    ensures (c >> 1) ^ (POLYNOMIAL & (0 - (c & 1))) == BitStep(c)
  {
    assert c & 1 == 0 || c & 1 == 1;
    if c & 1 == 1 {
      assert 0 - (c & 1) == 0xFFFF_FFFF;
    } else {
      assert 0 - (c & 1) == 0;
    }
  }

  method UpdateLoop(state: bv32, bytes: Bytes) returns (crc: bv32)
    ensures crc == Update(state, bytes)
  {
    hide BitStep, Step8, Word;
    crc := state;
    for i := 0 to |bytes|
      invariant Update(state, bytes) == Update(crc, bytes[i..])
    {
      crc := Xor(crc, Word(bytes[i]));
      ghost var start := crc;
      for bit := 0 to 8
        invariant crc == BitSteps(start, bit)
      {
        MaskedStep(crc);
        var mask: bv32 := 0 - (crc & 1);
        crc := (crc >> 1) ^ (POLYNOMIAL & mask);
      }
      EightBitSteps(start);
      assert bytes[i..][1..] == bytes[i + 1..];
    }
  }
}
