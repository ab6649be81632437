/** The checksum is a remainder: the message, divided by the Castagnoli polynomial over two elements. */
module CrcRemainder {
  import opened Domain
  import opened Bytes
  import opened Crc32c

  // The exponents of the CRC-32C polynomial (section 12.1 of RFC 3720).
  const CASTAGNOLI: set<nat> := {32, 28, 27, 26, 25, 23, 22, 20, 19, 18, 14, 13, 11, 10, 9, 8, 6, 0}

  // A polynomial is the sequence of its coefficients, the one of the highest power first.
  type Polynomial = seq<bool>

  /** The divisor: its 33 coefficients. */
  function Divisor(): (p: Polynomial)
    ensures |p| == 33
  {
    seq(33, i requires 0 <= i < 33 => 32 - i in CASTAGNOLI)
  }

  /** Adds `d` to the highest coefficients of `p`. */
  function AddOnTop(p: Polynomial, d: Polynomial): (r: Polynomial)
    requires |d| <= |p|
    ensures |r| == |p|
  {
    seq(|p|, i requires 0 <= i < |p| => p[i] != (i < |d| && d[i]))
  }

  /** Long division: while the degree is 32 or more, cancel the highest coefficient. */
  function Remainder(p: Polynomial): (r: Polynomial)
    decreases |p|
  {
    if |p| <= 32 then p
    else Remainder((if p[0] then AddOnTop(p, Divisor()) else p)[1..])
  }

  function Zeros(n: nat): (p: Polynomial)
    ensures |p| == n
  {
    seq(n, _ => false)
  }

  /** The bits of an octet, the lowest one first: so it enters the checksum. */
  function BitsUp(x: nat, n: nat): (p: Polynomial)
    ensures |p| == n
  {
    if n == 0 then [] else [x % 2 == 1] + BitsUp(x / 2, n - 1)
  }

  /** The message polynomial. */
  function Message(s: Bytes): (p: Polynomial)
    ensures |p| == 8 * |s|
  {
    if s == [] then [] else BitsUp(s[0], 8) + Message(s[1..])
  }

  /** The bits of a checksum state, the lowest one, which is the highest coefficient, first. */
  function Bits(c: bv32, n: nat): (p: Polynomial)
    ensures |p| == n
    decreases n
  {
    if n == 0 then [] else [Odd(c)] + Bits(Half(c), n - 1)
  }

  // ---------- The bits of words ----------

  lemma AddOnTopSplits(p: Polynomial, q: Polynomial)
    requires 0 < |q| <= |p|
    ensures AddOnTop(p, q) == [p[0] != q[0]] + AddOnTop(p[1..], q[1..])
  {
  }

  lemma BitsUnfold(c: bv32, n: nat)
    requires n > 0
    ensures Bits(c, n) == [Odd(c)] + Bits(Half(c), n - 1)
  {
    hide Half, Odd;
  }

  lemma {:induction false} BitsOfXor(c: bv32, d: bv32, n: nat)
    ensures Bits(Xor(c, d), n) == AddOnTop(Bits(c, n), Bits(d, n))
    decreases n
  {
    hide Xor, Odd, Half, AddOnTop;
    if n == 0 {
      assert AddOnTop([], []) == [];
    } else {
      BitsOfXor(Half(c), Half(d), n - 1);
      XorOfHalves(c, d);
      var (p, q) := (Bits(c, n), Bits(d, n));
      AddOnTopSplits(p, q);
      assert p[1..] == Bits(Half(c), n - 1) && q[1..] == Bits(Half(d), n - 1);
    }
  }

  lemma XorOfHalves(c: bv32, d: bv32)
    ensures Odd(Xor(c, d)) == (Odd(c) != Odd(d)) && Half(Xor(c, d)) == Xor(Half(c), Half(d))
  {
    ParityOfXor(c, d);
    HalfOfXor(c, d);
  }

  lemma ParityOfXor(c: bv32, d: bv32)
    ensures Odd(Xor(c, d)) == (Odd(c) != Odd(d))
  {
  }

  lemma HalfOfXor(c: bv32, d: bv32)
    ensures Half(Xor(c, d)) == Xor(Half(c), Half(d))
  {
  }

  lemma {:induction false} BitsConcat(c: bv32, m: nat, n: nat)
    ensures Bits(c, m + n) == Bits(c, m) + Bits(Halves(c, m), n)
    decreases m
  {
    hide Half, Odd;
    if m > 0 {
      BitsConcat(Half(c), m - 1, n);
    }
  }

  /** Halving drops the highest coefficient and brings in a zero. */
  lemma BitsOfHalf(c: bv32)
    ensures Bits(Half(c), 32) == Bits(c, 32)[1..] + [false]
  {
    hide Half, Halves, Bits, Odd;
    BitsConcat(c, 32, 1);
    BitsConcat(c, 1, 32);
    BitsUnfold(c, 33);
    NothingLeft(c);
    ZeroBit();
    assert Bits(c, 33)[1..] == Bits(Half(c), 32);
    assert (Bits(c, 32) + [false])[1..] == Bits(c, 32)[1..] + [false];
  }

  lemma ZeroBit()
    ensures Bits(0, 1) == [false]
  {
  }

  /** Bits written out. */
  lemma FourBits(c: bv32)
    ensures Bits(c, 4) == [Odd(c), Odd(Half(c)), Odd(Half(Half(c))), Odd(Half(Half(Half(c))))]
    ensures Halves(c, 4) == Half(Half(Half(Half(c))))
  {
    hide Half, Odd;
    var (c1, c2, c3) := (Half(c), Half(Half(c)), Half(Half(Half(c))));
    assert Bits(c3, 1) == [Odd(c3)] + Bits(Half(c3), 0) == [Odd(c3)];
    assert Bits(c2, 2) == [Odd(c2), Odd(c3)];
    assert Bits(c1, 3) == [Odd(c1), Odd(c2), Odd(c3)];
    assert Halves(c2, 2) == Halves(c3, 1);
  }

  lemma EightBits(c: bv32)
    ensures var (c1, c2, c3) := (Half(c), Half(Half(c)), Half(Half(Half(c))));
            var (c4, c5, c6) := (Half(c3), Half(Half(c3)), Half(Half(Half(c3))));
            Bits(c, 8) == [Odd(c), Odd(c1), Odd(c2), Odd(c3)] + [Odd(c4), Odd(c5), Odd(c6), Odd(Half(c6))]
  {
    hide Half, Odd, Bits, Halves;
    BitsConcat(c, 4, 4);
    FourBits(c);
    FourBits(Half(Half(Half(Half(c)))));
  }

  lemma BitsByOctets(c: bv32)
    ensures Bits(c, 32)
         == Bits(c, 8) + Bits(Down8(c), 8) + Bits(Down8(Down8(c)), 8) + Bits(Down8(Down8(Down8(c))), 8)
  {
    hide Bits, Halves, Down8;
    BitsConcat(c, 8, 24);
    EightHalves(c);
    BitsConcat(Down8(c), 8, 16);
    EightHalves(Down8(c));
    BitsConcat(Down8(Down8(c)), 8, 8);
    EightHalves(Down8(Down8(c)));
  }

  lemma OctetsOfPolynomial()
    ensures Bits(POLYNOMIAL, 8) == [false, false, false, true] + [true, true, true, false]
    ensures Bits(Down8(POLYNOMIAL), 8) == [true, true, false, true] + [true, true, false, false]
    ensures Bits(Down8(Down8(POLYNOMIAL)), 8) == [false, true, true, false] + [true, true, true, true]
    ensures Bits(Down8(Down8(Down8(POLYNOMIAL))), 8) == [false, true, false, false] + [false, false, false, true]
  {
    EightBits(POLYNOMIAL);
    EightBits(Down8(POLYNOMIAL));
    EightBits(Down8(Down8(POLYNOMIAL)));
    EightBits(Down8(Down8(Down8(POLYNOMIAL))));
    hide Bits;
  }

  /** The constant in the loop is the divisor without its highest coefficient. */
  lemma {:induction false} PolynomialIsDivisor()
    ensures Bits(POLYNOMIAL, 32) == Divisor()[1..]
  {
    hide Bits, Down8;
    BitsByOctets(POLYNOMIAL);
    OctetsOfPolynomial();
  }

  lemma AllOnesBits()
    ensures Bits(ALL_ONES, 32) == seq(32, _ => true)
  {
    BitsByOctets(ALL_ONES);
    EightBits(ALL_ONES);
    EightBits(Down8(ALL_ONES));
    EightBits(Down8(Down8(ALL_ONES)));
    EightBits(Down8(Down8(Down8(ALL_ONES))));
    hide Bits;
  }

  // ---------- One bit step is one step of the division ----------

  /** The dividend that is left when the state is `c` and `u` has not been read: `c` on top of `u`. */
  function Left(c: bv32, u: Polynomial): (p: Polynomial)
    requires |u| >= 32
    ensures |p| == |u|
  {
    AddOnTop(u, Bits(c, 32))
  }

  lemma BitsOfBitStep(c: bv32, k: nat)
    requires k < 32
    ensures Bits(BitStep(c), 32)[k] == ((k < 31 && Bits(c, 32)[k + 1]) != (Odd(c) && Divisor()[k + 1]))
  {
    hide BitStep, Bits, Half, Odd, Xor, Divisor;
    BitStepByParity(c);
    BitsOfHalf(c);
    BitsOfXor(Half(c), POLYNOMIAL, 32);
    PolynomialIsDivisor();
    assert (Bits(c, 32)[1..] + [false])[k] == (k < 31 && Bits(c, 32)[k + 1]);
  }

  lemma FirstBit(c: bv32)
    ensures Bits(c, 32)[0] == Odd(c)
  {
    hide Odd, Half;
  }

  lemma DivisionStep(c: bv32, u: Polynomial)
    requires |u| > 32 && !u[0]
    ensures Remainder(Left(c, u)) == Remainder(Left(BitStep(c), u[1..]))
  {
    hide BitStep, Bits, Odd, Divisor;
    var p := Left(c, u);
    FirstBit(c);
    var q := (if p[0] then AddOnTop(p, Divisor()) else p)[1..];
    forall k | 0 <= k < |q|
      ensures q[k] == Left(BitStep(c), u[1..])[k]
    {
      if k < 32 {
        BitsOfBitStep(c, k);
      }
    }
    assert q == Left(BitStep(c), u[1..]);
  }

  lemma {:induction false} DivisionSteps(c: bv32, n: nat, rest: Polynomial)
    requires |rest| >= 32
    ensures Remainder(Left(c, Zeros(n) + rest)) == Remainder(Left(BitSteps(c, n), rest))
    decreases n
  {
    hide BitStep, Remainder, Left;
    if n == 0 {
      assert Zeros(0) + rest == rest;
    } else {
      var more := [false] + rest;
      assert Zeros(n) + rest == Zeros(n - 1) + more;
      DivisionSteps(c, n - 1, more);
      DivisionStep(BitSteps(c, n - 1), more);
      assert more[1..] == rest;
    }
  }

  // ---------- An octet enters on top ----------

  function Wide(bits: bv8): bv32 {
    bits as bv32
  }

  function Widened(x: nat, n: nat): bv32 {
    Wide(Digits(x, n))
  }

  lemma WidePush(bits: bv8, low: bool)
    requires bits < 0x80
    ensures Odd(Wide(PushBit(bits, low))) == low && Half(Wide(PushBit(bits, low))) == Wide(bits)
  {
  }

  lemma DigitsLeaveRoom(x: nat, n: nat)
    requires n < 8
    ensures Digits(x, n) < 0x80
  {
    hide Fits, PushBit, Digits;
    DigitsFit(x, n);
    PushFits(Digits(x, n), false, n);
  }

  lemma WidenedStep(x: nat, n: nat)
    requires 0 < n <= 8
    ensures Odd(Widened(x, n)) == (x % 2 == 1) && Half(Widened(x, n)) == Widened(x / 2, n - 1)
  {
    hide Half, Odd, PushBit, Wide;
    DigitsLeaveRoom(x / 2, n - 1);
    WidePush(Digits(x / 2, n - 1), x % 2 == 1);
  }

  lemma {:induction false} BitsOfDigits(x: nat, n: nat)
    requires n <= 8
    ensures Bits(Widened(x, n), n) == BitsUp(x, n) && Halves(Widened(x, n), n) == 0
    decreases n
  {
    if n == 0 {
      assert Widened(x, 0) == 0;
    } else {
      hide Half, Odd, Widened;
      WidenedStep(x, n);
      BitsOfDigits(x / 2, n - 1);
    }
  }

  lemma {:induction false} BitsOfZero(n: nat)
    ensures Bits(0, n) == Zeros(n)
  {
    if n > 0 {
      assert Half(0) == 0 && !Odd(0);
      BitsOfZero(n - 1);
      assert Zeros(n) == [false] + Zeros(n - 1);
    }
  }

  lemma BitsOfOctet(b: Octet)
    ensures Bits(Word(b), 32) == BitsUp(b, 8) + Zeros(24)
  {
    hide Bits, Halves, Digits, BitsUp;
    assert Word(b) == Widened(b, 8);
    BitsOfDigits(b, 8);
    BitsConcat(Word(b), 8, 24);
    BitsOfZero(24);
  }

  lemma OctetEnters(c: bv32, b: Octet, rest: Polynomial)
    requires |rest| >= 32
    ensures Left(c, BitsUp(b, 8) + rest) == Left(Xor(c, Word(b)), Zeros(8) + rest)
  {
    hide Bits, BitsUp, Xor, Word;
    BitsOfOctet(b);
    BitsOfXor(c, Word(b), 32);
  }

  lemma {:induction false} UpdateDivides(c: bv32, s: Bytes)
    ensures Remainder(Left(c, Message(s) + Zeros(32))) == Bits(Update(c, s), 32)
    decreases |s|
  {
    hide Step8, Xor, Word, Left, Bits, BitsUp;
    if s == [] {
      assert Message(s) + Zeros(32) == Zeros(32);
      LeftOfNothing(c);
    } else {
      var rest := Message(s[1..]) + Zeros(32);
      assert Message(s) + Zeros(32) == BitsUp(s[0], 8) + rest;
      OctetEnters(c, s[0], rest);
      hide Remainder;
      DivisionSteps(Xor(c, Word(s[0])), 8, rest);
      EightBitSteps(Xor(c, Word(s[0])));
      UpdateDivides(ByteStep(c, s[0]), s[1..]);
    }
  }

  lemma LeftOfNothing(c: bv32)
    ensures Left(c, Zeros(32)) == Bits(c, 32)
  {
    hide Bits;
  }

  // ---------- The checksum ----------

  /** Inverts the first 32 coefficients. */
  function Inverted(p: Polynomial): (r: Polynomial)
    ensures |r| == |p|
  {
    seq(|p|, i requires 0 <= i < |p| => p[i] != (i < 32))
  }

  lemma {:induction false} BitsOfNumber(c: bv32, n: nat)
    ensures BitsUp(Number(c, n), n) == Bits(c, n)
    decreases n
  {
    hide Half, Odd;
    if n > 0 {
      BitsOfNumber(Half(c), n - 1);
    }
  }

  lemma BitsOfNot(c: bv32)
    ensures Bits(Not(c), 32) == Inverted(Bits(c, 32))
  {
    hide Bits, Xor, Not;
    NotIsXor(c);
    BitsOfXor(c, ALL_ONES, 32);
    AllOnesBits();
  }

  lemma NotIsXor(c: bv32)
    ensures Not(c) == Xor(c, ALL_ONES)
  {
  }

  /**
   The checksum of a stream is CRC-32C: multiply the message by x^32, invert its 32 highest
   coefficients, divide by the Castagnoli polynomial, and invert the remainder.
   */
  lemma {:induction false} ChecksumIsRemainder(s: Bytes)
    ensures BitsUp(Finish(Update(ALL_ONES, s)), 32) == Inverted(Remainder(Inverted(Message(s) + Zeros(32))))
    ensures Finish(Update(ALL_ONES, s)) < 0x1_0000_0000
  {
    hide Bits, BitsUp, Remainder, Update, Number, Not, Message;
    var c := Update(ALL_ONES, s);
    UpdateDivides(ALL_ONES, s);
    AllOnesBits();
    assert Left(ALL_ONES, Message(s) + Zeros(32)) == Inverted(Message(s) + Zeros(32));
    BitsOfNumber(Not(c), 32);
    BitsOfNot(c);
    FinishIsBounded(c);
  }
}
