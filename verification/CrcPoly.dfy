/** What the CRC is: a remainder in the arithmetic of polynomials over the two-element field. */
module CrcPoly {
  import opened Bits
  import opened Crc32

  // ----- polynomials: bit i of the number is the coefficient of x^i, and addition is exclusive or

  /** The sum of x^e over the exponents `es`. */
  function Poly(es: seq<nat>): nat {
    if es == [] then 0 else Xor(Pow2(es[0]), Poly(es[1..]))
  }

  /** The generator of section 8 of RFC 1952. */
  const EXPONENTS: seq<nat> := [32, 26, 23, 22, 16, 12, 11, 10, 8, 7, 5, 4, 2, 1, 0]

  function Generator(): nat {
    Poly(EXPONENTS)
  }

  function Times(q: nat, g: nat): nat {
    if q == 0 then 0 else Xor(if q % 2 == 1 then g else 0, 2 * Times(q / 2, g))
  }

  /** `r` is what division of `p` by `g`, whose highest term is x^n, leaves. */
  ghost predicate Left(p: nat, r: nat, g: nat, n: nat) {
    r < Pow2(n) && exists q: nat :: p == Xor(Times(q, g), r)
  }

  ghost predicate Remainder(p: nat, r: nat) {
    Left(p, r, Generator(), 32)
  }

  /** The first `n` bits of a message, the first one with the highest power. */
  function Message(msg: seq<byte>, n: nat): nat
    requires n <= 8 * |msg|
  {
    if n == 0 then 0 else 2 * Message(msg, n - 1) + Bit(msg, n - 1)
  }

  // ----- the generator and the constant of the code

  function Sum(es: seq<nat>): nat {
    if es == [] then 0 else Pow2(es[0]) + Sum(es[1..])
  }

  /** A power above all others is added without carries. */
  lemma {:induction false} XorTop(n: nat, x: nat)
    requires x < Pow2(n)
    ensures Xor(Pow2(n), x) == Pow2(n) + x
  {
    hide *;
    if n == 0 {
      ShrNone(0);
      XorZero(Pow2(0));
    } else {
      Pow2Step(n);
      XorTop(n - 1, x / 2);
      XorHalf(Pow2(n), x);
      SameHalves(Xor(Pow2(n), x), Pow2(n) + x);
    }
  }

  lemma {:induction false} PolyIsSum(es: seq<nat>)
    requires forall i, j | 0 <= i < j < |es| :: es[i] > es[j]
    ensures Poly(es) == Sum(es) && (es != [] ==> Sum(es) < 2 * Pow2(es[0]))
    decreases |es|
  {
    hide Xor, Pow2;
    if es != [] {
      PolyIsSum(es[1..]);
      if |es| > 1 { Pow2Mono(es[1], es[0]); } else { Pow2Mono(0, es[0]); PowerPositive(es[0]); }
      XorTop(es[0], Sum(es[1..]));
    }
  }

  lemma PowerPositive(n: nat)
    ensures Pow2(n) >= 1
  {
  }

  lemma SumAt(es: seq<nat>, k: nat)
    requires k < |es|
    ensures Sum(es[k..]) == Pow2(es[k]) + Sum(es[k + 1..])
  {
    assert es[k..][1..] == es[k + 1..];
  }

  lemma HighTerms(es: seq<nat>)
    requires |es| >= 8
    ensures Sum(es) == Pow2(es[0]) + Pow2(es[1]) + Pow2(es[2]) + Pow2(es[3]) + Pow2(es[4]) + Pow2(es[5]) +
      Pow2(es[6]) + Pow2(es[7]) + Sum(es[8..])
  {
    hide *;
    assert es[0..] == es;
    SumAt(es, 0);
    SumAt(es, 1);
    SumAt(es, 2);
    SumAt(es, 3);
    SumAt(es, 4);
    SumAt(es, 5);
    SumAt(es, 6);
    SumAt(es, 7);
  }

  lemma LowTerms(es: seq<nat>)
    requires |es| == 15
    ensures Sum(es[8..]) == Pow2(es[8]) + Pow2(es[9]) + Pow2(es[10]) + Pow2(es[11]) + Pow2(es[12]) + Pow2(es[13]) +
      Pow2(es[14])
  {
    hide *;
    SumAt(es, 8);
    SumAt(es, 9);
    SumAt(es, 10);
    SumAt(es, 11);
    SumAt(es, 12);
    SumAt(es, 13);
    SumAt(es, 14);
    assert es[15..] == [];
    SumNone();
  }

  lemma SumNone()
    ensures Sum([]) == 0
  {
  }

  lemma PowerValues()
    ensures Pow2(0) == 1 && Pow2(1) == 2 && Pow2(2) == 4 && Pow2(4) == 16 && Pow2(5) == 32 && Pow2(7) == 128
    ensures Pow2(8) == 0x100 && Pow2(10) == 0x400 && Pow2(11) == 0x800 && Pow2(12) == 0x1000 && Pow2(16) == 0x1_0000
    ensures Pow2(22) == 0x40_0000 && Pow2(23) == 0x80_0000 && Pow2(26) == 0x400_0000 && Pow2(32) == 0x1_0000_0000
  {
    assert Pow2(8) == 256;
    Pow2Add(8, 8);
    Pow2Add(16, 6);
    Pow2Add(16, 7);
    Pow2Add(16, 10);
    Pow2Add(16, 16);
  }

  lemma GeneratorIs()
    ensures Generator() == 0x1_04c1_1db7
  {
    hide Xor, Pow2, Sum, Poly;
    PolyIsSum(EXPONENTS);
    HighTerms(EXPONENTS);
    LowTerms(EXPONENTS);
    PowerValues();
  }

  lemma {:induction false} RevSplit(n: nat, k: nat, a: nat, b: nat)
    requires a < Pow2(n)
    ensures Rev(n + k, a + b * Pow2(n)) == Rev(n, a) * Pow2(k) + Rev(k, b)
  {
    hide *;
    if n == 0 {
      ShrNone(0);
      RevNone(a);
    } else {
      var x := a + b * Pow2(n);
      Pow2Step(n);
      Twofold(b, Pow2(n - 1));
      EvenHalf(a, b * Pow2(n), b * Pow2(n - 1));
      RevSplit(n - 1, k, a / 2, b);
      RevStep(n + k, x);
      RevStep(n, a);
      Pow2Add(n - 1, k);
      Spread(Pow2(n - 1), Rev(n - 1, a / 2), Pow2(k));
    }
  }

  lemma Spread(p: nat, r: nat, z: nat)
    ensures (p + r) * z == p * z + r * z
  {
  }

  /** Reflected, without its highest term, it is the constant. */
  lemma Reflected()
    ensures Rev(32, POLY) + Pow2(32) == Generator()
  {
    hide *;
    Constant();
    ByteReversals();
    GeneratorIs();
    PowerValues();
    Pow2Add(8, 16);
    RevSplit(8, 24, 0x20, 0x83 + (0xb8 + 0xed * 0x100) * 0x100);
    RevSplit(8, 16, 0x83, 0xb8 + 0xed * 0x100);
    RevSplit(8, 8, 0xb8, 0xed);
  }

  lemma Constant()
    ensures POLY == 0x20 + (0x83 + (0xb8 + 0xed * 0x100) * 0x100) * 0x100
  {
  }

  lemma ByteReversals()
    ensures Rev(8, 0x20) == 0x04 && Rev(8, 0x83) == 0xc1 && Rev(8, 0xb8) == 0x1d && Rev(8, 0xed) == 0xb7
  {
    hide *;
    PowerValues();
    Nibbles();
    RevSplit(4, 4, 0x0, 0x2);
    RevSplit(4, 4, 0x3, 0x8);
    RevSplit(4, 4, 0x8, 0xb);
    RevSplit(4, 4, 0xd, 0xe);
  }

  lemma Nibbles()
    ensures Rev(4, 0x0) == 0x0 && Rev(4, 0x2) == 0x4 && Rev(4, 0x3) == 0xc && Rev(4, 0x8) == 0x1
    ensures Rev(4, 0xb) == 0xd && Rev(4, 0xd) == 0xb && Rev(4, 0xe) == 0x7
  {
  }

  // ----- exclusive or of shifted numbers

  lemma XorDouble(x: nat, y: nat)
    ensures 2 * Xor(x, y) == Xor(2 * x, 2 * y)
  {
    hide Xor;
    XorEven(0, x, y);
  }

  lemma XorBit(b: nat, m: nat)
    requires b < 2
    ensures Xor(2 * m, b) == 2 * m + b
  {
    hide Xor;
    XorEven(b, 0, m);
    XorZero(m);
    XorComm(b, 2 * m);
  }

  lemma {:induction false} XorScale(x: nat, y: nat, n: nat)
    ensures Xor(x * Pow2(n), y * Pow2(n)) == Xor(x, y) * Pow2(n)
  {
    hide *;
    if n == 0 {
      ShrNone(0);
    } else {
      Pow2Step(n);
      XorScale(x, y, n - 1);
      XorDouble(x * Pow2(n - 1), y * Pow2(n - 1));
      Twofold(x, Pow2(n - 1));
      Twofold(y, Pow2(n - 1));
      Twofold(Xor(x, y), Pow2(n - 1));
    }
  }

  /** Bits above and below place `n` are added apart. */
  lemma {:induction false} XorParts(n: nat, a: nat, b: nat, x: nat, y: nat)
    requires x < Pow2(n) && y < Pow2(n)
    ensures Xor(a * Pow2(n) + x, b * Pow2(n) + y) == Xor(a, b) * Pow2(n) + Xor(x, y)
  {
    hide *;
    if n == 0 {
      ShrNone(0);
      XorZero(0);
    } else {
      var z := Pow2(n - 1);
      Pow2Step(n);
      XorParts(n - 1, a, b, x / 2, y / 2);
      Twofold(a, z);
      Twofold(b, z);
      Twofold(Xor(a, b), z);
      Halving(a * z, x);
      Halving(b * z, y);
      XorHalf(2 * (a * z) + x, 2 * (b * z) + y);
      XorHalf(x, y);
      Halving(Xor(a, b) * z, Xor(x, y));
      SameHalves(Xor(2 * (a * z) + x, 2 * (b * z) + y), 2 * (Xor(a, b) * z) + Xor(x, y));
    }
  }

  lemma Halving(m: nat, x: nat)
    ensures (2 * m + x) / 2 == m + x / 2 && (2 * m + x) % 2 == x % 2
  {
  }

  lemma {:induction false} RevXor(k: nat, a: nat, b: nat)
    ensures Rev(k, Xor(a, b)) == Xor(Rev(k, a), Rev(k, b))
  {
    hide *;
    if k == 0 {
      RevNone(a);
      RevNone(b);
      RevNone(Xor(a, b));
      XorZero(0);
    } else {
      RevParts(k, a);
      RevParts(k, b);
      RevParts(k, Xor(a, b));
      XorHalf(a, b);
      RevXor(k - 1, a / 2, b / 2);
      RevBound(k - 1, a / 2);
      RevBound(k - 1, b / 2);
      XorParts(k - 1, a % 2, b % 2, Rev(k - 1, a / 2), Rev(k - 1, b / 2));
      XorBits(a % 2, b % 2);
    }
  }

  lemma RevParts(k: nat, a: nat)
    requires k > 0
    ensures Rev(k, a) == (a % 2) * Pow2(k - 1) + Rev(k - 1, a / 2)
  {
  }

  lemma XorBits(a: nat, b: nat)
    requires a < 2 && b < 2
    ensures Xor(a, b) == if a == b then 0 else 1
  {
  }

  // ----- one step of the register is one step of the division

  lemma RevDouble(n: nat, c: nat)
    requires n > 0 && c < Pow2(n)
    ensures 2 * Rev(n, c) == (c % 2) * Pow2(n) + Rev(n, c / 2) && Rev(n, c / 2) < Pow2(n)
  {
    hide *;
    Pow2Step(n);
    RevParts(n, c);
    RevOnce(n, c / 2);
    RevBound(n, c / 2);
    Twofold(c % 2, Pow2(n - 1));
  }

  lemma RevOnce(n: nat, c: nat)
    requires n > 0 && c < Pow2(n - 1)
    ensures Rev(n, c) == 2 * Rev(n - 1, c)
  {
    assert Pow2(1) == 2;
    hide *;
    RevExtend(n, n - 1, c);
    Equal(n - (n - 1), 1);
  }

  lemma Equal(a: nat, b: nat)
    requires a == b
    ensures Pow2(a) == Pow2(b)
  {
  }

  /** One step of the register, read backwards: doubled, the message bit added in front, and the generator if that
      makes the highest term. */
  lemma StepReflected(n: nat, g: nat, c: nat, v: nat)
    requires n > 0 && c < Pow2(n) && g == Pow2(n) + Rev(n, POLY)
    ensures Xor(2 * Rev(n, c), (v % 2) * Pow2(n)) ==
      Xor(if c % 2 == v % 2 then 0 else g, Rev(n, BitStep(c, v)))
  {
    hide *;
    var r := Rev(n, c / 2);
    StepCases(c, v);
    RevDouble(n, c);
    XorParts(n, c % 2, v % 2, r, 0);
    XorBits(c % 2, v % 2);
    XorZero(r);
    if c % 2 != v % 2 {
      RevXor(n, c / 2, POLY);
      RevBound(n, POLY);
      RevBound(n, BitStep(c, v));
      XorParts(n, 1, 0, Rev(n, POLY), Rev(n, BitStep(c, v)));
      XorBits(1, 0);
      XorComm(r, Rev(n, POLY));
      XorAssoc(Rev(n, POLY), Rev(n, POLY), r);
      XorSelf(Rev(n, POLY));
    }
  }

  lemma StepCases(c: nat, v: nat)
    ensures BitStep(c, v) == if c % 2 == v % 2 then c / 2 else Xor(c / 2, POLY)
  {
    XorHalf(c, v);
  }

  lemma TimesNext(q: nat, t: nat, g: nat)
    requires t < 2
    ensures Times(2 * q + t, g) == Xor(if t == 1 then g else 0, 2 * Times(q, g))
  {
    XorZero(0);
  }

  /** The next message bit brings a doubling and, `n` places up, itself. */
  lemma LeftStep(n: nat, g: nat, p: nat, c: nat, v: nat)
    requires n > 0 && c < Pow2(n) && g == Pow2(n) + Rev(n, POLY) && Left(p, Rev(n, c), g, n)
    ensures Left(Xor(2 * p, (v % 2) * Pow2(n)), Rev(n, BitStep(c, v)), g, n)
  {
    hide Xor, Times, Rev, Pow2, BitStep;
    var q: nat :| p == Xor(Times(q, g), Rev(n, c));
    LeftStepBy(n, g, p, c, v, q);
  }

  lemma LeftStepBy(n: nat, g: nat, p: nat, c: nat, v: nat, q: nat)
    requires n > 0 && c < Pow2(n) && g == Pow2(n) + Rev(n, POLY) && p == Xor(Times(q, g), Rev(n, c))
    ensures Left(Xor(2 * p, (v % 2) * Pow2(n)), Rev(n, BitStep(c, v)), g, n)
  {
    hide *;
    var t := if c % 2 == v % 2 then 0 else 1;
    var r, b := Rev(n, c), (v % 2) * Pow2(n);
    var r', h := Rev(n, BitStep(c, v)), if t == 1 then g else 0;
    StepReflected(n, g, c, v);
    RevBound(n, BitStep(c, v));
    XorDouble(Times(q, g), r);
    XorAssoc(2 * Times(q, g), 2 * r, b);
    XorAssoc(2 * Times(q, g), h, r');
    XorComm(2 * Times(q, g), h);
    TimesNext(q, t, g);
    LeftIf(Xor(2 * p, b), 2 * q + t, r', g, n);
  }

  lemma LeftIf(p: nat, q: nat, r: nat, g: nat, n: nat)
    requires r < Pow2(n) && p == Xor(Times(q, g), r)
    ensures Left(p, r, g, n)
  {
  }

  // ----- whole messages

  /** `top`, the start of the register read backwards, moved in front of the first `k` bits, and these, `n` places
      up. */
  function Dividend(top: nat, msg: seq<byte>, k: nat, n: nat): nat
    requires k <= 8 * |msg|
  {
    Xor(top * Pow2(k), Message(msg, k) * Pow2(n))
  }

  lemma DividendNext(top: nat, msg: seq<byte>, k: nat, n: nat)
    requires k < 8 * |msg|
    ensures Dividend(top, msg, k + 1, n) == Xor(2 * Dividend(top, msg, k, n), Bit(msg, k) * Pow2(n))
  {
    hide *;
    var m, b := Message(msg, k), Bit(msg, k);
    MessageNext(msg, k);
    DividendIs(top, msg, k, n);
    DividendIs(top, msg, k + 1, n);
    Pow2Step(k + 1);
    Twofold(top, Pow2(k));
    Twofold(m, Pow2(n));
    XorDouble(top * Pow2(k), m * Pow2(n));
    XorBit(b, m);
    XorScale(2 * m, b, n);
    TwiceTimes(m, Pow2(n));
    XorAssoc(top * Pow2(k + 1), 2 * m * Pow2(n), b * Pow2(n));
  }

  lemma TwiceTimes(m: nat, z: nat)
    ensures 2 * (m * z) == 2 * m * z
  {
  }

  lemma MessageNext(msg: seq<byte>, k: nat)
    requires k < 8 * |msg|
    ensures Message(msg, k + 1) == 2 * Message(msg, k) + Bit(msg, k) && Bit(msg, k) < 2
  {
    hide Bit;
  }

  lemma DividendIs(top: nat, msg: seq<byte>, k: nat, n: nat)
    requires k <= 8 * |msg|
    ensures Dividend(top, msg, k, n) == Xor(top * Pow2(k), Message(msg, k) * Pow2(n))
  {
  }

  lemma {:induction false} ByteLeft(n: nat, g: nat, top: nat, msg: seq<byte>, p: nat, c: nat, k: nat)
    requires n == 32 && g == Pow2(n) + Rev(n, POLY) && p < |msg| && k <= 8 && c < Pow2(n)
    requires Left(Dividend(top, msg, 8 * p, n), Rev(n, c), g, n)
    ensures Left(Dividend(top, msg, 8 * p + k, n), Rev(n, BitSteps(c, msg[p], k)), g, n)
    ensures BitSteps(c, msg[p], k) < Pow2(n)
    decreases k
  {
    hide *;
    if k > 0 {
      var c' := BitSteps(c, msg[p], k - 1);
      ByteLeft(n, g, top, msg, p, c, k - 1);
      LeftStep(n, g, Dividend(top, msg, 8 * p + (k - 1), n), c', Shr(msg[p], k - 1));
      DividendNext(top, msg, 8 * p + (k - 1), n);
      BitIs(msg, p, k - 1);
      BitStepsNext(c, msg[p], k);
      StepsFit(c, msg[p], k);
    } else {
      BitStepsNone(c, msg[p]);
    }
  }

  lemma BitIs(msg: seq<byte>, p: nat, k: nat)
    requires p < |msg| && k < 8
    ensures 8 * p + k < 8 * |msg| && Bit(msg, 8 * p + k) == Shr(msg[p], k) % 2
  {
    assert (8 * p + k) / 8 == p && (8 * p + k) % 8 == k;
    hide Shr;
  }

  lemma BitStepsNext(c: nat, v: nat, k: nat)
    requires k > 0
    ensures BitSteps(c, v, k) == BitStep(BitSteps(c, v, k - 1), Shr(v, k - 1))
  {
  }

  lemma BitStepsNone(c: nat, v: nat)
    ensures BitSteps(c, v, 0) == c
  {
  }

  lemma {:induction false} MessagePrefix(msg: seq<byte>, more: seq<byte>, k: nat)
    requires k <= 8 * |msg|
    ensures Message(msg + more, k) == Message(msg, k)
  {
    if k > 0 {
      MessagePrefix(msg, more, k - 1);
      assert (msg + more)[(k - 1) / 8] == msg[(k - 1) / 8];
    }
  }

  lemma {:induction false} RegisterLeft(n: nat, g: nat, c0: nat, msg: seq<byte>)
    requires n == 32 && g == Pow2(n) + Rev(n, POLY) && c0 < Pow2(n)
    ensures Left(Dividend(Rev(n, c0), msg, 8 * |msg|, n), Rev(n, Register(c0, msg)), g, n)
    ensures Register(c0, msg) < Pow2(n)
  {
    hide *;
    if msg == [] {
      RegisterNone(c0);
      NothingLeft(n, g, c0);
    } else {
      var front, v := msg[..|msg| - 1], msg[|msg| - 1];
      assert front + [v] == msg;
      RegisterLeft(n, g, c0, front);
      MessagePrefix(front, [v], 8 * |front|);
      DividendIs(Rev(n, c0), front, 8 * |front|, n);
      DividendIs(Rev(n, c0), msg, 8 * |front|, n);
      ByteLeft(n, g, Rev(n, c0), msg, |front|, Register(c0, front), 8);
      RegisterNext(c0, msg);
    }
  }

  lemma RegisterNone(c0: nat)
    ensures Register(c0, []) == c0
  {
  }

  lemma RegisterNext(c0: nat, msg: seq<byte>)
    requires msg != []
    ensures Register(c0, msg) == BitSteps(Register(c0, msg[..|msg| - 1]), msg[|msg| - 1], 8)
  {
  }

  lemma NothingLeft(n: nat, g: nat, c0: nat)
    ensures Left(Dividend(Rev(n, c0), [], 0, n), Rev(n, c0), g, n)
  {
    hide Xor, Rev;
    RevBound(n, c0);
    XorZero(Rev(n, c0));
    LeftIf(Rev(n, c0), 0, Rev(n, c0), g, n);
  }

  lemma {:induction false} RevOnes(n: nat)
    ensures Rev(n, Pow2(n) - 1) == Pow2(n) - 1
  {
    if n > 0 {
      RevOnes(n - 1);
      assert (Pow2(n) - 1) / 2 == Pow2(n - 1) - 1 && (Pow2(n) - 1) % 2 == 1;
    }
  }

  /** The checksum is, read backwards and inverted, what division leaves of the message 32 places up with its first 32
      bits inverted (section 8 of RFC 1952). */
  lemma CrcIsRemainder(msg: seq<byte>)
    ensures Remainder(Dividend(0xffff_ffff, msg, 8 * |msg|, 32), Rev(32, Xor(Crc(0, msg), 0xffff_ffff)))
  {
    CrcLeft(msg, 32);
  }

  lemma CrcLeft(msg: seq<byte>, n: nat)
    requires n == 32
    ensures Left(Dividend(0xffff_ffff, msg, 8 * |msg|, n), Rev(n, Xor(Crc(0, msg), 0xffff_ffff)), Generator(), n)
  {
    hide *;
    CrcIs(msg);
    Reflected();
    PowerValues();
    RevOnes(n);
    RegisterLeft(n, Generator(), 0xffff_ffff, msg);
  }

  lemma CrcIs(msg: seq<byte>)
    ensures Xor(Crc(0, msg), 0xffff_ffff) == Register(0xffff_ffff, msg)
  {
    hide Xor, Register;
    XorZero(ONES);
    XorTwice(Register(ONES, msg), ONES);
  }

  // ----- there is but one remainder

  lemma {:induction false} TimesXor(q: nat, q': nat, g: nat)
    ensures Xor(Times(q, g), Times(q', g)) == Times(Xor(q, q'), g)
    decreases q + q'
  {
    if q != 0 || q' != 0 {
      TimesXor(q / 2, q' / 2, g);
      TimesHalf(q, g);
      TimesHalf(q', g);
      TimesHalf(Xor(q, q'), g);
      XorHalf(q, q');
      hide *;
      var a, b := if q % 2 == 1 then g else 0, if q' % 2 == 1 then g else 0;
      XorSwap(a, 2 * Times(q / 2, g), b, 2 * Times(q' / 2, g));
      XorDouble(Times(q / 2, g), Times(q' / 2, g));
      XorZero(a);
      XorZero(b);
      XorSelf(g);
    } else {
      XorZero(0);
    }
  }

  lemma TimesHalf(q: nat, g: nat)
    ensures Times(q, g) == Xor(if q % 2 == 1 then g else 0, 2 * Times(q / 2, g))
  {
    XorZero(0);
  }

  /** A multiple of the generator that is not zero has a term as high as its own. */
  lemma {:induction false} TimesBig(q: nat, g: nat, n: nat)
    requires q > 0 && Pow2(n) <= g < 2 * Pow2(n)
    ensures Times(q, g) >= Pow2(n)
  {
    hide *;
    TimesHalf(q, g);
    var m := Times(q / 2, g);
    if q / 2 == 0 {
      TimesNone(g);
      XorZero(g);
    } else {
      TimesBig(q / 2, g, n);
      Pow2Step(n + 1);
      if q % 2 == 0 { XorZero(2 * m); } else { XorBig(g, 2 * m, n + 1); }
    }
  }

  lemma TimesNone(g: nat)
    ensures Times(0, g) == 0
  {
  }

  lemma XorBig(x: nat, y: nat, n: nat)
    requires x < Pow2(n) <= y
    ensures Xor(x, y) >= Pow2(n)
  {
    hide *;
    XorTwice(x, y);
    XorComm(Xor(x, y), y);
    if Xor(x, y) < Pow2(n) {
      XorComm(x, y);
      XorTwice(y, x);
      XorComm(Xor(y, x), x);
      XorBound(x, Xor(x, y), n);
    }
  }

  lemma OneRemainder(p: nat, r: nat, r': nat)
    requires Remainder(p, r) && Remainder(p, r')
    ensures r == r'
  {
    GeneratorIs();
    PowerValues();
    hide Xor, Times, Generator, Pow2;
    OneLeft(p, r, r', Generator(), 32);
  }

  lemma OneLeft(p: nat, r: nat, r': nat, g: nat, n: nat)
    requires Left(p, r, g, n) && Left(p, r', g, n) && Pow2(n) <= g < 2 * Pow2(n)
    ensures r == r'
  {
    hide Xor, Times, Pow2;
    var q: nat, q': nat :| p == Xor(Times(q, g), r) && p == Xor(Times(q', g), r');
    XorSwap(Times(q, g), r, Times(q', g), r');
    XorSelf(p);
    TimesXor(q, q', g);
    var d := Xor(q, q');
    XorBound(r, r', n);
    ZeroSum(Times(d, g), Xor(r, r'));
    if d > 0 { TimesBig(d, g, n); }
    TimesNone(g);
    ZeroSum(r, r');
  }

  lemma ZeroSum(x: nat, y: nat)
    requires Xor(x, y) == 0
    ensures x == y
  {
    hide *;
    XorTwice(x, y);
    XorZero(y);
  }

  // ----- one entry of the table, and one checksum

  lemma {:induction false} PowerShifts(i: nat, n: nat)
    requires i <= n
    ensures Shifts(Pow2(i), n) == Shifts(1, n - i)
    decreases i
  {
    hide Shifts, Xor;
    if i > 0 {
      ShiftsFirst(2 * Pow2(i - 1), n);
      ShiftedEven(Pow2(i - 1));
      PowerShifts(i - 1, n - 1);
    } else {
      assert Pow2(0) == 1;
    }
  }

  lemma Entry128()
    ensures Table()[128] == 0xedb8_8320
  {
    assert Pow2(7) == 128;
    assert Shifts(1, 1) == Shifted(Shifts(1, 0)) == Xor(POLY, 0);
    hide Xor, Shifts, Pow2;
    PowerShifts(7, 8);
    XorZero(POLY);
  }

  /** The checksum of the byte 7f, whose complement selects that entry. */
  lemma OneByte()
    ensures Crc(0, [0x7f]) == 0x12b8_8320
  {
    hide *;
    CrcIs([0x7f]);
    RegisterNone(0xffff_ffff);
    assert [0x7f][..0] == [];
    RegisterNext(0xffff_ffff, [0x7f]);
    FirstByteIs();
    XorTwice(Crc(0, [0x7f]), 0xffff_ffff);
    LastInversion();
  }

  lemma FirstByteIs()
    ensures BitSteps(0xffff_ffff, 0x7f, 8) == 0xed47_7cdf
  {
    hide *;
    PowerValues();
    Pow2Add(8, 16);
    XorParts(8, 0xff_ffff, 0, 0xff, 0x7f);
    XorZero(0xff_ffff);
    XorTop(7, 0x7f);
    XorTwice(0x80, 0x7f);
    XorComm(0xff, 0x7f);
    LowIsMod(0xffff_ff80, 8);
    LowIsMod(0xffff_ffff, 8);
    ByteStep(0xffff_ffff, 0x7f);
    Entry128();
    XorParts(24, 0xed, 0, 0xb8_8320, 0xff_ffff);
    XorZero(0xed);
    Complement(24, 0xb8_8320);
  }

  /** Adding all ones is subtracting from them. */
  lemma {:induction false} Complement(n: nat, x: nat)
    requires x < Pow2(n)
    ensures Xor(x, Pow2(n) - 1) == Pow2(n) - 1 - x
  {
    hide *;
    if n == 0 {
      ShrNone(0);
      XorZero(0);
    } else {
      Pow2Step(n);
      Complement(n - 1, x / 2);
      XorHalf(x, Pow2(n) - 1);
      SameHalves(Xor(x, Pow2(n) - 1), Pow2(n) - 1 - x);
    }
  }

  lemma LastInversion()
    ensures Xor(0xed47_7cdf, 0xffff_ffff) == 0x12b8_8320
  {
    hide *;
    PowerValues();
    Complement(32, 0xed47_7cdf);
  }
}
