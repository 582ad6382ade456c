/** ucrc32: CRC-32 a byte at a time from a table, against its definition a bit at a time. */
module Crc32 {
  import opened Bits

  /** The polynomial, reflected. */
  const POLY: nat := 0xedb88320
  const ONES: nat := 0xffffffff

  /** `x ^ y` */
  function Xor(x: nat, y: nat): nat
    decreases x + y
  {
    if x == 0 && y == 0 then 0 else (if x % 2 == y % 2 then 0 else 1) + 2 * Xor(x / 2, y / 2)
  }

  /** Division by the polynomial takes in one message bit, the lowest of `bit`. */
  function BitStep(c: nat, bit: nat): nat {
    if Xor(c, bit) % 2 == 1 then Xor(c / 2, POLY) else c / 2
  }

  /** The `n` lowest bits of `v`, lowest first. */
  function BitSteps(c: nat, v: nat, n: nat): nat {
    if n == 0 then c else BitStep(BitSteps(c, v, n - 1), Shr(v, n - 1))
  }

  /** The register after a message, bit by bit. */
  function Register(c: nat, msg: seq<byte>): nat {
    if msg == [] then c else BitSteps(Register(c, msg[..|msg| - 1]), msg[|msg| - 1], 8)
  }

  /** The checksum of a message that continues one whose checksum is `crc` (section 8 of RFC 1952). */
  function Crc(crc: nat, msg: seq<byte>): nat {
    Xor(Register(Xor(crc, ONES), msg), ONES)
  }

  function Shifted(c: nat): nat {
    if c % 2 == 1 then Xor(POLY, c / 2) else c / 2
  }

  function Shifts(c: nat, n: nat): nat {
    if n == 0 then c else Shifted(Shifts(c, n - 1))
  }

  /** crc_table */
  function Table(): (t: seq<nat>)
    ensures |t| == 256 && forall i | 0 <= i < 256 :: t[i] == Shifts(i, 8)
  {
    seq(256, i requires 0 <= i < 256 => Shifts(i, 8))
  }

  // ----- exclusive or

  lemma XorHalf(x: nat, y: nat)
    ensures Xor(x, y) % 2 == (if x % 2 == y % 2 then 0 else 1) && Xor(x, y) / 2 == Xor(x / 2, y / 2)
  {
    Halves(if x % 2 == y % 2 then 0 else 1, Xor(x / 2, y / 2));
  }

  lemma Halves(b: nat, q: nat)
    requires b < 2
    ensures (b + 2 * q) % 2 == b && (b + 2 * q) / 2 == q
  {
  }

  lemma SameHalves(a: nat, b: nat)
    requires a % 2 == b % 2 && a / 2 == b / 2
    ensures a == b
  {
  }

  lemma {:induction false} XorComm(x: nat, y: nat)
    ensures Xor(x, y) == Xor(y, x)
    decreases x + y
  {
    if x != 0 || y != 0 { XorComm(x / 2, y / 2); }
  }

  lemma {:induction false} XorAssoc(x: nat, y: nat, z: nat)
    ensures Xor(Xor(x, y), z) == Xor(x, Xor(y, z))
    decreases x + y + z
  {
    if x != 0 || y != 0 || z != 0 {
      XorAssoc(x / 2, y / 2, z / 2);
      XorHalf(x, y);
      XorHalf(y, z);
      XorHalf(Xor(x, y), z);
      XorHalf(x, Xor(y, z));
      hide Xor;
      SameHalves(Xor(Xor(x, y), z), Xor(x, Xor(y, z)));
    }
  }

  lemma {:induction false} XorZero(x: nat)
    ensures Xor(x, 0) == x && Xor(0, x) == x
  {
    if x != 0 { XorZero(x / 2); }
  }

  lemma {:induction false} XorSelf(x: nat)
    ensures Xor(x, x) == 0
  {
    if x != 0 { XorSelf(x / 2); }
  }

  lemma XorTwice(x: nat, y: nat)
    ensures Xor(Xor(x, y), y) == x
  {
    XorAssoc(x, y, y);
    XorSelf(y);
    XorZero(x);
  }

  /** The middle two change places. */
  lemma XorSwap(a: nat, b: nat, c: nat, d: nat)
    ensures Xor(Xor(a, b), Xor(c, d)) == Xor(Xor(a, c), Xor(b, d))
  {
    XorAssoc(a, b, Xor(c, d));
    XorAssoc(b, c, d);
    XorComm(b, c);
    XorAssoc(c, b, d);
    XorAssoc(a, c, Xor(b, d));
  }

  lemma {:induction false} XorShr(x: nat, y: nat, n: nat)
    ensures Shr(Xor(x, y), n) == Xor(Shr(x, n), Shr(y, n))
  {
    if n > 0 {
      XorHalf(x, y);
      XorShr(x / 2, y / 2, n - 1);
    }
  }

  lemma {:induction false} XorBound(x: nat, y: nat, n: nat)
    requires x < Pow2(n) && y < Pow2(n)
    ensures Xor(x, y) < Pow2(n)
  {
    if n > 0 {
      XorBound(x / 2, y / 2, n - 1);
      XorHalf(x, y);
    }
  }

  // ----- eight bits at once

  /** Adding the message bit in before the step or after it is the same. */
  lemma BitIn(a: nat, b: nat)
    ensures BitStep(Xor(a, b), b) == Xor(Shifted(a), b / 2)
  {
    XorTwice(a, b);
    XorHalf(a, b);
    XorAssoc(a / 2, b / 2, POLY);
    XorComm(b / 2, POLY);
    XorAssoc(a / 2, POLY, b / 2);
    XorComm(a / 2, POLY);
  }

  /** All message bits can be added in at once, before the steps. */
  lemma {:induction false} BitsIn(c: nat, v: nat, n: nat)
    ensures BitSteps(c, v, n) == Xor(Shifts(Xor(c, v), n), Shr(v, n))
  {
    if n == 0 {
      XorTwice(c, v);
    } else {
      var a, b := Shifts(Xor(c, v), n - 1), Shr(v, n - 1);
      assert BitSteps(c, v, n) == BitStep(BitSteps(c, v, n - 1), b) && Shifts(Xor(c, v), n) == Shifted(a);
      hide *;
      BitsIn(c, v, n - 1);
      BitIn(a, b);
      ShrNext(v, n);
    }
  }

  lemma ShrNext(v: nat, n: nat)
    requires n > 0
    ensures Shr(v, n) == Shr(v, n - 1) / 2
  {
    ShrShr(v, n - 1, 1);
    assert Shr(Shr(v, n - 1), 1) == Shr(v, n - 1) / 2;
  }

  lemma ShiftedXor(a: nat, b: nat)
    ensures Shifted(Xor(a, b)) == Xor(Shifted(a), Shifted(b))
  {
    var x, y := a / 2, b / 2;
    XorHalf(a, b);
    hide Xor;
    XorAssoc(POLY, x, y);
    XorAssoc(x, POLY, y);
    XorComm(x, POLY);
    XorSwap(POLY, x, POLY, y);
    XorSelf(POLY);
    XorZero(Xor(x, y));
  }

  lemma {:induction false} ShiftsXor(a: nat, b: nat, n: nat)
    ensures Shifts(Xor(a, b), n) == Xor(Shifts(a, n), Shifts(b, n))
  {
    if n > 0 {
      ShiftsXor(a, b, n - 1);
      ShiftedXor(Shifts(a, n - 1), Shifts(b, n - 1));
    }
  }

  lemma {:induction false} ShiftsFirst(x: nat, n: nat)
    requires n > 0
    ensures Shifts(x, n) == Shifts(Shifted(x), n - 1)
  {
    if n > 1 { ShiftsFirst(x, n - 1); }
  }

  /** Bits above the lowest `n` pass through `n` steps. */
  lemma {:induction false} HighBits(x: nat, n: nat)
    ensures x >= Low(x, n) && Xor(Low(x, n), x - Low(x, n)) == x
    ensures Shifts(x - Low(x, n), n) == Shr(x, n)
  {
    hide *;
    LowBound(x, n);
    if n == 0 {
      LowNone(x);
      ShrNone(x);
      XorZero(x);
      ShiftsNone(x);
    } else {
      var l, m := Low(x / 2, n - 1), x / 2 - Low(x / 2, n - 1);
      HighBits(x / 2, n - 1);
      LowStep(x, n);
      ShrStep(x, n);
      assert x - Low(x, n) == 2 * m;
      ShiftedEven(m);
      ShiftsFirst(2 * m, n);
      XorEven(x % 2, l, m);
    }
  }

  lemma ShiftsNone(x: nat)
    ensures Shifts(x, 0) == x
  {
  }

  lemma ShiftedEven(m: nat)
    ensures Shifted(2 * m) == m
  {
  }

  lemma XorEven(b: nat, l: nat, m: nat)
    requires b < 2
    ensures Xor(b + 2 * l, 2 * m) == b + 2 * Xor(l, m)
  {
    hide Xor;
    XorHalf(b + 2 * l, 2 * m);
    assert (b + 2 * l) / 2 == l && (b + 2 * l) % 2 == b && 2 * m / 2 == m && 2 * m % 2 == 0;
    Halves(b, Xor(l, m));
    SameHalves(Xor(b + 2 * l, 2 * m), b + 2 * Xor(l, m));
  }

  /** One look-up takes in a whole byte. */
  lemma ByteStep(c: nat, v: byte)
    ensures Low(Xor(c, v), 8) < 256
    ensures BitSteps(c, v, 8) == Xor(Table()[Low(Xor(c, v), 8)], Shr(c, 8))
  {
    var x := Xor(c, v);
    assert Pow2(8) == 256;
    hide Shifts, Low, Shr, Pow2, Xor, BitSteps;
    BitsIn(c, v, 8);
    ShrSmall(v, 8);
    XorZero(Shifts(x, 8));
    HighBits(x, 8);
    ShiftsXor(Low(x, 8), x - Low(x, 8), 8);
    XorShr(c, v, 8);
    XorZero(Shr(c, 8));
    LowBound(x, 8);
  }

  lemma {:induction false} RegisterConcat(c: nat, a: seq<byte>, b: seq<byte>)
    ensures Register(c, a + b) == Register(Register(c, a), b)
  {
    if b == [] {
      assert a + b == a;
    } else {
      RegisterConcat(c, a, b[..|b| - 1]);
      assert (a + b)[..|a + b| - 1] == a + b[..|b| - 1];
    }
  }

  /** A checksum can be taken in pieces. */
  lemma CrcConcat(crc: nat, a: seq<byte>, b: seq<byte>)
    ensures Crc(Crc(crc, a), b) == Crc(crc, a + b)
  {
    RegisterConcat(Xor(crc, ONES), a, b);
    XorTwice(Register(Xor(crc, ONES), a), ONES);
  }

  /** The register keeps to 32 bits. */
  lemma {:induction false} RegisterFits(c: nat, msg: seq<byte>)
    requires c < Pow2(32)
    ensures Register(c, msg) < Pow2(32)
  {
    if msg != [] {
      RegisterFits(c, msg[..|msg| - 1]);
      StepsFit(Register(c, msg[..|msg| - 1]), msg[|msg| - 1], 8);
    }
  }

  lemma {:induction false} StepsFit(c: nat, v: nat, n: nat)
    requires c < Pow2(32)
    ensures BitSteps(c, v, n) < Pow2(32)
  {
    if n > 0 {
      StepsFit(c, v, n - 1);
      WordSize();
      XorBound(BitSteps(c, v, n - 1) / 2, POLY, 32);
    }
  }

  lemma WordSize()
    ensures Pow2(32) == 0x1_0000_0000
  {
    Pow2Add(8, 8);
    Pow2Add(16, 16);
    assert Pow2(8) == 256;
  }

  // ----- ucrc32

  /** CRC_DO1 */
  method Do1(c: nat, buf: seq<byte>, p: nat, ghost c0: nat) returns (c': nat)
    requires p < |buf| && c == Register(c0, buf[..p])
    ensures c' == Register(c0, buf[..p + 1])
  {
    ByteStep(c, buf[p]);
    assert buf[..p + 1][..p] == buf[..p];
    c' := Xor(Table()[Low(Xor(c, buf[p]), 8)], Shr(c, 8));
  }

  method Do2(c: nat, buf: seq<byte>, p: nat, ghost c0: nat) returns (c': nat)
    requires p + 2 <= |buf| && c == Register(c0, buf[..p])
    ensures c' == Register(c0, buf[..p + 2])
  {
    c' := Do1(c, buf, p, c0);
    c' := Do1(c', buf, p + 1, c0);
  }

  method Do4(c: nat, buf: seq<byte>, p: nat, ghost c0: nat) returns (c': nat)
    requires p + 4 <= |buf| && c == Register(c0, buf[..p])
    ensures c' == Register(c0, buf[..p + 4])
  {
    c' := Do2(c, buf, p, c0);
    c' := Do2(c', buf, p + 2, c0);
  }

  method Do8(c: nat, buf: seq<byte>, p: nat, ghost c0: nat) returns (c': nat)
    requires p + 8 <= |buf| && c == Register(c0, buf[..p])
    ensures c' == Register(c0, buf[..p + 8])
  {
    c' := Do4(c, buf, p, c0);
    c' := Do4(c', buf, p + 4, c0);
  }

  /** Eight bytes a turn, and then the rest. */
  method Ucrc32(crc: nat, buf: seq<byte>) returns (r: nat)
    ensures r == Crc(crc, buf)
  {
    ghost var c0 := Xor(crc, ONES);
    var c := Xor(crc, ONES);
    var len: nat, p: nat := |buf|, 0;
    while len >= 8
      invariant p + len == |buf| && c == Register(c0, buf[..p])
    {
      c := Do8(c, buf, p, c0);
      p, len := p + 8, len - 8;
    }
    while len > 0
      invariant p + len == |buf| && c == Register(c0, buf[..p])
    {
      c := Do1(c, buf, p, c0);
      p, len := p + 1, len - 1;
    }
    assert buf[..p] == buf;
    r := Xor(c, ONES);
  }
}
