/** adler32: the checksum with the remainders put off, in 32-bit arithmetic. */
module Adler32 {
  import opened Bits

  const BASE: nat := 65521
  /** How many bytes can be added before the sums must be reduced. */
  const NMAX: nat := 5552
  const WORD: nat := 0x1_0000_0000

  datatype Sums = Sums(s1: nat, s2: nat)

  /** The definition: both sums are kept reduced (section 8.2 of RFC 1950). */
  function Reduced(s: Sums, buf: seq<byte>): Sums {
    if buf == [] then s else ReducedStep(Reduced(s, buf[..|buf| - 1]), buf[|buf| - 1])
  }

  function ReducedStep(t: Sums, b: byte): Sums {
    var s1 := (t.s1 + b) % BASE;
    Sums(s1, (t.s2 + s1) % BASE)
  }

  function Unpack(adler: nat): Sums { Sums(adler % 0x1_0000, adler / 0x1_0000 % 0x1_0000) }
  function Pack(s: Sums): nat { s.s2 * 0x1_0000 + s.s1 }

  function Adler(adler: nat, buf: seq<byte>): nat {
    Pack(Reduced(Unpack(adler), buf))
  }

  /** The sums as they are, unbounded and never reduced. */
  function Raw(s: Sums, buf: seq<byte>): Sums {
    if buf == [] then s else RawStep(Raw(s, buf[..|buf| - 1]), buf[|buf| - 1])
  }

  function RawStep(t: Sums, b: byte): Sums {
    Sums(t.s1 + b, t.s2 + t.s1 + b)
  }

  function Mod(s: Sums): Sums { Sums(s.s1 % BASE, s.s2 % BASE) }

  lemma AddMod(a: nat, b: nat)
    ensures (a % BASE + b) % BASE == (a + b) % BASE
  {
  }

  /** Reducing once is the same as reducing every time. */
  lemma {:induction false} RawIsReduced(s: Sums, buf: seq<byte>)
    requires buf != []
    ensures Reduced(s, buf) == Mod(Raw(s, buf))
  {
    var rest, b := buf[..|buf| - 1], buf[|buf| - 1];
    assert Reduced(s, buf) == ReducedStep(Reduced(s, rest), b) && Raw(s, buf) == RawStep(Raw(s, rest), b);
    AddStep(Raw(s, rest), b);
    if rest != [] { RawIsReduced(s, rest); }
  }

  lemma AddStep(t: Sums, b: byte)
    ensures ReducedStep(Mod(t), b) == Mod(RawStep(t, b)) == ReducedStep(t, b)
  {
    AddMod(t.s1, b);
    AddMod(t.s2, (t.s1 + b) % BASE);
    AddMod(t.s1 + b, t.s2);
  }

  lemma {:induction false} ReducedConcat(s: Sums, a: seq<byte>, b: seq<byte>)
    ensures Reduced(s, a + b) == Reduced(Reduced(s, a), b)
  {
    if b == [] {
      assert a + b == a;
    } else {
      ReducedConcat(s, a, b[..|b| - 1]);
      assert (a + b)[..|a + b| - 1] == a + b[..|b| - 1];
    }
  }

  lemma ReducedSmall(s: Sums, buf: seq<byte>)
    requires s.s1 < 0x1_0000 && s.s2 < 0x1_0000
    ensures Reduced(s, buf).s1 < 0x1_0000 && Reduced(s, buf).s2 < 0x1_0000
  {
  }

  lemma UnpackPack(s: Sums)
    requires s.s1 < 0x1_0000 && s.s2 < 0x1_0000
    ensures Unpack(Pack(s)) == s
  {
  }

  /** A checksum can be taken in pieces. */
  lemma AdlerConcat(adler: nat, a: seq<byte>, b: seq<byte>)
    ensures Adler(Adler(adler, a), b) == Adler(adler, a + b)
  {
    ReducedConcat(Unpack(adler), a, b);
    ReducedSmall(Unpack(adler), a);
    UnpackPack(Reduced(Unpack(adler), a));
  }

  // ----- in closed form

  function Total(buf: seq<byte>): nat {
    if buf == [] then 0 else buf[0] + Total(buf[1..])
  }

  /** Each byte as often as there are bytes from it on. */
  function Weighted(buf: seq<byte>): nat {
    if buf == [] then 0 else |buf| * buf[0] + Weighted(buf[1..])
  }

  lemma {:induction false} RawConcat(s: Sums, a: seq<byte>, b: seq<byte>)
    ensures Raw(s, a + b) == Raw(Raw(s, a), b)
  {
    if b == [] {
      assert a + b == a;
    } else {
      RawConcat(s, a, b[..|b| - 1]);
      assert (a + b)[..|a + b| - 1] == a + b[..|b| - 1];
    }
  }

  lemma {:induction false} RawIs(s: Sums, buf: seq<byte>)
    ensures Raw(s, buf) == Sums(s.s1 + Total(buf), s.s2 + |buf| * s.s1 + Weighted(buf))
    decreases |buf|
  {
    hide *;
    if buf == [] {
      SumsNone(s);
    } else {
      var b, rest := buf[0], buf[1..];
      assert [b] + rest == buf;
      RawConcat(s, [b], rest);
      RawOne(s, b);
      SumsStep(buf);
      RawIs(Sums(s.s1 + b, s.s2 + s.s1 + b), rest);
      Spread(|rest|, s.s1, b);
    }
  }

  lemma SumsNone(s: Sums)
    ensures Raw(s, []) == s && Total([]) == Weighted([]) == 0 && 0 * s.s1 == 0
  {
  }

  lemma RawOne(s: Sums, b: byte)
    ensures Raw(s, [b]) == Sums(s.s1 + b, s.s2 + s.s1 + b)
  {
    assert [b][..0] == [];
    assert Raw(s, [b]) == RawStep(Raw(s, []), b);
  }

  lemma SumsStep(buf: seq<byte>)
    requires buf != []
    ensures Total(buf) == buf[0] + Total(buf[1..]) && Weighted(buf) == |buf| * buf[0] + Weighted(buf[1..])
  {
  }

  lemma Spread(n: nat, s: nat, b: nat)
    ensures s + b + n * (s + b) == (n + 1) * s + (n + 1) * b
  {
  }

  /** The low half of the checksum is the sum of the bytes, the high half the sum of these sums, both modulo 65521. */
  lemma AdlerIs(adler: nat, buf: seq<byte>)
    requires buf != []
    ensures var s1, s2 := adler % 65536, adler / 65536 % 65536;
      Adler(adler, buf) ==
      (s2 + |buf| * s1 + Weighted(buf)) % 65521 * 65536 + (s1 + Total(buf)) % 65521
  {
    hide Reduced, Raw;
    RawIsReduced(Unpack(adler), buf);
    RawIs(Unpack(adler), buf);
  }

  /** Nothing to add changes nothing. */
  lemma AdlerNothing(adler: nat)
    requires adler < WORD
    ensures Adler(adler, []) == adler
  {
  }

  /** The checksum of "abc", from the start value 1. */
  lemma AdlerExample()
    ensures Adler(1, [97, 98, 99]) == 0x024d_0127
  {
    hide *;
    AdlerIs(1, [97, 98, 99]);
    ExampleSums();
  }

  lemma ExampleSums()
    ensures Total([97, 98, 99]) == 294 && Weighted([97, 98, 99]) == 586
  {
    assert [97, 98, 99][1..] == [98, 99] && [98, 99][1..] == [99] && [99][1..] == [];
    assert Total([99]) == 99 && Total([98, 99]) == 197;
    assert Weighted([99]) == 99 && Weighted([98, 99]) == 295;
  }

  function Triangle(n: nat): nat { if n == 0 then 0 else Triangle(n - 1) + n }

  lemma {:induction false} TriangleIs(n: nat)
    ensures 2 * Triangle(n) == n * (n + 1)
  {
    if n > 0 { TriangleIs(n - 1); }
  }

  lemma {:induction false} RawBound(s: Sums, buf: seq<byte>)
    requires s.s1 < 0x1_0000 && s.s2 < 0x1_0000
    ensures Raw(s, buf).s1 <= 0xffff + 255 * |buf|
    ensures Raw(s, buf).s2 <= 0xffff + 0xffff * |buf| + 255 * Triangle(|buf|)
  {
    if buf != [] { RawBound(s, buf[..|buf| - 1]); }
  }

  lemma {:induction false} TriangleMono(n: nat, m: nat)
    requires n <= m
    ensures Triangle(n) <= Triangle(m)
    decreases m
  {
    if n < m { TriangleMono(n, m - 1); }
  }

  /** Up to NMAX bytes fit in 32 bits, even from sums that are not reduced. */
  lemma RawFits(s: Sums, buf: seq<byte>)
    requires s.s1 < 0x1_0000 && s.s2 < 0x1_0000 && |buf| <= NMAX
    ensures Raw(s, buf).s1 < WORD && Raw(s, buf).s2 < WORD
  {
    hide Triangle, Raw;
    RawBound(s, buf);
    TriangleMono(|buf|, NMAX);
    TriangleIs(NMAX);
  }

  /** AD_DO1, in 32-bit unsigned arithmetic */
  method Do1(s: Sums, buf: seq<byte>, i: nat) returns (t: Sums)
    requires i < |buf|
    ensures t.s1 == (s.s1 + buf[i]) % WORD && t.s2 == (s.s2 + t.s1) % WORD
  {
    var s1 := (s.s1 + buf[i]) % WORD;
    t := Sums(s1, (s.s2 + s1) % WORD);
  }

  /** The sums over `buf[q..p]`, exact although the arithmetic wraps. */
  ghost predicate Summed(s: Sums, s0: Sums, buf: seq<byte>, q: nat, p: nat) {
    s0.s1 < 0x1_0000 && s0.s2 < 0x1_0000 && q <= p <= |buf| && p - q <= NMAX && s == Raw(s0, buf[q..p])
  }

  method Add1(s: Sums, buf: seq<byte>, p: nat, ghost s0: Sums, ghost q: nat) returns (t: Sums)
    requires Summed(s, s0, buf, q, p) && p + 1 <= |buf| && p + 1 - q <= NMAX
    ensures Summed(t, s0, buf, q, p + 1)
  {
    t := Do1(s, buf, p);
    assert buf[q..p + 1][..p - q] == buf[q..p];
    RawFits(s0, buf[q..p + 1]);
  }

  method Add4(s: Sums, buf: seq<byte>, p: nat, ghost s0: Sums, ghost q: nat) returns (t: Sums)
    requires Summed(s, s0, buf, q, p) && p + 4 <= |buf| && p + 4 - q <= NMAX
    ensures Summed(t, s0, buf, q, p + 4)
  {
    hide Summed;
    t := Add1(s, buf, p, s0, q);
    t := Add1(t, buf, p + 1, s0, q);
    t := Add1(t, buf, p + 2, s0, q);
    t := Add1(t, buf, p + 3, s0, q);
  }

  /** AD_DO16 */
  method Add16(s: Sums, buf: seq<byte>, p: nat, ghost s0: Sums, ghost q: nat) returns (t: Sums)
    requires Summed(s, s0, buf, q, p) && p + 16 <= |buf| && p + 16 - q <= NMAX
    ensures Summed(t, s0, buf, q, p + 16)
  {
    hide Summed;
    t := Add4(s, buf, p, s0, q);
    t := Add4(t, buf, p + 4, s0, q);
    t := Add4(t, buf, p + 8, s0, q);
    t := Add4(t, buf, p + 12, s0, q);
  }

  /** One run of up to NMAX bytes, and the remainders. */
  method AddRun(s0: Sums, buf: seq<byte>, q: nat, k0: nat) returns (t: Sums)
    requires s0.s1 < 0x1_0000 && s0.s2 < 0x1_0000 && 0 < k0 <= NMAX && q + k0 <= |buf|
    ensures t == Reduced(s0, buf[q..q + k0])
  {
    assert Raw(s0, buf[q..q]) == s0;
    t := s0;
    var k, p := k0, q;
    while k >= 16
      invariant q <= p && p + k == q + k0 && k >= 0 && Summed(t, s0, buf, q, p)
    {
      t := Add16(t, buf, p, s0, q);
      p, k := p + 16, k - 16;
    }
    while k != 0
      invariant q <= p && p + k == q + k0 && k >= 0 && Summed(t, s0, buf, q, p)
    {
      t := Add1(t, buf, p, s0, q);
      p, k := p + 1, k - 1;
    }
    t := Mod(t);
    RawIsReduced(s0, buf[q..q + k0]);
  }

  /** adler32 */
  method ComputeAdler32(adler: nat, buf: seq<byte>) returns (r: nat)
    ensures r == Adler(adler, buf)
  {
    var s := Unpack(adler);
    ghost var s0 := s;
    var len, q := |buf|, 0;
    while len > 0
      invariant q + len == |buf| && len >= 0 && q >= 0 && s.s1 < 0x1_0000 && s.s2 < 0x1_0000
      invariant s == Reduced(s0, buf[..q])
    {
      var k := if len < NMAX then len else NMAX;
      len := len - k;
      s := AddRun(s, buf, q, k);
      ReducedConcat(s0, buf[..q], buf[q..q + k]);
      assert buf[..q] + buf[q..q + k] == buf[..q + k];
      ReducedSmall(s0, buf[..q + k]);
      q := q + k;
    }
    assert buf[..q] == buf;
    r := Pack(s);
  }
}
