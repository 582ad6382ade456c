/** Bit-level vocabulary of the decoder: C's shifts, masks and `|` on unsigned values,
    the bit stream behind a byte sequence, and bit reversal. */
module Bits {

  type byte = x: int | 0 <= x < 256

  function Pow2(n: nat): (r: nat)
    ensures r >= 1
  {
    if n == 0 then 1 else 2 * Pow2(n - 1)
  }

  /** `x & ((1 << m) - 1)` */
  function Low(x: nat, m: nat): nat {
    if m == 0 then 0 else x % 2 + 2 * Low(x / 2, m - 1)
  }

  /** `x >> m` */
  function Shr(x: nat, m: nat): nat {
    if m == 0 then x else Shr(x / 2, m - 1)
  }

  /** `x << m`, before truncation to the width of the C type */
  function Shl(x: nat, m: nat): nat {
    if m == 0 then x else 2 * Shl(x, m - 1)
  }

  /** `x | y` */
  function Or(x: nat, y: nat): nat
    decreases x + y
  {
    if x == 0 && y == 0 then 0
    else (if x % 2 == 1 || y % 2 == 1 then 1 else 0) + 2 * Or(x / 2, y / 2)
  }

  /** Bit `i` of the stream: bits are packed into bytes starting with the least significant bit
      (section 3.1.1 of RFC 1951). */
  function Bit(inp: seq<byte>, i: nat): (r: nat)
    requires i < 8 * |inp|
    ensures r < 2
  {
    Shr(inp[i / 8], i % 8) % 2
  }

  /** The next `m` stream bits from position `i` as a number, first bit least significant. */
  function Take(inp: seq<byte>, i: nat, m: nat): nat
    requires i + m <= 8 * |inp|
    decreases m, i
  {
    if m == 0 then 0 else Bit(inp, i) + 2 * Take(inp, i + 1, m - 1)
  }

  /** The low `w` bits of `pre` with `idx` above them. */
  function Cat(w: nat, pre: nat, idx: nat): nat {
    if w == 0 then idx else pre % 2 + 2 * Cat(w - 1, pre / 2, idx)
  }

  /** The low `k` bits of `i` in reverse order. */
  function Rev(k: nat, i: nat): nat {
    if k == 0 then 0 else (i % 2) * Pow2(k - 1) + Rev(k - 1, i / 2)
  }

  // ----- powers, masks and shifts

  lemma {:induction false} Pow2Add(a: nat, b: nat)
    ensures Pow2(a + b) == Pow2(a) * Pow2(b)
  {
    if a > 0 {
      Pow2Add(a - 1, b);
      assert Pow2(a + b) == 2 * (Pow2(a - 1) * Pow2(b));
    }
  }

  lemma {:induction false} Pow2Mono(a: nat, b: nat)
    requires a <= b
    ensures Pow2(a) <= Pow2(b)
    ensures a < b ==> 2 * Pow2(a) <= Pow2(b)
    decreases b - a
  {
    if a < b { Pow2Mono(a, b - 1); }
  }

  lemma {:induction false} LowBound(x: nat, m: nat)
    ensures Low(x, m) < Pow2(m)
    ensures Low(x, m) <= x
    ensures x < Pow2(m) ==> Low(x, m) == x
  {
    if m > 0 { LowBound(x / 2, m - 1); }
  }

  /** `Low` is the remainder and `Shr` the quotient by a power of two. */
  lemma {:induction false} LowShrIsDivMod(x: nat, m: nat)
    ensures x == Shr(x, m) * Pow2(m) + Low(x, m)
    ensures Low(x, m) < Pow2(m)
  {
    if m > 0 {
      LowShrIsDivMod(x / 2, m - 1);
      var q, p, r := Shr(x / 2, m - 1), Pow2(m - 1), Low(x / 2, m - 1);
      assert Shr(x, m) == q && Pow2(m) == 2 * p && Low(x, m) == x % 2 + 2 * r;
      hide *;
      Halved(x, q, p, r);
    }
  }

  lemma Halved(x: nat, q: nat, p: nat, r: nat)
    requires x / 2 == q * p + r
    ensures x == q * (2 * p) + (x % 2 + 2 * r)
  {
    var y := q * p;
    assert q * (2 * p) == 2 * y;
  }

  lemma LowIsMod(x: nat, m: nat)
    ensures Low(x, m) == x % Pow2(m)
    ensures Shr(x, m) == x / Pow2(m)
  {
    LowShrIsDivMod(x, m);
    DivModUnique(x, Pow2(m), Shr(x, m), Low(x, m));
  }

  lemma DivModUnique(x: nat, p: nat, q: nat, r: nat)
    requires r < p && x == q * p + r
    ensures x / p == q && x % p == r
  {
    var q' := x / p;
    assert x == q' * p + x % p;
    if q < q' { Scale(q + 1, q', p); Scale(q, q, p); }
    if q' < q { Scale(q' + 1, q, p); Scale(q', q', p); }
  }

  lemma {:induction false} LowLow(x: nat, m: nat, n: nat)
    requires m <= n
    ensures Low(Low(x, n), m) == Low(x, m)
  {
    if m > 0 { LowLow(x / 2, m - 1, n - 1); }
  }

  lemma {:induction false} ShlIsMul(x: nat, m: nat)
    ensures Shl(x, m) == x * Pow2(m)
  {
    if m > 0 { ShlIsMul(x, m - 1); }
  }

  lemma {:induction false} ShrShr(x: nat, a: nat, b: nat)
    ensures Shr(Shr(x, a), b) == Shr(x, a + b)
  {
    if a > 0 { ShrShr(x / 2, a - 1, b); }
  }

  // ----- Cat splits and joins

  lemma {:induction false} CatSplit(w: nat, x: nat)
    ensures Cat(w, Low(x, w), Shr(x, w)) == x
  {
    if w > 0 { CatSplit(w - 1, x / 2); }
  }

  lemma CatStep(w: nat, pre: nat, idx: nat)
    ensures Cat(w, pre, idx) == if w == 0 then idx else pre % 2 + 2 * Cat(w - 1, pre / 2, idx)
  {
  }

  lemma {:induction false} CatParts(w: nat, pre: nat, idx: nat)
    requires pre < Pow2(w)
    ensures Low(Cat(w, pre, idx), w) == pre
    ensures Shr(Cat(w, pre, idx), w) == idx
  {
    hide *;
    CatStep(w, pre, idx);
    if w > 0 {
      Pow2Step(w);
      LowStep(Cat(w, pre, idx), w);
      ShrStep(Cat(w, pre, idx), w);
      CatParts(w - 1, pre / 2, idx);
    } else {
      LowNone(idx);
      ShrNone(idx);
    }
  }

  lemma {:induction false} CatBound(w: nat, pre: nat, idx: nat, j: nat)
    requires pre < Pow2(w) && idx < Pow2(j)
    ensures Cat(w, pre, idx) < Pow2(w + j)
  {
    if w > 0 { CatBound(w - 1, pre / 2, idx, j); }
  }

  lemma {:induction false} CatLow(w: nat, pre: nat, idx: nat, k: nat)
    requires w <= k
    ensures Low(Cat(w, pre, idx), k) == Cat(w, pre, Low(idx, k - w))
  {
    hide *;
    CatStep(w, pre, idx);
    CatStep(w, pre, Low(idx, k - w));
    if w > 0 {
      LowStep(Cat(w, pre, idx), k);
      CatLow(w - 1, pre / 2, idx, k - 1);
    }
  }

  lemma {:induction false} CatIsSum(w: nat, pre: nat, idx: nat)
    requires pre < Pow2(w)
    ensures Cat(w, pre, idx) == pre + idx * Pow2(w)
  {
    if w > 0 {
      assert Cat(w, pre, idx) == pre % 2 + 2 * Cat(w - 1, pre / 2, idx) && Pow2(w) == 2 * Pow2(w - 1);
      hide *;
      CatIsSum(w - 1, pre / 2, idx);
      Twofold(idx, Pow2(w - 1));
    }
  }

  lemma Twofold(x: nat, z: nat)
    ensures 2 * (x * z) == x * (2 * z)
  {
  }

  // ----- stream bits

  lemma TakeStep(inp: seq<byte>, i: nat, m: nat)
    requires 0 < m && i + m <= 8 * |inp|
    ensures Take(inp, i, m) % 2 == Bit(inp, i) && Take(inp, i, m) / 2 == Take(inp, i + 1, m - 1)
  {
    var b, r := Bit(inp, i), Take(inp, i + 1, m - 1);
    assert Take(inp, i, m) == b + 2 * r;
    hide *;
  }

  lemma {:induction false} LowTake(inp: seq<byte>, i: nat, n: nat, m: nat)
    requires i + n <= 8 * |inp| && m <= n
    ensures Low(Take(inp, i, n), m) == Take(inp, i, m)
    decreases m
  {
    hide *;
    if m > 0 {
      LowStep(Take(inp, i, n), m);
      TakeStep(inp, i, n);
      TakeStep(inp, i, m);
      LowTake(inp, i + 1, n - 1, m - 1);
    } else {
      LowNone(Take(inp, i, n));
      TakeNone(inp, i);
    }
  }

  lemma {:induction false} ShrTake(inp: seq<byte>, i: nat, n: nat, m: nat)
    requires i + n <= 8 * |inp| && m <= n
    ensures Shr(Take(inp, i, n), m) == Take(inp, i + m, n - m)
    decreases m
  {
    hide *;
    if m > 0 {
      ShrStep(Take(inp, i, n), m);
      TakeStep(inp, i, n);
      ShrTake(inp, i + 1, n - 1, m - 1);
    } else {
      ShrNone(Take(inp, i, n));
    }
  }

  lemma {:induction false} TakeBound(inp: seq<byte>, i: nat, m: nat)
    requires i + m <= 8 * |inp|
    ensures Take(inp, i, m) < Pow2(m)
    decreases m
  {
    if m > 0 { TakeBound(inp, i + 1, m - 1); }
  }

  lemma {:induction false} TakeCat(inp: seq<byte>, i: nat, w: nat, j: nat)
    requires i + w + j <= 8 * |inp|
    ensures Take(inp, i, w + j) == Cat(w, Take(inp, i, w), Take(inp, i + w, j))
    decreases w
  {
    hide *;
    CatStep(w, Take(inp, i, w), Take(inp, i + w, j));
    if w > 0 {
      TakeCat(inp, i + 1, w - 1, j);
      TakeStep(inp, i, w);
      TakeStep(inp, i, w + j);
      assert w + j - 1 == w - 1 + j && i + w == i + 1 + (w - 1);
    }
  }

  lemma {:induction false} TakeByteFrom(inp: seq<byte>, p: nat, t: nat)
    requires p < |inp| && t <= 8
    ensures Take(inp, 8 * p + t, 8 - t) == Shr(inp[p], t)
    decreases 8 - t
  {
    if t == 8 {
      assert Pow2(8) == 256;
      ShrSmall(inp[p], 8);
    } else {
      TakeByteFrom(inp, p, t + 1);
      assert (8 * p + t) / 8 == p && (8 * p + t) % 8 == t;
      ShrShr(inp[p], t, 1);
      assert Shr(Shr(inp[p], t), 1) == Shr(inp[p], t) / 2;
    }
  }

  lemma {:induction false} ShrSmall(x: nat, t: nat)
    requires x < Pow2(t)
    ensures Shr(x, t) == 0
  {
    if t > 0 { ShrSmall(x / 2, t - 1); }
  }

  /** A whole byte is the eight stream bits at its start. */
  lemma TakeByte(inp: seq<byte>, p: nat)
    requires p < |inp|
    ensures Take(inp, 8 * p, 8) == inp[p]
  {
    TakeByteFrom(inp, p, 0);
  }

  lemma {:induction false} OrShorter(inp: seq<byte>, i: nat, n: nat, m: nat)
    requires i + n <= 8 * |inp| && i + m <= 8 * |inp|
    ensures Or(Take(inp, i, n), Take(inp, i, m)) == Take(inp, i, if n < m then m else n)
    decreases n + m
  {
    hide *;
    if n == 0 || m == 0 {
      TakeNone(inp, i);
      OrZero(Take(inp, i, n), Take(inp, i, m));
    } else {
      TakeStep(inp, i, n);
      TakeStep(inp, i, m);
      OrHalves(Take(inp, i, n), Take(inp, i, m));
      OrShorter(inp, i + 1, n - 1, m - 1);
    }
  }

  lemma TakeNone(inp: seq<byte>, i: nat)
    requires i <= 8 * |inp|
    ensures Take(inp, i, 0) == 0
  {
  }

  lemma OrHalves(x: nat, y: nat)
    ensures Or(x, y) == (if x % 2 == 1 || y % 2 == 1 then 1 else 0) + 2 * Or(x / 2, y / 2)
  {
    if x == 0 && y == 0 { assert Or(0, 0) == 0; }
  }

  lemma {:induction false} OrZero(x: nat, y: nat)
    requires x == 0 || y == 0
    ensures Or(x, y) == x + y
    decreases x + y
  {
    if x != 0 || y != 0 { OrZero(x / 2, y / 2); }
  }

  /** Refilling the bit buffer: a buffer holding `held >= k` stream bits, of which the ones from
      `k` up may be stale copies of the byte now read again, becomes the longer of the two. */
  lemma {:induction false} OrRefill(inp: seq<byte>, i: nat, held: nat, k: nat)
    requires k <= held && i + held <= 8 * |inp| && i + k + 8 <= 8 * |inp|
    ensures Or(Take(inp, i, held), Shl(Take(inp, i + k, 8), k))
         == Take(inp, i, if held < k + 8 then k + 8 else held)
    decreases k
  {
    hide Take;
    if k == 0 {
      OrShorter(inp, i, held, 8);
    } else {
      OrRefill(inp, i + 1, held - 1, k - 1);
      TakeStep(inp, i, held);
      TakeStep(inp, i, if held < k + 8 then k + 8 else held);
      OrStep(Take(inp, i, held), Shl(Take(inp, i + k, 8), k - 1));
      assert i + 1 + (k - 1) == i + k;
    }
  }

  lemma OrStep(x: nat, h: nat)
    ensures Or(x, 2 * h) == x % 2 + 2 * Or(x / 2, h)
  {
    if x == 0 && h == 0 { assert Or(0, 0) == 0; }
  }

  // ----- bit reversal

  lemma {:induction false} RevBound(k: nat, i: nat)
    ensures Rev(k, i) < Pow2(k)
  {
    if k > 0 { RevBound(k - 1, i / 2); }
  }

  lemma RevNone(i: nat)
    ensures Rev(0, i) == 0
  {
  }

  lemma {:induction false} RevLow(k: nat, i: nat, m: nat)
    requires k <= m
    ensures Rev(k, Low(i, m)) == Rev(k, i)
  {
    hide *;
    if k > 0 {
      LowStep(i, m);
      RevStep(k, Low(i, m));
      RevStep(k, i);
      RevLow(k - 1, i / 2, m - 1);
    } else {
      RevNone(Low(i, m));
      RevNone(i);
    }
  }

  lemma {:induction false} RevZero(k: nat)
    ensures Rev(k, 0) == 0
  {
    if k > 0 { RevZero(k - 1); }
  }

  /** Zero-extending a `k`-bit code to `g` bits scales its reversal. */
  lemma {:induction false} RevExtend(g: nat, k: nat, i: nat)
    requires k <= g && i < Pow2(k)
    ensures Rev(g, i) == Rev(k, i) * Pow2(g - k)
  {
    if k == 0 {
      RevZero(g);
    } else {
      RevExtend(g - 1, k - 1, i / 2);
      Pow2Add(k - 1, g - k);
      Distribute(i % 2, Pow2(k - 1), Rev(k - 1, i / 2), Pow2(g - k));
    }
  }

  lemma Distribute(b: nat, p: nat, r: nat, z: nat)
    ensures (b * p + r) * z == b * (p * z) + r * z
  {
  }

  /** The numbers whose low `k` bits are `i` are those whose reversal lies in one aligned interval. */
  lemma {:induction false} RevInterval(g: nat, k: nat, i: nat, r: nat)
    requires k <= g && i < Pow2(k) && r < Pow2(g)
    ensures Rev(g, i) + Pow2(g - k) <= Pow2(g)
    ensures Low(r, k) == i <==> Rev(g, i) <= Rev(g, r) < Rev(g, i) + Pow2(g - k)
  {
    hide *;
    RevBound(g, r);
    if k == 0 {
      RevZero(g);
      ShrNone(0);
      LowNone(r);
    } else {
      Pow2Step(k);
      Pow2Step(g);
      RevInterval(g - 1, k - 1, i / 2, r / 2);
      RevBound(g - 1, r / 2);
      RevStep(g, i);
      RevStep(g, r);
      LowStep(r, k);
    }
  }

  lemma LowNone(x: nat)
    ensures Low(x, 0) == 0
  {
  }

  lemma LowStep(x: nat, m: nat)
    requires m > 0
    ensures Low(x, m) == x % 2 + 2 * Low(x / 2, m - 1)
  {
  }

  lemma RevStep(g: nat, i: nat)
    requires g > 0
    ensures Rev(g, i) == if i % 2 == 1 then Pow2(g - 1) + Rev(g - 1, i / 2) else Rev(g - 1, i / 2)
  {
  }

  lemma RevInjective(g: nat, i: nat, r: nat)
    requires i < Pow2(g) && r < Pow2(g) && Rev(g, i) == Rev(g, r)
    ensures i == r
  {
    RevInterval(g, g, i, r);
    LowBound(r, g);
  }

  /** A position that is a multiple of the size of a `w`-bit subtree is reached by a `w`-bit code. */
  lemma RevAligned(g: nat, w: nat, i: nat, n: nat)
    requires w <= g && i < Pow2(g) && Rev(g, i) == n * Pow2(g - w)
    ensures i < Pow2(w)
  {
    hide *;
    RevAlignedBy(w, g - w, Pow2(g - w), i, n);
  }

  lemma {:induction false} RevAlignedBy(w: nat, s: nat, size: nat, i: nat, n: nat)
    requires size == Pow2(s) && i < Pow2(w + s) && Rev(w + s, i) == n * size
    ensures i < Pow2(w)
  {
    if w == 0 {
      RevAlignedZero(s, i, n);
    } else {
      var high, g := Pow2(w - 1), w - 1 + s;
      hide *;
      RevStep(g + 1, i);
      Pow2Add(w - 1, s);
      Pow2Step(g + 1);
      Pow2Step(w);
      if i % 2 == 0 {
        RevAlignedBy(w - 1, s, size, i / 2, n);
      } else {
        AtLeast(n, high, size);
        Minus(n, high, size);
        RevAlignedBy(w - 1, s, size, i / 2, n - high);
      }
    }
  }

  lemma RevAlignedZero(g: nat, i: nat, n: nat)
    requires i < Pow2(g) && Rev(g, i) == n * Pow2(g)
    ensures i == 0
  {
    RevBound(g, i);
    RevZero(g);
    hide *;
    if n >= 1 { Scale(1, n, Pow2(g)); }
    RevInjective(g, i, 0);
  }

  lemma AtLeast(n: nat, m: nat, z: nat)
    requires m * z <= n * z && z > 0
    ensures m <= n
  {
    if n < m { Scale(n + 1, m, z); Scale(n, n, z); }
  }

  lemma Scale(a: nat, b: nat, z: nat)
    requires a <= b
    ensures a * z <= b * z
    ensures (a + 1) * z == a * z + z
  {
  }

  lemma Minus(a: int, b: int, z: int)
    ensures (a - b) * z == a * z - b * z
  {
  }

  /** Reversal reads the stream bits as a Huffman code, first bit most significant. */
  lemma {:induction false} RevTakeSnoc(inp: seq<byte>, i: nat, m: nat)
    requires i + m + 1 <= 8 * |inp|
    ensures Rev(m + 1, Take(inp, i, m + 1)) == 2 * Rev(m, Take(inp, i, m)) + Bit(inp, i + m)
    decreases m
  {
    hide Rev, Bit;
    TakeStep(inp, i, m + 1);
    var x, y := Take(inp, i, m + 1), Take(inp, i, m);
    RevStep(m + 1, x);
    if m > 0 {
      RevTakeSnoc(inp, i + 1, m - 1);
      TakeStep(inp, i, m);
      RevStep(m, y);
      assert Pow2(m) == 2 * Pow2(m - 1);
      hide *;
      assert i + 1 + (m - 1) == i + m && m - 1 + 1 == m;
    } else {
      RevZero(0);
    }
  }

  lemma {:induction false} RevSetBit(k: nat, t: nat, i: nat)
    requires t < k && Shr(i, t) % 2 == 0
    ensures Rev(k, i + Pow2(t)) == Rev(k, i) + Pow2(k - 1 - t)
    ensures Shr(i + Pow2(t), t) % 2 == 1
    ensures i < Pow2(k) ==> i + Pow2(t) < Pow2(k)
  {
    hide *;
    var p := Pow2(t);
    RevStep(k, i);
    RevStep(k, i + p);
    Pow2Step(k);
    if t == 0 {
      ShrNone(i);
      ShrNone(i + 1);
    } else {
      Pow2Step(t);
      ShrStep(i, t);
      ShrStep(i + p, t);
      EvenHalf(i, p, Pow2(t - 1));
      RevSetBit(k - 1, t - 1, i / 2);
      assert k - 1 - 1 - (t - 1) == k - 1 - t;
      Below(i, Pow2(k - 1), i / 2, p, Pow2(t - 1));
    }
  }

  lemma Pow2Step(n: nat)
    requires n > 0
    ensures Pow2(n) == 2 * Pow2(n - 1)
  {
  }

  lemma ShrStep(x: nat, m: nat)
    requires m > 0
    ensures Shr(x, m) == Shr(x / 2, m - 1)
  {
  }

  lemma ShrNone(x: nat)
    ensures Shr(x, 0) == x && Pow2(0) == 1
  {
  }

  lemma EvenHalf(i: nat, p: nat, h: nat)
    requires p == 2 * h
    ensures (i + p) / 2 == i / 2 + h && (i + p) % 2 == i % 2
  {
  }

  lemma Below(i: nat, n: nat, half: nat, p: nat, h: nat)
    requires half == i / 2 && p == 2 * h && (half < n ==> half + h < n)
    ensures i < 2 * n ==> i + p < 2 * n
  {
  }

  lemma {:induction false} RevClearBit(k: nat, t: nat, i: nat)
    requires t < k && Shr(i, t) % 2 == 1
    ensures i >= Pow2(t)
    ensures Rev(k, i - Pow2(t)) + Pow2(k - 1 - t) == Rev(k, i)
  {
    hide *;
    var p := Pow2(t);
    RevStep(k, i);
    if t == 0 {
      ShrNone(i);
      RevStep(k, i - 1);
      assert (i - 1) / 2 == i / 2;
    } else {
      Pow2Step(t);
      ShrStep(i, t);
      RevClearBit(k - 1, t - 1, i / 2);
      RevStep(k, i - p);
      EvenHalf(i - p, p, Pow2(t - 1));
      assert k - 1 - 1 - (t - 1) == k - 1 - t;
    }
  }
}
