/** What a compressed block says: literals and matches, the bytes they stand for, and the symbols and extra bits that
    send them (section 3.2.5 of RFC 1951), computed without tables. */
module Tokens {
  import opened Bits
  import opened Reference

  datatype Token = Literal(value: byte) | Match(len: nat, dist: nat)

  predicate TokenOK(t: Token) {
    t.Match? ==> 3 <= t.len <= 258 && 1 <= t.dist <= 32768
  }

  predicate TokensOK(tokens: seq<Token>) {
    forall i | 0 <= i < |tokens| :: TokenOK(tokens[i])
  }

  // ----- meaning

  /** The byte at place `p` of the output; before its start there are zeros. */
  function At(out: seq<byte>, p: int): byte {
    if 0 <= p < |out| then out[p] else 0
  }

  /** The last `dist` bytes over and over, `len` bytes in all. */
  function Matched(out: seq<byte>, dist: nat, len: nat): seq<byte>
    requires dist >= 1
  {
    seq(len, i requires 0 <= i < len => At(out, |out| - dist + i % dist))
  }

  /** The bytes one token adds. */
  function Meant(out: seq<byte>, t: Token): seq<byte>
    requires TokenOK(t)
  {
    match t
    case Literal(v) => [v]
    case Match(len, dist) => Matched(out, dist, len)
  }

  function Expand(out: seq<byte>, tokens: seq<Token>): seq<byte>
    requires TokensOK(tokens)
    decreases |tokens|
  {
    if tokens == [] then out else Expand(out + Meant(out, tokens[0]), tokens[1..])
  }

  /** Copying byte by byte, also from what was just copied, repeats the last `dist` bytes. */
  lemma CopyMatches(out: seq<byte>, dist: nat, len: nat)
    requires dist >= 1
    ensures Copy(out, dist, len) == out + Matched(out, dist, len)
  {
    CopyFrom(out, dist, len, 0);
    assert out + Matched(out, dist, 0) == out;
  }

  lemma {:induction false} CopyFrom(out: seq<byte>, dist: nat, len: nat, k: nat)
    requires dist >= 1 && k <= len
    ensures Copy(out + Matched(out, dist, k), dist, len - k) == out + Matched(out, dist, len)
    decreases len - k
  {
    if k < len {
      var cur := out + Matched(out, dist, k);
      BackMatched(out, dist, k);
      assert cur + [Back(cur, dist)] == out + Matched(out, dist, k + 1);
      CopyFrom(out, dist, len, k + 1);
    }
  }

  lemma BackMatched(out: seq<byte>, dist: nat, k: nat)
    requires dist >= 1
    ensures Back(out + Matched(out, dist, k), dist) == At(out, |out| - dist + k % dist)
  {
    if k >= dist {
      Periodic(k, dist);
    } else {
      Small(k, dist);
    }
  }

  lemma Periodic(k: nat, dist: nat)
    requires 1 <= dist <= k
    ensures (k - dist) % dist == k % dist
  {
    var q, r := (k - dist) / dist, (k - dist) % dist;
    assert k == q * dist + r + dist;
    Remainder(k, dist, q + 1, r);
  }

  lemma Remainder(k: nat, d: nat, q: nat, r: nat)
    requires r < d && k == q * d + r
    ensures k % d == r && k / d == q
  {
    DivModUnique(k, d, q, r);
  }

  lemma Small(k: nat, dist: nat)
    requires k < dist
    ensures k % dist == k
  {
  }

  // ----- symbols

  /** How many times `v` has to be halved until it is below `n`. */
  function Extra(v: nat, n: nat): nat
    requires n >= 1
  {
    if v < n then 0 else 1 + Extra(v / 2, n)
  }

  /** The greatest length has a symbol of its own; the others have eight without extra bits, then four for each number
      of extra bits. */
  function LenExtra(len: nat): nat
    requires 3 <= len <= 258
  {
    if len == 258 then 0 else Extra(len - 3, 8)
  }

  function LenSymbol(len: nat): nat
    requires 3 <= len <= 258
  {
    if len == 258 then 285 else 257 + 4 * LenExtra(len) + Shr(len - 3, LenExtra(len))
  }

  function LenBits(len: nat): nat
    requires 3 <= len <= 258
  {
    Low(len - 3, LenExtra(len))
  }

  /** Four distances without extra bits, then two symbols for each number of extra bits. */
  function DistExtra(dist: nat): nat
    requires 1 <= dist <= 32768
  {
    Extra(dist - 1, 4)
  }

  function DistSymbol(dist: nat): nat
    requires 1 <= dist <= 32768
  {
    2 * DistExtra(dist) + Shr(dist - 1, DistExtra(dist))
  }

  function DistBits(dist: nat): nat
    requires 1 <= dist <= 32768
  {
    Low(dist - 1, DistExtra(dist))
  }

  lemma {:induction false} ExtraFits(v: nat, n: nat, e: nat)
    requires 2 <= n <= 8 && n % 2 == 0 && v < n * Pow2(e)
    ensures Extra(v, n) <= e && Shr(v, Extra(v, n)) < n
    ensures Extra(v, n) > 0 ==> n / 2 <= Shr(v, Extra(v, n))
    decreases e
  {
    if v >= n {
      if e > 0 {
        Pow2Step(e);
        Twofold(n, Pow2(e - 1));
        ExtraFits(v / 2, n, e - 1);
        ShrStep(v, 1 + Extra(v / 2, n));
      }
    }
  }

  /** The tables say the same as the arithmetic. */
  lemma LenTable(len: nat)
    requires 3 <= len <= 258
    ensures var s, e := LenSymbol(len), LenExtra(len);
      257 <= s <= 285 && CPLEXT[s - 257] == e <= 5 && LenBits(len) < Pow2(e) && CPLENS[s - 257] + LenBits(len) == len
  {
    hide Extra, Shr, Low;
    if len < 258 {
      var v, e := len - 3, LenExtra(len);
      Powers();
      hide Pow2;
      ExtraFits(v, 8, 5);
      LowShrIsDivMod(v, e);
      LenRow(e, Shr(v, e));
    } else {
      LowNone(255);
      Powers();
    }
  }

  lemma LenRow(e: nat, q: nat)
    requires e <= 5 && q < 8 && (e > 0 ==> 4 <= q)
    ensures CPLEXT[4 * e + q] == e && CPLENS[4 * e + q] == 3 + q * Pow2(e)
  {
    hide *;
    TableSizes();
    PowerAt(e);
    if e > 0 { LenRows(e, q, Pow2(e)); } else { LenFirst(q); }
    Products(q, Pow2(e));
  }

  lemma TableSizes()
    ensures |CPLENS| == |CPLEXT| == 31 && |CPDIST| == |CPDEXT| == 30
  {
  }

  lemma LenFirst(q: nat)
    requires q < 8
    ensures CPLEXT[q] == 0 && CPLENS[q] == 3 + q
  {
  }

  lemma LenRows(e: nat, q: nat, z: nat)
    requires 1 <= e <= 5 && 4 <= q < 8 && z == POWERS[e]
    ensures CPLEXT[4 * e + q] == e
    ensures CPLENS[4 * e + q] == 3 + if q == 4 then 4 * z else if q == 5 then 5 * z else if q == 6 then 6 * z else 7 * z
  {
    hide *;
    TableSizes();
    PowerAt(e);
    if e <= 3 { ShortRows(e, q, z); } else { LongRows(e, q, z); }
  }

  lemma ShortRows(e: nat, q: nat, z: nat)
    requires 1 <= e <= 3 && 4 <= q < 8 && z == POWERS[e]
    ensures CPLEXT[4 * e + q] == e
    ensures CPLENS[4 * e + q] == 3 + if q == 4 then 4 * z else if q == 5 then 5 * z else if q == 6 then 6 * z else 7 * z
  {
  }

  lemma LongRows(e: nat, q: nat, z: nat)
    requires 4 <= e <= 5 && 4 <= q < 8 && z == POWERS[e]
    ensures CPLEXT[4 * e + q] == e
    ensures CPLENS[4 * e + q] == 3 + if q == 4 then 4 * z else if q == 5 then 5 * z else if q == 6 then 6 * z else 7 * z
  {
  }

  lemma Products(q: nat, z: nat)
    requires q < 8
    ensures q * z == if q == 0 then 0 else if q == 1 then z else if q == 2 then 2 * z else if q == 3 then 3 * z
                     else if q == 4 then 4 * z else if q == 5 then 5 * z else if q == 6 then 6 * z else 7 * z
  {
  }

  lemma DistTable(dist: nat)
    requires 1 <= dist <= 32768
    ensures var s, e := DistSymbol(dist), DistExtra(dist);
      s <= 29 && CPDEXT[s] == e <= 13 && DistBits(dist) < Pow2(e) && CPDIST[s] + DistBits(dist) == dist
  {
    hide Extra, Shr, Low, Pow2, CPDIST, CPDEXT;
    var v, e := dist - 1, DistExtra(dist);
    TableSizes();
    PowerAt(13);
    ExtraFits(v, 4, 13);
    LowShrIsDivMod(v, e);
    DistRow(e, Shr(v, e));
  }

  lemma DistRow(e: nat, q: nat)
    requires e <= 13 && q < 4 && (e > 0 ==> 2 <= q)
    ensures CPDEXT[2 * e + q] == e && CPDIST[2 * e + q] == 1 + q * Pow2(e)
  {
    hide *;
    TableSizes();
    PowerAt(e);
    if e > 0 { DistRows(e, q, Pow2(e)); } else { DistFirst(q); }
    Products(q, Pow2(e));
  }

  lemma DistFirst(q: nat)
    requires q < 4
    ensures CPDEXT[q] == 0 && CPDIST[q] == 1 + q
  {
  }

  lemma DistRows(e: nat, q: nat, z: nat)
    requires 1 <= e <= 13 && 2 <= q < 4 && z == POWERS[e]
    ensures CPDEXT[2 * e + q] == e && CPDIST[2 * e + q] == 1 + if q == 2 then 2 * z else 3 * z
  {
    hide *;
    TableSizes();
    PowerAt(e);
    if e <= 7 { LowRows(e, q, z); } else { HighRows(e, q, z); }
  }

  lemma LowRows(e: nat, q: nat, z: nat)
    requires 1 <= e <= 7 && 2 <= q < 4 && z == POWERS[e]
    ensures CPDEXT[2 * e + q] == e && CPDIST[2 * e + q] == 1 + if q == 2 then 2 * z else 3 * z
  {
  }

  lemma HighRows(e: nat, q: nat, z: nat)
    requires 8 <= e <= 13 && 2 <= q < 4 && z == POWERS[e]
    ensures CPDEXT[2 * e + q] == e && CPDIST[2 * e + q] == 1 + if q == 2 then 2 * z else 3 * z
  {
  }

  const POWERS: seq<nat> := [1, 2, 4, 8, 16, 32, 64, 128, 256, 512, 1024, 2048, 4096, 8192]

  lemma PowerAt(e: nat)
    requires e <= 13
    ensures |POWERS| == 14 && Pow2(e) == POWERS[e] && Pow2(0) == 1
  {
    Powers();
    hide Pow2;
  }

  lemma Powers()
    ensures Pow2(0) == 1 && Pow2(1) == 2 && Pow2(2) == 4 && Pow2(3) == 8 && Pow2(4) == 16 && Pow2(5) == 32
    ensures Pow2(6) == 64 && Pow2(7) == 128 && Pow2(8) == 256 && Pow2(9) == 512 && Pow2(10) == 1024
    ensures Pow2(11) == 2048 && Pow2(12) == 4096 && Pow2(13) == 8192
  {
  }
}
