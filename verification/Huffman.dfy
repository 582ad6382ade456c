/** Canonical Huffman codes as section 3.2.2 of RFC 1951 defines them, and their decoding from a
    bit stream.  No tables here: this is what the tables of HuftBuild are measured against. */
module Huffman {
  import opened Bits

  const BMAX: nat := 15

  /** How many of the lengths equal `len`. */
  function Count(b: seq<nat>, len: nat): nat {
    if b == [] then 0
    else Count(b[..|b| - 1], len) + if b[|b| - 1] == len then 1 else 0
  }

  /** The RFC's `bl_count`, for lengths up to BMAX. */
  function Counts(b: seq<nat>): (c: seq<nat>)
    ensures |c| == BMAX + 1
  {
    seq(BMAX + 1, len requires len >= 0 => Count(b, len))
  }

  /** The RFC's `next_code[len]` before any code is handed out. */
  function FirstCode(c: seq<nat>, len: nat): nat
    requires len <= |c|
  {
    if len <= 1 then 0 else 2 * (FirstCode(c, len - 1) + c[len - 1])
  }

  /** The code of symbol `s`, as a number with its first bit most significant. */
  function Code(b: seq<nat>, s: nat): nat
    requires s < |b| && 0 < b[s] <= BMAX
  {
    FirstCode(Counts(b), b[s]) + Count(b[..s], b[s])
  }

  /** The `q`-th symbol, in symbol order, among those of length `len`. */
  function Nth(b: seq<nat>, len: nat, q: nat): (s: nat)
    requires q < Count(b, len)
    ensures s < |b| && b[s] == len && Count(b[..s], len) == q
  {
    var last := |b| - 1;
    if b[last] == len && Count(b[..last], len) == q then last
    else
      var s := Nth(b[..last], len, q);
      assert b[..last][..s] == b[..s];
      s
  }

  function MaxLen(b: seq<nat>): (g: nat)
    ensures forall s | 0 <= s < |b| :: b[s] <= g
    ensures g > 0 ==> exists s :: 0 <= s < |b| && b[s] == g
  {
    if b == [] then 0
    else
      var g := MaxLen(b[..|b| - 1]);
      assert forall s | 0 <= s < |b| - 1 :: b[s] == b[..|b| - 1][s];
      if b[|b| - 1] > g then b[|b| - 1] else g
  }

  /** The Kraft sum in units of 2^-15. */
  function Kraft(b: seq<nat>): nat
    requires forall s | 0 <= s < |b| :: b[s] <= BMAX
  {
    if b == [] then 0
    else Kraft(b[..|b| - 1]) + if b[|b| - 1] == 0 then 0 else Pow2(BMAX - b[|b| - 1])
  }

  // ----- decoding

  /** The next `len` stream bits read as a Huffman code. */
  function Msb(inp: seq<byte>, cur: nat, len: nat): nat
    requires cur + len <= 8 * |inp|
  {
    Rev(len, Take(inp, cur, len))
  }

  datatype Decoded = Sym(sym: nat, len: nat) | NoCode | NeedMore

  /** Lengthen the candidate code bit by bit until it falls in the range of codes of its length. */
  function Scan(inp: seq<byte>, cur: nat, b: seq<nat>, len: nat): (r: Decoded)
    requires MaxLen(b) <= BMAX
    ensures r.Sym? ==> r.sym < |b| && len <= r.len <= BMAX && cur + r.len <= 8 * |inp|
    decreases BMAX + 1 - len
  {
    if len > MaxLen(b) then NoCode
    else if cur + len > 8 * |inp| then NeedMore
    else
      var rank := Msb(inp, cur, len) - FirstCode(Counts(b), len);
      if 0 <= rank < Count(b, len) then Sym(Nth(b, len, rank), len)
      else Scan(inp, cur, b, len + 1)
  }

  function Decode(inp: seq<byte>, cur: nat, b: seq<nat>): (r: Decoded)
    requires MaxLen(b) <= BMAX
    ensures r.Sym? ==> r.sym < |b| && 1 <= r.len <= BMAX && cur + r.len <= 8 * |inp|
  {
    Scan(inp, cur, b, 1)
  }

  lemma {:induction false} NthUnique(b: seq<nat>, s: nat)
    requires s < |b|
    ensures Count(b[..s], b[s]) < Count(b, b[s])
    ensures Nth(b, b[s], Count(b[..s], b[s])) == s
    decreases |b|
  {
    var last := |b| - 1;
    if s < last {
      NthUnique(b[..last], s);
      assert b[..last][..s] == b[..s];
    }
  }

  /** A stream at or above the codes of one length is above the codes of every shorter length. */
  lemma {:induction false} Above(inp: seq<byte>, cur: nat, c: seq<nat>, len: nat, shorter: nat)
    requires 1 <= shorter < len <= |c| && cur + len <= 8 * |inp|
    requires Msb(inp, cur, len) >= FirstCode(c, len)
    ensures Msb(inp, cur, shorter) >= FirstCode(c, shorter) + c[shorter]
    decreases len
  {
    RevTakeSnoc(inp, cur, len - 1);
    if shorter < len - 1 {
      Above(inp, cur, c, len - 1, shorter);
    }
  }

  lemma {:induction false} ScanFrom(inp: seq<byte>, cur: nat, b: seq<nat>, len: nat, from: nat)
    requires MaxLen(b) <= BMAX && 1 <= from <= len <= MaxLen(b) && cur + len <= 8 * |inp|
    requires Msb(inp, cur, len) >= FirstCode(Counts(b), len)
    ensures Scan(inp, cur, b, from) == Scan(inp, cur, b, len)
    decreases len - from
  {
    if from < len {
      ScanFrom(inp, cur, b, len, from + 1);
      Above(inp, cur, Counts(b), len, from);
    }
  }

  /** A code word of length `len` decodes to its symbol: no shorter code is in the way. */
  lemma DecodeHit(inp: seq<byte>, cur: nat, b: seq<nat>, len: nat, q: nat)
    requires MaxLen(b) <= BMAX && 1 <= len <= BMAX && q < Count(b, len) && cur + len <= 8 * |inp|
    requires Msb(inp, cur, len) == FirstCode(Counts(b), len) + q
    ensures Decode(inp, cur, b) == Sym(Nth(b, len, q), len)
  {
    var s := Nth(b, len, q);
    assert b[s] == len <= MaxLen(b);
    assert Scan(inp, cur, b, len) == Sym(s, len) by {
      assert Msb(inp, cur, len) - FirstCode(Counts(b), len) == q;
    }
    ScanFrom(inp, cur, b, len, 1);
  }

  /** A stream above the codes of the greatest length decodes to nothing. */
  lemma DecodeMiss(inp: seq<byte>, cur: nat, b: seq<nat>)
    requires 1 <= MaxLen(b) <= BMAX && cur + MaxLen(b) <= 8 * |inp|
    requires Msb(inp, cur, MaxLen(b)) >= FirstCode(Counts(b), MaxLen(b)) + Count(b, MaxLen(b))
    ensures Decode(inp, cur, b) == NoCode
  {
    ScanFrom(inp, cur, b, MaxLen(b), 1);
  }

  /** What `Decode` finds is exactly the symbol whose RFC code stands next in the stream. */
  lemma DecodeIsCode(inp: seq<byte>, cur: nat, b: seq<nat>, s: nat, len: nat)
    requires MaxLen(b) <= BMAX
    ensures Decode(inp, cur, b) == Sym(s, len)
        <==> s < |b| && 0 < b[s] == len && cur + len <= 8 * |inp| && Msb(inp, cur, len) == Code(b, s)
  {
    ScanSound(inp, cur, b, 1);
    if s < |b| && 0 < b[s] == len && cur + len <= 8 * |inp| && Msb(inp, cur, len) == Code(b, s) {
      NthUnique(b, s);
      DecodeHit(inp, cur, b, len, Count(b[..s], len));
    }
  }

  lemma {:induction false} ScanSound(inp: seq<byte>, cur: nat, b: seq<nat>, from: nat)
    requires MaxLen(b) <= BMAX && from >= 1
    ensures var r := Scan(inp, cur, b, from);
      r.Sym? ==> r.sym < |b| && 0 < b[r.sym] == r.len && cur + r.len <= 8 * |inp|
                 && Msb(inp, cur, r.len) == Code(b, r.sym)
    decreases BMAX + 1 - from
  {
    if from <= MaxLen(b) && cur + from <= 8 * |inp| {
      var rank := Msb(inp, cur, from) - FirstCode(Counts(b), from);
      if !(0 <= rank < Count(b, from)) {
        ScanSound(inp, cur, b, from + 1);
      }
    }
  }

  // ----- the code space

  /** Where the codes of length up to `len` end, in the space of all `g`-bit words. */
  function End(c: seq<nat>, g: nat, len: nat): nat
    requires len <= g && len < |c|
  {
    if len == 0 then 0 else End(c, g, len - 1) + c[len] * Pow2(g - len)
  }

  lemma {:induction false} FirstCodeEnd(c: seq<nat>, g: nat, len: nat)
    requires 1 <= len <= g < |c|
    ensures FirstCode(c, len) * Pow2(g - len) == End(c, g, len - 1)
  {
    if len > 1 {
      FirstCodeEnd(c, g, len - 1);
      var z := Pow2(g - len);
      assert Pow2(g - (len - 1)) == 2 * z;
      Doubled(FirstCode(c, len - 1), c[len - 1], z);
    }
  }

  lemma Doubled(f: nat, n: nat, z: nat)
    ensures 2 * (f + n) * z == f * (2 * z) + n * (2 * z)
  {
  }

  lemma {:induction false} EndMono(c: seq<nat>, g: nat, a: nat, b: nat)
    requires a <= b <= g < |c|
    ensures End(c, g, a) <= End(c, g, b)
    decreases b
  {
    if a < b { EndMono(c, g, a, b - 1); }
  }

  lemma {:induction false} EndScale(c: seq<nat>, g: nat, len: nat)
    requires len <= g <= BMAX < |c|
    ensures End(c, BMAX, len) == End(c, g, len) * Pow2(BMAX - g)
  {
    if len > 0 {
      EndScale(c, g, len - 1);
      Pow2Add(g - len, BMAX - g);
      Distribute(c[len], Pow2(g - len), End(c, g, len - 1), Pow2(BMAX - g));
    }
  }

  lemma {:induction false} EndFlat(c: seq<nat>, g: nat, len: nat)
    requires g <= len <= BMAX < |c|
    requires forall k | g < k <= BMAX :: c[k] == 0
    ensures End(c, BMAX, len) == End(c, BMAX, g)
    decreases len
  {
    if len > g { EndFlat(c, g, len - 1); }
  }

  lemma {:induction false} EndSame(c: seq<nat>, c': seq<nat>, g: nat, len: nat)
    requires len <= g && len < |c| && len < |c'|
    requires forall k | 1 <= k <= len :: c[k] == c'[k]
    ensures End(c, g, len) == End(c', g, len)
  {
    if len > 0 { EndSame(c, c', g, len - 1); }
  }

  lemma {:induction false} FirstCodeSame(c: seq<nat>, c': seq<nat>, len: nat)
    requires len <= |c| && len <= |c'|
    requires forall k | 1 <= k < len :: c[k] == c'[k]
    ensures FirstCode(c, len) == FirstCode(c', len)
  {
    if len > 1 { FirstCodeSame(c, c', len - 1); }
  }

  lemma {:induction false} CountAbsent(b: seq<nat>, len: nat)
    requires forall s | 0 <= s < |b| :: b[s] != len
    ensures Count(b, len) == 0
  {
    if b != [] { CountAbsent(b[..|b| - 1], len); }
  }

  lemma {:induction false} CountPresent(b: seq<nat>, s: nat)
    requires s < |b|
    ensures Count(b, b[s]) > 0
  {
    NthUnique(b, s);
  }

  /** The symbol-by-symbol Kraft sum is where the codes of all lengths end. */
  lemma {:induction false} KraftIsEnd(b: seq<nat>)
    requires forall s | 0 <= s < |b| :: b[s] <= BMAX
    ensures Kraft(b) == End(Counts(b), BMAX, BMAX)
  {
    if b == [] {
      EndEmpty(Counts(b), BMAX);
    } else {
      KraftIsEnd(b[..|b| - 1]);
      EndBump(b, BMAX);
    }
  }

  lemma {:induction false} EndEmpty(c: seq<nat>, len: nat)
    requires len <= BMAX < |c| && forall k | 0 <= k < |c| :: c[k] == 0
    ensures End(c, BMAX, len) == 0
  {
    if len > 0 { EndEmpty(c, len - 1); }
  }

  lemma {:induction false} EndBump(b: seq<nat>, len: nat)
    requires b != [] && len <= BMAX
    ensures var last := b[|b| - 1];
      End(Counts(b), BMAX, len) == End(Counts(b[..|b| - 1]), BMAX, len)
        + if 1 <= last <= len then Pow2(BMAX - last) else 0
  {
    if len > 0 {
      EndBump(b, len - 1);
      var c, c' := Counts(b), Counts(b[..|b| - 1]);
      if b[|b| - 1] == len { Scale(c'[len], c[len], Pow2(BMAX - len)); }
    }
  }
}
