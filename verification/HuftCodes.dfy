/** The small loops of huft_build: the next code, the size of a table, filling one entry in. */
module HuftCodes {
  import opened Bits
  import opened Huffman
  import opened HuftTables
  import opened HuftGrow

  /** `i & j`, for a `j` of at most one bit */
  predicate Has(i: nat, j: nat) {
    j != 0 && (i / j) % 2 == 1
  }

  ghost function Mark(t: int): nat { if t >= 0 then Pow2(t) else 0 }

  /** Clearing bit `t` and carrying to the bit below it leaves the reversed value plus carry alone. */
  lemma Carry(k: nat, t: int, i: nat)
    requires -1 <= t < k
    ensures Has(i, Mark(t)) ==> t >= 0 && i >= Mark(t) && Mark(t) / 2 == Mark(t - 1)
    ensures Has(i, Mark(t)) ==> Rev(k, i - Mark(t)) + Pow2(k - 1 - (t - 1)) == Rev(k, i) + Pow2(k - 1 - t)
    ensures !Has(i, Mark(t)) && t >= 0 ==> Rev(k, i + Mark(t)) == Rev(k, i) + Pow2(k - 1 - t)
    ensures !Has(i, Mark(t)) && t >= 0 && i < Pow2(k) ==> i + Mark(t) < Pow2(k)
  {
    if t >= 0 {
      LowIsMod(i, t);
      if Has(i, Mark(t)) { RevClearBit(k, t, i); } else { RevSetBit(k, t, i); }
    }
  }

  /** Adds one to a k-bit code kept with its first bit lowest. */
  method NextCode(i: nat, k: nat) returns (i': nat)
    requires 1 <= k && i < Pow2(k)
    ensures i' < Pow2(k)
    ensures Rev(k, i) + 1 < Pow2(k) ==> Rev(k, i') == Rev(k, i) + 1
    ensures Rev(k, i) + 1 == Pow2(k) ==> i' == 0
  {
    i' := i;
    var j := Pow2(k - 1);
    ghost var t: int := k - 1;
    while Has(i', j)
      invariant -1 <= t < k && j == Mark(t)
      invariant i' <= i && Rev(k, i') + Pow2(k - 1 - t) == Rev(k, i) + 1
      decreases t
    {
      Carry(k, t, i');
      i' := i' - j;
      j := j / 2;
      t := t - 1;
    }
    Carry(k, t, i');
    RevBound(k, i);
    i' := i' + j;
    RevBound(k, i');
    if t < 0 {
      RevZero(k);
      RevInjective(k, i', 0);
    }
  }

  /** The smallest table, `w` bits into a code of length `k`, that holds all codes from this one to
      the end of its subtree; `a` more codes of length `k` are to come. */
  method FitTable(ghost x: Plan, ghost q: nat, ghost i: nat, ghost at: nat, c: seq<nat>, g: nat, l: nat,
                  k: nat, a: nat, w: nat) returns (j: nat)
    requires At(x, i, k, q, at) && c == x.c && g == x.g && l == x.l && a + 1 + q == c[k]
    requires w < k && i < Pow2(w)
    ensures 1 <= j && w + j <= g
    ensures l <= j || End(c, g, w + j) >= at + Pow2(g - w)
    ensures End(c, g, w + j - 1) < at + Pow2(g - w) <= Pow2(g)
    ensures j > l <==> k - w > l
    ensures j > l ==> j == k - w
  {
    hide Pow2, MaxLen, End;
    SubtreeFacts(x, i, k, q, at, w);
    var z := if g - w > l then l else g - w;
    j := k - w;
    var f := Pow2(j);
    SpaceLeft(x, i, k, q, at, a, f);
    hide Pow2, End, At, Plan.Valid;
    if f > a + 1 {
      f := f - (a + 1);
      if j < z {
        j := FitLonger(c, g, w, j, z, f);
      }
    }
  }

  /** The subtree `w` bits deep that starts with this code. */
  lemma SubtreeFacts(x: Plan, i: nat, k: nat, q: nat, at: nat, w: nat)
    requires At(x, i, k, q, at) && w < k && i < Pow2(w)
    ensures 1 <= x.l <= x.g < |x.c| && k <= x.g && q < x.c[k]
    ensures Pow2(k - w) * Pow2(x.g - k) == Pow2(x.g - w)
    ensures End(x.c, x.g, k - 1) <= at && at + Pow2(x.g - w) <= Pow2(x.g) && 1 <= Pow2(x.g - w)
  {
    hide Pow2, End, Rev;
    Pow2Add(k - w, x.g - k);
    SubtreeRoom(x.g, w, i);
    NotNegative(q, Pow2(x.g - k));
  }

  lemma SubtreeRoom(g: nat, w: nat, i: nat)
    requires w <= g && i < Pow2(w)
    ensures Rev(g, i) + Pow2(g - w) <= Pow2(g)
  {
    Pow2Mono(w, g);
    RevInterval(g, w, i, i);
  }

  lemma NotNegative(q: nat, z: nat)
    ensures q * z >= 0
  {
  }

  /** The part of FitTable that tries one more index bit at a time, up to `z`; `f0` words of `j0` bits
      are not yet spoken for. */
  method FitLonger(c: seq<nat>, g: nat, w: nat, j0: nat, z: nat, f0: nat) returns (j: nat)
    requires 1 <= j0 < z && w + z <= g < |c| && f0 >= 1
    ensures j0 < j <= z
    ensures j < z ==> End(c, g, w + j) >= End(c, g, w + j0) + f0 * Pow2(g - (w + j0))
    ensures End(c, g, w + j - 1) < End(c, g, w + j0) + f0 * Pow2(g - (w + j0))
  {
    var f := f0;
    j := j0 + 1;
    while j < z
      invariant j0 < j <= z && f >= 1
      invariant End(c, g, w + j - 1) + f * Pow2(g - (w + j - 1)) == End(c, g, w + j0) + f0 * Pow2(g - (w + j0))
      decreases z - j
    {
      TighterSpace(c, g, w + j, f);
      f := 2 * f;
      if f <= c[w + j] {
        break;
      }
      f := f - c[w + j];
      j := j + 1;
    }
  }

  lemma TighterSpace(c: seq<nat>, g: nat, n: nat, f: nat)
    requires 1 <= n <= g < |c|
    ensures 2 * f <= c[n] ==> End(c, g, n) >= End(c, g, n - 1) + f * Pow2(g - (n - 1))
    ensures 2 * f > c[n] ==>
      End(c, g, n) + (2 * f - c[n]) * Pow2(g - n) == End(c, g, n - 1) + f * Pow2(g - (n - 1))
  {
    var z := Pow2(g - n);
    assert Pow2(g - (n - 1)) == 2 * z;
    Doubled(f, 0, z);
    if 2 * f <= c[n] { Scale(2 * f, c[n], z); } else { Minus(2 * f, c[n], z); }
  }

  lemma SpaceLeft(x: Plan, i: nat, k: nat, q: nat, at: nat, a: nat, f: nat)
    requires At(x, i, k, q, at) && a + 1 + q == x.c[k]
    ensures End(x.c, x.g, k) == at + (a + 1) * Pow2(x.g - k)
    ensures f <= a + 1 ==> f * Pow2(x.g - k) <= (a + 1) * Pow2(x.g - k)
    ensures f > a + 1 ==> End(x.c, x.g, k) + (f - (a + 1)) * Pow2(x.g - k) == at + f * Pow2(x.g - k)
  {
    SplitSum(a, q, f, Pow2(x.g - k));
  }

  lemma SplitSum(a: nat, q: nat, f: nat, z: nat)
    ensures (a + 1 + q) * z == (a + 1) * z + q * z
    ensures f <= a + 1 ==> f * z <= (a + 1) * z
    ensures f > a + 1 ==> (a + 1) * z + (f - (a + 1)) * z == f * z
  {
    Distribute(1, a + 1, q, z);
    if f <= a + 1 { Scale(f, a + 1, z); } else { Minus(f, a + 1, z); }
  }

  /** Writes `r` to every `f`-th entry of a table of `z`, from `start`. */
  method FillEntries(hp: array<Huft>, base: nat, start: nat, z: nat, f: nat, r: Huft)
    requires start < f && base + z <= hp.Length
    modifies hp
    ensures forall a | 0 <= a < hp.Length ::
      hp[a] == if base <= a < base + z && (a - base) % f == start then r else old(hp[a])
  {
    var j := start;
    ghost var m := 0;
    ModStep(start, f, 0);
    while j < z
      invariant j == start + m * f
      invariant forall a | 0 <= a < hp.Length ::
        hp[a] == if base <= a < base + z && a - base < j && (a - base) % f == start then r else old(hp[a])
      decreases z - j
    {
      hp[base + j] := r;
      ModStep(start, f, m);
      j := j + f;
      m := m + 1;
      assert m * f == (m - 1) * f + f;
    }
  }

  lemma ModStep(start: nat, f: nat, m: nat)
    requires start < f
    ensures forall idx: nat | start + m * f <= idx < start + m * f + f :: idx % f == start <==> idx == start + m * f
    ensures forall idx: nat | idx < start :: idx % f != start
  {
    forall idx: nat | start + m * f <= idx < start + m * f + f
      ensures idx % f == start <==> idx == start + m * f
    {
      if idx - m * f < f {
        DivModUnique(idx, f, m, idx - m * f);
      } else {
        assert (m + 1) * f == m * f + f;
        DivModUnique(idx, f, m + 1, idx - m * f - f);
      }
    }
    forall idx: nat | idx < start ensures idx % f != start {
      DivModUnique(idx, f, 0, idx);
    }
  }
}
