/** Table space: for every code set the decoder accepts, MANY entries are enough. */
module HuftRoom {
  import opened Bits
  import opened Huffman
  import opened HuftTables
  import opened HuftLengths
  import opened HuftSpace
  import opened HuftBuild
  import opened HuftNarrow
  import opened Reference

  /** What the literal/length tables and the distance tables take at most. */
  const LITROOM: nat := 1148
  const DISTROOM: nat := 226

  lemma {:induction false} BeforeIsOff(b: seq<nat>, c: seq<nat>, k: nat)
    requires k <= |c| && forall len | 1 <= len < k :: c[len] == Count(b, len)
    ensures Before(c, k) == Off(b, k)
  {
    if k > 1 { BeforeIsOff(b, c, k - 1); }
  }

  /** There are as many code words as symbols, or two. */
  lemma WordCount(al: Alphabet, l: nat, n: nat)
    requires LengthsOK(al.b) && 1 <= MaxLen(al.b) && Acceptable(al.b) && |al.b| <= n && 2 <= n
    ensures var x := PlanOf(al, l); x.g < |x.c| && Before(x.c, x.g + 1) <= n
  {
    hide Count, MaxLen, Kraft, Pow2, End, Off;
    KraftDecides(al.b);
    var x := PlanOf(al, l);
    if Kraft(al.b) == Pow2(BMAX) {
      FullCounts(al, l);
      BeforeIsOff(al.b, x.c, x.g + 1);
      OffBound(al.b, x.g + 1);
    } else {
      OneBitWords(al, l);
    }
  }

  lemma OneBitWords(al: Alphabet, l: nat)
    requires MaxLen(al.b) == 1
    requires End(Counts(al.b), 1, 1) < Pow2(1)
    ensures var x := PlanOf(al, l); x.g == 1 && |x.c| == BMAX + 1 && Before(x.c, 2) == 2
  {
    var c := Counts(al.b);
    assert End(c, 1, 1) == End(c, 1, 0) + c[1] * Pow2(0);
    assert Pow2(0) == 1 && Pow2(1) == 2;
  }

  lemma {:induction false} NoLoad(tabs: seq<Tab>, v: nat)
    requires forall t | 0 <= t < |tabs| :: tabs[t].lvl != v
    ensures Load(tabs, v) == 0
  {
    if tabs != [] { NoLoad(tabs[..|tabs| - 1], v); }
  }

  /** The tables of one level, none of more than `m` index bits. */
  lemma LevelRoom(x: Plan, tabs: seq<Tab>, v: nat, m: nat, n: nat)
    requires x.Valid() && Packed(x, tabs) && Before(x.c, x.g + 1) <= n
    requires forall t | 0 <= t < |tabs| && tabs[t].lvl == v :: tabs[t].j <= m
    ensures Load(tabs, v) <= n + Pow2(m)
  {
    LevelBound(x, tabs, v, m);
  }

  /** How far the levels go. */
  lemma Levels(x: Plan, t: Tab)
    requires Tight(x, t) && x.Valid() && t.j <= x.l
    ensures x.l == x.g ==> t.lvl == 0
    ensures t.lvl >= 1 ==> t.j <= x.g - x.l
    ensures t.lvl >= 2 ==> t.j <= x.g - 2 * x.l
    ensures x.l >= 6 ==> t.lvl <= 2
    ensures x.l >= 8 ==> t.lvl <= 1
  {
    if t.lvl >= 1 { HuftFill.WidthMono(1, t.lvl, x.l); }
    if t.lvl >= 2 { HuftFill.WidthMono(2, t.lvl, x.l); }
    if t.lvl >= 3 { HuftFill.WidthMono(3, t.lvl, x.l); }
  }

  /** All codes of at least `l` bits: it takes that many to fill the space. */
  lemma {:induction false} KraftLong(b: seq<nat>, l: nat)
    requires LengthsOK(b) && 1 <= l <= BMAX && forall i | 0 <= i < |b| && b[i] > 0 :: l <= b[i]
    ensures Kraft(b) <= |b| * Pow2(BMAX - l)
  {
    if b != [] {
      KraftLong(b[..|b| - 1], l);
      Scale(|b| - 1, |b|, Pow2(BMAX - l));
      if b[|b| - 1] > 0 { Pow2Mono(BMAX - b[|b| - 1], BMAX - l); }
    }
  }

  /** The index is never wider than asked for. */
  lemma WidthAsked(b: seq<nat>, m: nat, l: nat)
    requires LengthsOK(b) && 1 <= MaxLen(b) && Acceptable(b) && IsIndexWidth(b, m, l) && 1 <= m
    requires |b| < Pow2(m + 1)
    ensures 1 <= l <= m && l <= MaxLen(b) && (l == m || l == MaxLen(b))
  {
    hide Kraft, MaxLen, Pow2;
    WidthBetween(b, m, l);
    if l > m {
      KraftLong(b, l);
      Pow2Mono(m + 1, l);
      Pow2Add(l, BMAX - l);
      if |b| < Pow2(l) {
        Scale(|b| + 1, Pow2(l), Pow2(BMAX - l));
        Scale(|b|, |b|, Pow2(BMAX - l));
      }
    }
  }

  lemma WidthBetween(b: seq<nat>, m: nat, l: nat)
    requires LengthsOK(b) && IsIndexWidth(b, m, l) && m >= 1
    ensures 1 <= l <= MaxLen(b) <= BMAX && (l >= m || l == MaxLen(b))
    ensures l <= m || (l > 1 && forall s | 0 <= s < |b| && b[s] > 0 :: l <= b[s])
  {
  }

  /** Tables in the index widths the decoder asks for. */
  ghost predicate Narrowed(x: Plan, tabs: seq<Tab>, lo: nat, hn: nat, m: nat, n: nat) {
    && x.Valid() && Space(x, tabs, lo, hn) && !x.Wide() && Before(x.c, x.g + 1) <= n
    && x.l <= m && (x.l == m || x.l == x.g)
  }

  lemma LitRoom(x: Plan, tabs: seq<Tab>, lo: nat, hn: nat)
    requires Narrowed(x, tabs, lo, hn, 9, 286)
    ensures hn <= lo + LITROOM
  {
    hide Plan.Wide, PackedAt, Tight, Before;
    assert Pow2(9) == 512 && Pow2(6) == 64;
    hide Pow2;
    forall t | 0 <= t < |tabs|
      ensures tabs[t].lvl <= 1 && tabs[t].j <= 9 && (tabs[t].lvl == 1 ==> tabs[t].j <= 6)
    {
      Levels(x, tabs[t]);
    }
    LevelRoom(x, tabs, 0, 9, 286);
    LevelRoom(x, tabs, 1, 6, 286);
    NoLoad(tabs, 2);
    SumOfLevels(tabs);
  }

  lemma DistRoom(x: Plan, tabs: seq<Tab>, lo: nat, hn: nat)
    requires Narrowed(x, tabs, lo, hn, 6, 30)
    ensures hn <= lo + DISTROOM
  {
    hide Plan.Wide, PackedAt, Tight, Before;
    assert Pow2(6) == 64 && Pow2(3) == 8;
    hide Pow2;
    forall t | 0 <= t < |tabs|
      ensures tabs[t].lvl <= 2 && tabs[t].j <= 6 && (tabs[t].lvl == 2 ==> tabs[t].j <= 3)
    {
      Levels(x, tabs[t]);
    }
    LevelRoom(x, tabs, 0, 6, 30);
    LevelRoom(x, tabs, 1, 6, 30);
    LevelRoom(x, tabs, 2, 3, 30);
    SumOfLevels(tabs);
  }
}
