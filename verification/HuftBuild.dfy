/** huft_build: decoding tables from code lengths. */
module HuftBuild {
  import opened Bits
  import opened Status
  import opened Huffman
  import opened HuftTables
  import opened HuftGrow
  import opened HuftFill
  import opened HuftCodes
  import opened HuftLengths
  import opened HuftSpace

  /** Room for decoding tables, shared by the trees of a block. */
  const MANY: nat := 1440

  /** The local variables of huft_build's main loop: level, bits before the current table, its size
      and address, the table and code stacks, entries used, current code, next value, entry under
      construction. */
  datatype Locals = Locals(h: int, w: int, z: nat, q: nat, u: seq<nat>, x: seq<nat>, hn: nat,
                           i: nat, p: nat, r: Huft)

  /** The bits that `open` tables of full width take. */
  ghost function Reach(x: Plan, open: nat): nat { open * x.l }

  lemma ReachNext(x: Plan, open: nat)
    ensures Reach(x, open + 1) == Reach(x, open) + x.l && Reach(x, 0) == 0
  {
  }

  /** The locals agree with the open tables. */
  ghost predicate Tracks(x: Plan, bd: Build, lc: Locals) {
    && |lc.u| == BMAX && |lc.x| == BMAX + 1
    && lc.h == |bd.st| - 1 && lc.w + x.l == Reach(x, |bd.st|) && |bd.st| <= BMAX
    && forall v | 0 <= v < |bd.st| ::
         bd.st[v] < |bd.tabs| && lc.u[v] == bd.tabs[bd.st[v]].base && lc.x[v] == bd.tabs[bd.st[v]].pre
  }

  ghost predicate RootOK(x: Plan, bd: Build, lo: nat) {
    && (bd.st == [] <==> bd.tabs == []) && (bd.st != [] ==> bd.st[0] == 0)
    && (bd.tabs != [] ==> bd.tabs[0].base == lo && bd.tabs[0].lvl == 0 && bd.tabs[0].pre == 0 && bd.tabs[0].j == x.l)
  }

  /** No table starts after `at`. */
  ghost predicate Started(x: Plan, tabs: seq<Tab>, at: nat) {
    forall t | 0 <= t < |tabs| :: Lo(x, tabs[t]) <= at
  }

  /** An open table too big for its link is only there for codes longer than it can take. */
  ghost predicate WideOpen(x: Plan, bd: Build, k: nat) {
    forall v | 0 <= v < |bd.st| ::
      bd.st[v] < |bd.tabs| && (bd.tabs[bd.st[v]].j > x.l ==> Reach(x, v + 1) < k)
  }

  ghost predicate HasWide(x: Plan, tabs: seq<Tab>) {
    exists t :: 0 <= t < |tabs| && tabs[t].j > x.l
  }

  ghost predicate Fits(x: Plan, tabs: seq<Tab>) {
    forall t | 0 <= t < |tabs| :: Width(x, tabs[t]) + tabs[t].j <= x.g
  }

  /** What the bookkeeping says of the tables when the code at `at` is about to be put in. */
  ghost predicate Book(x: Plan, bd: Build, lo: nat, i: nat, k: nat, at: nat) {
    && x.Valid() && Fits(x, bd.tabs) && RootOK(x, bd, lo) && i < Pow2(Reach(x, |bd.st|))
    && Started(x, bd.tabs, at) && WideOpen(x, bd, k)
    && (bd.st != [] ==>
          var top := bd.tabs[bd.Top()];
          top.lvl == |bd.st| - 1 && top.pre == Low(i, Width(x, top)) && Ample(x, top) && Width(x, top) < k)
  }

  /** Between tables: the code at `at` is about to be put in. */
  ghost predicate Opening(x: Plan, hp0: seq<Huft>, hp: seq<Huft>, bd: Build, lo: nat, hn: nat,
                          i: nat, k: nat, q: nat, at: nat)
  {
    && bd.Valid(x, hp0, hp, lo, hn, at) && At(x, i, k, q, at) && Book(x, bd, lo, i, k, at)
    && (bd.st != [] ==> Fresh(x, bd.tabs, bd.cells, at, bd.Top()))
  }

  /** One more table: what is kept of the bookkeeping. */
  lemma OpenedBook(x: Plan, bd: Build, lo: nat, hn: nat, i: nat, k: nat, q: nat, at: nat, j: nat)
    requires Book(x, bd, lo, i, k, at) && At(x, i, k, q, at)
    requires Reach(x, |bd.st|) < k && 1 <= j && Reach(x, |bd.st|) + j <= x.g
    requires x.l <= j || End(x.c, x.g, Reach(x, |bd.st|) + j) >= at + Pow2(x.g - Reach(x, |bd.st|))
    requires j > x.l ==> Reach(x, |bd.st| + 1) < k
    requires bd.st == [] ==> lo == hn && j <= x.l
    ensures Book(x, Opened(x, bd, hn, i, j), lo, i, k, at)
  {
    hide Pow2, Plan.Valid, WideOpen;
    var bd' := Opened(x, bd, hn, i, j);
    var nt := NewTab(bd, hn, i, j);
    assert bd'.Top() == |bd.tabs| && bd'.tabs[bd'.Top()] == nt;
    WidthReach(x, nt);
    TopAmple(x, nt, i, at, Reach(x, |bd.st|));
    NextWidth(|bd.st|, x.l);
    Pow2Mono(Reach(x, |bd.st|), Reach(x, |bd.st| + 1));
    if bd.st == [] { RootFull(x, nt, i); }
    OpenedWide(x, bd, hn, i, k, j);
  }

  lemma OpenedWide(x: Plan, bd: Build, hn: nat, i: nat, k: nat, j: nat)
    requires WideOpen(x, bd, k) && (j > x.l ==> Reach(x, |bd.st| + 1) < k)
    ensures WideOpen(x, Opened(x, bd, hn, i, j), k)
  {
    var bd' := Opened(x, bd, hn, i, j);
    forall v | 0 <= v < |bd'.st|
      ensures bd'.st[v] < |bd'.tabs| && (bd'.tabs[bd'.st[v]].j > x.l ==> Reach(x, v + 1) < k)
    {
      if v < |bd.st| { assert bd'.tabs[bd.st[v]] == bd.tabs[bd.st[v]]; }
    }
  }

  lemma WidthReach(x: Plan, t: Tab)
    ensures Width(x, t) == Reach(x, t.lvl)
  {
  }

  lemma TopAmple(x: Plan, nt: Tab, i: nat, at: nat, w: nat)
    requires x.Valid() && nt.pre == i < Pow2(w) && w == Width(x, nt) && w + nt.j <= x.g && at == Rev(x.g, i)
    requires x.l <= nt.j || End(x.c, x.g, w + nt.j) >= at + Pow2(x.g - w)
    ensures nt.pre == Low(i, w) && Ample(x, nt)
  {
    hide Pow2, End, Rev, Low, Width;
    LowBound(i, w);
  }

  /** The first table is of full width: shorter ones end before the longest codes. */
  lemma RootFull(x: Plan, t: Tab, i: nat)
    requires x.Valid() && t.lvl == 0 && t.pre == i == 0 && 1 <= t.j <= x.l && Ample(x, t)
    ensures t.j == x.l
  {
    RevZero(x.g);
    if t.j < x.l {
      EndMono(x.c, x.g, t.j, x.g - 1);
      Scale(1, x.c[x.g], Pow2(0));
    }
  }

  lemma OpenStep(x: Plan, hp0: seq<Huft>, hp: seq<Huft>, bd: Build, lo: nat, hn: nat,
                 i: nat, k: nat, q: nat, at: nat, j: nat)
    requires Opening(x, hp0, hp, bd, lo, hn, i, k, q, at)
    requires Reach(x, |bd.st|) < k && 1 <= j && Reach(x, |bd.st|) + j <= x.g && hn + Pow2(j) <= |hp|
    requires x.l <= j || End(x.c, x.g, Reach(x, |bd.st|) + j) >= at + Pow2(x.g - Reach(x, |bd.st|))
    requires j > x.l ==> Reach(x, |bd.st| + 1) < k
    requires bd.st == [] ==> lo == hn && j <= x.l
    ensures LinkFree(x, bd, i, hn)
    ensures Opening(x, hp0, OpenedMem(x, bd, hp, hn, i, j), Opened(x, bd, hn, i, j), lo, hn + Pow2(j), i, k, q, at)
    ensures WritesOnce(hp, bd.cells, OpenedMem(x, bd, hp, hn, i, j), Opened(x, bd, hn, i, j).cells)
  {
    OpenValid(x, hp0, hp, bd, lo, hn, i, k, q, at, j);
    OpenOnce(x, hp, bd, hn, i, j);
    OpenedBook(x, bd, lo, hn, i, k, q, at, j);
  }

  lemma OpenTracks(x: Plan, bd: Build, lc: Locals, i: nat, j: nat, k: nat, lc': Locals)
    requires x.Valid() && Tracks(x, bd, lc) && Reach(x, |bd.st|) < k <= BMAX
    requires |bd.st| < BMAX && i >= 0 && lc'.h == lc.h + 1 && lc'.w == lc.w + x.l && lc'.u == lc.u[lc'.h := lc.hn]
    requires lc'.x == if lc'.h != 0 then lc.x[lc'.h := i] else lc.x
    requires lc'.h == 0 ==> lc.x[0] == i
    ensures Tracks(x, Opened(x, bd, lc.hn, i, j), lc')
  {
    hide Plan.Valid, Reach, Opened, Pow2;
    ReachNext(x, |bd.st|);
    OpenedStacks(x, bd, lc.hn, i, j);
    TracksIf(x, bd, Opened(x, bd, lc.hn, i, j), lc, lc', Tab(lc.hn, |bd.st|, i, j));
  }

  lemma OpenedStacks(x: Plan, bd: Build, hn: nat, i: nat, j: nat)
    ensures var bd' := Opened(x, bd, hn, i, j);
      bd'.st == bd.st + [|bd.tabs|] && bd'.tabs == bd.tabs + [Tab(hn, |bd.st|, i, j)]
  {
  }

  lemma TracksIf(x: Plan, bd: Build, bd': Build, lc: Locals, lc': Locals, nt: Tab)
    requires Tracks(x, bd, lc) && bd'.st == bd.st + [|bd.tabs|] && bd'.tabs == bd.tabs + [nt] && |bd.st| < BMAX
    requires Reach(x, |bd.st| + 1) == Reach(x, |bd.st|) + x.l
    requires lc'.h == lc.h + 1 && lc'.w == lc.w + x.l && lc'.u == lc.u[lc'.h := nt.base]
    requires lc'.x == (if lc'.h != 0 then lc.x[lc'.h := nt.pre] else lc.x) && (lc'.h == 0 ==> lc.x[0] == nt.pre)
    ensures Tracks(x, bd', lc')
  {
    hide Reach;
    forall v | 0 <= v < |bd'.st|
      ensures bd'.st[v] < |bd'.tabs| && lc'.u[v] == bd'.tabs[bd'.st[v]].base && lc'.x[v] == bd'.tabs[bd'.st[v]].pre
    {
      if v < |bd.st| { assert bd'.tabs[bd.st[v]] == bd.tabs[bd.st[v]]; }
    }
  }

  lemma Levels(n: nat, l: nat)
    requires l >= 1
    ensures n <= n * l
  {
    WidthMono(1, l, n);
  }

  ghost predicate TopLevel(bd: Build) {
    bd.st != [] ==> bd.Top() < |bd.tabs| && bd.tabs[bd.Top()].lvl == |bd.st| - 1
  }

  /** What OpenLevel needs to know of the state it starts from. */
  lemma OpeningFacts(x: Plan, hp0: seq<Huft>, hp: seq<Huft>, bd: Build, lo: nat, hn: nat,
                     i: nat, k: nat, q: nat, at: nat)
    requires Opening(x, hp0, hp, bd, lo, hn, i, k, q, at)
    ensures At(x, i, k, q, at) && x.Valid() && i < Pow2(Reach(x, |bd.st|)) && k <= x.g <= BMAX
    ensures TopLevel(bd) && |hp| == |bd.cells|
  {
    hide Fresh, Started, Done, Spare, Chain, Closed, Shape;
  }

  lemma PlanWidth(x: Plan)
    requires x.Valid()
    ensures 1 <= x.l <= x.g <= BMAX < |x.c|
  {
  }

  lemma TracksFacts(x: Plan, bd: Build, i: nat, lc: Locals, k: nat)
    requires Tracks(x, bd, lc) && Reach(x, |bd.st|) < k <= BMAX && x.l >= 1
    requires TopLevel(bd)
    ensures |lc.u| == BMAX && |lc.x| == BMAX + 1 && lc.h == |bd.st| - 1 && |bd.st| < BMAX
    ensures (lc.h + 1) * x.l == lc.w + x.l == Reach(x, |bd.st|)
    ensures bd.st != [] ==> x.l <= Reach(x, |bd.st|) && LinkCell(x, bd, i) == lc.u[lc.h] + Shr(i, lc.w)
    ensures Reach(x, |bd.st| + 1) == Reach(x, |bd.st|) + x.l
  {
    NextWidth(|bd.st|, x.l);
    Levels(|bd.st|, x.l);
    if bd.st != [] { WidthMono(1, |bd.st|, x.l); NextWidth(lc.h, x.l); }
  }

  /** The room taken with one more table. */
  lemma LevelSpace(x: Plan, hp0: seq<Huft>, hp: seq<Huft>, bd: Build, lo: nat, hn: nat,
                   i: nat, k: nat, q: nat, at: nat, w: nat, nt: Tab)
    requires Opening(x, hp0, hp, bd, lo, hn, i, k, q, at) && Space(x, bd.tabs, lo, hn)
    requires nt == NewTab(bd, hn, i, nt.j) && w == Width(x, nt) < k && 1 <= nt.j && w + nt.j <= x.g
    requires bd.st == [] ==> k <= x.l
    requires End(x.c, x.g, w + nt.j - 1) < at + Pow2(x.g - w) <= Pow2(x.g)
    requires nt.j > x.l ==> k - w > x.l
    ensures Space(x, bd.tabs + [nt], lo, hn + Pow2(nt.j))
  {
    hide Space, Plan.Wide, Opening, At;
    LevelFacts(x, hp0, hp, bd, lo, hn, i, k, q, at);
    if nt.j > x.l { WideNow(x, i, k, q, at, |bd.st|) by { NextWidth(|bd.st|, x.l); } }
    hide Pow2, Rev;
    SpaceOpen(x, bd.tabs, lo, hn, nt, k, q, at) by { assert Tight(x, nt); }
  }

  lemma LevelFacts(x: Plan, hp0: seq<Huft>, hp: seq<Huft>, bd: Build, lo: nat, hn: nat,
                   i: nat, k: nat, q: nat, at: nat)
    requires Opening(x, hp0, hp, bd, lo, hn, i, k, q, at)
    ensures At(x, i, k, q, at) && Begins(x, k, q, at) && Rev(x.g, i) == at && i < Pow2(Reach(x, |bd.st|))
    ensures forall t | 0 <= t < |bd.tabs| && bd.tabs[t].lvl == |bd.st| :: Hi(x, bd.tabs[t]) <= at
    ensures 1 <= x.l <= x.g < |x.c|
  {
    hide Done, Spare, Kept, Chain, Fresh, Started, Fits, RootOK, WideOpen;
  }

  /** A code that starts a subtree and runs past the next table boundary. */
  lemma WideNow(x: Plan, i: nat, k: nat, q: nat, at: nat, lvl: nat)
    requires At(x, i, k, q, at) && i < Pow2(Reach(x, lvl)) && 1 <= lvl && Reach(x, lvl + 1) < k
    ensures x.WideAt(lvl, k, q) && x.Wide()
  {
    hide Rev, Pow2, FirstCode;
    NextWidth(lvl, x.l);
    AtParts(x, i, k, q, at);
    AtBelow(x, i, k, q, at);
    CodeAt(x, i, k, q, at);
    AlignedIff(k, Reach(x, lvl), i);
    WideIs(x, lvl, k, q);
  }

  /** One turn of the loop that makes tables up to the level a code of length `k` needs: size it,
      allocate it, and connect it to the table above. */
  method OpenLevel(ghost x: Plan, ghost hp0: seq<Huft>, ghost bd: Build, ghost lo: nat, ghost q: nat, ghost at: nat,
                   c: seq<nat>, g: nat, l: nat, k: nat, a: nat, hp: array<Huft>, lc: Locals)
    returns (ok: bool, lc': Locals, ghost bd': Build)
    requires hp.Length == MANY && c == x.c && g == x.g && l == x.l
    requires Opening(x, hp0, hp[..], bd, lo, lc.hn, lc.i, k, q, at) && Tracks(x, bd, lc)
    requires a + 1 + q == x.c[k] && Space(x, bd.tabs, lo, lc.hn)
    requires Reach(x, |bd.st|) < k && (bd.st == [] ==> lc.hn == lo && k <= l && lc.i == lc.x[0])
    modifies hp
    ensures ok ==> Opening(x, hp0, hp[..], bd', lo, lc'.hn, lc'.i, k, q, at) && Tracks(x, bd', lc')
    ensures ok ==> bd'.st == bd.st + [|bd.tabs|] && |bd'.tabs| == |bd.tabs| + 1 && bd'.tabs[..|bd.tabs|] == bd.tabs
    ensures ok ==> lc'.z == Pow2(bd'.tabs[|bd.tabs|].j) && lc'.q == bd'.tabs[|bd.tabs|].base
    ensures ok ==> (bd'.tabs[|bd.tabs|].j > l <==> k - |bd.st| * l > l)
    ensures ok ==> WritesOnce(old(hp[..]), bd.cells, hp[..], bd'.cells)
    ensures ok ==> lc'.i == lc.i && lc'.p == lc.p && (bd.st == [] ==> lc'.r == lc.r)
    ensures if ok then Space(x, bd'.tabs, lo, lc'.hn) else Overfull(x, lo, MANY)
    ensures !ok ==> (bd.st == [] ==> lo + Pow2(l) > MANY) && (bd.st != [] ==> l < g)
  {
    hide *;
    OpeningFacts(x, hp0, hp[..], bd, lo, lc.hn, lc.i, k, q, at);
    PlanWidth(x);
    TracksFacts(x, bd, lc.i, lc, k);
    bd' := bd;
    var j;
    lc', j := SizeLevel(x, hp0, bd, lo, q, at, Reach(x, |bd.st|), c, g, l, k, a, hp[..], lc);
    if lc.hn + lc'.z > MANY {
      if bd.st == [] { Pow2Mono(j, l); }
      TooMuch(x, bd.tabs + [NewTab(bd, lc.hn, lc.i, j)], lo, lc.hn + lc'.z, MANY);
      return false, lc', bd';
    }
    OpenStep(x, hp0, hp[..], bd, lo, lc.hn, lc.i, k, q, at, j);
    bd' := Opened(x, bd, lc.hn, lc.i, j);
    ghost var mem := OpenedMem(x, bd, hp[..], lc.hn, lc.i, j);
    lc' := lc'.(q := lc.hn, u := lc.u[lc'.h := lc.hn], hn := lc.hn + lc'.z);
    if lc'.h != 0 {
      lc' := lc'.(x := lc'.x[lc'.h := lc.i]);
      lc' := Connect(hp, lc', l, j);
    }
    OpenTracks(x, bd, lc, lc.i, j, k, lc');
    OpenedParts(x, bd, old(hp[..]), lc.hn, lc.i, j);
    assert hp[..] == mem;
    ok := true;
  }

  /** The next level, `w` bits into the code, and how big a table it needs. */
  method SizeLevel(ghost x: Plan, ghost hp0: seq<Huft>, ghost bd: Build, ghost lo: nat, ghost q: nat, ghost at: nat,
                   ghost w: nat, c: seq<nat>, g: nat, l: nat, k: nat, a: nat, ghost hp: seq<Huft>, lc: Locals)
    returns (lc': Locals, j: nat)
    requires c == x.c && g == x.g && l == x.l && w == Reach(x, |bd.st|) < k <= g < |c|
    requires Opening(x, hp0, hp, bd, lo, lc.hn, lc.i, k, q, at) && Tracks(x, bd, lc)
    requires a + 1 + q == x.c[k] && Space(x, bd.tabs, lo, lc.hn) && (bd.st == [] ==> k <= l)
    ensures lc' == lc.(h := lc.h + 1, w := lc.w + l, z := Pow2(j))
    ensures 1 <= j && w + j <= g && (j > l <==> k - w > l)
    ensures l <= j || End(c, g, w + j) >= at + Pow2(g - w)
    ensures Space(x, bd.tabs + [NewTab(bd, lc.hn, lc.i, j)], lo, lc.hn + lc'.z)
  {
    hide *;
    OpeningFacts(x, hp0, hp, bd, lo, lc.hn, lc.i, k, q, at);
    PlanWidth(x);
    LevelWidth(x, bd, lc, k);
    lc' := lc.(h := lc.h + 1, w := lc.w + l);
    j := FitTable(x, q, lc.i, at, c, g, l, k, a, lc'.w);
    lc' := lc'.(z := Pow2(j));
    NewTabWidth(x, bd, lc.hn, lc.i, j);
    LevelSpace(x, hp0, hp, bd, lo, lc.hn, lc.i, k, q, at, w, NewTab(bd, lc.hn, lc.i, j));
  }

  lemma LevelWidth(x: Plan, bd: Build, lc: Locals, k: nat)
    requires Tracks(x, bd, lc) && Reach(x, |bd.st|) < k <= BMAX && x.l >= 1 && TopLevel(bd)
    ensures lc.w + x.l == Reach(x, |bd.st|)
  {
    TracksFacts(x, bd, 0, lc, k);
  }

  lemma NewTabWidth(x: Plan, bd: Build, hn: nat, i: nat, j: nat)
    ensures NewTab(bd, hn, i, j).j == j && Width(x, NewTab(bd, hn, i, j)) == Reach(x, |bd.st|)
  {
  }

  lemma OpenedParts(x: Plan, bd: Build, hp: seq<Huft>, hn: nat, i: nat, j: nat)
    ensures var bd' := Opened(x, bd, hn, i, j);
      && bd'.st == bd.st + [|bd.tabs|] && |bd'.tabs| == |bd.tabs| + 1 && bd'.tabs[..|bd.tabs|] == bd.tabs
      && bd'.tabs[|bd.tabs|] == Tab(hn, |bd.st|, i, j) && bd'.tabs == bd.tabs + [NewTab(bd, hn, i, j)]
    ensures bd.st == [] ==> OpenedMem(x, bd, hp, hn, i, j) == hp
    ensures bd.st != [] && LinkCell(x, bd, i) < |hp| && LinkCell(x, bd, i) <= hn ==>
      OpenedMem(x, bd, hp, hn, i, j) == hp[LinkCell(x, bd, i) := Huft(j, x.l, hn - LinkCell(x, bd, i))]
  {
  }

  /** Points the entry of the table above at the new table. */
  method Connect(hp: array<Huft>, lc: Locals, l: nat, j: nat) returns (lc': Locals)
    requires 0 < lc.h < |lc.u| && l <= lc.w
    requires lc.u[lc.h - 1] + Shr(lc.i, lc.w - l) < hp.Length && lc.u[lc.h - 1] + Shr(lc.i, lc.w - l) <= lc.q
    modifies hp
    ensures var at := lc.u[lc.h - 1] + Shr(lc.i, lc.w - l);
      lc' == lc.(r := Huft(j, l, lc.q - at)) && hp[..] == old(hp[..])[at := lc'.r]
  {
    var idx := Shr(lc.i, lc.w - l);
    lc' := lc.(r := Huft(j, l, lc.q - lc.u[lc.h - 1] - idx));
    hp[lc.u[lc.h - 1] + idx] := lc'.r;
  }

  /** The current table is the top one. */
  ghost predicate AtTop(bd: Build, lc: Locals) {
    bd.st != [] && bd.Top() < |bd.tabs| && lc.z == Pow2(bd.tabs[bd.Top()].j) && lc.q == bd.tabs[bd.Top()].base
  }

  /** Tables were added for a code of length `k`, one for each level from |bd.st| on; the ones too
      wide are those below which the code runs past a further level. */
  ghost predicate Deepened(l: nat, bd: Build, bd': Build, k: nat) {
    && |bd.st| <= |bd'.st| && bd'.st[..|bd.st|] == bd.st
    && |bd'.tabs| == |bd.tabs| + |bd'.st| - |bd.st| && bd'.tabs[..|bd.tabs|] == bd.tabs
    && forall t | |bd.tabs| <= t < |bd'.tabs| ::
         var v := |bd.st| + t - |bd.tabs|;
         bd'.tabs[t].lvl == v && (bd'.tabs[t].j > l <==> (v + 1) * l < k)
  }

  lemma DeeperStill(l: nat, bd0: Build, bd: Build, bd': Build, k: nat)
    requires Deepened(l, bd0, bd, k)
    requires bd'.st == bd.st + [|bd.tabs|] && |bd'.tabs| == |bd.tabs| + 1 && bd'.tabs[..|bd.tabs|] == bd.tabs
    requires bd'.tabs[|bd.tabs|].lvl == |bd.st| && (bd'.tabs[|bd.tabs|].j > l <==> (|bd.st| + 1) * l < k)
    ensures Deepened(l, bd0, bd', k)
  {
    assert bd'.tabs[..|bd0.tabs|] == bd.tabs[..|bd0.tabs|];
    assert bd'.st[..|bd0.st|] == bd.st[..|bd0.st|];
    forall t | |bd0.tabs| <= t < |bd'.tabs|
      ensures var v := |bd0.st| + t - |bd0.tabs|;
        bd'.tabs[t].lvl == v && (bd'.tabs[t].j > l <==> (v + 1) * l < k)
    {
      if t < |bd.tabs| { assert bd'.tabs[t] == bd.tabs[t]; }
    }
  }

  /** Makes tables up to the level a code of length `k` needs. */
  method OpenTables(ghost x: Plan, ghost hp0: seq<Huft>, ghost bd0: Build, ghost lo: nat, ghost q: nat, ghost at: nat,
                    c: seq<nat>, g: nat, l: nat, k: nat, a: nat, hp: array<Huft>, lc0: Locals)
    returns (ok: bool, lc: Locals, ghost bd: Build)
    requires hp.Length == MANY && c == x.c && g == x.g && l == x.l
    requires Opening(x, hp0, hp[..], bd0, lo, lc0.hn, lc0.i, k, q, at) && Tracks(x, bd0, lc0)
    requires a + 1 + q == x.c[k] && Space(x, bd0.tabs, lo, lc0.hn)
    requires bd0.st == [] ==> lc0.hn == lo && k <= l && lc0.i == lc0.x[0]
    requires k <= Reach(x, |bd0.st|) ==> AtTop(bd0, lc0)
    modifies hp
    ensures ok ==> Opening(x, hp0, hp[..], bd, lo, lc.hn, lc.i, k, q, at) && Tracks(x, bd, lc)
    ensures ok ==> k <= Reach(x, |bd.st|) && AtTop(bd, lc) && Deepened(l, bd0, bd, k)
    ensures ok ==> lc.i == lc0.i && lc.p == lc0.p && (l == g ==> lc.r == lc0.r)
    ensures ok ==> WritesOnce(old(hp[..]), bd0.cells, hp[..], bd.cells)
    ensures if ok then Space(x, bd.tabs, lo, lc.hn) else Overfull(x, lo, MANY)
    ensures !ok ==> lo + Pow2(l) > MANY || l < g
  {
    hide Opening, Tracks, Deepened, At, Plan.Valid, Space, Overfull;
    OpeningFacts(x, hp0, hp[..], bd0, lo, lc0.hn, lc0.i, k, q, at);
    PlanWidth(x);
    lc, bd := lc0, bd0;
    DeepenedSelf(l, bd0, k);
    TracksWidth(x, bd, lc);
    while k > lc.w + l
      invariant Opening(x, hp0, hp[..], bd, lo, lc.hn, lc.i, k, q, at) && Tracks(x, bd, lc)
      invariant |lc.x| == BMAX + 1 && (bd.st == [] ==> lc.hn == lo && k <= l && lc.i == lc.x[0])
      invariant k <= Reach(x, |bd.st|) ==> AtTop(bd, lc)
      invariant Space(x, bd.tabs, lo, lc.hn)
      invariant Deepened(l, bd0, bd, k) && lc.w + l == |bd.st| * l
      invariant lc.i == lc0.i && lc.p == lc0.p && (l == g ==> lc.r == lc0.r)
      invariant WritesOnce(old(hp[..]), bd0.cells, hp[..], bd.cells)
      decreases k - lc.w
    {
      ghost var was, mem := bd, hp[..];
      NextWidth(|bd.st|, l);
      if bd.st != [] { WidthMono(1, |bd.st|, l); }
      ok, lc, bd := OpenLevel(x, hp0, bd, lo, q, at, c, g, l, k, a, hp, lc);
      if !ok {
        return;
      }
      OpeningFacts(x, hp0, hp[..], bd, lo, lc.hn, lc.i, k, q, at);
      DeeperStill(l, bd0, was, bd, k);
      WritesOnceTwice(old(hp[..]), bd0.cells, mem, was.cells, hp[..], bd.cells);
      TracksWidth(x, bd, lc);
    }
    ok := true;
  }

  lemma DeepenedSelf(l: nat, bd: Build, k: nat)
    ensures Deepened(l, bd, bd, k)
  {
  }

  lemma TracksWidth(x: Plan, bd: Build, lc: Locals)
    requires Tracks(x, bd, lc)
    ensures lc.w + x.l == Reach(x, |bd.st|) && |lc.x| == BMAX + 1
  {
    NextWidth(|bd.st|, x.l);
  }

  /** Between two codes: `at` is where the next one goes, `i` its index bits unless all is filled. */
  ghost predicate Ready(x: Plan, hp0: seq<Huft>, hp: seq<Huft>, bd: Build, lo: nat, hn: nat, i: nat, k: nat, at: nat) {
    && bd.Valid(x, hp0, hp, lo, hn, at) && FreshFrom(x, bd.tabs, bd.cells, at)
    && ReadyBook(x, bd, lo, i, k, at)
  }

  ghost predicate ReadyBook(x: Plan, bd: Build, lo: nat, i: nat, k: nat, at: nat) {
    && x.Valid() && Fits(x, bd.tabs) && RootOK(x, bd, lo) && WideOpen(x, bd, k)
    && (forall t | 0 <= t < |bd.tabs| :: Lo(x, bd.tabs[t]) < at)
    && (at < Pow2(x.g) ==> Rev(x.g, i) == at && i < Pow2(k) && i < Pow2(Reach(x, |bd.st|)) && TopAt(x, bd, i, k))
  }

  ghost predicate TopAt(x: Plan, bd: Build, i: nat, k: nat) {
    bd.st != [] ==>
      bd.Top() < |bd.tabs|
      && var top := bd.tabs[bd.Top()];
         top.lvl == |bd.st| - 1 && top.pre == Low(i, Width(x, top)) && Ample(x, top) && Width(x, top) < k
  }

  lemma ReadyOpening(x: Plan, hp0: seq<Huft>, hp: seq<Huft>, bd: Build, lo: nat, hn: nat,
                     i: nat, k: nat, q: nat, at: nat)
    requires Ready(x, hp0, hp, bd, lo, hn, i, k, at) && 1 <= k <= x.g && q < x.c[k]
    requires at == End(x.c, x.g, k - 1) + q * Pow2(x.g - k) < Pow2(x.g)
    ensures Opening(x, hp0, hp, bd, lo, hn, i, k, q, at)
  {
    hide Build.Valid, Plan.Valid, Fits, RootOK, WideOpen, Lo, Ample, Width;
    if bd.st != [] { FreshTop(x, bd.tabs, bd.cells, at, bd.Top()); }
  }

  lemma FreshTop(x: Plan, tabs: seq<Tab>, cells: seq<Cell>, at: nat, top: nat)
    requires FreshFrom(x, tabs, cells, at)
    ensures Fresh(x, tabs, cells, at, top)
  {
  }

  /** A table that leads to another is of full width. */
  lemma ParentAmple(x: Plan, hp: seq<Huft>, bd: Build)
    requires x.Valid() && |hp| == |bd.cells| && Shape(x, bd.tabs, 0, |hp|)
    requires Chain(x, hp, bd.tabs, bd.cells, bd.par, bd.st) && |bd.st| >= 2
    ensures bd.st[|bd.st| - 2] < |bd.tabs|
    ensures Width(x, bd.tabs[bd.st[|bd.st| - 2]]) + bd.tabs[bd.st[|bd.st| - 2]].j <= x.g
    ensures Ample(x, bd.tabs[bd.st[|bd.st| - 2]])
  {
    assert Hangs(x, hp, bd.tabs, bd.cells, bd.par, bd.st[|bd.st| - 1]);
  }

  /** The top table is one the code just filled in goes through, and its index is long enough. */
  ghost predicate TopOpen(x: Plan, bd: Build, k: nat, w: int) {
    bd.st != [] && bd.Top() < |bd.tabs|
    && var top := bd.tabs[bd.Top()];
       top.lvl == |bd.st| - 1 && Width(x, top) == w < k && Ample(x, top)
  }

  /** `i'` is the code that starts right after the code at `at`, unless that was the last; it is at the
      start of a subtree below the open tables, or within one table of them. */
  ghost predicate Follows(x: Plan, k: nat, at: nat, i': nat, open: nat) {
    at + Size(x, k) < Pow2(x.g) ==>
      i' < Pow2(x.g) && Rev(x.g, i') == at + Size(x, k) && i' < Pow2(Reach(x, open))
  }

  /** The code `i` at `at` has been filled in and the next one computed; tables it ends are still open. */
  ghost predicate Leaving(x: Plan, hp0: seq<Huft>, hp: seq<Huft>, bd: Build, lo: nat,
                          i: nat, k: nat, q: nat, at: nat, lc: Locals)
  {
    && bd.Valid(x, hp0, hp, lo, lc.hn, at + Size(x, k)) && Tracks(x, bd, lc) && At(x, i, k, q, at)
    && OnPath(x, bd.tabs, bd.st, i) && TopOpen(x, bd, k, lc.w) && RootOK(x, bd, lo)
    && Follows(x, k, at, lc.i, |bd.st|)
  }

  ghost predicate Left(bd: Build, lc: Locals) {
    |lc.x| == BMAX + 1 && 0 <= lc.w && 0 <= lc.h <= BMAX && lc.h == |bd.st| - 1 && lc.x[0] == 0
    && (lc.h == 0 ==> lc.w == 0)
  }

  /** Closes the tables that end where the next code, `lc.i`, starts. */
  method BackUp(ghost x: Plan, ghost hp0: seq<Huft>, ghost hp: seq<Huft>, ghost bd0: Build, ghost lo: nat,
                ghost i: nat, ghost k: nat, ghost q: nat, ghost at: nat, l: nat, lc0: Locals)
    returns (lc: Locals, ghost bd: Build)
    requires Leaving(x, hp0, hp, bd0, lo, i, k, q, at, lc0) && l == x.l
    ensures Leaving(x, hp0, hp, bd, lo, i, k, q, at, lc) && Left(bd, lc) && Low(lc.i, lc.w) == lc.x[lc.h]
    ensures bd == bd0.(st := bd.st) && bd.st <= bd0.st && lc == lc0.(h := lc.h, w := lc.w)
    ensures |bd.st| < |bd0.st| ==> |bd.st| * l < k
  {
    hide Leaving;
    lc, bd := lc0, bd0;
    LeavingFacts(x, hp0, hp, bd, lo, i, k, q, at, lc);
    while Low(lc.i, lc.w) != lc.x[lc.h]
      invariant Leaving(x, hp0, hp, bd, lo, i, k, q, at, lc) && Left(bd, lc)
      invariant bd == bd0.(st := bd.st) && bd.st <= bd0.st && lc == lc0.(h := lc.h, w := lc.w)
      invariant |bd.st| < |bd0.st| ==> |bd.st| * l < k
      decreases lc.h
    {
      PopStep(x, hp0, hp, bd, lo, i, k, q, at, lc);
      lc := lc.(h := lc.h - 1, w := lc.w - l);
      bd := bd.(st := bd.st[..|bd.st| - 1]);
      LeavingFacts(x, hp0, hp, bd, lo, i, k, q, at, lc);
    }
  }

  lemma LeavingFacts(x: Plan, hp0: seq<Huft>, hp: seq<Huft>, bd: Build, lo: nat,
                     i: nat, k: nat, q: nat, at: nat, lc: Locals)
    requires Leaving(x, hp0, hp, bd, lo, i, k, q, at, lc)
    ensures Left(bd, lc)
  {
    hide Build.Valid, At, OnPath, Follows;
    assert lc.x[0] == bd.tabs[bd.st[0]].pre;
  }

  /** One turn of the back-up loop. */
  lemma PopStep(x: Plan, hp0: seq<Huft>, hp: seq<Huft>, bd: Build, lo: nat,
                i: nat, k: nat, q: nat, at: nat, lc: Locals)
    requires Leaving(x, hp0, hp, bd, lo, i, k, q, at, lc) && Left(bd, lc) && Low(lc.i, lc.w) != lc.x[lc.h]
    ensures lc.h > 0 && Reach(x, |bd.st| - 1) < k
    ensures Leaving(x, hp0, hp, bd.(st := bd.st[..|bd.st| - 1]), lo, i, k, q, at,
                    lc.(h := lc.h - 1, w := lc.w - x.l))
  {
    hide Build.Valid, Follows, At, Plan.Valid, Ample;
    PopTop(x, hp0, hp, bd, lo, i, k, q, at, lc);
    PopValid(x, hp0, hp, bd, lo, lc.hn, at + Size(x, k));
    NextWidth(lc.h - 1, x.l);
  }

  lemma PopTop(x: Plan, hp0: seq<Huft>, hp: seq<Huft>, bd: Build, lo: nat,
               i: nat, k: nat, q: nat, at: nat, lc: Locals)
    requires Leaving(x, hp0, hp, bd, lo, i, k, q, at, lc) && Left(bd, lc) && Low(lc.i, lc.w) != lc.x[lc.h]
    ensures |bd.st| >= 2 && bd.Top() < |bd.tabs| && Hi(x, bd.tabs[bd.Top()]) <= at + Size(x, k)
    ensures bd.st[|bd.st| - 2] < |bd.tabs| && Ample(x, bd.tabs[bd.st[|bd.st| - 2]])
    ensures bd.tabs[bd.st[|bd.st| - 2]].lvl == |bd.st| - 2
    ensures Follows(x, k, at, lc.i, |bd.st| - 1)
  {
    hide Done, Spare, Kept, Chain, Closed, Ample, At, RootOK, Pow2;
    var top := bd.tabs[bd.Top()];
    assert TabOK(x, top, 0, |hp|);
    AtParts(x, i, k, q, at);
    assert Reach(x, |bd.st| - 1) == Width(x, top);
    LeftBehind(x, top, i, k, at, lc.i);
    PopParent(x, hp0, hp, bd, lo, lc.hn, at + Size(x, k));
  }

  lemma PopParent(x: Plan, hp0: seq<Huft>, hp: seq<Huft>, bd: Build, lo: nat, hn: nat, at: nat)
    requires bd.Valid(x, hp0, hp, lo, hn, at) && |bd.st| >= 2
    ensures bd.st[|bd.st| - 2] < |bd.tabs| && Ample(x, bd.tabs[bd.st[|bd.st| - 2]])
    ensures bd.tabs[bd.st[|bd.st| - 2]].lvl == |bd.st| - 2
  {
    hide Done, Spare, Closed;
    ParentAmple(x, hp, bd);
  }

  lemma AtParts(x: Plan, i: nat, k: nat, q: nat, at: nat)
    requires At(x, i, k, q, at)
    ensures x.Valid() && 1 <= k <= x.g && i < Pow2(k) && at == Rev(x.g, i)
  {
  }

  // ----- one code

  lemma OpeningFill(x: Plan, hp0: seq<Huft>, hp: seq<Huft>, bd: Build, lo: nat, hn: nat,
                    i: nat, k: nat, q: nat, at: nat)
    requires Opening(x, hp0, hp, bd, lo, hn, i, k, q, at) && bd.st != [] && k <= Reach(x, |bd.st|)
    ensures CanFill(x, hp0, hp, bd, lo, hn, i, k, q, at)
  {
    hide Done, Spare, Kept, Closed, Fresh, Started, Reach, Pow2, Ample;
    OpeningPath(x, hp0, hp, bd, lo, hn, i, k, q, at);
    TopReach(x, bd.tabs[bd.Top()], i, k, q, at);
    ReachNext(x, |bd.st| - 1);
    assert Width(x, bd.tabs[bd.Top()]) == Reach(x, |bd.st| - 1) by { WidthReach(x, bd.tabs[bd.Top()]); }
  }

  lemma TopReach(x: Plan, top: Tab, i: nat, k: nat, q: nat, at: nat)
    requires At(x, i, k, q, at) && TabOK(x, top, 0, top.base + Pow2(top.j)) && Ample(x, top)
    requires top.pre == Low(i, Width(x, top))
    ensures x.l <= top.j || k <= Width(x, top) + top.j
  {
    AtBound(x, i, k, q, at);
    RevInterval(x.g, Width(x, top), top.pre, i);
    AmpleReach(x, top, i, k, q, at);
  }

  lemma OpeningPath(x: Plan, hp0: seq<Huft>, hp: seq<Huft>, bd: Build, lo: nat, hn: nat,
                    i: nat, k: nat, q: nat, at: nat)
    requires Opening(x, hp0, hp, bd, lo, hn, i, k, q, at)
    ensures OnPath(x, bd.tabs, bd.st, i)
  {
    hide Done, Spare, Closed, Fresh, Started, Ample, At;
    ChainNests(x, hp, bd.tabs, bd.cells, bd.par, bd.st);
    PathFromTop(x, bd.tabs, bd.st, i);
  }

  /** The next value to hand out: `q` symbols of length `k` are done, or all of them. */
  ghost function Cursor(b: seq<nat>, k: nat, q: nat): nat {
    Off(b, k) + if q <= Count(b, k) then q else Count(b, k)
  }

  /** The leftover value a dummy of a single one-bit code shows. */
  ghost predicate Leftover(x: Plan, r: Huft, q: nat)
    requires x.Valid()
  {
    x.g == 1 && Count(x.al.b, 1) == 1 && q >= 1 ==> r.base == x.al.Base(Nth(x.al.b, 1, 0))
  }

  /** The entry for the next value. */
  method MakeEntry(ghost x: Plan, ghost k: nat, ghost q: nat, s: nat, d: seq<nat>, e: seq<nat>,
                   v: seq<nat>, n: nat, drop: nat, lc0: Locals) returns (lc: Locals)
    requires x.Valid() && 1 <= k <= x.g && q < x.c[k] && s == x.al.s && d == x.al.d && e == x.al.e
    requires Sorted(x.al.b, v, n) && lc0.p == Cursor(x.al.b, k, q) && Leftover(x, lc0.r, q)
    ensures lc == lc0.(r := lc.r, p := lc.p) && lc.r.bits == drop && Shows(x, lc.r, k, q)
    ensures lc.p == Cursor(x.al.b, k, q + 1) && Leftover(x, lc.r, q + 1)
  {
    hide Count, Off, Nth, MaxLen, End, Pow2;
    ghost var b := x.al.b;
    CursorReal(x, k, q, v, n);
    lc := lc0.(r := lc0.r.(bits := drop));
    if lc.p >= n {
      lc := lc.(r := lc.r.(exop := 128 + 64));
      OneBit(x, q);
    } else if v[lc.p] < s {
      lc := lc.(r := lc.r.(exop := if v[lc.p] < 256 then 0 else 32 + 64, base := v[lc.p]), p := lc.p + 1);
    } else {
      var sym := v[lc.p];
      lc := lc.(r := lc.r.(exop := (e[sym - s] + 16 + 64) % 256, base := d[sym - s]), p := lc.p + 1);
    }
  }

  lemma OneBit(x: Plan, q: nat)
    requires x.Valid()
    ensures x.g == 1 && q < x.c[1] && Count(x.al.b, 1) <= q ==> q == 1 && Count(x.al.b, 1) == 1
  {
    if x.g == 1 {
      assert End(x.c, 1, 1) == End(x.c, 1, 0) + x.c[1] * Pow2(0);
      assert Pow2(1) == 2 * Pow2(0);
    }
  }

  lemma CursorReal(x: Plan, k: nat, q: nat, v: seq<nat>, n: nat)
    requires x.Valid() && 1 <= k <= x.g && q < x.c[k] && Sorted(x.al.b, v, n)
    ensures x.Real(k, q) <==> Cursor(x.al.b, k, q) < n
    ensures x.Real(k, q) ==> q < Count(x.al.b, k) && Cursor(x.al.b, k, q) < |v|
    ensures x.Real(k, q) ==> v[Cursor(x.al.b, k, q)] == Nth(x.al.b, k, q)
    ensures x.Real(k, q) ==> Cursor(x.al.b, k, q + 1) == Cursor(x.al.b, k, q) + 1
    ensures !x.Real(k, q) ==> Cursor(x.al.b, k, q + 1) == Cursor(x.al.b, k, q)
  {
    hide Off, Count, Nth, End, Pow2, MaxLen;
    OffMono(x.al.b, k, x.g + 1);
    OffNext(x.al.b, x.g);
    if x.Real(k, q) { assert SortedAt(x.al.b, v, k, q); }
  }

  /** Tables too wide for their links are there exactly if such a code has been placed: one before
      code `q` of length `k`. */
  ghost predicate WideSeen(x: Plan, tabs: seq<Tab>, k: nat, q: nat) {
    && (HasWide(x, tabs) ==> x.Wide())
    && (forall lvl: nat, len: nat, p: nat | x.WideAt(lvl, len, p) && (len < k || (len == k && p < q)) ::
          HasWide(x, tabs))
  }

  lemma WideStep(x: Plan, hp0: seq<Huft>, hp: seq<Huft>, bd: Build, lo: nat, hn: nat,
                 i: nat, k: nat, q: nat, at: nat, bd': Build)
    requires At(x, i, k, q, at) && ReadyBook(x, bd, lo, i, k, at) && OnPath(x, bd.tabs, bd.st, i)
    requires forall v | 0 <= v < |bd.st| :: bd.tabs[bd.st[v]].lvl == v
    requires RootOK(x, bd', lo) && Deepened(x.l, bd, bd', k) && k <= Reach(x, |bd'.st|)
    requires WideSeen(x, bd.tabs, k, q)
    ensures WideSeen(x, bd'.tabs, k, q + 1)
  {
    hide Plan.Valid, Fits, WideOpen, TopAt;
    if HasWide(x, bd'.tabs) {
      var t :| 0 <= t < |bd'.tabs| && bd'.tabs[t].j > x.l;
      if t < |bd.tabs| {
        assert bd'.tabs[t] == bd.tabs[t];
      } else {
        var lvl := |bd.st| + t - |bd.tabs|;
        WideMade(x, bd, lo, i, k, q, at, lvl);
      }
    }
    forall lvl: nat, len: nat, p: nat | x.WideAt(lvl, len, p) && (len < k || (len == k && p < q + 1))
      ensures HasWide(x, bd'.tabs)
    {
      if len < k || p < q {
        var t :| 0 <= t < |bd.tabs| && bd.tabs[t].j > x.l;
        assert bd'.tabs[t] == bd.tabs[t];
      } else {
        WideNew(x, bd, lo, i, k, q, at, lvl);
        MulLess(lvl + 1, |bd'.st|, x.l);
        var t := |bd.tabs| + lvl - |bd.st|;
        assert bd'.tabs[t].j > x.l;
      }
    }
  }

  lemma MulLess(a: nat, b: nat, l: nat)
    requires a * l < b * l
    ensures a < b
  {
    if a >= b { WidthMono(b, a, l); }
  }

  lemma WideMade(x: Plan, bd: Build, lo: nat, i: nat, k: nat, q: nat, at: nat, lvl: nat)
    requires At(x, i, k, q, at) && ReadyBook(x, bd, lo, i, k, at) && |bd.st| <= lvl
    requires Reach(x, lvl + 1) < k && 1 <= lvl
    ensures x.WideAt(lvl, k, q) && x.Wide()
  {
    hide Fits, WideOpen, TopAt, RootOK, At, Rev, Pow2, FirstCode;
    AtParts(x, i, k, q, at);
    AtBelow(x, i, k, q, at);
    NextWidth(lvl, x.l);
    WidthMono(|bd.st|, lvl, x.l);
    Pow2Mono(Reach(x, |bd.st|), Reach(x, lvl));
    CodeAt(x, i, k, q, at);
    AlignedIff(k, Reach(x, lvl), i);
    WideIs(x, lvl, k, q);
  }

  lemma AtBelow(x: Plan, i: nat, k: nat, q: nat, at: nat)
    requires At(x, i, k, q, at)
    ensures at < Pow2(x.g) && q < |x.c| + x.c[k] && |x.c| > k && q < x.c[k]
  {
    AtBound(x, i, k, q, at);
  }

  lemma WideIs(x: Plan, lvl: nat, k: nat, q: nat)
    requires x.WideAt(lvl, k, q)
    ensures x.Wide()
  {
  }

  /** A code that starts a subtree `w` bits deep is one whose index bits from `w` on are zero. */
  lemma AlignedIff(k: nat, w: nat, i: nat)
    requires w <= k && i < Pow2(k)
    ensures Rev(k, i) % Pow2(k - w) == 0 <==> i < Pow2(w)
  {
    var z := Pow2(k - w);
    hide *;
    if i < Pow2(w) {
      RevExtend(k, w, i);
      DivModUnique(Rev(k, i), z, Rev(w, i), 0);
    } else if Rev(k, i) % z == 0 {
      Divides(Rev(k, i), z);
      RevAligned(k, w, i, Rev(k, i) / z);
    }
  }

  lemma Divides(a: nat, z: nat)
    requires z > 0 && a % z == 0
    ensures a == a / z * z
  {
  }

  lemma WideNew(x: Plan, bd: Build, lo: nat, i: nat, k: nat, q: nat, at: nat, lvl: nat)
    requires At(x, i, k, q, at) && ReadyBook(x, bd, lo, i, k, at) && OnPath(x, bd.tabs, bd.st, i)
    requires forall v | 0 <= v < |bd.st| :: bd.tabs[bd.st[v]].lvl == v
    requires x.WideAt(lvl, k, q)
    ensures |bd.st| <= lvl
  {
    hide Fits, WideOpen, TopAt, RootOK, At, Rev, Pow2, FirstCode;
    AtParts(x, i, k, q, at);
    NextWidth(lvl, x.l);
    CodeAt(x, i, k, q, at);
    AlignedIff(k, Reach(x, lvl), i);
    if lvl < |bd.st| {
      PathLo(x, bd, i, lvl);
    }
  }

  lemma PathLo(x: Plan, bd: Build, i: nat, lvl: nat)
    requires OnPath(x, bd.tabs, bd.st, i) && lvl < |bd.st| && bd.tabs[bd.st[lvl]].lvl == lvl && i < Pow2(Reach(x, lvl))
    ensures Lo(x, bd.tabs[bd.st[lvl]]) == Rev(x.g, i)
  {
    LowBound(i, Reach(x, lvl));
    assert Width(x, bd.tabs[bd.st[lvl]]) == Reach(x, lvl);
  }

  /** Between codes, with the locals. */
  ghost predicate Between(x: Plan, hp0: seq<Huft>, hp: seq<Huft>, bd: Build, lo: nat, v: seq<nat>, n: nat,
                          k: nat, q: nat, at: nat, lc: Locals)
  {
    && Ready(x, hp0, hp, bd, lo, lc.hn, lc.i, k, at) && Tracks(x, bd, lc)
    && (k <= Reach(x, |bd.st|) ==> AtTop(bd, lc))
    && (bd.st == [] ==> lc.hn == lo && k <= x.l && lc.i == lc.x[0])
    && Sorted(x.al.b, v, n) && lc.p == Cursor(x.al.b, k, q) && Leftover(x, lc.r, q)
    && WideSeen(x, bd.tabs, k, q) && Space(x, bd.tabs, lo, lc.hn)
  }

  lemma WideAfter(x: Plan, hp0: seq<Huft>, hp: seq<Huft>, hp': seq<Huft>, bd: Build, lo: nat, hn: nat, hn': nat,
                  i: nat, k: nat, q: nat, at: nat, bd': Build)
    requires Ready(x, hp0, hp, bd, lo, hn, i, k, at) && Opening(x, hp0, hp, bd, lo, hn, i, k, q, at)
    requires Opening(x, hp0, hp', bd', lo, hn', i, k, q, at) && Deepened(x.l, bd, bd', k) && k <= Reach(x, |bd'.st|)
    requires WideSeen(x, bd.tabs, k, q)
    ensures WideSeen(x, bd'.tabs, k, q + 1)
  {
    OpeningPath(x, hp0, hp, bd, lo, hn, i, k, q, at);
    hide OnPath, WideSeen, At, Deepened, FreshFrom, Done, Spare, Closed, Kept, Started, Fits, WideOpen;
    WideStep(x, hp0, hp, bd, lo, hn, i, k, q, at, bd');
  }

  /** The open table the code goes to, as the locals have it. */
  ghost predicate Here(x: Plan, bd: Build, i: nat, k: nat, lc: Locals) {
    bd.st != [] && bd.Top() < |bd.tabs|
    && var top := bd.tabs[bd.Top()];
       0 <= lc.w < k && Width(x, top) == lc.w && lc.q == top.base && lc.z == Pow2(top.j) && lc.q + lc.z <= lc.hn
       && Shr(i, lc.w) < Pow2(k - lc.w) && Ample(x, top) && top.lvl == |bd.st| - 1 && k <= lc.w + x.l
  }

  lemma HereFacts(x: Plan, hp0: seq<Huft>, hp: seq<Huft>, bd: Build, lo: nat, i: nat, k: nat, q: nat, at: nat,
    lc: Locals)
    requires Opening(x, hp0, hp, bd, lo, lc.hn, i, k, q, at) && Tracks(x, bd, lc) && AtTop(bd, lc)
    requires k <= Reach(x, |bd.st|)
    ensures Here(x, bd, i, k, lc) && lc.hn <= |hp|
  {
    hide Done, Spare, Chain, Closed, Kept, Fresh, Started, Ample, Reach, Width, Pow2;
    var top := bd.tabs[bd.Top()];
    assert TabOK(x, top, lo, lc.hn);
    WidthReach(x, top);
    ReachNext(x, top.lvl);
    ShrBound(i, lc.w, k - lc.w);
  }

  lemma OpeningRest(x: Plan, hp0: seq<Huft>, hp: seq<Huft>, bd: Build, lo: nat, hn: nat, i: nat, k: nat, q: nat,
    at: nat)
    requires Opening(x, hp0, hp, bd, lo, hn, i, k, q, at)
    ensures x.Valid() && 1 <= k <= x.g && q < x.c[k] && i < Pow2(k)
    ensures WideOpen(x, bd, k) && Started(x, bd.tabs, at)
  {
    hide Build.Valid, Fresh, Started, WideOpen, Fits, RootOK;
  }

  /** Filling every f-th entry is filling the cells that continue the code. */
  lemma FillMem(x: Plan, bd: Build, i: nat, k: nat, lc: Locals, hp: seq<Huft>, hp': seq<Huft>)
    requires Here(x, bd, i, k, lc) && |hp'| == |hp|
    requires forall a | 0 <= a < |hp| ::
               hp'[a] == if lc.q <= a < lc.q + lc.z && (a - lc.q) % Pow2(k - lc.w) == Shr(i, lc.w) then lc.r else hp[a]
    ensures FilledMem(x, bd.tabs[bd.Top()], k, i, lc.r, hp, hp')
  {
    var top := bd.tabs[bd.Top()];
    forall a | 0 <= a < |hp| ensures hp'[a] == if HitAt(x, top, k, i, a) then lc.r else hp[a] {
      if lc.q <= a { LowIsMod(a - lc.q, k - lc.w); }
    }
  }

  /** After the fill and the increment, with the finished tables still open. */
  lemma LeavingStart(x: Plan, hp0: seq<Huft>, hp: seq<Huft>, hp': seq<Huft>, bd: Build, bd': Build, lo: nat,
                     i: nat, k: nat, q: nat, at: nat, lc1: Locals, lc: Locals, i': nat)
    requires Opening(x, hp0, hp, bd, lo, lc1.hn, i, k, q, at) && Tracks(x, bd, lc1) && Here(x, bd, i, k, lc1)
    requires lc == lc1.(r := lc.r, p := lc.p)
    requires bd' == bd.(cells := bd'.cells) && bd'.Valid(x, hp0, hp', lo, lc.hn, at + Size(x, k))
    requires i' < Pow2(k) && (Rev(k, i) + 1 < Pow2(k) ==> Rev(k, i') == Rev(k, i) + 1)
    requires k <= Reach(x, |bd.st|)
    ensures Leaving(x, hp0, hp', bd', lo, i, k, q, at, lc.(i := i'))
  {
    OpeningPath(x, hp0, hp, bd, lo, lc.hn, i, k, q, at);
    hide Build.Valid, OnPath, Fresh, Started, WideOpen, Fits, Ample;
    FollowsNext(x, i, k, q, at, i', |bd.st|);
    assert Tracks(x, bd', lc.(i := i'));
  }

  lemma FollowsNext(x: Plan, i: nat, k: nat, q: nat, at: nat, i': nat, open: nat)
    requires At(x, i, k, q, at) && k <= Reach(x, open)
    requires i' < Pow2(k) && (Rev(k, i) + 1 < Pow2(k) ==> Rev(k, i') == Rev(k, i) + 1)
    ensures Follows(x, k, at, i', open)
  {
    hide Rev, Pow2, Plan.Valid;
    var z := Pow2(x.g - k);
    RevExtend(x.g, k, i);
    RevBound(k, i);
    Pow2Add(k, x.g - k);
    Scale(Rev(k, i), Pow2(k), z);
    if at + Size(x, k) < Pow2(x.g) {
      assert Rev(k, i) + 1 != Pow2(k);
      RevExtend(x.g, k, i');
      Pow2Mono(k, x.g);
      Pow2Mono(k, Reach(x, open));
    }
  }

  lemma ReadyAfter(x: Plan, hp0: seq<Huft>, hp: seq<Huft>, bd1: Build, bd: Build, lo: nat,
                   i: nat, k: nat, q: nat, at: nat, lc: Locals)
    requires Leaving(x, hp0, hp, bd, lo, i, k, q, at, lc) && Left(bd, lc) && Low(lc.i, lc.w) == lc.x[lc.h]
    requires FreshFrom(x, bd.tabs, bd.cells, at + Size(x, k)) && lc.i < Pow2(k)
    requires bd.tabs == bd1.tabs && bd.st <= bd1.st && WideOpen(x, bd1, k) && Started(x, bd1.tabs, at)
    ensures Ready(x, hp0, hp, bd, lo, lc.hn, lc.i, k, at + Size(x, k)) && Tracks(x, bd, lc)
  {
    hide Done, Spare, Chain, Closed, Kept, Fresh, Ample, FreshFrom, OnPath, Pow2, Rev, End;
    assert Size(x, k) >= 1;
  }

  /** One code: tables for it, its entries, and the way to the next. */
  method PlaceCode(ghost x: Plan, ghost hp0: seq<Huft>, ghost bd0: Build, ghost lo: nat, ghost q: nat, ghost at: nat,
                   s: nat, d: seq<nat>, e: seq<nat>, c: seq<nat>, g: nat, l: nat, k: nat, a: nat,
                   v: seq<nat>, n: nat, hp: array<Huft>, lc0: Locals)
    returns (ok: bool, lc: Locals, ghost bd: Build)
    requires hp.Length == MANY && c == x.c && g == x.g && l == x.l && s == x.al.s && d == x.al.d && e == x.al.e
    requires Between(x, hp0, hp[..], bd0, lo, v, n, k, q, at, lc0)
    requires 1 <= k <= g < |c| && q < c[k] && a + 1 + q == c[k]
    requires at == End(c, g, k - 1) + q * Pow2(g - k) < Pow2(g)
    modifies hp
    ensures ok ==> Between(x, hp0, hp[..], bd, lo, v, n, k, q + 1, at + Size(x, k), lc) && bd.st != []
    ensures ok ==> WritesOnce(old(hp[..]), bd0.cells, hp[..], bd.cells)
    ensures !ok ==> Overfull(x, lo, MANY)
    ensures !ok ==> lo + Pow2(l) > MANY || l < g
  {
    hide Opening, Ready, Tracks, AtTop, Sorted, WideSeen, At, Leaving, CanFill, Plan.Valid, FilledMem, Shows;
    hide Deepened, FreshFrom, Here, Build.Valid, WideOpen, Started, Leftover, Space, Overfull;
    ReadyOpening(x, hp0, hp[..], bd0, lo, lc0.hn, lc0.i, k, q, at);
    ghost var mem := hp[..];
    ok, lc, bd := OpenTables(x, hp0, bd0, lo, q, at, c, g, l, k, a, hp, lc0);
    if !ok {
      return;
    }
    ghost var bd1, i, mem1 := bd, lc.i, hp[..];
    WideAfter(x, hp0, mem, mem1, bd0, lo, lc0.hn, lc.hn, i, k, q, at, bd1);
    HereFacts(x, hp0, mem1, bd1, lo, i, k, q, at, lc);
    OpeningRest(x, hp0, mem1, bd1, lo, lc.hn, i, k, q, at);
    ghost var lc1 := lc;
    LeftoverKept(x, lc0.r, lc.r, q);
    lc, bd := EnterCode(x, hp0, bd1, lo, q, at, s, d, e, k, v, n, hp, lc);
    WritesOnceTwice(mem, bd0.cells, mem1, bd1.cells, hp[..], bd.cells);
    var i' := NextCode(lc.i, k);
    LeavingStart(x, hp0, mem1, hp[..], bd1, bd, lo, i, k, q, at, lc1, lc, i');
    lc := lc.(i := i');
    lc, bd := BackUp(x, hp0, hp[..], bd, lo, i, k, q, at, l, lc);
    ReadyAfter(x, hp0, hp[..], bd1, bd, lo, i, k, q, at, lc);
    BetweenAfter(x, hp0, hp[..], bd1, bd, lo, v, n, k, q, at, lc1, lc);
  }

  lemma BetweenAfter(x: Plan, hp0: seq<Huft>, hp: seq<Huft>, bd1: Build, bd: Build, lo: nat, v: seq<nat>, n: nat,
                     k: nat, q: nat, at: nat, lc1: Locals, lc: Locals)
    requires Ready(x, hp0, hp, bd, lo, lc.hn, lc.i, k, at + Size(x, k)) && Tracks(x, bd, lc) && Left(bd, lc)
    requires AtTop(bd1, lc1) && bd.st <= bd1.st && bd.tabs == bd1.tabs && lc.z == lc1.z && lc.q == lc1.q
    requires |bd.st| < |bd1.st| ==> Reach(x, |bd.st|) < k
    requires Sorted(x.al.b, v, n) && lc.p == Cursor(x.al.b, k, q + 1) && x.Valid() && Leftover(x, lc.r, q + 1)
    requires WideSeen(x, bd.tabs, k, q + 1) && Space(x, bd.tabs, lo, lc.hn)
    ensures Between(x, hp0, hp, bd, lo, v, n, k, q + 1, at + Size(x, k), lc)
  {
    hide Ready, Tracks, Sorted, Leftover, WideSeen, Cursor, Space;
    if |bd.st| == |bd1.st| { assert bd.st == bd1.st; }
  }

  lemma LeftoverKept(x: Plan, r: Huft, r': Huft, q: nat)
    requires x.Valid() && Leftover(x, r, q) && (x.l == x.g ==> r' == r)
    ensures Leftover(x, r', q)
  {
  }

  /** The entries of one code. */
  method EnterCode(ghost x: Plan, ghost hp0: seq<Huft>, ghost bd: Build, ghost lo: nat, ghost q: nat, ghost at: nat,
                   s: nat, d: seq<nat>, e: seq<nat>, k: nat, v: seq<nat>, n: nat, hp: array<Huft>, lc0: Locals)
    returns (lc: Locals, ghost bd': Build)
    requires hp.Length == MANY && s == x.al.s && d == x.al.d && e == x.al.e
    requires Opening(x, hp0, hp[..], bd, lo, lc0.hn, lc0.i, k, q, at) && Here(x, bd, lc0.i, k, lc0)
    requires k <= Reach(x, |bd.st|) && lc0.hn <= MANY && x.Valid() && 1 <= k <= x.g && q < x.c[k]
    requires Sorted(x.al.b, v, n) && lc0.p == Cursor(x.al.b, k, q) && Leftover(x, lc0.r, q)
    modifies hp
    ensures bd' == bd.(cells := bd'.cells) && bd'.Valid(x, hp0, hp[..], lo, lc0.hn, at + Size(x, k))
    ensures FreshFrom(x, bd'.tabs, bd'.cells, at + Size(x, k))
    ensures lc == lc0.(r := lc.r, p := Cursor(x.al.b, k, q + 1)) && Leftover(x, lc.r, q + 1)
    ensures WritesOnce(old(hp[..]), bd.cells, hp[..], bd'.cells)
  {
    hide Opening, Sorted, At, CanFill, Plan.Valid, FilledMem, Shows, FreshFrom, Build.Valid, Leftover;
    OpeningFill(x, hp0, hp[..], bd, lo, lc0.hn, lc0.i, k, q, at);
    ghost var mem := hp[..];
    lc := MakeEntry(x, k, q, s, d, e, v, n, k - lc0.w, lc0);
    var f := Pow2(k - lc.w);
    FillEntries(hp, lc.q, Shr(lc.i, lc.w), lc.z, f, lc.r);
    FillMem(x, bd, lc.i, k, lc, mem, hp[..]);
    FillValid(x, hp0, mem, hp[..], bd, lo, lc.hn, lc.i, k, q, at, lc.r);
    FillWritesOnce(x, hp0, mem, hp[..], bd, lo, lc.hn, lc.i, k, q, at, lc.r);
    bd' := bd.(cells := FilledCells(x, bd.tabs[bd.Top()], k, lc.i, q, bd.cells));
  }

  // ----- all codes

  function Initial(l: nat, hn: nat, r: Huft): Locals {
    Locals(-1, 0 - l, 0, 0, seq(BMAX, _ => 0), seq(BMAX + 1, _ => 0), hn, 0, 0, r)
  }

  lemma BetweenStart(x: Plan, hp: seq<Huft>, lo: nat, v: seq<nat>, n: nat, k: nat, lc: Locals, bd: Build)
    requires x.Valid() && 1 <= k <= x.l && lo <= |hp| && Sorted(x.al.b, v, n)
    requires forall len | 1 <= len < k :: x.c[len] == 0
    requires bd == Blank(|hp|)
    requires lc == Initial(x.l, lo, lc.r)
    ensures Between(x, hp, hp, bd, lo, v, n, k, 0, 0, lc) && End(x.c, x.g, k - 1) == 0
  {
    BuildStart(x, hp, lo, bd);
    NothingYet(x, lo);
    BookStart(x, bd, lo, k);
    NoneBefore(x.c, x.g, k - 1);
    NoneShorter(x, k);
    ReachNext(x, 0);
    WideNone(x, k);
    hide Build.Valid, FreshFrom, ReadyBook, Sorted, Plan.Valid, End, Space, Reach, WideSeen;
    assert Leftover(x, lc.r, 0);
  }

  lemma WideNone(x: Plan, k: nat)
    requires forall len | 1 <= len < k && len < |x.c| :: x.c[len] == 0
    ensures WideSeen(x, [], k, 0)
  {
  }

  lemma BookStart(x: Plan, bd: Build, lo: nat, k: nat)
    requires x.Valid() && bd.tabs == [] && bd.st == []
    ensures ReadyBook(x, bd, lo, 0, k, 0)
  {
    RevZero(x.g);
  }

  ghost function Blank(n: nat): Build { Build([], seq(n, _ => Empty), [], []) }

  lemma PlanCountsAll(x: Plan)
    requires x.Valid()
    ensures 1 <= x.l <= x.g < |x.c| == BMAX + 1
  {
  }

  lemma BuildStart(x: Plan, hp: seq<Huft>, lo: nat, bd: Build)
    requires x.Valid() && lo <= |hp| && bd == Blank(|hp|)
    ensures bd.Valid(x, hp, hp, lo, lo, 0) && FreshFrom(x, bd.tabs, bd.cells, 0)
  {
  }

  lemma {:induction false} NoneShorter(x: Plan, k: nat)
    requires x.Valid() && 1 <= k <= x.g && forall len | 1 <= len < k :: x.c[len] == 0
    ensures Off(x.al.b, k) == 0
  {
    if k > 1 { NoneShorter(x, k - 1); }
  }

  lemma NextLength(x: Plan, hp0: seq<Huft>, hp: seq<Huft>, bd: Build, lo: nat, v: seq<nat>, n: nat,
                   k: nat, at: nat, lc: Locals)
    requires 1 <= k < x.g && x.Valid() && Between(x, hp0, hp, bd, lo, v, n, k, x.c[k], at, lc) && bd.st != []
    requires at == End(x.c, x.g, k)
    ensures Between(x, hp0, hp, bd, lo, v, n, k + 1, 0, at, lc)
  {
    hide Build.Valid, FreshFrom, Tracks, Sorted, Plan.Valid, Space;
    PlanCounts(x, k);
    OffNext(x.al.b, k);
    if at < Pow2(x.g) { Pow2Mono(k, k + 1); }
    ReadyLonger(x, bd, lo, lc.i, k, at);
  }

  lemma PlanCounts(x: Plan, k: nat)
    requires x.Valid() && 1 <= k < x.g
    ensures k < |x.c| && x.c[k] == Count(x.al.b, k) && x.g > 1
  {
  }

  lemma ReadyLonger(x: Plan, bd: Build, lo: nat, i: nat, k: nat, at: nat)
    requires ReadyBook(x, bd, lo, i, k, at) && 1 <= k < x.g
    ensures ReadyBook(x, bd, lo, i, k + 1, at)
  {
    hide RootOK, Fits, Plan.Valid, Lo;
    Pow2Mono(k, k + 1);
  }

  /** Generates the codes and makes the table entries for each. */
  method PlaceCodes(ghost x: Plan, ghost hp0: seq<Huft>, s: nat, d: seq<nat>, e: seq<nat>,
                    c: seq<nat>, g: nat, l: nat, j: nat, v: seq<nat>, n: nat, hp: array<Huft>, hn: nat)
    returns (ok: bool, hn': nat, ghost bd: Build)
    requires hp.Length == MANY && c == x.c && g == x.g && l == x.l && s == x.al.s && d == x.al.d && e == x.al.e
    requires x.Valid() && 1 <= j <= l && hn <= MANY && Sorted(x.al.b, v, n) && c[j] > 0
    requires forall len | 1 <= len < j :: c[len] == 0
    requires hp0 == hp[..]
    modifies hp
    ensures ok ==> Built(x, bd, hp0, hp[..], hn, hn') && Space(x, bd.tabs, hn, hn')
    ensures !ok ==> Overfull(x, hn, MANY)
    ensures !ok ==> hn + Pow2(l) > MANY || l < g
  {
    hide AtLength, Plan.Valid, Sorted, Built, Blank, Initial, Space, Overfull;
    PlanCountsAll(x);
    var r: Huft := *;
    var lc := Initial(l, hn, r);
    bd := Blank(MANY);
    var k := j;
    FirstLength(x, hp0, hn, v, n, j, lc, r, bd);
    while k <= g
      invariant j <= k <= g + 1
      invariant AtLength(x, hp0, hp[..], bd, hn, v, n, j, k, lc)
      decreases g + 1 - k
    {
      AtLengthBetween(x, hp0, hp[..], bd, hn, v, n, j, k, lc);
      ghost var was := bd;
      ok, lc, bd := PlaceLength(x, hp0, bd, hn, End(c, g, k - 1), s, d, e, c, g, l, k, v, n, hp, lc);
      if !ok {
        hn' := hn;
        return;
      }
      LengthPlaced(x, hp0, hp[..], was, bd, hn, v, n, j, k, lc);
      k := k + 1;
    }
    ok := true;
    hn' := lc.hn;
    AllPlaced(x, hp0, hp[..], bd, hn, v, n, j, lc);
  }

  /** All codes shorter than `k` are placed. */
  ghost predicate AtLength(x: Plan, hp0: seq<Huft>, hp: seq<Huft>, bd: Build, lo: nat, v: seq<nat>, n: nat,
                           j: nat, k: nat, lc: Locals)
    requires x.Valid()
  {
    1 <= j <= k && (k > j ==> bd.st != [])
    && if k <= x.g then Between(x, hp0, hp, bd, lo, v, n, k, 0, End(x.c, x.g, k - 1), lc)
       else k == x.g + 1 && Between(x, hp0, hp, bd, lo, v, n, x.g, x.c[x.g], Pow2(x.g), lc)
  }

  lemma FirstLength(x: Plan, hp0: seq<Huft>, lo: nat, v: seq<nat>, n: nat, j: nat, lc: Locals, r: Huft, bd: Build)
    requires x.Valid() && 1 <= j <= x.l && lo <= |hp0| && Sorted(x.al.b, v, n)
    requires forall len | 1 <= len < j :: x.c[len] == 0
    requires bd == Blank(|hp0|) && lc == Initial(x.l, lo, r)
    ensures AtLength(x, hp0, hp0, bd, lo, v, n, j, j, lc)
  {
    hide Between;
    BetweenStart(x, hp0, lo, v, n, j, lc, bd);
  }

  lemma AtLengthBetween(x: Plan, hp0: seq<Huft>, hp: seq<Huft>, bd: Build, lo: nat, v: seq<nat>, n: nat,
                        j: nat, k: nat, lc: Locals)
    requires x.Valid() && AtLength(x, hp0, hp, bd, lo, v, n, j, k, lc) && k <= x.g
    ensures Between(x, hp0, hp, bd, lo, v, n, k, 0, End(x.c, x.g, k - 1), lc)
    ensures 1 <= j <= k && (k > j ==> bd.st != [])
  {
    hide Between;
  }

  lemma LengthPlaced(x: Plan, hp0: seq<Huft>, hp: seq<Huft>, was: Build, bd: Build, lo: nat, v: seq<nat>, n: nat,
                     j: nat, k: nat, lc: Locals)
    requires x.Valid() && 1 <= j <= k <= x.g && x.c[j] > 0
    requires Between(x, hp0, hp, bd, lo, v, n, k, x.c[k], End(x.c, x.g, k), lc)
    requires (x.c[k] > 0 || was.st != [] ==> bd.st != []) && (k > j ==> was.st != [])
    ensures AtLength(x, hp0, hp, bd, lo, v, n, j, k + 1, lc)
  {
    hide Between;
    if k < x.g { NextLength(x, hp0, hp, bd, lo, v, n, k, End(x.c, x.g, k), lc); }
  }

  /** The codes of one length. */
  method PlaceLength(ghost x: Plan, ghost hp0: seq<Huft>, ghost bd0: Build, ghost lo: nat, ghost at0: nat,
                     s: nat, d: seq<nat>, e: seq<nat>, c: seq<nat>, g: nat, l: nat, k: nat,
                     v: seq<nat>, n: nat, hp: array<Huft>, lc0: Locals)
    returns (ok: bool, lc: Locals, ghost bd: Build)
    requires hp.Length == MANY && c == x.c && g == x.g && l == x.l && s == x.al.s && d == x.al.d && e == x.al.e
    requires x.Valid() && 1 <= k <= g < |c|
    requires Between(x, hp0, hp[..], bd0, lo, v, n, k, 0, at0, lc0) && at0 == End(c, g, k - 1)
    modifies hp
    ensures ok ==> Between(x, hp0, hp[..], bd, lo, v, n, k, c[k], End(c, g, k), lc)
    ensures ok ==> (c[k] > 0 || bd0.st != [] ==> bd.st != [])
    ensures !ok ==> Overfull(x, lo, MANY)
    ensures !ok ==> lo + Pow2(l) > MANY || l < g
  {
    hide Between, Plan.Valid, Pow2, End;
    lc, bd := lc0, bd0;
    ghost var at: nat, q: nat := at0, 0;
    var a := c[k];
    while a != 0
      invariant 0 <= a <= c[k] && q == c[k] - a
      invariant Between(x, hp0, hp[..], bd, lo, v, n, k, q, at, lc)
      invariant at == End(c, g, k - 1) + q * Pow2(g - k)
      invariant q > 0 || bd0.st != [] ==> bd.st != []
    {
      a := a - 1;
      CodeFits(x, k, q);
      ok, lc, bd := PlaceCode(x, hp0, bd, lo, q, at, s, d, e, c, g, l, k, a, v, n, hp, lc);
      if !ok {
        return;
      }
      NextWidth(q, Pow2(g - k));
      at := at + Size(x, k);
      q := q + 1;
    }
    EndStep(c, g, k);
    ok := true;
  }

  lemma EndStep(c: seq<nat>, g: nat, k: nat)
    requires 1 <= k <= g < |c|
    ensures End(c, g, k) == End(c, g, k - 1) + c[k] * Pow2(g - k)
  {
  }

  lemma CodeFits(x: Plan, k: nat, q: nat)
    requires x.Valid() && 1 <= k <= x.g && q < x.c[k]
    ensures End(x.c, x.g, k - 1) + q * Pow2(x.g - k) < Pow2(x.g)
  {
    EndMono(x.c, x.g, k, x.g);
    Room(q, x.c[k], Pow2(x.g - k));
  }

  /** The tables in `hp` between `lo` and `hn`, starting with the one at `lo`, are complete; they contain
      one too wide for its links exactly if the lengths have a code that calls for it. */
  ghost predicate Built(x: Plan, bd: Build, hp0: seq<Huft>, hp: seq<Huft>, lo: nat, hn: nat) {
    && bd.Valid(x, hp0, hp, lo, hn, Pow2(x.g)) && RootOK(x, bd, lo) && bd.st != []
    && (HasWide(x, bd.tabs) <==> x.Wide())
  }

  lemma AllPlaced(x: Plan, hp0: seq<Huft>, hp: seq<Huft>, bd: Build, lo: nat, v: seq<nat>, n: nat, j: nat, lc: Locals)
    requires x.Valid() && j <= x.g && AtLength(x, hp0, hp, bd, lo, v, n, j, x.g + 1, lc)
    ensures Built(x, bd, hp0, hp, lo, lc.hn) && Space(x, bd.tabs, lo, lc.hn)
  {
    hide Build.Valid, FreshFrom, Tracks, Sorted, HasWide, Space;
    if x.Wide() {
      var lvl: nat, len: nat, q: nat :| x.WideAt(lvl, len, q);
    }
  }

  // ----- huft_build

  const NULL := -1

  /** The least code length in use. */
  ghost predicate IsMinLen(b: seq<nat>, j: nat) {
    1 <= j && (exists i :: 0 <= i < |b| && b[i] == j) && forall i | 0 <= i < |b| && b[i] > 0 :: j <= b[i]
  }

  /** The index width used when `m` is asked for: no less than the shortest code, no more than the longest. */
  ghost predicate IsIndexWidth(b: seq<nat>, m: nat, l: nat) {
    exists j: nat :: IsMinLen(b, j) && l == Min(Max(m, j), MaxLen(b))
  }

  function Min(a: nat, b: nat): nat { if a < b then a else b }
  function Max(a: nat, b: nat): nat { if a < b then b else a }

  /** The plan huft_build follows for these lengths. */
  ghost function PlanOf(al: Alphabet, l: nat): Plan {
    var g := MaxLen(al.b);
    var c := Counts(al.b);
    if g > BMAX || End(c, g, g) > Pow2(g) then Plan(al, g, l, c)
    else Plan(al, g, l, c[g := c[g] + Pow2(g) - End(c, g, g)])
  }

  lemma PlanOfValid(al: Alphabet, l: nat)
    requires al.Valid() && 1 <= l <= MaxLen(al.b) <= BMAX
    requires End(Counts(al.b), MaxLen(al.b), MaxLen(al.b)) <= Pow2(MaxLen(al.b))
    ensures PlanOf(al, l).Valid()
  {
    var x := PlanOf(al, l);
    var c := Counts(al.b);
    var i :| 0 <= i < |al.b| && al.b[i] == x.g;
    CountPresent(al.b, i);
    EndSame(c, x.c, x.g, x.g - 1);
    assert Pow2(0) == 1;
    Times(c[x.g], x.c[x.g]);
  }

  lemma Times(a: nat, b: nat)
    ensures a * Pow2(0) == a && b * Pow2(0) == b
  {
  }

  /** Makes decoding tables for the code lengths `b` in `hp`, from entry `hn` on.
      `t` is the address of the first table, `m'` the width of its index. */
  method BuildTables(b: seq<nat>, s: nat, d: seq<nat>, e: seq<nat>, m: nat, hp: array<Huft>, hn: nat, v: array<nat>)
    returns (r: int, t: int, m': nat, hn': nat, ghost bd: Build)
    requires b != [] && Alphabet(b, s, d, e).Valid() && hp.Length == MANY && hn <= MANY && |b| <= v.Length
    modifies hp, v
    ensures r in {Z_OK, Z_DATA_ERROR, Z_MEM_ERROR, Z_BUF_ERROR}
    ensures MaxLen(b) == 0 ==> r == Z_OK && t == NULL && m' == 0 && hn' == hn && hp[..] == old(hp[..])
    ensures r == Z_DATA_ERROR <==> Kraft(b) > Pow2(BMAX)
    ensures r in {Z_OK, Z_BUF_ERROR} ==> (r == Z_BUF_ERROR <==> 0 < Kraft(b) < Pow2(BMAX) && MaxLen(b) != 1)
    ensures MaxLen(b) > 0 ==> IsIndexWidth(b, m, m')
    ensures r == Z_MEM_ERROR ==> MaxLen(b) > 0 && Overfull(PlanOf(Alphabet(b, s, d, e), m'), hn, MANY)
    ensures r == Z_MEM_ERROR ==> MaxLen(b) > 0 && (hn + Pow2(m') > MANY || m' < MaxLen(b))
    ensures MaxLen(b) > 0 && r in {Z_OK, Z_BUF_ERROR} ==>
      t == hn && Built(PlanOf(Alphabet(b, s, d, e), m'), bd, old(hp[..]), hp[..], hn, hn')
      && Space(PlanOf(Alphabet(b, s, d, e), m'), bd.tabs, hn, hn')
  {
    hide Built, Plan.Valid, Alphabet.Valid, LengthsOK, Kraft, MaxLen, Pow2, Count, End, IsIndexWidth, Sorted;
    hide Overfull, Space;
    ghost var al := Alphabet(b, s, d, e);
    AlphabetLengths(al);
    t, hn' := NULL, hn;
    bd := Blank(0);
    var c, j, i, y;
    r, c, j, i, m', y := Survey(al, b, m);
    if i == 0 || r != Z_OK {
      return;
    }
    var n := SortSymbols(b, c, i, v);
    var ok;
    ok, hn', bd := PlaceCodes(PlanOf(al, m'), hp[..], s, d, e, c, i, m', j, v[..], n, hp, hn);
    if !ok {
      r := Z_MEM_ERROR;
      return;
    }
    t := hn;
    r := if y != 0 && i != 1 then Z_BUF_ERROR else Z_OK;
  }

  lemma AlphabetLengths(al: Alphabet)
    requires al.Valid()
    ensures LengthsOK(al.b)
  {
  }

  /** The first half of huft_build: count the lengths, find the least and the greatest in use, fit the
      index width between them, and top the greatest up with dummy codes. */
  method Survey(ghost al: Alphabet, b: seq<nat>, m: nat) returns (r: int, c: seq<nat>, j: nat, i: nat, l: nat, y: int)
    requires b != [] && al.Valid() && al.b == b
    ensures i == MaxLen(b) && (i == 0 ==> r == Z_OK && l == 0 && Kraft(b) == 0)
    ensures r in {Z_OK, Z_DATA_ERROR} && (r == Z_DATA_ERROR <==> Kraft(b) > Pow2(BMAX))
    ensures i > 0 ==> IsIndexWidth(b, m, l) && Kraft(b) > 0
    ensures i > 0 && r == Z_OK ==>
      && PlanOf(al, l).Valid() && c == PlanOf(al, l).c && PlanOf(al, l).g == i && 1 <= j <= l <= i <= BMAX
      && |c| == BMAX + 1 && c[j] > 0 && (forall len | 1 <= len < j :: c[len] == 0)
      && (forall len | 1 <= len < i :: c[len] == Count(b, len))
      && (y != 0 <==> Kraft(b) < Pow2(BMAX))
  {
    hide Plan.Valid, Alphabet.Valid, LengthsOK, Kraft, MaxLen, Pow2, End, IsIndexWidth;
    AlphabetLengths(al);
    c := Tally(b);
    AllZero(b);
    j, i, l, y := 0, 0, 0, 0;
    if c[0] == |b| {
      ZeroLengths(b);
      return Z_OK, c, j, i, l, y;
    }
    l := m;
    j, i := Extremes(b, c);
    if l < j { l := j; }
    if l > i { l := i; }
    MinLenIs(b, m, j, l);
    var ok;
    ok, y := Missing(c, j, i);
    KraftDecides(b);
    if !ok {
      return Z_DATA_ERROR, c, j, i, l, y;
    }
    c := c[i := c[i] + y];
    PlanOfValid(al, l);
    r := Z_OK;
  }

  lemma {:induction false} ZeroLengths(b: seq<nat>)
    requires LengthsOK(b) && forall i | 0 <= i < |b| :: b[i] == 0
    ensures Kraft(b) == 0 && MaxLen(b) == 0 && Pow2(BMAX) >= 1
  {
    if b != [] { ZeroLengths(b[..|b| - 1]); }
  }

  lemma MinLenIs(b: seq<nat>, m: nat, j: nat, l: nat)
    requires LengthsOK(b) && 1 <= j <= BMAX && Count(b, j) > 0
    requires forall len | 1 <= len < j :: Counts(b)[len] == 0
    requires l == Min(Max(m, j), MaxLen(b))
    ensures IsIndexWidth(b, m, l)
  {
    hide MaxLen;
    assert b[Nth(b, j, 0)] == j;
    forall i | 0 <= i < |b| && b[i] > 0 ensures j <= b[i] {
      CountPresent(b, i);
      assert Counts(b)[b[i]] > 0;
    }
    assert IsMinLen(b, j);
  }
}
