/** Filling a code into the open table, and closing the tables the next position leaves behind. */
module HuftFill {
  import opened Bits
  import opened Huffman
  import opened HuftTables
  import opened HuftGrow

  /** Entry `idx` of a table starting `w` bits into the code continues the `k`-bit code `i`. */
  ghost predicate Hit(w: nat, k: nat, i: nat, idx: nat) {
    w <= k && Low(idx, k - w) == Shr(i, w)
  }

  ghost predicate HitAt(x: Plan, tab: Tab, k: nat, i: nat, a: nat) {
    tab.base <= a < tab.base + Pow2(tab.j) && Hit(Width(x, tab), k, i, a - tab.base)
  }

  /** Every open table is reached by the first bits of `i`. */
  ghost predicate OnPath(x: Plan, tabs: seq<Tab>, st: seq<nat>, i: nat) {
    forall v | 0 <= v < |st| :: st[v] < |tabs| && tabs[st[v]].pre == Low(i, Width(x, tabs[st[v]]))
  }

  ghost predicate CanFill(x: Plan, hp0: seq<Huft>, hp: seq<Huft>, bd: Build, lo: nat, hn: nat,
                          i: nat, k: nat, q: nat, at: nat)
  {
    && bd.Valid(x, hp0, hp, lo, hn, at) && At(x, i, k, q, at)
    && bd.st != [] && OnPath(x, bd.tabs, bd.st, i)
    && var top := bd.tabs[bd.Top()];
       Width(x, top) < k <= Width(x, top) + top.j && top.j <= x.l
       && Fresh(x, bd.tabs, bd.cells, at, bd.Top())
  }

  /** Memory with the entry `r` at every cell that continues the code. */
  ghost predicate FilledMem(x: Plan, tab: Tab, k: nat, i: nat, r: Huft, hp: seq<Huft>, hp': seq<Huft>) {
    && |hp'| == |hp|
    && forall a | 0 <= a < |hp| :: hp'[a] == if HitAt(x, tab, k, i, a) then r else hp[a]
  }

  ghost function FilledCells(x: Plan, tab: Tab, k: nat, i: nat, q: nat, cells: seq<Cell>): (c: seq<Cell>)
    ensures |c| == |cells|
  {
    seq(|cells|, a requires 0 <= a < |cells| => if HitAt(x, tab, k, i, a) then Leaf(k, q) else cells[a])
  }

  lemma HitIff(x: Plan, tabs: seq<Tab>, t: nat, i: nat, k: nat, q: nat, at: nat, idx: nat)
    requires At(x, i, k, q, at) && t < |tabs| && TabOK(x, tabs[t], 0, tabs[t].base + Pow2(tabs[t].j))
    requires In(x, tabs, t, idx) && Width(x, tabs[t]) <= k && tabs[t].pre == Low(i, Width(x, tabs[t]))
    ensures Hit(Width(x, tabs[t]), k, i, idx) <==> at <= Pos(x, tabs, t, idx) < at + Pow2(x.g - k)
    ensures Hit(Width(x, tabs[t]), k, i, idx) <==> Low(Prefix(x, tabs[t], idx), k) == i
  {
    hide Pow2, Cat, Low, Shr, Rev;
    var w, pre := Width(x, tabs[t]), tabs[t].pre;
    PosInTab(x, tabs, t, idx);
    RevInterval(x.g, k, i, Prefix(x, tabs[t], idx));
    CatLow(w, pre, idx, k);
    CatSplit(w, i);
    CatParts(w, pre, Low(idx, k - w));
    CatParts(w, pre, Shr(i, w));
  }

  /** A position in the interval of the code being filled in lies in an open table. */
  lemma CoveredOpen(x: Plan, tabs: seq<Tab>, st: seq<nat>, hi: nat,
                    i: nat, k: nat, q: nat, at: nat, t: nat, idx: nat)
    requires At(x, i, k, q, at) && In(x, tabs, t, idx) && Shape(x, tabs, 0, hi)
    requires Closed(x, tabs, st, at) && at <= Pos(x, tabs, t, idx)
    ensures tabs[t].lvl < |st| && st[tabs[t].lvl] == t
  {
    PosInTab(x, tabs, t, idx);
  }

  lemma LeafOK(x: Plan, hp: seq<Huft>, tabs: seq<Tab>, cells: seq<Cell>, t: nat, idx: nat,
               i: nat, k: nat, q: nat, at: nat)
    requires At(x, i, k, q, at) && In(x, tabs, t, idx) && |hp| == |cells| && TabOK(x, tabs[t], 0, |hp|)
    requires var w := Width(x, tabs[t]); w < k <= w + tabs[t].j && tabs[t].j <= x.l
    requires Low(Prefix(x, tabs[t], idx), k) == i
    requires cells[tabs[t].base + idx] == Leaf(k, q)
    requires hp[tabs[t].base + idx].bits == k - Width(x, tabs[t]) && Shows(x, hp[tabs[t].base + idx], k, q)
    ensures CellOK(x, hp, tabs, cells, t, idx)
  {
    CodeAt(x, i, k, q, at);
    RevLow(k, Prefix(x, tabs[t], idx), k);
  }

  /** The position determines the code word. */
  lemma CodeAt(x: Plan, i: nat, k: nat, q: nat, at: nat)
    requires At(x, i, k, q, at)
    ensures Rev(k, i) == FirstCode(x.c, k) + q
  {
    hide Rev, Pow2, FirstCode, End, MaxLen, Count;
    assert x.Valid() && 1 <= k <= x.g;
    RevExtend(x.g, k, i);
    FirstCodeEnd(x.c, x.g, k);
    SplitCancel(Rev(k, i), FirstCode(x.c, k), q, Pow2(x.g - k));
  }

  lemma SplitCancel(r: nat, f: nat, q: nat, z: nat)
    requires z >= 1 && r * z == f * z + q * z
    ensures r == f + q
  {
    assert (f + q) * z == f * z + q * z;
    Cancel(r, f + q, z);
  }

  lemma Cancel(a: nat, b: nat, z: nat)
    requires z >= 1 && a * z == b * z
    ensures a == b
  {
    if a < b { Scale(a + 1, b, z); Scale(a, b, z); }
    if b < a { Scale(b + 1, a, z); Scale(b, a, z); }
  }

  /** Of an open table that is not the last, the one cell reached by `i` is its link. */
  lemma BelowIsLink(x: Plan, hp: seq<Huft>, tabs: seq<Tab>, cells: seq<Cell>, par: seq<nat>, st: seq<nat>,
                    i: nat, k: nat, q: nat, at: nat, t: nat, idx: nat)
    requires At(x, i, k, q, at) && |hp| == |cells| && Shape(x, tabs, 0, |hp|) && In(x, tabs, t, idx)
    requires Chain(x, hp, tabs, cells, par, st) && OnPath(x, tabs, st, i)
    requires tabs[t].lvl + 1 < |st| && st[tabs[t].lvl] == t && Width(x, tabs[t]) + x.l < k
    requires at <= Pos(x, tabs, t, idx) < at + Pow2(x.g - k)
    ensures CellOK(x, hp, tabs, cells, t, idx)
  {
    hide Cat, Pow2, Rev, Count, Prefix;
    var v := tabs[t].lvl + 1;
    var u := st[v];
    assert Hangs(x, hp, tabs, cells, par, u);
    NextWidth(v - 1, x.l);
    HitIff(x, tabs, t, i, k, q, at, idx);
    PosInTab(x, tabs, t, idx);
    WholeCell(x, tabs[t], tabs[u], i, k, idx);
  }

  lemma WholeCell(x: Plan, t: Tab, u: Tab, i: nat, k: nat, idx: nat)
    requires t.pre < Pow2(Width(x, t)) && Width(x, u) == Width(x, t) + x.l < k
    requires u.pre == Low(i, Width(x, u)) && Low(Prefix(x, t, idx), k) == i
    requires Prefix(x, t, idx) < Pow2(Width(x, t) + x.l)
    ensures idx == Shr(u.pre, Width(x, t))
  {
    Pow2Mono(Width(x, u), k);
    LowBound(Prefix(x, t, idx), k);
    LowBound(i, Width(x, u));
    CatParts(Width(x, t), t.pre, idx);
  }

  lemma FillKeeps(x: Plan, hp: seq<Huft>, hp': seq<Huft>, tabs: seq<Tab>, cells: seq<Cell>, tab: Tab,
                  i: nat, k: nat, q: nat, r: Huft, t: nat, idx: nat)
    requires x.Valid() && |hp| == |cells| && In(x, tabs, t, idx) && TabOK(x, tabs[t], 0, |hp|)
    requires FilledMem(x, tab, k, i, r, hp, hp') && !HitAt(x, tab, k, i, tabs[t].base + idx)
    requires CellOK(x, hp, tabs, cells, t, idx)
    ensures CellOK(x, hp', tabs, FilledCells(x, tab, k, i, q, cells), t, idx)
  {
    InBounds(x, tabs[t], idx);
    var a := tabs[t].base + idx;
    assert hp'[a] == hp[a] && FilledCells(x, tab, k, i, q, cells)[a] == cells[a];
  }

  /** A cell the code does not cover is not written. */
  lemma NotHit(x: Plan, hp0: seq<Huft>, hp: seq<Huft>, bd: Build, lo: nat, hn: nat,
               i: nat, k: nat, q: nat, at: nat, t: nat, idx: nat)
    requires CanFill(x, hp0, hp, bd, lo, hn, i, k, q, at)
    requires t < |bd.tabs| && idx < Pow2(bd.tabs[t].j)
    requires t == bd.Top() ==> !(at <= Pos(x, bd.tabs, t, idx) < at + Pow2(x.g - k))
    ensures !HitAt(x, bd.tabs[bd.Top()], k, i, bd.tabs[t].base + idx)
  {
    hide Pow2, Plan.Valid;
    var top := bd.Top();
    var a := bd.tabs[t].base + idx;
    if HitAt(x, bd.tabs[top], k, i, a) {
      SameCell(x, bd.tabs, lo, hn, t, idx, top, a - bd.tabs[top].base);
      HitIff(x, bd.tabs, top, i, k, q, at, idx);
    }
  }

  lemma FillDone(x: Plan, hp0: seq<Huft>, hp: seq<Huft>, hp': seq<Huft>, bd: Build, lo: nat, hn: nat,
                 i: nat, k: nat, q: nat, at: nat, r: Huft)
    requires CanFill(x, hp0, hp, bd, lo, hn, i, k, q, at)
    requires FilledMem(x, bd.tabs[bd.Top()], k, i, r, hp, hp')
    requires r.bits == k - Width(x, bd.tabs[bd.Top()]) && Shows(x, r, k, q)
    ensures Done(x, hp', bd.tabs, FilledCells(x, bd.tabs[bd.Top()], k, i, q, bd.cells), at + Pow2(x.g - k))
  {
    forall t: nat, idx: nat | In(x, bd.tabs, t, idx) && Pos(x, bd.tabs, t, idx) < at + Pow2(x.g - k)
      ensures CellOK(x, hp', bd.tabs, FilledCells(x, bd.tabs[bd.Top()], k, i, q, bd.cells), t, idx)
    {
      if Pos(x, bd.tabs, t, idx) < at || t != bd.Top() {
        FillOther(x, hp0, hp, hp', bd, lo, hn, i, k, q, at, r, t, idx);
      } else {
        FillCovered(x, hp, hp', bd.tabs, bd.cells, t, idx, i, k, q, at, r);
      }
    }
  }

  lemma FillCovered(x: Plan, hp: seq<Huft>, hp': seq<Huft>, tabs: seq<Tab>, cells: seq<Cell>, t: nat, idx: nat,
                    i: nat, k: nat, q: nat, at: nat, r: Huft)
    requires At(x, i, k, q, at) && In(x, tabs, t, idx) && |hp| == |cells| && TabOK(x, tabs[t], 0, |hp|)
    requires tabs[t].pre == Low(i, Width(x, tabs[t]))
    requires var w := Width(x, tabs[t]); w < k <= w + tabs[t].j && tabs[t].j <= x.l
    requires FilledMem(x, tabs[t], k, i, r, hp, hp')
    requires r.bits == k - Width(x, tabs[t]) && Shows(x, r, k, q)
    requires at <= Pos(x, tabs, t, idx) < at + Pow2(x.g - k)
    ensures CellOK(x, hp', tabs, FilledCells(x, tabs[t], k, i, q, cells), t, idx)
  {
    InBounds(x, tabs[t], idx);
    HitIff(x, tabs, t, i, k, q, at, idx);
    assert HitAt(x, tabs[t], k, i, tabs[t].base + idx);
    LeafOK(x, hp', tabs, FilledCells(x, tabs[t], k, i, q, cells), t, idx, i, k, q, at);
  }

  lemma FillOther(x: Plan, hp0: seq<Huft>, hp: seq<Huft>, hp': seq<Huft>, bd: Build, lo: nat, hn: nat,
                  i: nat, k: nat, q: nat, at: nat, r: Huft, t: nat, idx: nat)
    requires CanFill(x, hp0, hp, bd, lo, hn, i, k, q, at)
    requires FilledMem(x, bd.tabs[bd.Top()], k, i, r, hp, hp')
    requires In(x, bd.tabs, t, idx) && Pos(x, bd.tabs, t, idx) < at + Pow2(x.g - k)
    requires Pos(x, bd.tabs, t, idx) < at || t != bd.Top()
    ensures CellOK(x, hp', bd.tabs, FilledCells(x, bd.tabs[bd.Top()], k, i, q, bd.cells), t, idx)
  {
    InBounds(x, bd.tabs[t], idx);
    NotHit(x, hp0, hp, bd, lo, hn, i, k, q, at, t, idx);
    if at <= Pos(x, bd.tabs, t, idx) {
      FillBelow(x, hp0, hp, bd, lo, hn, i, k, q, at, t, idx);
    }
    FillKeeps(x, hp, hp', bd.tabs, bd.cells, bd.tabs[bd.Top()], i, k, q, r, t, idx);
  }

  lemma FillBelow(x: Plan, hp0: seq<Huft>, hp: seq<Huft>, bd: Build, lo: nat, hn: nat,
                  i: nat, k: nat, q: nat, at: nat, t: nat, idx: nat)
    requires CanFill(x, hp0, hp, bd, lo, hn, i, k, q, at)
    requires In(x, bd.tabs, t, idx) && at <= Pos(x, bd.tabs, t, idx) < at + Pow2(x.g - k) && t != bd.Top()
    ensures CellOK(x, hp, bd.tabs, bd.cells, t, idx)
  {
    CoveredOpen(x, bd.tabs, bd.st, |hp|, i, k, q, at, t, idx);
    assert bd.tabs[bd.Top()].lvl == |bd.st| - 1;
    WidthMono(bd.tabs[t].lvl + 1, |bd.st| - 1, x.l);
    NextWidth(bd.tabs[t].lvl, x.l);
    BelowIsLink(x, hp, bd.tabs, bd.cells, bd.par, bd.st, i, k, q, at, t, idx);
  }

  lemma WidthMono(a: nat, b: nat, l: nat)
    requires a <= b
    ensures a * l <= b * l
  {
  }

  /** No cell from `at` on is written. */
  ghost predicate FreshFrom(x: Plan, tabs: seq<Tab>, cells: seq<Cell>, at: nat) {
    forall t: nat, idx: nat | In(x, tabs, t, idx) ::
      at <= Pos(x, tabs, t, idx) ==> Vacant(tabs, cells, t, idx)
  }

  lemma FillSpare(x: Plan, hp0: seq<Huft>, hp: seq<Huft>, hp': seq<Huft>, bd: Build, lo: nat, hn: nat,
                  i: nat, k: nat, q: nat, at: nat, r: Huft)
    requires CanFill(x, hp0, hp, bd, lo, hn, i, k, q, at)
    requires FilledMem(x, bd.tabs[bd.Top()], k, i, r, hp, hp')
    ensures var cells' := FilledCells(x, bd.tabs[bd.Top()], k, i, q, bd.cells);
      Kept(hp0, hp', cells') && Spare(x, bd.tabs, cells', lo, hn)
  {
    hide Pow2;
    var top := bd.tabs[bd.Top()];
    var cells' := FilledCells(x, top, k, i, q, bd.cells);
    assert TabOK(x, top, lo, hn);
    forall t: nat, idx: nat | t < |bd.tabs| && Pow2(Eff(x, bd.tabs[t])) <= idx < Pow2(bd.tabs[t].j)
      ensures Vacant(bd.tabs, cells', t, idx)
    {
      assert Vacant(bd.tabs, bd.cells, t, idx);
      NotHit(x, hp0, hp, bd, lo, hn, i, k, q, at, t, idx);
    }
  }

  lemma FillFresh(x: Plan, hp0: seq<Huft>, hp: seq<Huft>, bd: Build, lo: nat, hn: nat,
                  i: nat, k: nat, q: nat, at: nat)
    requires CanFill(x, hp0, hp, bd, lo, hn, i, k, q, at)
    ensures FreshFrom(x, bd.tabs, FilledCells(x, bd.tabs[bd.Top()], k, i, q, bd.cells), at + Pow2(x.g - k))
  {
    var cells' := FilledCells(x, bd.tabs[bd.Top()], k, i, q, bd.cells);
    forall t: nat, idx: nat | In(x, bd.tabs, t, idx) && at + Pow2(x.g - k) <= Pos(x, bd.tabs, t, idx)
      ensures Vacant(bd.tabs, cells', t, idx)
    {
      InBounds(x, bd.tabs[t], idx);
      assert Vacant(bd.tabs, bd.cells, t, idx);
      NotHit(x, hp0, hp, bd, lo, hn, i, k, q, at, t, idx);
    }
  }

  lemma FillChain(x: Plan, hp0: seq<Huft>, hp: seq<Huft>, hp': seq<Huft>, bd: Build, lo: nat, hn: nat,
                  i: nat, k: nat, q: nat, at: nat, r: Huft)
    requires CanFill(x, hp0, hp, bd, lo, hn, i, k, q, at)
    requires FilledMem(x, bd.tabs[bd.Top()], k, i, r, hp, hp')
    ensures Chain(x, hp', bd.tabs, FilledCells(x, bd.tabs[bd.Top()], k, i, q, bd.cells), bd.par, bd.st)
  {
    var cells' := FilledCells(x, bd.tabs[bd.Top()], k, i, q, bd.cells);
    forall u | 1 <= u < |bd.tabs|
      ensures Hangs(x, hp', bd.tabs, cells', bd.par, u)
    {
      assert Hangs(x, hp, bd.tabs, bd.cells, bd.par, u);
      FillLinked(x, hp0, hp, hp', bd, lo, hn, i, k, q, at, r, bd.par[u], u);
    }
  }

  lemma FillLinked(x: Plan, hp0: seq<Huft>, hp: seq<Huft>, hp': seq<Huft>, bd: Build, lo: nat, hn: nat,
                   i: nat, k: nat, q: nat, at: nat, r: Huft, p: nat, u: nat)
    requires CanFill(x, hp0, hp, bd, lo, hn, i, k, q, at)
    requires FilledMem(x, bd.tabs[bd.Top()], k, i, r, hp, hp')
    requires Linked(x, hp, bd.tabs, bd.cells, p, u)
    ensures Linked(x, hp', bd.tabs, FilledCells(x, bd.tabs[bd.Top()], k, i, q, bd.cells), p, u)
  {
    hide HitAt, Pow2;
    var idx := Shr(bd.tabs[u].pre, Width(x, bd.tabs[p]));
    InBounds(x, bd.tabs[p], idx);
    assert In(x, bd.tabs, p, idx);
    assert !Vacant(bd.tabs, bd.cells, p, idx);
    NotHit(x, hp0, hp, bd, lo, hn, i, k, q, at, p, idx);
    FillKeeps(x, hp, hp', bd.tabs, bd.cells, bd.tabs[bd.Top()], i, k, q, r, p, idx);
  }

  /** Filling a code in keeps memory right and moves the position to the end of the code. */
  lemma FillValid(x: Plan, hp0: seq<Huft>, hp: seq<Huft>, hp': seq<Huft>, bd: Build, lo: nat, hn: nat,
                  i: nat, k: nat, q: nat, at: nat, r: Huft)
    requires CanFill(x, hp0, hp, bd, lo, hn, i, k, q, at)
    requires FilledMem(x, bd.tabs[bd.Top()], k, i, r, hp, hp')
    requires r.bits == k - Width(x, bd.tabs[bd.Top()]) && Shows(x, r, k, q)
    ensures var bd' := bd.(cells := FilledCells(x, bd.tabs[bd.Top()], k, i, q, bd.cells));
      bd'.Valid(x, hp0, hp', lo, hn, at + Pow2(x.g - k)) && FreshFrom(x, bd'.tabs, bd'.cells, at + Pow2(x.g - k))
  {
    FillDone(x, hp0, hp, hp', bd, lo, hn, i, k, q, at, r);
    FillSpare(x, hp0, hp, hp', bd, lo, hn, i, k, q, at, r);
    FillFresh(x, hp0, hp, bd, lo, hn, i, k, q, at);
    FillChain(x, hp0, hp, hp', bd, lo, hn, i, k, q, at, r);
  }

  /** Filling a code in writes only where nothing was. */
  lemma FillWritesOnce(x: Plan, hp0: seq<Huft>, hp: seq<Huft>, hp': seq<Huft>, bd: Build, lo: nat, hn: nat,
                       i: nat, k: nat, q: nat, at: nat, r: Huft)
    requires CanFill(x, hp0, hp, bd, lo, hn, i, k, q, at) && FilledMem(x, bd.tabs[bd.Top()], k, i, r, hp, hp')
    ensures WritesOnce(hp, bd.cells, hp', FilledCells(x, bd.tabs[bd.Top()], k, i, q, bd.cells))
  {
    hide HitAt, Done, Chain, Closed, Shape, At;
    forall a | 0 <= a < |bd.cells| && HitAt(x, bd.tabs[bd.Top()], k, i, a) ensures bd.cells[a] == Empty {
      FillOnce(x, hp0, hp, bd, lo, hn, i, k, q, at, a);
    }
  }

  /** Each cell the code covers was still empty: every entry is written once. */
  lemma FillOnce(x: Plan, hp0: seq<Huft>, hp: seq<Huft>, bd: Build, lo: nat, hn: nat,
                 i: nat, k: nat, q: nat, at: nat, a: nat)
    requires CanFill(x, hp0, hp, bd, lo, hn, i, k, q, at)
    requires HitAt(x, bd.tabs[bd.Top()], k, i, a)
    ensures a < hn && bd.cells[a] == Empty
  {
    var t := bd.Top();
    var idx := a - bd.tabs[t].base;
    assert TabOK(x, bd.tabs[t], lo, hn);
    HitIff(x, bd.tabs, t, i, k, q, at, idx);
    assert Vacant(bd.tabs, bd.cells, t, idx);
  }

  // ----- moving on

  ghost predicate Nests(x: Plan, p: Tab, u: Tab) {
    u.lvl == p.lvl + 1 && Low(u.pre, Width(x, p)) == p.pre
  }

  ghost predicate PreChain(x: Plan, tabs: seq<Tab>, st: seq<nat>) {
    && (forall v | 0 <= v < |st| :: st[v] < |tabs|)
    && (forall v | 1 <= v < |st| :: Nests(x, tabs[st[v - 1]], tabs[st[v]]))
  }

  /** If the last open table is reached by `i`, so are the ones that lead to it. */
  lemma {:induction false} PathFromTop(x: Plan, tabs: seq<Tab>, st: seq<nat>, i: nat)
    requires PreChain(x, tabs, st)
    requires st != [] ==> tabs[st[|st| - 1]].pre == Low(i, Width(x, tabs[st[|st| - 1]]))
    ensures OnPath(x, tabs, st, i)
  {
    if |st| > 1 {
      var v := |st| - 1;
      var st' := st[..v];
      var p, u := tabs[st[v - 1]], tabs[st[v]];
      assert Nests(x, p, u);
      WidthMono(p.lvl, u.lvl, x.l);
      LowLow(i, Width(x, p), Width(x, u));
      forall w | 1 <= w < v ensures Nests(x, tabs[st'[w - 1]], tabs[st'[w]]) {
        assert Nests(x, tabs[st[w - 1]], tabs[st[w]]);
      }
      PathFromTop(x, tabs, st', i);
      forall w | 0 <= w < |st|
        ensures st[w] < |tabs| && tabs[st[w]].pre == Low(i, Width(x, tabs[st[w]]))
      {
        if w < v { assert st'[w] == st[w]; }
      }
    }
  }

  /** An open table the next code does not continue ends where that code starts. */
  lemma LeftBehind(x: Plan, t: Tab, i: nat, k: nat, at: nat, i': nat)
    requires x.Valid() && Width(x, t) < k <= x.g && t.pre < Pow2(Width(x, t)) && i < Pow2(k)
    requires at == Rev(x.g, i) && t.pre == Low(i, Width(x, t))
    requires at + Pow2(x.g - k) < Pow2(x.g) ==>
               i' < Pow2(x.g) && Rev(x.g, i') == at + Pow2(x.g - k) && t.pre != Low(i', Width(x, t))
    ensures Hi(x, t) <= at + Pow2(x.g - k)
    ensures at + Pow2(x.g - k) < Pow2(x.g) ==> i' < Pow2(Width(x, t))
  {
    hide MaxLen, Pow2, Rev, Low, Plan.Valid, Width;
    assert Hi(x, t) == Rev(x.g, t.pre) + Pow2(x.g - Width(x, t));
    BehindAll(x.g, Width(x, t), t.pre, i, k, i');
  }

  lemma BehindAll(g: nat, w: nat, pre: nat, i: nat, k: nat, i': nat)
    requires w < k <= g && pre < Pow2(w) && i < Pow2(k) && pre == Low(i, w)
    requires Rev(g, i) + Pow2(g - k) < Pow2(g) ==>
      i' < Pow2(g) && Rev(g, i') == Rev(g, i) + Pow2(g - k) && pre != Low(i', w)
    ensures Rev(g, pre) + Pow2(g - w) <= Rev(g, i) + Pow2(g - k)
    ensures Rev(g, i) + Pow2(g - k) < Pow2(g) ==> i' < Pow2(w)
  {
    hide *;
    Pow2Mono(k, g);
    Nested(g, w, k, i);
    RevInterval(g, w, pre, i);
    RevInterval(g, k, i, i);
    if Rev(g, i) + Pow2(g - k) < Pow2(g) {
      RevInterval(g, w, pre, i');
      NextAligned(g, w, pre, i');
    }
  }

  lemma NextAligned(g: nat, w: nat, pre: nat, i: nat)
    requires w <= g && pre < Pow2(w) && i < Pow2(g) && Rev(g, i) == Rev(g, pre) + Pow2(g - w)
    ensures i < Pow2(w)
  {
    RevExtend(g, w, pre);
    Scale(Rev(w, pre), Rev(w, pre), Pow2(g - w));
    RevAligned(g, w, i, Rev(w, pre) + 1);
  }

  lemma ChainNests(x: Plan, hp: seq<Huft>, tabs: seq<Tab>, cells: seq<Cell>, par: seq<nat>, st: seq<nat>)
    requires x.Valid() && |hp| == |cells| && Shape(x, tabs, 0, |hp|) && Chain(x, hp, tabs, cells, par, st)
    ensures PreChain(x, tabs, st)
  {
    forall v | 1 <= v < |st| ensures Nests(x, tabs[st[v - 1]], tabs[st[v]]) {
      assert Hangs(x, hp, tabs, cells, par, st[v]);
    }
  }

  lemma PopClosed(x: Plan, tabs: seq<Tab>, st: seq<nat>, at: nat)
    requires forall t | 0 <= t < |tabs| :: Width(x, tabs[t]) <= x.g
    requires st != [] && Closed(x, tabs, st, at) && st[|st| - 1] < |tabs|
    requires forall v | 0 <= v < |st| :: st[v] < |tabs| && tabs[st[v]].lvl == v
    requires Hi(x, tabs[st[|st| - 1]]) <= at
    ensures Closed(x, tabs, st[..|st| - 1], at)
  {
  }

  /** Closing the last open table keeps memory right. */
  lemma PopValid(x: Plan, hp0: seq<Huft>, hp: seq<Huft>, bd: Build, lo: nat, hn: nat, at: nat)
    requires bd.Valid(x, hp0, hp, lo, hn, at) && bd.st != [] && Hi(x, bd.tabs[bd.Top()]) <= at
    ensures bd.(st := bd.st[..|bd.st| - 1]).Valid(x, hp0, hp, lo, hn, at)
  {
    PopClosed(x, bd.tabs, bd.st, at);
  }
}
