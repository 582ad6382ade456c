/** The steps that grow a set of tables: opening one, filling a code in, closing finished ones. */
module HuftGrow {
  import opened Bits
  import opened Huffman
  import opened HuftTables

  /** Code `q` of length `k`, whose table index bits are `i`, starts at `at`. */
  ghost predicate At(x: Plan, i: nat, k: nat, q: nat, at: nat) {
    && x.Valid() && 1 <= k <= x.g && q < x.c[k] && i < Pow2(k)
    && at == Rev(x.g, i) == End(x.c, x.g, k - 1) + q * Pow2(x.g - k)
  }

  /** Below this table no code is longer than its index reaches, or it is of full width. */
  ghost predicate Ample(x: Plan, t: Tab) {
    x.l <= t.j || (Width(x, t) + t.j <= x.g < |x.c| && End(x.c, x.g, Width(x, t) + t.j) >= Hi(x, t))
  }

  lemma AmpleReach(x: Plan, t: Tab, i: nat, k: nat, q: nat, at: nat)
    requires At(x, i, k, q, at) && Width(x, t) + t.j <= x.g && Ample(x, t) && at < Hi(x, t)
    ensures x.l <= t.j || k <= Width(x, t) + t.j
  {
    hide Pow2, Rev, Plan.Valid;
    AtFrom(x, i, k, q, at);
    hide At, End, Hi, Width;
    if Width(x, t) + t.j < k {
      EndMono(x.c, x.g, Width(x, t) + t.j, k - 1);
    }
  }

  lemma AtFrom(x: Plan, i: nat, k: nat, q: nat, at: nat)
    requires At(x, i, k, q, at)
    ensures 1 <= k <= x.g < |x.c| && End(x.c, x.g, k - 1) <= at
  {
    hide Pow2, End, Rev, MaxLen, Count;
    Scale(0, q, Pow2(x.g - k));
  }

  lemma AtBound(x: Plan, i: nat, k: nat, q: nat, at: nat)
    requires At(x, i, k, q, at)
    ensures i < Pow2(x.g) && at + Pow2(x.g - k) <= Pow2(x.g)
    ensures at + Pow2(x.g - k) <= End(x.c, x.g, k)
    ensures at + Pow2(x.g - k) == End(x.c, x.g, k) <==> q + 1 == x.c[k]
  {
    Pow2Mono(k, x.g);
    RevInterval(x.g, k, i, i);
    Room(q, x.c[k], Pow2(x.g - k));
  }

  lemma Room(q: nat, c: nat, z: nat)
    requires q < c && z >= 1
    ensures q * z + z <= c * z
    ensures q * z + z == c * z <==> q + 1 == c
  {
    Scale(q + 1, c, z);
    Scale(q, c, z);
    if q + 1 < c {
      Scale(q + 2, c, z);
      Scale(q + 1, c, z);
    }
  }

  // ----- opening a table

  ghost function LinkCell(x: Plan, bd: Build, i: nat): nat {
    if bd.st != [] && bd.Top() < |bd.tabs| then
      bd.tabs[bd.Top()].base + Shr(i, Width(x, bd.tabs[bd.Top()]))
    else 0
  }

  ghost function NewTab(bd: Build, hn: nat, i: nat, j: nat): Tab {
    Tab(hn, |bd.st|, i, j)
  }

  ghost function Put<T>(s: seq<T>, a: nat, v: T): (r: seq<T>)
    ensures |r| == |s|
  {
    if a < |s| then s[a := v] else s
  }

  ghost function Opened(x: Plan, bd: Build, hn: nat, i: nat, j: nat): Build {
    Build(bd.tabs + [NewTab(bd, hn, i, j)],
          if bd.st == [] then bd.cells else Put(bd.cells, LinkCell(x, bd, i), Link(|bd.tabs|)),
          bd.par + [if bd.st == [] then 0 else bd.Top()],
          bd.st + [|bd.tabs|])
  }

  ghost function OpenedMem(x: Plan, bd: Build, hp: seq<Huft>, hn: nat, i: nat, j: nat): (r: seq<Huft>)
    ensures |r| == |hp|
  {
    var a := LinkCell(x, bd, i);
    if bd.st == [] || hn < a then hp else Put(hp, a, Huft(j, x.l, hn - a))
  }

  ghost predicate CanOpen(x: Plan, hp0: seq<Huft>, hp: seq<Huft>, bd: Build, lo: nat, hn: nat,
                          i: nat, k: nat, q: nat, at: nat)
  {
    && bd.Valid(x, hp0, hp, lo, hn, at) && At(x, i, k, q, at)
    && |bd.st| * x.l < k && i < Pow2(|bd.st| * x.l)
    && (bd.st == [] ==> bd.tabs == [])
    && (bd.st != [] ==>
          bd.tabs[bd.Top()].pre == Low(i, Width(x, bd.tabs[bd.Top()]))
          && Ample(x, bd.tabs[bd.Top()]) && Fresh(x, bd.tabs, bd.cells, at, bd.Top()))
  }

  lemma LinkIndex(x: Plan, top: Tab, i: nat, k: nat, q: nat, at: nat)
    requires At(x, i, k, q, at) && TabOK(x, top, 0, top.base + Pow2(top.j)) && Ample(x, top)
    requires top.pre == Low(i, Width(x, top)) && Width(x, top) + x.l < k && i < Pow2(Width(x, top) + x.l)
    ensures var idx := Shr(i, Width(x, top));
      idx < Pow2(x.l) && x.l <= top.j && Prefix(x, top, idx) == i
  {
    hide Plan.Valid, Pow2;
    var w := Width(x, top);
    AtBound(x, i, k, q, at);
    RevInterval(x.g, w, top.pre, i);
    AmpleReach(x, top, i, k, q, at);
    CatSplit(w, i);
    ShrBound(i, w, x.l);
  }

  /** The link goes to the one cell of the top table at the current position, still empty. */
  lemma LinkCellFacts(x: Plan, hp0: seq<Huft>, hp: seq<Huft>, bd: Build, lo: nat, hn: nat,
                      i: nat, k: nat, q: nat, at: nat)
    requires CanOpen(x, hp0, hp, bd, lo, hn, i, k, q, at) && bd.st != []
    ensures var top := bd.tabs[bd.Top()]; var idx := Shr(i, Width(x, top));
      && idx < Pow2(x.l) && idx < Pow2(top.j) && x.l <= top.j && In(x, bd.tabs, bd.Top(), idx)
      && Prefix(x, top, idx) == i
      && LinkCell(x, bd, i) < hn && bd.cells[LinkCell(x, bd, i)] == Empty
      && |bd.st| * x.l == Width(x, top) + x.l
  {
    hide Plan.Valid;
    var top := bd.tabs[bd.Top()];
    assert top.lvl == |bd.st| - 1;
    NextWidth(|bd.st| - 1, x.l);
    assert TabOK(x, top, lo, hn);
    LinkIndex(x, top, i, k, q, at);
    var idx := Shr(i, Width(x, top));
    Pow2Mono(x.l, top.j);
    assert In(x, bd.tabs, bd.Top(), idx);
    assert Pos(x, bd.tabs, bd.Top(), idx) == at;
    assert Vacant(bd.tabs, bd.cells, bd.Top(), idx);
  }

  lemma {:induction false} ShrBound(i: nat, w: nat, l: nat)
    requires i < Pow2(w + l)
    ensures Shr(i, w) < Pow2(l)
  {
    if w > 0 { ShrBound(i / 2, w - 1, l); }
  }

  lemma OpenShape(x: Plan, hp0: seq<Huft>, hp: seq<Huft>, bd: Build, lo: nat, hn: nat,
                  i: nat, k: nat, q: nat, at: nat, j: nat)
    requires CanOpen(x, hp0, hp, bd, lo, hn, i, k, q, at)
    requires 1 <= j && |bd.st| * x.l + j <= x.g && hn + Pow2(j) <= |hp|
    ensures bd.st != [] ==> LinkCell(x, bd, i) < hn
    ensures Shape(x, Opened(x, bd, hn, i, j).tabs, lo, hn + Pow2(j))
    ensures Shape(x, Opened(x, bd, hn, i, j).tabs, 0, |hp|)
  {
    hide Plan.Valid, Done, Chain, Closed, Fresh, Spare, Pow2, Kept;
    if bd.st != [] { LinkCellFacts(x, hp0, hp, bd, lo, hn, i, k, q, at); }
    var nt := NewTab(bd, hn, i, j);
    assert Width(x, nt) == |bd.st| * x.l;
    assert TabOK(x, nt, lo, hn + Pow2(j));
  }

  ghost predicate LinkFree(x: Plan, bd: Build, i: nat, hn: nat) {
    bd.st != [] ==>
      bd.Top() < |bd.tabs| && LinkCell(x, bd, i) < hn <= |bd.cells| && bd.cells[LinkCell(x, bd, i)] == Empty
  }

  lemma OpenOnce(x: Plan, hp: seq<Huft>, bd: Build, hn: nat, i: nat, j: nat)
    requires |hp| == |bd.cells| && LinkFree(x, bd, i, hn)
    ensures WritesOnce(hp, bd.cells, OpenedMem(x, bd, hp, hn, i, j), Opened(x, bd, hn, i, j).cells)
  {
  }

  lemma OpenCellKept(x: Plan, hp: seq<Huft>, bd: Build, hn: nat, i: nat, j: nat, t: nat, idx: nat)
    requires x.Valid() && |hp| == |bd.cells|
    requires LinkFree(x, bd, i, hn)
    requires In(x, bd.tabs, t, idx) && TabOK(x, bd.tabs[t], 0, |hp|) && CellOK(x, hp, bd.tabs, bd.cells, t, idx)
    ensures In(x, Opened(x, bd, hn, i, j).tabs, t, idx)
    ensures TabOK(x, Opened(x, bd, hn, i, j).tabs[t], 0, |hp|)
    ensures CellOK(x, OpenedMem(x, bd, hp, hn, i, j), Opened(x, bd, hn, i, j).tabs, Opened(x, bd, hn, i, j).cells,
                   t, idx)
  {
    hide Plan.Valid;
    InBounds(x, bd.tabs[t], idx);
    var a := bd.tabs[t].base + idx;
    assert bd.cells[a] != Empty;
    var bd', hp' := Opened(x, bd, hn, i, j), OpenedMem(x, bd, hp, hn, i, j);
    assert bd'.cells[a] == bd.cells[a] && hp'[a] == hp[a];
    assert bd'.tabs[t] == bd.tabs[t];
  }

  lemma OpenDone(x: Plan, hp0: seq<Huft>, hp: seq<Huft>, bd: Build, lo: nat, hn: nat,
                 i: nat, k: nat, q: nat, at: nat, j: nat)
    requires CanOpen(x, hp0, hp, bd, lo, hn, i, k, q, at)
    requires 1 <= j && |bd.st| * x.l + j <= x.g && hn + Pow2(j) <= |hp|
    requires bd.st != [] ==> LinkCell(x, bd, i) < hn
    requires Shape(x, Opened(x, bd, hn, i, j).tabs, 0, |hp|)
    ensures Done(x, OpenedMem(x, bd, hp, hn, i, j), Opened(x, bd, hn, i, j).tabs, Opened(x, bd, hn, i, j).cells, at)
  {
    hide Pow2;
    var bd' := Opened(x, bd, hn, i, j);
    var hp' := OpenedMem(x, bd, hp, hn, i, j);
    if bd.st != [] { LinkCellFacts(x, hp0, hp, bd, lo, hn, i, k, q, at); }
    forall t: nat, idx: nat | In(x, bd'.tabs, t, idx) && Pos(x, bd'.tabs, t, idx) < at
      ensures CellOK(x, hp', bd'.tabs, bd'.cells, t, idx)
    {
      if t < |bd.tabs| {
        assert bd'.tabs[t] == bd.tabs[t];
        assert In(x, bd.tabs, t, idx) && Pos(x, bd.tabs, t, idx) < at;
        OpenCellKept(x, hp, bd, hn, i, j, t, idx);
      } else {
        PosInTab(x, bd'.tabs, t, idx);
        assert false;
      }
    }
  }

  lemma OpenVacant(x: Plan, hp0: seq<Huft>, hp: seq<Huft>, bd: Build, lo: nat, hn: nat,
                   i: nat, k: nat, q: nat, at: nat, j: nat, t: nat, idx: nat)
    requires CanOpen(x, hp0, hp, bd, lo, hn, i, k, q, at)
    requires bd.st != [] ==> LinkCell(x, bd, i) < hn
    requires t < |bd.tabs| && idx < Pow2(bd.tabs[t].j) && Vacant(bd.tabs, bd.cells, t, idx)
    requires bd.st != [] ==> t != bd.Top() || idx != Shr(i, Width(x, bd.tabs[bd.Top()]))
    ensures Vacant(Opened(x, bd, hn, i, j).tabs, Opened(x, bd, hn, i, j).cells, t, idx)
  {
    if bd.st != [] {
      LinkCellFacts(x, hp0, hp, bd, lo, hn, i, k, q, at);
      SameCell(x, bd.tabs, lo, hn, t, idx, bd.Top(), Shr(i, Width(x, bd.tabs[bd.Top()])));
    }
  }

  lemma OpenKept(x: Plan, hp0: seq<Huft>, hp: seq<Huft>, bd: Build, hn: nat, i: nat, j: nat)
    requires Kept(hp0, hp, bd.cells) && LinkFree(x, bd, i, hn)
    ensures Kept(hp0, OpenedMem(x, bd, hp, hn, i, j), Opened(x, bd, hn, i, j).cells)
  {
  }

  lemma OpenSpare(x: Plan, hp0: seq<Huft>, hp: seq<Huft>, bd: Build, lo: nat, hn: nat,
                  i: nat, k: nat, q: nat, at: nat, j: nat)
    requires CanOpen(x, hp0, hp, bd, lo, hn, i, k, q, at)
    requires 1 <= j && |bd.st| * x.l + j <= x.g && hn + Pow2(j) <= |hp|
    requires bd.st != [] ==> LinkCell(x, bd, i) < hn
    ensures Spare(x, Opened(x, bd, hn, i, j).tabs, Opened(x, bd, hn, i, j).cells, lo, hn + Pow2(j))
  {
    hide Pow2, At, Prefix, MaxLen;
    var bd' := Opened(x, bd, hn, i, j);
    if bd.st != [] { LinkCellFacts(x, hp0, hp, bd, lo, hn, i, k, q, at); }
    forall t: nat, idx: nat | t < |bd'.tabs| && Pow2(Eff(x, bd'.tabs[t])) <= idx < Pow2(bd'.tabs[t].j)
      ensures Vacant(bd'.tabs, bd'.cells, t, idx)
    {
      if t < |bd.tabs| {
        assert Vacant(bd.tabs, bd.cells, t, idx);
        OpenVacant(x, hp0, hp, bd, lo, hn, i, k, q, at, j, t, idx);
      }
    }
  }

  lemma OpenFresh(x: Plan, hp0: seq<Huft>, hp: seq<Huft>, bd: Build, lo: nat, hn: nat,
                  i: nat, k: nat, q: nat, at: nat, j: nat)
    requires CanOpen(x, hp0, hp, bd, lo, hn, i, k, q, at)
    requires 1 <= j && |bd.st| * x.l + j <= x.g && hn + Pow2(j) <= |hp|
    requires bd.st != [] ==> LinkCell(x, bd, i) < hn
    ensures Fresh(x, Opened(x, bd, hn, i, j).tabs, Opened(x, bd, hn, i, j).cells, at, |bd.tabs|)
  {
    hide Pow2, Ample, Chain, Plan.Valid, Shape, Shows, Width;
    var bd' := Opened(x, bd, hn, i, j);
    forall t: nat, idx: nat | In(x, bd'.tabs, t, idx) &&
        (at < Pos(x, bd'.tabs, t, idx) || (at == Pos(x, bd'.tabs, t, idx) && t == |bd.tabs|))
      ensures Vacant(bd'.tabs, bd'.cells, t, idx)
    {
      InBounds(x, bd'.tabs[t], idx);
      if bd.st != [] { LinkCellFacts(x, hp0, hp, bd, lo, hn, i, k, q, at); }
      if t < |bd.tabs| {
        assert bd.st != [];
        assert bd'.tabs[t] == bd.tabs[t];
        assert Pos(x, bd.tabs, bd.Top(), Shr(i, Width(x, bd.tabs[bd.Top()]))) == at;
        assert In(x, bd.tabs, t, idx) && at < Pos(x, bd.tabs, t, idx);
        assert Vacant(bd.tabs, bd.cells, t, idx);
        OpenVacant(x, hp0, hp, bd, lo, hn, i, k, q, at, j, t, idx);
      }
    }
  }

  lemma OpenLinked(x: Plan, hp: seq<Huft>, bd: Build, hn: nat, i: nat, j: nat, p: nat, u: nat)
    requires x.Valid() && |hp| == |bd.cells| && Shape(x, bd.tabs, 0, |hp|) && LinkFree(x, bd, i, hn)
    requires Shape(x, Opened(x, bd, hn, i, j).tabs, 0, |hp|)
    requires Linked(x, hp, bd.tabs, bd.cells, p, u)
    ensures Linked(x, OpenedMem(x, bd, hp, hn, i, j), Opened(x, bd, hn, i, j).tabs,
                   Opened(x, bd, hn, i, j).cells, p, u)
  {
    hide Pow2, Plan.Valid, Shows, Rev;
    var idx := Shr(bd.tabs[u].pre, Width(x, bd.tabs[p]));
    OpenCellKept(x, hp, bd, hn, i, j, p, idx);
    var bd' := Opened(x, bd, hn, i, j);
    assert bd'.tabs[p] == bd.tabs[p] && bd'.tabs[u] == bd.tabs[u];
  }

  lemma OpenTopLinked(x: Plan, hp0: seq<Huft>, hp: seq<Huft>, bd: Build, lo: nat, hn: nat,
                      i: nat, k: nat, q: nat, at: nat, j: nat)
    requires CanOpen(x, hp0, hp, bd, lo, hn, i, k, q, at)
    requires 1 <= j && |bd.st| * x.l + j <= x.g && hn + Pow2(j) <= |hp|
    requires bd.st != [] && LinkCell(x, bd, i) < hn
    requires Shape(x, Opened(x, bd, hn, i, j).tabs, 0, |hp|)
    ensures Linked(x, OpenedMem(x, bd, hp, hn, i, j), Opened(x, bd, hn, i, j).tabs,
                   Opened(x, bd, hn, i, j).cells, bd.Top(), |bd.tabs|)
  {
    LinkCellFacts(x, hp0, hp, bd, lo, hn, i, k, q, at);
    var bd' := Opened(x, bd, hn, i, j);
    assert bd'.tabs[bd.Top()] == bd.tabs[bd.Top()];
    assert LinkAt(x, bd'.tabs, bd.Top(), |bd.tabs|) == LinkCell(x, bd, i);
  }

  lemma OpenChain(x: Plan, hp: seq<Huft>, bd: Build, hn: nat, i: nat, j: nat)
    requires x.Valid() && |hp| == |bd.cells| && Shape(x, bd.tabs, 0, |hp|) && LinkFree(x, bd, i, hn)
    requires Shape(x, Opened(x, bd, hn, i, j).tabs, 0, |hp|) && Chain(x, hp, bd.tabs, bd.cells, bd.par, bd.st)
    requires bd.st == [] ==> bd.tabs == []
    requires bd.st != [] ==> Linked(x, OpenedMem(x, bd, hp, hn, i, j), Opened(x, bd, hn, i, j).tabs,
                                    Opened(x, bd, hn, i, j).cells, bd.Top(), |bd.tabs|)
    ensures Chain(x, OpenedMem(x, bd, hp, hn, i, j), Opened(x, bd, hn, i, j).tabs, Opened(x, bd, hn, i, j).cells,
                  Opened(x, bd, hn, i, j).par, Opened(x, bd, hn, i, j).st)
  {
    hide Shape;
    var bd' := Opened(x, bd, hn, i, j);
    var hp' := OpenedMem(x, bd, hp, hn, i, j);
    forall u | 1 <= u < |bd'.tabs|
      ensures Hangs(x, hp', bd'.tabs, bd'.cells, bd'.par, u)
    {
      if u < |bd.tabs| {
        assert Hangs(x, hp, bd.tabs, bd.cells, bd.par, u);
        OpenLinked(x, hp, bd, hn, i, j, bd.par[u], u);
      }
    }
  }

  lemma OpenClosed(x: Plan, bd: Build, hn: nat, i: nat, j: nat, at: nat)
    requires forall t | 0 <= t < |bd.tabs| :: Width(x, bd.tabs[t]) <= x.g
    requires |bd.st| * x.l <= x.g && Closed(x, bd.tabs, bd.st, at)
    ensures var bd' := Opened(x, bd, hn, i, j);
      (forall t | 0 <= t < |bd'.tabs| :: Width(x, bd'.tabs[t]) <= x.g) && Closed(x, bd'.tabs, bd'.st, at)
  {
    var bd' := Opened(x, bd, hn, i, j);
    assert Width(x, NewTab(bd, hn, i, j)) == |bd.st| * x.l;
    forall t | 0 <= t < |bd'.tabs|
      ensures Width(x, bd'.tabs[t]) <= x.g
      ensures Hi(x, bd'.tabs[t]) <= at || (bd'.tabs[t].lvl < |bd'.st| && bd'.st[bd'.tabs[t].lvl] == t)
    {
      if t < |bd.tabs| { assert bd'.tabs[t] == bd.tabs[t]; }
    }
  }

  /** Opening a table for the code at the current position keeps memory right. */
  lemma OpenValid(x: Plan, hp0: seq<Huft>, hp: seq<Huft>, bd: Build, lo: nat, hn: nat,
                  i: nat, k: nat, q: nat, at: nat, j: nat)
    requires CanOpen(x, hp0, hp, bd, lo, hn, i, k, q, at)
    requires 1 <= j && |bd.st| * x.l + j <= x.g && hn + Pow2(j) <= |hp|
    ensures bd.st != [] ==> LinkCell(x, bd, i) < hn && bd.cells[LinkCell(x, bd, i)] == Empty
    ensures Opened(x, bd, hn, i, j).Valid(x, hp0, OpenedMem(x, bd, hp, hn, i, j), lo, hn + Pow2(j), at)
    ensures Fresh(x, Opened(x, bd, hn, i, j).tabs, Opened(x, bd, hn, i, j).cells, at, |bd.tabs|)
  {
    hide Plan.Valid, Hi, Chain, Rev;
    if bd.st != [] { LinkCellFacts(x, hp0, hp, bd, lo, hn, i, k, q, at); }
    OpenShape(x, hp0, hp, bd, lo, hn, i, k, q, at, j);
    OpenDone(x, hp0, hp, bd, lo, hn, i, k, q, at, j);
    OpenKept(x, hp0, hp, bd, hn, i, j);
    OpenSpare(x, hp0, hp, bd, lo, hn, i, k, q, at, j);
    OpenFresh(x, hp0, hp, bd, lo, hn, i, k, q, at, j);
    if bd.st != [] { OpenTopLinked(x, hp0, hp, bd, lo, hn, i, k, q, at, j); }
    OpenChain(x, hp, bd, hn, i, j);
    OpenClosed(x, bd, hn, i, j, at);
  }
}
