/** What a set of multi-level decoding tables in memory means, and how it grows while the codes are
    handed out in canonical order.

    Positions are numbers below 2^g: the g-bit words of the stream, first bit most significant.  A
    cell of a table stands for the interval of words whose first bits lead to it; `Rev(g, P)` is the
    start of that interval when P holds those bits as the table index does, first bit lowest. */
module HuftTables {
  import opened Bits
  import opened Huffman

  /** One table entry: operation or extra bits, bits to drop, and value or offset. */
  datatype Huft = Huft(exop: nat, bits: nat, base: nat)

  /** The alphabet a code is for: `b[i]` is the code length of symbol i; symbols from `s` up are
      looked up in `d` and `e`. */
  datatype Alphabet = Alphabet(b: seq<nat>, s: nat, d: seq<nat>, e: seq<nat>)
  {
    predicate Valid() {
      forall i | 0 <= i < |b| ::
        b[i] <= BMAX && (0 < b[i] && s <= i ==> i - s < |d| && i - s < |e| && (e[i - s] < 16 || e[i - s] == 112))
    }

    function Exop(sym: nat): nat
      requires Valid() && sym < |b| && 0 < b[sym]
    {
      if sym < s then (if sym < 256 then 0 else 32 + 64) else e[sym - s] + 16 + 64
    }

    function Base(sym: nat): nat
      requires Valid() && sym < |b| && 0 < b[sym]
    {
      if sym < s then sym else d[sym - s]
    }
  }

  /** `c` is the length counts after the last one has been topped up with dummy codes; `l` the index
      width of the tables and `g` the greatest code length. */
  datatype Plan = Plan(al: Alphabet, g: nat, l: nat, c: seq<nat>)
  {
    ghost predicate Valid() {
      && al.Valid() && 1 <= l <= g <= BMAX && |c| == BMAX + 1
      && g == MaxLen(al.b)
      && (forall len | 1 <= len < g :: c[len] == Count(al.b, len))
      && c[g] >= Count(al.b, g) >= 1
      && End(c, g, g) == Pow2(g)
    }

    /** Code `q` of length `len` belongs to a symbol rather than being a dummy. */
    ghost predicate Real(len: nat, q: nat) {
      len < g || q < Count(al.b, g)
    }

    /** Some code, the first in its subtree at a table boundary, runs past the next boundary too. */
    ghost predicate Wide() {
      exists lvl: nat, len: nat, q: nat :: WideAt(lvl, len, q)
    }

    ghost predicate WideAt(lvl: nat, len: nat, q: nat) {
      && 1 <= lvl && (lvl + 1) * l < len <= g && len < |c| && q < c[len]
      && (FirstCode(c, len) + q) % Pow2(len - lvl * l) == 0
    }
  }

  /** A table at `base` with 2^j entries, reached after `lvl` full tables on the bits `pre`. */
  datatype Tab = Tab(base: nat, lvl: nat, pre: nat, j: nat)

  /** What has been written to a cell: nothing, the `q`-th code of length `len`, or a link. */
  datatype Cell = Empty | Leaf(len: nat, q: nat) | Link(tab: nat)

  ghost function Width(x: Plan, t: Tab): nat { t.lvl * x.l }

  /** Index bits of a table that lead anywhere. */
  ghost function Eff(x: Plan, t: Tab): nat { if t.j < x.l then t.j else x.l }

  ghost function Prefix(x: Plan, t: Tab, idx: nat): nat { Cat(Width(x, t), t.pre, idx) }

  ghost predicate In(x: Plan, tabs: seq<Tab>, t: nat, idx: nat) {
    t < |tabs| && idx < Pow2(Eff(x, tabs[t]))
  }

  ghost function Pos(x: Plan, tabs: seq<Tab>, t: nat, idx: nat): nat
    requires t < |tabs|
  {
    Rev(x.g, Prefix(x, tabs[t], idx))
  }

  /** The interval of positions below a table. */
  ghost function Lo(x: Plan, t: Tab): nat { Rev(x.g, t.pre) }
  ghost function Hi(x: Plan, t: Tab): nat {
    Rev(x.g, t.pre) + Size(x, Width(x, t))
  }

  /** How many positions the first `k` bits leave open. */
  ghost function Size(x: Plan, k: nat): nat { if k <= x.g then Pow2(x.g - k) else 0 }

  ghost predicate TabOK(x: Plan, t: Tab, lo: nat, hi: nat) {
    && 1 <= t.j && Width(x, t) + t.j <= x.g && t.pre < Pow2(Width(x, t))
    && lo <= t.base && t.base + Pow2(t.j) <= hi
  }

  ghost predicate Shape(x: Plan, tabs: seq<Tab>, lo: nat, hi: nat) {
    && (forall t | 0 <= t < |tabs| :: TabOK(x, tabs[t], lo, hi))
    && (forall t, u | 0 <= t < u < |tabs| :: tabs[t].base + Pow2(tabs[t].j) <= tabs[u].base)
  }

  /** The entry a code calls for.  A dummy's value is left over from the entry before it, which
      matters only for a code of a single one-bit word. */
  ghost predicate Shows(x: Plan, h: Huft, len: nat, q: nat)
    requires x.Valid() && 1 <= len <= x.g && q < x.c[len]
  {
    if x.Real(len, q) then
      var sym := Nth(x.al.b, len, q);
      h.exop == x.al.Exop(sym) && h.base == x.al.Base(sym)
    else
      h.exop == 128 + 64 && (x.g == 1 ==> h.base == x.al.Base(Nth(x.al.b, 1, 0)))
  }

  ghost predicate CellOK(x: Plan, hp: seq<Huft>, tabs: seq<Tab>, cells: seq<Cell>, t: nat, idx: nat)
    requires x.Valid() && In(x, tabs, t, idx) && |hp| == |cells| && TabOK(x, tabs[t], 0, |hp|)
  {
    var tab := tabs[t];
    InBounds(x, tab, idx);
    var a := tab.base + idx;
    match cells[a]
    case Empty => false
    case Leaf(len, q) =>
      && Width(x, tab) < len <= Width(x, tab) + tab.j && tab.j <= x.l && q < x.c[len]
      && Rev(len, Prefix(x, tab, idx)) == FirstCode(x.c, len) + q
      && hp[a].bits == len - Width(x, tab) && Shows(x, hp[a], len, q)
    case Link(u) =>
      && u < |tabs| && x.l <= tab.j && tabs[u].lvl == tab.lvl + 1
      && tabs[u].pre == Prefix(x, tab, idx) && a < tabs[u].base
      && hp[a] == Huft(tabs[u].j, x.l, tabs[u].base - a)
  }

  lemma InBounds(x: Plan, t: Tab, idx: nat)
    requires idx < Pow2(Eff(x, t))
    ensures idx < Pow2(t.j)
  {
    Pow2Mono(Eff(x, t), t.j);
  }

  /** Every cell before position `at` is written and right. */
  ghost predicate Done(x: Plan, hp: seq<Huft>, tabs: seq<Tab>, cells: seq<Cell>, at: nat)
    requires x.Valid() && |hp| == |cells| && Shape(x, tabs, 0, |hp|)
  {
    forall t: nat, idx: nat | In(x, tabs, t, idx) ::
      Pos(x, tabs, t, idx) < at ==> CellOK(x, hp, tabs, cells, t, idx)
  }

  ghost predicate Vacant(tabs: seq<Tab>, cells: seq<Cell>, t: nat, idx: nat)
    requires t < |tabs|
  {
    tabs[t].base + idx < |cells| ==> cells[tabs[t].base + idx] == Empty
  }

  /** No cell after `at` is written, nor the cell at `at` of the table being filled. */
  ghost predicate Fresh(x: Plan, tabs: seq<Tab>, cells: seq<Cell>, at: nat, top: nat) {
    forall t: nat, idx: nat | In(x, tabs, t, idx) ::
      (at < Pos(x, tabs, t, idx) || (at == Pos(x, tabs, t, idx) && t == top)) ==> Vacant(tabs, cells, t, idx)
  }

  /** Nothing is written outside the tables' useful parts. */
  ghost predicate Spare(x: Plan, tabs: seq<Tab>, cells: seq<Cell>, lo: nat, hn: nat) {
    && (forall a | 0 <= a < |cells| && !(lo <= a < hn) :: cells[a] == Empty)
    && (forall t: nat, idx: nat | t < |tabs| && Pow2(Eff(x, tabs[t])) <= idx < Pow2(tabs[t].j) ::
          Vacant(tabs, cells, t, idx))
  }

  /** Memory is as it was wherever nothing is written. */
  ghost predicate Kept(hp0: seq<Huft>, hp: seq<Huft>, cells: seq<Cell>) {
    |hp0| == |hp| == |cells| && forall a | 0 <= a < |hp| && cells[a] == Empty :: hp[a] == hp0[a]
  }

  /** What was written stays: entries are written only where nothing was. */
  ghost predicate WritesOnce(hp: seq<Huft>, cells: seq<Cell>, hp': seq<Huft>, cells': seq<Cell>) {
    && |hp| == |cells| == |hp'| == |cells'|
    && forall a | 0 <= a < |cells| && cells[a] != Empty :: cells'[a] == cells[a] && hp'[a] == hp[a]
  }

  lemma WritesOnceTwice(hp: seq<Huft>, cells: seq<Cell>, hp': seq<Huft>, cells': seq<Cell>, hp'': seq<Huft>,
    cells'': seq<Cell>)
    requires WritesOnce(hp, cells, hp', cells') && WritesOnce(hp', cells', hp'', cells'')
    ensures WritesOnce(hp, cells, hp'', cells'')
  {
  }

  /** Every table but the first is linked from an earlier one; the open tables, from the first down,
      are linked each from the one before. */
  ghost predicate Chain(x: Plan, hp: seq<Huft>, tabs: seq<Tab>, cells: seq<Cell>, par: seq<nat>, st: seq<nat>)
    requires x.Valid() && |hp| == |cells| && Shape(x, tabs, 0, |hp|)
  {
    && |par| == |tabs|
    && (forall u | 1 <= u < |tabs| :: Hangs(x, hp, tabs, cells, par, u))
    && (forall v | 0 <= v < |st| :: st[v] < |tabs| && tabs[st[v]].lvl == v)
    && (|st| > 0 ==> st[0] == 0)
    && (forall v | 1 <= v < |st| :: 1 <= st[v] && par[st[v]] == st[v - 1])
  }

  ghost predicate Hangs(x: Plan, hp: seq<Huft>, tabs: seq<Tab>, cells: seq<Cell>, par: seq<nat>, u: nat)
    requires x.Valid() && |hp| == |cells| && Shape(x, tabs, 0, |hp|) && |par| == |tabs| && u < |tabs|
  {
    par[u] < u && Linked(x, hp, tabs, cells, par[u], u)
  }

  ghost predicate Linked(x: Plan, hp: seq<Huft>, tabs: seq<Tab>, cells: seq<Cell>, p: nat, u: nat)
    requires x.Valid() && |hp| == |cells| && Shape(x, tabs, 0, |hp|)
  {
    && p < |tabs| && u < |tabs| && x.l <= tabs[p].j
    && Low(tabs[u].pre, Width(x, tabs[p])) == tabs[p].pre
    && var idx := Shr(tabs[u].pre, Width(x, tabs[p]));
       idx < Pow2(x.l) && cells[LinkAt(x, tabs, p, u)] == Link(u) && CellOK(x, hp, tabs, cells, p, idx)
  }

  ghost function LinkAt(x: Plan, tabs: seq<Tab>, p: nat, u: nat): (a: nat)
    requires p < |tabs| && u < |tabs| && x.l <= tabs[p].j && Shr(tabs[u].pre, Width(x, tabs[p])) < Pow2(x.l)
    ensures a < tabs[p].base + Pow2(tabs[p].j)
  {
    InBounds(x, tabs[p], Shr(tabs[u].pre, Width(x, tabs[p])));
    tabs[p].base + Shr(tabs[u].pre, Width(x, tabs[p]))
  }

  /** Every table is behind the current position or open. */
  ghost predicate Closed(x: Plan, tabs: seq<Tab>, st: seq<nat>, at: nat) {
    forall t | 0 <= t < |tabs| :: Hi(x, tabs[t]) <= at || (tabs[t].lvl < |st| && st[tabs[t].lvl] == t)
  }

  /** All that holds of memory between two codes. */
  datatype Build = Build(tabs: seq<Tab>, cells: seq<Cell>, par: seq<nat>, st: seq<nat>)
  {
    ghost function Top(): nat
      requires st != []
    { st[|st| - 1] }

    ghost predicate Valid(x: Plan, hp0: seq<Huft>, hp: seq<Huft>, lo: nat, hn: nat, at: nat) {
      && x.Valid() && Kept(hp0, hp, cells) && lo <= hn <= |hp| && Shape(x, tabs, lo, hn) && Shape(x, tabs, 0, |hp|)
      && Done(x, hp, tabs, cells, at) && Spare(x, tabs, cells, lo, hn)
      && Chain(x, hp, tabs, cells, par, st) && Closed(x, tabs, st, at)
    }
  }

  // ----- addresses

  lemma NextWidth(lvl: nat, l: nat)
    ensures (lvl + 1) * l == lvl * l + l
  {
  }

  lemma SameCell(x: Plan, tabs: seq<Tab>, lo: nat, hi: nat, t: nat, idx: nat, u: nat, jdx: nat)
    requires Shape(x, tabs, lo, hi) && t < |tabs| && u < |tabs|
    requires idx < Pow2(tabs[t].j) && jdx < Pow2(tabs[u].j)
    ensures tabs[t].base + idx == tabs[u].base + jdx ==> t == u && idx == jdx
  {
  }

  lemma CellRange(g: nat, w: nat, e: nat, pre: nat, idx: nat)
    requires w + e <= g && pre < Pow2(w) && idx < Pow2(e)
    ensures Cat(w, pre, idx) < Pow2(w + e) <= Pow2(g)
    ensures Low(Cat(w, pre, idx), w) == pre
    ensures Rev(g, pre) <= Rev(g, Cat(w, pre, idx)) < Rev(g, pre) + Pow2(g - w) <= Pow2(g)
  {
    CatBound(w, pre, idx, e);
    Pow2Mono(w + e, g);
    CatParts(w, pre, idx);
    RevInterval(g, w, pre, Cat(w, pre, idx));
  }

  /** A cell lies within its table's interval. */
  lemma PosInTab(x: Plan, tabs: seq<Tab>, t: nat, idx: nat)
    requires x.Valid() && In(x, tabs, t, idx) && TabOK(x, tabs[t], 0, tabs[t].base + Pow2(tabs[t].j))
    ensures Prefix(x, tabs[t], idx) < Pow2(Width(x, tabs[t]) + Eff(x, tabs[t])) <= Pow2(x.g)
    ensures Low(Prefix(x, tabs[t], idx), Width(x, tabs[t])) == tabs[t].pre
    ensures Lo(x, tabs[t]) <= Pos(x, tabs, t, idx) < Hi(x, tabs[t]) <= Pow2(x.g)
  {
    hide Plan.Valid;
    CellRange(x.g, Width(x, tabs[t]), Eff(x, tabs[t]), tabs[t].pre, idx);
  }

  lemma {:induction false} Nested(g: nat, w: nat, k: nat, i: nat)
    requires w <= k <= g && i < Pow2(k)
    ensures Rev(g, Low(i, w)) <= Rev(g, i)
    ensures Rev(g, i) + Pow2(g - k) <= Rev(g, Low(i, w)) + Pow2(g - w)
  {
    if w == 0 {
      RevZero(g);
      RevInterval(g, k, i, i) by { Pow2Mono(k, g); }
    } else {
      Nested(g - 1, w - 1, k - 1, i / 2);
      RevStep(g, i);
      RevStep(g, Low(i, w));
    }
  }
}
