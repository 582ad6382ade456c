/** Decoding with the tables of huft_build is decoding by the canonical code. */
module HuftDecode {
  import opened Bits
  import opened Huffman
  import opened HuftTables
  import opened HuftBuild

  /** A finished set of tables: where they are and which cell stands for what. */
  datatype Tree = Tree(x: Plan, tabs: seq<Tab>, cells: seq<Cell>, lo: nat, hi: nat)

  ghost predicate TreeOK(tr: Tree, hp: seq<Huft>) {
    && tr.x.Valid() && |hp| == |tr.cells| && tr.lo <= tr.hi <= |hp|
    && Shape(tr.x, tr.tabs, tr.lo, tr.hi) && Shape(tr.x, tr.tabs, 0, |hp|)
    && tr.tabs != [] && tr.tabs[0] == Tab(tr.lo, 0, 0, tr.x.l)
    && (forall t | 0 <= t < |tr.tabs| :: tr.tabs[t].j <= tr.x.l)
    && (forall t: nat, idx: nat | In(tr.x, tr.tabs, t, idx) :: CellOK(tr.x, hp, tr.tabs, tr.cells, t, idx))
  }

  ghost function TreeOf(x: Plan, bd: Build, lo: nat, hi: nat): Tree { Tree(x, bd.tabs, bd.cells, lo, hi) }

  /** What huft_build leaves behind is a finished tree, unless a code runs past a table boundary. */
  lemma BuiltTree(x: Plan, bd: Build, hp0: seq<Huft>, hp: seq<Huft>, lo: nat, hn: nat)
    requires Built(x, bd, hp0, hp, lo, hn) && !x.Wide()
    ensures TreeOK(TreeOf(x, bd, lo, hn), hp)
  {
    hide Chain, Spare, Closed, Plan.Wide;
    forall t: nat, idx: nat | In(x, bd.tabs, t, idx) ensures CellOK(x, hp, bd.tabs, bd.cells, t, idx) {
      PosInTab(x, bd.tabs, t, idx);
    }
  }

  lemma CellKept(tr: Tree, hp: seq<Huft>, hp': seq<Huft>, t: nat, idx: nat)
    requires TreeOK(tr, hp) && |hp'| == |hp| && hp'[tr.lo..tr.hi] == hp[tr.lo..tr.hi] && In(tr.x, tr.tabs, t, idx)
    ensures TabOK(tr.x, tr.tabs[t], 0, |hp|) && CellOK(tr.x, hp', tr.tabs, tr.cells, t, idx)
  {
    hide Pow2, Eff, Prefix, Rev, FirstCode, Shows;
    InBounds(tr.x, tr.tabs[t], idx);
    assert TabOK(tr.x, tr.tabs[t], tr.lo, tr.hi);
    assert CellOK(tr.x, hp, tr.tabs, tr.cells, t, idx);
    var a := tr.tabs[t].base + idx;
    assert hp'[a] == hp'[tr.lo..tr.hi][a - tr.lo] == hp[a];
  }

  /** A tree stays as it is while memory outside it changes. */
  lemma TreeKept(tr: Tree, hp: seq<Huft>, hp': seq<Huft>)
    requires TreeOK(tr, hp) && |hp'| == |hp| && hp'[tr.lo..tr.hi] == hp[tr.lo..tr.hi]
    ensures TreeOK(tr, hp')
  {
    forall t: nat, idx: nat | In(tr.x, tr.tabs, t, idx) ensures CellOK(tr.x, hp', tr.tabs, tr.cells, t, idx) {
      CellKept(tr, hp, hp', t, idx);
    }
  }

  /** The stream position is on the way through table `t`; its code starts Width bits back. */
  ghost predicate AtTab(tr: Tree, t: nat, inp: seq<byte>, cur: nat) {
    && t < |tr.tabs| && Width(tr.x, tr.tabs[t]) <= cur <= 8 * |inp|
    && Take(inp, cur - Width(tr.x, tr.tabs[t]), Width(tr.x, tr.tabs[t])) == tr.tabs[t].pre
  }

  ghost function Start(tr: Tree, t: nat, cur: nat): nat
    requires t < |tr.tabs| && Width(tr.x, tr.tabs[t]) <= cur
  {
    cur - Width(tr.x, tr.tabs[t])
  }

  /** The entry of table `t` that the next bits select. */
  ghost function EntryAt(tr: Tree, t: nat, inp: seq<byte>, cur: nat): nat
    requires t < |tr.tabs| && cur + tr.tabs[t].j <= 8 * |inp|
  {
    tr.tabs[t].base + Take(inp, cur, tr.tabs[t].j)
  }

  ghost predicate Good(x: Plan, hp: seq<Huft>, tabs: seq<Tab>, cells: seq<Cell>, t: nat, idx: nat) {
    && x.Valid() && In(x, tabs, t, idx) && |hp| == |cells| && TabOK(x, tabs[t], 0, |hp|) && tabs[t].j <= x.l
    && CellOK(x, hp, tabs, cells, t, idx)
  }

  lemma EntryGood(tr: Tree, hp: seq<Huft>, t: nat, inp: seq<byte>, cur: nat)
    requires TreeOK(tr, hp) && AtTab(tr, t, inp, cur) && cur + tr.tabs[t].j <= 8 * |inp|
    ensures EntryAt(tr, t, inp, cur) < tr.hi <= |hp|
    ensures Good(tr.x, hp, tr.tabs, tr.cells, t, Take(inp, cur, tr.tabs[t].j))
  {
    TakeBound(inp, cur, tr.tabs[t].j);
    assert TabOK(tr.x, tr.tabs[t], tr.lo, tr.hi);
    assert In(tr.x, tr.tabs, t, Take(inp, cur, tr.tabs[t].j));
  }

  lemma EntryPrefix(tr: Tree, t: nat, inp: seq<byte>, cur: nat)
    requires AtTab(tr, t, inp, cur) && cur + tr.tabs[t].j <= 8 * |inp|
    ensures var w := Width(tr.x, tr.tabs[t]); var j := tr.tabs[t].j;
      Prefix(tr.x, tr.tabs[t], Take(inp, cur, j)) == Take(inp, cur - w, w + j)
  {
    TakeCat(inp, cur - Width(tr.x, tr.tabs[t]), Width(tr.x, tr.tabs[t]), tr.tabs[t].j);
  }

  /** What the entry read at table `t` stands for. */
  datatype Seen = Next(tab: nat) | Symbol(sym: nat, len: nat) | Dummy

  ghost function See(tr: Tree, hp: seq<Huft>, t: nat, inp: seq<byte>, cur: nat): Seen
    requires TreeOK(tr, hp) && AtTab(tr, t, inp, cur) && cur + tr.tabs[t].j <= 8 * |inp|
  {
    EntryGood(tr, hp, t, inp, cur);
    match tr.cells[EntryAt(tr, t, inp, cur)]
    case Empty => Dummy
    case Leaf(len, q) => if tr.x.Real(len, q) then Symbol(Nth(tr.x.al.b, len, q), len) else Dummy
    case Link(u) => Next(u)
  }

  /** A link leads to the table for the bits read so far. */
  lemma SeeNext(tr: Tree, hp: seq<Huft>, t: nat, inp: seq<byte>, cur: nat, u: nat)
    requires TreeOK(tr, hp) && AtTab(tr, t, inp, cur) && cur + tr.tabs[t].j <= 8 * |inp|
    requires See(tr, hp, t, inp, cur) == Next(u)
    ensures var a := EntryAt(tr, t, inp, cur);
      && a < |hp| && u < |tr.tabs| && hp[a].bits == tr.tabs[t].j && 1 <= hp[a].exop == tr.tabs[u].j <= BMAX
      && a + hp[a].base == tr.tabs[u].base && AtTab(tr, u, inp, cur + hp[a].bits)
      && Start(tr, u, cur + hp[a].bits) == Start(tr, t, cur)
  {
    hide Take, CellOK, Shape, Decode, Shows, Plan.Valid, Pow2, Prefix;
    EntryGood(tr, hp, t, inp, cur);
    EntryPrefix(tr, t, inp, cur);
    LinkParts(tr.x, hp, tr.tabs, tr.cells, t, Take(inp, cur, tr.tabs[t].j), u);
    TabOf(tr, u);
    PlanBounds(tr.x);
  }

  lemma PlanBounds(x: Plan)
    requires x.Valid()
    ensures 1 <= x.l <= x.g <= BMAX
  {
  }

  lemma LinkParts(x: Plan, hp: seq<Huft>, tabs: seq<Tab>, cells: seq<Cell>, t: nat, idx: nat, u: nat)
    requires Good(x, hp, tabs, cells, t, idx) && cells[tabs[t].base + idx] == Link(u)
    ensures var a := tabs[t].base + idx;
      && u < |tabs| && tabs[t].j == x.l && Width(x, tabs[u]) == Width(x, tabs[t]) + x.l
      && tabs[u].pre == Prefix(x, tabs[t], idx) && a < tabs[u].base && hp[a] == Huft(tabs[u].j, x.l, tabs[u].base - a)
  {
    hide Prefix, Rev, FirstCode, Shows;
    InBounds(x, tabs[t], idx);
    NextWidth(tabs[t].lvl, x.l);
  }

  lemma TabOf(tr: Tree, u: nat)
    requires Shape(tr.x, tr.tabs, tr.lo, tr.hi) && u < |tr.tabs|
    ensures TabOK(tr.x, tr.tabs[u], tr.lo, tr.hi)
  {
  }

  /** The code of a leaf stands next in the stream. */
  lemma LeafMsb(x: Plan, tabs: seq<Tab>, t: nat, inp: seq<byte>, cur: nat, len: nat, q: nat)
    requires x.Valid() && t < |tabs| && Width(x, tabs[t]) <= cur && cur + tabs[t].j <= 8 * |inp|
    requires Width(x, tabs[t]) < len <= Width(x, tabs[t]) + tabs[t].j && 1 <= len <= x.g
    requires Rev(len, Take(inp, cur - Width(x, tabs[t]), Width(x, tabs[t]) + tabs[t].j)) == FirstCode(x.c, len) + q
    ensures Msb(inp, cur - Width(x, tabs[t]), len) == FirstCode(Counts(x.al.b), len) + q
  {
    var start, n := cur - Width(x, tabs[t]), Width(x, tabs[t]) + tabs[t].j;
    LowTake(inp, start, n, len);
    RevLow(len, Take(inp, start, n), len);
    FirstCodeSame(x.c, Counts(x.al.b), len);
  }

  /** A leaf shows the symbol whose code stands next in the stream. */
  lemma SeeSymbol(tr: Tree, hp: seq<Huft>, t: nat, inp: seq<byte>, cur: nat, sym: nat, len: nat)
    requires TreeOK(tr, hp) && AtTab(tr, t, inp, cur) && cur + tr.tabs[t].j <= 8 * |inp|
    requires See(tr, hp, t, inp, cur) == Symbol(sym, len)
    ensures Decode(inp, Start(tr, t, cur), tr.x.al.b) == Sym(sym, len)
    ensures sym < |tr.x.al.b| && tr.x.al.b[sym] == len > 0
    ensures var a := EntryAt(tr, t, inp, cur);
      && a < |hp| && hp[a].exop == tr.x.al.Exop(sym) && hp[a].base == tr.x.al.Base(sym)
      && 1 <= hp[a].bits <= tr.tabs[t].j && cur + hp[a].bits == Start(tr, t, cur) + len
  {
    hide CellOK, Shr, Pow2, Rev, Count, Counts, Take;
    EntryGood(tr, hp, t, inp, cur);
    EntryPrefix(tr, t, inp, cur);
    hide Shape, Decode;
    LeafParts(tr.x, hp, tr.tabs, tr.cells, t, Take(inp, cur, tr.tabs[t].j));
    var q := tr.cells[EntryAt(tr, t, inp, cur)].q;
    LeafMsb(tr.x, tr.tabs, t, inp, cur, len, q);
    DecodeHit(inp, Start(tr, t, cur), tr.x.al.b, len, q);
  }

  /** A dummy shows that no code stands next in the stream. */
  lemma SeeDummy(tr: Tree, hp: seq<Huft>, t: nat, inp: seq<byte>, cur: nat)
    requires TreeOK(tr, hp) && AtTab(tr, t, inp, cur) && cur + tr.tabs[t].j <= 8 * |inp|
    requires See(tr, hp, t, inp, cur) == Dummy
    ensures Decode(inp, Start(tr, t, cur), tr.x.al.b) == NoCode
    ensures var a := EntryAt(tr, t, inp, cur);
      && a < |hp| && hp[a].exop == 128 + 64 && 1 <= hp[a].bits <= tr.tabs[t].j
      && cur + hp[a].bits == Start(tr, t, cur) + tr.x.g
      && (tr.x.g == 1 ==> hp[a].base == tr.x.al.Base(Nth(tr.x.al.b, 1, 0)))
  {
    hide TabOK, Bit, Pow2, CellOK, Rev, End;
    EntryGood(tr, hp, t, inp, cur);
    EntryPrefix(tr, t, inp, cur);
    hide Shape, Decode;
    LeafParts(tr.x, hp, tr.tabs, tr.cells, t, Take(inp, cur, tr.tabs[t].j));
    var q := tr.cells[EntryAt(tr, t, inp, cur)].q;
    LeafMsb(tr.x, tr.tabs, t, inp, cur, tr.x.g, q);
    DecodeMiss(inp, Start(tr, t, cur), tr.x.al.b);
  }

  lemma LeafParts(x: Plan, hp: seq<Huft>, tabs: seq<Tab>, cells: seq<Cell>, t: nat, idx: nat)
    requires Good(x, hp, tabs, cells, t, idx)
    ensures var a := tabs[t].base + idx; var w := Width(x, tabs[t]);
      && a < |cells| && !cells[a].Empty?
      && (cells[a].Leaf? ==>
            var len, q := cells[a].len, cells[a].q;
            && w < len <= w + tabs[t].j && 1 <= len <= x.g && q < x.c[len]
            && Rev(len, Prefix(x, tabs[t], idx)) == FirstCode(x.c, len) + q
            && hp[a].bits == len - w && Shows(x, hp[a], len, q)
            && (x.Real(len, q) ==> q < Count(x.al.b, len))
            && (!x.Real(len, q) ==> len == x.g && q >= Count(x.al.b, x.g)))
  {
    InBounds(x, tabs[t], idx);
  }
}
