/** The whole walk through a set of tables: what it finds, and for which code lengths it can be trusted. */
module HuftLookup {
  import opened Bits
  import opened Huffman
  import opened HuftTables
  import opened HuftBuild
  import opened HuftDecode

  /** A "next table" entry, by the tests the decoders make. */
  predicate IsLink(h: Huft) {
    h.exop != 0 && (h.exop / 16) % 2 == 0 && (h.exop / 64) % 2 == 0
  }

  datatype Looked = Entry(a: nat, end: nat) | Short | Astray

  /** Index by the low bits, dump the entry's bits, follow links. */
  function Lookup(hp: seq<Huft>, base: nat, j: nat, inp: seq<byte>, cur: nat): Looked
    decreases 8 * |inp| - cur
  {
    if cur + j > 8 * |inp| then Short
    else
      var a := base + Take(inp, cur, j);
      if a >= |hp| then Astray
      else if IsLink(hp[a]) && 0 < hp[a].bits && cur + hp[a].bits <= 8 * |inp| then
        Lookup(hp, a + hp[a].base, hp[a].exop, inp, cur + hp[a].bits)
      else Entry(a, cur + hp[a].bits)
  }

  /** The walk reads entry `a`. */
  ghost predicate Visits(hp: seq<Huft>, base: nat, j: nat, inp: seq<byte>, cur: nat, a: nat)
    decreases 8 * |inp| - cur
  {
    cur + j <= 8 * |inp|
    && var at := base + Take(inp, cur, j);
       (a == at || (at < |hp| && IsLink(hp[at]) && 0 < hp[at].bits && cur + hp[at].bits <= 8 * |inp|
                    && Visits(hp, at + hp[at].base, hp[at].exop, inp, cur + hp[at].bits, a)))
  }

  lemma SmallIsLink(h: Huft)
    requires 1 <= h.exop <= BMAX
    ensures IsLink(h)
  {
  }

  lemma SymbolIsNoLink(al: Alphabet, h: Huft, sym: nat)
    requires al.Valid() && sym < |al.b| && 0 < al.b[sym] && h.exop == al.Exop(sym)
    ensures !IsLink(h)
  {
  }

  /** What the walk from table `t` finds is what the canonical code says. */
  ghost predicate Agrees(al: Alphabet, hp: seq<Huft>, r: Looked, d: Decoded, start: nat)
    requires al.Valid()
  {
    match d
    case NeedMore => r == Short
    case NoCode => r == Short || (r.Entry? && r.a < |hp| && hp[r.a].exop == 128 + 64)
    case Sym(sym, len) =>
      r == Short || (r.Entry? && r.a < |hp| && r.end == start + len && sym < |al.b| && 0 < al.b[sym]
                     && hp[r.a].exop == al.Exop(sym) && hp[r.a].base == al.Base(sym))
  }

  /** Walking the tables on any bit stream finds exactly the symbol whose canonical code is next, and
      uses up exactly its bits; it finds a dummy only where no code is next, and lacks bits only where the longest code
      would. */
  lemma {:induction false} LookupDecodes(tr: Tree, hp: seq<Huft>, t: nat, inp: seq<byte>, cur: nat)
    requires TreeOK(tr, hp) && AtTab(tr, t, inp, cur)
    ensures tr.x.al.Valid() && t < |tr.tabs|
    ensures Agrees(tr.x.al, hp, Lookup(hp, tr.tabs[t].base, tr.tabs[t].j, inp, cur),
                   Decode(inp, Start(tr, t, cur), tr.x.al.b), Start(tr, t, cur))
    ensures Lookup(hp, tr.tabs[t].base, tr.tabs[t].j, inp, cur) == Short ==>
      Start(tr, t, cur) + tr.x.g > 8 * |inp|
    decreases 8 * |inp| - cur
  {
    hide Lookup, Decode, CellOK, Shape, Plan.Valid, Alphabet.Exop, Alphabet.Base, Take;
    TreeFacts(tr, hp);
    TreeTab(tr, hp, t);
    var tab := tr.tabs[t];
    LookupOne(hp, tab.base, tab.j, inp, cur);
    if cur + tab.j <= 8 * |inp| {
      var a := EntryAt(tr, t, inp, cur);
      match See(tr, hp, t, inp, cur)
      case Next(u) =>
        SeeNext(tr, hp, t, inp, cur, u);
        SmallIsLink(hp[a]);
        LookupDecodes(tr, hp, u, inp, cur + hp[a].bits);
      case Symbol(sym, len) =>
        SeeSymbol(tr, hp, t, inp, cur, sym, len);
        SymbolIsNoLink(tr.x.al, hp[a], sym);
      case Dummy =>
        SeeDummy(tr, hp, t, inp, cur);
    }
  }

  lemma LookupOne(hp: seq<Huft>, base: nat, j: nat, inp: seq<byte>, cur: nat)
    ensures cur + j > 8 * |inp| ==> Lookup(hp, base, j, inp, cur) == Short
    ensures cur + j <= 8 * |inp| && base + Take(inp, cur, j) < |hp| ==>
      var a := base + Take(inp, cur, j);
      Lookup(hp, base, j, inp, cur) ==
        if IsLink(hp[a]) && 0 < hp[a].bits && cur + hp[a].bits <= 8 * |inp| then
          Lookup(hp, a + hp[a].base, hp[a].exop, inp, cur + hp[a].bits)
        else Entry(a, cur + hp[a].bits)
  {
  }

  lemma TreeFacts(tr: Tree, hp: seq<Huft>)
    requires TreeOK(tr, hp)
    ensures tr.x.Valid() && tr.x.al.Valid()
  {
  }

  lemma TreeTab(tr: Tree, hp: seq<Huft>, t: nat)
    requires TreeOK(tr, hp) && t < |tr.tabs|
    ensures 1 <= tr.tabs[t].j <= tr.x.l <= tr.x.g <= BMAX && Width(tr.x, tr.tabs[t]) + tr.tabs[t].j <= tr.x.g
  {
    TabOf(tr, t);
  }

  /** From the first table. */
  lemma LookupFromRoot(tr: Tree, hp: seq<Huft>, inp: seq<byte>, cur: nat)
    requires TreeOK(tr, hp) && cur <= 8 * |inp|
    ensures Agrees(tr.x.al, hp, Lookup(hp, tr.lo, tr.x.l, inp, cur), Decode(inp, cur, tr.x.al.b), cur)
    ensures Lookup(hp, tr.lo, tr.x.l, inp, cur) == Short ==> cur + tr.x.g > 8 * |inp|
  {
    hide Lookup, Decode, Agrees, CellOK;
    assert AtTab(tr, 0, inp, cur);
    LookupDecodes(tr, hp, 0, inp, cur);
    assert tr.tabs[0] == Tab(tr.lo, 0, 0, tr.x.l);
  }

  // ----- codes that run past a table boundary

  /** Two bytes that hold any 16 bits. */
  function Stream(r: nat): seq<byte>
    requires r < 0x1_0000
  {
    [r % 256, r / 256]
  }

  lemma StreamTake(r: nat)
    requires r < 0x1_0000
    ensures Take(Stream(r), 0, 16) == r
  {
    TwoBytes(r % 256, r / 256);
  }

  lemma TwoBytes(a: byte, b: byte)
    ensures Take([a, b], 0, 16) == a + b * 256
  {
    assert Pow2(8) == 256;
    hide *;
    TakeByte([a, b], 0);
    TakeByte([a, b], 1);
    TakeCat([a, b], 0, 8, 8);
    CatIsSum(8, a, b);
  }

  /** If the walk reads `a` once it is at table `u`, it reads it from the start. */
  lemma {:induction false} VisitsFromRoot(x: Plan, hp0: seq<Huft>, hp: seq<Huft>, bd: Build, lo: nat, hn: nat,
                                          inp: seq<byte>, u: nat, t: nat, a: nat)
    requires Built(x, bd, hp0, hp, lo, hn) && u <= t < |bd.tabs| && Width(x, bd.tabs[u]) <= 8 * |inp|
    requires forall p | 0 <= p < t :: bd.tabs[p].j <= x.l
    requires Take(inp, 0, Width(x, bd.tabs[u])) == bd.tabs[u].pre
    requires Visits(hp, bd.tabs[u].base, bd.tabs[u].j, inp, Width(x, bd.tabs[u]), a)
    ensures Visits(hp, lo, x.l, inp, 0, a)
    decreases u
  {
    hide HasWide, Plan.Wide, Visits, Done, Spare, Closed, Kept;
    if u > 0 {
      var p := bd.par[u];
      LinkedEntry(x, hp0, hp, bd, lo, hn, u);
      LeadVisits(x, hp, bd.tabs[p], bd.tabs[u], inp, a);
      VisitsFromRoot(x, hp0, hp, bd, lo, hn, inp, p, t, a);
    }
  }

  /** The entry that leads from table `p` to table `u`. */
  ghost predicate Leads(x: Plan, hp: seq<Huft>, p: Tab, u: Tab) {
    && p.j >= x.l >= 1 && Width(x, u) == Width(x, p) + x.l && Low(u.pre, Width(x, p)) == p.pre
    && Shr(u.pre, Width(x, p)) < Pow2(x.l) && 1 <= u.j <= BMAX
    && var a := p.base + Shr(u.pre, Width(x, p));
       a < |hp| && a < u.base && hp[a] == Huft(u.j, x.l, u.base - a)
  }

  lemma LinkedEntry(x: Plan, hp0: seq<Huft>, hp: seq<Huft>, bd: Build, lo: nat, hn: nat, u: nat)
    requires Built(x, bd, hp0, hp, lo, hn) && 1 <= u < |bd.tabs|
    ensures |bd.par| == |bd.tabs| && bd.par[u] < u && Leads(x, hp, bd.tabs[bd.par[u]], bd.tabs[u])
  {
    hide Done, Spare, Closed, HasWide, Plan.Wide;
    assert Hangs(x, hp, bd.tabs, bd.cells, bd.par, u);
    assert TabOK(x, bd.tabs[u], lo, hn);
    NextWidth(bd.tabs[bd.par[u]].lvl, x.l);
  }

  lemma LeadVisits(x: Plan, hp: seq<Huft>, p: Tab, u: Tab, inp: seq<byte>, a: nat)
    requires Leads(x, hp, p, u) && p.j == x.l && Width(x, u) <= 8 * |inp| && Take(inp, 0, Width(x, u)) == u.pre
    requires Visits(hp, u.base, u.j, inp, Width(x, u), a)
    ensures Visits(hp, p.base, p.j, inp, Width(x, p), a) && Take(inp, 0, Width(x, p)) == p.pre
  {
    hide Visits, Take, Low, Shr, Pow2;
    var w := Width(x, p);
    var at := p.base + Shr(u.pre, w);
    LowTake(inp, 0, w + x.l, w);
    ShrTake(inp, 0, w + x.l, w);
    SmallIsLink(hp[at]);
    VisitsOn(hp, p.base, p.j, inp, w, at, a);
  }

  lemma VisitsOn(hp: seq<Huft>, base: nat, j: nat, inp: seq<byte>, cur: nat, at: nat, a: nat)
    requires cur + j <= 8 * |inp| && at == base + Take(inp, cur, j) < |hp|
    requires IsLink(hp[at]) && 0 < hp[at].bits && cur + hp[at].bits <= 8 * |inp|
    requires Visits(hp, at + hp[at].base, hp[at].exop, inp, cur + hp[at].bits, a)
    ensures Visits(hp, base, j, inp, cur, a)
  {
  }

  /** The first table too wide for its link, with only narrower ones before it. */
  lemma {:induction false} FirstWide(x: Plan, tabs: seq<Tab>, n: nat) returns (t: nat)
    requires n <= |tabs| && exists t :: 0 <= t < n && tabs[t].j > x.l
    ensures t < n && tabs[t].j > x.l && forall p | 0 <= p < t :: tabs[p].j <= x.l
  {
    if exists p :: 0 <= p < n - 1 && tabs[p].j > x.l {
      t := FirstWide(x, tabs, n - 1);
    } else {
      t := n - 1;
    }
  }

  /** In a table too wide for its link, the entries no link reaches are never written. */
  lemma WideUnwritten(x: Plan, hp0: seq<Huft>, hp: seq<Huft>, bd: Build, lo: nat, hn: nat, t: nat)
    requires Built(x, bd, hp0, hp, lo, hn) && t < |bd.tabs| && bd.tabs[t].j > x.l
    ensures var a := bd.tabs[t].base + Pow2(x.l);
      Pow2(x.l) < Pow2(bd.tabs[t].j) && a < hn <= |hp| == |bd.cells| && bd.cells[a] == Empty && hp[a] == hp0[a]
    ensures Width(x, bd.tabs[t]) + bd.tabs[t].j <= BMAX && bd.tabs[t].pre < Pow2(Width(x, bd.tabs[t]))
  {
    hide Done, Chain, Closed, HasWide, Plan.Wide;
    Pow2Mono(x.l, bd.tabs[t].j);
    assert TabOK(x, bd.tabs[t], lo, hn);
    assert Vacant(bd.tabs, bd.cells, t, Pow2(x.l));
  }

  lemma Pow2Of16()
    ensures Pow2(16) == 0x1_0000
  {
    Pow2Add(8, 8);
    assert Pow2(8) == 256;
  }

  /** A stream whose bits lead to a given entry of a given table. */
  lemma StreamTo(w: nat, j: nat, pre: nat, idx: nat) returns (inp: seq<byte>)
    requires w + j <= 16 && pre < Pow2(w) && idx < Pow2(j)
    ensures |inp| == 2 && Take(inp, 0, w) == pre && Take(inp, w, j) == idx
  {
    hide Pow2, Cat, Low, Take;
    var r := Cat(w, pre, idx);
    CatBound(w, pre, idx, j);
    Pow2Mono(w + j, 16);
    Pow2Of16();
    inp := Stream(r);
    StreamTake(r);
    LowTake(inp, 0, 16, w);
    ShrTake(inp, 0, 16, w);
    LowTake(inp, w, 16 - w, j);
    CatParts(w, pre, idx);
    LowBound(idx, j);
  }

  /** The walk never reads an entry huft_build did not write, whatever the stream, exactly if no code,
      first in its subtree at a table boundary, runs past the next boundary as well. */
  lemma ReadsOnlyWritten(x: Plan, hp0: seq<Huft>, hp: seq<Huft>, bd: Build, lo: nat, hn: nat)
    requires Built(x, bd, hp0, hp, lo, hn)
    ensures |bd.cells| == |hp|
    ensures (forall inp: seq<byte>, cur: nat, a: nat | cur <= 8 * |inp| && Visits(hp, lo, x.l, inp, cur, a) ::
               a < |hp| && bd.cells[a] != Empty) <==> !x.Wide()
  {
    hide Build.Valid, HasWide, Plan.Wide, Visits, TreeOK;
    BuiltSizes(x, hp0, hp, bd, lo, hn);
    if x.Wide() {
      var inp, a := Misread(x, hp0, hp, bd, lo, hn);
      assert Visits(hp, lo, x.l, inp, 0, a);
    } else {
      BuiltTree(x, bd, hp0, hp, lo, hn);
      var tr := TreeOf(x, bd, lo, hn);
      forall inp: seq<byte>, cur: nat, a: nat | cur <= 8 * |inp| && Visits(hp, lo, x.l, inp, cur, a)
        ensures a < |hp| && bd.cells[a] != Empty
      {
        RootAt(tr, hp, inp, cur);
        VisitsWritten(tr, hp, 0, inp, cur, a);
      }
    }
  }

  lemma BuiltSizes(x: Plan, hp0: seq<Huft>, hp: seq<Huft>, bd: Build, lo: nat, hn: nat)
    requires Built(x, bd, hp0, hp, lo, hn)
    ensures |bd.cells| == |hp| == |hp0|
  {
  }

  lemma RootAt(tr: Tree, hp: seq<Huft>, inp: seq<byte>, cur: nat)
    requires TreeOK(tr, hp) && cur <= 8 * |inp|
    ensures tr.tabs != [] && tr.tabs[0] == Tab(tr.lo, 0, 0, tr.x.l) && AtTab(tr, 0, inp, cur)
  {
  }

  /** With a code that runs past a boundary, some stream makes the walk read an entry that still holds
      whatever was in memory before. */
  lemma Misread(x: Plan, hp0: seq<Huft>, hp: seq<Huft>, bd: Build, lo: nat, hn: nat) returns (inp: seq<byte>, a: nat)
    requires Built(x, bd, hp0, hp, lo, hn) && x.Wide()
    ensures Visits(hp, lo, x.l, inp, 0, a) && a < |hp| == |hp0| == |bd.cells| && bd.cells[a] == Empty && hp[a] == hp0[a]
  {
    BuiltSizes(x, hp0, hp, bd, lo, hn);
    var t := FirstWide(x, bd.tabs, |bd.tabs|) by { assert HasWide(x, bd.tabs); }
    WideUnwritten(x, hp0, hp, bd, lo, hn, t);
    var tab := bd.tabs[t];
    hide Build.Valid, HasWide, Plan.Wide, Built;
    a := tab.base + Pow2(x.l);
    inp := StreamTo(Width(x, tab), tab.j, tab.pre, Pow2(x.l));
    assert Visits(hp, tab.base, tab.j, inp, Width(x, tab), a);
    VisitsFromRoot(x, hp0, hp, bd, lo, hn, inp, t, t, a);
  }

  lemma {:induction false} VisitsWritten(tr: Tree, hp: seq<Huft>, t: nat, inp: seq<byte>, cur: nat, a: nat)
    requires TreeOK(tr, hp) && AtTab(tr, t, inp, cur)
    requires Visits(hp, tr.tabs[t].base, tr.tabs[t].j, inp, cur, a)
    ensures a < |hp| == |tr.cells| && tr.cells[a] != Empty
    decreases 8 * |inp| - cur
  {
    hide Decode, CellOK, Shape, Plan.Valid, Alphabet.Exop, Alphabet.Base, TreeOK;
    var at := EntryAt(tr, t, inp, cur);
    EntryWritten(tr, hp, t, inp, cur);
    if a != at {
      match See(tr, hp, t, inp, cur)
      case Next(u) =>
        SeeNext(tr, hp, t, inp, cur, u);
        VisitsWritten(tr, hp, u, inp, cur + hp[at].bits, a);
      case Symbol(sym, len) =>
        SeeSymbol(tr, hp, t, inp, cur, sym, len);
        TreeFacts(tr, hp);
        SymbolIsNoLink(tr.x.al, hp[at], sym);
      case Dummy =>
        SeeDummy(tr, hp, t, inp, cur);
    }
  }

  lemma EntryWritten(tr: Tree, hp: seq<Huft>, t: nat, inp: seq<byte>, cur: nat)
    requires TreeOK(tr, hp) && AtTab(tr, t, inp, cur) && cur + tr.tabs[t].j <= 8 * |inp|
    ensures EntryAt(tr, t, inp, cur) < |hp| == |tr.cells| && tr.cells[EntryAt(tr, t, inp, cur)] != Empty
  {
    EntryGood(tr, hp, t, inp, cur);
    LeafParts(tr.x, hp, tr.tabs, tr.cells, t, Take(inp, cur, tr.tabs[t].j));
  }

  ghost predicate Written(bd: Build, t: nat, idx: nat)
    requires t < |bd.tabs|
  {
    bd.tabs[t].base + idx < |bd.cells| && bd.cells[bd.tabs[t].base + idx] != Empty
  }

  /** Every entry of every table is written, exactly if no code runs past a table boundary. */
  lemma EveryEntryWritten(x: Plan, hp0: seq<Huft>, hp: seq<Huft>, bd: Build, lo: nat, hn: nat)
    requires Built(x, bd, hp0, hp, lo, hn)
    ensures (forall t: nat, idx: nat | t < |bd.tabs| && idx < Pow2(bd.tabs[t].j) :: Written(bd, t, idx)) <==> !x.Wide()
  {
    hide Build.Valid, Plan.Wide, CellOK, Pow2;
    if x.Wide() {
      var t := FirstWide(x, bd.tabs, |bd.tabs|);
      WideUnwritten(x, hp0, hp, bd, lo, hn, t);
      assert !Written(bd, t, Pow2(x.l));
    } else {
      BuiltTree(x, bd, hp0, hp, lo, hn);
      forall t: nat, idx: nat | t < |bd.tabs| && idx < Pow2(bd.tabs[t].j) ensures Written(bd, t, idx) {
        TreeEntry(TreeOf(x, bd, lo, hn), hp, t, idx);
      }
    }
  }

  lemma TreeEntry(tr: Tree, hp: seq<Huft>, t: nat, idx: nat)
    requires TreeOK(tr, hp) && t < |tr.tabs| && idx < Pow2(tr.tabs[t].j)
    ensures tr.tabs[t].base + idx < |tr.cells| && tr.cells[tr.tabs[t].base + idx] != Empty
  {
    assert TabOK(tr.x, tr.tabs[t], tr.lo, tr.hi);
    assert In(tr.x, tr.tabs, t, idx);
    LeafParts(tr.x, hp, tr.tabs, tr.cells, t, idx);
  }
}
