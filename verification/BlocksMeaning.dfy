/** The reference decoder seen from the states in which inflate_blocks can stop. */
module BlocksMeaning {
  import opened Bits
  import opened Huffman
  import opened HuftTables
  import opened HuftLengths
  import opened HuftDecode
  import opened HuftLookup
  import opened Reference
  import opened CodesTrees
  import opened CodesMeaning
  import opened InflateTrees

  /** A block header: one bit for the last block, two for its kind. */
  lemma BlockHeader(inp: seq<byte>, cur: nat, out: seq<byte>, ends: seq<nat>)
    ensures cur + 3 > 8 * |inp| ==> Blocks(inp, cur, out, ends) == Starved(out, ends)
    ensures cur + 3 <= 8 * |inp| ==>
      var t := Take(inp, cur, 3);
      t / 2 <= 3 && Blocks(inp, cur, out, ends) ==
        After(inp, BlockBody(inp, cur + 3, t / 2, out), t % 2 == 1, t / 2 != 0, ends)
  {
    hide BlockBody, After;
    if cur + 3 <= 8 * |inp| {
      TakeBound(inp, cur, 3);
      assert Take(inp, cur, 1) == Bit(inp, cur) + 2 * Take(inp, cur + 1, 0);
      assert Pow2(3) == 8 && Take(inp, cur, 3) == Bit(inp, cur) + 2 * Take(inp, cur + 1, 2);
    }
  }

  /** What follows a block that ends, is bad, or is cut short. */
  lemma AfterBlock(inp: seq<byte>, cur: nat, out: seq<byte>, last: bool, packed: bool, ends: seq<nat>)
    requires cur <= 8 * |inp|
    ensures After(inp, Ended(cur, out), last, packed, ends) ==
      if last then Finished(out, cur, ends) else Blocks(inp, cur, out, if packed then ends + [cur] else ends)
    ensures After(inp, BadData(out), last, packed, ends) == Corrupt(out, ends)
    ensures After(inp, CutShort(out), last, packed, ends) == Starved(out, ends)
  {
    hide Blocks;
  }

  /** Less than a byte before byte `n`, nothing can end a byte before it. */
  lemma TooLate(inp: seq<byte>, cur: nat, out: seq<byte>, b: Block, n: nat, last: bool, packed: bool, ends: seq<nat>)
    requires Grows(inp, cur, out, b) && cur + 8 > 8 * n
    ensures !Early(n, |ends|, After(inp, b, last, packed, ends))
  {
    TidyAfter(inp, n, b, last, packed, ends);
  }

  /** The same, between blocks. */
  lemma BlocksLate(inp: seq<byte>, cur: nat, out: seq<byte>, n: nat, ends: seq<nat>)
    requires cur + 8 > 8 * n
    ensures !Early(n, |ends|, Blocks(inp, cur, out, ends))
  {
    hide After, BlockBody;
  }

  // ----- stored blocks

  /** The rest of a stored block once its two length fields are read. */
  ghost function StoredGoal(inp: seq<byte>, cur: nat, len: nat, nlen: nat, out: seq<byte>): Block
    requires cur % 8 == 0 && cur <= 8 * |inp|
  {
    if nlen != 0xffff - len then BadData(out) else StoredBytes(inp, cur, len, out)
  }

  lemma StoredHeader(inp: seq<byte>, cur: nat, out: seq<byte>)
    requires cur % 8 == 0
    ensures cur + 32 > 8 * |inp| ==> Stored(inp, cur, out) == CutShort(out)
    ensures cur + 32 <= 8 * |inp| ==>
      var w := Take(inp, cur, 32);
      w / 0x1_0000 < 0x1_0000 && Stored(inp, cur, out) == StoredGoal(inp, cur + 32, w % 0x1_0000, w / 0x1_0000, out)
  {
    Pow2Of16();
    hide StoredBytes, Take, Low, Shr, Pow2;
    if cur + 32 <= 8 * |inp| {
      LowTake(inp, cur, 32, 16);
      ShrTake(inp, cur, 32, 16);
      LowIsMod(Take(inp, cur, 32), 16);
      TakeBound(inp, cur, 16);
      TakeBound(inp, cur + 16, 16);
    }
  }

  lemma StoredDone(inp: seq<byte>, cur: nat, out: seq<byte>)
    requires cur % 8 == 0 && cur <= 8 * |inp|
    ensures StoredBytes(inp, cur, 0, out) == Ended(cur, out)
  {
    assert out + inp[cur / 8..cur / 8] == out;
  }

  lemma StoredLong(inp: seq<byte>, cur: nat, out: seq<byte>)
    requires cur % 8 == 0
    ensures var b := Stored(inp, cur, out); b.Ended? ==> cur + 32 <= b.cur
  {
    StoredHeader(inp, cur, out);
  }

  lemma StoredSome(inp: seq<byte>, p: nat, left: nat, out: seq<byte>, t: nat)
    requires t <= left && p + t <= |inp|
    ensures StoredBytes(inp, 8 * p, left, out) == StoredBytes(inp, 8 * (p + t), left - t, out + inp[p..p + t])
  {
    if p + left > |inp| {
      assert out + inp[p..] == out + inp[p..p + t] + inp[p + t..];
    } else {
      assert out + inp[p..p + left] == out + inp[p..p + t] + inp[p + t..p + left];
    }
  }

  // ----- dynamic headers

  function Total(table: nat): nat { NumLit(table) + NumDist(table) }

  ghost predicate TableOK(table: nat) {
    table % 32 <= 29 && (table / 32) % 32 <= 29 && NumClen(table) <= 19
  }

  /** Too many length or distance symbols. */
  predicate TooMany(table: nat) { table % 32 > 29 || (table / 32) % 32 > 29 }

  lemma TableHeader(inp: seq<byte>, cur: nat, out: seq<byte>)
    ensures cur + 14 > 8 * |inp| ==> Dynamic(inp, cur, out) == CutShort(out)
    ensures cur + 14 <= 8 * |inp| ==>
      var table := Take(inp, cur, 14);
      if TooMany(table) then Dynamic(inp, cur, out) == BadData(out)
      else TableOK(table) && Dynamic(inp, cur, out) == ClensGoal(inp, cur + 14, table, 0, Repeat(0, 19), out)
  {
    hide WithClens, ReadClens;
    if cur + 14 <= 8 * |inp| { TableBound(inp, cur); }
  }

  lemma TableLate(inp: seq<byte>, cur: nat, out: seq<byte>, n: nat)
    requires cur + 14 > 8 * n
    ensures !TidyBlock(n, Dynamic(inp, cur, out))
  {
    hide Dynamic, ClensGoal;
    TableHeader(inp, cur, out);
  }

  /** The rest of a dynamic block whose code length code lengths are read up to `idx`. */
  ghost function ClensGoal(inp: seq<byte>, cur: nat, table: nat, idx: nat, acc: seq<nat>, out: seq<byte>): (b: Block)
    requires TableOK(table) && |acc| == 19 && forall i | 0 <= i < 19 :: acc[i] <= 7
    requires cur <= 8 * |inp|
    ensures Grows(inp, cur, out, b)
  {
    WithClens(inp, cur, table, ReadClens(inp, cur, NumClen(table), idx, acc), out)
  }

  lemma OrderOK(idx: nat)
    requires idx < 19
    ensures BORDER[idx] < 19
  {
  }

  lemma ClensMore(inp: seq<byte>, cur: nat, table: nat, idx: nat, acc: seq<nat>, out: seq<byte>)
    requires TableOK(table) && |acc| == 19 && (forall i | 0 <= i < 19 :: acc[i] <= 7) && cur <= 8 * |inp|
    requires idx < 19
    ensures idx < NumClen(table) && cur + 3 > 8 * |inp| ==> ClensGoal(inp, cur, table, idx, acc, out) == CutShort(out)
    ensures idx < NumClen(table) && cur + 3 <= 8 * |inp| ==>
      Take(inp, cur, 3) <= 7 && BORDER[idx] < 19
      && ClensGoal(inp, cur, table, idx, acc, out)
         == ClensGoal(inp, cur + 3, table, idx + 1, acc[BORDER[idx] := Take(inp, cur, 3)], out)
    ensures idx >= NumClen(table) ==>
      BORDER[idx] < 19
      && ClensGoal(inp, cur, table, idx, acc, out) == ClensGoal(inp, cur, table, idx + 1, acc[BORDER[idx] := 0], out)
  {
    hide Acceptable, ReadLens, WithLens;
    OrderOK(idx);
    if cur + 3 <= 8 * |inp| {
      TakeBound(inp, cur, 3);
      assert Pow2(3) == 8;
    }
  }

  lemma ClensAll(inp: seq<byte>, cur: nat, table: nat, acc: seq<nat>, out: seq<byte>)
    requires TableOK(table) && |acc| == 19 && (forall i | 0 <= i < 19 :: acc[i] <= 7) && cur <= 8 * |inp|
    ensures MaxLen(acc) <= BMAX
    ensures ClensGoal(inp, cur, table, 19, acc, out) ==
      if Acceptable(acc) && MaxLen(acc) > 0 then LensGoal(inp, cur, table, acc, [], out) else BadData(out)
  {
    hide MaxLen, Pow2, ReadClens, ReadLens, WithLens, Acceptable;
    BoundedMax(acc, 7);
    ClensRead(inp, cur, NumClen(table), acc);
  }

  lemma ClensRead(inp: seq<byte>, cur: nat, n: nat, acc: seq<nat>)
    requires |acc| == 19 && n <= 19 && forall i | 0 <= i < 19 :: acc[i] <= 7
    ensures ReadClens(inp, cur, n, 19, acc) == Lens(acc, cur)
  {
  }

  /** The rest of a dynamic block whose code lengths are read as far as `acc`. */
  ghost function LensGoal(inp: seq<byte>, cur: nat, table: nat, clen: seq<nat>, acc: seq<nat>,
    out: seq<byte>): (b: Block)
    requires TableOK(table) && MaxLen(clen) <= BMAX && |clen| == 19
    requires |acc| <= Total(table) && LengthsOK(acc) && cur <= 8 * |inp|
    ensures Grows(inp, cur, out, b)
  {
    WithLens(inp, cur, table, ReadLens(inp, cur, clen, Total(table), acc), out)
  }

  lemma LensAll(inp: seq<byte>, cur: nat, table: nat, clen: seq<nat>, acc: seq<nat>, out: seq<byte>)
    requires TableOK(table) && MaxLen(clen) <= BMAX && |clen| == 19
    requires |acc| == Total(table) && LengthsOK(acc) && cur <= 8 * |inp|
    ensures LitLens(acc[..NumLit(table)]) && DistLens(acc[NumLit(table)..])
    ensures LensGoal(inp, cur, table, clen, acc, out) ==
      if Usable(acc[..NumLit(table)], acc[NumLit(table)..])
      then Codes(inp, cur, acc[..NumLit(table)], acc[NumLit(table)..], out) else BadData(out)
  {
    hide Acceptable, Codes;
    BoundedMax(acc[..NumLit(table)], BMAX);
    BoundedMax(acc[NumLit(table)..], BMAX);
  }

  function ExtraFor(c: nat): nat { if c == 18 then 7 else if c < 14 then 0 else c - 14 }
  function LeastFor(c: nat): nat { if c == 18 then 11 else 3 }

  /** Reading on, by what the next code length symbol is. */
  lemma LensMore(inp: seq<byte>, cur: nat, table: nat, clen: seq<nat>, acc: seq<nat>, out: seq<byte>)
    requires TableOK(table) && MaxLen(clen) <= BMAX && |clen| == 19
    requires |acc| < Total(table) && LengthsOK(acc) && cur <= 8 * |inp|
    ensures var d := CodeLength(inp, cur, clen); var rest := LensGoal(inp, cur, table, clen, acc, out);
      match d
      case NeedMore => rest == CutShort(out)
      case NoCode => rest == BadData(out)
      case Sym(c, n) =>
        if c < 16 then rest == LensGoal(inp, cur + n, table, clen, acc + [c], out)
        else if cur + n + ExtraFor(c) > 8 * |inp| then rest == CutShort(out)
        else
          var rep := LeastFor(c) + Take(inp, cur + n, ExtraFor(c));
          if |acc| + rep > Total(table) || (c == 16 && acc == []) then rest == BadData(out)
          else var more := acc + Repeat(if c == 16 then acc[|acc| - 1] else 0, rep);
            LengthsOK(more) && rest == LensGoal(inp, cur + n + ExtraFor(c), table, clen, more, out)
  {
    hide Acceptable, Codes, CodeLength, LitLens, DistLens;
    var d := CodeLength(inp, cur, clen);
    if d.Sym? { hide WithLens; }
  }

  lemma LensOne(inp: seq<byte>, cur: nat, table: nat, clen: seq<nat>, acc: seq<nat>, out: seq<byte>, c: nat, n: nat)
    requires TableOK(table) && MaxLen(clen) <= BMAX && |clen| == 19
    requires |acc| < Total(table) && LengthsOK(acc) && cur <= 8 * |inp|
    requires CodeLength(inp, cur, clen) == Sym(c, n) && c < 16
    ensures cur + n <= 8 * |inp| && LengthsOK(acc + Repeat(c, 1))
    ensures LensGoal(inp, cur, table, clen, acc, out) == LensGoal(inp, cur + n, table, clen, acc + Repeat(c, 1), out)
  {
    hide CodeLength, LensGoal, TableOK, MaxLen;
    LensMore(inp, cur, table, clen, acc, out);
    assert Repeat(c, 1) == [c];
  }

  lemma RunLate(inp: seq<byte>, cur: nat, table: nat, clen: seq<nat>, acc: seq<nat>, out: seq<byte>, c: nat, n: nat,
                taken: nat)
    requires TableOK(table) && MaxLen(clen) <= BMAX && |clen| == 19
    requires |acc| < Total(table) && LengthsOK(acc) && cur <= 8 * |inp|
    requires CodeLength(inp, cur, clen) == Sym(c, n) && c >= 16 && cur + n + ExtraFor(c) > 8 * taken
    ensures !TidyBlock(taken, LensGoal(inp, cur, table, clen, acc, out))
  {
    hide CodeLength, LensGoal, TableOK, MaxLen, Take, ExtraFor, LeastFor;
    LensRun(inp, cur, table, clen, acc, out, c, n);
  }

  /** What follows symbols 16 to 18. */
  ghost function RunGoal(inp: seq<byte>, cur: nat, table: nat, clen: seq<nat>, acc: seq<nat>, out: seq<byte>,
    c: nat, rep: nat): (b: Block)
    requires TableOK(table) && MaxLen(clen) <= BMAX && |clen| == 19
    requires |acc| < Total(table) && LengthsOK(acc) && cur <= 8 * |inp|
    ensures Grows(inp, cur, out, b)
  {
    if |acc| + rep > Total(table) || (c == 16 && acc == []) then BadData(out)
    else LensGoal(inp, cur, table, clen, acc + Repeat(if c == 16 then acc[|acc| - 1] else 0, rep), out)
  }

  lemma RunParts(inp: seq<byte>, cur: nat, table: nat, clen: seq<nat>, acc: seq<nat>, out: seq<byte>, c: nat, rep: nat)
    requires TableOK(table) && MaxLen(clen) <= BMAX && |clen| == 19
    requires |acc| < Total(table) && LengthsOK(acc) && cur <= 8 * |inp|
    ensures var rest := RunGoal(inp, cur, table, clen, acc, out, c, rep);
      if |acc| + rep > Total(table) || (c == 16 && acc == []) then rest == BadData(out)
      else
        var v := if c == 16 then acc[|acc| - 1] else 0;
        v <= BMAX && LengthsOK(acc + Repeat(v, rep)) &&
        rest == LensGoal(inp, cur, table, clen, acc + Repeat(v, rep), out)
  {
    hide LensGoal, MaxLen, TableOK;
  }

  lemma LensRun(inp: seq<byte>, cur: nat, table: nat, clen: seq<nat>, acc: seq<nat>, out: seq<byte>, c: nat, n: nat)
    requires TableOK(table) && MaxLen(clen) <= BMAX && |clen| == 19
    requires |acc| < Total(table) && LengthsOK(acc) && cur <= 8 * |inp|
    requires CodeLength(inp, cur, clen) == Sym(c, n) && c >= 16
    ensures cur + n + ExtraFor(c) > 8 * |inp| ==> LensGoal(inp, cur, table, clen, acc, out) == CutShort(out)
    ensures cur + n + ExtraFor(c) <= 8 * |inp| ==>
      LensGoal(inp, cur, table, clen, acc, out)
      == RunGoal(inp, cur + n + ExtraFor(c), table, clen, acc, out, c, LeastFor(c) + Take(inp, cur + n, ExtraFor(c)))
  {
    hide CodeLength, LensGoal, TableOK, MaxLen, Take, ExtraFor, LeastFor;
    LensMore(inp, cur, table, clen, acc, out);
  }

  /** The tree of the code length symbols. */
  ghost predicate ClenTree(tr: Tree, hp: seq<Huft>, clen: seq<nat>, bb: nat, tb: int) {
    && |clen| == 19 && (forall i | 0 <= i < 19 :: clen[i] <= 7) && Acceptable(clen) && MaxLen(clen) > 0
    && TreeOK(tr, hp) && tr.x.al == ClenAlphabet(clen) && tb == tr.lo == 0 &&
    bb == tr.x.l == tr.x.g == MaxLen(clen) <= 7
  }

  /** In a full code set no word is left over. */
  lemma FullHasNoDummy(x: Plan, q: nat)
    requires x.Valid() && Kraft(x.al.b) == Pow2(BMAX) && q < x.c[x.g]
    ensures q < Count(x.al.b, x.g)
  {
    var c := Counts(x.al.b);
    hide Pow2, End, MaxLen, Count, Kraft;
    KraftDecides(x.al.b);
    EndSame(c, x.c, x.g, x.g - 1);
    LastEnd(c, x.g);
    LastEnd(x.c, x.g);
  }

  lemma LastEnd(c: seq<nat>, g: nat)
    requires 1 <= g < |c|
    ensures End(c, g, g) == End(c, g, g - 1) + c[g]
  {
    assert Pow2(0) == 1;
    assert End(c, g, g) == End(c, g, g - 1) + c[g] * Pow2(0);
  }

  /** The entry the next bits select is the next code length symbol. */
  lemma ClenLookup(tr: Tree, hp: seq<Huft>, inp: seq<byte>, cur: nat, clen: seq<nat>, bb: nat, tb: int)
    requires ClenTree(tr, hp, clen, bb, tb) && cur + bb <= 8 * |inp|
    ensures var a := tb + Take(inp, cur, bb);
      && 0 <= a < |hp| && 1 <= hp[a].bits <= bb && hp[a].base < 19 && MaxLen(clen) <= BMAX
      && CodeLength(inp, cur, clen) == Sym(hp[a].base, hp[a].bits)
  {
    hide Pow2, MaxLen, Take, Rev, CellOK, Shape, Decode, TreeOK, Acceptable, Kraft;
    RootTable(tr, hp, inp, cur);
    TreeParts(tr, hp);
    EntryAddress(tr, hp, 0, inp, cur);
    match See(tr, hp, 0, inp, cur)
    case Next(u) =>
      SeeNext(tr, hp, 0, inp, cur, u);
      FurtherTable(tr, hp, u);
      assert false;
    case Symbol(sym, len) =>
      SeeSymbol(tr, hp, 0, inp, cur, sym, len);
    case Dummy =>
      SeeDummy(tr, hp, 0, inp, cur);
      SingleCode(tr, hp, inp, cur, clen);
  }

  lemma RootTable(tr: Tree, hp: seq<Huft>, inp: seq<byte>, cur: nat)
    requires TreeOK(tr, hp) && cur <= 8 * |inp|
    ensures tr.tabs != [] && tr.tabs[0] == Tab(tr.lo, 0, 0, tr.x.l) && AtTab(tr, 0, inp, cur) &&
      Start(tr, 0, cur) == cur
  {
  }

  lemma FurtherTable(tr: Tree, hp: seq<Huft>, u: nat)
    requires TreeOK(tr, hp) && u < |tr.tabs|
    ensures Width(tr.x, tr.tabs[u]) < tr.x.g
  {
    TabOf(tr, u);
  }

  /** Only a code of a single one-bit word leaves a dummy. */
  lemma SingleCode(tr: Tree, hp: seq<Huft>, inp: seq<byte>, cur: nat, clen: seq<nat>)
    requires ClenTree(tr, hp, clen, tr.x.l, 0) && cur + tr.x.l <= 8 * |inp|
    requires tr.tabs != [] && tr.tabs[0] == Tab(tr.lo, 0, 0, tr.x.l) && AtTab(tr, 0, inp, cur)
    requires See(tr, hp, 0, inp, cur) == Dummy
    ensures MaxLen(clen) == 1 && Count(clen, 1) > 0
  {
    EntryGood(tr, hp, 0, inp, cur);
    var idx := Take(inp, cur, tr.x.l);
    LeafParts(tr.x, hp, tr.tabs, tr.cells, 0, idx);
    var q := tr.cells[EntryAt(tr, 0, inp, cur)].q;
    if Kraft(clen) == Pow2(BMAX) { FullHasNoDummy(tr.x, q); }
    CountsSome(tr, hp);
  }

  lemma CountsSome(tr: Tree, hp: seq<Huft>)
    requires TreeOK(tr, hp)
    ensures Count(tr.x.al.b, tr.x.g) > 0
  {
  }
}
