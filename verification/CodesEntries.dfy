/** What the entry just read, of either tree, makes of the rest of the block. */
module CodesEntries {
  import opened Bits
  import opened Huffman
  import opened HuftTables
  import opened HuftDecode
  import opened Reference
  import opened Window
  import opened CodesTrees
  import opened CodesMeaning

  /** What an entry of the literal/length tree makes of the rest. */
  ghost predicate LenSays(tr: Tree, hp: seq<Huft>, lit: LitCode, dist: DistCode, inp: seq<byte>, cur: nat, start: nat,
                          h: Huft, a: nat, seen: Seen, out: seq<byte>) {
    var rest := Codes(inp, start, lit, dist, out);
    var e := h.exop;
    if e == 0 then h.base < 256 && rest == Codes(inp, cur, lit, dist, out + [h.base])
    else if Has16(e) then e % 16 <= 5 && |lit| > 257 && 3 <= h.base && h.base + Pow2(e % 16) <= 259 &&
    rest == Length(inp, cur, lit, dist, out, h.base, e % 16)
    else if !Has64(e) then seen.Next? && Walking(tr, hp, seen.tab, inp, cur, start, a + h.base, e)
    else if Has32(e) then rest == Ended(cur, out)
    else rest == BadData(out)
  }

  /** The entry just read, by the tests on its operation, and what it makes of the rest. */
  lemma LenCases(tr: Tree, hp: seq<Huft>, lit: LitCode, dist: DistCode, base: int, width: nat,
                 inp: seq<byte>, cur: nat, start: nat, h: Huft, a: nat, seen: Seen, out: seq<byte>)
    requires LitTree(tr, hp, lit, base, width) && cur <= 8 * |inp|
    requires seen.Next? ==> WalkOn(tr, hp, inp, cur, start, h, a, seen.tab)
    requires seen.Symbol? ==> WalkSym(tr, inp, cur, start, h, seen.sym, seen.len)
    requires seen.Dummy? ==> WalkEnd(tr, inp, start, h)
    ensures LenSays(tr, hp, lit, dist, inp, cur + h.bits, start, h, a, seen, out)
  {
    hide *;
    LitTreeFacts(tr, hp, lit, base, width);
    match seen
    case Next(u) => LinkSays(tr, hp, lit, dist, inp, cur, start, h, a, u, out);
    case Symbol(sym, len) => SymbolSays(tr, hp, lit, dist, inp, cur, start, h, a, sym, len, out);
    case Dummy => DummySays(tr, hp, lit, dist, inp, cur, start, h, a, out);
  }

  lemma LinkSays(tr: Tree, hp: seq<Huft>, lit: LitCode, dist: DistCode, inp: seq<byte>, cur: nat, start: nat,
                 h: Huft, a: nat, u: nat, out: seq<byte>)
    requires tr.x.al == LitAlphabet(lit) && WalkOn(tr, hp, inp, cur, start, h, a, u)
    ensures LenSays(tr, hp, lit, dist, inp, cur + h.bits, start, h, a, Next(u), out)
  {
    hide Codes, Length, Walking, Has16, Has32, Has64, MaxLen, Pow2;
    LinkEntry(h.exop);
  }

  lemma SymbolSays(tr: Tree, hp: seq<Huft>, lit: LitCode, dist: DistCode, inp: seq<byte>, cur: nat, start: nat,
                   h: Huft, a: nat, sym: nat, len: nat, out: seq<byte>)
    requires tr.x.al == LitAlphabet(lit) && WalkSym(tr, inp, cur, start, h, sym, len)
    ensures LenSays(tr, hp, lit, dist, inp, cur + h.bits, start, h, a, Symbol(sym, len), out)
  {
    hide Pow2, MaxLen, Decode, Codes, Length, Walking, Has16, Has32, Has64, Alphabet.Exop, Alphabet.Base;
    hide Alphabet.Valid;
    LitEntry(lit, sym);
    CodesSym(inp, start, lit, dist, out, sym, len);
    NoEntry();
  }

  lemma DummySays(tr: Tree, hp: seq<Huft>, lit: LitCode, dist: DistCode, inp: seq<byte>, cur: nat, start: nat,
                  h: Huft, a: nat, out: seq<byte>)
    requires tr.x.al == LitAlphabet(lit) && WalkEnd(tr, inp, start, h)
    ensures LenSays(tr, hp, lit, dist, inp, cur + h.bits, start, h, a, Dummy, out)
  {
    hide Pow2, MaxLen, Decode, Codes, Length, Walking, Has16, Has32, Has64;
    CodesNone(inp, start, lit, dist, out);
    NoEntry();
  }

  /** A look-up leaves less than two bytes in the buffer; length codes come with distance codes. */
  lemma LenRoom(tr: Tree, dt: Tree, hp: seq<Huft>, dp: seq<Huft>, t: nat, inp: seq<byte>, cur: nat, start: nat,
    tree: int,
                need: nat, lit: LitCode, dist: DistCode, base: nat, width: nat, dbase: int, dwidth: nat,
                h: Huft, a: nat, seen: Seen)
    requires LitTree(tr, hp, lit, base, width) && DistTree(dt, dp, dist, dbase, dwidth, lit)
    requires Walking(tr, hp, t, inp, cur, start, tree, need) && 1 <= h.bits <= need
    requires seen.Next? ==> WalkOn(tr, hp, inp, cur, start, h, a, seen.tab)
    requires seen.Symbol? ==> WalkSym(tr, inp, cur, start, h, seen.sym, seen.len)
    requires seen.Dummy? ==> WalkEnd(tr, inp, start, h)
    ensures |lit| > 257 ==> MaxLen(dist) > 0
    ensures need <= 9 || h.bits == need || h.exop == 192
  {
    hide WalkEnd, Codes, Decode;
    BitsLeft(tr, hp, t, inp, cur, start, tree, need, h, a, seen);
  }

  /** What an entry of the distance tree makes of the rest. */
  ghost predicate DistSays(tr: Tree, hp: seq<Huft>, lit: LitCode, dist: DistCode, inp: seq<byte>, cur: nat, start: nat,
                           h: Huft, a: nat, seen: Seen, out: seq<byte>, len: nat) {
    var rest := Distance(inp, start, lit, dist, out, len);
    var e := h.exop;
    if Has16(e) then e % 16 <= 13 && 1 <= h.base && h.base + Pow2(e % 16) <= WSIZE + 1
                     && rest == DistanceExtra(inp, cur, lit, dist, out, len, h.base, e % 16)
    else if !Has64(e) then seen.Next? && Walking(tr, hp, seen.tab, inp, cur, start, a + h.base, e)
    else rest == BadData(out)
  }

  lemma DistCases(tr: Tree, hp: seq<Huft>, lit: LitCode, dist: DistCode, base: int, width: nat,
                  inp: seq<byte>, cur: nat, start: nat, h: Huft, a: nat, seen: Seen, out: seq<byte>, len: nat)
    requires DistTree(tr, hp, dist, base, width, lit) && MaxLen(dist) > 0 && cur <= 8 * |inp|
    requires seen.Next? ==> WalkOn(tr, hp, inp, cur, start, h, a, seen.tab)
    requires seen.Symbol? ==> WalkSym(tr, inp, cur, start, h, seen.sym, seen.len)
    requires seen.Dummy? ==> WalkEnd(tr, inp, start, h)
    ensures DistSays(tr, hp, lit, dist, inp, cur + h.bits, start, h, a, seen, out, len)
  {
    hide Codes, Distance, DistanceExtra, Walking, Decode, TreeOK, Has16, Has32, Has64, Pow2, MaxLen, Alphabet.Exop;
    hide Alphabet.Base, Alphabet.Valid;
    DistTreeFacts(tr, hp, dist, base, width, lit);
    match seen
    case Next(u) => LinkEntry(h.exop);
    case Symbol(sym, n) =>
      DistEntry(dist, sym);
      DistanceSym(inp, start, lit, dist, out, len, sym, n);
      DistSizes();
    case Dummy =>
      DistanceNone(inp, start, lit, dist, out, len);
      NoEntry();
  }

  lemma DistRoom(tr: Tree, hp: seq<Huft>, t: nat, inp: seq<byte>, cur: nat, start: nat, tree: int,
                 need: nat, lit: LitCode, dist: DistCode, base: int, width: nat, h: Huft, a: nat, seen: Seen)
    requires DistTree(tr, hp, dist, base, width, lit) && MaxLen(dist) > 0
    requires Walking(tr, hp, t, inp, cur, start, tree, need) && 1 <= h.bits <= need
    requires seen.Next? ==> WalkOn(tr, hp, inp, cur, start, h, a, seen.tab)
    requires seen.Symbol? ==> WalkSym(tr, inp, cur, start, h, seen.sym, seen.len)
    requires seen.Dummy? ==> WalkEnd(tr, inp, start, h)
    ensures need <= 9 || h.bits == need || h.exop == 192
  {
    hide WalkEnd, Codes, Decode;
    BitsLeft(tr, hp, t, inp, cur, start, tree, need, h, a, seen);
  }

  lemma DistTreeFacts(tr: Tree, hp: seq<Huft>, b: DistCode, base: int, width: nat, lit: LitCode)
    requires DistTree(tr, hp, b, base, width, lit) && MaxLen(b) > 0
    ensures TreeOK(tr, hp) && tr.x.al == DistAlphabet(b) && base == tr.lo && width == tr.x.l && Lookahead(tr.x)
  {
  }

  lemma NeedSmall(tr: Tree, hp: seq<Huft>, t: nat, inp: seq<byte>, cur: nat, start: nat, tree: int, need: nat)
    requires Walking(tr, hp, t, inp, cur, start, tree, need)
    ensures need <= 15
  {
  }

  lemma LitTreeFacts(tr: Tree, hp: seq<Huft>, b: LitCode, base: int, width: nat)
    requires LitTree(tr, hp, b, base, width)
    ensures TreeOK(tr, hp) && tr.x.al == LitAlphabet(b) && base == tr.lo && width == tr.x.l && Lookahead(tr.x)
  {
  }
}
