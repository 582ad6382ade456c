/** What the two trees of a block say about the codes in the stream. */
module CodesTrees {
  import opened Bits
  import opened Huffman
  import opened HuftTables
  import opened HuftDecode
  import opened Reference

  predicate Has16(e: nat) { (e / 16) % 2 == 1 }
  predicate Has32(e: nat) { (e / 32) % 2 == 1 }
  predicate Has64(e: nat) { (e / 64) % 2 == 1 }

  /** No more than nine bits are looked at for a code unless every code has that many. */
  ghost predicate Lookahead(x: Plan) {
    x.l <= 9 || forall s | 0 <= s < |x.al.b| && x.al.b[s] > 0 :: x.l <= x.al.b[s]
  }

  ghost function LitAlphabet(b: seq<nat>): Alphabet { Alphabet(b, 257, CPLENS, CPLEXT) }
  ghost function DistAlphabet(b: seq<nat>): Alphabet { Alphabet(b, 0, CPDIST, CPDEXT) }

  ghost predicate LitTree(tr: Tree, hp: seq<Huft>, b: LitCode, base: int, width: nat) {
    && TreeOK(tr, hp) && tr.x.al == LitAlphabet(b) && base == tr.lo && width == tr.x.l && Lookahead(tr.x)
  }

  /** A block without length codes may come without a distance tree. */
  ghost predicate DistTree(tr: Tree, hp: seq<Huft>, b: DistCode, base: int, width: nat, lit: LitCode) {
    if MaxLen(b) == 0 then |lit| <= 257
    else TreeOK(tr, hp) && tr.x.al == DistAlphabet(b) && base == tr.lo && width == tr.x.l && Lookahead(tr.x)
  }

  /** The stream is at table `t` of the tree for the code that began at `start`; `tree` and `need` say so. */
  ghost predicate Walking(tr: Tree, hp: seq<Huft>, t: nat, inp: seq<byte>, cur: nat, start: nat, tree: int, need: nat) {
    && TreeOK(tr, hp) && AtTab(tr, t, inp, cur) && Start(tr, t, cur) == start
    && tree == tr.tabs[t].base && need == tr.tabs[t].j <= BMAX
  }

  lemma WalkStart(tr: Tree, hp: seq<Huft>, inp: seq<byte>, cur: nat)
    requires TreeOK(tr, hp) && cur <= 8 * |inp|
    ensures Walking(tr, hp, 0, inp, cur, cur, tr.lo, tr.x.l)
  {
    assert tr.x.l <= BMAX;
  }

  /** What the entry `h` at address `a` makes of the walk: on to another table, a symbol, or no code. */
  ghost predicate WalkOn(tr: Tree, hp: seq<Huft>, inp: seq<byte>, cur: nat, start: nat, h: Huft, a: nat, u: nat) {
    Walking(tr, hp, u, inp, cur + h.bits, start, a + h.base, h.exop) && 1 <= h.exop <= BMAX
  }

  ghost predicate WalkSym(tr: Tree, inp: seq<byte>, cur: nat, start: nat, h: Huft, sym: nat, len: nat) {
    && tr.x.al.Valid() && MaxLen(tr.x.al.b) <= BMAX && Decode(inp, start, tr.x.al.b) == Sym(sym, len)
    && tr.x.al.b[sym] > 0 && h.exop == tr.x.al.Exop(sym) && h.base == tr.x.al.Base(sym) && cur + h.bits == start + len
  }

  ghost predicate WalkEnd(tr: Tree, inp: seq<byte>, start: nat, h: Huft) {
    && MaxLen(tr.x.al.b) <= BMAX && Decode(inp, start, tr.x.al.b) == NoCode && h.exop == 128 + 64
  }

  /** Reading one entry. */
  lemma WalkStep(tr: Tree, hp: seq<Huft>, t: nat, inp: seq<byte>, cur: nat, start: nat, tree: nat, need: nat)
    returns (seen: Seen)
    requires Walking(tr, hp, t, inp, cur, start, tree, need) && cur + need <= 8 * |inp|
    ensures var a := tree + Take(inp, cur, need);
      && a < |hp| && 1 <= hp[a].bits <= need
      && (seen.Next? ==> WalkOn(tr, hp, inp, cur, start, hp[a], a, seen.tab))
      && (seen.Symbol? ==> WalkSym(tr, inp, cur, start, hp[a], seen.sym, seen.len))
      && (seen.Dummy? ==> WalkEnd(tr, inp, start, hp[a]))
  {
    hide TreeOK, Decode, AtTab;
    TreeParts(tr, hp);
    EntryAddress(tr, hp, t, inp, cur);
    seen := See(tr, hp, t, inp, cur);
    match seen
    case Next(u) => SeeNext(tr, hp, t, inp, cur, u); TreePart(tr, hp, t, inp, cur);
    case Symbol(sym, len) => SeeSymbol(tr, hp, t, inp, cur, sym, len);
    case Dummy => SeeDummy(tr, hp, t, inp, cur);
  }

  lemma TreeParts(tr: Tree, hp: seq<Huft>)
    requires TreeOK(tr, hp)
    ensures tr.x.Valid() && tr.x.al.Valid() && MaxLen(tr.x.al.b) <= BMAX
  {
  }

  lemma TreePart(tr: Tree, hp: seq<Huft>, t: nat, inp: seq<byte>, cur: nat)
    requires TreeOK(tr, hp) && AtTab(tr, t, inp, cur)
    ensures 1 <= tr.tabs[t].j
  {
    TabOf(tr, t);
  }

  lemma EntryAddress(tr: Tree, hp: seq<Huft>, t: nat, inp: seq<byte>, cur: nat)
    requires TreeOK(tr, hp) && AtTab(tr, t, inp, cur) && cur + tr.tabs[t].j <= 8 * |inp|
    ensures EntryAt(tr, t, inp, cur) < |hp|
  {
    EntryGood(tr, hp, t, inp, cur);
  }

  // ----- entries of the two alphabets

  lemma ExtraBits(e: nat)
    ensures e < 16 ==> e + 80 != 0 && Has16(e + 80) && (e + 80) % 16 == e
    ensures e == 112 ==> e + 80 == 128 + 64
    ensures !Has16(96) && Has64(96) && Has32(96)
  {
  }

  lemma LitEntry(b: LitCode, sym: nat)
    requires LitAlphabet(b).Valid() && sym < |b| && b[sym] > 0
    ensures var e := LitAlphabet(b).Exop(sym); var v := LitAlphabet(b).Base(sym);
      && (sym < 256 ==> e == 0 && v == sym)
      && (sym == 256 ==> e != 0 && !Has16(e) && Has64(e) && Has32(e))
      && (sym > 256 && CPLEXT[sym - 257] == 112 ==> e == 128 + 64)
      && (sym > 256 && CPLEXT[sym - 257] != 112 ==>
            && e != 0 && Has16(e) && e % 16 == CPLEXT[sym - 257] <= 5 && v == CPLENS[sym - 257]
            && 3 <= v && v + Pow2(e % 16) <= 259)
  {
    if sym <= 256 {
      ExtraBits(0);
    } else {
      LengthExtra(sym - 257);
      ExtraBits(CPLEXT[sym - 257]);
      hide Pow2, Has16, Has32, Has64;
    }
  }

  lemma LengthExtra(i: nat)
    requires i < 31
    ensures CPLEXT[i] <= 5 || CPLEXT[i] == 112
    ensures CPLEXT[i] <= 5 ==> 3 <= CPLENS[i] && CPLENS[i] + Pow2(CPLEXT[i]) <= 259
  {
    assert Pow2(5) == 32 && Pow2(4) == 16 && Pow2(3) == 8 && Pow2(2) == 4 && Pow2(1) == 2 && Pow2(0) == 1;
  }

  lemma DistEntry(b: DistCode, sym: nat)
    requires DistAlphabet(b).Valid() && sym < |b| && b[sym] > 0
    ensures var e := DistAlphabet(b).Exop(sym);
      Has16(e) && e % 16 == CPDEXT[sym] <= 13 && DistAlphabet(b).Base(sym) == CPDIST[sym] >= 1
  {
    hide Pow2, Count, Alphabet.Valid;
    DistExtra(sym);
    var extra := CPDEXT[sym];
    ExtraBits(extra);
    hide Has16, Has32, Has64, MaxLen;
    assert DistAlphabet(b).Exop(sym) == extra + 80 && DistAlphabet(b).Base(sym) == CPDIST[sym];
  }

  lemma DistExtra(i: nat)
    requires i < 30
    ensures CPDEXT[i] <= 13 && CPDIST[i] >= 1
  {
  }

  /** No distance the codes can give is more than the window. */
  lemma DistSizes()
    ensures forall i | 0 <= i < 30 :: CPDIST[i] + Pow2(CPDEXT[i]) <= 32769
  {
    SmallPowers();
    hide Pow2;
  }

  lemma SmallPowers()
    ensures Pow2(13) == 8192 && Pow2(12) == 4096 && Pow2(11) == 2048 && Pow2(10) == 1024 && Pow2(9) == 512
    ensures Pow2(8) == 256 && Pow2(7) == 128 && Pow2(6) == 64 && Pow2(5) == 32 && Pow2(4) == 16 && Pow2(3) == 8
    ensures Pow2(2) == 4 && Pow2(1) == 2 && Pow2(0) == 1
  {
  }

  lemma NoEntry()
    ensures !Has16(192) && Has64(192) && !Has32(192)
  {
  }

  lemma LinkEntry(e: nat)
    requires 1 <= e <= BMAX
    ensures e != 0 && !Has16(e) && !Has64(e)
  {
  }
}
