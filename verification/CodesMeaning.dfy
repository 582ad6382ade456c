/** The reference decoder seen from the states in which inflate_codes can stop, and why one byte after
    the compressed data is enough for it not to stop early. */
module CodesMeaning {
  import opened Bits
  import opened Huffman
  import opened HuftTables
  import opened HuftDecode
  import opened HuftLookup
  import opened Reference
  import opened CodesTrees

  /** A block that ends a byte or more before byte `n`. */
  ghost predicate TidyBlock(n: nat, b: Block) { b.Ended? && b.cur + 8 <= 8 * n }

  /** A stream that ends a byte or more before the input does. */
  ghost predicate Tidy(inp: seq<byte>, o: Outcome) { o.Finished? && o.end + 8 <= 8 * |inp| }

  /** The stream, or a compressed block that is neither among the first `k` nor the last, ends a byte or more before
      byte `n`. */
  ghost predicate Early(n: nat, k: nat, o: Outcome) {
    (o.Finished? && o.end + 8 <= 8 * n) || exists i :: k <= i < |o.ends| && o.ends[i] + 8 <= 8 * n
  }

  lemma NotEarly(inp: seq<byte>, n: nat, k: nat, o: Outcome)
    requires !Early(n, k, o)
    ensures (forall i | k <= i < |o.ends| :: o.ends[i] + 8 > 8 * n) && (n == |inp| ==> !Tidy(inp, o))
  {
  }

  lemma TidyAfter(inp: seq<byte>, n: nat, b: Block, last: bool, packed: bool, ends: seq<nat>)
    requires b.Ended? ==> b.cur <= 8 * |inp|
    ensures Early(n, |ends|, After(inp, b, last, packed, ends)) ==> TidyBlock(n, b)
  {
    hide Blocks;
  }

  lemma CodesSym(inp: seq<byte>, start: nat, lit: LitCode, dist: DistCode, out: seq<byte>, sym: nat, n: nat)
    requires Decode(inp, start, lit) == Sym(sym, n)
    ensures Codes(inp, start, lit, dist, out) ==
      if sym < 256 then Codes(inp, start + n, lit, dist, out + [sym])
      else if sym == 256 then Ended(start + n, out)
      else if CPLEXT[sym - 257] == 112 then BadData(out)
      else Length(inp, start + n, lit, dist, out, CPLENS[sym - 257], CPLEXT[sym - 257])
  {
    hide Decode, Length;
  }

  lemma CodesNone(inp: seq<byte>, start: nat, lit: LitCode, dist: DistCode, out: seq<byte>)
    requires Decode(inp, start, lit) == NoCode
    ensures Codes(inp, start, lit, dist, out) == BadData(out)
  {
    hide Decode;
  }

  lemma DistanceSym(inp: seq<byte>, start: nat, lit: LitCode, dist: DistCode, out: seq<byte>, len: nat,
    sym: nat, n: nat)
    requires Decode(inp, start, dist) == Sym(sym, n)
    ensures sym < 30 && CPDIST[sym] >= 1
    ensures Distance(inp, start, lit, dist, out, len)
         == DistanceExtra(inp, start + n, lit, dist, out, len, CPDIST[sym], CPDEXT[sym])
  {
    hide Decode, DistanceExtra;
    DistExtra(sym);
  }

  lemma DistanceNone(inp: seq<byte>, start: nat, lit: LitCode, dist: DistCode, out: seq<byte>, len: nat)
    requires Decode(inp, start, dist) == NoCode
    ensures Distance(inp, start, lit, dist, out, len) == BadData(out)
  {
    hide Decode;
  }

  lemma LengthBits(inp: seq<byte>, cur: nat, lit: LitCode, dist: DistCode, out: seq<byte>, base: nat, extra: nat)
    ensures forall n: nat | cur + extra > 8 * n :: !TidyBlock(n, Length(inp, cur, lit, dist, out, base, extra))
    ensures cur + extra <= 8 * |inp| ==>
      Length(inp, cur, lit, dist, out, base, extra) == Distance(inp, cur + extra, lit, dist, out,
        base + Take(inp, cur, extra))
  {
    hide Distance;
  }

  lemma DistanceBits(inp: seq<byte>, cur: nat, lit: LitCode, dist: DistCode, out: seq<byte>, len: nat,
    base: nat, extra: nat)
    requires base >= 1
    ensures forall n: nat | cur + extra > 8 * n ::
      !TidyBlock(n, DistanceExtra(inp, cur, lit, dist, out, len, base, extra))
    ensures cur + extra <= 8 * |inp| ==>
      DistanceExtra(inp, cur, lit, dist, out, len, base, extra) ==
      Codes(inp, cur + extra, lit, dist, Copy(out, base + Take(inp, cur, extra), len))
  {
    hide Codes, Copy;
  }

  // ----- looking ahead

  /** With bits to spare, a walk from table `t` finds a code longer than what led there, or none. */
  lemma {:induction false} WalkBeyond(tr: Tree, hp: seq<Huft>, t: nat, inp: seq<byte>, cur: nat)
    requires TreeOK(tr, hp) && AtTab(tr, t, inp, cur) && Start(tr, t, cur) == 0 && |inp| == 2
    ensures MaxLen(tr.x.al.b) <= BMAX
    ensures var d := Decode(inp, 0, tr.x.al.b); d.NoCode? || (d.Sym? && d.len > cur)
    decreases 16 - cur
  {
    hide TreeOK, Decode;
    TreeParts(tr, hp);
    TableFits(tr, hp, t, inp, cur);
    match See(tr, hp, t, inp, cur)
    case Next(u) =>
      SeeNext(tr, hp, t, inp, cur, u);
      WalkBeyond(tr, hp, u, inp, cur + tr.tabs[t].j);
    case Symbol(sym, len) =>
      SeeSymbol(tr, hp, t, inp, cur, sym, len);
    case Dummy =>
      SeeDummy(tr, hp, t, inp, cur);
  }

  lemma TableFits(tr: Tree, hp: seq<Huft>, t: nat, inp: seq<byte>, cur: nat)
    requires TreeOK(tr, hp) && AtTab(tr, t, inp, cur)
    ensures 1 <= tr.tabs[t].j <= tr.x.l && cur - Start(tr, t, cur) + tr.tabs[t].j <= tr.x.g <= BMAX
    ensures tr.tabs[t].pre < Pow2(cur - Start(tr, t, cur))
    ensures cur > Start(tr, t, cur) ==> cur - Start(tr, t, cur) >= tr.x.l
  {
    TabOf(tr, t);
    if tr.tabs[t].lvl > 0 { MulAtLeast(tr.tabs[t].lvl, tr.x.l); }
  }

  lemma MulAtLeast(a: nat, l: nat)
    requires a >= 1
    ensures a * l >= l
  {
  }

  /** At a table further down, the code that began at the start goes on past the bits read. */
  lemma CodeGoesOn(tr: Tree, hp: seq<Huft>, t: nat, inp: seq<byte>, cur: nat, sym: nat, len: nat)
    requires TreeOK(tr, hp) && AtTab(tr, t, inp, cur) && MaxLen(tr.x.al.b) <= BMAX
    requires Decode(inp, Start(tr, t, cur), tr.x.al.b) == Sym(sym, len)
    ensures Start(tr, t, cur) + len > cur
  {
    hide TreeOK, Decode, Msb;
    var start := Start(tr, t, cur);
    var w := cur - start;
    TableFits(tr, hp, t, inp, cur);
    if len <= w {
      var inp' := StreamTo(w, 16 - w, tr.tabs[t].pre, 0);
      WalkBeyond(tr, hp, t, inp', w);
      SameCode(inp, start, inp', tr.x.al.b, w, sym, len);
    }
  }

  lemma SameCode(inp: seq<byte>, start: nat, inp': seq<byte>, b: seq<nat>, w: nat, sym: nat, len: nat)
    requires MaxLen(b) <= BMAX && Decode(inp, start, b) == Sym(sym, len) && len <= w
    requires start + w <= 8 * |inp| && w <= 8 * |inp'| && Take(inp, start, w) == Take(inp', 0, w)
    ensures Decode(inp', 0, b) == Sym(sym, len)
  {
    hide Decode;
    LowTake(inp, start, w, len);
    LowTake(inp', 0, w, len);
    DecodeIsCode(inp, start, b, sym, len);
    DecodeIsCode(inp', 0, b, sym, len);
  }

  /** When a look-up lacks bits before byte `n`, the code that is there ends in the last byte before it, or later. */
  lemma NoRoom(tr: Tree, hp: seq<Huft>, t: nat, inp: seq<byte>, cur: nat, start: nat, tree: int, need: nat,
               sym: nat, len: nat, n: nat)
    requires Walking(tr, hp, t, inp, cur, start, tree, need) && Lookahead(tr.x) && MaxLen(tr.x.al.b) <= BMAX
    requires cur + need > 8 * n && Decode(inp, start, tr.x.al.b) == Sym(sym, len)
    ensures start + len + 8 > 8 * n
  {
    hide TreeOK, Decode;
    CodeGoesOn(tr, hp, t, inp, cur, sym, len);
    TableFits(tr, hp, t, inp, cur);
    if need > 9 {
      DecodeIsCode(inp, start, tr.x.al.b, sym, len);
    }
  }

  /** A block does not end before the bits that a look-up has used. */
  lemma LenGoesOn(tr: Tree, hp: seq<Huft>, t: nat, inp: seq<byte>, cur: nat, start: nat, tree: int, need: nat,
                  lit: LitCode, dist: DistCode, out: seq<byte>)
    requires Walking(tr, hp, t, inp, cur, start, tree, need) && tr.x.al.b == lit
    ensures var b := Codes(inp, start, lit, dist, out); b.Ended? ==> cur <= b.cur
  {
    match Decode(inp, start, lit)
    case NeedMore =>
    case NoCode =>
    case Sym(sym, len) =>
      hide TreeOK, Decode;
      CodeGoesOn(tr, hp, t, inp, cur, sym, len);
  }

  lemma DistGoesOn(tr: Tree, hp: seq<Huft>, t: nat, inp: seq<byte>, cur: nat, start: nat, tree: int, need: nat,
                   lit: LitCode, dist: DistCode, out: seq<byte>, c: nat)
    requires Walking(tr, hp, t, inp, cur, start, tree, need) && tr.x.al.b == dist
    ensures var b := Distance(inp, start, lit, dist, out, c); b.Ended? ==> cur <= b.cur
  {
    match Decode(inp, start, dist)
    case NeedMore =>
    case NoCode =>
    case Sym(sym, len) =>
      hide TreeOK, Decode;
      CodeGoesOn(tr, hp, t, inp, cur, sym, len);
      DistanceSym(inp, start, lit, dist, out, c, sym, len);
  }

  lemma LenStarves(tr: Tree, hp: seq<Huft>, t: nat, inp: seq<byte>, cur: nat, start: nat, tree: int, need: nat,
                   lit: LitCode, dist: DistCode, out: seq<byte>, n: nat)
    requires Walking(tr, hp, t, inp, cur, start, tree, need) && Lookahead(tr.x) && tr.x.al.b == lit
    requires cur + need > 8 * n
    ensures !TidyBlock(n, Codes(inp, start, lit, dist, out))
  {
    hide Walking, Decode;
    match Decode(inp, start, lit)
    case NeedMore =>
    case NoCode =>
    case Sym(sym, len) =>
      NoRoom(tr, hp, t, inp, cur, start, tree, need, sym, len, n);
  }

  lemma DistStarves(tr: Tree, hp: seq<Huft>, t: nat, inp: seq<byte>, cur: nat, start: nat, tree: int, need: nat,
                    lit: LitCode, dist: DistCode, out: seq<byte>, c: nat, n: nat)
    requires Walking(tr, hp, t, inp, cur, start, tree, need) && Lookahead(tr.x) && tr.x.al.b == dist
    requires cur + need > 8 * n
    ensures !TidyBlock(n, Distance(inp, start, lit, dist, out, c))
  {
    hide Walking, Decode;
    match Decode(inp, start, dist)
    case NeedMore =>
    case NoCode =>
    case Sym(sym, len) =>
      NoRoom(tr, hp, t, inp, cur, start, tree, need, sym, len, n);
      DistanceSym(inp, start, lit, dist, out, c, sym, len);
  }

  /** An entry takes all the bits it was looked up with, unless those are few. */
  lemma BitsLeft(tr: Tree, hp: seq<Huft>, t: nat, inp: seq<byte>, cur: nat, start: nat, tree: int, need: nat,
                 h: Huft, a: nat, seen: Seen)
    requires Walking(tr, hp, t, inp, cur, start, tree, need) && Lookahead(tr.x) && 1 <= h.bits <= need
    requires seen.Next? ==> WalkOn(tr, hp, inp, cur, start, h, a, seen.tab)
    requires seen.Symbol? ==> WalkSym(tr, inp, cur, start, h, seen.sym, seen.len)
    requires seen.Dummy? ==> WalkEnd(tr, inp, start, h)
    ensures need <= 9 || h.bits == need || h.exop == 192
  {
    hide TreeOK, Decode;
    TableFits(tr, hp, t, inp, cur);
    if need > 9 && seen.Next? {
      TableFits(tr, hp, seen.tab, inp, cur + h.bits);
    } else if need > 9 && seen.Symbol? {
      DecodeIsCode(inp, start, tr.x.al.b, seen.sym, seen.len);
    }
  }
}
