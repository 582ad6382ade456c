/** inflate_fast: decodes literals and matches with no check for input or room on the way. */
module InflateFast {
  import opened Bits
  import opened Status
  import opened Huffman
  import opened HuftTables
  import opened HuftDecode
  import opened Reference
  import opened Window
  import opened BitReader
  import opened OutWindow
  import opened CodesTrees
  import opened CodesMeaning
  import opened CodesEntries

  /** The code lengths of a block and the trees for them. */
  datatype Coding = Coding(ll: LitCode, dl: DistCode, ltr: Tree, dtr: Tree)

  /** GRABBITS: NEEDBITS for a caller who knows that there is input enough. */
  method Grab(z: ZStream, bits: BitBuffer, j: nat)
    requires bits.Valid(z) && j <= 25 && bits.bitk + 8 * z.availIn >= j
    modifies bits, z`nextIn, z`availIn
    ensures bits.Valid(z) && bits.Cur(z) == old(bits.Cur(z)) && bits.bitk >= j
    ensures z.nextIn + z.availIn == old(z.nextIn + z.availIn)
    ensures 8 * (old(z.availIn) - z.availIn) == bits.bitk - old(bits.bitk) && bits.bitk <= old(bits.bitk) + j + 7
    ensures z.availIn <= old(z.availIn)
  {
    while bits.bitk < j
      invariant bits.Valid(z) && bits.Cur(z) == old(bits.Cur(z))
      invariant z.nextIn + z.availIn == old(z.nextIn + z.availIn) && bits.bitk + 8 * z.availIn >= j
      invariant 8 * (old(z.availIn) - z.availIn) == bits.bitk - old(bits.bitk) >= 0
      invariant bits.bitk <= old(bits.bitk) + j + 7
      invariant bits.bitk > old(bits.bitk) ==> bits.bitk < j + 8
    {
      hide BitBuffer.Valid;
      bits.Refill(z);
    }
  }

  /** UNGRAB: hands back whole bytes still in the buffer, but none that came before the call. */
  method Ungrab(z: ZStream, bits: BitBuffer, n0: nat)
    requires bits.Valid(z) && z.availIn <= n0
    requires bits.bitk - 8 * (n0 - z.availIn) <= 15
    modifies bits, z`nextIn, z`availIn
    ensures bits.Valid(z) && bits.Cur(z) == old(bits.Cur(z)) && bits.bitk <= 15
    ensures z.nextIn + z.availIn == old(z.nextIn + z.availIn) && old(z.availIn) <= z.availIn <= n0
  {
    var c := n0 - z.availIn;
    c := if bits.bitk / 8 < c then bits.bitk / 8 else c;
    bits.GiveBack(z, c);
  }

  /** Looks up the next part of a literal/length code; twenty bits were there when it began. */
  method LookLit(z: ZStream, bits: BitBuffer, lhp: seq<Huft>, tree: nat, need: nat, ghost cx: Coding,
                 ghost u: nat, ghost start: nat, ghost out: seq<byte>) returns (t: nat, ghost seen: Seen)
    requires bits.Valid(z) && LitTree(cx.ltr, lhp, cx.ll, cx.ltr.lo, cx.ltr.x.l)
    requires Walking(cx.ltr, lhp, u, z.input, bits.Cur(z), start, tree, need)
    requires bits.bitk + bits.Cur(z) >= 20 + start
    ensures t < |lhp| && LitSeen(z, bits, lhp, t, cx, start, seen, out)
  {
    hide Walking, LitTree, WalkOn, WalkSym, WalkEnd, LenSays, Codes, BitBuffer.Valid;
    WalkWidth(cx.ltr, lhp, u, z.input, bits.Cur(z), start, tree, need);
    var i := bits.Peek(z, need);
    seen := WalkStep(cx.ltr, lhp, u, z.input, bits.Cur(z), start, tree, need);
    t := tree + i;
    LenCases(cx.ltr, lhp, cx.ll, cx.dl, cx.ltr.lo, cx.ltr.x.l, z.input, bits.Cur(z), start, lhp[t], t, seen, out);
  }

  /** An entry was found whose bits are still in the buffer. */
  ghost predicate LitSeen(z: ZStream, bits: BitBuffer, lhp: seq<Huft>, t: nat, cx: Coding, start: nat, seen: Seen,
                          out: seq<byte>)
    reads z, bits
    requires t < |lhp|
  {
    var h := lhp[t];
    && 1 <= h.bits <= bits.bitk && start <= bits.Cur(z) && bits.Cur(z) + h.bits - start <= 15
    && bits.bitk + bits.Cur(z) >= 20 + start
    && LenSays(cx.ltr, lhp, cx.ll, cx.dl, z.input, bits.Cur(z) + h.bits, start, h, t, seen, out)
  }

  lemma WalkWidth(tr: Tree, hp: seq<Huft>, t: nat, inp: seq<byte>, cur: nat, start: nat, tree: int, need: nat)
    requires Walking(tr, hp, t, inp, cur, start, tree, need)
    ensures start <= cur && cur - start + need <= 15
  {
    hide TreeOK;
    TableFits(tr, hp, t, inp, cur);
  }

  /** The same for a distance code; fifteen bits were there when it began. */
  method LookDist(z: ZStream, bits: BitBuffer, dhp: seq<Huft>, tree: nat, need: nat, ghost cx: Coding,
                  ghost u: nat, ghost start: nat, ghost out: seq<byte>, ghost len: nat) returns (t: nat,
                    ghost seen: Seen)
    requires bits.Valid(z) && MaxLen(cx.dl) > 0 && DistTree(cx.dtr, dhp, cx.dl, cx.dtr.lo, cx.dtr.x.l, cx.ll)
    requires Walking(cx.dtr, dhp, u, z.input, bits.Cur(z), start, tree, need)
    requires bits.bitk + bits.Cur(z) >= 15 + start
    ensures t < |dhp| && DistSeen(z, bits, dhp, t, cx, start, seen, out, len)
  {
    hide Pow2, Take, MaxLen, Has16, Has64, Walking, DistTree, WalkOn, WalkSym, WalkEnd, DistSays, Distance;
    hide BitBuffer.Valid;
    WalkWidth(cx.dtr, dhp, u, z.input, bits.Cur(z), start, tree, need);
    var i := bits.Peek(z, need);
    seen := WalkStep(cx.dtr, dhp, u, z.input, bits.Cur(z), start, tree, need);
    t := tree + i;
    DistCases(cx.dtr, dhp, cx.ll, cx.dl, cx.dtr.lo, cx.dtr.x.l, z.input, bits.Cur(z), start, dhp[t], t, seen, out, len);
  }

  ghost predicate DistSeen(z: ZStream, bits: BitBuffer, dhp: seq<Huft>, t: nat, cx: Coding, start: nat, seen: Seen,
                           out: seq<byte>, len: nat)
    reads z, bits
    requires t < |dhp|
  {
    var h := dhp[t];
    && 1 <= h.bits <= bits.bitk && start <= bits.Cur(z) && bits.bitk + bits.Cur(z) >= 15 + start
    && DistSays(cx.dtr, dhp, cx.ll, cx.dl, z.input, bits.Cur(z) + h.bits, start, h, t, seen, out, len)
  }

  /** The copy of a match: from before the write pointer, or from further round the window and then,
      when the match crosses the end, from its start. */
  method FastCopy(z: ZStream, win: Output, d: nat, c0: nat)
    requires win.Valid(z) && 1 <= d <= WSIZE && 3 <= c0 <= Room(win.read, win.write)
    modifies win`write, win`out, win.window
    ensures win.Valid(z) && win.out == Copy(old(win.out), d, c0)
    ensures Room(win.read, win.write) == old(Room(win.read, win.write)) - c0
  {
    hide Ring;
    var c: nat, r: nat := c0, 0;
    if win.write >= d {
      r := win.write - d;
      win.PutBack(z, r, d);
      r, c := r + 1, c - 1;
      win.PutBack(z, r, d);
      r, c := r + 1, c - 1;
      assert Copy(win.out, d, c) == Copy(old(win.out), d, c0);
    } else {
      var e := d - win.write;
      r := WSIZE - e;
      if c > e {
        c := c - e;
        r := CopyToEnd(z, win, d, e, c);
      }
    }
    while c != 0
      invariant win.Valid(z) && Room(win.read, win.write) == old(Room(win.read, win.write)) - (c0 - c)
      invariant r == Source(win.write, d) || c == 0
      invariant win.write < d ==> c <= d - win.write
      invariant Copy(win.out, d, c) == Copy(old(win.out), d, c0)
    {
      win.PutBack(z, r, d);
      r, c := r + 1, c - 1;
    }
  }

  method CopyToEnd(z: ZStream, win: Output, d: nat, e0: nat, ghost c: nat) returns (r: nat)
    requires win.Valid(z) && 1 <= d <= WSIZE && e0 + c <= Room(win.read, win.write) && d == win.write + e0 && e0 > 0
    modifies win`write, win`out, win.window
    ensures win.Valid(z) && win.write == d && r == 0
    ensures Copy(win.out, d, c) == Copy(old(win.out), d, e0 + c)
    ensures Room(win.read, win.write) == old(Room(win.read, win.write)) - e0
  {
    hide Ring;
    var e := e0;
    r := WSIZE - e;
    while e != 0
      invariant win.Valid(z) && Room(win.read, win.write) == old(Room(win.read, win.write)) - (e0 - e)
      invariant d == win.write + e && r == WSIZE - e
      invariant Copy(win.out, d, e + c) == Copy(old(win.out), d, e0 + c)
    {
      win.PutBack(z, r, d);
      r, e := r + 1, e - 1;
    }
    r := 0;
  }

  /** What is kept while inflate_fast runs. */
  ghost predicate Ready(z: ZStream, bits: BitBuffer, win: Output)
    reads z, bits, win, win.window
  {
    bits.Valid(z) && win.Valid(z)
  }

  /** The length code has been dumped: the rest of the match. */
  method FastMatch(z: ZStream, bits: BitBuffer, win: Output, dhp: seq<Huft>, td: nat, bd: nat, base: nat, e0: nat,
                   m0: nat, ghost cx: Coding) returns (r: int, m: nat)
    requires Ready(z, bits, win) && MaxLen(cx.dl) > 0 && DistTree(cx.dtr, dhp, cx.dl, td, bd, cx.ll)
    requires e0 <= 5 && bits.bitk >= e0 && z.availIn >= 7
    requires 3 <= base && base + Pow2(e0) <= 259 && 258 <= m0 == Room(win.read, win.write)
    modifies bits, z`nextIn, z`availIn, win`write, win`out, win.window
    ensures Ready(z, bits, win) && m == Room(win.read, win.write)
    ensures bits.Cur(z) > old(bits.Cur(z)) && z.availIn <= old(z.availIn)
    ensures z.nextIn + z.availIn == old(z.nextIn + z.availIn)
    ensures Met(r, Length(z.input, old(bits.Cur(z)), cx.ll, cx.dl, old(win.out), base, e0), z, bits, win, cx)
  {
    hide Length, Distance, Codes, DistTree, TreeOK, DistSays, Pow2, Copy, Take, Walking, BitBuffer.Valid;
    hide Output.Valid, Lookahead;
    m := m0;
    LengthBits(z.input, bits.Cur(z), cx.ll, cx.dl, win.out, base, e0);
    var v := bits.Peek(z, e0);
    var c := base + v;
    bits.Dump(z, e0);
    Grab(z, bits, 15);
    DistTreeFacts(cx.dtr, dhp, cx.dl, td, bd, cx.ll);
    ghost var start := bits.Cur(z);
    WalkStart(cx.dtr, dhp, z.input, start);
    r, m := FastDist(z, bits, win, dhp, td, bd, c, m, cx);
  }

  /** How a run of inflate_fast ends, given what the reference decoder makes of its start. */
  ghost predicate Met(r: int, b: Block, z: ZStream, bits: BitBuffer, win: Output, cx: Coding)
    reads z, bits, win
  {
    if r == Z_OK then b == Codes(z.input, bits.Cur(z), cx.ll, cx.dl, win.out)
    else if r == Z_STREAM_END then b == Ended(bits.Cur(z), win.out)
    else r == Z_DATA_ERROR && b == BadData(win.out)
  }

  /** The distance of a match of `c` bytes, and the copy. */
  method FastDist(z: ZStream, bits: BitBuffer, win: Output, dhp: seq<Huft>, td: nat, bd: nat, c: nat, m0: nat,
                  ghost cx: Coding) returns (r: int, m: nat)
    requires Ready(z, bits, win) && MaxLen(cx.dl) > 0 && DistTree(cx.dtr, dhp, cx.dl, td, bd, cx.ll)
    requires Walking(cx.dtr, dhp, 0, z.input, bits.Cur(z), bits.Cur(z), td, bd)
    requires bits.bitk >= 15 && z.availIn >= 2 && 3 <= c <= m0 == Room(win.read, win.write)
    modifies bits, z`nextIn, z`availIn, win`write, win`out, win.window
    ensures Ready(z, bits, win) && m == Room(win.read, win.write)
    ensures bits.Cur(z) > old(bits.Cur(z)) && z.availIn <= old(z.availIn)
    ensures z.nextIn + z.availIn == old(z.nextIn + z.availIn)
    ensures Met(r, Distance(z.input, old(bits.Cur(z)), cx.ll, cx.dl, old(win.out), c), z, bits, win, cx)
  {
    hide Distance, DistanceExtra, Codes, DistTree, TreeOK, Pow2, Copy, Take, Walking, BitBuffer.Valid, Output.Valid;
    hide Lookahead;
    m := m0;
    DistTreeFacts(cx.dtr, dhp, cx.dl, td, bd, cx.ll);
    ghost var start := bits.Cur(z);
    ghost var out := win.out;
    var t;
    ghost var seen;
    t, seen := LookDist(z, bits, dhp, td, bd, cx, 0, start, out, c);
    var e := dhp[t].exop;
    while true
      invariant Ready(z, bits, win) && t < |dhp| && e == dhp[t].exop && win.out == out && m == Room(win.read, win.write)
      invariant DistSeen(z, bits, dhp, t, cx, start, seen, out, c)
      invariant z.availIn == old(z.availIn) && z.nextIn == old(z.nextIn)
      decreases bits.bitk
    {
      bits.Dump(z, dhp[t].bits);
      if Has16(e) {
        m := FastMove(z, bits, win, dhp[t].base, e % 16, c, m, cx);
        return Z_OK, m;
      } else if !Has64(e) {
        t := t + dhp[t].base;
        ghost var u := seen.tab;
        t, seen := LookDist(z, bits, dhp, t, e, cx, u, start, out, c);
        e := dhp[t].exop;
      } else {
        return Z_DATA_ERROR, m;
      }
    }
  }

  method FastMove(z: ZStream, bits: BitBuffer, win: Output, base: nat, e: nat, c: nat, m0: nat, ghost cx: Coding)
    returns (m: nat)
    requires Ready(z, bits, win) && e <= 13 && 1 <= base && base + Pow2(e) <= WSIZE + 1
    requires z.availIn >= 2 && 3 <= c <= m0 == Room(win.read, win.write)
    modifies bits, z`nextIn, z`availIn, win`write, win`out, win.window
    ensures Ready(z, bits, win) && m == Room(win.read, win.write)
    ensures bits.Cur(z) >= old(bits.Cur(z)) && z.availIn <= old(z.availIn)
    ensures z.nextIn + z.availIn == old(z.nextIn + z.availIn)
    ensures DistanceExtra(z.input, old(bits.Cur(z)), cx.ll, cx.dl, old(win.out), c, base, e)
         == Codes(z.input, bits.Cur(z), cx.ll, cx.dl, win.out)
  {
    hide DistanceExtra, Codes, Pow2, Copy, Take, BitBuffer.Valid, Output.Valid;
    DistanceBits(z.input, bits.Cur(z), cx.ll, cx.dl, win.out, c, base, e);
    Grab(z, bits, e);
    var v := bits.Peek(z, e);
    var d := base + v;
    bits.Dump(z, e);
    m := m0 - c;
    FastCopy(z, win, d, c);
  }

  /** One round of the loop: a literal or a match, the end of the block, or a bad code. */
  method FastRound(z: ZStream, bits: BitBuffer, win: Output, bl: nat, bd: nat, lhp: seq<Huft>, tl: nat,
                   dhp: seq<Huft>, td: int, m0: nat, ghost cx: Coding) returns (r: int, m: nat)
    requires Ready(z, bits, win) && z.availIn >= 10 && 258 <= m0 == Room(win.read, win.write)
    requires LitTree(cx.ltr, lhp, cx.ll, tl, bl) && DistTree(cx.dtr, dhp, cx.dl, td, bd, cx.ll)
    requires bits.Cur(z) <= 8 * |z.input|
    modifies bits, z`nextIn, z`availIn, win`write, win`out, win.window
    ensures Ready(z, bits, win) && m == Room(win.read, win.write)
    ensures bits.Cur(z) > old(bits.Cur(z)) && z.availIn <= old(z.availIn)
    ensures z.nextIn + z.availIn == old(z.nextIn + z.availIn)
    ensures Met(r, Codes(z.input, old(bits.Cur(z)), cx.ll, cx.dl, old(win.out)), z, bits, win, cx)
  {
    hide Codes, Length, LitTree, DistTree, TreeOK, Pow2, Take, Walking, BitBuffer.Valid, Output.Valid, Lookahead;
    hide FirstCode, Has64, Ring, BitBuffer.Cur, Has16;
    Grab(z, bits, 20);
    LitTreeFacts(cx.ltr, lhp, cx.ll, tl, bl);
    LengthsNeedDist(cx.dtr, dhp, cx.dl, td, bd, cx.ll);
    ghost var start := bits.Cur(z);
    ghost var out := win.out;
    WalkStart(cx.ltr, lhp, z.input, start);
    var t;
    ghost var seen;
    t, seen := LookLit(z, bits, lhp, tl, bl, cx, 0, start, out);
    var e := lhp[t].exop;
    if e == 0 {
      m := FastLiteral(z, bits, win, lhp[t], m0);
      return Z_OK, m;
    }
    m := m0;
    while true
      invariant Ready(z, bits, win) && t < |lhp| && 0 != e == lhp[t].exop && win.out == out &&
        m0 == m == Room(win.read, win.write)
      invariant LitSeen(z, bits, lhp, t, cx, start, seen, out)
      invariant z.availIn >= 7 && z.availIn <= old(z.availIn) && z.nextIn + z.availIn == old(z.nextIn + z.availIn)
      decreases bits.bitk
    {
      bits.Dump(z, lhp[t].bits);
      if Has16(e) {
        r, m := FastMatch(z, bits, win, dhp, td, bd, lhp[t].base, e % 16, m, cx);
        return;
      }
      if !Has64(e) {
        t := t + lhp[t].base;
        ghost var u := seen.tab;
        t, seen := LookLit(z, bits, lhp, t, e, cx, u, start, out);
        e := lhp[t].exop;
        if e == 0 {
          m := FastLiteral(z, bits, win, lhp[t], m);
          return Z_OK, m;
        }
      } else if Has32(e) {
        return Z_STREAM_END, m;
      } else {
        return Z_DATA_ERROR, m;
      }
    }
  }

  method FastLiteral(z: ZStream, bits: BitBuffer, win: Output, h: Huft, m0: nat) returns (m: nat)
    requires Ready(z, bits, win) && 1 <= h.bits <= bits.bitk && h.base < 256 && 0 < m0 == Room(win.read, win.write)
    modifies bits, win`write, win`out, win.window
    ensures Ready(z, bits, win) && bits.Cur(z) == old(bits.Cur(z)) + h.bits && win.out == old(win.out) + [h.base]
    ensures m == Room(win.read, win.write)
  {
    hide BitBuffer.Valid, Output.Valid;
    bits.Dump(z, h.bits);
    win.Put(z, h.base);
    m := m0 - 1;
  }

  lemma LengthsNeedDist(tr: Tree, hp: seq<Huft>, b: DistCode, base: int, width: nat, lit: LitCode)
    requires DistTree(tr, hp, b, base, width, lit)
    ensures |lit| > 257 ==> MaxLen(b) > 0 && base >= 0
  {
  }

  /** Called with room for at least 258 bytes, the longest match, and ten bytes of input: six for the
      longest pair of codes and four to overload the bit buffer. */
  method InflateFast(bl: nat, bd: nat, lt: array<Huft>, tl: nat, dt: array<Huft>, td: int,
                     z: ZStream, bits: BitBuffer, win: Output, ghost cx: Coding) returns (r: int)
    requires Ready(z, bits, win) && z.availIn >= 10 && Room(win.read, win.write) >= 258 && bits.bitk <= 15
    requires LitTree(cx.ltr, lt[..], cx.ll, tl, bl) && DistTree(cx.dtr, dt[..], cx.dl, td, bd, cx.ll)
    requires bits.Cur(z) <= 8 * |z.input|
    modifies bits, z`nextIn, z`availIn, win`write, win`out, win.window
    ensures Ready(z, bits, win) && bits.bitk <= 15 && bits.Cur(z) > old(bits.Cur(z))
    ensures z.nextIn + z.availIn == old(z.nextIn + z.availIn) && z.availIn <= old(z.availIn)
    ensures Met(r, Codes(z.input, old(bits.Cur(z)), cx.ll, cx.dl, old(win.out)), z, bits, win, cx)
  {
    hide Codes, LitTree, DistTree, Take, Output.Valid, Ring;
    var n0 := z.availIn;
    var m: nat := Room(win.read, win.write);
    r := Z_OK;
    var more := true;
    while more
      invariant Ready(z, bits, win) && bits.Cur(z) >= old(bits.Cur(z)) && (!more ==> bits.Cur(z) > old(bits.Cur(z)))
      invariant z.nextIn + z.availIn == old(z.nextIn + z.availIn) && z.availIn <= n0
      invariant m == Room(win.read, win.write) && (more ==> r == Z_OK && m >= 258 && z.availIn >= 10)
      invariant Met(r, Codes(z.input, old(bits.Cur(z)), cx.ll, cx.dl, old(win.out)), z, bits, win, cx)
      decreases more, 8 * |z.input| - bits.Cur(z)
    {
      r, m := FastRound(z, bits, win, bl, bd, lt[..], tl, dt[..], td, m, cx);
      more := r == Z_OK && m >= 258 && z.availIn >= 10;
    }
    Ungrab(z, bits, n0);
  }
}
