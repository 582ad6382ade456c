/** inflate_codes: the state machine that decodes the literals and matches of a block, and can stop at
    any missing input byte or output slot. */
module InflateCodes {
  import opened Bits
  import opened Status
  import opened Huffman
  import opened HuftTables
  import opened HuftDecode
  import opened Reference
  import opened Window
  import opened BitReader
  import opened OutWindow
  import opened CodesTrees
  import opened CodesMeaning
  import opened CodesEntries
  import F = InflateFast

  datatype CodesMode = START | LEN | LENEXT | DIST | DISTEXT | COPY | LIT | WASH | END | BADCODE

  /** inflate_codes_state */
  class CodesState {
    var mode: CodesMode
    var len: nat
    var tree: nat
    var need: nat
    var lit: nat
    var get: nat
    var dist: nat
    const lbits: nat
    const dbits: nat
    const ltab: array<Huft>
    const ltree: nat
    const dtab: array<Huft>
    const dtree: int

    /** The code lengths behind the trees, and the trees. */
    ghost const ll: LitCode
    ghost const dl: DistCode
    ghost const ltr: Tree
    ghost const dtr: Tree
    /** While a code is being looked up: the table reached and where the code began. */
    ghost var at: nat
    ghost var start: nat

    /** inflate_codes_new */
    constructor (bl: nat, bd: nat, lt: array<Huft>, tl: nat, dt: array<Huft>, td: int,
                 ghost ll: LitCode, ghost dl: DistCode, ghost ltr: Tree, ghost dtr: Tree)
      requires LitTree(ltr, lt[..], ll, tl, bl) && DistTree(dtr, dt[..], dl, td, bd, ll)
      ensures mode == START && Trees() && this.ll == ll && this.dl == dl && ltab == lt && dtab == dt
    {
      mode := START;
      lbits, dbits, ltab, ltree, dtab, dtree := bl, bd, lt, tl, dt, td;
      this.ll, this.dl, this.ltr, this.dtr := ll, dl, ltr, dtr;
    }

    ghost predicate Trees()
      reads ltab, dtab
    {
      LitTree(ltr, ltab[..], ll, ltree, lbits) && DistTree(dtr, dtab[..], dl, dtree, dbits, ll)
    }

    ghost predicate ModeOK(inp: seq<byte>, cur: nat)
      reads this, ltab, dtab
    {
      match mode
      case LEN => Walking(ltr, ltab[..], at, inp, cur, start, tree, need)
      case LENEXT => get <= 5 && MaxLen(dl) > 0
      case DIST => MaxLen(dl) > 0 && Walking(dtr, dtab[..], at, inp, cur, start, tree, need)
      case DISTEXT => get <= 13 && 1 <= dist && dist + Pow2(get) <= WSIZE + 1
      case COPY => 1 <= dist <= WSIZE
      case LIT => lit < 256
      case _ => true
    }

    /** What the reference decoder makes of the rest of the block. */
    ghost function Rest(inp: seq<byte>, cur: nat, out: seq<byte>): Block
      reads this
    {
      match mode
      case START => Codes(inp, cur, ll, dl, out)
      case LEN => Codes(inp, start, ll, dl, out)
      case LENEXT => Length(inp, cur, ll, dl, out, len, get)
      case DIST => Distance(inp, start, ll, dl, out, len)
      case DISTEXT => if dist >= 1 then DistanceExtra(inp, cur, ll, dl, out, len, dist, get) else BadData(out)
      case COPY => if dist >= 1 then Codes(inp, cur, ll, dl, Copy(out, dist, len)) else BadData(out)
      case LIT => Codes(inp, cur, ll, dl, out + [if lit < 256 then lit else 0])
      case WASH => Ended(cur, out)
      case END => Ended(cur, out)
      case BADCODE => BadData(out)
    }

    ghost predicate Valid(z: ZStream, bits: BitBuffer, win: Output)
      reads this, ltab, dtab, z, bits, win, win.window
    {
      && bits.Valid(z) && win.Valid(z) && Trees()
      && bits.Cur(z) <= 8 * |z.input| && ModeOK(z.input, bits.Cur(z))
    }

    ghost function Goal(z: ZStream, bits: BitBuffer, win: Output): Block
      reads this, z`nextIn, bits`bitk, win`out
    {
      Rest(z.input, bits.Cur(z), win.out)
    }

    /** More input, or more room, changes nothing of what is to come. */
    method Supply(z: ZStream, bits: BitBuffer, win: Output, known: nat, room: nat, ghost base: nat)
      requires Valid(z, bits, win) && z.nextIn + z.availIn + known <= |z.input|
      modifies z`availIn, z`availOut, z`base
      ensures Valid(z, bits, win) && Goal(z, bits, win) == old(Goal(z, bits, win))
      ensures z.availIn == old(z.availIn) + known && z.availOut == room && z.base == base
    {
      hide Codes, Length, Distance, DistanceExtra, Walking, LitTree, DistTree, Ring, Take, Copy, Pow2;
      z.Supply(known, room, base);
    }

    lemma GoalGrows(z: ZStream, bits: BitBuffer, win: Output)
      requires Valid(z, bits, win)
      ensures win.out <= Goal(z, bits, win).out
      ensures Goal(z, bits, win).Ended? ==> bits.Cur(z) <= Goal(z, bits, win).cur <= 8 * |z.input|
    {
      hide Codes, Length, Distance, DistanceExtra, Walking, LitTree, DistTree, Ring, Take, Copy;
      if mode == LEN {
        LitTreeFacts(ltr, ltab[..], ll, ltree, lbits);
        LenGoesOn(ltr, ltab[..], at, z.input, bits.Cur(z), start, tree, need, ll, dl, win.out);
      } else if mode == DIST {
        DistTreeFacts(dtr, dtab[..], dl, dtree, dbits, ll);
        DistGoesOn(dtr, dtab[..], at, z.input, bits.Cur(z), start, tree, need, ll, dl, win.out, len);
      }
    }

    /** Stopped for lack of input; not for good, if a byte follows the data and all of it is known. */
    ghost predicate Hungry(z: ZStream, bits: BitBuffer, win: Output)
      reads this, z, bits, win
    {
      Short(z, bits) && !TidyBlock(z.nextIn, Goal(z, bits, win))
    }

    /** Bits that must be there before anything can happen. */
    ghost function Wanted(): nat
      reads this
    {
      match mode
      case LEN => need
      case LENEXT => get
      case DIST => need
      case DISTEXT => get
      case _ => 0
    }

    ghost predicate Short(z: ZStream, bits: BitBuffer)
      reads this, z`availIn, bits`bitk
    {
      z.availIn == 0 && bits.bitk < Wanted()
    }

    /** No whole byte is kept that the caller could still use. */
    ghost predicate Few(bits: BitBuffer)
      reads this`mode, bits`bitk
    {
      (mode != BADCODE ==> bits.bitk <= 15) && (mode == END ==> bits.bitk <= 7)
    }

    lemma HasParts(z: ZStream, bits: BitBuffer, win: Output)
      requires Valid(z, bits, win)
      ensures bits.Valid(z) && win.Valid(z)
    {
      hide LitTree, DistTree, Ring, Take;
    }

    /** What waits for extra bits. */
    lemma InParts(z: ZStream, bits: BitBuffer, win: Output)
      requires Valid(z, bits, win) && Few(bits) && mode in {LENEXT, DISTEXT}
      ensures bits.Valid(z) && win.Valid(z) && Trees() && bits.bitk <= 15
      ensures Short(z, bits) <==> z.availIn == 0 && bits.bitk < get
      ensures mode == LENEXT ==> get <= 5 && MaxLen(dl) > 0
      ensures mode == LENEXT ==> Goal(z, bits, win) == Length(z.input, bits.Cur(z), ll, dl, win.out, len, get)
      ensures mode == DISTEXT ==> get <= 13 && 1 <= dist && dist + Pow2(get) <= WSIZE + 1
      ensures mode == DISTEXT ==>
        Goal(z, bits, win) == DistanceExtra(z.input, bits.Cur(z), ll, dl, win.out, len, dist, get)
    {
      hide Codes, Length, DistanceExtra, LitTree, DistTree, Ring, Take, Copy, Pow2, MaxLen;
    }

    lemma IsParts(z: ZStream, bits: BitBuffer, win: Output)
      requires bits.Valid(z) && win.Valid(z) && Trees() && ModeOK(z.input, bits.Cur(z))
      ensures Valid(z, bits, win) && Goal(z, bits, win) == Rest(z.input, bits.Cur(z), win.out)
      ensures bits.bitk <= 15 && mode !in {BADCODE, END} ==> Few(bits)
    {
      hide ModeOK, Rest, LitTree, DistTree, Ring, Take;
    }

    lemma StarvedLenExt(z: ZStream, bits: BitBuffer, win: Output)
      requires bits.Valid(z) && win.Valid(z) && Trees() && mode == LENEXT && get <= 5 && MaxLen(dl) > 0
      requires z.availIn == 0 && bits.bitk < get
      ensures Valid(z, bits, win) && Few(bits) && Hungry(z, bits, win) && Short(z, bits)
      ensures Goal(z, bits, win) == Length(z.input, bits.Cur(z), ll, dl, win.out, len, get)
    {
      hide Length, LitTree, DistTree, Ring, Take, MaxLen, TidyBlock, Output.Valid;
      LengthBits(z.input, bits.Cur(z), ll, dl, win.out, len, get);
    }

    lemma StarvedDistExt(z: ZStream, bits: BitBuffer, win: Output)
      requires bits.Valid(z) && win.Valid(z) && Trees() && mode == DISTEXT
      requires get <= 13 && 1 <= dist && dist + Pow2(get) <= WSIZE + 1 && z.availIn == 0 && bits.bitk < get
      ensures Valid(z, bits, win) && Few(bits) && Hungry(z, bits, win) && Short(z, bits)
      ensures Goal(z, bits, win) == DistanceExtra(z.input, bits.Cur(z), ll, dl, win.out, len, dist, get)
    {
      hide DistanceExtra, LitTree, DistTree, Ring, Take, TidyBlock, Output.Valid, Pow2;
      DistanceBits(z.input, bits.Cur(z), ll, dl, win.out, len, dist, get);
    }

    lemma IsCopy(z: ZStream, bits: BitBuffer, win: Output)
      requires bits.Valid(z) && win.Valid(z) && Trees() && mode == COPY && bits.bitk <= 15
      requires 1 <= dist <= WSIZE
      ensures Valid(z, bits, win) && Few(bits)
      ensures Goal(z, bits, win) == Codes(z.input, bits.Cur(z), ll, dl, Copy(win.out, dist, len))
    {
      hide Codes, Copy, LitTree, DistTree, Ring, Take, Output.Valid;
    }

    /** case LEN: looks the next `need` bits up in the table at `tree`. */
    method StepLen(z: ZStream, bits: BitBuffer, win: Output, r0: int) returns (leave: bool, r: int)
      requires Valid(z, bits, win) && mode == LEN && Few(bits)
      modifies this`mode, this`len, this`tree, this`need, this`lit, this`get, this`at
      modifies bits, z`nextIn, z`availIn
      ensures Valid(z, bits, win) && Few(bits) && z.nextIn + z.availIn == old(z.nextIn + z.availIn)
      ensures Unfed(r, old(z.availIn), z)
      ensures Goal(z, bits, win) == old(Goal(z, bits, win)) && bits.Cur(z) >= old(bits.Cur(z))
      ensures !leave ==> bits.Cur(z) > old(bits.Cur(z)) && (r == r0 || r == Z_OK)
      ensures leave && mode != BADCODE ==> Hungry(z, bits, win) && (r == r0 || r == Z_OK)
      ensures leave && mode == BADCODE ==> r == Z_DATA_ERROR
      ensures old(Short(z, bits)) ==> leave && mode != BADCODE && r == r0
    {
      hide Codes, Walking, Decode, LitTree, DistTree;
      NeedSmall(ltr, ltab[..], at, z.input, bits.Cur(z), start, tree, need);
      var ok;
      ok, r := bits.Need(z, need, r0);
      if !ok {
        LitTreeFacts(ltr, ltab[..], ll, ltree, lbits);
        LenStarves(ltr, ltab[..], at, z.input, bits.Cur(z), start, tree, need, ll, dl, win.out, z.nextIn);
        return true, r;
      }
      leave, r := LookupLen(z, bits, win, r);
    }

    method LookupLen(z: ZStream, bits: BitBuffer, win: Output, r0: int) returns (leave: bool, r: int)
      requires Valid(z, bits, win) && mode == LEN && need <= bits.bitk && (bits.bitk <= 15 || bits.bitk < need + 8)
      modifies this`mode, this`len, this`tree, this`need, this`lit, this`get, this`at, bits
      ensures Valid(z, bits, win) && Few(bits) && Goal(z, bits, win) == old(Goal(z, bits, win))
      ensures bits.Cur(z) > old(bits.Cur(z))
      ensures if leave then mode == BADCODE && r == Z_DATA_ERROR else mode != BADCODE && r == r0
    {
      hide Codes, Length, Walking, Decode, LitTree, DistTree, WalkOn, WalkSym, WalkEnd, Bit, Distance, Pow2;
      hide Output.Valid, BitBuffer.Valid, TidyBlock, LenSays;
      var idx := bits.Peek(z, need);
      ghost var seen := WalkStep(ltr, ltab[..], at, z.input, bits.Cur(z), start, tree, need);
      var t := tree + idx;
      var h := ltab[t];
      LenCases(ltr, ltab[..], ll, dl, ltree, lbits, z.input, bits.Cur(z), start, h, t, seen, win.out);
      LenRoom(ltr, dtr, ltab[..], dtab[..], at, z.input, bits.Cur(z), start, tree, need, ll, dl, ltree, lbits,
        dtree, dbits, h, t, seen);
      bits.Dump(z, h.bits);
      leave, r := TakeLen(z.input, bits.Cur(z), win.out, h, t, seen, r0);
    }

    /** Goes where the entry says. */
    method TakeLen(ghost inp: seq<byte>, ghost cur: nat, ghost out: seq<byte>, h: Huft, t: nat,
      ghost seen: Seen, r0: int)
      returns (leave: bool, r: int)
      requires mode == LEN && LenSays(ltr, ltab[..], ll, dl, inp, cur, start, h, t, seen, out)
      requires |ll| > 257 ==> MaxLen(dl) > 0
      modifies this`mode, this`len, this`tree, this`need, this`lit, this`get, this`at
      ensures ModeOK(inp, cur) && Rest(inp, cur, out) == Codes(inp, start, ll, dl, out)
      ensures if leave then mode == BADCODE && r == Z_DATA_ERROR else mode != BADCODE && r == r0
      ensures (mode == BADCODE <== h.exop == 192) && mode != END
    {
      hide Codes, Length, Walking, Distance, DistanceExtra, TidyBlock;
      leave, r := false, r0;
      var e := h.exop;
      if e == 0 {
        lit := h.base;
        mode := LIT;
      } else if Has16(e) {
        get := e % 16;
        len := h.base;
        mode := LENEXT;
      } else if !Has64(e) {
        need := e;
        tree := t + h.base;
        at := seen.tab;
      } else if Has32(e) {
        mode := WASH;
      } else {
        mode := BADCODE;
        leave, r := true, Z_DATA_ERROR;
      }
    }

    /** case LENEXT: adds the extra bits to the length, and turns to the distance. */
    method StepLenExt(z: ZStream, bits: BitBuffer, win: Output, r0: int) returns (leave: bool, r: int)
      requires Valid(z, bits, win) && mode == LENEXT && Few(bits)
      modifies this`mode, this`len, this`tree, this`need, this`at, this`start
      modifies bits, z`nextIn, z`availIn
      ensures Valid(z, bits, win) && Few(bits) && z.nextIn + z.availIn == old(z.nextIn + z.availIn)
      ensures Unfed(r, old(z.availIn), z)
      ensures Goal(z, bits, win) == old(Goal(z, bits, win)) && bits.Cur(z) >= old(bits.Cur(z))
      ensures r == r0 || r == Z_OK
      ensures if leave then Hungry(z, bits, win) else mode == DIST
      ensures old(Short(z, bits)) ==> leave && r == r0
    {
      hide *;
      InParts(z, bits, win);
      LengthBits(z.input, bits.Cur(z), ll, dl, win.out, len, get);
      var ok;
      ok, r := bits.Need(z, get, r0);
      if !ok {
        StarvedLenExt(z, bits, win);
        return true, r;
      }
      var v := bits.Peek(z, get);
      len := len + v;
      bits.Dump(z, get);
      BeginDist(z.input, bits.Cur(z), win.out);
      IsParts(z, bits, win);
      leave := false;
    }

    method BeginDist(ghost inp: seq<byte>, ghost cur: nat, ghost out: seq<byte>)
      requires Trees() && MaxLen(dl) > 0 && cur <= 8 * |inp|
      modifies this`mode, this`tree, this`need, this`at, this`start
      ensures mode == DIST && ModeOK(inp, cur) && Rest(inp, cur, out) == Distance(inp, cur, ll, dl, out, len)
    {
      hide Distance, Walking, LitTree, DistTree, TreeOK, Lookahead;
      DistTreeFacts(dtr, dtab[..], dl, dtree, dbits, ll);
      WalkStart(dtr, dtab[..], inp, cur);
      need := dbits;
      tree := dtree;
      at, start := 0, cur;
      mode := DIST;
    }

    /** case DIST: the same look-up in the distance tables. */
    method StepDist(z: ZStream, bits: BitBuffer, win: Output, r0: int) returns (leave: bool, r: int)
      requires Valid(z, bits, win) && mode == DIST && Few(bits)
      modifies this`mode, this`dist, this`tree, this`need, this`get, this`at
      modifies bits, z`nextIn, z`availIn
      ensures Valid(z, bits, win) && Few(bits) && z.nextIn + z.availIn == old(z.nextIn + z.availIn)
      ensures Unfed(r, old(z.availIn), z)
      ensures Goal(z, bits, win) == old(Goal(z, bits, win)) && bits.Cur(z) >= old(bits.Cur(z))
      ensures !leave ==> bits.Cur(z) > old(bits.Cur(z)) && (r == r0 || r == Z_OK)
      ensures leave && mode != BADCODE ==> Hungry(z, bits, win) && (r == r0 || r == Z_OK)
      ensures leave && mode == BADCODE ==> r == Z_DATA_ERROR
      ensures old(Short(z, bits)) ==> leave && mode != BADCODE && r == r0
    {
      hide Codes, Distance, Walking, Decode, LitTree, DistTree;
      NeedSmall(dtr, dtab[..], at, z.input, bits.Cur(z), start, tree, need);
      var ok;
      ok, r := bits.Need(z, need, r0);
      if !ok {
        DistTreeFacts(dtr, dtab[..], dl, dtree, dbits, ll);
        DistStarves(dtr, dtab[..], at, z.input, bits.Cur(z), start, tree, need, ll, dl, win.out, len, z.nextIn);
        return true, r;
      }
      leave, r := LookupDist(z, bits, win, r);
    }

    method LookupDist(z: ZStream, bits: BitBuffer, win: Output, r0: int) returns (leave: bool, r: int)
      requires Valid(z, bits, win) && mode == DIST && need <= bits.bitk && (bits.bitk <= 15 || bits.bitk < need + 8)
      modifies this`mode, this`dist, this`tree, this`need, this`get, this`at, bits
      ensures Valid(z, bits, win) && Few(bits) && Goal(z, bits, win) == old(Goal(z, bits, win))
      ensures bits.Cur(z) > old(bits.Cur(z))
      ensures if leave then mode == BADCODE && r == Z_DATA_ERROR else mode != BADCODE && r == r0
    {
      hide Codes, Distance, Walking, Decode, LitTree, DistTree, WalkOn, WalkSym, WalkEnd, MaxLen, Pow2, Take;
      hide Output.Valid, BitBuffer.Valid, TidyBlock, DistSays;
      var idx := bits.Peek(z, need);
      ghost var seen := WalkStep(dtr, dtab[..], at, z.input, bits.Cur(z), start, tree, need);
      var t := tree + idx;
      var h := dtab[t];
      DistCases(dtr, dtab[..], ll, dl, dtree, dbits, z.input, bits.Cur(z), start, h, t, seen, win.out, len);
      DistRoom(dtr, dtab[..], at, z.input, bits.Cur(z), start, tree, need, ll, dl, dtree, dbits, h, t, seen);
      bits.Dump(z, h.bits);
      leave, r := TakeDist(z.input, bits.Cur(z), win.out, h, t, seen, r0);
    }

    /** Goes where the entry says. */
    method TakeDist(ghost inp: seq<byte>, ghost cur: nat, ghost out: seq<byte>, h: Huft, t: nat,
      ghost seen: Seen, r0: int)
      returns (leave: bool, r: int)
      requires mode == DIST && MaxLen(dl) > 0 && DistSays(dtr, dtab[..], ll, dl, inp, cur, start, h, t, seen, out, len)
      modifies this`mode, this`dist, this`tree, this`need, this`get, this`at
      ensures ModeOK(inp, cur) && Rest(inp, cur, out) == Distance(inp, start, ll, dl, out, len)
      ensures if leave then mode == BADCODE && r == Z_DATA_ERROR else mode != BADCODE && r == r0
      ensures (mode == BADCODE <== h.exop == 192) && mode != END
    {
      hide Codes, Length, Walking, Distance, DistanceExtra, TidyBlock, Pow2;
      leave, r := false, r0;
      var e := h.exop;
      if Has16(e) {
        get := e % 16;
        dist := h.base;
        mode := DISTEXT;
      } else if !Has64(e) {
        need := e;
        tree := t + h.base;
        at := seen.tab;
      } else {
        mode := BADCODE;
        leave, r := true, Z_DATA_ERROR;
      }
    }

    /** case DISTEXT: adds the extra bits to the distance. */
    method StepDistExt(z: ZStream, bits: BitBuffer, win: Output, r0: int) returns (leave: bool, r: int)
      requires Valid(z, bits, win) && mode == DISTEXT && Few(bits)
      modifies this`mode, this`dist
      modifies bits, z`nextIn, z`availIn
      ensures Valid(z, bits, win) && Few(bits) && z.nextIn + z.availIn == old(z.nextIn + z.availIn)
      ensures Unfed(r, old(z.availIn), z)
      ensures Goal(z, bits, win) == old(Goal(z, bits, win)) && bits.Cur(z) >= old(bits.Cur(z))
      ensures r == r0 || r == Z_OK
      ensures if leave then Hungry(z, bits, win) else mode == COPY
      ensures old(Short(z, bits)) ==> leave && r == r0
    {
      hide *;
      InParts(z, bits, win);
      DistanceBits(z.input, bits.Cur(z), ll, dl, win.out, len, dist, get);
      var ok;
      ok, r := bits.Need(z, get, r0);
      if !ok {
        StarvedDistExt(z, bits, win);
        return true, r;
      }
      var v := bits.Peek(z, get);
      dist := dist + v;
      bits.Dump(z, get);
      mode := COPY;
      IsCopy(z, bits, win);
      leave := false;
    }

    /** case COPY: appends the bytes of the match one at a time, as long as there is room. */
    method StepCopy(z: ZStream, bits: BitBuffer, win: Output, r0: int) returns (leave: bool, r: int)
      requires Valid(z, bits, win) && mode == COPY && Few(bits)
      modifies this`mode, this`len, win, win.window, z`output, z`availOut
      ensures Valid(z, bits, win) && Few(bits) && Sent(z, old(|z.output|), old(z.availOut))
      ensures Goal(z, bits, win) == old(Goal(z, bits, win))
      ensures r == r0 || r == Z_OK
      ensures if leave then z.availOut == 0 && win.read != win.write else mode == START
    {
      hide Pow2, MaxLen, Take, TreeOK, Lookahead, Plan.Valid, Codes, Walking, Decode, LitTree, DistTree;
      hide BitBuffer.Valid, Ring, BitBuffer.Cur, Output.Valid, Back;
      r := r0;
      var f: nat := Source(win.write, dist);
      while len != 0
        invariant Valid(z, bits, win) && mode == COPY && 1 <= dist <= WSIZE && f == Source(win.write, dist)
        invariant Sent(z, old(|z.output|), old(z.availOut)) && (r == r0 || r == Z_OK)
        invariant Copy(win.out, dist, len) == Copy(old(win.out), dist, old(len))
        decreases len
      {
        var ok;
        ok, r := win.Need(z, r);
        if !ok {
          return true, r;
        }
        win.PutBack(z, f, dist);
        f := f + 1;
        if f == WSIZE { f := 0; }
        len := len - 1;
      }
      mode := START;
      leave := false;
    }

    /** case LIT: appends the literal once there is room for it. */
    method StepLit(z: ZStream, bits: BitBuffer, win: Output, r0: int) returns (leave: bool, r: int)
      requires Valid(z, bits, win) && mode == LIT && Few(bits)
      modifies this`mode, win, win.window, z`output, z`availOut
      ensures Valid(z, bits, win) && Few(bits) && Sent(z, old(|z.output|), old(z.availOut))
      ensures Goal(z, bits, win) == old(Goal(z, bits, win))
      ensures r == r0 || r == Z_OK
      ensures if leave then z.availOut == 0 && win.read != win.write else mode == START
    {
      hide Codes, Walking, Decode, LitTree, DistTree, BitBuffer.Valid, Ring;
      var ok;
      ok, r := win.Need(z, r0);
      if !ok {
        return true, r;
      }
      win.Put(z, lit);
      mode := START;
      leave := false;
    }

    /** case WASH: hands an unused byte back and empties the window. */
    method StepWash(z: ZStream, bits: BitBuffer, win: Output, r0: int) returns (leave: bool, r: int)
      requires Valid(z, bits, win) && mode == WASH && Few(bits)
      modifies this`mode, bits, z`nextIn, z`availIn, win`read, win`write, z`output, z`availOut
      ensures Valid(z, bits, win) && bits.bitk <= 7 && Sent(z, old(|z.output|), old(z.availOut))
      ensures z.nextIn + z.availIn == old(z.nextIn + z.availIn) && bits.Cur(z) == old(bits.Cur(z))
      ensures Unfed(r, old(z.availIn), z)
      ensures Goal(z, bits, win) == old(Goal(z, bits, win)) && z.nextIn == ByteEnd(bits.Cur(z))
      ensures r == r0 || (r0 == Z_BUF_ERROR && r == Z_OK)
      ensures if leave then mode == WASH && z.availOut == 0 && win.read != win.write else mode == END
    {
      hide Codes, Walking, Decode, LitTree, DistTree, Ring, CodesState.Trees;
      if bits.bitk > 7 {
        bits.GiveBack(z, 1);
      }
      bits.Taken(z);
      r := win.Flush(z, r0);
      if win.read != win.write {
        return true, r;
      }
      mode := END;
      leave := false;
    }

    /** case START: decodes fast where there is plenty of input and room, and then goes to the first table. */
    method StepStart(z: ZStream, bits: BitBuffer, win: Output, r0: int) returns (r: int)
      requires Valid(z, bits, win) && mode == START && Few(bits)
      modifies this`mode, this`tree, this`need, this`at, this`start
      modifies bits, z`nextIn, z`availIn, win`write, win`out, win.window
      ensures Valid(z, bits, win) && Few(bits) && z.nextIn + z.availIn == old(z.nextIn + z.availIn)
      ensures Unfed(r, old(z.availIn), z)
      ensures Goal(z, bits, win) == old(Goal(z, bits, win))
      ensures bits.Cur(z) >= old(bits.Cur(z)) && mode in {LEN, WASH, BADCODE}
      ensures mode == LEN ==> r == r0 || r == Z_OK
      ensures mode == BADCODE ==> r == Z_DATA_ERROR
      ensures mode == WASH ==> r == Z_STREAM_END && bits.Cur(z) > old(bits.Cur(z))
      ensures old(z.availIn) == 0 ==> mode == LEN && need == lbits && r == r0 && z.availIn == 0
                                      && bits.bitk == old(bits.bitk)
    {
      hide Codes, Walking, LitTree, DistTree, Ring, Output.Valid, Take;
      r := r0;
      if Window.Room(win.read, win.write) >= 258 && z.availIn >= 10 {
        r := F.InflateFast(lbits, dbits, ltab, ltree, dtab, dtree, z, bits, win, F.Coding(ll, dl, ltr, dtr));
        if r != Z_OK {
          mode := if r == Z_STREAM_END then WASH else BADCODE;
          return;
        }
      }
      BeginLen(z.input, bits.Cur(z), win.out);
    }

    method BeginLen(ghost inp: seq<byte>, ghost cur: nat, ghost out: seq<byte>)
      requires Trees() && cur <= 8 * |inp|
      modifies this`mode, this`tree, this`need, this`at, this`start
      ensures mode == LEN && ModeOK(inp, cur) && Rest(inp, cur, out) == Codes(inp, cur, ll, dl, out) && need == lbits
    {
      hide Codes, Walking, LitTree, DistTree, TreeOK, Lookahead;
      LitTreeFacts(ltr, ltab[..], ll, ltree, lbits);
      WalkStart(ltr, ltab[..], inp, cur);
      need := lbits;
      tree := ltree;
      at, start := 0, cur;
      mode := LEN;
    }

    /** How a call ends, and why. */
    ghost predicate Stopped(r: int, r0: int, z: ZStream, bits: BitBuffer, win: Output)
      reads this, z, bits, win
    {
      if r == Z_STREAM_END then mode in {WASH, END} && bits.bitk <= 7
      else if r == Z_DATA_ERROR then mode == BADCODE
      else (r == r0 || r == Z_OK) && Few(bits) && (Hungry(z, bits, win) || Full(z, win))
    }

    /** States in order of what they lead to without reading input. */
    ghost function Rank(): nat
      reads this`mode
    {
      match mode
      case DISTEXT => 3
      case COPY => 2
      case LIT => 2
      case START => 1
      case LENEXT => 1
      case WASH => 1
      case _ => 0
    }

    /** One turn of the switch. */
    method Step(z: ZStream, bits: BitBuffer, win: Output, r0: int) returns (leave: bool, r: int)
      requires Valid(z, bits, win) && Few(bits) &&
        (r0 in {Z_OK, Z_BUF_ERROR} || (r0 == Z_STREAM_END && mode in {WASH, END}) || mode == BADCODE)
      modifies this, bits, z`nextIn, z`availIn, z`output, z`availOut, win, win.window
      ensures Valid(z, bits, win) && Few(bits) && Sent(z, old(|z.output|), old(z.availOut))
      ensures z.nextIn + z.availIn == old(z.nextIn + z.availIn)
      ensures Unfed(r, old(z.availIn), z)
      ensures Goal(z, bits, win) == old(Goal(z, bits, win)) && bits.Cur(z) >= old(bits.Cur(z))
      ensures leave ==> Stopped(r, r0, z, bits, win)
      ensures !leave ==>
        r in {r0, Z_OK} || (r == Z_STREAM_END && mode == WASH) || (r == Z_DATA_ERROR && mode == BADCODE)
      ensures !leave && r == Z_STREAM_END ==> mode in {WASH, END}
      ensures old(mode) == BADCODE ==> leave && r == Z_DATA_ERROR
      ensures !leave ==>
        bits.Cur(z) > old(bits.Cur(z)) || (bits.Cur(z) == old(bits.Cur(z)) &&
        (Rank() < old(Rank()) || mode == BADCODE != old(mode)))
      ensures old(Short(z, bits)) ==> leave && r == r0 && Short(z, bits) && win.out == old(win.out)
    {
      hide Codes, Length, Distance, DistanceExtra, Walking, LitTree, DistTree, Ring, Output.Valid, Take, TidyBlock;
      hide CodesState.Valid, CodesState.Goal, BitBuffer.Cur, BitBuffer.Valid, Copy, ModeOK;
      match mode
      case START =>
        leave := false;
        r := StepStart(z, bits, win, r0);
      case LEN => leave, r := StepLen(z, bits, win, r0);
      case LENEXT => leave, r := StepLenExt(z, bits, win, r0);
      case DIST => leave, r := StepDist(z, bits, win, r0);
      case DISTEXT => leave, r := StepDistExt(z, bits, win, r0);
      case COPY => leave, r := StepCopy(z, bits, win, r0);
      case LIT => leave, r := StepLit(z, bits, win, r0);
      case WASH => leave, r := StepWash(z, bits, win, r0);
      case END => leave, r := true, Z_STREAM_END;
      case BADCODE => leave, r := true, Z_DATA_ERROR;
    }

    /** LEAVE: the status with what is pending delivered. */
    method Leave(z: ZStream, bits: BitBuffer, win: Output, r0: int, ghost r00: int) returns (r: int)
      requires Valid(z, bits, win) && Stopped(r0, r00, z, bits, win)
      modifies win`read, win`write, z`output, z`availOut
      ensures Valid(z, bits, win) && Stopped(r, r00, z, bits, win) && Drained(z, win)
      ensures Sent(z, old(|z.output|), old(z.availOut)) && Goal(z, bits, win) == old(Goal(z, bits, win))
      ensures r == r0 || (r0 == Z_BUF_ERROR && r == Z_OK && |z.output| > old(|z.output|))
      ensures Short(z, bits) == old(Short(z, bits))
    {
      hide Codes, Length, Distance, DistanceExtra, Ring, Output.Valid, Take, TidyBlock, BitBuffer.Valid, Copy;
      hide ModeOK, Trees;
      r := win.Flush(z, r0);
    }

    /** inflate_codes: until input or room runs out, the block ends or a code is bad.  The rest of the
        block, as the reference decoder sees it, is the same after the call as before. */
    method Run(z: ZStream, bits: BitBuffer, win: Output, r0: int) returns (r: int)
      requires Valid(z, bits, win) && Few(bits) && r0 in {Z_OK, Z_BUF_ERROR}
      modifies this, bits, z`nextIn, z`availIn, z`output, z`availOut, win, win.window
      ensures Valid(z, bits, win) && Sent(z, old(|z.output|), old(z.availOut)) && Drained(z, win)
      ensures z.nextIn + z.availIn == old(z.nextIn + z.availIn)
      ensures Unfed(r, old(z.availIn), z)
      ensures Goal(z, bits, win) == old(Goal(z, bits, win)) && bits.Cur(z) >= old(bits.Cur(z))
      ensures Stopped(r, r0, z, bits, win)
      ensures old(Short(z, bits)) ==>
        Short(z, bits) && win.out == old(win.out) && (r == r0 || |z.output| > old(|z.output|))
    {
      hide Codes, Length, Distance, DistanceExtra, Ring, Output.Valid, Take, TidyBlock, BitBuffer.Valid, Copy;
      hide ModeOK, Trees, Hungry, Full, Goal, Short;
      r := r0;
      var leave := false;
      while !leave
        invariant Valid(z, bits, win) && Sent(z, old(|z.output|), old(z.availOut))
        invariant z.nextIn + z.availIn == old(z.nextIn + z.availIn)
        invariant Goal(z, bits, win) == old(Goal(z, bits, win)) && bits.Cur(z) >= old(bits.Cur(z))
        invariant !leave ==>
          Few(bits) && (r in {Z_OK, Z_BUF_ERROR} || (r == Z_STREAM_END && mode in {WASH, END}) || mode == BADCODE)
        invariant !leave ==> (r == Z_BUF_ERROR ==> r0 == Z_BUF_ERROR)
        invariant leave ==> Stopped(r, r0, z, bits, win)
        invariant Unfed(r, old(z.availIn), z)
        invariant old(Short(z, bits)) ==> Short(z, bits) && r == r0 && win.out == old(win.out)
        decreases !leave, 8 * |z.input| - bits.Cur(z), mode != BADCODE, Rank()
      {
        leave, r := Step(z, bits, win, r);
      }
      r := Leave(z, bits, win, r, r0);
    }
  }
}
