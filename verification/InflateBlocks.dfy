/** inflate_blocks: the state machine that goes through the blocks of a stream, and can stop at any
    missing input byte or output slot. */
module InflateBlocks {
  import opened Bits
  import opened Status
  import opened Huffman
  import opened HuftTables
  import opened HuftLengths
  import opened HuftBuild
  import opened HuftDecode
  import opened Reference
  import opened Window
  import opened BitReader
  import opened OutWindow
  import opened CodesTrees
  import opened CodesMeaning
  import opened InflateTrees
  import opened BlocksMeaning
  import C = InflateCodes

  datatype BlockMode = TYPE | LENS | STORED | TABLE | BTREE | DTREE | CODES | DRY | DONE | BAD

  /** inflate_blocks_state */
  class BlocksState {
    var mode: BlockMode
    var left: nat
    var table: nat
    var index: nat
    var blens: array<nat>
    var bb: nat
    var tb: int
    var codes: C.CodesState?
    var last: bool
    const bits: BitBuffer
    const hufts: array<Huft>
    const win: Output

    /** The code length code behind the tree being used, and that tree. */
    ghost var clen: seq<nat>
    ghost var btr: Tree
    /** Where the compressed blocks decoded so far ended. */
    ghost var ends: seq<nat>

    ghost function Cur(z: ZStream): nat
      reads bits`bitk, z`nextIn
    {
      bits.Cur(z)
    }

    ghost predicate ModeOK(cur: nat)
      reads this, hufts, blens, bits`bitk, bits`held
    {
      match mode
      case LENS => cur % 8 == 0 && bits.bitk % 8 == 0
      case STORED => cur % 8 == 0 && bits.bitk == bits.held == 0 && left > 0
      case BTREE =>
        && TableOK(table) && blens.Length == Total(table) && index <= 19
        && forall i | 0 <= i < 19 :: blens[i] <= 7
      case DTREE =>
        && TableOK(table) && blens.Length == Total(table) && index <= Total(table) && LengthsOK(blens[..index])
        && ClenTree(btr, hufts[..], clen, bb, tb)
      case _ => true
    }

    /** No whole byte is kept that the caller could still use, or nearly so. */
    ghost predicate Few()
      reads this`mode, bits`bitk
    {
      && (mode != LENS && mode != BAD ==> bits.bitk <= 15)
      && (mode in {DRY, DONE} ==> bits.bitk <= 7)
    }

    ghost function Trees(): set<object>
      reads this`codes, codes
    {
      if codes == null then {} else {codes, codes.ltab, codes.dtab}
    }

    ghost predicate Base(z: ZStream)
      reads z, bits, win, win.window
    {
      bits.Valid(z) && win.Valid(z) && hufts.Length == MANY && bits.Cur(z) <= 8 * |z.input|
    }

    ghost predicate Valid(z: ZStream)
      reads this, z, bits, win, win.window, hufts, blens, codes, Trees()
    {
      && Base(z)
      && (mode == CODES ==> codes != null && codes.Valid(z, bits, win) && codes.Few(bits))
      && (mode != CODES ==> Few()) && ModeOK(bits.Cur(z)) && (mode == DONE ==> win.read == win.write)
    }

    /** What the reference decoder makes of the rest of the block. */
    ghost function BlockGoal(z: ZStream): (b: Block)
      requires Valid(z)
      reads this, z, bits, win, win.window, hufts, blens, codes, Trees()
      ensures win.out <= b.out && (b.Ended? ==> b.cur <= 8 * |z.input|)
    {
      match mode
      case LENS => Stored(z.input, bits.Cur(z), win.out)
      case STORED => StoredBytes(z.input, bits.Cur(z), left, win.out)
      case TABLE => Dynamic(z.input, bits.Cur(z), win.out)
      case BTREE => ClensGoal(z.input, bits.Cur(z), table, index, blens[..19], win.out)
      case DTREE => BoundedMax(clen, 7); LensGoal(z.input, bits.Cur(z), table, clen, blens[..index], win.out)
      case CODES => codes.GoalGrows(z, bits, win); codes.Goal(z, bits, win)
      case _ => BadData(win.out)
    }

    /** What the reference decoder makes of the rest of the stream. */
    ghost function Goal(z: ZStream): (o: Outcome)
      requires Valid(z)
      reads this, z, bits, win, win.window, hufts, blens, codes, Trees()
      ensures win.out <= o.out && ends <= o.ends
    {
      match mode
      case TYPE => Blocks(z.input, bits.Cur(z), win.out, ends)
      case DRY => Finished(win.out, bits.Cur(z), ends)
      case DONE => Finished(win.out, bits.Cur(z), ends)
      case BAD => Corrupt(win.out, ends)
      case LENS => After(z.input, BlockGoal(z), last, false, ends)
      case STORED => After(z.input, BlockGoal(z), last, false, ends)
      case _ => After(z.input, BlockGoal(z), last, true, ends)
    }

    /** Bits that must be there before anything can happen. */
    ghost function Wanted(z: ZStream): nat
      requires Valid(z)
      reads this, z, bits, win, win.window, hufts, blens, codes, Trees()
    {
      match mode
      case TYPE => 3
      case LENS => 32
      case STORED => 1
      case TABLE => 14
      case BTREE => if index < NumClen(table) then 3 else 0
      case DTREE =>
        BoundedMax(clen, 7);
        var d := CodeLength(z.input, bits.Cur(z), clen);
        if index == Total(table) then 0
        else if d.Sym? && d.sym >= 16 then Max(bb, d.len + ExtraFor(d.sym)) else bb
      case CODES => codes.Wanted()
      case _ => 0
    }

    ghost predicate Short(z: ZStream)
      requires Valid(z)
      reads this, z, bits, win, win.window, hufts, blens, codes, Trees()
    {
      z.availIn == 0 && bits.bitk < Wanted(z)
    }

    /** Stopped for lack of input: no block, and not the stream, ends a byte or more before what was taken. */
    ghost predicate Hungry(z: ZStream)
      requires Valid(z)
      reads this, z, bits, win, win.window, hufts, blens, codes, Trees()
    {
      Short(z) && !Early(z.nextIn, |ends|, Goal(z))
    }

    lemma HasParts(z: ZStream)
      requires Valid(z)
      ensures Base(z) && bits.Valid(z) && win.Valid(z) && hufts.Length == MANY
      ensures Cur(z) == bits.Cur(z) <= 8 * |z.input|
    {
      hide Ring, Output.Valid, BitBuffer.Valid, BitBuffer.Cur;
    }

    lemma IsBase(z: ZStream)
      requires bits.Valid(z) && win.Valid(z) && hufts.Length == MANY
      ensures Base(z) && Cur(z) == bits.Cur(z)
    {
      hide Ring, Output.Valid;
    }

    /** More input, or more room, changes nothing of what is to come. */
    method Supply(z: ZStream, known: nat, room: nat, ghost base: nat)
      requires Valid(z) && z.nextIn + z.availIn + known <= |z.input|
      modifies z`availIn, z`availOut, z`base
      ensures Valid(z) && Goal(z) == old(Goal(z))
      ensures z.availIn == old(z.availIn) + known && z.availOut == room && z.base == base
    {
      hide Ring, Take, Blocks, After, Stored, StoredBytes, Dynamic, ClensGoal, LensGoal, ClenTree, LengthsOK;
      hide C.CodesState.Valid, C.CodesState.Goal, MaxLen, Pow2;
      if mode == CODES {
        codes.Supply(z, bits, win, known, room, base);
      } else {
        z.Supply(known, room, base);
      }
    }

    /** inflate_blocks_new */
    constructor (z: ZStream)
      requires z.nextIn == 0 && z.output == [] && z.availIn <= |z.input|
      ensures Valid(z) && mode == TYPE && Goal(z) == Inflate(z.input)
      ensures win.out == ends == [] && win.read == win.write == 0 && !last
      ensures fresh(bits) && fresh(win) && fresh(win.window) && fresh(hufts) && fresh(blens) && codes == null
    {
      mode, left, table, index, bb, tb, codes, last := TYPE, 0, 0, 0, 0, NULL, null, false;
      blens := new nat[0];
      bits := new BitBuffer();
      hufts := new Huft[MANY](_ => Huft(0, 0, 0));
      win := new Output(z);
      clen, ends := [], [];
    }

    /** case TYPE: reads whether the block is the last, and its kind. */
    method StepType(z: ZStream, r0: int) returns (leave: bool, r: int)
      requires Valid(z) && mode == TYPE
      modifies this`mode, this`last, this`codes, bits, z`nextIn, z`availIn
      ensures Valid(z) && Goal(z) == old(Goal(z)) && z.nextIn + z.availIn == old(z.nextIn + z.availIn)
      ensures Unfed(r, old(z.availIn), z)
      ensures codes == old(codes) || fresh(codes)
      ensures !leave ==> Cur(z) > old(Cur(z)) && (r == r0 || r == Z_OK)
      ensures leave && mode != BAD ==> Hungry(z) && (r == r0 || r == Z_OK)
      ensures leave && mode == BAD ==> r == Z_DATA_ERROR
      ensures old(Short(z)) ==> leave && mode == TYPE && r == r0
    {
      hide Blocks, After, Take, TidyBlock, Ring, Output.Valid, Kraft, Acceptable, Scan;
      BlockHeader(z.input, bits.Cur(z), win.out, ends);
      var ok;
      ok, r := bits.Need(z, 3, r0);
      if !ok {
        bits.Position(z);
        BlocksLate(z.input, bits.Cur(z), win.out, z.nextIn, ends);
        return true, r;
      }
      leave, r := EnterBlock(z, r);
    }

    lemma InType(z: ZStream)
      requires Valid(z) && mode == TYPE
      ensures bits.bitk <= 15 && Goal(z) == Blocks(z.input, bits.Cur(z), win.out, ends)
    {
      hide Blocks, Ring, Output.Valid, BitBuffer.Valid;
    }

    method EnterBlock(z: ZStream, r0: int) returns (leave: bool, r: int)
      requires Valid(z) && mode == TYPE && bits.bitk >= 3
      modifies this`mode, this`last, this`codes, bits
      ensures Valid(z) && Goal(z) == old(Goal(z)) && (codes == old(codes) || fresh(codes)) && Cur(z) > old(Cur(z))
      ensures if leave then mode == BAD && r == Z_DATA_ERROR else r == r0
    {
      hide *;
      HasParts(z);
      InType(z);
      BlockHeader(z.input, bits.Cur(z), win.out, ends);
      var t := bits.Peek(z, 3);
      last := t % 2 == 1;
      leave, r := false, r0;
      bits.Dump(z, 3);
      IsBase(z);
      BodyKinds(z.input, bits.Cur(z), t / 2, win.out);
      if t / 2 == 0 {
        BeginStored(z, Cur(z));
      } else if t / 2 == 1 {
        BeginFixed(z);
      } else if t / 2 == 2 {
        BeginDynamic(z);
      } else {
        GoBad(z);
        leave, r := true, Z_DATA_ERROR;
      }
    }

    method GoBad(z: ZStream)
      requires Base(z)
      modifies this`mode
      ensures mode == BAD && Valid(z) && Goal(z) == Corrupt(win.out, ends)
      ensures Goal(z) == After(z.input, BadData(win.out), last, true, ends)
      ensures Goal(z) == After(z.input, BadData(win.out), last, false, ends)
    {
      hide Ring, Output.Valid, BitBuffer.Valid, Blocks, BitBuffer.Cur;
      mode := BAD;
      AfterBlock(z.input, bits.Cur(z), win.out, last, true, ends);
      AfterBlock(z.input, bits.Cur(z), win.out, last, false, ends);
    }

    method BeginStored(z: ZStream, ghost cur: nat)
      requires Base(z) && bits.bitk <= 15 && cur == Cur(z)
      modifies this`mode, bits
      ensures mode == LENS && Valid(z) && Cur(z) >= cur
      ensures Goal(z) == After(z.input, Stored(z.input, Align(cur), win.out), last, false, ends)
    {
      hide After, Stored, Ring, Output.Valid, BitBuffer.Valid;
      ToByte(z);
      mode := LENS;
    }

    /** Goes to the byte boundary. */
    method ToByte(z: ZStream)
      requires Base(z)
      modifies bits
      ensures Base(z) && bits.bitk % 8 == 0 && Cur(z) % 8 == 0 && Cur(z) == Align(old(Cur(z))) >= old(Cur(z))
    {
      hide BitBuffer.Valid, Output.Valid, Ring;
      bits.Position(z);
      AlignCur(bits.bitk, z.nextIn);
      bits.Dump(z, bits.bitk % 8);
      bits.Position(z);
    }

    method BeginDynamic(z: ZStream)
      requires Base(z) && bits.bitk <= 15
      modifies this`mode
      ensures mode == TABLE && Valid(z)
      ensures Goal(z) == After(z.input, Dynamic(z.input, bits.Cur(z), win.out), last, true, ends)
    {
      hide After, Dynamic, Ring, Output.Valid, BitBuffer.Valid;
      mode := TABLE;
    }

    method BeginFixed(z: ZStream)
      requires Base(z) && bits.bitk <= 15
      modifies this`mode, this`codes
      ensures mode == CODES && Valid(z) && fresh(codes) && LitLens(FixedLit()) && DistLens(FixedDist())
      ensures Goal(z) ==
        After(z.input, Codes(z.input, bits.Cur(z), FixedLit(), FixedDist(), win.out), last, true, ends)
    {
      hide After, Codes, FixedLit, FixedDist, Ring, Output.Valid, BitBuffer.Valid, LitTree;
      codes := FixedState();
      mode := CODES;
    }

    /** case LENS: reads how long a stored block is, with the complement. */
    method StepLens(z: ZStream, r0: int) returns (leave: bool, r: int)
      requires Valid(z) && mode == LENS
      modifies this`mode, this`left, this`ends, bits, z`nextIn, z`availIn
      ensures ends == old(ends)
      ensures Valid(z) && Goal(z) == old(Goal(z)) && z.nextIn + z.availIn == old(z.nextIn + z.availIn)
      ensures Unfed(r, old(z.availIn), z)
      ensures !leave ==> Cur(z) > old(Cur(z)) && (r == r0 || r == Z_OK)
      ensures leave && mode != BAD ==> Hungry(z) && (r == r0 || r == Z_OK)
      ensures leave && mode == BAD ==> r == Z_DATA_ERROR
      ensures old(Short(z)) ==> leave && mode == LENS && r == r0
    {
      hide ClenTree, TreeOK, LitTree, DistTree, CellOK, Shape, Blocks, After, Stored, Take, Tidy, Ring;
      hide Output.Valid, BitBuffer.Valid;
      StoredHeader(z.input, bits.Cur(z), win.out);
      var ok;
      ok, r := bits.Need(z, 32, r0);
      bits.WholeBytes(z);
      if !ok {
        bits.Position(z);
        StoredLong(z.input, bits.Cur(z), win.out);
        TidyAfter(z.input, z.nextIn, Stored(z.input, bits.Cur(z), win.out), last, false, ends);
        return true, r;
      }
      leave, r := TakeLens(z, r);
    }

    lemma InLens(z: ZStream)
      requires Valid(z) && mode == LENS
      ensures Base(z) && Cur(z) % 8 == 0
      ensures Goal(z) ==
        After(z.input, Stored(z.input, bits.Cur(z), win.out), last, false, ends)
    {
    }

    method TakeLens(z: ZStream, r0: int) returns (leave: bool, r: int)
      requires Valid(z) && mode == LENS && bits.bitk >= 32
      modifies this`mode, this`left, this`ends, bits
      ensures ends == old(ends)
      ensures Valid(z) && Goal(z) == old(Goal(z)) && Cur(z) >= old(Cur(z))
      ensures if leave then mode == BAD && r == Z_DATA_ERROR else r == r0 && Cur(z) > old(Cur(z)) && mode != BAD
    {
      hide Blocks, After, Stored, StoredBytes, Take, Ring, Output.Valid, BitBuffer.Valid, Pow2, BlocksState.Valid;
      hide TreeOK;
      InLens(z);
      hide ModeOK, BlockGoal, Goal, Valid, Few;
      bits.Position(z);
      StoredHeader(z.input, bits.Cur(z), win.out);
      var b := bits.Peek(z, 32);
      leave, r := false, r0;
      if 0xffff - b / 0x1_0000 != b % 0x1_0000 {
        GoBad(z);
        return true, Z_DATA_ERROR;
      }
      left := b % 0x1_0000;
      bits.Clear(z);
      StartStored(z);
    }

    /** The `left` bytes of a stored block lie ahead, if there are any. */
    method StartStored(z: ZStream)
      requires Base(z) && Cur(z) % 8 == 0 && bits.bitk == bits.held == 0
      modifies this`mode, this`ends
      ensures Valid(z) && mode in {STORED, DRY, TYPE} && ends == old(ends)
      ensures Goal(z) == After(z.input, StoredBytes(z.input, bits.Cur(z), left, win.out), last, false, ends)
    {
      hide After, StoredBytes, Ring, Output.Valid, BitBuffer.Valid, ClenTree, LengthsOK, TableOK, Take, LensGoal;
      hide ClensGoal, Stored, Dynamic, Blocks, C.CodesState.Valid, C.CodesState.Few, C.CodesState.Goal;
      if left > 0 {
        mode := STORED;
      } else {
        StoredDone(z.input, bits.Cur(z), win.out);
        BlockDone(z, false);
      }
    }

    /** After a block: the next one, or the end. */
    method BlockDone(z: ZStream, ghost packed: bool)
      requires Base(z) && bits.bitk <= 7
      modifies this`mode, this`ends
      ensures Valid(z) && mode in {DRY, TYPE} && ends == if packed && !last then old(ends) + [Cur(z)] else old(ends)
      ensures Goal(z) == After(z.input, Ended(bits.Cur(z), win.out), last, packed, old(ends))
    {
      hide After, Blocks, Ring, Output.Valid, BitBuffer.Valid;
      AfterBlock(z.input, bits.Cur(z), win.out, last, packed, ends);
      mode := if last then DRY else TYPE;
      if packed && !last { ends := ends + [Cur(z)]; }
    }

    /** case STORED: copies as much as there is, as far as there is room. */
    method StepStored(z: ZStream, r0: int) returns (leave: bool, r: int)
      requires Valid(z) && mode == STORED && r0 in {Z_OK, Z_BUF_ERROR}
      modifies this`mode, this`left, this`ends, z`nextIn, z`availIn, z`output, z`availOut, win, win.window
      ensures ends == old(ends)
      ensures Valid(z) && Goal(z) == old(Goal(z)) && z.nextIn + z.availIn == old(z.nextIn + z.availIn)
      ensures Unfed(r, old(z.availIn), z)
      ensures Sent(z, old(|z.output|), old(z.availOut)) && (r == r0 || r == Z_OK)
      ensures if leave then Stopped(z, r, r0) else Cur(z) > old(Cur(z))
      ensures old(Short(z)) ==> leave && Short(z) && r == r0 && win.out == old(win.out)
    {
      hide Blocks, After, StoredBytes, Take, Tidy, Ring, Output.Valid, BitBuffer.Valid;
      bits.Position(z);
      if z.availIn == 0 {
        TooLate(z.input, bits.Cur(z), win.out, StoredBytes(z.input, bits.Cur(z), left, win.out),
                z.nextIn, last, false, ends);
        return true, r0;
      }
      var ok;
      ok, r := win.Need(z, r0);
      if !ok {
        return true, r;
      }
      var t := left;
      if t > z.availIn { t := z.availIn; }
      if t > Window.Room(win.read, win.write) { t := Window.Room(win.read, win.write); }
      CopyStored(z, t);
      leave := false;
    }

    lemma InStored(z: ZStream)
      requires Valid(z) && mode == STORED
      ensures Base(z) && Cur(z) % 8 == 0 && bits.bitk == bits.held == 0 && left > 0
      ensures Goal(z) == After(z.input, StoredBytes(z.input, bits.Cur(z), left, win.out), last, false, ends)
    {
    }

    method CopyStored(z: ZStream, t: nat)
      requires Valid(z) && mode == STORED && 0 < t <= left && t <= z.availIn && t <= Window.Room(win.read, win.write)
      modifies this`mode, this`left, this`ends, z`nextIn, z`availIn, win`write, win`out, win.window
      ensures ends == old(ends)
      ensures Valid(z) && Goal(z) == old(Goal(z)) && z.nextIn + z.availIn == old(z.nextIn + z.availIn)
      ensures Cur(z) > old(Cur(z))
    {
      hide Blocks, After, StoredBytes, Take, Ring, Output.Valid, BitBuffer.Valid, BlocksState.Goal, CellOK;
      InStored(z);
      hide ModeOK, BlockGoal, Goal, Valid, Few;
      bits.Position(z);
      StoredSome(z.input, z.nextIn, left, win.out, t);
      win.PutAll(z, z.input[z.nextIn..z.nextIn + t]);
      bits.Skip(z, t);
      bits.Position(z);
      left := left - t;
      StartStored(z);
    }

    /** case DRY: empties the window after the last block. */
    method StepDry(z: ZStream, r0: int) returns (leave: bool, r: int)
      requires Valid(z) && mode == DRY
      modifies this`mode, win`read, win`write, z`output, z`availOut
      ensures Valid(z) && Goal(z) == old(Goal(z)) && Sent(z, old(|z.output|), old(z.availOut))
      ensures r == r0 || (r0 == Z_BUF_ERROR && r == Z_OK)
      ensures if leave then mode == DRY && Full(z, win) else mode == DONE && win.read == win.write
    {
      hide Take, Ring, BitBuffer.Valid;
      r := win.Flush(z, r0);
      leave := win.read != win.write;
      if !leave { mode := DONE; }
    }

    /** case TABLE: reads how many lengths of each kind there are. */
    method StepTable(z: ZStream, r0: int) returns (leave: bool, r: int)
      requires Valid(z) && mode == TABLE
      modifies this`mode, this`table, this`blens, this`index, bits, z`nextIn, z`availIn
      ensures Valid(z) && Goal(z) == old(Goal(z)) && z.nextIn + z.availIn == old(z.nextIn + z.availIn)
      ensures Unfed(r, old(z.availIn), z)
      ensures fresh(blens) || blens == old(blens)
      ensures !leave ==> mode == BTREE && Cur(z) > old(Cur(z)) && (r == r0 || r == Z_OK)
      ensures leave && mode != BAD ==> Hungry(z) && (r == r0 || r == Z_OK)
      ensures leave && mode == BAD ==> r == Z_DATA_ERROR
      ensures old(Short(z)) ==> leave && mode == TABLE && r == r0
    {
      hide Blocks, After, Dynamic, Take, Tidy, Ring, Output.Valid, BitBuffer.Valid;
      TableHeader(z.input, bits.Cur(z), win.out);
      var ok;
      ok, r := bits.Need(z, 14, r0);
      if !ok {
        bits.Position(z);
        TableLate(z.input, bits.Cur(z), win.out, z.nextIn);
        TidyAfter(z.input, z.nextIn, Dynamic(z.input, bits.Cur(z), win.out), last, true, ends);
        return true, r;
      }
      leave, r := TakeTable(z, r, old(Goal(z)));
    }

    method TakeTable(z: ZStream, r0: int, ghost goal: Outcome) returns (leave: bool, r: int)
      requires Base(z) && 14 <= bits.bitk <= 29
      requires goal == After(z.input, Dynamic(z.input, bits.Cur(z), win.out), last, true, ends)
      modifies this`mode, this`table, this`blens, this`index, bits
      ensures Valid(z) && Goal(z) == goal && (fresh(blens) || blens == old(blens))
      ensures if leave then mode == BAD && r == Z_DATA_ERROR else mode == BTREE && r == r0 && Cur(z) > old(Cur(z))
    {
      hide Blocks, After, Dynamic, Take, Ring, Output.Valid, BitBuffer.Valid, ModeOK, BlockGoal, Goal, TooMany;
      hide TableOK, ClensGoal, Pow2, TreeOK, LitTree;
      TableHeader(z.input, bits.Cur(z), win.out);
      var t := bits.Peek(z, 14);
      table := t;
      leave, r := false, r0;
      if TooMany(t) {
        GoBad(z);
        return true, Z_DATA_ERROR;
      }
      bits.Dump(z, 14);
      StartBtree(z);
    }

    /** Space for the lengths, all zero so far. */
    method StartBtree(z: ZStream)
      requires Base(z) && bits.bitk <= 15 && TableOK(table)
      modifies this`mode, this`blens, this`index
      ensures Valid(z) && mode == BTREE && fresh(blens)
      ensures Goal(z) ==
        After(z.input, ClensGoal(z.input, bits.Cur(z), table, 0, Repeat(0, 19), win.out), last, true, ends)
    {
      hide After, ClensGoal, Take, Ring, Output.Valid, BitBuffer.Valid;
      blens := new nat[Total(table)](_ => 0);
      index := 0;
      mode := BTREE;
      assert blens[..19] == Repeat(0, 19);
    }

    lemma InBtree(z: ZStream)
      requires Valid(z) && mode == BTREE
      ensures bits.bitk <= 15 && TableOK(table) && 19 <= blens.Length == Total(table) && index <= 19
      ensures index < NumClen(table) ==> index < 19 && (Short(z) <==> z.availIn == 0 && bits.bitk < 3)
      ensures (forall i | 0 <= i < 19 :: blens[i] <= 7)
      ensures Goal(z) ==
        After(z.input, ClensGoal(z.input, bits.Cur(z), table, index, blens[..19], win.out), last, true, ends)
    {
    }

    lemma StarvedBtree(z: ZStream)
      requires Base(z) && mode == BTREE && bits.bitk <= 15 && TableOK(table) && 19 <= blens.Length == Total(table)
      requires index < NumClen(table) && index < 19 && (forall i | 0 <= i < 19 :: blens[i] <= 7)
      requires z.availIn == 0 && bits.bitk < 3
      ensures Valid(z) && Hungry(z) && Short(z)
      ensures Goal(z) ==
        After(z.input, ClensGoal(z.input, bits.Cur(z), table, index, blens[..19], win.out), last, true, ends)
    {
      hide After, ClensGoal, Take, Ring, Output.Valid, BitBuffer.Valid, ModeOK, Goal, BlockGoal, Early, TableOK;
      bits.Position(z);
      IsBtree(z);
      TooLate(z.input, bits.Cur(z), win.out, ClensGoal(z.input, bits.Cur(z), table, index, blens[..19], win.out),
              z.nextIn, last, true, ends);
    }

    lemma IsBtree(z: ZStream)
      requires Base(z) && mode == BTREE && bits.bitk <= 15 && TableOK(table) && blens.Length == Total(table) &&
        index <= 19
      requires (forall i | 0 <= i < 19 :: blens[i] <= 7)
      ensures Valid(z)
      ensures Goal(z) ==
        After(z.input, ClensGoal(z.input, bits.Cur(z), table, index, blens[..19], win.out), last, true, ends)
    {
    }

    /** One code length code length, in the order they are sent. */
    method PutClen(z: ZStream, v: nat, ghost goal: Outcome)
      requires Base(z) && mode == BTREE && bits.bitk <= 15 && TableOK(table) && blens.Length == Total(table) &&
        index < 19
      requires (forall i | 0 <= i < 19 :: blens[i] <= 7) && v <= 7
      requires BORDER[index] < 19
      requires goal ==
        After(z.input, ClensGoal(z.input, bits.Cur(z), table, index + 1, blens[..19][BORDER[index] := v], win.out),
              last, true, ends)
      modifies this`index, blens
      ensures Valid(z) && mode == BTREE && Goal(z) == goal && index == old(index) + 1
    {
      hide After, ClensGoal, Take, Ring, Output.Valid, BitBuffer.Valid, ModeOK, Goal, BlockGoal;
      ghost var was := blens[..19];
      blens[BORDER[index]] := v;
      assert blens[..19] == was[BORDER[index] := v];
      index := index + 1;
      IsBtree(z);
    }

    /** case BTREE: reads the lengths of the code length code, and builds its tree. */
    method StepBtree(z: ZStream, r0: int) returns (leave: bool, r: int)
      requires Valid(z) && mode == BTREE
      modifies this`mode, this`index, this`bb, this`tb, this`clen, this`btr, blens, hufts, bits, z`nextIn, z`availIn
      ensures Valid(z) && Goal(z) == old(Goal(z)) && z.nextIn + z.availIn == old(z.nextIn + z.availIn)
      ensures Unfed(r, old(z.availIn), z)
      ensures Cur(z) >= old(Cur(z))
      ensures !leave ==> mode == DTREE && (r == r0 || r == Z_OK)
      ensures leave && mode != BAD ==> Hungry(z) && (r == r0 || r == Z_OK)
      ensures leave && mode == BAD ==> r == Z_DATA_ERROR
      ensures old(Short(z)) ==> leave && mode == BTREE && r == r0
    {
      hide Blocks, After, Dynamic, Take, Tidy, Ring, Output.Valid, BitBuffer.Valid, ClensGoal, LensGoal, Goal;
      hide BlockGoal, ModeOK;
      r := r0;
      InBtree(z);
      while index < NumClen(table)
        invariant Valid(z) && mode == BTREE && Goal(z) == old(Goal(z)) &&
          z.nextIn + z.availIn == old(z.nextIn + z.availIn)
        invariant Cur(z) >= old(Cur(z)) && (r == r0 || r == Z_OK) && Unfed(r, old(z.availIn), z) &&
          table == old(table) && index <= 19 && TableOK(table)
        invariant old(Short(z)) ==> Short(z) && r == r0
        decreases 19 - index
      {
        leave, r := ReadClen(z, r);
        if leave { return; }
      }
      leave, r := PadClens(z, r);
    }

    method ReadClen(z: ZStream, r0: int) returns (leave: bool, r: int)
      requires Valid(z) && mode == BTREE && index < NumClen(table)
      modifies this`index, blens, bits, z`nextIn, z`availIn
      ensures Valid(z) && mode == BTREE && Goal(z) == old(Goal(z)) && z.nextIn + z.availIn == old(z.nextIn + z.availIn)
      ensures Unfed(r, old(z.availIn), z)
      ensures Cur(z) >= old(Cur(z)) && (r == r0 || r == Z_OK)
      ensures if leave then Hungry(z) else index == old(index) + 1 <= 19 && TableOK(table)
      ensures old(Short(z)) ==> leave && r == r0
    {
      hide *;
      HasParts(z);
      InBtree(z);
      ClensMore(z.input, bits.Cur(z), table, index, blens[..19], win.out);
      var ok;
      ok, r := bits.Need(z, 3, r0);
      IsBase(z);
      if !ok {
        StarvedBtree(z);
        return true, r;
      }
      var v := bits.Peek(z, 3);
      bits.Dump(z, 3);
      IsBase(z);
      PutClen(z, v, old(Goal(z)));
      HasParts(z);
      InBtree(z);
      leave := false;
    }

    method PadClens(z: ZStream, r0: int) returns (leave: bool, r: int)
      requires Valid(z) && mode == BTREE && index >= NumClen(table)
      modifies this`mode, this`index, this`bb, this`tb, this`clen, this`btr, blens, hufts
      ensures Valid(z) && Goal(z) == old(Goal(z))
      ensures if leave then mode == BAD && r == Z_DATA_ERROR else mode == DTREE && r == r0
    {
      hide *;
      HasParts(z);
      InBtree(z);
      while index < 19
        invariant Valid(z) && mode == BTREE && Goal(z) == old(Goal(z)) && NumClen(table) <= index <= 19
      {
        InBtree(z);
        ClensMore(z.input, bits.Cur(z), table, index, blens[..19], win.out);
        PutClen(z, 0, old(Goal(z)));
      }
      leave, r := BuildClens(z, r0);
    }

    method BuildClens(z: ZStream, r0: int) returns (leave: bool, r: int)
      requires Valid(z) && mode == BTREE && index == 19
      modifies this`mode, this`index, this`bb, this`tb, this`clen, this`btr, hufts
      ensures Valid(z) && Goal(z) == old(Goal(z))
      ensures if leave then mode == BAD && r == Z_DATA_ERROR else mode == DTREE && r == r0
    {
      hide Blocks, After, Dynamic, Take, Ring, Output.Valid, BitBuffer.Valid, ClensGoal, LensGoal, Goal, BlockGoal;
      hide ModeOK, TreeOK, Acceptable, MaxLen;
      InBtree(z);
      var c := blens[..19];
      ClensAll(z.input, bits.Cur(z), table, c, win.out);
      r, bb, tb, btr := TreesBits(c, hufts);
      if r != Z_OK {
        GoBad(z);
        return true, Z_DATA_ERROR;
      }
      StartDtree(z, c);
      leave, r := false, r0;
    }

    method StartDtree(z: ZStream, ghost c: seq<nat>)
      requires Base(z) && bits.bitk <= 15 && TableOK(table) && blens.Length == Total(table)
      requires ClenTree(btr, hufts[..], c, bb, tb)
      modifies this`mode, this`index, this`clen
      ensures Valid(z) && mode == DTREE && MaxLen(c) <= BMAX && |c| == 19
      ensures Goal(z) == After(z.input, LensGoal(z.input, bits.Cur(z), table, c, [], win.out), last, true, ends)
    {
      hide Blocks, After, Ring, Output.Valid, BitBuffer.Valid, LensGoal, Goal, BlockGoal, ModeOK, ClenTree;
      clen := c;
      index := 0;
      mode := DTREE;
      assert blens[..index] == [];
      IsDtree(z);
    }

    lemma IsDtree(z: ZStream)
      requires Base(z) && mode == DTREE && bits.bitk <= 15 && TableOK(table) && blens.Length == Total(table)
      requires index <= Total(table) && LengthsOK(blens[..index]) && ClenTree(btr, hufts[..], clen, bb, tb)
      ensures Valid(z) && MaxLen(clen) <= BMAX && |clen| == 19
      ensures Goal(z) ==
        After(z.input, LensGoal(z.input, bits.Cur(z), table, clen, blens[..index], win.out), last, true, ends)
    {
      hide After, LensGoal, Ring, Output.Valid, BitBuffer.Valid, TreeOK, Pow2, Acceptable, MaxLen;
    }

    lemma InDtree(z: ZStream)
      requires Valid(z) && mode == DTREE
      ensures bits.bitk <= 15 && TableOK(table) && blens.Length == Total(table)
      ensures index <= Total(table) && LengthsOK(blens[..index]) && ClenTree(btr, hufts[..], clen, bb, tb)
      ensures MaxLen(clen) <= BMAX && |clen| == 19 && bb <= 7
      ensures Goal(z) ==
        After(z.input, LensGoal(z.input, bits.Cur(z), table, clen, blens[..index], win.out), last, true, ends)
      ensures BlockGoal(z) == LensGoal(z.input, bits.Cur(z), table, clen, blens[..index], win.out)
    {
      BoundedMax(clen, 7);
    }

    /** `j` more code lengths, all `v`. */
    method PutLens(z: ZStream, v: nat, j: nat, ghost goal: Outcome)
      requires Base(z) && mode == DTREE && bits.bitk <= 15 && TableOK(table) && blens.Length == Total(table)
      requires index + j <= Total(table) && LengthsOK(blens[..index]) && v <= BMAX &&
        ClenTree(btr, hufts[..], clen, bb, tb)
      requires MaxLen(clen) <= BMAX && |clen| == 19 && LengthsOK(blens[..index] + Repeat(v, j))
      requires goal ==
        After(z.input, LensGoal(z.input, bits.Cur(z), table, clen, blens[..index] + Repeat(v, j), win.out),
              last, true, ends)
      modifies this`index, blens
      ensures Valid(z) && mode == DTREE && Goal(z) == goal && index == old(index) + j
    {
      hide ClenTree, TreeOK, LitTree, DistTree, CellOK, Shape, After, LensGoal, Take, Ring, Output.Valid;
      hide BitBuffer.Valid, ModeOK, Goal, BlockGoal, MaxLen, TableOK;
      ghost var was := blens[..index];
      var i := index;
      while i < index + j
        invariant index == |was| && index <= i <= index + j <= blens.Length
        invariant blens[..i] == was + Repeat(v, i - index)
      {
        blens[i] := v;
        assert blens[..i + 1] == blens[..i] + [v];
        assert Repeat(v, i + 1 - index) == Repeat(v, i - index) + [v];
        i := i + 1;
      }
      index := index + j;
      IsDtree(z);
    }

    /** One code length symbol of a dynamic header: a length, or a run of them. */
    method ReadLen(z: ZStream, r0: int) returns (leave: bool, r: int)
      requires Valid(z) && mode == DTREE && index < Total(table)
      modifies this`mode, this`index, blens, bits, z`nextIn, z`availIn
      ensures Valid(z) && Goal(z) == old(Goal(z)) && z.nextIn + z.availIn == old(z.nextIn + z.availIn)
      ensures Unfed(r, old(z.availIn), z)
      ensures !leave ==> mode == DTREE && (r == r0 || r == Z_OK) && index > old(index) && Cur(z) > old(Cur(z))
      ensures leave && mode != BAD ==> mode == DTREE && Hungry(z) && (r == r0 || r == Z_OK) && Cur(z) == old(Cur(z))
      ensures leave && mode == BAD ==> r == Z_DATA_ERROR && Cur(z) >= old(Cur(z))
      ensures old(Short(z)) ==> leave && mode == DTREE && r == r0
    {
      hide Blocks, After, Take, Tidy, Ring, Output.Valid, BitBuffer.Valid, LensGoal, Goal, BlockGoal, ModeOK;
      hide MaxLen, TableOK, ClenTree, CodeLength;
      InDtree(z);
      LensMore(z.input, bits.Cur(z), table, clen, blens[..index], win.out);
      var ok;
      ok, r := bits.Need(z, bb, r0);
      IsDtree(z);
      if !ok {
        bits.Position(z);
        TooLate(z.input, bits.Cur(z), win.out, LensGoal(z.input, bits.Cur(z), table, clen, blens[..index], win.out),
                z.nextIn, last, true, ends);
        return true, r;
      }
      leave, r := TakeLen(z, r);
    }

    method TakeLen(z: ZStream, r0: int) returns (leave: bool, r: int)
      requires Valid(z) && mode == DTREE && index < Total(table) && bb <= bits.bitk
      modifies this`mode, this`index, blens, bits, z`nextIn, z`availIn
      ensures Valid(z) && Goal(z) == old(Goal(z)) && z.nextIn + z.availIn == old(z.nextIn + z.availIn)
      ensures Unfed(r, old(z.availIn), z)
      ensures !leave ==> mode == DTREE && (r == r0 || r == Z_OK) && index > old(index) && Cur(z) > old(Cur(z))
      ensures leave && mode != BAD ==> mode == DTREE && Hungry(z) && (r == r0 || r == Z_OK) && Cur(z) == old(Cur(z))
      ensures leave && mode == BAD ==> r == Z_DATA_ERROR && Cur(z) >= old(Cur(z))
      ensures old(Short(z)) ==> leave && mode == DTREE && r == r0
    {
      hide C.CodesState.Valid, C.CodesState.Goal, Blocks, After, Take, Tidy, Ring, Output.Valid, BitBuffer.Valid;
      hide LensGoal, Goal, BlockGoal, ModeOK, MaxLen, TableOK, ClenTree, CodeLength, Hungry, RunGoal, Low;
      InDtree(z);
      bits.Position(z);
      ClenEntry(z);
      bits.Peeked(z, bb);
      var h := hufts[tb + Low(bits.bitb, bb)];
      if h.base < 16 {
        LensOne(z.input, bits.Cur(z), table, clen, blens[..index], win.out, h.base, h.bits);
        bits.Dump(z, h.bits);
        PutLens(z, h.base, 1, old(Goal(z)));
        return false, r0;
      }
      leave, r := StepRun(z, h, r0);
    }

    /** The entry the next bits select. */
    lemma ClenEntry(z: ZStream)
      requires Valid(z) && mode == DTREE && bb <= bits.bitk && bits.Cur(z) + bb <= 8 * |z.input|
      ensures var a := tb + Take(z.input, bits.Cur(z), bb);
        && 0 <= a < hufts.Length && 1 <= hufts[a].bits <= bb && hufts[a].base <= 18 && MaxLen(clen) <= BMAX &&
        |clen| == 19
        && CodeLength(z.input, bits.Cur(z), clen) == Sym(hufts[a].base, hufts[a].bits)
    {
      InDtree(z);
      hide *;
      ClenLookup(btr, hufts[..], z.input, bits.Cur(z), clen, bb, tb);
    }

    /** A run: a repeat of the last length, or zeros.  No bits are dropped before all of them are there. */
    method StepRun(z: ZStream, h: Huft, r0: int) returns (leave: bool, r: int)
      requires Valid(z) && mode == DTREE && index < Total(table)
      requires 16 <= h.base <= 18 && 1 <= h.bits <= bb && MaxLen(clen) <= BMAX && |clen| == 19
      requires CodeLength(z.input, bits.Cur(z), clen) == Sym(h.base, h.bits)
      modifies this`mode, this`index, blens, bits, z`nextIn, z`availIn
      ensures Valid(z) && Goal(z) == old(Goal(z)) && z.nextIn + z.availIn == old(z.nextIn + z.availIn)
      ensures Unfed(r, old(z.availIn), z)
      ensures !leave ==> mode == DTREE && (r == r0 || r == Z_OK) && index > old(index) && Cur(z) > old(Cur(z))
      ensures leave && mode != BAD ==> mode == DTREE && Hungry(z) && (r == r0 || r == Z_OK) && Cur(z) == old(Cur(z))
      ensures leave && mode == BAD ==> r == Z_DATA_ERROR && Cur(z) >= old(Cur(z))
      ensures old(Short(z) && bits.bitk >= bb) ==> leave && mode == DTREE && r == r0
    {
      hide *;
      HasParts(z);
      InDtree(z);
      InRun(z, h);
      LensRun(z.input, bits.Cur(z), table, clen, blens[..index], win.out, h.base, h.bits);
      var ok;
      ok, r := bits.Need(z, h.bits + ExtraFor(h.base), r0);
      IsBase(z);
      if !ok {
        StarvedRun(z, h);
        return true, r;
      }
      leave, r := TakeRun(z, h, r, old(Goal(z)));
      if leave { FedOrBad(r, old(z.availIn), z); }
    }

    /** What a run waits for. */
    lemma InRun(z: ZStream, h: Huft)
      requires Valid(z) && mode == DTREE && index < Total(table) && MaxLen(clen) <= BMAX && |clen| == 19
      requires 16 <= h.base <= 18 && 1 <= h.bits <= bb && CodeLength(z.input, bits.Cur(z), clen) == Sym(h.base, h.bits)
      ensures h.bits + ExtraFor(h.base) <= 14
      ensures Short(z) && bits.bitk >= bb ==> z.availIn == 0 && bits.bitk < h.bits + ExtraFor(h.base)
    {
      hide LensGoal, Ring, Output.Valid, BitBuffer.Valid, TreeOK, Pow2, Acceptable, MaxLen, CodeLength;
      InDtree(z);
    }

    lemma StarvedRun(z: ZStream, h: Huft)
      requires Base(z) && mode == DTREE && bits.bitk <= 15 && TableOK(table) && blens.Length == Total(table)
      requires index < Total(table) && LengthsOK(blens[..index]) && ClenTree(btr, hufts[..], clen, bb, tb)
      requires 16 <= h.base <= 18 && 1 <= h.bits <= bb && MaxLen(clen) <= BMAX && |clen| == 19
      requires CodeLength(z.input, bits.Cur(z), clen) == Sym(h.base, h.bits)
      requires z.availIn == 0 && bits.bitk < h.bits + ExtraFor(h.base)
      ensures Valid(z) && Hungry(z)
      ensures Goal(z) ==
        After(z.input, LensGoal(z.input, bits.Cur(z), table, clen, blens[..index], win.out), last, true, ends)
    {
      hide After, LensGoal, Ring, Output.Valid, BitBuffer.Valid, Goal, BlockGoal, TreeOK, Pow2, MaxLen, CodeLength;
      hide Early, TidyBlock, TableOK, ClenTree, ModeOK;
      bits.Position(z);
      RunLate(z.input, bits.Cur(z), table, clen, blens[..index], win.out, h.base, h.bits, z.nextIn);
      TidyAfter(z.input, z.nextIn, LensGoal(z.input, bits.Cur(z), table, clen, blens[..index], win.out),
                last, true, ends);
      IsDtree(z);
    }

    method TakeRun(z: ZStream, h: Huft, r0: int, ghost goal: Outcome) returns (leave: bool, r: int)
      requires Base(z) && mode == DTREE && TableOK(table) && blens.Length == Total(table) && index < Total(table)
      requires LengthsOK(blens[..index]) && ClenTree(btr, hufts[..], clen, bb, tb) && MaxLen(clen) <= BMAX &&
        |clen| == 19
      requires 16 <= h.base <= 18 && 1 <= h.bits && h.bits + ExtraFor(h.base) <= bits.bitk
      requires bits.bitk <= 15 || bits.bitk < h.bits + ExtraFor(h.base) + 8
      requires CodeLength(z.input, bits.Cur(z), clen) == Sym(h.base, h.bits)
      requires goal ==
        After(z.input, LensGoal(z.input, bits.Cur(z), table, clen, blens[..index], win.out), last, true, ends)
      modifies this`mode, this`index, blens, bits
      ensures Valid(z) && Goal(z) == goal && Cur(z) > old(Cur(z))
      ensures if leave then mode == BAD && r == Z_DATA_ERROR else mode == DTREE && index > old(index) && r == r0
    {
      hide Blocks, After, Take, Ring, Output.Valid, BitBuffer.Valid, LensGoal, Goal, BlockGoal, ModeOK, MaxLen;
      hide Grows, TableOK, BlocksState.Valid, Total, ClenTree, CodeLength, RunGoal;
      bits.Position(z);
      LensRun(z.input, bits.Cur(z), table, clen, blens[..index], win.out, h.base, h.bits);
      bits.Dump(z, h.bits);
      var v := bits.Peek(z, ExtraFor(h.base));
      bits.Dump(z, ExtraFor(h.base));
      leave, r := PutRun(z, h.base, LeastFor(h.base) + v, r0, goal);
    }

    method PutRun(z: ZStream, c0: nat, j: nat, r0: int, ghost goal: Outcome) returns (leave: bool, r: int)
      requires Base(z) && mode == DTREE && bits.bitk <= 15 && TableOK(table) && blens.Length == Total(table) &&
        index < Total(table)
      requires LengthsOK(blens[..index]) && ClenTree(btr, hufts[..], clen, bb, tb) && MaxLen(clen) <= BMAX &&
        |clen| == 19
      requires 16 <= c0 <= 18 && j >= 3
      requires goal ==
        After(z.input, RunGoal(z.input, bits.Cur(z), table, clen, blens[..index], win.out, c0, j), last, true, ends)
      modifies this`mode, this`index, blens
      ensures Valid(z) && Goal(z) == goal
      ensures if leave then mode == BAD && r == Z_DATA_ERROR else mode == DTREE && index > old(index) && r == r0
    {
      hide Blocks, After, Take, Ring, Output.Valid, BitBuffer.Valid, LensGoal, Goal, BlockGoal, ModeOK, MaxLen;
      hide TableOK, ClenTree, RunGoal, Repeat, LengthsOK;
      RunParts(z.input, bits.Cur(z), table, clen, blens[..index], win.out, c0, j);
      if index + j > Total(table) || (c0 == 16 && index < 1) {
        GoBad(z);
        return true, Z_DATA_ERROR;
      }
      var c := if c0 == 16 then blens[index - 1] else 0;
      PutLens(z, c, j, goal);
      leave, r := false, r0;
    }

    /** case DTREE: reads the lengths of the two alphabets, and builds their trees. */
    method StepDtree(z: ZStream, r0: int) returns (leave: bool, r: int)
      requires Valid(z) && mode == DTREE && r0 in {Z_OK, Z_BUF_ERROR}
      modifies this`mode, this`index, this`tb, this`codes, blens, hufts, bits, z`nextIn, z`availIn
      ensures r == Z_MEM_ERROR ==> leave && Base(z) && old(Goal(z)) == Corrupt(win.out, ends)
      ensures r != Z_MEM_ERROR ==> Valid(z) && Goal(z) == old(Goal(z))
      ensures z.nextIn + z.availIn == old(z.nextIn + z.availIn) && (codes == old(codes) || fresh(codes))
      ensures Unfed(r, old(z.availIn), z)
      ensures !leave ==> mode == CODES && (r == r0 || r == Z_OK) && Cur(z) >= old(Cur(z))
      ensures leave ==>
        r == Z_MEM_ERROR || (mode == BAD && r == Z_DATA_ERROR) || (mode == DTREE && Hungry(z) && (r == r0 || r == Z_OK))
      ensures old(Short(z)) ==> leave && mode == DTREE && r == r0
    {
      hide Blocks, After, Take, Tidy, Ring, Output.Valid, BitBuffer.Valid, LensGoal, Goal, BlockGoal, ModeOK;
      hide C.CodesState.Valid, Total, MaxLen, TableOK, ClenTree, CodeLength, Hungry;
      r := r0;
      InDtree(z);
      while index < Total(table)
        invariant Valid(z) && mode == DTREE && Goal(z) == old(Goal(z)) &&
          z.nextIn + z.availIn == old(z.nextIn + z.availIn)
        invariant Cur(z) >= old(Cur(z)) && (r == r0 || r == Z_OK) && Unfed(r, old(z.availIn), z) &&
          index <= Total(table)
        invariant old(Short(z)) ==> Short(z) && r == r0 && index < Total(table)
        invariant codes == old(codes)
        decreases Total(table) - index
      {
        leave, r := ReadLen(z, r);
        if leave { return; }
        InDtree(z);
      }
      leave, r := BuildTrees(z, r);
    }

    /** The lengths are there: the two trees, and on to the codes. */
    method BuildTrees(z: ZStream, r0: int) returns (leave: bool, r: int)
      requires Valid(z) && mode == DTREE && index == Total(table) && r0 in {Z_OK, Z_BUF_ERROR}
      modifies this`mode, this`tb, this`codes, hufts
      ensures r == Z_MEM_ERROR ==> leave && Base(z) && old(Goal(z)) == Corrupt(win.out, ends)
      ensures r != Z_MEM_ERROR ==> Valid(z) && Goal(z) == old(Goal(z)) && (codes == old(codes) || fresh(codes))
      ensures codes == old(codes) || fresh(codes)
      ensures if leave then r == Z_MEM_ERROR || (mode == BAD && r == Z_DATA_ERROR) else mode == CODES && r == r0
    {
      hide *;
      Distinct();
      LensDone(z);
      AfterBlock(z.input, bits.Cur(z), win.out, last, true, ends);
      tb := NULL;
      var c := blens[..];
      LensAll(z.input, bits.Cur(z), table, clen, c, win.out);
      var bl, bd, tl, td;
      ghost var ltr, dtr;
      r, bl, bd, tl, td, ltr, dtr := TreesDynamic(NumLit(table), NumDist(table), c, hufts);
      if r != Z_OK {
        if r == Z_DATA_ERROR { GoBad(z); }
        return true, r;
      }
      codes := new C.CodesState(bl, bd, hufts, tl, hufts, td, c[..NumLit(table)], c[NumLit(table)..], ltr, dtr);
      StartCodes(z);
      leave, r := false, r0;
    }

    lemma LensDone(z: ZStream)
      requires Valid(z) && mode == DTREE && index == Total(table)
      ensures Base(z) && bits.bitk <= 15 && TableOK(table) && LengthsOK(blens[..]) && hufts.Length == MANY
      ensures |blens[..]| == Total(table) == NumLit(table) + NumDist(table) && bits.Cur(z) <= 8 * |z.input|
      ensures 257 <= NumLit(table) <= 286 && 1 <= NumDist(table) <= 30 && MaxLen(clen) <= BMAX && |clen| == 19
      ensures Goal(z) ==
        After(z.input, LensGoal(z.input, bits.Cur(z), table, clen, blens[..], win.out), last, true, ends)
    {
      hide After, LensGoal, Goal, BlockGoal, Ring, Output.Valid, BitBuffer.Valid, ClenTree, MaxLen;
      InDtree(z);
      assert blens[..index] == blens[..];
    }

    method StartCodes(z: ZStream)
      requires Base(z) && bits.bitk <= 15 && codes != null && codes.mode == C.START && codes.Trees()
      modifies this`mode
      ensures mode == CODES && Valid(z)
      ensures Goal(z) == After(z.input, Codes(z.input, bits.Cur(z), codes.ll, codes.dl, win.out), last, true, ends)
    {
      hide Codes, After, Ring, Output.Valid, BitBuffer.Valid, LitTree, DistTree;
      mode := CODES;
    }

    /** A compressed block that is not finished ends in the last byte but one of what was taken, or later. */
    lemma EndsAhead(z: ZStream)
      requires Valid(z)
      ensures var o := Goal(z); forall i | |ends| <= i < |o.ends| :: o.ends[i] + 15 >= 8 * z.nextIn
    {
      hide Early, Pow2, LitTree, DistTree, Blocks, After, Stored, StoredBytes, Dynamic, ClensGoal, LensGoal, Ring;
      hide Output.Valid, BitBuffer.Valid, Take;
      bits.Position(z);
      if mode == CODES {
        codes.GoalGrows(z, bits, win);
      } else if mode == LENS {
        StoredLong(z.input, bits.Cur(z), win.out);
      }
    }

    /** How a call ends, and why. */
    ghost predicate Stopped(z: ZStream, r: int, r0: int)
      requires Valid(z)
      reads this, z, bits, win, win.window, hufts, blens, codes, Trees()
    {
      if r == Z_STREAM_END then mode == DONE
      else if r == Z_DATA_ERROR then Goal(z) == Corrupt(win.out, ends)
      else (r == r0 || r == Z_OK) && (Hungry(z) || Full(z, win))
    }

    /** case CODES: lets the codes machine run, and goes to the next block after it. */
    method StepCodes(z: ZStream, r0: int) returns (leave: bool, r: int)
      requires Valid(z) && mode == CODES && r0 in {Z_OK, Z_BUF_ERROR}
      modifies this`mode, this`ends, codes, bits, z`nextIn, z`availIn, z`stray, z`output, z`availOut, win, win.window
      ensures Valid(z) && Goal(z) == old(Goal(z)) && z.nextIn + z.availIn == old(z.nextIn + z.availIn)
      ensures Unfed(r, old(z.availIn), z)
      ensures ends == (if leave || last then old(ends) else old(ends) + [Cur(z)])
      ensures Strayed(ends, z.stray, old(z.stray), z.base, old(|ends|))
      ensures !leave ==> z.nextIn == ByteEnd(Cur(z))
      ensures Sent(z, old(|z.output|), old(z.availOut)) && Cur(z) >= old(Cur(z))
      ensures leave ==> Stopped(z, r, r0) && r != Z_MEM_ERROR
      ensures !leave ==> mode in {DRY, TYPE} && r == Z_OK
      ensures old(Short(z)) ==>
        leave && Short(z) && win.out == old(win.out) && (r == r0 || |z.output| > old(|z.output|))
    {
      hide *;
      Distinct();
      NoMore(ends, z.stray, z.base);
      HasParts(z);
      InCodes(z);
      r := codes.Run(z, bits, win, r0);
      codes.HasParts(z, bits, win);
      IsBase(z);
      leave := true;
      if r == Z_STREAM_END {
        CodesEnded(z, r, r0);
        CodesDone(z);
        leave, r := false, Z_OK;
        FedOrBad(r, old(z.availIn), z);
      } else {
        CodesStopped(z, r, r0);
      }
    }

    /** The end of a compressed block, a byte of which may have been handed back. */
    method CodesDone(z: ZStream)
      requires Base(z) && bits.bitk <= 7
      modifies this`mode, this`ends, z`stray
      ensures Valid(z) && mode in {DRY, TYPE} && ends == if last then old(ends) else old(ends) + [Cur(z)]
      ensures Goal(z) == After(z.input, Ended(bits.Cur(z), win.out), last, true, old(ends))
      ensures Strayed(ends, z.stray, old(z.stray), z.base, old(|ends|)) && z.nextIn == ByteEnd(Cur(z))
    {
      hide After, Ring, Output.Valid, BitBuffer.Valid;
      bits.Taken(z);
      ByteBefore(Cur(z), z.base);
      if !last { z.stray := z.stray || z.nextIn < z.base; }
      BlockDone(z, true);
      assert !last ==> ends[|old(ends)|] == Cur(z);
    }

    lemma InCodes(z: ZStream)
      requires Valid(z) && mode == CODES
      ensures codes != null && codes.Valid(z, bits, win) && codes.Few(bits)
      ensures (codes.Goal(z, bits, win).Ended? ==> codes.Goal(z, bits, win).cur <= 8 * |z.input|)
      ensures Goal(z) == After(z.input, codes.Goal(z, bits, win), last, true, ends)
      ensures Short(z) == codes.Short(z, bits)
    {
      codes.GoalGrows(z, bits, win);
    }

    lemma CodesEnded(z: ZStream, r: int, r0: int)
      requires codes != null && codes.Stopped(r, r0, z, bits, win) && r == Z_STREAM_END
      ensures bits.bitk <= 7 && codes.Goal(z, bits, win) == Ended(bits.Cur(z), win.out) && !codes.Short(z, bits)
    {
    }

    lemma CodesStopped(z: ZStream, r: int, r0: int)
      requires Base(z) && mode == CODES && codes != null && codes.Valid(z, bits, win) && r != Z_STREAM_END
      requires r0 in {Z_OK, Z_BUF_ERROR} && codes.Stopped(r, r0, z, bits, win)
      ensures Valid(z) && Stopped(z, r, r0) && Goal(z) == After(z.input, codes.Goal(z, bits, win), last, true, ends)
      ensures Short(z) == codes.Short(z, bits) && r != Z_MEM_ERROR
    {
      hide C.CodesState.Trees, LitTree, DistTree, Blocks, After, Tidy, TidyBlock, Ring, Output.Valid;
      hide BitBuffer.Valid;
      codes.GoalGrows(z, bits, win);
      hide C.CodesState.Valid;
      if r == Z_DATA_ERROR {
        AfterBlock(z.input, bits.Cur(z), win.out, last, true, ends);
      } else {
        TidyAfter(z.input, z.nextIn, codes.Goal(z, bits, win), last, true, ends);
      }
    }

    /** States in order of what they lead to without reading input. */
    ghost function Rank(): nat
      reads this`mode
    {
      match mode
      case BTREE => 4
      case DTREE => 3
      case CODES => 2
      case TYPE => 1
      case DRY => 1
      case _ => 0
    }

    /** The states that read headers. */
    ghost predicate Header()
      reads this`mode
    {
      mode in {TYPE, LENS, TABLE, BTREE, DTREE}
    }

    lemma RankThen()
      ensures (mode == CODES ==> Rank() == 2) && (mode in {TYPE, DRY} ==> Rank() == 1)
    {
    }

    lemma HeaderModes()
      ensures Header() <==> mode in {TYPE, LENS, TABLE, BTREE, DTREE}
    {
    }

    /** One turn of the switch, in a header. */
    method StepHeader(z: ZStream, r0: int) returns (leave: bool, r: int)
      requires Valid(z) && r0 in {Z_OK, Z_BUF_ERROR} && Header()
      modifies this, bits, z`nextIn, z`availIn, hufts, blens
      ensures r == Z_MEM_ERROR ==> leave && Base(z) && old(Goal(z)) == Corrupt(win.out, ends)
      ensures r != Z_MEM_ERROR ==> Valid(z) && Goal(z) == old(Goal(z))
      ensures z.nextIn + z.availIn == old(z.nextIn + z.availIn)
      ensures Unfed(r, old(z.availIn), z) && ends == old(ends)
      ensures (codes == old(codes) || fresh(codes)) && (blens == old(blens) || fresh(blens))
      ensures leave && r != Z_MEM_ERROR ==> Stopped(z, r, r0)
      ensures !leave ==> r in {r0, Z_OK} && Cur(z) >= old(Cur(z)) && (Cur(z) == old(Cur(z)) ==> Rank() < old(Rank()))
      ensures old(Short(z)) ==> leave && r != Z_MEM_ERROR && Short(z) && r == r0
    {
      hide BlockGoal, ModeOK, Few, Ring, Output.Valid, BitBuffer.Valid, C.CodesState.Valid, CodeLength, Tidy;
      hide Blocks, After;
      match mode
      case TYPE => leave, r := StepType(z, r0);
      case LENS => leave, r := StepLens(z, r0);
      case TABLE => leave, r := StepTable(z, r0);
      case BTREE => leave, r := StepBtree(z, r0);
      case DTREE => leave, r := StepDtree(z, r0);
    }

    /** One turn of the switch, when all blocks are done or the stream was found bad. */
    method StepEnd(z: ZStream, r0: int) returns (leave: bool, r: int)
      requires Valid(z) && mode in {DRY, DONE, BAD} && r0 in {Z_OK, Z_BUF_ERROR}
      modifies this`mode, win`read, win`write, z`output, z`availOut
      ensures Valid(z) && Goal(z) == old(Goal(z)) && r != Z_MEM_ERROR
      ensures Sent(z, old(|z.output|), old(z.availOut)) && Unfed(r, old(z.availIn), z)
      ensures if leave then Stopped(z, r, r0) else r in {r0, Z_OK} && Rank() < old(Rank())
    {
      hide BlockGoal, ModeOK, Few, Ring, Output.Valid, BitBuffer.Valid, CodeLength, Tidy;
      match mode
      case DRY => leave, r := StepDry(z, r0);
      case DONE => leave, r := true, Z_STREAM_END;
      case BAD => leave, r := true, Z_DATA_ERROR;
    }

    lemma NeverShort(z: ZStream)
      requires Valid(z) && mode in {DRY, DONE, BAD}
      ensures !Short(z)
    {
    }

    /** One turn of the switch. */
    method Step(z: ZStream, r0: int) returns (leave: bool, r: int)
      requires Valid(z) && r0 in {Z_OK, Z_BUF_ERROR}
      modifies this, bits, z`nextIn, z`availIn, z`stray, z`output, z`availOut, win, win.window, hufts, blens, codes
      ensures r == Z_MEM_ERROR ==> leave && Base(z) && old(Goal(z)) == Corrupt(win.out, ends)
      ensures r != Z_MEM_ERROR ==> Valid(z) && Goal(z) == old(Goal(z))
      ensures z.nextIn + z.availIn == old(z.nextIn + z.availIn) && Sent(z, old(|z.output|), old(z.availOut))
      ensures Unfed(r, old(z.availIn), z)
      ensures old(ends) <= ends && Strayed(ends, z.stray, old(z.stray), z.base, old(|ends|))
      ensures (codes == old(codes) || fresh(codes)) && (blens == old(blens) || fresh(blens))
      ensures leave && r != Z_MEM_ERROR ==> Stopped(z, r, r0)
      ensures !leave ==> r in {r0, Z_OK} && Cur(z) >= old(Cur(z)) && (Cur(z) == old(Cur(z)) ==> Rank() < old(Rank()))
      ensures old(Short(z)) ==>
        leave && r != Z_MEM_ERROR && Short(z) && win.out == old(win.out) && (r == r0 || |z.output| > old(|z.output|))
    {
      hide *;
      Distinct();
      NoneSent(z);
      HeaderModes();
      RankThen();
      NoMore(ends, z.stray, z.base);
      match mode
      case STORED => leave, r := StepStored(z, r0);
      case CODES => leave, r := StepCodes(z, r0); RankThen();
      case DRY | DONE | BAD => NeverShort(z); leave, r := StepEnd(z, r0);
      case _ => leave, r := StepHeader(z, r0);
    }

    /** LEAVE: the status, with what is pending delivered. */
    method Leave(z: ZStream, r0: int, ghost r00: int) returns (r: int)
      requires Valid(z) && Stopped(z, r0, r00)
      modifies win`read, win`write, z`output, z`availOut
      ensures Valid(z) && Stopped(z, r, r00) && Drained(z, win) && Goal(z) == old(Goal(z))
      ensures Sent(z, old(|z.output|), old(z.availOut)) && Short(z) == old(Short(z))
      ensures r == r0 || (r0 == Z_BUF_ERROR && r == Z_OK && |z.output| > old(|z.output|))
    {
      hide Blocks, After, Tidy, Ring, Output.Valid, BitBuffer.Valid, CodeLength, ClenTree, LengthsOK, TableOK, Take;
      hide Stored, StoredBytes, Dynamic, ClensGoal, LensGoal, C.CodesState.Goal, C.CodesState.ModeOK;
      hide C.CodesState.Trees;
      r := win.Flush(z, r0);
    }

    /** inflate_blocks: until input or room runs out, the stream ends or is found bad.  What the
        reference decoder makes of the whole stream is the same after the call as before.
        Z_MEM_ERROR, after which the state is of no further use, comes only for bad streams. */
    method Run(z: ZStream, r0: int) returns (r: int)
      requires Valid(z) && r0 in {Z_OK, Z_BUF_ERROR}
      modifies this, bits, z`nextIn, z`availIn, z`stray, z`output, z`availOut, win, win.window, hufts, blens, codes
      ensures r == Z_MEM_ERROR ==> Base(z) && old(Goal(z)) == Corrupt(win.out, ends)
      ensures r != Z_MEM_ERROR ==> Valid(z) && Goal(z) == old(Goal(z)) && Stopped(z, r, r0)
      ensures z.nextIn + z.availIn == old(z.nextIn + z.availIn) && Sent(z, old(|z.output|), old(z.availOut))
      ensures Unfed(r, old(z.availIn), z)
      ensures old(ends) <= ends && Strayed(ends, z.stray, old(z.stray), z.base, old(|ends|))
      ensures Drained(z, win)
      ensures (codes == old(codes) || fresh(codes)) && (blens == old(blens) || fresh(blens))
      ensures old(Short(z)) ==>
        r != Z_MEM_ERROR && Short(z) && win.out == old(win.out) && (r == r0 || |z.output| > old(|z.output|))
    {
      hide Pow2, Base, Goal, BlockGoal, Short, Hungry, Valid, Ring, Output.Valid, BitBuffer.Valid, Tidy, Full, Rank;
      r := r0;
      var leave := false;
      while !leave
        invariant r == Z_MEM_ERROR ==> leave && Base(z) && old(Goal(z)) == Corrupt(win.out, ends)
        invariant r != Z_MEM_ERROR ==> Valid(z) && Goal(z) == old(Goal(z))
        invariant z.nextIn + z.availIn == old(z.nextIn + z.availIn) && Sent(z, old(|z.output|), old(z.availOut))
        invariant (codes == old(codes) || fresh(codes)) && (blens == old(blens) || fresh(blens))
        invariant !leave ==> r in {r0, Z_OK} && Cur(z) >= old(Cur(z))
        invariant leave && r != Z_MEM_ERROR ==> Stopped(z, r, r0)
        invariant Unfed(r, old(z.availIn), z) && old(ends) <= ends
        invariant Strayed(ends, z.stray, old(z.stray), z.base, old(|ends|))
        invariant old(Short(z)) ==>
          r != Z_MEM_ERROR && Short(z) && win.out == old(win.out) && (r == r0 || |z.output| > old(|z.output|))
        decreases !leave, 8 * |z.input| - Cur(z), Rank()
      {
        leave, r := Step(z, r);
        if !leave { InRange(z); }
      }
      if r == Z_MEM_ERROR {
        r := FlushOnly(z, r);
      } else {
        r := Leave(z, r, r0);
      }
    }

    lemma InRange(z: ZStream)
      requires Valid(z)
      ensures Cur(z) <= 8 * |z.input|
    {
    }

    method FlushOnly(z: ZStream, r0: int) returns (r: int)
      requires Base(z) && r0 == Z_MEM_ERROR
      modifies win`read, win`write, z`output, z`availOut
      ensures Base(z) && r == r0 && Drained(z, win) && win.out == old(win.out)
      ensures Sent(z, old(|z.output|), old(z.availOut))
    {
      hide Ring, BitBuffer.Valid;
      r := win.Flush(z, r0);
    }

    /** inflate_blocks_reset */
    method Reset()
      modifies this`mode, bits, win`read, win`write
      ensures mode == TYPE && bits.bitk == bits.bitb == 0 && win.read == win.write == 0
    {
      mode := TYPE;
      bits.bitk, bits.bitb := 0, 0;
      win.read, win.write := 0, 0;
    }
  }

  /** A byte from before the caller's buffer, which starts at `base`, is handed back, and another block begun, exactly
      when one of the compressed blocks from the `k`-th on that are done ends a byte or more before the buffer. */
  ghost predicate Strayed(ends: seq<nat>, now: bool, before: bool, base: nat, k: nat)
    ensures Strayed(ends, now, before, base, k) && before ==> now
  {
    now <==> before || exists i :: k <= i < |ends| && ends[i] + 8 <= 8 * base
  }

  lemma NoMore(ends: seq<nat>, stray: bool, base: nat)
    ensures Strayed(ends, stray, stray, base, |ends|)
  {
  }

  /** After two stretches, if the first was empty or no block done in the second ends before the second's buffer. */
  lemma StrayedAlong(ends: seq<nat>, ends': seq<nat>, before: bool, mid: bool, now: bool, from: nat, from': nat, k: nat)
    requires k <= |ends| && ends <= ends'
    requires Strayed(ends, mid, before, from, k) && Strayed(ends', now, mid, from', |ends|)
    requires (from == from' && k == |ends|) ||
      (from <= from' && forall i | |ends| <= i < |ends'| :: ends'[i] + 8 > 8 * from')
    ensures Strayed(ends', now, before, from, k)
  {
  }

  lemma BodyKinds(inp: seq<byte>, cur: nat, kind: nat, out: seq<byte>)
    requires kind <= 3
    ensures kind == 0 ==> BlockBody(inp, cur, kind, out) == Stored(inp, Align(cur), out)
    ensures kind == 1 ==>
      LitLens(FixedLit()) && DistLens(FixedDist()) &&
      BlockBody(inp, cur, kind, out) == Codes(inp, cur, FixedLit(), FixedDist(), out)
    ensures kind == 2 ==> BlockBody(inp, cur, kind, out) == Dynamic(inp, cur, out)
    ensures kind == 3 ==> BlockBody(inp, cur, kind, out) == BadData(out)
  {
    hide Stored, Codes, Dynamic, FixedLit, FixedDist;
    FixedBounds();
  }

  lemma FixedBounds()
    ensures LitLens(FixedLit()) && DistLens(FixedDist())
  {
    BoundedMax(FixedLit(), 9);
    BoundedMax(FixedDist(), 5);
  }

  /** Dropping the odd bits goes to the byte boundary. */
  lemma AlignCur(k: nat, n: nat)
    requires k <= 8 * n
    ensures Align(8 * n - k) == 8 * n - k + k % 8 && (8 * n - k + k % 8) % 8 == 0 && (k - k % 8) % 8 == 0
  {
  }

  /** inflate_codes_new for the fixed trees. */
  method FixedState() returns (c: C.CodesState)
    ensures LitLens(FixedLit()) && DistLens(FixedDist())
    ensures fresh(c) && c.mode == C.START && c.Trees() && c.ll == FixedLit() && c.dl == FixedDist()
    ensures fresh(c.ltab) && fresh(c.dtab)
  {
    FixedBounds();
    var bl, bd, lt, tl, dt, td;
    ghost var ltr, dtr;
    bl, bd, lt, tl, dt, td, ltr, dtr := TreesFixed();
    c := new C.CodesState(bl, bd, lt, tl, dt, td, FixedLit(), FixedDist(), ltr, dtr);
  }
}
