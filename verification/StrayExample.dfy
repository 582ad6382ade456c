/** A state in which inflate has stopped for room, and from which it hands back a byte that is in the caller's buffer
    no more: next_in ends up in front of the buffer. */
module StrayExample {
  import opened Bits
  import opened Status
  import opened Huffman
  import opened HuftBuild
  import opened HuftLengths
  import opened Reference
  import opened Window
  import opened BitReader
  import opened OutWindow
  import opened CodesTrees
  import opened CodesMeaning
  import opened InflateTrees
  import B = InflateBlocks
  import C = InflateCodes

  /** Byte 0 and the end of the block have two bits, the code is full, and up to nine bits are looked at. */
  function Lengths(): seq<nat> {
    Repeat(2, 1) + Repeat(9, 254) + Repeat(8, 1) + Repeat(2, 1)
  }

  /** Byte 0 and the end of the block, in four bits. */
  const INPUT: seq<byte> := [8, 0, 0]

  lemma InputSize()
    ensures |INPUT| == 3
  {
  }

  lemma FullCode()
    ensures LengthsOK(Lengths()) && Kraft(Lengths()) == Pow2(BMAX)
  {
    var a := Repeat(2, 1);
    var b := a + Repeat(9, 254);
    hide Repeat, Kraft, Pow2, LengthsOK;
    KraftOf(2, 1);
    KraftRepeat(a, 9, 254);
    KraftRepeat(b, 8, 1);
    KraftRepeat(b + Repeat(8, 1), 2, 1);
    Powers();
    Pow2Add(7, 6);
  }

  lemma NoDistances()
    ensures MaxLen([0]) == 0 && Kraft([0]) == 0
  {
    assert [0][..0] == [];
    assert Kraft([]) == 0 && MaxLen([]) == 0;
  }

  lemma Accepted()
    ensures |Lengths()| == 257 && LengthsOK(Lengths() + [0]) && Usable(Lengths(), [0])
  {
    hide Pow2;
    FullCode();
    NoDistances();
    BoundedMax(Lengths(), 9);
    assert Lengths()[0] == 2;
    hide Kraft, MaxLen;
    Pow2Mono(0, BMAX);
  }

  lemma {:induction false} CountOne(b: seq<nat>, len: nat, s: nat)
    requires s < |b| && b[s] == len && forall i | 0 <= i < |b| && i != s :: b[i] != len
    ensures Count(b, len) == 1
  {
    var last := |b| - 1;
    if s == last { CountAbsent(b[..last], len); } else { CountOne(b[..last], len, s); }
  }

  /** The end of the block stands next, in two bits. */
  lemma EndNext()
    ensures MaxLen(Lengths()) <= BMAX && Decode(INPUT, 2, Lengths()) == Sym(256, 2)
  {
    var b := Lengths();
    BoundedMax(b, 9);
    CountAbsent(b, 1);
    CountOne(b[..256], 2, 0);
    assert FirstCode(Counts(b), 2) == 0;
    EndBits();
    hide Count, MaxLen;
    DecodeIsCode(INPUT, 2, b, 256, 2);
  }

  lemma EndBits()
    ensures Msb(INPUT, 2, 2) == 1
  {
    assert Bit(INPUT, 2) == 0 && Bit(INPUT, 3) == 1;
    assert Take(INPUT, 4, 0) == 0;
    assert Take(INPUT, 3, 1) == 1;
    assert Take(INPUT, 2, 2) == 2;
    assert Rev(2, 2) == 1;
  }

  /** What the reference decoder makes of the rest: byte 0, then the block ends after four bits. */
  lemma RestOfBlock(out: seq<byte>)
    ensures LitLens(Lengths()) && DistLens([0])
    ensures Codes(INPUT, 2, Lengths(), [0], out + [0]) == Ended(4, out + [0])
  {
    NoDistances();
    EndNext();
    hide MaxLen, Decode;
    CodesSym(INPUT, 2, Lengths(), [0], out + [0], 256, 2);
  }

  /** The machine as it stands when byte 0 was looked up with 16 bits in hand, the last of the buffer, and neither the
      window nor the caller had room for it. */
  method FullWindow() returns (z: ZStream, s: B.BlocksState)
    ensures fresh(z) && fresh(s) && fresh(s.bits) && fresh(s.win) && fresh(s.win.window) && s.codes != null &&
      fresh(s.codes)
    ensures s.Valid(z) && s.mode == B.CODES && s.codes.mode == C.LIT && !s.last && s.ends == []
    ensures s.bits.bitk == 14 && z.nextIn == 2 && z.availIn == 0 && z.base == 0 && !z.stray
    ensures z.availOut == 0 && |s.win.out| == |z.output| + WSIZE && z.input == INPUT
    ensures s.Goal(z) == Blocks(INPUT, 4, s.win.out + [0], [4])
  {
    hide *;
    z := new ZStream(INPUT);
    s := new B.BlocksState(z);
    HasParts(z, s);
    AddTrees(s);
    FillWindow(z, s);
    Stop(z, s);
    GoalIs(z, s);
  }

  lemma HasParts(z: ZStream, s: B.BlocksState)
    requires s.Valid(z)
    ensures s.hufts.Length == MANY && s.win.Valid(z)
  {
    hide Ring;
  }

  method AddTrees(s: B.BlocksState)
    requires s.hufts.Length == MANY
    modifies s`codes, s.hufts
    ensures s.codes != null && fresh(s.codes) && s.codes.Trees() && s.codes.ltab == s.codes.dtab == s.hufts
    ensures s.codes.ll == Lengths() && s.codes.dl == [0]
  {
    hide *;
    Accepted();
    var lens := Lengths() + [0];
    assert lens[..257] == Lengths() && lens[257..] == [0];
    var r, bl, bd, tl, td;
    ghost var ltr, dtr;
    r, bl, bd, tl, td, ltr, dtr := TreesDynamic(257, 1, lens, s.hufts);
    s.codes := new C.CodesState(bl, bd, s.hufts, tl, s.hufts, td, Lengths(), [0], ltr, dtr);
  }

  method FillWindow(z: ZStream, s: B.BlocksState)
    requires s.win.Valid(z) && s.win.read == s.win.write == 0 && z.output == []
    modifies s.win`write, s.win`out, s.win.window
    ensures s.win.Valid(z) && |s.win.out| == |old(s.win.out)| + WSIZE
  {
    hide Ring;
    s.win.PutAll(z, Repeat(0, WSIZE));
  }

  method Stop(z: ZStream, s: B.BlocksState)
    requires z.input == INPUT && z.nextIn == z.availIn == 0
    requires s.win.Valid(z) && s.codes != null && s.codes.Trees() && s.hufts.Length == MANY
    modifies z`nextIn, s`mode, s`last, s.bits, s.codes`mode, s.codes`lit
    ensures s.Valid(z) && s.mode == B.CODES && s.codes.mode == C.LIT && s.codes.lit == 0
    ensures !s.last && s.bits.bitk == 14 && z.nextIn == 2 && s.bits.Cur(z) == 2
  {
    hide *;
    InputSize();
    s.mode, s.last, s.codes.mode, s.codes.lit := B.CODES, false, C.LIT, 0;
    z.nextIn := 2;
    s.bits.bitb, s.bits.bitk, s.bits.held := Take(INPUT, 2, 14), 14, 14;
    HasStopped(z, s);
  }

  lemma HasStopped(z: ZStream, s: B.BlocksState)
    requires z.input == INPUT && z.nextIn == 2 && z.availIn == 0
    requires s.bits.bitk == s.bits.held == 14 && s.bits.bitb == Take(INPUT, 2, 14)
    requires s.win.Valid(z) && s.codes != null && s.codes.Trees() && s.hufts.Length == MANY
    requires s.mode == B.CODES && s.codes.mode == C.LIT && s.codes.lit == 0
    ensures s.Valid(z) && s.bits.Cur(z) == 2
  {
    hide LitTree, DistTree, Ring, Take, Output.Valid;
  }

  lemma GoalIs(z: ZStream, s: B.BlocksState)
    requires s.Valid(z) && z.input == INPUT && s.bits.Cur(z) == 2
    requires s.mode == B.CODES && s.codes.mode == C.LIT && s.codes.lit == 0 && !s.last && s.ends == []
    requires s.codes.ll == Lengths() && s.codes.dl == [0]
    ensures s.Goal(z) == Blocks(INPUT, 4, s.win.out + [0], [4])
  {
    hide Blocks, Codes, BitBuffer.Valid, Output.Valid, LitTree, DistTree;
    RestOfBlock(s.win.out);
    s.InCodes(z);
    AfterIt(s.win.out + [0]);
  }

  lemma AfterIt(out: seq<byte>)
    ensures After(INPUT, Ended(4, out), false, true, []) == Blocks(INPUT, 4, out, [4])
  {
    hide Blocks;
    assert [] + [4] == [4];
  }

  /** Nothing can be made of the bits behind the block. */
  lemma NoMoreBlocks(out: seq<byte>)
    ensures Blocks(INPUT, 4, out, [4]) == Starved(out, [4])
  {
    assert Bit(INPUT, 4) == 0 && Bit(INPUT, 5) == 0 && Bit(INPUT, 6) == 0;
    assert Take(INPUT, 5, 0) == 0 && Take(INPUT, 7, 0) == 0;
    assert Take(INPUT, 4, 1) == 0 && Take(INPUT, 6, 1) == 0;
    assert Take(INPUT, 5, 2) == 0;
    assert Align(7) == 8;
  }

  /** The caller takes the window's bytes and refills its buffer: the block comes to its end, and the decoder strays. */
  method Straying() returns (z: ZStream, s: B.BlocksState)
    ensures s.Valid(z) && z.stray && z.nextIn + 1 == z.base && s.ends == [4]
  {
    hide *;
    z, s := FullWindow();
    GoOn(z, s);
  }

  method GoOn(z: ZStream, s: B.BlocksState)
    requires s.Valid(z) && s.mode == B.CODES && !s.last && s.ends == [] && z.input == INPUT
    requires z.nextIn == 2 && z.availIn == 0 && !z.stray && |s.win.out| == |z.output| + WSIZE
    requires s.Goal(z) == Blocks(INPUT, 4, s.win.out + [0], [4])
    modifies z, s, s.codes, s.bits, s.win, s.win.window
    ensures s.Valid(z) && z.stray && z.nextIn + 1 == z.base && s.ends == [4]
  {
    hide *;
    InputSize();
    NoMoreBlocks(s.win.out + [0]);
    ghost var out, sent := s.win.out + [0], |z.output|;
    s.Supply(z, 1, 2 * WSIZE, 2);
    var leave, r := s.StepCodes(z, Z_OK);
    GoesOn(z, s, leave, r, out, sent);
    Strays(z, s, out);
  }

  /** The call does not end before the block does. */
  lemma GoesOn(z: ZStream, s: B.BlocksState, leave: bool, r: int, out: seq<byte>, sent: nat)
    requires s.Valid(z) && s.Goal(z) == Starved(out, [4]) && |out| == sent + WSIZE + 1
    requires leave ==> s.Stopped(z, r, Z_OK) && s.ends == []
    requires Sent(z, sent, 2 * WSIZE) && z.nextIn + z.availIn == 3
    ensures !leave
  {
    hide LitTree, DistTree, Ring, BitBuffer.Valid, C.CodesState.Valid, Blocks, After, B.BlocksState.BlockGoal;
    assert s.Goal(z).ends[0] == 4;
    assert z.output == s.win.out[..|z.output|];
  }

  lemma Strays(z: ZStream, s: B.BlocksState, out: seq<byte>)
    requires s.Valid(z) && s.Goal(z) == Starved(out, [4]) && s.ends == [s.Cur(z)]
    requires B.Strayed(s.ends, z.stray, false, 2, 0) && z.nextIn == ByteEnd(s.Cur(z))
    ensures z.stray && z.nextIn == 1 && s.ends == [4]
  {
    hide B.BlocksState.Valid, B.BlocksState.Goal, Blocks, After;
    assert s.ends[0] == s.Goal(z).ends[0];
  }
}
