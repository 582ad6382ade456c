/** inflate, for raw streams: what the caller sees, whatever way input and output come in pieces. */
module InflateStream {
  import opened Bits
  import opened Status
  import opened Reference
  import opened BitReader
  import opened OutWindow
  import opened CodesMeaning
  import B = InflateBlocks

  /** No compressed block from the `k`-th on, the last one left out, ends a byte or more before byte `n`. */
  ghost predicate Beyond(inp: seq<byte>, k: nat, n: nat) {
    var o := Reference.Inflate(inp);
    forall i | k <= i < |o.ends| :: o.ends[i] + 8 > 8 * n
  }

  datatype InflateMode = BLOCKS | DONE | BAD

  /** internal_state, with nowrap set */
  class InflateState {
    var mode: InflateMode
    const blocks: B.BlocksState

    ghost function Parts(): set<object>
      reads blocks
    {
      {blocks, blocks.bits, blocks.win, blocks.win.window, blocks.hufts, blocks.blens}
    }

    /** What has been delivered is what the reference decoder makes of the input, as far as it goes. */
    ghost predicate Valid(z: ZStream)
      reads this, z, blocks, Parts(), blocks.codes, blocks.Trees()
    {
      var o := Reference.Inflate(z.input);
      match mode
      case BLOCKS => blocks.Valid(z) && blocks.Goal(z) == o
      case DONE => o.Finished? && o.out == z.output && o.ends == blocks.ends && z.nextIn == ByteEnd(o.end)
      case BAD => o.Corrupt? && o.ends == blocks.ends && z.output <= o.out
    }

    /** inflateInit2 */
    constructor (z: ZStream)
      requires z.nextIn == 0 && z.output == [] && z.availIn <= |z.input|
      ensures Valid(z) && mode == BLOCKS && fresh(blocks) && fresh(Parts()) && blocks.codes == null
    {
      hide Reference.Inflate, Blocks, BitBuffer.Valid, Output.Valid, B.BlocksState.ModeOK, B.BlocksState.BlockGoal;
      mode := BLOCKS;
      blocks := new B.BlocksState(z);
      new;
    }

    /** A block that is not finished ends in the last byte but one of what was taken, or later. */
    lemma EndsAhead(z: ZStream)
      requires Valid(z)
      ensures var o := Reference.Inflate(z.input);
        blocks.ends <= o.ends && forall i | |blocks.ends| <= i < |o.ends| :: o.ends[i] + 15 >= 8 * z.nextIn
    {
      hide Reference.Inflate, BitBuffer.Valid;
      if mode == BLOCKS { blocks.EndsAhead(z); }
    }

    lemma NothingAhead(z: ZStream, n: nat)
      requires Valid(z) && mode != BLOCKS
      ensures Beyond(z.input, |blocks.ends|, n)
    {
    }

    /** Nothing is pending, and nothing more can be decoded without input. */
    ghost predicate Stalled(z: ZStream)
      requires Valid(z)
      reads this, z, blocks, Parts(), blocks.codes, blocks.Trees()
    {
      mode == BLOCKS && blocks.Short(z) && blocks.win.read == blocks.win.write
    }

    /** Why a call came back before the end: the room is used up and there is more to deliver, or nothing more can be
        decoded without input, and no block and not the stream ends a byte or more before what was taken. */
    ghost predicate Waiting(z: ZStream)
      requires Valid(z)
      reads this, z, blocks, Parts(), blocks.codes, blocks.Trees()
    {
      var o := Reference.Inflate(z.input);
      || (z.availOut == 0 && |z.output| < |o.out|)
      || (z.availIn == 0 && Stalled(z) && Beyond(z.input, |blocks.ends|, z.nextIn)
          && (z.nextIn == |z.input| ==> !Tidy(z.input, o)))
    }

    lemma Delivered(z: ZStream)
      requires Valid(z)
      ensures z.output <= Reference.Inflate(z.input).out
      ensures mode == BLOCKS && blocks.win.read != blocks.win.write ==> |z.output| < |Reference.Inflate(z.input).out|
    {
      hide Reference.Inflate, B.BlocksState.ModeOK, B.BlocksState.BlockGoal, BitBuffer.Valid;
      if mode == BLOCKS {
        PrefixOf(z.output, blocks.win.out, blocks.Goal(z).out);
      }
    }

    /** The caller makes more input known, in a buffer that starts at `base`, and says how much room there is. */
    method Supply(z: ZStream, known: nat, room: nat, ghost base: nat)
      requires Valid(z) && z.nextIn + z.availIn + known <= |z.input|
      modifies z`availIn, z`availOut, z`base
      ensures Valid(z) && z.availIn == old(z.availIn) + known && z.availOut == room && z.base == base
    {
      hide Reference.Inflate, B.BlocksState.Valid, B.BlocksState.Goal;
      if mode == BLOCKS {
        blocks.Supply(z, known, room, base);
      } else {
        z.Supply(known, room, base);
      }
    }

    /** inflate: with `finish` set, a call that makes progress but does not end the stream counts as an
        error. */
    method Inflate(z: ZStream, finish: bool) returns (r: int)
      requires Valid(z)
      modifies this, z`nextIn, z`availIn, z`stray, z`output, z`availOut, blocks, Parts(), blocks.codes
      ensures r != Z_MEM_ERROR ==> Valid(z)
      ensures z.nextIn + z.availIn == old(z.nextIn + z.availIn) && Sent(z, old(|z.output|), old(z.availOut))
      ensures old(z.output) <= z.output <= Reference.Inflate(z.input).out
      ensures r in {Z_OK, Z_BUF_ERROR, Z_STREAM_END, Z_DATA_ERROR, Z_MEM_ERROR}
      ensures r == Z_STREAM_END <==> mode == DONE
      ensures r == Z_STREAM_END ==>
        var o := Reference.Inflate(z.input); o.Finished? && z.output == o.out && z.nextIn == ByteEnd(o.end)
      ensures (r == Z_DATA_ERROR <==> mode == BAD) && (r == Z_DATA_ERROR ==> Reference.Inflate(z.input).Corrupt?)
      ensures r == Z_MEM_ERROR ==> Reference.Inflate(z.input).Corrupt?
      ensures r in {Z_OK, Z_BUF_ERROR} ==> Waiting(z)
      ensures !finish ==> Unfed(r, old(z.availIn), z)
      ensures old(blocks.ends) <= blocks.ends <= Reference.Inflate(z.input).ends
      ensures B.Strayed(blocks.ends, z.stray, old(z.stray), z.base, old(|blocks.ends|))
      ensures old(Stalled(z)) ==> r == Z_BUF_ERROR && Stalled(z) && z.output == old(z.output)
      ensures blocks.codes == old(blocks.codes) || fresh(blocks.codes)
      ensures blocks.blens == old(blocks.blens) || fresh(blocks.blens)
    {
      hide Reference.Inflate, B.BlocksState.Valid, B.BlocksState.Goal, B.BlocksState.Short, B.Strayed, Waiting;
      var f := if finish then Z_BUF_ERROR else Z_OK;
      r := Z_BUF_ERROR;
      B.NoMore(blocks.ends, z.stray, z.base);
      if mode == BLOCKS {
        r := RunBlocks(z, r);
        if r == Z_DATA_ERROR {
          mode := BAD;
        } else {
          if r == Z_OK { r := f; }
          if r != Z_STREAM_END {
            return;
          }
          blocks.Reset();
          mode := DONE;
        }
      }
      r := if mode == DONE then Z_STREAM_END else Z_DATA_ERROR;
    }

    method RunBlocks(z: ZStream, r0: int) returns (r: int)
      requires Valid(z) && mode == BLOCKS && r0 == Z_BUF_ERROR
      modifies z`nextIn, z`availIn, z`stray, z`output, z`availOut, blocks, Parts(), blocks.codes
      ensures r in {Z_OK, Z_BUF_ERROR, Z_STREAM_END, Z_DATA_ERROR, Z_MEM_ERROR}
      ensures r != Z_MEM_ERROR ==> Valid(z)
      ensures z.nextIn + z.availIn == old(z.nextIn + z.availIn) && Sent(z, old(|z.output|), old(z.availOut))
      ensures old(z.output) <= z.output <= Reference.Inflate(z.input).out
      ensures r == Z_STREAM_END ==> var o := Reference.Inflate(z.input);
        o.Finished? && z.output == o.out && blocks.ends == o.ends && z.nextIn == ByteEnd(o.end)
      ensures r == Z_DATA_ERROR ==> Reference.Inflate(z.input) == Corrupt(blocks.win.out, blocks.ends)
      ensures r == Z_MEM_ERROR ==> Reference.Inflate(z.input).Corrupt?
      ensures r in {Z_OK, Z_BUF_ERROR} ==> Waiting(z)
      ensures Unfed(r, old(z.availIn), z)
      ensures old(blocks.ends) <= blocks.ends <= Reference.Inflate(z.input).ends
      ensures B.Strayed(blocks.ends, z.stray, old(z.stray), z.base, old(|blocks.ends|))
      ensures old(Stalled(z)) ==> r == Z_BUF_ERROR && Stalled(z) && z.output == old(z.output)
      ensures blocks.codes == old(blocks.codes) || fresh(blocks.codes)
      ensures blocks.blens == old(blocks.blens) || fresh(blocks.blens)
    {
      hide Reference.Inflate, B.BlocksState.ModeOK, B.BlocksState.BlockGoal, B.BlocksState.Goal, B.BlocksState.Few;
      hide B.BlocksState.Wanted, B.Strayed, BitBuffer.Valid, Waiting;
      r := blocks.Run(z, r0);
      if r in {Z_OK, Z_BUF_ERROR} { StoppedShort(z); }
      if r == Z_STREAM_END { AtEnd(z); }
    }

    lemma StoppedShort(z: ZStream)
      requires Valid(z) && mode == BLOCKS && Drained(z, blocks.win)
      requires blocks.Hungry(z) || Full(z, blocks.win)
      ensures Waiting(z)
    {
      hide Reference.Inflate, B.BlocksState.ModeOK, B.BlocksState.BlockGoal, B.BlocksState.Goal;
      hide B.BlocksState.Wanted, BitBuffer.Valid, Tidy;
      if blocks.Hungry(z) {
        hide Early;
        NotEarly(z.input, z.nextIn, |blocks.ends|, Reference.Inflate(z.input));
      }
    }

    lemma AtEnd(z: ZStream)
      requires blocks.Valid(z) && blocks.mode == B.DONE
      ensures z.nextIn == ByteEnd(blocks.bits.Cur(z))
      ensures blocks.Goal(z) == Finished(z.output, blocks.bits.Cur(z), blocks.ends)
    {
      assert z.output == blocks.win.out;
    }
  }

  /** Before a call, the caller makes `known` more bytes of input known and `room` more bytes of room. */
  datatype Feed = Feed(known: nat, room: nat)

  function Known(feeds: seq<Feed>): nat {
    if feeds == [] then 0 else Known(feeds[..|feeds| - 1]) + feeds[|feeds| - 1].known
  }

  function Given(feeds: seq<Feed>): nat {
    if feeds == [] then 0 else Given(feeds[..|feeds| - 1]) + feeds[|feeds| - 1].room
  }

  lemma FeedSnoc(feeds: seq<Feed>, i: nat)
    requires i < |feeds|
    ensures Known(feeds[..i + 1]) == Known(feeds[..i]) + feeds[i].known
    ensures Given(feeds[..i + 1]) == Given(feeds[..i]) + feeds[i].room
  {
    assert feeds[..i + 1][..i] == feeds[..i];
  }

  /** Any caller: however input and room are dealt out over the calls, what is delivered is a prefix of
      what the reference decoder makes of the input, all of it at the end of the stream, and an error
      is reported only for bad input.  Given a byte after the stream, and enough room, the end is
      reached. */
  method AnyCaller(input: seq<byte>, feeds: seq<Feed>, finish: bool) returns (output: seq<byte>, r: int)
    ensures output <= Reference.Inflate(input).out
    ensures r == Z_STREAM_END ==> Reference.Inflate(input).Finished? && output == Reference.Inflate(input).out
    ensures r in {Z_DATA_ERROR, Z_MEM_ERROR} ==> Reference.Inflate(input).Corrupt?
    ensures feeds != [] && Tidy(input, Reference.Inflate(input))
            && Known(feeds) >= |input| && Given(feeds) >= |Reference.Inflate(input).out| ==>
      r == Z_STREAM_END
  {
    hide Reference.Inflate, InflateState.Valid, InflateState.Stalled, BitBuffer.Cur;
    var z := new ZStream(input);
    var s := new InflateState(z);
    r := Z_OK;
    var i := 0;
    while i < |feeds| && r in {Z_OK, Z_BUF_ERROR}
      invariant 0 <= i <= |feeds| && z.input == input
      invariant fresh(z) && fresh(s) && fresh(s.blocks) && fresh(s.Parts()) &&
        (s.blocks.codes != null ==> fresh(s.blocks.codes))
      invariant r != Z_MEM_ERROR ==> s.Valid(z)
      invariant z.output <= Reference.Inflate(input).out
      invariant r == Z_STREAM_END ==> Reference.Inflate(input).Finished? && z.output == Reference.Inflate(input).out
      invariant r in {Z_DATA_ERROR, Z_MEM_ERROR} ==> Reference.Inflate(input).Corrupt?
      invariant z.nextIn + z.availIn <= |input|
      invariant r in {Z_OK, Z_BUF_ERROR} ==>
        z.nextIn + z.availIn == if Known(feeds[..i]) < |input| then Known(feeds[..i]) else |input|
      invariant r in {Z_OK, Z_BUF_ERROR} ==> |z.output| + z.availOut == Given(feeds[..i])
      invariant i > 0 && r in {Z_OK, Z_BUF_ERROR} ==>
        || (z.availOut == 0 && |z.output| < |Reference.Inflate(input).out|)
        || (z.availIn == 0 && (z.nextIn == |input| ==> !Tidy(input, Reference.Inflate(input))))
      invariant r in {Z_OK, Z_BUF_ERROR, Z_STREAM_END, Z_DATA_ERROR, Z_MEM_ERROR}
      invariant r == Z_STREAM_END ==> s.mode == DONE
      invariant z.base == 0 && !z.stray
    {
      FeedSnoc(feeds, i);
      var left := |input| - (z.nextIn + z.availIn);
      s.Supply(z, if feeds[i].known < left then feeds[i].known else left, z.availOut + feeds[i].room, z.base);
      r := s.Inflate(z, finish);
      i := i + 1;
    }
    assert feeds[..|feeds|] == feeds;
    output := z.output;
  }

  lemma PrefixOf(a: seq<byte>, b: seq<byte>, c: seq<byte>)
    requires |a| <= |b| && a == b[..|a|] && b <= c
    ensures a <= c
  {
  }
}
