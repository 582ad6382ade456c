/** The caller's stream record and the bit buffer that reads from it. */
module BitReader {
  import opened Bits
  import opened Status

  /** z_stream: the compressed bytes lie one after another in `input`; the caller has made those up to
      nextIn + availIn known.  `output` is what has been delivered; availOut is the room for more.
      `base` is where the caller's present buffer starts, and `stray` says that the decoder has gone on to another
      block after handing back a byte from before it: next_in then points outside the buffer. */
  class ZStream {
    const input: seq<byte>
    var nextIn: nat
    var availIn: nat
    var output: seq<byte>
    var availOut: nat
    ghost var base: nat
    ghost var stray: bool

    constructor (input: seq<byte>)
      ensures this.input == input && nextIn == 0 && availIn == 0 && output == [] && availOut == 0
      ensures base == 0 && !stray
    {
      this.input := input;
      base, stray := 0, false;
      nextIn, availIn, output, availOut := 0, 0, [], 0;
    }

    /** The caller makes more input known, in a buffer that starts at `base`, and says how much room there is. */
    method Supply(known: nat, room: nat, ghost base: nat)
      modifies this`availIn, this`availOut, this`base
      ensures availIn == old(availIn) + known && availOut == room && this.base == base
    {
      availIn, availOut := availIn + known, room;
      this.base := base;
    }
  }

  /** While the status still says that nothing could be done, no input is used. */
  ghost predicate Unfed(r: int, before: nat, z: ZStream)
    reads z`availIn
  {
    r == Z_BUF_ERROR ==> z.availIn >= before
  }

  lemma FedOrBad(r: int, before: nat, z: ZStream)
    requires r in {Z_OK, Z_DATA_ERROR} || z.availIn >= before
    ensures Unfed(r, before, z)
  {
  }

  /** How many bytes the first `cur` bits take. */
  function ByteEnd(cur: nat): nat { (cur + 7) / 8 }

  lemma ByteBefore(cur: nat, n: nat)
    ensures ByteEnd(cur) < n <==> cur + 8 <= 8 * n
  {
  }

  /** `byte << k` in a 32-bit word loses nothing while k is at most 24. */
  lemma ShiftFits(x: byte, k: nat)
    requires k <= 24
    ensures Low(Shl(x, k), 32) == Shl(x, k)
  {
    assert Pow2(8) == 256;
    hide Pow2, Low, Shl;
    ShlIsMul(x, k);
    Pow2Add(8, k);
    Scale(x + 1, 256, Pow2(k));
    Scale(x, x, Pow2(k));
    Pow2Mono(8 + k, 32);
    LowBound(Shl(x, k), 32);
  }

  /** The bit buffer: `bitk` bits to come, in the low end of `bitb`.  Above them `bitb` may still hold
      bits of bytes that were handed back; `held` counts all the stream bits in it. */
  class BitBuffer {
    var bitb: nat
    var bitk: nat
    ghost var held: nat

    /** The position in the stream of the next bit. */
    ghost function Cur(z: ZStream): nat
      reads this`bitk, z`nextIn
    {
      if bitk <= 8 * z.nextIn then 8 * z.nextIn - bitk else 0
    }

    ghost predicate Valid(z: ZStream)
      reads this, z`nextIn, z`availIn
    {
      && z.nextIn + z.availIn <= |z.input| && bitk <= 8 * z.nextIn && bitk <= held <= 32
      && Cur(z) + held <= 8 * |z.input| && bitb == Take(z.input, Cur(z), held)
    }

    lemma Position(z: ZStream)
      requires Valid(z)
      ensures bitk <= held <= 32 && bitk <= 8 * z.nextIn && Cur(z) == 8 * z.nextIn - bitk &&
        Cur(z) + bitk <= 8 * |z.input|
      ensures z.nextIn + z.availIn <= |z.input|
    {
    }

    /** At a byte boundary the buffer holds whole bytes. */
    lemma WholeBytes(z: ZStream)
      requires Valid(z) && Cur(z) % 8 == 0
      ensures bitk % 8 == 0
    {
      assert bitk == 8 * z.nextIn - Cur(z);
    }

    constructor ()
      ensures bitk == 0 && held == 0 && bitb == 0
    {
      bitb, bitk, held := 0, 0, 0;
    }

    /** NEXTBYTE into the buffer. */
    method Refill(z: ZStream)
      requires Valid(z) && z.availIn > 0 && bitk <= 24
      modifies this, z`nextIn, z`availIn
      ensures Valid(z) && Cur(z) == old(Cur(z)) && bitk == old(bitk) + 8
      ensures z.availIn == old(z.availIn) - 1 && z.nextIn == old(z.nextIn) + 1
    {
      hide Take;
      ShiftFits(z.input[z.nextIn], bitk);
      TakeByte(z.input, z.nextIn);
      OrRefill(z.input, Cur(z), held, bitk);
      bitb := Or(bitb, Low(Shl(z.input[z.nextIn], bitk), 32));
      z.availIn, z.nextIn := z.availIn - 1, z.nextIn + 1;
      bitk := bitk + 8;
      held := if held < bitk then bitk else held;
    }

    /** NEEDBITS: at least `j` bits, unless input runs out. */
    method Need(z: ZStream, j: nat, r0: int) returns (ok: bool, r: int)
      requires Valid(z) && (j <= 25 || (j <= 32 && bitk % 8 == 0))
      modifies this, z`nextIn, z`availIn
      ensures Valid(z) && Cur(z) == old(Cur(z)) && z.nextIn + z.availIn == old(z.nextIn + z.availIn)
      ensures z.availIn <= old(z.availIn) && (ok <==> bitk >= j)
      ensures bitk <= old(bitk) || bitk < j + 8
      ensures !ok ==> z.availIn == 0 && (z.nextIn == |z.input| ==> Cur(z) + j > 8 * |z.input|)
      ensures (r == r0 || r == Z_OK) && Unfed(r, old(z.availIn), z)
      ensures old(z.availIn) == 0 ==> r == r0 && bitk == old(bitk)
    {
      hide Take;
      r := r0;
      while bitk < j
        invariant Valid(z) && Cur(z) == old(Cur(z)) && z.nextIn + z.availIn == old(z.nextIn + z.availIn)
        invariant j <= 25 || bitk % 8 == 0
        invariant (r == r0 || r == Z_OK) && z.availIn <= old(z.availIn) && Unfed(r, old(z.availIn), z)
        invariant bitk <= old(bitk) || bitk < j + 8
        invariant old(z.availIn) == 0 ==> r == r0 && bitk == old(bitk)
        decreases z.availIn
      {
        if z.availIn == 0 {
          return false, r;
        }
        r := Z_OK;
        Refill(z);
      }
      ok := true;
    }

    /** With less than a byte in hand, the bytes taken are those of the bits used. */
    lemma Taken(z: ZStream)
      requires Valid(z) && bitk <= 7
      ensures z.nextIn == ByteEnd(Cur(z))
    {
    }

    lemma Peeked(z: ZStream, j: nat)
      requires Valid(z) && j <= bitk
      ensures Cur(z) + j <= 8 * |z.input| && Low(bitb, j) == Take(z.input, Cur(z), j) < Pow2(j)
    {
      LowTake(z.input, Cur(z), held, j);
      TakeBound(z.input, Cur(z), j);
    }

    /** The low `j` bits of the buffer are the next of the stream. */
    method Peek(z: ZStream, j: nat) returns (v: nat)
      requires Valid(z) && j <= bitk
      ensures Cur(z) + j <= 8 * |z.input| && v == Take(z.input, Cur(z), j) < Pow2(j)
    {
      Peeked(z, j);
      v := Low(bitb, j);
    }

    /** DUMPBITS. */
    method Dump(z: ZStream, j: nat)
      requires Valid(z) && j <= bitk
      modifies this
      ensures Valid(z) && Cur(z) == old(Cur(z)) + j && bitk == old(bitk) - j
    {
      ShrTake(z.input, Cur(z), held, j);
      bitb := Shr(bitb, j);
      bitk := bitk - j;
      held := held - j;
    }

    /** Hands `n` whole unread bytes back to the caller; their bits stay behind in the buffer. */
    method GiveBack(z: ZStream, n: nat)
      requires Valid(z) && 8 * n <= bitk
      modifies this, z`nextIn, z`availIn
      ensures Valid(z) && Cur(z) == old(Cur(z)) && bitk == old(bitk) - 8 * n
      ensures z.availIn == old(z.availIn) + n && z.nextIn == old(z.nextIn) - n
    {
      bitk := bitk - 8 * n;
      z.availIn, z.nextIn := z.availIn + n, z.nextIn - n;
    }

    /** Drops the whole buffer, at a byte boundary. */
    method Clear(z: ZStream)
      requires Valid(z)
      modifies this
      ensures Valid(z) && bitk == 0 && held == 0 && Cur(z) == 8 * z.nextIn
    {
      bitb, bitk := 0, 0;
      held := 0;
    }

    /** With the buffer empty, `n` bytes of input are used without it. */
    method Skip(z: ZStream, n: nat)
      requires Valid(z) && bitk == 0 && held == 0 && n <= z.availIn
      modifies z`nextIn, z`availIn
      ensures Valid(z) && Cur(z) == 8 * z.nextIn
      ensures z.availIn == old(z.availIn) - n && z.nextIn == old(z.nextIn) + n
    {
      z.availIn, z.nextIn := z.availIn - n, z.nextIn + n;
    }
  }
}
