/** unzReadCurrentFile and unzCloseCurrentFile on an archive in memory. */
module Reader {
  import opened Bits
  import opened Status
  import opened Crc32
  import opened Reference
  import opened BitReader
  import opened CodesMeaning
  import opened InflateStream
  import B = InflateBlocks

  const UNZ_OK := 0
  const UNZ_ERRNO := -1
  const UNZ_CRCERROR := -105
  /** Compressed bytes are fetched by the buffer. */
  const UNZ_BUFSIZE: nat := 16384

  // ----- stored entries

  /** The counters of the loop that copies a stored entry: `left` bytes of the archive lie behind what was fetched,
      and `failed` says that a fetch found too few. */
  datatype Copying = Copying(availIn: nat, rest: nat, availOut: nat, left: nat, failed: bool)

  /** Fetch if there is nothing left to copy. */
  function Filled(c: Copying): Copying {
    var fetch := if c.availIn > 0 then 0 else if c.rest < UNZ_BUFSIZE then c.rest else UNZ_BUFSIZE;
    if c.failed || fetch > c.left then c.(failed := true)
    else c.(availIn := c.availIn + fetch, rest := c.rest - fetch, left := c.left - fetch)
  }

  /** Copy what there is, or as much as was asked for. */
  function Copied(c: Copying): Copying {
    var n := if c.availOut < c.availIn then c.availOut else c.availIn;
    c.(availIn := c.availIn - n, availOut := c.availOut - n)
  }

  /** One turn of the loop. */
  function Turn(c: Copying): Copying {
    if Filled(c).failed then Filled(c) else Copied(Filled(c))
  }

  function Turns(c: Copying, n: nat): Copying
    decreases n
  {
    if n == 0 then c else Turns(Turn(c), n - 1)
  }

  predicate Over(c: Copying) {
    c.failed || c.availOut == 0
  }

  /** There are bytes enough, or the archive breaks off before what it promises. */
  predicate Lasting(c: Copying) {
    c.failed || c.availOut <= c.availIn + c.rest || c.rest > c.left
  }

  /** A turn keeps this, either way, and gets on if it holds. */
  lemma TurnLasts(c: Copying)
    requires !Over(c)
    ensures Lasting(Turn(c)) == Lasting(c)
    ensures if Lasting(c) then Over(Turn(c)) || Turn(c).availOut < c.availOut else !Over(Turn(c))
  {
  }

  lemma {:induction false} TurnsEnd(c: Copying) returns (n: nat)
    requires Lasting(c)
    ensures Over(Turns(c, n))
    decreases c.availOut
  {
    n := 0;
    if !Over(c) {
      TurnLasts(c);
      if Over(Turn(c)) {
        assert Turns(c, 1) == Turns(Turn(c), 0);
        n := 1;
      } else {
        n := TurnsEnd(Turn(c));
        n := n + 1;
      }
    }
  }

  lemma {:induction false} TurnsGoOn(c: Copying, n: nat)
    requires !Lasting(c)
    ensures !Over(Turns(c, n))
    decreases n
  {
    if n > 0 {
      TurnLasts(c);
      TurnsGoOn(Turn(c), n - 1);
    }
  }

  /** The loop ends exactly when there are bytes enough, or a fetch fails. */
  lemma StoredEndsIff(c: Copying)
    ensures (exists n: nat :: Over(Turns(c, n))) <==> Lasting(c)
  {
    hide *;
    if Lasting(c) {
      var n := TurnsEnd(c);
      assert Over(Turns(c, n));
    } else {
      forall n: nat ensures !Over(Turns(c, n)) { TurnsGoOn(c, n); }
    }
  }

  /** An entry that promises a byte and has none, in an archive that goes on behind it, keeps the loop going. */
  lemma StoredEndless(n: nat, left: nat)
    ensures !Over(Turns(Copying(0, 0, 1, left, false), n))
  {
    TurnsGoOn(Copying(0, 0, 1, left, false), n);
  }

  // ----- the reader

  /** The compressed bytes of an entry, as far as the archive has them. */
  function Compressed(archive: seq<byte>, start: nat, size: nat): seq<byte>
    requires start <= |archive|
  {
    if start + size <= |archive| then archive[start..start + size] else archive[start..]
  }

  /** They are the bytes from `start` on. */
  lemma CompressedIs(archive: seq<byte>, start: nat, size: nat)
    requires start <= |archive|
    ensures var c := Compressed(archive, start, size);
      && start + |c| <= |archive| && (forall i | 0 <= i < |c| :: c[i] == archive[start + i])
      && (start + size <= |archive| ==> c == archive[start..start + size])
      && forall n, m | 0 <= n <= m <= |c| :: c[n..m] == archive[start + n..start + m]
  {
  }

  /** Some compressed block, not the last one, ends in the last byte but one of a full read buffer. */
  ghost predicate CutsBuffer(input: seq<byte>) {
    var ends := Reference.Inflate(input).ends;
    exists i :: 0 <= i < |ends| && (ByteEnd(ends[i]) + 1) % 16384 == 0
  }

  lemma CutAt(input: seq<byte>, i: nat, base: nat)
    requires i < |Reference.Inflate(input).ends| && base % UNZ_BUFSIZE == 0
    requires var e := Reference.Inflate(input).ends[i]; e + 8 <= 8 * base <= e + 15
    ensures CutsBuffer(input)
  {
    hide Reference.Inflate;
    assert ByteEnd(Reference.Inflate(input).ends[i]) + 1 == base;
  }

  /** Decoding has gone from block ends `ends` to `ends'`, the buffer from `from` to `from'`: it has strayed exactly if
      an end lies before the first buffer; and unless nothing was done yet, none that is to come lies before the present
      one, if it goes on. */
  ghost predicate Traced(inp: seq<byte>, ends: seq<nat>, ends': seq<nat>, before: bool, now: bool,
                         from: nat, from': nat, on: bool)
    ensures Traced(inp, ends, ends', before, now, from, from', on) ==> B.Strayed(ends', now, before, from, |ends|)
  {
    && ends <= ends' && from <= from' && B.Strayed(ends', now, before, from, |ends|)
    && (on ==> (ends == ends' && from == from') || Beyond(inp, |ends'|, from'))
  }

  lemma TracedNone(inp: seq<byte>, ends: seq<nat>, stray: bool, from: nat, on: bool)
    ensures Traced(inp, ends, ends, stray, stray, from, from, on)
  {
    hide Reference.Inflate;
  }

  lemma TracedOn(inp: seq<byte>, ends: seq<nat>, ends': seq<nat>, ends'': seq<nat>, before: bool, mid: bool, now: bool,
                 from: nat, from': nat, from'': nat, on: bool)
    requires Traced(inp, ends, ends', before, mid, from, from', true)
    requires ends' <= ends'' && ends'' <= Reference.Inflate(inp).ends && from' <= from''
    requires B.Strayed(ends'', now, mid, from', |ends'|) && (on ==> Beyond(inp, |ends''|, from''))
    ensures Traced(inp, ends, ends'', before, now, from, from'', on)
  {
    hide Reference.Inflate, B.Strayed;
    B.StrayedAlong(ends', ends'', before, mid, now, from, from', |ends|);
  }

  /** file_in_zip_read_info_s.  The read buffer is a view of the archive: fetching makes more of
      `z.input` known. */
  class EntryReader {
    const archive: seq<byte>
    const start: nat
    const compressedSize: nat
    const uncompressedSize: nat
    const crc32Wait: nat
    const stored: bool
    var posInZipfile: nat
    var restReadCompressed: nat
    var restReadUncompressed: nat
    var crc32: nat
    const z: ZStream
    const inflater: InflateState

    /** Bytes delivered, and their checksum. */
    ghost predicate Summed()
      reads this`restReadUncompressed, this`crc32, z`output
    {
      |z.output| + restReadUncompressed == uncompressedSize && crc32 == Crc(0, z.output)
    }

    /** Bytes fetched: all up to the `n`-th, in full buffers but for the last; the buffer starts at `base`. */
    ghost predicate Fetched(n: nat, rest: nat, pos: nat, base: nat) {
      && start <= |archive| && z.input == Compressed(archive, start, compressedSize)
      && n + rest == compressedSize && n <= |z.input| && pos == start + n
      && (rest == 0 || n % UNZ_BUFSIZE == 0)
      && base <= n && base % UNZ_BUFSIZE == 0 && (base > 0 ==> base < compressedSize)
    }

    lemma FetchMore(n: nat, rest: nat, pos: nat, base: nat, k: nat)
      requires Fetched(n, rest, pos, base) && 0 < k == (if rest < UNZ_BUFSIZE then rest else UNZ_BUFSIZE)
      ensures pos + k <= |archive| ==> Fetched(n + k, rest - k, pos + k, n) && n + k <= |z.input|
      ensures base <= n && (pos + k > |archive| ==> start + compressedSize > |archive|)
    {
    }

    lemma InBounds()
      requires Counts()
      ensures z.base <= From() <= compressedSize && |z.output| + restReadUncompressed == uncompressedSize
      ensures start <= |archive| && z.input == Compressed(archive, start, compressedSize)
      ensures z.stray ==> compressedSize > UNZ_BUFSIZE && CutsBuffer(z.input)
    {
      hide Crc, CutsBuffer;
    }

    /** What is counted. */
    ghost predicate Counts()
      reads this, z
    {
      && Summed() && Fetched(z.nextIn + z.availIn, restReadCompressed, posInZipfile, z.base)
      && (z.stray ==> z.base > 0 && CutsBuffer(z.input))
    }

    /** Where the read buffer will start when the decoder goes on. */
    ghost function From(): nat
      reads this`restReadCompressed, z
    {
      if z.availIn == 0 && restReadCompressed > 0 then z.nextIn else z.base
    }

    /** A compressed block from the `k`-th on ends in the last byte but one before the buffer, or later. */
    ghost predicate Near(k: nat)
      reads z`base
    {
      var o := Reference.Inflate(z.input);
      forall i | k <= i < |o.ends| :: o.ends[i] + 15 >= 8 * z.base
    }

    /** The counters of the copying loop. */
    ghost function Counters(): Copying
      requires Counts()
      reads this, z
    {
      Copying(z.availIn, restReadCompressed, z.availOut, |archive| - posInZipfile, false)
    }

    /** A call that asks for `len` bytes comes to an end. */
    ghost predicate Ends(len: nat)
      requires Counts()
      reads this, z
    {
      stored ==> Lasting(Counters().(availOut := if len > restReadUncompressed then restReadUncompressed else len))
    }

    ghost function Parts(): set<object>
      reads inflater, inflater.blocks
    {
      {inflater, inflater.blocks} + inflater.Parts()
    }

    ghost predicate Valid()
      reads this, z, Parts(), inflater.blocks.codes, inflater.blocks.Trees()
    {
      && Counts()
      && if stored then z.nextIn <= |z.input| && z.output == z.input[..z.nextIn]
         else inflater.Valid(z) && Near(|inflater.blocks.ends|)
    }

    /** unzOpenCurrentFile, the header read: data from `start` on. */
    constructor (archive: seq<byte>, start: nat, compressedSize: nat, uncompressedSize: nat, crc: nat, stored: bool)
      requires start <= |archive|
      ensures Valid() && z.output == [] && !z.stray && From() == 0 && this.archive == archive && this.start == start
      ensures this.compressedSize == compressedSize && this.uncompressedSize == uncompressedSize
      ensures this.crc32Wait == crc && this.stored == stored
      ensures fresh(z) && fresh(Parts()) && inflater.blocks.codes == null
    {
      hide InflateState.Valid, Counts, Valid, From, Compressed, Reference.Inflate;
      this.archive, this.start, this.stored := archive, start, stored;
      this.compressedSize, this.uncompressedSize, crc32Wait := compressedSize, uncompressedSize, crc;
      posInZipfile, restReadCompressed, restReadUncompressed, crc32 := start, compressedSize, uncompressedSize, 0;
      var stream := new ZStream(Compressed(archive, start, compressedSize));
      z := stream;
      inflater := new InflateState(stream);
      new;
      Apart();
      Started();
    }

    lemma Started()
      requires start <= |archive| && z.input == Compressed(archive, start, compressedSize)
      requires z.output == [] && z.nextIn == z.availIn == z.base == 0 && !z.stray && (!stored ==> inflater.Valid(z))
      requires restReadCompressed == compressedSize && restReadUncompressed == uncompressedSize
      requires posInZipfile == start && crc32 == 0
      ensures Valid() && From() == 0
    {
      hide InflateState.Valid, Reference.Inflate, Crc, CutsBuffer;
      CrcNothing();
      assert z.input[..0] == [];
    }

    lemma IsNear()
      requires var o := Reference.Inflate(z.input);
        forall i | |inflater.blocks.ends| <= i < |o.ends| :: o.ends[i] + 15 >= 8 * z.base
      ensures Near(|inflater.blocks.ends|)
    {
    }

    /** How many bytes the next turn fetches. */
    function Amount(): nat
      reads this`restReadCompressed, z`availIn
    {
      if z.availIn > 0 then 0 else if restReadCompressed < UNZ_BUFSIZE then restReadCompressed else UNZ_BUFSIZE
    }

    /** Fills the read buffer if it is empty and there is more. */
    method Fetch() returns (ok: bool)
      requires Valid()
      modifies this`posInZipfile, this`restReadCompressed, z`availIn, z`availOut, z`base
      ensures Valid() && Sound() && z.availOut == old(z.availOut)
      ensures var n := old(Amount());
        if ok then z.availIn == old(z.availIn) + n && restReadCompressed == old(restReadCompressed) - n &&
                   posInZipfile == old(posInZipfile) + n && z.base == old(From())
        else n > |archive| - posInZipfile && z.availIn == old(z.availIn) &&
             restReadCompressed == old(restReadCompressed) && posInZipfile == old(posInZipfile)
      ensures old(z.nextIn + z.availIn) <= z.nextIn + z.availIn <= |z.input| && old(posInZipfile) <= posInZipfile
      ensures posInZipfile <= |archive| && z.input[old(z.nextIn + z.availIn)..z.nextIn + z.availIn] ==
        archive[old(posInZipfile)..posInZipfile]
      ensures if ok then Counters() == Filled(old(Counters())) else Filled(old(Counters())).failed
      ensures !ok ==> start + compressedSize > |archive|
      ensures From() == old(From())
      ensures old(Idle()) && restReadCompressed == old(restReadCompressed) ==> Idle()
    {
      hide InflateState.Valid, InflateState.Stalled, Crc, CutsBuffer, Near, Reference.Inflate, Fetched, Summed;
      Opened();
      KnownAre(z.nextIn + z.availIn);
      ok := true;
      if z.availIn == 0 && restReadCompressed > 0 {
        var n := Amount();
        FetchMore(z.nextIn, restReadCompressed, posInZipfile, z.base, n);
        if posInZipfile + n > |archive| {
          return false;
        }
        if stored {
          z.availIn, z.base := n, z.nextIn;
        } else {
          inflater.EndsAhead(z);
          inflater.Supply(z, n, z.availOut, z.nextIn);
          IsNear();
        }
        Apart();
        posInZipfile := posInZipfile + n;
        restReadCompressed := restReadCompressed - n;
        KnownAre(z.nextIn);
      }
    }

    /** The input from `n` on that is known is what lies in the archive up to the position in it. */
    lemma KnownAre(n: nat)
      requires Counts() && n <= z.nextIn + z.availIn
      ensures n <= z.nextIn + z.availIn <= |z.input| && start + n <= posInZipfile <= |archive|
      ensures z.input[n..z.nextIn + z.availIn] == archive[start + n..posInZipfile]
      ensures posInZipfile == start + z.nextIn + z.availIn
    {
      hide Crc, CutsBuffer, Compressed;
      CompressedIs(archive, start, compressedSize);
    }

    /** One turn for a stored entry. */
    method CopyTurn() returns (n: nat)
      requires Valid() && stored && z.availOut <= restReadUncompressed
      modifies this`crc32, this`restReadUncompressed, z`nextIn, z`availIn, z`output, z`availOut
      ensures Valid() && Counts() && Sound() && z.availOut <= restReadUncompressed
      ensures n == old(if z.availOut < z.availIn then z.availOut else z.availIn) == |z.output| - old(|z.output|)
      ensures z.availOut == old(z.availOut) - n && restReadCompressed == old(restReadCompressed)
      ensures old(z.output) <= z.output && Counters() == Copied(old(Counters()))
    {
      hide Crc, InflateState.Valid, Near, CutsBuffer, Reference.Inflate;
      n := if z.availOut < z.availIn then z.availOut else z.availIn;
      var bytes := z.input[z.nextIn..z.nextIn + n];
      CrcConcat(0, z.output, bytes);
      crc32 := Ucrc32(crc32, bytes);
      assert z.input[..z.nextIn] + bytes == z.input[..z.nextIn + n];
      restReadUncompressed := restReadUncompressed - n;
      z.availIn, z.availOut := z.availIn - n, z.availOut - n;
      z.output, z.nextIn := z.output + bytes, z.nextIn + n;
    }

    /** The counters are not part of the decoder. */
    lemma Apart()
      ensures this as object !in inflater.Parts() && this as object !in inflater.blocks.Trees()
      ensures this as object != inflater && this as object != inflater.blocks && this as object != z
      ensures this as object != inflater.blocks.codes
    {
    }

    /** One turn for a deflated entry. */
    method InflateTurn() returns (err: int, n: nat)
      requires Valid() && !stored && z.availOut <= restReadUncompressed
      modifies this`crc32, this`restReadUncompressed, Parts(), inflater.blocks.codes
      modifies z`nextIn, z`availIn, z`stray, z`output, z`availOut
      ensures Counts() && Sound() && z.availOut <= restReadUncompressed
      ensures err != Z_MEM_ERROR ==> Valid() && inflater.Valid(z)
      ensures n == |z.output| - old(|z.output|) && old(z.output) <= z.output
      ensures restReadCompressed == old(restReadCompressed) && z.availOut == old(z.availOut) - n
      ensures err in {Z_OK, Z_BUF_ERROR, Z_STREAM_END, Z_DATA_ERROR, Z_MEM_ERROR}
      ensures err in {Z_DATA_ERROR, Z_MEM_ERROR} ==> Reference.Inflate(z.input).Corrupt?
      ensures err == Z_STREAM_END ==> Reference.Inflate(z.input).Finished? && z.output == Reference.Inflate(z.input).out
      ensures z.output <= Reference.Inflate(z.input).out
      ensures Unfed(err, old(z.availIn), z)
      ensures old(inflater.blocks.ends) <= inflater.blocks.ends <= Reference.Inflate(z.input).ends
      ensures B.Strayed(inflater.blocks.ends, z.stray, old(z.stray), z.base, old(|inflater.blocks.ends|))
      ensures err in {Z_STREAM_END, Z_DATA_ERROR} ==> Beyond(z.input, |inflater.blocks.ends|, compressedSize)
      ensures err in {Z_OK, Z_BUF_ERROR} && z.availOut > 0 ==> Beyond(z.input, |inflater.blocks.ends|, z.nextIn)
      ensures err == Z_BUF_ERROR && z.availOut > 0 ==>
        z.availIn == 0 && (z.nextIn == |z.input| ==> !Tidy(z.input, Reference.Inflate(z.input)))
      ensures err in {Z_OK, Z_BUF_ERROR} && z.availOut > 0 ==> z.availIn == 0 && Idle()
      ensures old(Idle()) ==> err != Z_OK
      ensures inflater.blocks.codes == old(inflater.blocks.codes) || fresh(inflater.blocks.codes)
      ensures inflater.blocks.blens == old(inflater.blocks.blens) || fresh(inflater.blocks.blens)
    {
      hide InflateState.Valid, InflateState.Stalled, Reference.Inflate, Crc, Beyond, B.Strayed, CutsBuffer, Summed;
      hide Fetched, Counts, Valid, Sound, Near, B.BlocksState.Goal, B.BlocksState.Short, B.BlocksState.Valid;
      hide BitBuffer.Valid, Unfed;
      Before();
      var before := |z.output|;
      ghost var was, stray, ends := z.output, z.stray, inflater.blocks.ends;
      err := inflater.Inflate(z, false);
      assert z.output[..before] == was;
      if err in {Z_STREAM_END, Z_DATA_ERROR} { inflater.NothingAhead(z, compressedSize); }
      Apart();
      n := Account(before);
      Behind(stray, ends);
    }

    /** What the decoder is called with. */
    lemma Before()
      requires Valid() && !stored
      ensures inflater.Valid(z) && Near(|inflater.blocks.ends|)
      ensures Fetched(z.nextIn + z.availIn, restReadCompressed, posInZipfile, z.base)
      ensures z.stray ==> z.base > 0 && CutsBuffer(z.input)
      ensures |z.output| + restReadUncompressed == uncompressedSize && crc32 == Crc(0, z.output)
    {
      hide InflateState.Valid, Reference.Inflate, Crc, CutsBuffer, Compressed;
    }

    /** What it leaves. */
    lemma Behind(stray: bool, was: seq<nat>)
      requires !stored && Summed() && (stray ==> z.base > 0 && CutsBuffer(z.input))
      requires Fetched(z.nextIn + z.availIn, restReadCompressed, posInZipfile, z.base)
      requires B.Strayed(inflater.blocks.ends, z.stray, stray, z.base, |was|)
      requires was <= inflater.blocks.ends <= Reference.Inflate(z.input).ends
      requires z.output <= Reference.Inflate(z.input).out && Near(|was|)
      ensures Counts() && Sound() && (inflater.Valid(z) ==> Valid())
    {
      hide InflateState.Valid, Reference.Inflate, Crc, CutsBuffer, Compressed, B.Strayed;
      Cutting(stray, |was|);
    }

    /** Decoding strays only where a block's end cuts a buffer. */
    lemma Cutting(stray: bool, k: nat)
      requires B.Strayed(inflater.blocks.ends, z.stray, stray, z.base, k) && z.base % UNZ_BUFSIZE == 0
      requires inflater.blocks.ends <= Reference.Inflate(z.input).ends
      requires Near(k)
      ensures z.stray ==> stray || (z.base > 0 && CutsBuffer(z.input))
    {
      hide Reference.Inflate, CutsBuffer;
      if z.stray && !stray {
        var i :| k <= i < |inflater.blocks.ends| && inflater.blocks.ends[i] + 8 <= 8 * z.base;
        CutAt(z.input, i, z.base);
      }
    }

    /** What was added to the output is counted and checksummed. */
    method Account(before: nat) returns (n: nat)
      requires before <= |z.output| && |z.output| - before <= restReadUncompressed
      requires crc32 == Crc(0, z.output[..before]) && before + restReadUncompressed == uncompressedSize
      modifies this`crc32, this`restReadUncompressed
      ensures Summed() && n == |z.output| - before && restReadUncompressed == old(restReadUncompressed) - n
    {
      var bytes := z.output[before..];
      assert z.output[..before] + bytes == z.output;
      CrcConcat(0, z.output[..before], bytes);
      crc32 := Ucrc32(crc32, bytes);
      n := |bytes|;
      restReadUncompressed := restReadUncompressed - n;
    }

    /** What a call leaves, however it ends. */
    ghost predicate Sound()
      reads this, z, inflater.blocks
    {
      && Counts()
      && (stored ==> z.output <= z.input)
      && (!stored ==> inflater.blocks.ends <= Reference.Inflate(z.input).ends)
      && (!stored && !z.stray ==> z.output <= Reference.Inflate(z.input).out)
    }

    lemma Opened()
      requires Valid()
      ensures Sound()
      ensures stored ==> z.output <= z.input
    {
      hide InflateState.Valid, Reference.Inflate;
      if !stored {
        inflater.Delivered(z);
        inflater.EndsAhead(z);
      }
    }

    /** Whether a call on a stored entry ends, from the sizes. */
    lemma EndsIf(len: nat)
      requires Valid()
      ensures Ends(len) <==>
        || !stored || start + compressedSize > |archive|
        || Min(len, uncompressedSize - |z.output|) <= compressedSize - |z.output|
    {
      hide InflateState.Valid, Reference.Inflate;
    }

    /** Nothing is left to be read, or no block's end that is to come lies a byte or more before the entry's. */
    ghost predicate Past()
      reads this`restReadUncompressed, inflater.blocks
    {
      restReadUncompressed == 0 || Beyond(z.input, |inflater.blocks.ends|, compressedSize)
    }

    /** The first call goes right, and so does one past all block ends. */
    lemma CallsRight(from: nat, k: nat)
      requires k <= |inflater.blocks.ends| && inflater.blocks.ends <= Reference.Inflate(z.input).ends
      requires from <= compressedSize && B.Strayed(inflater.blocks.ends, z.stray, false, from, k)
      requires from == 0 || Beyond(z.input, k, compressedSize)
      ensures !z.stray
    {
      hide Reference.Inflate, Beyond, B.Strayed;
      StraysNot(z.input, inflater.blocks.ends, z.stray, from, k, if from == 0 then 0 else compressedSize);
    }

    /** A call that got less than it asked for is past all block ends, and so is one that got all the rest. */
    lemma AfterCall(len: nat, r: nat, was: nat, rest: nat, k: nat, past: bool)
      requires Counts() && k <= |inflater.blocks.ends| && was + rest == uncompressedSize && r == |z.output| - was
      requires past ==> rest == 0 || Beyond(z.input, k, compressedSize)
      requires r < Min(len, rest) ==> Beyond(z.input, |inflater.blocks.ends|, compressedSize)
      ensures past || r < len || len >= rest ==> Past()
    {
      hide Reference.Inflate, Crc, CutsBuffer;
    }

    /** Room for as much as was asked for, and no more than the entry has left. */
    method Begin(len: nat)
      requires Valid()
      modifies z`availIn, z`availOut, z`base
      ensures Valid() && z.availIn == old(z.availIn) && From() == old(From())
      ensures z.availOut == if len > restReadUncompressed then restReadUncompressed else len
    {
      hide InflateState.Valid, Crc, CutsBuffer, Reference.Inflate;
      var room := if len > restReadUncompressed then restReadUncompressed else len;
      if stored {
        z.availOut := room;
      } else {
        inflater.Supply(z, 0, room, z.base);
      }
    }

    /** unzReadCurrentFile: the number of bytes put out, or an error when the archive ends too soon.
        `dead`, which the C function keeps to itself, says that the decoder has run out of table space:
        it does so only for bad streams, and is of no use then.  What is said of the decoder's output holds as
        long as it has not strayed, which it does in a call exactly when a block ends a byte or more before the buffer
        that the call starts with; not in the first call, and not once a call got less than it asked for. */
    method ReadCurrentFile(len: nat) returns (r: int, dead: bool)
      requires Valid() && Ends(len)
      modifies this`posInZipfile, this`restReadCompressed, this`crc32, this`restReadUncompressed
      modifies z, Parts(), inflater.blocks.codes
      ensures Sound() && (!dead ==> Valid()) && old(z.output) <= z.output
      ensures !stored ==>
        B.Strayed(inflater.blocks.ends, z.stray, old(z.stray), old(From()), old(|inflater.blocks.ends|))
      ensures !stored && !old(z.stray) && (old(From()) == 0 || old(Past())) ==> !z.stray
      ensures !stored && r >= 0 && !dead && r < len ==> Past()
      ensures !stored && r >= 0 && !dead && (len >= old(restReadUncompressed) || old(Past())) ==> Past()
      ensures dead ==> !stored && (!z.stray ==> Reference.Inflate(z.input).Corrupt?)
      ensures r >= 0 ==> r == |z.output| - old(|z.output|) <= len
      ensures r < 0 ==> r == UNZ_ERRNO && start + compressedSize > |archive|
      ensures stored && r >= 0 ==> r == Min(len, old(restReadUncompressed))
      ensures !stored && !z.stray && Whole() ==>
        r == Min(Min(len, old(restReadUncompressed)), |Reference.Inflate(z.input).out| - old(|z.output|))
      ensures inflater.blocks.codes == old(inflater.blocks.codes) || fresh(inflater.blocks.codes)
      ensures inflater.blocks.blens == old(inflater.blocks.blens) || fresh(inflater.blocks.blens)
    {
      hide InflateState.Valid, InflateState.Stalled, Reference.Inflate, Crc, Tidy, EntryReader.Idle, Counts;
      hide Lasting, Spent, Whole, B.Strayed, Beyond;
      dead := false;
      r := 0;
      Opened();
      InBounds();
      B.NoMore(inflater.blocks.ends, z.stray, From());
      if len == 0 {
        return;
      }
      ghost var out, rest, stray, from, k := |z.output|, restReadUncompressed, z.stray, From(), |inflater.blocks.ends|;
      ghost var past := rest == 0 || Beyond(z.input, k, compressedSize);
      Begin(len);
      r, dead := TakeTurns();
      if !stored {
        if !z.stray && Whole() { Got(out, r, Min(len, rest)); }
        if !stray && rest > 0 && (from == 0 || past) { CallsRight(from, k); }
        if r >= 0 && !dead { AfterCall(len, r, out, rest, k, past); }
      }
    }

    /** The loop: turns until all that was asked for is there, or no more can come. */
    method TakeTurns() returns (r: int, dead: bool)
      requires Valid() && z.availOut <= restReadUncompressed && (stored ==> Lasting(Counters()))
      modifies this`posInZipfile, this`restReadCompressed, this`crc32, this`restReadUncompressed
      modifies z, Parts(), inflater.blocks.codes
      ensures Sound() && (!dead ==> Valid()) && old(z.output) <= z.output
      ensures old(inflater.blocks.ends) <= inflater.blocks.ends
      ensures !stored ==>
        B.Strayed(inflater.blocks.ends, z.stray, old(z.stray), old(From()), old(|inflater.blocks.ends|))
      ensures old(z.availOut) == 0 ==> z.stray == old(z.stray)
      ensures dead ==> !stored && (!z.stray ==> Reference.Inflate(z.input).Corrupt?)
      ensures r >= 0 ==> r == |z.output| - old(|z.output|) == old(z.availOut) - z.availOut
      ensures r < 0 ==> r == UNZ_ERRNO && start + compressedSize > |archive|
      ensures r >= 0 && z.availOut > 0 ==> !stored && (!z.stray ==> Spent())
      ensures r >= 0 && z.availOut > 0 && !dead ==> Beyond(z.input, |inflater.blocks.ends|, compressedSize)
      ensures inflater.blocks.codes == old(inflater.blocks.codes) || fresh(inflater.blocks.codes)
      ensures inflater.blocks.blens == old(inflater.blocks.blens) || fresh(inflater.blocks.blens)
    {
      hide InflateState.Valid, InflateState.Stalled, Reference.Inflate, Crc, Tidy, Beyond, B.Strayed, Whole, Spent;
      hide Counts, Valid, Idle, Lasting, Turn, Traced;
      dead := false;
      r := 0;
      Opened();
      TracedNone(z.input, inflater.blocks.ends, z.stray, From(), true);
      TracedNone(z.input, inflater.blocks.ends, z.stray, From(), false);
      var err, n := Z_OK, 0;
      while z.availOut > 0 && err == Z_OK
        invariant Sound() && (!dead ==> Valid()) && old(inflater.blocks.ends) <= inflater.blocks.ends
        invariant !stored ==> Traced(z.input, old(inflater.blocks.ends), inflater.blocks.ends, old(z.stray), z.stray,
                                     old(From()), From(), err == Z_OK && z.availOut > 0)
        invariant !stored && !dead && err != Z_OK && z.availOut > 0 ==>
          Beyond(z.input, |inflater.blocks.ends|, compressedSize)
        invariant dead ==> err != Z_OK && !stored && (!z.stray ==> Reference.Inflate(z.input).Corrupt?)
        invariant old(z.output) <= z.output && r == |z.output| - old(|z.output|) == old(z.availOut) - z.availOut
        invariant stored ==> err == Z_OK && Lasting(Counters())
        invariant z.availOut <= restReadUncompressed
        invariant old(z.availOut) == 0 ==> z.stray == old(z.stray)
        invariant err != Z_OK && z.availOut > 0 && !z.stray ==> Spent()
        invariant inflater.blocks.codes == old(inflater.blocks.codes) || fresh(inflater.blocks.codes)
        invariant inflater.blocks.blens == old(inflater.blocks.blens) || fresh(inflater.blocks.blens)
        decreases z.availOut > 0 && err == Z_OK, if stored then 0 else restReadCompressed,
                  if stored then z.availOut else if Idle() then 0 else 1
      {
        if stored { TurnLasts(Counters()); }
        ghost var stray, ends, from := z.stray, inflater.blocks.ends, From();
        err, n, dead := ReadTurn();
        if !stored {
          TracedOn(z.input, old(inflater.blocks.ends), ends, inflater.blocks.ends, old(z.stray), stray, z.stray,
                   old(From()), from, From(), err == Z_OK && z.availOut > 0);
        }
        if err == UNZ_ERRNO {
          return UNZ_ERRNO, dead;
        }
        r := r + n;
      }
    }

    /** A call that ends with room left has come to the end of the entry. */
    lemma Got(was: nat, r: int, target: nat)
      requires Sound() && !stored && !z.stray && Whole()
      requires r < 0 ==> start + compressedSize > |archive|
      requires r >= 0 ==> r == |z.output| - was && r + z.availOut == target && (z.availOut == 0 || Spent())
      ensures r == Min(target, |Reference.Inflate(z.input).out| - was)
    {
      hide Reference.Inflate, Tidy, Counts, Crc;
    }

    /** All of the entry is there, and a byte behind its compressed data. */
    ghost predicate Whole()
      reads z
    {
      start + compressedSize <= |archive| && Tidy(z.input, Reference.Inflate(z.input))
    }

    /** Why decoding stopped with room left. */
    ghost predicate Spent()
      reads z
    {
      z.output == Reference.Inflate(z.input).out || !Whole()
    }

    /** One turn of the loop: fetch if there is nothing left to decode, and decode. */
    method ReadTurn() returns (err: int, n: nat, dead: bool)
      requires Valid() && Sound() && 0 < z.availOut <= restReadUncompressed
      modifies this`posInZipfile, this`restReadCompressed, this`crc32, this`restReadUncompressed
      modifies z, Parts(), inflater.blocks.codes
      ensures Sound() && z.availOut <= restReadUncompressed && (!dead ==> Valid()) && old(z.output) <= z.output
      ensures old(inflater.blocks.ends) <= inflater.blocks.ends && old(From()) <= From()
      ensures B.Strayed(inflater.blocks.ends, z.stray, old(z.stray), old(From()), old(|inflater.blocks.ends|))
      ensures !stored && z.availOut > 0 && err != UNZ_ERRNO && !dead ==>
        Beyond(z.input, |inflater.blocks.ends|, if err == Z_OK then From() else compressedSize)
      ensures dead ==> err == Z_MEM_ERROR && !stored && (!z.stray ==> Reference.Inflate(z.input).Corrupt?)
      ensures err == UNZ_ERRNO ==> start + compressedSize > |archive|
      ensures n == |z.output| - old(|z.output|) == old(z.availOut) - z.availOut
      ensures restReadCompressed <= old(restReadCompressed)
      ensures stored ==> err in {Z_OK, UNZ_ERRNO}
      ensures stored ==> inflater.blocks.ends == old(inflater.blocks.ends) && z.stray == old(z.stray)
      ensures stored ==> if err == UNZ_ERRNO then Turn(old(Counters())).failed else Counters() == Turn(old(Counters()))
      ensures !stored && err == Z_OK && restReadCompressed == old(restReadCompressed) && z.availOut > 0 ==>
        Idle() && !old(Idle())
      ensures err !in {Z_OK, UNZ_ERRNO} && z.availOut > 0 && !z.stray ==> Spent()
      ensures inflater.blocks.codes == old(inflater.blocks.codes) || fresh(inflater.blocks.codes)
      ensures inflater.blocks.blens == old(inflater.blocks.blens) || fresh(inflater.blocks.blens)
    {
      hide InflateState.Valid, InflateState.Stalled, Reference.Inflate, Crc, CutsBuffer, Near, B.Strayed, Beyond;
      hide Counts, Valid, Sound, Spent, Idle, Filled, Copied;
      dead := false;
      B.NoMore(inflater.blocks.ends, z.stray, From());
      var ok := Fetch();
      if !ok {
        return UNZ_ERRNO, 0, dead;
      }
      if stored {
        n := CopyTurn();
        err := Z_OK;
      } else {
        err, n := InflateTurn();
        dead := err == Z_MEM_ERROR;
        if z.availOut > 0 && !dead { Settle(err); }
        if z.availOut > 0 && err != Z_OK { Why(err); }
      }
      InBounds();
    }

    lemma Why(err: int)
      requires Counts() && z.availOut > 0 && err != Z_OK
      requires err == Z_STREAM_END ==> z.output == Reference.Inflate(z.input).out
      requires err == Z_BUF_ERROR ==> z.availIn == 0 && restReadCompressed == 0
      requires err == Z_BUF_ERROR && z.nextIn == |z.input| ==> !Tidy(z.input, Reference.Inflate(z.input))
      requires err !in {Z_STREAM_END, Z_BUF_ERROR} ==> Reference.Inflate(z.input).Corrupt?
      ensures Spent()
    {
      hide Reference.Inflate, Crc, CutsBuffer;
    }

    /** Whatever is still to be decoded, no block's end will lie a byte or more before the read buffer: not the next
        one, and after an early end of the call not any. */
    lemma Settle(err: int)
      requires Counts() && (err == Z_BUF_ERROR ==> restReadCompressed == 0)
      requires if err in {Z_OK, Z_BUF_ERROR} then z.availIn == 0 && Beyond(z.input, |inflater.blocks.ends|, z.nextIn)
               else Beyond(z.input, |inflater.blocks.ends|, compressedSize)
      ensures Beyond(z.input, |inflater.blocks.ends|, if err == Z_OK then From() else compressedSize)
    {
      hide Reference.Inflate, Crc, CutsBuffer;
    }

    /** The decoder can do nothing without input. */
    ghost predicate Idle()
      reads this, z, Parts(), inflater.blocks.codes, inflater.blocks.Trees()
    {
      inflater.Valid(z) && inflater.Stalled(z)
    }

    /** unzCloseCurrentFile: a bad checksum is reported only when everything was read. */
    method CloseCurrentFile() returns (err: int)
      requires Counts()
      ensures err == UNZ_CRCERROR <==> |z.output| == uncompressedSize && Crc(0, z.output) != crc32Wait
      ensures err != UNZ_CRCERROR ==> err == UNZ_OK
    {
      err := UNZ_OK;
      if restReadUncompressed == 0 && crc32 != crc32Wait {
        err := UNZ_CRCERROR;
      }
    }
  }

  function Min(a: int, b: int): int {
    if a < b then a else b
  }

  function Sum(lens: seq<nat>): nat {
    if lens == [] then 0 else Sum(lens[..|lens| - 1]) + lens[|lens| - 1]
  }

  lemma {:induction false} SumMono(lens: seq<nat>, i: nat)
    requires i <= |lens|
    ensures Sum(lens[..i]) <= Sum(lens)
    decreases |lens| - i
  {
    if i < |lens| {
      SumMono(lens, i + 1);
      assert lens[..i + 1][..i] == lens[..i];
    } else {
      assert lens[..i] == lens;
    }
  }

  lemma SumNext(lens: seq<nat>, i: nat)
    requires i < |lens|
    ensures Sum(lens[..i + 1]) == Sum(lens[..i]) + lens[i] <= Sum(lens)
  {
    assert lens[..i + 1][..i] == lens[..i];
    SumMono(lens, i + 1);
  }

  lemma NoneRead(lens: seq<nat>, u: nat, x: nat)
    ensures Sum(lens[..0]) == 0 == Min(0, u) == Min(Min(0, u), x)
  {
    assert lens[..0] == [];
  }

  /** `o` bytes are there of `u`, or of the `x` that there are at all; one more call. */
  lemma ReadNext(lens: seq<nat>, i: nat, u: nat, x: nat, o: nat, size: nat)
    requires i < |lens| && o <= u
    ensures var s, n := Sum(lens[..i]), lens[i];
      && (o == Min(s, u) ==> o + Min(n, u - o) == Min(Sum(lens[..i + 1]), u))
      && (o == Min(s, u) && Min(Sum(lens), u) <= size ==> Min(n, u - o) <= size - o)
      && (o == Min(Min(s, u), x) ==> o + Min(Min(n, u - o), x - o) == Min(Min(Sum(lens[..i + 1]), u), x))
  {
    SumNext(lens, i);
    hide Sum;
  }

  /** The decoder cannot stray: the entry fits the read buffer, or is read by one call that asks for all that is read of
      it, or no block's end cuts a full buffer. */
  ghost predicate Calm(input: seq<byte>, compressedSize: nat, uncompressedSize: nat, lens: seq<nat>) {
    compressedSize <= 16384 || |lens| <= 1 || lens[0] >= uncompressedSize || !CutsBuffer(input)
  }

  lemma StraysNot(inp: seq<byte>, ends: seq<nat>, now: bool, from: nat, k: nat, n: nat)
    requires k <= |ends| && ends <= Reference.Inflate(inp).ends && from <= n
    requires B.Strayed(ends, now, false, from, k) && (n == 0 || Beyond(inp, k, n))
    ensures !now && Beyond(inp, |ends|, n)
  {
    hide Reference.Inflate;
  }

  /** Any caller: an entry opened, read with any sequence of lengths as long as that gives no error, and
      closed.  Closing reports a bad checksum exactly when all of the entry was delivered and what was
      delivered has another checksum.  The condition says that no call goes on for ever (StoredEndsIff).  A deflated
      entry comes out right as long as the decoder does not stray; and it comes out whole if there is a byte behind its
      compressed data. */
  method AnyReader(archive: seq<byte>, start: nat, compressedSize: nat, uncompressedSize: nat, crc: nat, stored: bool,
                   lens: seq<nat>) returns (out: seq<byte>, err: int, ghost stray: bool)
    requires start <= |archive|
    requires stored ==> Min(Sum(lens), uncompressedSize) <= compressedSize || start + compressedSize > |archive|
    ensures |out| <= uncompressedSize
    ensures stored ==> out <= Compressed(archive, start, compressedSize)
    ensures stored ==> forall i | 0 <= i < |out| :: start + i < |archive| && out[i] == archive[start + i]
    ensures !stored && !stray && start + compressedSize <= |archive| ==>
      out <= Reference.Inflate(archive[start..start + compressedSize]).out
    ensures !stored && !stray ==> out <= Reference.Inflate(Compressed(archive, start, compressedSize)).out
    ensures !stored && Calm(Compressed(archive, start, compressedSize), compressedSize, uncompressedSize, lens) ==>
      !stray
    ensures err == (if |out| == uncompressedSize && Crc(0, out) != crc then -105 else 0)
    ensures stored && start + compressedSize <= |archive| ==> |out| == Min(Sum(lens), uncompressedSize)
    ensures var input := Compressed(archive, start, compressedSize);
      !stored && !stray && start + compressedSize <= |archive| && Tidy(input, Reference.Inflate(input)) ==>
        |out| == Min(Min(Sum(lens), uncompressedSize), |Reference.Inflate(input).out|)
  {
    hide Reference.Inflate, Crc, InflateState.Valid, EntryReader.Valid, EntryReader.Idle, Lasting, Beyond;
    hide CutsBuffer, B.Strayed, EntryReader.Past, EntryReader.Counts, EntryReader.From, Min, Sum;
    var e := new EntryReader(archive, start, compressedSize, uncompressedSize, crc, stored);
    e.Opened();
    NoneRead(lens, uncompressedSize, |Reference.Inflate(e.z.input).out|);
    var r, dead, i := 0, false, 0;
    while i < |lens| && r >= 0 && !dead
      invariant 0 <= i <= |lens| && e.Sound() && (!dead ==> e.Valid()) && (dead ==> !stored)
      invariant fresh(e) && fresh(e.z) && fresh(e.Parts()) &&
        (e.inflater.blocks.codes != null ==> fresh(e.inflater.blocks.codes))
      invariant r < 0 ==> start + compressedSize > |archive|
      invariant stored && r >= 0 ==> |e.z.output| == Min(Sum(lens[..i]), uncompressedSize)
      invariant dead && !e.z.stray ==> Reference.Inflate(e.z.input).Corrupt?
      invariant !stored && !e.z.stray && e.Whole() && !dead ==>
        |e.z.output| == Min(Min(Sum(lens[..i]), uncompressedSize), |Reference.Inflate(e.z.input).out|)
      invariant i == 0 ==> e.From() == 0
      invariant !stored && (i <= 1 || lens[0] >= uncompressedSize) ==> !e.z.stray
      invariant !stored && i > 0 && lens[0] >= uncompressedSize && r >= 0 && !dead ==> e.Past()
    {
      e.InBounds();
      ReadNext(lens, i, uncompressedSize, |Reference.Inflate(e.z.input).out|, |e.z.output|, compressedSize);
      e.EndsIf(lens[i]);
      r, dead := e.ReadCurrentFile(lens[i]);
      i := i + 1;
    }
    assert lens[..|lens|] == lens;
    e.InBounds();
    out, stray := e.z.output, e.z.stray;
    CompressedIs(archive, start, compressedSize);
    err := e.CloseCurrentFile();
  }

  lemma CrcNothing()
    ensures Crc(0, []) == 0
  {
    XorZero(ONES);
    XorSelf(ONES);
  }
}
