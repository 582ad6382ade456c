/** The output window of inflate_blocks_state: OUTBYTE, WRAP, FLUSH and NEEDOUT. */
module OutWindow {
  import opened Bits
  import opened Status
  import opened Reference
  import opened Window
  import opened BitReader

  /** Bytes sent off from `rd`, up to the end of the window; there the pointers go back to the start. */
  lemma SentOff(win: seq<byte>, rd: nat, wr: nat, out: seq<byte>, sent: nat, n: nat)
    requires Ring(win, rd, wr, out, sent) && rd + n <= if rd <= wr then wr else WSIZE
    ensures rd + n < WSIZE ==> Ring(win, rd + n, wr, out, sent + n)
    ensures rd + n == WSIZE ==> Ring(win, 0, if wr == WSIZE then 0 else wr, out, sent + n)
  {
    if rd + n == WSIZE && wr == WSIZE { WrapWrite(win, rd, out, sent); }
  }

  /** What was delivered came out of the caller's room. */
  ghost predicate Sent(z: ZStream, output0: nat, room0: nat)
    reads z`output, z`availOut
  {
    |z.output| - output0 == room0 - z.availOut >= 0
  }

  lemma NoneSent(z: ZStream)
    ensures Sent(z, |z.output|, z.availOut)
  {
  }

  class Output {
    const window: array<byte>
    var read: nat
    var write: nat
    /** Every byte decoded so far. */
    ghost var out: seq<byte>

    ghost predicate Valid(z: ZStream)
      reads this, window, z`output
    {
      && |z.output| <= |out| && z.output == out[..|z.output|]
      && Ring(window[..], read, write, out, |z.output|)
    }

    constructor (z: ZStream)
      requires z.output == []
      ensures Valid(z) && out == [] && read == write == 0 && fresh(window)
    {
      window := new byte[WSIZE](_ => 0);
      read, write, out := 0, 0, [];
      new;
      RingStart(window[..]);
    }

    /** OUTBYTE */
    method Put(z: ZStream, c: byte)
      requires Valid(z) && Window.Room(read, write) > 0
      modifies this`write, this`out, window
      ensures Valid(z) && out == old(out) + [c]
      ensures WSIZE >= write == old(write) + 1 && Window.Room(read, write) == old(Window.Room(read, write)) - 1
    {
      PutByte(window[..], read, write, out, |z.output|, c);
      ghost var w := window[..];
      window[write] := c;
      assert window[..] == w[write := c];
      write := write + 1;
      out := out + [c];
    }

    /** The bytes of a stored block, as many as there is room for. */
    method PutAll(z: ZStream, bytes: seq<byte>)
      requires Valid(z) && Window.Room(read, write) >= |bytes|
      modifies this`write, this`out, window
      ensures Valid(z) && out == old(out) + bytes
    {
      hide Ring;
      var i := 0;
      while i < |bytes|
        invariant 0 <= i <= |bytes| && Valid(z) && out == old(out) + bytes[..i]
        invariant Window.Room(read, write) >= |bytes| - i
      {
        Put(z, bytes[i]);
        assert bytes[..i + 1] == bytes[..i] + [bytes[i]];
        i := i + 1;
      }
      assert bytes[..i] == bytes;
    }

    /** OUTBYTE(*f), with `f` where the byte `dist` back is. */
    method PutBack(z: ZStream, f: nat, ghost dist: nat)
      requires Valid(z) && Window.Room(read, write) > 0
      requires 1 <= dist <= WSIZE && f == Source(write, dist)
      modifies this`write, this`out, window
      ensures Valid(z) && out == old(out) + [Back(old(out), dist)]
      ensures WSIZE >= write == old(write) + 1 && Window.Room(read, write) == old(Window.Room(read, write)) - 1
    {
      SourceSlot(window[..], read, write, out, |z.output|, dist);
      hide Ring;
      Put(z, window[f]);
    }

    /** WRAP */
    method Wrap(z: ZStream)
      requires Valid(z)
      modifies this`write
      ensures Valid(z) && write == if old(write) == WSIZE && read != 0 then 0 else old(write)
    {
      if write == WSIZE && read != 0 {
        WrapWrite(window[..], read, out, |z.output|);
        write := 0;
      }
    }

    /** inflate_flush: copies as much as possible from the window to the caller, first up to the end of
        the window, then from its start. */
    method Flush(z: ZStream, r0: int) returns (r: int)
      requires Valid(z)
      modifies this`read, this`write, z`output, z`availOut
      ensures Valid(z) && |z.output| - old(|z.output|) == old(z.availOut) - z.availOut >= 0
      ensures read != write ==> z.availOut == 0
      ensures write == old(write) || (old(write) == WSIZE && write == 0)
      ensures r == if r0 == Z_BUF_ERROR && |z.output| > old(|z.output|) then Z_OK else r0
      ensures old(z.availOut == 0 || read == write) ==> read == old(read) && write == old(write)
    {
      r := r0;
      var q := read;
      q, r := CopyOut(z, q, if q <= write then write else WSIZE, r);
      if q == WSIZE {
        q := 0;
        if write == WSIZE { write := 0; }
        read := q;
        q, r := CopyOut(z, q, write, r);
      }
      read := q;
    }

    /** One of the two copies of inflate_flush: from `q0` up to `limit`, as far as the caller has room.
        The new read pointer is not stored yet. */
    method CopyOut(z: ZStream, q0: nat, limit: nat, r0: int) returns (q: nat, r: int)
      requires Valid(z) && q0 == read && limit == (if q0 <= write then write else WSIZE)
      modifies z`output, z`availOut
      ensures |z.output| <= |out| && z.output == out[..|z.output|]
      ensures |z.output| - old(|z.output|) == old(z.availOut) - z.availOut == q - q0 >= 0
      ensures q <= limit && (q < limit ==> z.availOut == 0)
      ensures q < WSIZE ==> Ring(window[..], q, write, out, |z.output|)
      ensures q == WSIZE ==> Ring(window[..], 0, if write == WSIZE then 0 else write, out, |z.output|)
      ensures r == if r0 == Z_BUF_ERROR && |z.output| > old(|z.output|) then Z_OK else r0
    {
      r := r0;
      var n := limit - q0;
      if n > z.availOut { n := z.availOut; }
      if n != 0 && r == Z_BUF_ERROR { r := Z_OK; }
      ghost var sent := |z.output|;
      Segment(window[..], q0, write, out, sent, n);
      SentOff(window[..], q0, write, out, sent, n);
      hide Ring;
      SendOn(z.output, out, window[..], q0, n);
      z.availOut := z.availOut - n;
      z.output := z.output + window[q0..q0 + n];
      q := q0 + n;
    }

    /** NEEDOUT: makes room for a byte, unless window and caller are both full. */
    method Need(z: ZStream, r0: int) returns (ok: bool, r: int)
      requires Valid(z)
      modifies this`read, this`write, z`output, z`availOut
      ensures Valid(z) && |z.output| - old(|z.output|) == old(z.availOut) - z.availOut >= 0
      ensures ok ==> Window.Room(read, write) > 0 && r == Z_OK
      ensures !ok ==> z.availOut == 0 && read != write && (r == r0 || r == Z_OK)
      ensures write == old(write) || (old(write) == WSIZE && write == 0)
    {
      r := r0;
      if Window.Room(read, write) == 0 {
        Wrap(z);
        if Window.Room(read, write) == 0 {
          r := Flush(z, r);
          Wrap(z);
          if Window.Room(read, write) == 0 {
            return false, r;
          }
        }
      }
      return true, Z_OK;
    }
  }

  /** Stopped because nothing more can be written. */
  ghost predicate Full(z: ZStream, win: Output)
    reads z`availOut, win`read, win`write
  {
    z.availOut == 0 && win.read != win.write
  }

  /** Everything decoded that there is room for has been delivered. */
  ghost predicate Drained(z: ZStream, win: Output)
    reads z`availOut, win`read, win`write
  {
    win.read != win.write ==> z.availOut == 0
  }

  lemma SendOn(output: seq<byte>, out: seq<byte>, win: seq<byte>, q: nat, n: nat)
    requires |output| + n <= |out| && output == out[..|output|] && q + n <= |win|
    requires win[q..q + n] == out[|output|..|output| + n]
    ensures output + win[q..q + n] == out[..|output| + n]
  {
  }
}
