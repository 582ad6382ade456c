/** The sliding window as a ring: at once the history that matches copy from and the queue of bytes
    not yet handed to the caller. */
module Window {
  import opened Bits
  import opened Reference

  const WSIZE: nat := 32768

  /** Bytes from `rd` round to `wr`.  A full window has `rd` at the start and `wr` at the end. */
  function Pending(rd: nat, wr: nat): int {
    if rd <= wr then wr - rd else WSIZE - rd + wr
  }

  /** Room to write before `wr` meets `rd` or the end of the window. */
  function Room(rd: nat, wr: nat): int {
    if wr < rd then rd - wr - 1 else WSIZE - wr
  }

  /** Where the byte `i` back is. */
  function Slot(wr: nat, i: nat): int {
    if i <= wr then wr - i else wr + WSIZE - i
  }

  /** The last 32768 bytes decoded can be read back, and those after the first `sent` are the ones from
      `rd` round to `wr`. */
  ghost predicate Ring(win: seq<byte>, rd: nat, wr: nat, out: seq<byte>, sent: nat) {
    && |win| == WSIZE && rd < WSIZE && wr <= WSIZE && sent <= |out| && |out| - sent == Pending(rd, wr)
    && forall i: nat | 1 <= i <= WSIZE :: win[Slot(wr, i)] == Back(out, i)
  }

  /** Empty is when the pointers meet. */
  lemma EmptyIff(win: seq<byte>, rd: nat, wr: nat, out: seq<byte>, sent: nat)
    requires Ring(win, rd, wr, out, sent)
    ensures rd == wr <==> sent == |out|
  {
  }

  lemma RingStart(win: seq<byte>)
    requires |win| == WSIZE && forall i | 0 <= i < WSIZE :: win[i] == 0
    ensures Ring(win, 0, 0, [], 0)
  {
  }

  lemma PutByte(win: seq<byte>, rd: nat, wr: nat, out: seq<byte>, sent: nat, c: byte)
    requires Ring(win, rd, wr, out, sent) && Room(rd, wr) > 0
    ensures wr < WSIZE && Ring(win[wr := c], rd, wr + 1, out + [c], sent)
    ensures Room(rd, wr + 1) == Room(rd, wr) - 1
  {
    var win', out' := win[wr := c], out + [c];
    forall i: nat | 1 <= i <= WSIZE ensures win'[Slot(wr + 1, i)] == Back(out', i) {
      if i > 1 {
        assert Slot(wr + 1, i) == Slot(wr, i - 1) != wr;
        assert win[Slot(wr, i - 1)] == Back(out, i - 1);
      }
    }
  }

  /** The writer goes back to the start of the window. */
  lemma WrapWrite(win: seq<byte>, rd: nat, out: seq<byte>, sent: nat)
    requires Ring(win, rd, WSIZE, out, sent)
    ensures forall i: nat | 1 <= i <= WSIZE :: win[Slot(0, i)] == Back(out, i)
    ensures rd != 0 ==> Ring(win, rd, 0, out, sent)
  {
    forall i: nat | 1 <= i <= WSIZE ensures win[Slot(0, i)] == Back(out, i) {
      assert Slot(0, i) == Slot(WSIZE, i);
    }
  }

  /** Bytes read out of the window, up to its end, are the next ones to send. */
  lemma Segment(win: seq<byte>, rd: nat, wr: nat, out: seq<byte>, sent: nat, n: nat)
    requires Ring(win, rd, wr, out, sent) && rd + n <= if rd <= wr then wr else WSIZE
    ensures sent + n <= |out| && win[rd..rd + n] == out[sent..sent + n]
  {
    var a, b := win[rd..rd + n], out[sent..sent + n];
    forall i | 0 <= i < n ensures a[i] == b[i] {
      var d: nat := |out| - (sent + i);
      assert Slot(wr, d) == rd + i;
      assert win[Slot(wr, d)] == Back(out, d);
    }
    assert a == b;
  }

  /** Where the byte `dist` back is copied from. */
  function Source(wr: nat, dist: nat): int {
    if wr < dist then WSIZE - (dist - wr) else wr - dist
  }

  /** A match source never leaves the window, and holds the byte `dist` back. */
  lemma SourceSlot(win: seq<byte>, rd: nat, wr: nat, out: seq<byte>, sent: nat, dist: nat)
    requires Ring(win, rd, wr, out, sent) && 1 <= dist <= WSIZE
    ensures 0 <= Source(wr, dist) < WSIZE && win[Source(wr, dist)] == Back(out, dist)
  {
    assert win[Slot(wr, dist)] == Back(out, dist);
  }
}
