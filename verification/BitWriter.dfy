/** Writing a bit stream: numbers with the lowest bit first, code words with the highest bit first (section 3.1.1 of
    RFC 1951). */
module BitWriter {
  import opened Bits
  import opened Huffman

  type bit = x: int | 0 <= x < 2

  /** A number in `n` bits, the lowest first. */
  function Number(v: nat, n: nat): (s: seq<bit>)
    ensures |s| == n
  {
    if n == 0 then [] else [v % 2] + Number(v / 2, n - 1)
  }

  /** A code word of `n` bits, the highest first. */
  function Word(v: nat, n: nat): (s: seq<bit>)
    ensures |s| == n
  {
    if n == 0 then [] else Word(v / 2, n - 1) + [v % 2]
  }

  function Value(s: seq<bit>): nat {
    if s == [] then 0 else s[0] + 2 * Value(s[1..])
  }

  lemma {:induction false} ValueBound(s: seq<bit>, n: nat)
    requires |s| <= n
    ensures Value(s) < Pow2(n)
  {
    if s != [] { ValueBound(s[1..], n - 1); }
  }

  /** Eight bits to the byte, the first lowest; the last byte is filled up with zeros. */
  function Packed(s: seq<bit>): (b: seq<byte>)
    ensures |b| == (|s| + 7) / 8
  {
    if s == [] then []
    else
      var k := if |s| < 8 then |s| else 8;
      ValueBound(s[..k], 8);
      assert Pow2(8) == 256;
      [Value(s[..k])] + Packed(s[k..])
  }

  lemma {:induction false} ValueBit(s: seq<bit>, i: nat)
    requires i < |s|
    ensures Shr(Value(s), i) % 2 == s[i]
  {
    if i > 0 { ValueBit(s[1..], i - 1); }
  }

  /** Bit `i` of what was packed is bit `i`, whatever comes behind. */
  lemma {:induction false} PackedBit(s: seq<bit>, tail: seq<byte>, i: nat)
    requires i < |s|
    ensures i < 8 * |Packed(s) + tail| && Bit(Packed(s) + tail, i) == s[i]
    decreases |s|
  {
    var k := if |s| < 8 then |s| else 8;
    var inp := Packed(s) + tail;
    assert inp[0] == Value(s[..k]);
    if i < 8 {
      ValueBit(s[..k], i);
    } else {
      var rest := Packed(s[8..]) + tail;
      PackedBit(s[8..], tail, i - 8);
      assert inp == [Value(s[..8])] + rest;
      assert inp[i / 8] == rest[(i - 8) / 8] && i % 8 == (i - 8) % 8;
    }
  }

  /** The bits `s` stand in the stream at `cur`. */
  ghost predicate Holds(inp: seq<byte>, cur: nat, s: seq<bit>) {
    cur + |s| <= 8 * |inp| && forall i | 0 <= i < |s| :: Bit(inp, cur + i) == s[i]
  }

  lemma PackedHolds(s: seq<bit>, tail: seq<byte>)
    ensures Holds(Packed(s) + tail, 0, s)
  {
    forall i | 0 <= i < |s| ensures Bit(Packed(s) + tail, 0 + i) == s[i] { PackedBit(s, tail, i); }
  }

  lemma HoldsParts(inp: seq<byte>, cur: nat, a: seq<bit>, b: seq<bit>)
    requires Holds(inp, cur, a + b)
    ensures Holds(inp, cur, a) && Holds(inp, cur + |a|, b)
  {
    hide Bit;
    var s := a + b;
    forall i | 0 <= i < |a| ensures Bit(inp, cur + i) == a[i] { assert s[i] == a[i]; }
    forall i | 0 <= i < |b| ensures Bit(inp, cur + |a| + i) == b[i] {
      assert s[|a| + i] == b[i] && Bit(inp, cur + (|a| + i)) == s[|a| + i];
    }
  }

  /** A number is read back. */
  lemma {:induction false} TakeNumber(inp: seq<byte>, cur: nat, v: nat, n: nat)
    requires Holds(inp, cur, Number(v, n)) && v < Pow2(n)
    ensures Take(inp, cur, n) == v
    decreases n
  {
    hide Bit;
    if n > 0 {
      var s := Number(v, n);
      HoldsParts(inp, cur, [v % 2], Number(v / 2, n - 1));
      assert Bit(inp, cur + 0) == s[0];
      TakeNumber(inp, cur + 1, v / 2, n - 1);
    }
  }

  /** A code word is read back. */
  lemma {:induction false} MsbWord(inp: seq<byte>, cur: nat, v: nat, n: nat)
    requires Holds(inp, cur, Word(v, n)) && v < Pow2(n)
    ensures cur + n <= 8 * |inp| && Msb(inp, cur, n) == v
    decreases n
  {
    hide Bit, Rev, Take;
    if n > 0 {
      var w := Word(v / 2, n - 1);
      HoldsParts(inp, cur, w, [v % 2]);
      MsbWord(inp, cur, v / 2, n - 1);
      RevTakeSnoc(inp, cur, n - 1);
      assert Bit(inp, cur + (n - 1) + 0) == [v % 2][0];
    } else {
      RevNone(Take(inp, cur, 0));
    }
  }
}
