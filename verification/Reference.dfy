/** A one-shot decoder for the format of RFC 1951, on a bit stream and a plain byte sequence: no bit
    buffer, no window, no tables, no suspension. */
module Reference {
  import opened Bits
  import opened Huffman

  /** Lengths and extra bits for literal/length codes 257 to 287 (section 3.2.5); 112 marks the two
      codes that do not occur. */
  const CPLENS: seq<nat> := [3, 4, 5, 6, 7, 8, 9, 10, 11, 13, 15, 17, 19, 23, 27, 31,
                             35, 43, 51, 59, 67, 83, 99, 115, 131, 163, 195, 227, 258, 0, 0]
  const CPLEXT: seq<nat> := [0, 0, 0, 0, 0, 0, 0, 0, 1, 1, 1, 1, 2, 2, 2, 2,
                             3, 3, 3, 3, 4, 4, 4, 4, 5, 5, 5, 5, 0, 112, 112]

  /** Distances and extra bits for distance codes 0 to 29. */
  const CPDIST: seq<nat> := [1, 2, 3, 4, 5, 7, 9, 13, 17, 25, 33, 49, 65, 97, 129, 193,
                             257, 385, 513, 769, 1025, 1537, 2049, 3073, 4097, 6145,
                             8193, 12289, 16385, 24577]
  const CPDEXT: seq<nat> := [0, 0, 0, 0, 1, 1, 2, 2, 3, 3, 4, 4, 5, 5, 6, 6,
                             7, 7, 8, 8, 9, 9, 10, 10, 11, 11, 12, 12, 13, 13]

  /** Order of the code length code lengths (section 3.2.7). */
  const BORDER: seq<nat> := [16, 17, 18, 0, 8, 7, 9, 6, 10, 5, 11, 4, 12, 3, 13, 2, 14, 1, 15]

  // ----- LZ77

  /** The byte `d` back.  Before the start of the output lies a window of zero bytes. */
  function Back(out: seq<byte>, d: nat): byte
    requires d >= 1
  {
    if d <= |out| then out[|out| - d] else 0
  }

  /** Each byte appended is the one `dist` back, whether or not that one was itself just appended. */
  function Copy(out: seq<byte>, dist: nat, len: nat): (r: seq<byte>)
    requires dist >= 1
    ensures out <= r && |r| == |out| + len
    decreases len
  {
    if len == 0 then out else Copy(out + [Back(out, dist)], dist, len - 1)
  }

  // ----- compressed data

  /** How the data of one block ends. */
  datatype Block = Ended(cur: nat, out: seq<byte>) | BadData(out: seq<byte>) | CutShort(out: seq<byte>)

  ghost predicate Grows(inp: seq<byte>, cur: nat, out: seq<byte>, r: Block) {
    out <= r.out && (r.Ended? ==> cur <= r.cur <= 8 * |inp|)
  }

  predicate LitLens(b: seq<nat>) { |b| <= 288 && MaxLen(b) <= BMAX }
  predicate DistLens(b: seq<nat>) { |b| <= 30 && MaxLen(b) <= BMAX }

  /** Code lengths of a literal/length alphabet, and of a distance alphabet. */
  type LitCode = b: seq<nat> | LitLens(b) witness []
  type DistCode = b: seq<nat> | DistLens(b) witness []

  /** Literals and matches up to the end-of-block code (section 3.2.3). */
  ghost function Codes(inp: seq<byte>, cur: nat, lit: LitCode, dist: DistCode, out: seq<byte>): (r: Block)
    ensures Grows(inp, cur, out, r)
    decreases 8 * |inp| - cur, 3
  {
    match Decode(inp, cur, lit)
    case NeedMore => CutShort(out)
    case NoCode => BadData(out)
    case Sym(sym, n) =>
      if sym < 256 then Codes(inp, cur + n, lit, dist, out + [sym])
      else if sym == 256 then Ended(cur + n, out)
      else if CPLEXT[sym - 257] == 112 then BadData(out)
      else Length(inp, cur + n, lit, dist, out, CPLENS[sym - 257], CPLEXT[sym - 257])
  }

  /** The extra bits of a length, then the distance. */
  ghost function Length(inp: seq<byte>, cur: nat, lit: LitCode, dist: DistCode, out: seq<byte>,
                        base: nat, extra: nat): (r: Block)
    ensures Grows(inp, cur, out, r)
    decreases 8 * |inp| - cur, 2
  {
    if cur + extra > 8 * |inp| then CutShort(out)
    else Distance(inp, cur + extra, lit, dist, out, base + Take(inp, cur, extra))
  }

  ghost function Distance(inp: seq<byte>, cur: nat, lit: LitCode, dist: DistCode, out: seq<byte>, len: nat): (r: Block)
    ensures Grows(inp, cur, out, r)
    decreases 8 * |inp| - cur, 1
  {
    match Decode(inp, cur, dist)
    case NeedMore => CutShort(out)
    case NoCode => BadData(out)
    case Sym(sym, n) => DistPositive(sym); DistanceExtra(inp, cur + n, lit, dist, out, len, CPDIST[sym], CPDEXT[sym])
  }

  lemma DistPositive(sym: nat)
    requires sym < 30
    ensures CPDIST[sym] >= 1
  {
  }

  /** The extra bits of a distance, the copy, and on. */
  ghost function DistanceExtra(inp: seq<byte>, cur: nat, lit: LitCode, dist: DistCode, out: seq<byte>, len: nat,
                               base: nat, extra: nat): (r: Block)
    requires base >= 1
    ensures Grows(inp, cur, out, r)
    decreases 8 * |inp| - cur, 4
  {
    if cur + extra > 8 * |inp| then CutShort(out)
    else Codes(inp, cur + extra, lit, dist, Copy(out, base + Take(inp, cur, extra), len))
  }

  // ----- stored blocks

  /** `left` bytes as they are, from a byte boundary (section 3.2.4). */
  ghost function StoredBytes(inp: seq<byte>, cur: nat, left: nat, out: seq<byte>): (r: Block)
    requires cur % 8 == 0 && cur <= 8 * |inp|
    ensures Grows(inp, cur, out, r)
  {
    var p := cur / 8;
    if p + left > |inp| then CutShort(out + inp[p..]) else Ended(cur + 8 * left, out + inp[p..p + left])
  }

  ghost function Stored(inp: seq<byte>, cur: nat, out: seq<byte>): (r: Block)
    requires cur % 8 == 0
    ensures Grows(inp, cur, out, r)
  {
    if cur + 32 > 8 * |inp| then CutShort(out)
    else
      var len, nlen := Take(inp, cur, 16), Take(inp, cur + 16, 16);
      if nlen != 0xffff - len then BadData(out) else StoredBytes(inp, cur + 32, len, out)
  }

  // ----- dynamic headers

  /** A code set the decoder takes: full, or one code of one bit, or none. */
  ghost predicate Acceptable(b: seq<nat>) {
    MaxLen(b) <= BMAX && (Kraft(b) == Pow2(BMAX) || (MaxLen(b) <= 1 && Kraft(b) < Pow2(BMAX)))
  }

  /** A code length symbol.  Where only one code of one bit is defined, both bits stand for it. */
  ghost function CodeLength(inp: seq<byte>, cur: nat, clen: seq<nat>): (r: Decoded)
    requires MaxLen(clen) <= BMAX
    ensures r.Sym? ==> r.sym < |clen| && 1 <= r.len <= BMAX && cur + r.len <= 8 * |inp|
  {
    var d := Decode(inp, cur, clen);
    if d.NoCode? && MaxLen(clen) == 1 && Count(clen, 1) > 0 && cur + 1 <= 8 * |inp| then Sym(Nth(clen, 1, 0), 1) else d
  }

  datatype Lens = Lens(b: seq<nat>, cur: nat) | LensBad | LensShort

  function Repeat(v: nat, n: nat): (r: seq<nat>)
    ensures |r| == n && forall i | 0 <= i < n :: r[i] == v
  {
    seq(n, _ => v)
  }

  /** The code lengths, literal/length and distance as one list of `total`; `acc` is what is read so far.
      Symbol 16 repeats the last length 3-6 times, 17 and 18 put in 3-10 and 11-138 zeros. */
  ghost function ReadLens(inp: seq<byte>, cur: nat, clen: seq<nat>, total: nat, acc: seq<nat>): (r: Lens)
    requires MaxLen(clen) <= BMAX && |clen| == 19
    requires |acc| <= total && forall i | 0 <= i < |acc| :: acc[i] <= BMAX
    ensures r.Lens? ==> |r.b| == total && cur <= r.cur && (cur <= 8 * |inp| ==> r.cur <= 8 * |inp|)
                        && forall i | 0 <= i < total :: r.b[i] <= BMAX
    decreases 8 * |inp| - cur
  {
    if |acc| == total then Lens(acc, cur)
    else
      match CodeLength(inp, cur, clen)
      case NeedMore => LensShort
      case NoCode => LensBad
      case Sym(c, n) =>
        if c < 16 then ReadLens(inp, cur + n, clen, total, acc + [c])
        else
          var extra := if c == 18 then 7 else c - 14;
          if cur + n + extra > 8 * |inp| then LensShort
          else
            var rep := (if c == 18 then 11 else 3) + Take(inp, cur + n, extra);
            if |acc| + rep > total || (c == 16 && acc == []) then LensBad
            else ReadLens(inp, cur + n + extra, clen, total,
                          acc + Repeat(if c == 16 then acc[|acc| - 1] else 0, rep))
  }

  /** The code lengths of the code length code: `n` of them sent, the rest zero. */
  ghost function ReadClens(inp: seq<byte>, cur: nat, n: nat, idx: nat, acc: seq<nat>): (r: Lens)
    requires |acc| == 19 && n <= 19 && forall i | 0 <= i < 19 :: acc[i] <= 7
    ensures r.Lens? ==> |r.b| == 19 && cur <= r.cur && (cur <= 8 * |inp| ==> r.cur <= 8 * |inp|)
                        && forall i | 0 <= i < 19 :: r.b[i] <= 7
    decreases 19 - idx
  {
    if idx >= 19 then Lens(acc, cur)
    else if idx >= n then ReadClens(inp, cur, n, idx + 1, acc[BORDER[idx] := 0])
    else if cur + 3 > 8 * |inp| then LensShort
    else
      TakeBound(inp, cur, 3);
      assert Pow2(3) == 8;
      ReadClens(inp, cur + 3, n, idx + 1, acc[BORDER[idx] := Take(inp, cur, 3)])
  }

  function NumLit(table: nat): nat { 257 + table % 32 }
  function NumDist(table: nat): nat { 1 + (table / 32) % 32 }
  function NumClen(table: nat): nat { 4 + table / 1024 }

  lemma BoundedMax(b: seq<nat>, m: nat)
    requires forall i | 0 <= i < |b| :: b[i] <= m
    ensures MaxLen(b) <= m
  {
  }

  /** The tables are sent; the codes follow. */
  ghost function WithLens(inp: seq<byte>, cur: nat, table: nat, r: Lens, out: seq<byte>): (k: Block)
    requires table % 32 <= 29 && (table / 32) % 32 <= 29
    requires r.Lens? ==> |r.b| == NumLit(table) + NumDist(table) && cur <= r.cur <= 8 * |inp|
                         && forall i | 0 <= i < |r.b| :: r.b[i] <= BMAX
    ensures Grows(inp, cur, out, k)
  {
    match r
    case LensShort => CutShort(out)
    case LensBad => BadData(out)
    case Lens(b, cur') =>
      var lit, dist := b[..NumLit(table)], b[NumLit(table)..];
      BoundedMax(lit, BMAX);
      BoundedMax(dist, BMAX);
      if Acceptable(lit) && MaxLen(lit) > 0 && Acceptable(dist) && (MaxLen(dist) > 0 || NumLit(table) == 257)
      then Codes(inp, cur', lit, dist, out) else BadData(out)
  }

  ghost function WithClens(inp: seq<byte>, cur: nat, table: nat, r: Lens, out: seq<byte>): (k: Block)
    requires table % 32 <= 29 && (table / 32) % 32 <= 29
    requires r.Lens? ==> |r.b| == 19 && cur <= r.cur <= 8 * |inp| && forall i | 0 <= i < 19 :: r.b[i] <= 7
    ensures Grows(inp, cur, out, k)
  {
    match r
    case LensShort => CutShort(out)
    case LensBad => BadData(out)
    case Lens(clen, cur') =>
      BoundedMax(clen, 7);
      if Acceptable(clen) && MaxLen(clen) > 0 then
        WithLens(inp, cur', table, ReadLens(inp, cur', clen, NumLit(table) + NumDist(table), []), out)
      else BadData(out)
  }

  ghost function Dynamic(inp: seq<byte>, cur: nat, out: seq<byte>): (k: Block)
    ensures Grows(inp, cur, out, k)
  {
    if cur + 14 > 8 * |inp| then CutShort(out)
    else
      var table := Take(inp, cur, 14);
      if table % 32 > 29 || (table / 32) % 32 > 29 then BadData(out)
      else
        TableBound(inp, cur);
        WithClens(inp, cur + 14, table, ReadClens(inp, cur + 14, NumClen(table), 0, Repeat(0, 19)), out)
  }

  lemma TableBound(inp: seq<byte>, cur: nat)
    requires cur + 14 <= 8 * |inp|
    ensures Take(inp, cur, 14) < 16384 && NumClen(Take(inp, cur, 14)) <= 19
  {
    TakeBound(inp, cur, 14);
    Pow2Add(7, 7);
    assert Pow2(7) == 128;
  }

  // ----- blocks

  /** Lengths of the fixed codes (section 3.2.6). */
  function FixedLit(): seq<nat> { Repeat(8, 144) + Repeat(9, 112) + Repeat(7, 24) + Repeat(8, 8) }
  function FixedDist(): seq<nat> { Repeat(5, 30) }

  /** How the stream ends.  `ends` are the positions at which compressed blocks end that are not the last. */
  datatype Outcome =
    | Finished(out: seq<byte>, end: nat, ends: seq<nat>)
    | Corrupt(out: seq<byte>, ends: seq<nat>)
    | Starved(out: seq<byte>, ends: seq<nat>)

  /** What is appended to `ends` lies between `cur` and the end of the input. */
  ghost predicate EndsFrom(inp: seq<byte>, cur: nat, ends: seq<nat>, r: Outcome) {
    ends <= r.ends && forall i | |ends| <= i < |r.ends| :: cur <= r.ends[i] <= 8 * |inp|
  }

  function Align(cur: nat): (r: nat)
    ensures r % 8 == 0
  {
    (cur + 7) / 8 * 8
  }

  ghost function BlockBody(inp: seq<byte>, cur: nat, kind: nat, out: seq<byte>): (r: Block)
    ensures Grows(inp, cur, out, r)
  {
    if kind == 0 then Stored(inp, Align(cur), out)
    else if kind == 1 then
      BoundedMax(FixedLit(), 9);
      BoundedMax(FixedDist(), 5);
      Codes(inp, cur, FixedLit(), FixedDist(), out)
    else if kind == 2 then Dynamic(inp, cur, out)
    else BadData(out)
  }

  /** What comes after a block, which is `packed` unless it is stored. */
  ghost function After(inp: seq<byte>, b: Block, last: bool, packed: bool, ends: seq<nat>): (r: Outcome)
    requires b.Ended? ==> b.cur <= 8 * |inp|
    ensures b.out <= r.out && (r.Finished? ==> b.Ended? && b.cur <= r.end)
    ensures EndsFrom(inp, if b.Ended? then b.cur else 0, ends, r)
    ensures !b.Ended? ==> r.ends == ends
    decreases if b.Ended? then 8 * |inp| - b.cur else 0, 2
  {
    match b
    case BadData(out) => Corrupt(out, ends)
    case CutShort(out) => Starved(out, ends)
    case Ended(cur, out) =>
      if last then Finished(out, cur, ends) else Blocks(inp, cur, out, if packed then ends + [cur] else ends)
  }

  /** Blocks from position `cur` to the last one. */
  ghost function Blocks(inp: seq<byte>, cur: nat, out: seq<byte>, ends: seq<nat>): (r: Outcome)
    ensures out <= r.out && (r.Finished? ==> cur < r.end) && EndsFrom(inp, cur, ends, r)
    decreases 8 * |inp| - cur, 1
  {
    if cur + 3 > 8 * |inp| then Starved(out, ends)
    else
      var kind := Take(inp, cur + 1, 2);
      After(inp, BlockBody(inp, cur + 3, kind, out), Take(inp, cur, 1) == 1, kind != 0, ends)
  }

  ghost function Inflate(inp: seq<byte>): Outcome {
    Blocks(inp, 0, [], [])
  }
}
