/** Whole streams: any blocks, of all three kinds, are encoded and come back, from the reference decoder and from
    inflate. */
module Streams {
  import opened Bits
  import opened Status
  import opened Huffman
  import opened HuftLengths
  import opened Reference
  import opened InflateStream
  import opened BitWriter
  import opened Tokens
  import opened Encoder
  import opened FixedCode
  import opened HeaderCode

  datatype Piece =
    | StoredPiece(bytes: seq<byte>)
    | FixedPiece(tokens: seq<Token>)
    | DynamicPiece(head: Header, tokens: seq<Token>)

  /** All symbols that a token needs have codes. */
  predicate Coded(t: Token, lit: seq<nat>, dist: seq<nat>)
    requires TokenOK(t)
  {
    match t
    case Literal(v) => v < |lit| && lit[v] > 0
    case Match(len, d) =>
      LenSymbol(len) < |lit| && lit[LenSymbol(len)] > 0 && DistSymbol(d) < |dist| && dist[DistSymbol(d)] > 0
  }

  ghost predicate PieceOK(p: Piece) {
    match p
    case StoredPiece(bytes) => |bytes| < 0x1_0000
    case FixedPiece(tokens) => TokensOK(tokens)
    case DynamicPiece(h, tokens) =>
      HeaderOK(h) && TokensOK(tokens) && h.lit[256] > 0 &&
      forall i | 0 <= i < |tokens| :: Coded(tokens[i], h.lit, h.dist)
  }

  ghost predicate PiecesOK(ps: seq<Piece>) {
    forall i | 0 <= i < |ps| :: PieceOK(ps[i])
  }

  // ----- meaning

  ghost function Contents(out: seq<byte>, p: Piece): seq<byte>
    requires PieceOK(p)
  {
    match p
    case StoredPiece(bytes) => out + bytes
    case FixedPiece(tokens) => Expand(out, tokens)
    case DynamicPiece(_, tokens) => Expand(out, tokens)
  }

  ghost function ContentsAll(out: seq<byte>, ps: seq<Piece>): seq<byte>
    requires PiecesOK(ps)
    decreases |ps|
  {
    if ps == [] then out else ContentsAll(Contents(out, ps[0]), ps[1..])
  }

  // ----- bits

  function Kind(p: Piece): nat {
    match p
    case StoredPiece(_) => 0
    case FixedPiece(_) => 1
    case DynamicPiece(_, _) => 2
  }

  /** Zeros up to the next byte boundary. */
  function Pad(pos: nat): seq<bit> {
    Number(0, (8 - pos % 8) % 8)
  }

  function BytesBits(bytes: seq<byte>): seq<bit> {
    if bytes == [] then [] else Number(bytes[0], 8) + BytesBits(bytes[1..])
  }

  /** Length, complement and bytes, from a byte boundary. */
  function StoredBits(pos: nat, bytes: seq<byte>): seq<bit>
    requires |bytes| < 0x1_0000
  {
    Pad(pos) + (Number(|bytes|, 16) + (Number(0xffff - |bytes|, 16) + BytesBits(bytes)))
  }

  /** What follows the three bits of a block's header, which end at `pos`. */
  ghost function PieceBody(pos: nat, p: Piece): seq<bit>
    requires PieceOK(p)
  {
    match p
    case StoredPiece(bytes) => StoredBits(pos, bytes)
    case FixedPiece(tokens) => Body(tokens, LitWord, DistWord)
    case DynamicPiece(h, tokens) => HeaderBits(h) + Body(tokens, Canonical(h.lit), Canonical(h.dist))
  }

  ghost function PieceBits(pos: nat, p: Piece, last: bool): seq<bit>
    requires PieceOK(p)
  {
    Number(if last then 1 else 0, 1) + (Number(Kind(p), 2) + PieceBody(pos + 3, p))
  }

  /** The blocks from position `pos` on; the last one says so. */
  ghost function StreamBits(pos: nat, ps: seq<Piece>): seq<bit>
    requires PiecesOK(ps)
    decreases |ps|
  {
    if ps == [] then []
    else
      var s := PieceBits(pos, ps[0], |ps| == 1);
      s + StreamBits(pos + |s|, ps[1..])
  }

  ghost function Encoded(ps: seq<Piece>): seq<byte>
    requires PiecesOK(ps)
  {
    Packed(StreamBits(0, ps))
  }

  // ----- reading back

  lemma {:induction false} ReadBytes(inp: seq<byte>, p: nat, bytes: seq<byte>)
    requires Holds(inp, 8 * p, BytesBits(bytes))
    ensures |BytesBits(bytes)| == 8 * |bytes| && p + |bytes| <= |inp| && inp[p..p + |bytes|] == bytes
    decreases |bytes|
  {
    hide Bit, Take;
    if bytes != [] {
      HoldsParts(inp, 8 * p, Number(bytes[0], 8), BytesBits(bytes[1..]));
      assert Pow2(8) == 256;
      TakeNumber(inp, 8 * p, bytes[0], 8);
      TakeByte(inp, p);
      ReadBytes(inp, p + 1, bytes[1..]);
      assert inp[p..p + |bytes|] == [inp[p]] + inp[p + 1..p + 1 + |bytes[1..]|];
    }
  }

  lemma PadAligns(pos: nat)
    ensures pos + |Pad(pos)| == Align(pos) == 8 * (Align(pos) / 8)
  {
  }

  lemma ReadStored(inp: seq<byte>, cur: nat, bytes: seq<byte>, out: seq<byte>)
    requires |bytes| < 0x1_0000 && Holds(inp, cur, StoredBits(cur, bytes))
    ensures Stored(inp, Align(cur), out) == Ended(cur + |StoredBits(cur, bytes)|, out + bytes)
  {
    hide *;
    var n, a := |bytes|, Align(cur);
    var x, y, z := Number(n, 16), Number(0xffff - n, 16), BytesBits(bytes);
    StoredParts(cur, bytes);
    SixteenBits();
    HoldsParts(inp, cur, Pad(cur), x + (y + z));
    HoldsParts(inp, a, x, y + z);
    HoldsParts(inp, a + 16, y, z);
    TakeNumber(inp, a, n, 16);
    TakeNumber(inp, a + 16, 0xffff - n, 16);
    ReadBytes(inp, a / 8 + 4, bytes);
    StoredIs(inp, a, bytes, out);
  }

  lemma StoredParts(cur: nat, bytes: seq<byte>)
    requires |bytes| < 0x1_0000
    ensures StoredBits(cur, bytes) ==
      Pad(cur) + (Number(|bytes|, 16) + (Number(0xffff - |bytes|, 16) + BytesBits(bytes)))
    ensures cur + |Pad(cur)| == Align(cur) == 8 * (Align(cur) / 8)
  {
    hide Number, BytesBits, Pad, Align, HeaderOK;
    PadAligns(cur);
  }

  lemma StoredIs(inp: seq<byte>, a: nat, bytes: seq<byte>, out: seq<byte>)
    requires a % 8 == 0 && a + 32 + 8 * |bytes| <= 8 * |inp| && |bytes| < 0x1_0000
    requires Take(inp, a, 16) == |bytes| && Take(inp, a + 16, 16) == 0xffff - |bytes|
    requires inp[a / 8 + 4..a / 8 + 4 + |bytes|] == bytes
    ensures Stored(inp, a, out) == Ended(a + 32 + 8 * |bytes|, out + bytes)
  {
    hide Take;
    assert (a + 32) / 8 == a / 8 + 4;
  }

  lemma SixteenBits()
    ensures Pow2(16) == 0x1_0000
  {
    Pow2Add(8, 8);
    assert Pow2(8) == 256;
  }

  lemma FixedCovers(t: Token)
    requires TokenOK(t)
    ensures Covers(t, FixedLit(), LitWord, FixedDist(), DistWord)
  {
    match t
    case Literal(v) => LitSends(v);
    case Match(len, d) =>
      LenTable(len);
      DistTable(d);
      LitSends(LenSymbol(len));
      DistSends(DistSymbol(d));
  }

  lemma ReadFixed(inp: seq<byte>, cur: nat, tokens: seq<Token>, out: seq<byte>)
    requires TokensOK(tokens) && Holds(inp, cur, Body(tokens, LitWord, DistWord))
    ensures LitLens(FixedLit()) && DistLens(FixedDist())
    ensures Codes(inp, cur, FixedLit(), FixedDist(), out) ==
      Ended(cur + |Body(tokens, LitWord, DistWord)|, Expand(out, tokens))
  {
    hide *;
    FixedLens();
    FixedCoversAll(tokens);
    ReadBody(inp, cur, FixedLit(), LitWord, FixedDist(), DistWord, out, tokens);
  }

  lemma FixedLens()
    ensures LitLens(FixedLit()) && DistLens(FixedDist())
  {
    BoundedMax(FixedLit(), 9);
    BoundedMax(FixedDist(), 5);
  }

  lemma FixedCoversAll(tokens: seq<Token>)
    requires TokensOK(tokens)
    ensures CoversAll(tokens, FixedLit(), LitWord, FixedDist(), DistWord)
  {
    hide Sends, Covers, FixedLit, FixedDist;
    LitSends(256);
    forall i | 0 <= i < |tokens| ensures Covers(tokens[i], FixedLit(), LitWord, FixedDist(), DistWord) {
      FixedCovers(tokens[i]);
    }
  }

  lemma CanonicalCovers(t: Token, lit: seq<nat>, dist: seq<nat>)
    requires TokenOK(t) && Coded(t, lit, dist) && LengthsOK(lit) && LengthsOK(dist)
    requires Kraft(lit) <= Pow2(BMAX) && Kraft(dist) <= Pow2(BMAX)
    ensures Covers(t, lit, Canonical(lit), dist, Canonical(dist))
  {
    hide Sends, Canonical, Kraft, Pow2, LenSymbol, DistSymbol;
    match t
    case Literal(v) => CanonicalSends(lit, v);
    case Match(len, d) =>
      CanonicalSends(lit, LenSymbol(len));
      CanonicalSends(dist, DistSymbol(d));
  }

  lemma CanonicalCoversAll(h: Header, tokens: seq<Token>)
    requires PieceOK(DynamicPiece(h, tokens))
    ensures CoversAll(tokens, h.lit, Canonical(h.lit), h.dist, Canonical(h.dist))
  {
    hide Sends, Covers, Canonical, Kraft, Pow2, Coded;
    UsableParts(h);
    CanonicalSends(h.lit, 256);
    forall i | 0 <= i < |tokens| ensures Covers(tokens[i], h.lit, Canonical(h.lit), h.dist, Canonical(h.dist)) {
      CanonicalCovers(tokens[i], h.lit, h.dist);
    }
  }

  lemma UsableParts(h: Header)
    requires HeaderOK(h)
    ensures LengthsOK(h.lit) && LengthsOK(h.dist) && Kraft(h.lit) <= Pow2(BMAX) && Kraft(h.dist) <= Pow2(BMAX)
  {
    var b := h.lit + h.dist;
    forall i | 0 <= i < |h.lit| ensures h.lit[i] <= BMAX { assert h.lit[i] == b[i]; }
    forall i | 0 <= i < |h.dist| ensures h.dist[i] <= BMAX { assert h.dist[i] == b[|h.lit| + i]; }
    hide MaxLen, Spell, Named, Order;
  }

  lemma ReadDynamic(inp: seq<byte>, cur: nat, h: Header, tokens: seq<Token>, out: seq<byte>)
    requires PieceOK(DynamicPiece(h, tokens)) && Holds(inp, cur, PieceBody(cur, DynamicPiece(h, tokens)))
    ensures Dynamic(inp, cur, out) ==
      Ended(cur + |PieceBody(cur, DynamicPiece(h, tokens))|, Expand(out, tokens))
  {
    var w, w' := Canonical(h.lit), Canonical(h.dist);
    hide Dynamic, Codes, HeaderOK, HeaderBits, Body, Canonical, CoversAll, MaxLen, Coded, Holds, Expand;
    HoldsParts(inp, cur, HeaderBits(h), Body(tokens, w, w'));
    ReadHeader(inp, cur, h, out);
    CanonicalCoversAll(h, tokens);
    ReadBody(inp, cur + |HeaderBits(h)|, h.lit, w, h.dist, w', out, tokens);
  }

  lemma ReadPiece(inp: seq<byte>, cur: nat, p: Piece, out: seq<byte>)
    requires PieceOK(p) && Holds(inp, cur, PieceBody(cur, p))
    ensures BlockBody(inp, cur, Kind(p), out) == Ended(cur + |PieceBody(cur, p)|, Contents(out, p))
  {
    hide Stored, Dynamic, Codes, FixedLit, FixedDist, Holds, Body, HeaderBits, HeaderOK, Expand, Coded, Canonical;
    match p
    case StoredPiece(bytes) => ReadStored(inp, cur, bytes, out);
    case FixedPiece(tokens) => ReadFixed(inp, cur, tokens, out);
    case DynamicPiece(h, tokens) => ReadDynamic(inp, cur, h, tokens, out);
  }

  /** One block, and what comes after it. */
  lemma ReadBlock(inp: seq<byte>, cur: nat, p: Piece, last: bool, out: seq<byte>, ends: seq<nat>)
    requires PieceOK(p) && Holds(inp, cur, PieceBits(cur, p, last))
    ensures cur + |PieceBits(cur, p, last)| <= 8 * |inp|
    ensures Blocks(inp, cur, out, ends) ==
      After(inp, Ended(cur + |PieceBits(cur, p, last)|, Contents(out, p)), last, Kind(p) != 0, ends)
  {
    hide *;
    var a, k, body := Number(if last then 1 else 0, 1), Number(Kind(p), 2), PieceBody(cur + 3, p);
    BlockParts(cur, p, last);
    HoldsParts(inp, cur, a, k + body);
    HoldsParts(inp, cur + 1, k, body);
    HoldsRoom(inp, cur + 3, body);
    TakeNumber(inp, cur, if last then 1 else 0, 1);
    TakeNumber(inp, cur + 1, Kind(p), 2);
    ReadPiece(inp, cur + 3, p, out);
    BlocksFrom(inp, cur, out, ends);
  }

  lemma BlockParts(cur: nat, p: Piece, last: bool)
    requires PieceOK(p)
    ensures PieceBits(cur, p, last) ==
      Number(if last then 1 else 0, 1) + (Number(Kind(p), 2) + PieceBody(cur + 3, p))
    ensures Pow2(1) == 2 && Pow2(2) == 4 && Kind(p) <= 2
  {
    hide PieceBody, PieceOK, Number;
  }

  lemma BlocksFrom(inp: seq<byte>, cur: nat, out: seq<byte>, ends: seq<nat>)
    requires cur + 3 <= 8 * |inp|
    ensures var kind := Take(inp, cur + 1, 2);
      Blocks(inp, cur, out, ends) ==
      After(inp, BlockBody(inp, cur + 3, kind, out), Take(inp, cur, 1) == 1, kind != 0, ends)
  {
    hide Take, BlockBody, After;
  }

  lemma {:induction false} ReadStream(inp: seq<byte>, cur: nat, ps: seq<Piece>, out: seq<byte>, ends: seq<nat>)
    requires PiecesOK(ps) && ps != [] && Holds(inp, cur, StreamBits(cur, ps))
    ensures var o := Blocks(inp, cur, out, ends);
      o.Finished? && o.out == ContentsAll(out, ps) && o.end == cur + |StreamBits(cur, ps)|
    decreases |ps|
  {
    hide Blocks, PieceBits, PieceOK, Contents, Holds;
    var last := |ps| == 1;
    var s := PieceBits(cur, ps[0], last);
    var more := StreamBits(cur + |s|, ps[1..]);
    HoldsParts(inp, cur, s, more);
    ReadBlock(inp, cur, ps[0], last, out, ends);
    var next := Contents(out, ps[0]);
    if last {
      assert ps[1..] == [];
    } else {
      ReadStream(inp, cur + |s|, ps[1..], next, if Kind(ps[0]) != 0 then ends + [cur + |s|] else ends);
    }
  }

  /** The decoder undoes the encoder, whatever comes behind. */
  lemma ReferenceDecodes(ps: seq<Piece>, tail: seq<byte>)
    requires PiecesOK(ps) && ps != []
    ensures var o := Reference.Inflate(Encoded(ps) + tail);
      o.Finished? && o.out == ContentsAll([], ps) && o.end == |StreamBits(0, ps)|
  {
    hide StreamBits, Blocks, Packed, ContentsAll, PiecesOK, Holds;
    PackedHolds(StreamBits(0, ps), tail);
    ReadStream(Encoded(ps) + tail, 0, ps, [], []);
  }

  /** So does inflate, given a byte behind the stream, however input and room are dealt out, if there is enough of
      both. */
  method InflateDecodes(ghost ps: seq<Piece>, input: seq<byte>, feeds: seq<Feed>, finish: bool)
    returns (output: seq<byte>, r: int)
    requires PiecesOK(ps) && ps != [] && Encoded(ps) < input
    requires feeds != [] && Known(feeds) >= |input| && Given(feeds) >= |ContentsAll([], ps)|
    ensures r == Z_STREAM_END && output == ContentsAll([], ps)
  {
    hide StreamBits, ContentsAll, PiecesOK, Reference.Inflate;
    ghost var tail := input[|Encoded(ps)|..];
    assert input == Encoded(ps) + tail;
    ReferenceDecodes(ps, tail);
    output, r := AnyCaller(input, feeds, finish);
  }
}
