/** An encoder for compressed blocks: tokens in, bits out.  What it writes the reference decoder reads back. */
module Encoder {
  import opened Bits
  import opened Huffman
  import opened Reference
  import opened CodesMeaning
  import opened BitWriter
  import opened Tokens

  /** The code words of an alphabet. */
  type Words = nat -> seq<bit>

  /** `w` sends symbol `s` by the canonical code of the lengths `b`. */
  ghost predicate Sends(b: seq<nat>, w: Words, s: nat) {
    s < |b| && 0 < b[s] <= BMAX && Code(b, s) < Pow2(b[s]) && w(s) == Word(Code(b, s), b[s])
  }

  function LenPart(len: nat, lit: Words): seq<bit>
    requires 3 <= len <= 258
  {
    lit(LenSymbol(len)) + Number(LenBits(len), LenExtra(len))
  }

  function DistPart(dist: nat, w: Words): seq<bit>
    requires 1 <= dist <= 32768
  {
    w(DistSymbol(dist)) + Number(DistBits(dist), DistExtra(dist))
  }

  function TokenBits(t: Token, lit: Words, dist: Words): seq<bit>
    requires TokenOK(t)
  {
    match t
    case Literal(v) => lit(v)
    case Match(len, d) => LenPart(len, lit) + DistPart(d, dist)
  }

  /** The tokens, and the end of the block. */
  function Body(tokens: seq<Token>, lit: Words, dist: Words): seq<bit>
    requires TokensOK(tokens)
  {
    if tokens == [] then lit(256) else TokenBits(tokens[0], lit, dist) + Body(tokens[1..], lit, dist)
  }

  /** All symbols that the tokens need have codes. */
  ghost predicate Covers(t: Token, b: seq<nat>, lit: Words, b': seq<nat>, dist: Words)
    requires TokenOK(t)
  {
    match t
    case Literal(v) => Sends(b, lit, v)
    case Match(len, d) => Sends(b, lit, LenSymbol(len)) && Sends(b', dist, DistSymbol(d))
  }

  ghost predicate CoversAll(tokens: seq<Token>, b: seq<nat>, lit: Words, b': seq<nat>, dist: Words)
    requires TokensOK(tokens)
  {
    Sends(b, lit, 256) && forall i | 0 <= i < |tokens| :: Covers(tokens[i], b, lit, b', dist)
  }

  // ----- reading back

  lemma ReadWord(inp: seq<byte>, cur: nat, b: seq<nat>, w: Words, s: nat)
    requires MaxLen(b) <= BMAX && Sends(b, w, s) && Holds(inp, cur, w(s))
    ensures Decode(inp, cur, b) == Sym(s, |w(s)|)
  {
    hide Decode, Code, Take, MaxLen;
    MsbWord(inp, cur, Code(b, s), b[s]);
    DecodeIsCode(inp, cur, b, s, b[s]);
  }

  lemma ReadLiteral(inp: seq<byte>, cur: nat, b: LitCode, lit: Words, b': DistCode, out: seq<byte>, v: byte)
    requires Sends(b, lit, v) && Holds(inp, cur, lit(v))
    ensures Codes(inp, cur, b, b', out) == Codes(inp, cur + |lit(v)|, b, b', out + [v])
  {
    hide Decode, Codes, MaxLen, Sends, Holds;
    ReadWord(inp, cur, b, lit, v);
    CodesSym(inp, cur, b, b', out, v, |lit(v)|);
  }

  lemma ReadEnd(inp: seq<byte>, cur: nat, b: LitCode, lit: Words, b': DistCode, out: seq<byte>)
    requires Sends(b, lit, 256) && Holds(inp, cur, lit(256))
    ensures Codes(inp, cur, b, b', out) == Ended(cur + |lit(256)|, out)
  {
    hide Decode, Codes, MaxLen, Sends, Holds;
    ReadWord(inp, cur, b, lit, 256);
    CodesSym(inp, cur, b, b', out, 256, |lit(256)|);
  }

  lemma ReadLength(inp: seq<byte>, cur: nat, b: LitCode, lit: Words, b': DistCode, out: seq<byte>, len: nat)
    requires 3 <= len <= 258 && Sends(b, lit, LenSymbol(len)) && Holds(inp, cur, LenPart(len, lit))
    ensures Codes(inp, cur, b, b', out) == Distance(inp, cur + |LenPart(len, lit)|, b, b', out, len)
  {
    hide Decode, Codes, MaxLen, Sends, LenSymbol, LenBits, LenExtra, Distance, Length, Take, Pow2;
    var s, e := LenSymbol(len), LenExtra(len);
    LenTable(len);
    var w, x := lit(s), Number(LenBits(len), e);
    HoldsParts(inp, cur, w, x);
    ReadWord(inp, cur, b, lit, s);
    CodesSym(inp, cur, b, b', out, s, |w|);
    TakeNumber(inp, cur + |w|, LenBits(len), e);
    LengthBits(inp, cur + |w|, b, b', out, CPLENS[s - 257], e);
  }

  lemma ReadDistance(inp: seq<byte>, cur: nat, b: LitCode, b': DistCode, dist: Words, out: seq<byte>, len: nat, d: nat)
    requires 1 <= d <= 32768 && Sends(b', dist, DistSymbol(d)) && Holds(inp, cur, DistPart(d, dist))
    ensures Distance(inp, cur, b, b', out, len) ==
      Codes(inp, cur + |DistPart(d, dist)|, b, b', out + Matched(out, d, len))
  {
    hide Decode, Codes, MaxLen, Sends, DistSymbol, DistBits, DistExtra, Distance, DistanceExtra, Take, Pow2, Copy;
    var s, e := DistSymbol(d), DistExtra(d);
    DistTable(d);
    var w, x := dist(s), Number(DistBits(d), e);
    HoldsParts(inp, cur, w, x);
    ReadWord(inp, cur, b', dist, s);
    DistanceSym(inp, cur, b, b', out, len, s, |w|);
    TakeNumber(inp, cur + |w|, DistBits(d), e);
    DistanceBits(inp, cur + |w|, b, b', out, len, CPDIST[s], e);
    CopyMatches(out, d, len);
  }

  lemma ReadToken(inp: seq<byte>, cur: nat, b: LitCode, lit: Words, b': DistCode, dist: Words, out: seq<byte>, t: Token)
    requires TokenOK(t) && Covers(t, b, lit, b', dist) && Holds(inp, cur, TokenBits(t, lit, dist))
    ensures Codes(inp, cur, b, b', out) == Codes(inp, cur + |TokenBits(t, lit, dist)|, b, b', out + Meant(out, t))
  {
    hide Codes, Distance, Sends, LenPart, DistPart, Matched, LenSymbol, DistSymbol, MaxLen;
    match t
    case Literal(v) => ReadLiteral(inp, cur, b, lit, b', out, v);
    case Match(len, d) =>
      HoldsParts(inp, cur, LenPart(len, lit), DistPart(d, dist));
      ReadLength(inp, cur, b, lit, b', out, len);
      ReadDistance(inp, cur + |LenPart(len, lit)|, b, b', dist, out, len, d);
  }

  /** The decoder makes of the bits what the tokens mean. */
  lemma {:induction false} ReadBody(inp: seq<byte>, cur: nat, b: LitCode, lit: Words, b': DistCode, dist: Words,
                                    out: seq<byte>, tokens: seq<Token>)
    requires TokensOK(tokens) && CoversAll(tokens, b, lit, b', dist) && Holds(inp, cur, Body(tokens, lit, dist))
    ensures Codes(inp, cur, b, b', out) == Ended(cur + |Body(tokens, lit, dist)|, Expand(out, tokens))
    decreases |tokens|
  {
    hide Codes, Sends, Covers, TokenBits, Meant, MaxLen;
    if tokens == [] {
      ReadEnd(inp, cur, b, lit, b', out);
    } else {
      var t, more := TokenBits(tokens[0], lit, dist), Body(tokens[1..], lit, dist);
      HoldsParts(inp, cur, t, more);
      ReadToken(inp, cur, b, lit, b', dist, out, tokens[0]);
      ReadBody(inp, cur + |t|, b, lit, b', dist, out + Meant(out, tokens[0]), tokens[1..]);
    }
  }
}
