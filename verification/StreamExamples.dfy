/** Two streams: "aaaa" in one fixed block, and a dynamic block of two-symbol alphabets. */
module StreamExamples {
  import opened Bits
  import opened Huffman
  import opened HuftLengths
  import opened Reference
  import opened InflateTrees
  import opened BitWriter
  import opened Tokens
  import opened Encoder
  import opened FixedCode
  import opened HeaderCode
  import opened Streams

  /** The letter, and a match of three bytes at distance one. */
  function Letters(): seq<Token> {
    [Literal(97), Match(3, 1)]
  }

  lemma LetterBits()
    ensures LenSymbol(3) == 257 && LenExtra(3) == 0 && DistSymbol(1) == 0 && DistExtra(1) == 0
    ensures Body(Letters(), LitWord, DistWord) ==
      [1, 0, 0, 1, 0, 0, 0, 1] + [0, 0, 0, 0, 0, 0, 1] + [0, 0, 0, 0, 0] + [0, 0, 0, 0, 0, 0, 0]
  {
    assert LitWord(97) == Word(145, 8) == [1, 0, 0, 1, 0, 0, 0, 1];
    assert LitWord(257) == Word(1, 7) == [0, 0, 0, 0, 0, 0, 1];
    assert LitWord(256) == Word(0, 7) == [0, 0, 0, 0, 0, 0, 0];
    assert DistWord(0) == Word(0, 5) == [0, 0, 0, 0, 0];
    var ts := Letters();
    assert ts[1..] == [Match(3, 1)] && ts[1..][1..] == [];
  }

  const A: seq<bit> := [1, 1, 0, 1, 0, 0, 1, 0]
  const B: seq<bit> := [0, 0, 1, 0, 0, 0, 0, 0]
  const C: seq<bit> := [0, 1, 0, 0, 0, 0, 0, 0]
  const D: seq<bit> := [0, 0, 0, 0, 0, 0]

  lemma AllBits()
    ensures PiecesOK([FixedPiece(Letters())]) && StreamBits(0, [FixedPiece(Letters())]) == A + (B + (C + D))
  {
    hide *;
    FourContents();
    LetterBits();
    SmallNumbers();
    OnePiece(FixedPiece(Letters()));
    FixedParts(Letters());
    Joined();
  }

  lemma FixedParts(tokens: seq<Token>)
    requires TokensOK(tokens)
    ensures PieceOK(FixedPiece(tokens)) && Kind(FixedPiece(tokens)) == 1
    ensures PieceBody(3, FixedPiece(tokens)) == Body(tokens, LitWord, DistWord)
  {
    hide Body, TokensOK;
  }

  lemma Joined()
    ensures [1] + ([1, 0] + ([1, 0, 0, 1, 0, 0, 0, 1] + [0, 0, 0, 0, 0, 0, 1] + [0, 0, 0, 0, 0] +
      [0, 0, 0, 0, 0, 0, 0])) == A + (B + (C + D))
  {
  }

  lemma SmallNumbers()
    ensures Number(1, 1) == [1] && Number(1, 2) == [1, 0]
  {
  }

  lemma OnePiece(p: Piece)
    requires PieceOK(p)
    ensures PiecesOK([p]) && StreamBits(0, [p]) == Number(1, 1) + (Number(Kind(p), 2) + PieceBody(3, p))
  {
    hide PieceOK, PieceBody, Number;
    assert [p][1..] == [] && PieceBits(0, p, true) + [] == PieceBits(0, p, true);
  }

  /** The stream 4b 04 02 00 says "aaaa". */
  lemma FourLetters()
    ensures PiecesOK([FixedPiece(Letters())])
    ensures Encoded([FixedPiece(Letters())]) == [0x4b, 0x04, 0x02, 0x00]
    ensures ContentsAll([], [FixedPiece(Letters())]) == [97, 97, 97, 97]
  {
    hide *;
    AllBits();
    FourBytes();
    FourContents();
    EncodedIs([FixedPiece(Letters())]);
  }

  lemma EncodedIs(ps: seq<Piece>)
    requires PiecesOK(ps)
    ensures Encoded(ps) == Packed(StreamBits(0, ps))
  {
  }

  lemma FourContents()
    ensures TokensOK(Letters()) && PieceOK(FixedPiece(Letters())) && PiecesOK([FixedPiece(Letters())])
    ensures ContentsAll([], [FixedPiece(Letters())]) == [97, 97, 97, 97]
  {
  }

  lemma FourBytes()
    ensures Packed(A + (B + (C + D))) == [0x4b, 0x04, 0x02, 0x00]
  {
    Sizes4();
    hide *;
    ByteValues();
    FirstByte(A, B + (C + D));
    FirstByte(B, C + D);
    FirstByte(C, D);
    LastByte(D);
  }

  lemma Sizes4()
    ensures |A| == |B| == |C| == 8 && |D| == 6
  {
  }

  lemma FirstByte(a: seq<bit>, s: seq<bit>)
    requires |a| == 8
    ensures Packed(a + s) == [Value(a)] + Packed(s)
  {
    assert (a + s)[..8] == a && (a + s)[8..] == s;
    hide Value;
  }

  lemma LastByte(d: seq<bit>)
    requires 0 < |d| < 8
    ensures Packed(d) == [Value(d)]
  {
    assert d[..|d|] == d && d[|d|..] == [];
    hide Value;
  }

  lemma ByteValues()
    ensures Value(A) == 0x4b && Value(B) == 0x04 && Value(C) == 0x02 && Value(D) == 0x00
  {
    hide Value;
    SixBits(A[2..]);
    SixBits(B[2..]);
    SixBits(C[2..]);
    SixBits(D);
    TwoMore(A);
    TwoMore(B);
    TwoMore(C);
  }

  lemma SixBits(s: seq<bit>)
    requires |s| == 6
    ensures Value(s) == s[0] as int + 2 * s[1] as int + 4 * s[2] as int + 8 * s[3] as int + 16 * s[4] as int +
      32 * s[5] as int
  {
    assert Value(s[6..]) == 0;
    assert s[1..][1..] == s[2..] && s[2..][1..] == s[3..] && s[3..][1..] == s[4..] && s[4..][1..] == s[5..];
    assert Value(s[4..]) == s[4] + 2 * Value(s[5..]) && Value(s[5..]) == s[5];
    assert Value(s[2..]) == s[2] + 2 * Value(s[3..]) && Value(s[3..]) == s[3] + 2 * Value(s[4..]);
  }

  lemma TwoMore(s: seq<bit>)
    requires |s| >= 2
    ensures Value(s) == s[0] + 2 * s[1] + 4 * Value(s[2..])
  {
    assert s[1..][1..] == s[2..];
  }

  // ----- a dynamic block

  /** Byte 0 and the end of the block have one bit each; there are no distances. */
  function TwoSymbols(): Header {
    Header([1] + Repeat(0, 255) + [1], [0],
           [2, 2, 0, 0, 0, 0, 0, 0, 0, 0, 0, 0, 0, 0, 0, 0, 0, 0, 1], 18,
           [One(1), Zeros(138), Zeros(117), One(1), One(0)])
  }

  lemma {:induction false} KraftZeros(b: seq<nat>, n: nat)
    requires LengthsOK(b)
    ensures LengthsOK(b + Repeat(0, n)) && Kraft(b + Repeat(0, n)) == Kraft(b)
  {
    if n == 0 {
      assert b + Repeat(0, n) == b;
    } else {
      var s := b + Repeat(0, n - 1);
      assert b + Repeat(0, n) == s + [0];
      hide Repeat, Kraft, Pow2;
      KraftZeros(b, n - 1);
      KraftZero(s);
    }
  }

  lemma KraftZero(s: seq<nat>)
    requires LengthsOK(s)
    ensures LengthsOK(s + [0]) && Kraft(s + [0]) == Kraft(s)
  {
    assert (s + [0])[..|s|] == s;
  }

  lemma TwoWords(s: seq<nat>)
    requires s == [1] + Repeat(0, 255)
    ensures LengthsOK(s + [1]) && Kraft(s + [1]) == Pow2(BMAX) && MaxLen(s + [1]) == 1 <= BMAX
  {
    assert [] + [1] == [1] && Kraft([]) == 0;
    KraftSnoc([], 1);
    KraftZeros([1], 255);
    KraftSnoc(s, 1);
    assert (s + [1])[0] == 1;
    BoundedMax(s + [1], 1);
  }

  lemma ThreeWords(c: seq<nat>)
    requires c == [2, 2] + Repeat(0, 16) + [1]
    ensures LengthsOK(c) && Kraft(c) == Pow2(BMAX) && 0 < MaxLen(c) <= BMAX
  {
    hide Kraft, Pow2;
    TwoTwos();
    KraftZeros([2, 2], 16);
    KraftSnoc([2, 2] + Repeat(0, 16), 1);
    Pow2Step(14);
    Pow2Step(15);
    SomeLength(c);
  }

  lemma TwoTwos()
    ensures LengthsOK([2, 2]) && Kraft([2, 2]) == 2 * Pow2(13)
  {
    assert [] + [2] == [2] && [2] + [2] == [2, 2] && Kraft([]) == 0;
    hide Kraft, Pow2;
    KraftSnoc([], 2);
    KraftSnoc([2], 2);
  }

  lemma SomeLength(c: seq<nat>)
    requires |c| == 19 && c[18] == 1 && forall i | 0 <= i < 19 :: c[i] <= 2
    ensures 0 < MaxLen(c) <= BMAX
  {
    BoundedMax(c, 2);
  }

  lemma NoWords()
    ensures LengthsOK([0]) && Kraft([0]) == 0 && MaxLen([0]) == 0
  {
    assert [0][..0] == [];
  }

  lemma Spelled()
    ensures var h := TwoSymbols(); Spell([], h.ops, h.lit + h.dist)
  {
    var a := [1] + seq(138, _ => 0);
    var b := a + seq(117, _ => 0);
    var ops := TwoSymbols().ops;
    assert ops[1..] == [Zeros(138), Zeros(117), One(1), One(0)] && ops[1..][1..] == [Zeros(117), One(1), One(0)];
    assert ops[1..][1..][1..] == [One(1), One(0)] && ops[1..][1..][1..][1..] == [One(0)] && [One(0)][1..] == [];
    assert b == [1] + Repeat(0, 255);
    assert [] + [1] == [1];
    assert Spell(b + [1] + [0], [], TwoSymbols().lit + TwoSymbols().dist);
  }

  /** A header as the encoder asks for, and tokens that its codes can send. */
  lemma TwoSymbolsOK()
    ensures PiecesOK([DynamicPiece(TwoSymbols(), [Literal(0), Literal(0)])])
  {
    hide *;
    TwoSymbolsHeader();
    TwoLiterals(TwoSymbols());
  }

  lemma TwoSymbolsHeader()
    ensures HeaderOK(TwoSymbols()) && |TwoSymbols().lit| == 257 && TwoSymbols().lit[256] == TwoSymbols().lit[0] == 1
  {
    hide *;
    var h := TwoSymbols();
    TwoSymbolsFields();
    TwoWords([1] + Repeat(0, 255));
    ThreeWords(h.clen);
    NoWords();
    Spelled();
    FullIsFine(h.lit, h.dist, h.clen);
    HeaderIf(h);
  }

  lemma TwoSymbolsFields()
    ensures var h := TwoSymbols();
      && h.clen == [2, 2] + Repeat(0, 16) + [1] && h.lit == [1] + Repeat(0, 255) + [1] && h.dist == [0]
      && |h.lit| == 257 && |h.dist| == 1 && |h.clen| == 19 && h.sent == 18 && h.lit[256] == h.lit[0] == 1
    ensures var h := TwoSymbols();
      (forall i | 0 <= i < 19 :: h.clen[i] <= 7) && h.clen[Order(18)] == 0 && Named(h.ops, h.clen)
  {
  }

  lemma FullIsFine(lit: seq<nat>, dist: seq<nat>, clen: seq<nat>)
    requires LengthsOK(lit) && LengthsOK(dist) && LengthsOK(clen) && |lit| == 257
    requires Kraft(lit) == Kraft(clen) == Pow2(BMAX) && Kraft(dist) == 0
    requires 0 < MaxLen(lit) <= BMAX && 0 < MaxLen(clen) <= BMAX && MaxLen(dist) == 0
    ensures Usable(lit, dist) && Acceptable(clen)
  {
    hide Kraft, MaxLen, Pow2;
    Pow2Mono(0, BMAX);
  }

  lemma HeaderIf(h: Header)
    requires 257 <= |h.lit| <= 286 && 1 <= |h.dist| <= 30 && LengthsOK(h.lit) && LengthsOK(h.dist)
    requires |h.clen| == 19 && (forall i | 0 <= i < 19 :: h.clen[i] <= 7) && Acceptable(h.clen) && MaxLen(h.clen) > 0
    requires h.sent == 18 && h.clen[Order(18)] == 0 && Usable(h.lit, h.dist)
    requires Spell([], h.ops, h.lit + h.dist) && Named(h.ops, h.clen)
    ensures HeaderOK(h)
  {
    hide Acceptable, Kraft, MaxLen, Spell, Named, Usable, Order;
  }

  lemma TwoLiterals(h: Header)
    requires HeaderOK(h) && |h.lit| == 257 && h.lit[256] == h.lit[0] == 1
    ensures PiecesOK([DynamicPiece(h, [Literal(0), Literal(0)])])
  {
    hide HeaderOK;
  }
}
