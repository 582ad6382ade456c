/** What the format does not allow is found bad: each fault, in a block that starts anywhere in a stream. */
module BadStreams {
  import opened Bits
  import opened Huffman
  import opened HuftLengths
  import opened Reference
  import opened CodesMeaning
  import opened BlocksMeaning
  import opened InflateTrees
  import opened BitWriter
  import opened Tokens
  import opened Encoder
  import opened FixedCode
  import opened HeaderCode
  import opened Streams

  /** The three bits of a block's header, and what follows. */
  function Started(last: bit, kind: nat, more: seq<bit>): seq<bit> {
    Number(last, 1) + (Number(kind, 2) + more)
  }

  lemma ReadStart(inp: seq<byte>, cur: nat, last: bit, kind: nat, more: seq<bit>, out: seq<byte>, ends: seq<nat>)
    requires kind < 4 && Holds(inp, cur, Started(last, kind, more))
    ensures cur + 3 + |more| <= 8 * |inp| && Holds(inp, cur + 3, more)
    ensures Blocks(inp, cur, out, ends) ==
      After(inp, BlockBody(inp, cur + 3, kind, out), last == 1, kind != 0, ends)
  {
    hide *;
    StartedIs(last, kind, more);
    HoldsParts(inp, cur, Number(last, 1), Number(kind, 2) + more);
    HoldsParts(inp, cur + 1, Number(kind, 2), more);
    HoldsRoom(inp, cur + 3, more);
    TakeNumber(inp, cur, last, 1);
    TakeNumber(inp, cur + 1, kind, 2);
    BlocksFrom(inp, cur, out, ends);
  }

  lemma StartedIs(last: bit, kind: nat, more: seq<bit>)
    ensures Started(last, kind, more) == Number(last, 1) + (Number(kind, 2) + more)
    ensures Pow2(1) == 2 && Pow2(2) == 4
  {
    hide Number;
  }

  lemma BadAfter(inp: seq<byte>, out: seq<byte>, last: bool, packed: bool, ends: seq<nat>)
    ensures After(inp, BadData(out), last, packed, ends) == Corrupt(out, ends)
  {
    hide Blocks;
  }

  /** There is no fourth kind of block. */
  lemma BadKind(inp: seq<byte>, cur: nat, last: bit, out: seq<byte>, ends: seq<nat>)
    requires Holds(inp, cur, Started(last, 3, []))
    ensures Blocks(inp, cur, out, ends) == Corrupt(out, ends)
  {
    hide Blocks, After, Started, Holds;
    ReadStart(inp, cur, last, 3, [], out, ends);
    BadAfter(inp, out, last == 1, true, ends);
  }

  /** The length of a stored block comes with its complement. */
  lemma BadComplement(inp: seq<byte>, cur: nat, last: bit, n: nat, m: nat, out: seq<byte>, ends: seq<nat>)
    requires n < 0x1_0000 && m < 0x1_0000 && n + m != 0xffff
    requires Holds(inp, cur, Started(last, 0, Pad(cur + 3) + (Number(n, 16) + Number(m, 16))))
    ensures Blocks(inp, cur, out, ends) == Corrupt(out, ends)
  {
    hide *;
    var a := Align(cur + 3);
    ReadStart(inp, cur, last, 0, Pad(cur + 3) + (Number(n, 16) + Number(m, 16)), out, ends);
    PadAligns(cur + 3);
    SixteenBits();
    HoldsParts(inp, cur + 3, Pad(cur + 3), Number(n, 16) + Number(m, 16));
    HoldsParts(inp, a, Number(n, 16), Number(m, 16));
    HoldsRoom(inp, a + 16, Number(m, 16));
    TakeNumber(inp, a, n, 16);
    TakeNumber(inp, a + 16, m, 16);
    ComplementWrong(inp, cur + 3, out);
    BadAfter(inp, out, last == 1, false, ends);
  }

  lemma ComplementWrong(inp: seq<byte>, cur: nat, out: seq<byte>)
    requires Align(cur) + 32 <= 8 * |inp| && Take(inp, Align(cur), 16) + Take(inp, Align(cur) + 16, 16) != 0xffff
    ensures BlockBody(inp, cur, 0, out) == BadData(out)
  {
    hide Take, Align, StoredBytes;
  }

  /** No more than 286 literal and length symbols, and 30 distance symbols. */
  lemma BadSizes(inp: seq<byte>, cur: nat, last: bit, a: nat, b: nat, c: nat, out: seq<byte>, ends: seq<nat>)
    requires a < 32 && b < 32 && c < 16 && (257 + a > 286 || 1 + b > 30)
    requires Holds(inp, cur, Started(last, 2, Number(a, 5) + (Number(b, 5) + Number(c, 4))))
    ensures Blocks(inp, cur, out, ends) == Corrupt(out, ends)
  {
    hide *;
    ReadStart(inp, cur, last, 2, Number(a, 5) + (Number(b, 5) + Number(c, 4)), out, ends);
    ReadFields(inp, cur + 3, a, b, c);
    Fields(a, b, c);
    SizesWrong(inp, cur + 3, out);
    BadAfter(inp, out, last == 1, true, ends);
  }

  lemma SizesWrong(inp: seq<byte>, cur: nat, out: seq<byte>)
    requires cur + 14 <= 8 * |inp| && (Take(inp, cur, 14) % 32 > 29 || Take(inp, cur, 14) / 32 % 32 > 29)
    ensures BlockBody(inp, cur, 2, out) == BadData(out)
  {
    hide Take, WithClens, ReadClens;
  }

  /** Symbols 286 and 287 of the fixed code mean nothing. */
  lemma BadLength(inp: seq<byte>, cur: nat, last: bit, s: nat, out: seq<byte>, ends: seq<nat>)
    requires s in {286, 287} && Holds(inp, cur, Started(last, 1, LitWord(s)))
    ensures Blocks(inp, cur, out, ends) == Corrupt(out, ends)
  {
    hide *;
    ReadStart(inp, cur, last, 1, LitWord(s), out, ends);
    FixedLens();
    LitSends(s);
    ReadWord(inp, cur + 3, FixedLit(), LitWord, s);
    LengthWrong(inp, cur + 3, s, |LitWord(s)|, out);
    BadAfter(inp, out, last == 1, true, ends);
  }

  lemma LengthWrong(inp: seq<byte>, cur: nat, s: nat, n: nat, out: seq<byte>)
    requires s in {286, 287} && LitLens(FixedLit()) && DistLens(FixedDist())
    requires Decode(inp, cur, FixedLit()) == Sym(s, n)
    ensures BlockBody(inp, cur, 1, out) == BadData(out)
  {
    hide Decode, FixedLit, FixedDist, Length, MaxLen;
    CodesSym(inp, cur, FixedLit(), FixedDist(), out, s, n);
  }

  /** Nor do distance symbols 30 and 31. */
  lemma BadDistance(inp: seq<byte>, cur: nat, last: bit, len: nat, s: nat, out: seq<byte>, ends: seq<nat>)
    requires 3 <= len <= 258 && s in {30, 31}
    requires Holds(inp, cur, Started(last, 1, LenPart(len, LitWord) + DistWord(s)))
    ensures Blocks(inp, cur, out, ends) == Corrupt(out, ends)
  {
    hide *;
    var part := LenPart(len, LitWord);
    ReadStart(inp, cur, last, 1, part + DistWord(s), out, ends);
    HoldsParts(inp, cur + 3, part, DistWord(s));
    FixedLens();
    LenTable(len);
    LitSends(LenSymbol(len));
    ReadLength(inp, cur + 3, FixedLit(), LitWord, FixedDist(), out, len);
    NoDistance(inp, cur + 3 + |part|, s);
    DistanceNone(inp, cur + 3 + |part|, FixedLit(), FixedDist(), out, len);
    BodyKind(inp, cur + 3, out);
    BadAfter(inp, out, last == 1, true, ends);
  }

  lemma BodyKind(inp: seq<byte>, cur: nat, out: seq<byte>)
    requires LitLens(FixedLit()) && DistLens(FixedDist())
    ensures BlockBody(inp, cur, 1, out) == Codes(inp, cur, FixedLit(), FixedDist(), out)
  {
    hide Codes, FixedLit, FixedDist;
  }

  lemma NoDistance(inp: seq<byte>, cur: nat, s: nat)
    requires s in {30, 31} && DistLens(FixedDist()) && Holds(inp, cur, DistWord(s))
    ensures Decode(inp, cur, FixedDist()) == NoCode
  {
    var b := FixedDist();
    assert Pow2(5) == 32;
    hide Decode, Take, Pow2, Word, Holds;
    MsbWord(inp, cur, s, 5);
    DistFirst(b);
    DecodeMiss(inp, cur, b);
  }

  lemma DistFirst(b: seq<nat>)
    requires b == Repeat(5, 30)
    ensures MaxLen(b) == 5 && Count(b, 5) == 30 && FirstCode(Counts(b), 5) == 0
  {
    forall len | 0 <= len <= BMAX ensures Counts(b)[len] == if len == 5 then 30 else 0 { CountRepeat(5, 30, len); }
    CountRepeat(5, 30, 5);
    NoneShorter(Counts(b), 5);
    BoundedMax(b, 5);
    assert b[0] == 5;
  }

  // ----- dynamic headers

  /** The sizes and the code length code are such as can be sent; the rest of the header is left open. */
  predicate FrontOK(h: Header) {
    && 257 <= |h.lit| <= 286 && 1 <= |h.dist| <= 30 && |h.clen| == 19 && (forall i | 0 <= i < 19 :: h.clen[i] <= 7)
    && 4 <= h.sent <= 19 && forall i | h.sent <= i < 19 :: h.clen[Order(i)] == 0
  }

  function Front(h: Header): seq<bit>
    requires FrontOK(h)
  {
    Sizes(h) + ClenBits(h.clen, 0, h.sent)
  }

  ghost predicate Codable(clen: seq<nat>) {
    Acceptable(clen) && MaxLen(clen) > 0
  }

  lemma ReadFront(inp: seq<byte>, cur: nat, h: Header, out: seq<byte>)
    requires FrontOK(h) && Holds(inp, cur, Front(h))
    ensures cur + 14 <= 8 * |inp|
    ensures var table := Take(inp, cur, 14);
      && TableOK(table) && NumLit(table) == |h.lit| && NumDist(table) == |h.dist| && MaxLen(h.clen) <= BMAX
      && cur + |Front(h)| <= 8 * |inp|
      && Dynamic(inp, cur, out) ==
         if Codable(h.clen) then LensGoal(inp, cur + |Front(h)|, table, h.clen, [], out) else BadData(out)
  {
    hide *;
    FrontParts(h);
    var clens := ClenBits(h.clen, 0, h.sent);
    HoldsRoom(inp, cur, Front(h));
    HoldsParts(inp, cur, Sizes(h), clens);
    HoldsRoom(inp, cur + 14, clens);
    ReadSizes(inp, cur, h);
    TableHeader(inp, cur, out);
    ReadClenBits(inp, cur + 14, h.clen, h.sent, 0, Repeat(0, 19));
    ClensDecide(inp, cur + 14, cur + 14 + |clens|, Take(inp, cur, 14), h.clen, out);
  }

  lemma FrontParts(h: Header)
    requires FrontOK(h)
    ensures 257 <= |h.lit| <= 286 && 1 <= |h.dist| <= 30 && |h.clen| == 19 && 4 <= h.sent <= 19
    ensures (forall i | 0 <= i < 19 :: h.clen[i] <= 7) && forall i | h.sent <= i < 19 :: h.clen[Order(i)] == 0
    ensures |Sizes(h)| == 14 && Partly(Repeat(0, 19), h.clen, 0) && MaxLen(h.clen) <= BMAX
    ensures Front(h) == Sizes(h) + ClenBits(h.clen, 0, h.sent)
  {
    hide Order, ClenBits;
    BoundedMax(h.clen, 7);
  }

  lemma ClensDecide(inp: seq<byte>, cur: nat, cur': nat, table: nat, clen: seq<nat>, out: seq<byte>)
    requires TableOK(table) && |clen| == 19 && (forall i | 0 <= i < 19 :: clen[i] <= 7) && cur <= 8 * |inp|
    requires ReadClens(inp, cur, NumClen(table), 0, Repeat(0, 19)) == Lens(clen, cur') && MaxLen(clen) <= BMAX
    ensures cur' <= 8 * |inp|
    ensures ClensGoal(inp, cur, table, 0, Repeat(0, 19), out) ==
      if Codable(clen) then LensGoal(inp, cur', table, clen, [], out) else BadData(out)
  {
    hide Acceptable, ReadClens, ReadLens, WithLens, MaxLen, Repeat;
  }

  /** A code length code that is not full, unless it is one code of one bit, or that has no code at all. */
  lemma BadClens(inp: seq<byte>, cur: nat, last: bit, h: Header, out: seq<byte>, ends: seq<nat>)
    requires FrontOK(h) && !Codable(h.clen) && Holds(inp, cur, Started(last, 2, Front(h)))
    ensures Blocks(inp, cur, out, ends) == Corrupt(out, ends)
  {
    hide *;
    ReadStart(inp, cur, last, 2, Front(h), out, ends);
    ReadFront(inp, cur + 3, h, out);
    DynamicKind(inp, cur + 3, out);
    BadAfter(inp, out, last == 1, true, ends);
  }

  lemma DynamicKind(inp: seq<byte>, cur: nat, out: seq<byte>)
    ensures BlockBody(inp, cur, 2, out) == Dynamic(inp, cur, out)
  {
    hide Dynamic;
  }

  /** The lengths spelt so far are `b`. */
  ghost predicate SpeltSoFar(h: Header, b: seq<nat>) {
    && FrontOK(h) && Codable(h.clen) && Spell([], h.ops, b) && Named(h.ops, h.clen) && LengthsOK(b)
    && |b| <= |h.lit| + |h.dist|
  }

  lemma ReadSoFar(inp: seq<byte>, cur: nat, h: Header, b: seq<nat>, more: seq<bit>, out: seq<byte>) returns (at: nat)
    requires SpeltSoFar(h, b) && Holds(inp, cur, Front(h) + (OpsBits(h.ops, Canonical(h.clen)) + more))
    ensures cur + 14 <= 8 * |inp|
    ensures var table := Take(inp, cur, 14);
      && TableOK(table) && NumLit(table) == |h.lit| && NumDist(table) == |h.dist| && MaxLen(h.clen) <= BMAX
      && |h.clen| == 19 && |b| <= Total(table) && at + |more| <= 8 * |inp| && Holds(inp, at, more)
      && Dynamic(inp, cur, out) == LensGoal(inp, at, table, h.clen, b, out)
  {
    hide *;
    SoFarParts(h, b);
    var front, ops := Front(h), OpsBits(h.ops, Canonical(h.clen));
    HoldsParts(inp, cur, front, ops + more);
    HoldsParts(inp, cur + |front|, ops, more);
    at := cur + |front| + |ops|;
    HoldsRoom(inp, at, more);
    ReadFront(inp, cur, h, out);
    ReadOps(inp, cur + |front|, h.clen, |h.lit| + |h.dist|, [], h.ops, b);
    TotalIs(Take(inp, cur, 14));
    LensGoalSame(inp, cur + |front|, at, Take(inp, cur, 14), h.clen, b, out);
  }

  lemma SoFarParts(h: Header, b: seq<nat>)
    requires SpeltSoFar(h, b)
    ensures FrontOK(h) && Codable(h.clen) && Spell([], h.ops, b) && Named(h.ops, h.clen) && LengthsOK(b)
    ensures |b| <= |h.lit| + |h.dist| && |h.clen| == 19 && (forall i | 0 <= i < 19 :: h.clen[i] <= 7)
    ensures Acceptable(h.clen) && forall i | 0 <= i < |h.ops| :: OpOK(h.ops[i])
  {
    hide Spell, Acceptable, Order, MaxLen, OpOK;
  }

  lemma LensGoalSame(inp: seq<byte>, cur: nat, cur': nat, table: nat, clen: seq<nat>, b: seq<nat>, out: seq<byte>)
    requires TableOK(table) && MaxLen(clen) <= BMAX && |clen| == 19 && |b| <= Total(table) && LengthsOK(b)
    requires cur <= 8 * |inp| && cur' <= 8 * |inp|
    requires ReadLens(inp, cur, clen, NumLit(table) + NumDist(table), []) ==
      ReadLens(inp, cur', clen, NumLit(table) + NumDist(table), b)
    ensures LensGoal(inp, cur, table, clen, [], out) == LensGoal(inp, cur', table, clen, b, out)
  {
    hide ReadLens, Codes, Acceptable, MaxLen;
  }

  /** A run that goes past the last length, or repeats a length before there is one. */
  lemma BadRun(inp: seq<byte>, cur: nat, last: bit, h: Header, b: seq<nat>, run: Op, out: seq<byte>, ends: seq<nat>)
    requires SpeltSoFar(h, b) && |b| < |h.lit| + |h.dist| && OpOK(run) && !run.One? && h.clen[OpSymbol(run)] > 0
    requires |b| + run.n > |h.lit| + |h.dist| || (run.Again? && b == [])
    requires Holds(inp, cur, Started(last, 2,
      Front(h) + (OpsBits(h.ops, Canonical(h.clen)) + (Canonical(h.clen)(OpSymbol(run)) + OpBits(run)))))
    ensures Blocks(inp, cur, out, ends) == Corrupt(out, ends)
  {
    hide *;
    SoFarParts(h, b);
    var word := Canonical(h.clen)(OpSymbol(run)) + OpBits(run);
    ReadStart(inp, cur, last, 2, Front(h) + (OpsBits(h.ops, Canonical(h.clen)) + word), out, ends);
    var at := ReadSoFar(inp, cur + 3, h, b, word, out);
    RunCode(h.clen);
    CanonicalSends(h.clen, OpSymbol(run));
    TotalIs(Take(inp, cur + 3, 14));
    RunWrong(inp, at, Take(inp, cur + 3, 14), h.clen, b, run, out);
    DynamicKind(inp, cur + 3, out);
    BadAfter(inp, out, last == 1, true, ends);
  }

  lemma TotalIs(table: nat)
    ensures Total(table) == NumLit(table) + NumDist(table)
  {
  }

  lemma RunWrong(inp: seq<byte>, cur: nat, table: nat, clen: seq<nat>, b: seq<nat>, run: Op, out: seq<byte>)
    requires TableOK(table) && |clen| == 19 && MaxLen(clen) <= BMAX && |b| < Total(table) && LengthsOK(b)
    requires OpOK(run) && !run.One? && (|b| + run.n > Total(table) || (run.Again? && b == []))
    requires Sends(clen, Canonical(clen), OpSymbol(run)) && cur <= 8 * |inp|
    requires Holds(inp, cur, Canonical(clen)(OpSymbol(run)) + OpBits(run))
    ensures LensGoal(inp, cur, table, clen, b, out) == BadData(out)
  {
    hide Decode, Sends, Canonical, Take, Pow2, Count, Bit, LensGoal, TableOK, Total, BitWriter.Word, Number;
    var w := Canonical(clen)(OpSymbol(run));
    HoldsParts(inp, cur, w, OpBits(run));
    HoldsRoom(inp, cur + |w|, OpBits(run));
    ReadWord(inp, cur, clen, Canonical(clen), OpSymbol(run));
    assert CodeLength(inp, cur, clen) == Sym(OpSymbol(run), |w|);
    hide CodeLength, MaxLen, Holds, LengthsOK;
    RunPowers();
    LensMore(inp, cur, table, clen, b, out);
    match run
    case Again(n) => TakeNumber(inp, cur + |w|, n - 3, 2);
    case Zeros(n) =>
      if n <= 10 { TakeNumber(inp, cur + |w|, n - 3, 3); } else { TakeNumber(inp, cur + |w|, n - 11, 7); }
    case One(_) =>
  }

  /** Two alphabets that cannot both be decoded. */
  lemma BadTrees(inp: seq<byte>, cur: nat, last: bit, h: Header, out: seq<byte>, ends: seq<nat>)
    requires SpeltSoFar(h, h.lit + h.dist) && !Usable(h.lit, h.dist)
    requires Holds(inp, cur, Started(last, 2, Front(h) + (OpsBits(h.ops, Canonical(h.clen)) + [])))
    ensures Blocks(inp, cur, out, ends) == Corrupt(out, ends)
  {
    hide *;
    var b := h.lit + h.dist;
    SoFarParts(h, b);
    ReadStart(inp, cur, last, 2, Front(h) + (OpsBits(h.ops, Canonical(h.clen)) + []), out, ends);
    var at := ReadSoFar(inp, cur + 3, h, b, [], out);
    TotalIs(Take(inp, cur + 3, 14));
    LensAll(inp, at, Take(inp, cur + 3, 14), h.clen, b, out);
    assert b[..|h.lit|] == h.lit && b[|h.lit|..] == h.dist;
    DynamicKind(inp, cur + 3, out);
    BadAfter(inp, out, last == 1, true, ends);
  }
}
