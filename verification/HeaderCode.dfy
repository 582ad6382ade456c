/** The header of a dynamic block (section 3.2.7 of RFC 1951): how code lengths are sent, and that they are read
    back. */
module HeaderCode {
  import opened Bits
  import opened Huffman
  import opened HuftLengths
  import opened Reference
  import opened InflateTrees
  import opened BlocksMeaning
  import opened BitWriter
  import opened Encoder

  // ----- the order of the code length code lengths

  /** First the three run symbols, then no code, then outwards from 8: up, down, up, down. */
  function Order(i: nat): nat
    requires i < 19
  {
    if i < 3 then 16 + i else if i == 3 then 0 else if i % 2 == 0 then 8 + (i - 4) / 2 else 7 - (i - 5) / 2
  }

  /** Where a symbol's length is sent. */
  function Place(s: nat): nat
    requires s < 19
  {
    if s >= 16 then s - 16 else if s == 0 then 3 else if s >= 8 then 4 + 2 * (s - 8) else 5 + 2 * (7 - s)
  }

  lemma OrderEach(s: nat)
    requires s < 19
    ensures Place(s) < 19 && Order(Place(s)) == s
  {
  }

  lemma PlaceEach(i: nat)
    requires i < 19
    ensures Order(i) < 19 && Place(Order(i)) == i
  {
  }

  lemma OrderTable(i: nat)
    requires i < 19
    ensures BORDER[i] == Order(i) < 19
  {
  }

  // ----- runs

  /** A code length; the last one again 3 to 6 times; 3 to 138 zeros. */
  datatype Op = One(v: nat) | Again(n: nat) | Zeros(n: nat)

  predicate OpOK(op: Op) {
    match op
    case One(v) => v < 16
    case Again(n) => 3 <= n <= 6
    case Zeros(n) => 3 <= n <= 138
  }

  function OpSymbol(op: Op): (s: nat)
    ensures OpOK(op) ==> s < 19
  {
    match op
    case One(v) => v
    case Again(_) => 16
    case Zeros(n) => if n <= 10 then 17 else 18
  }

  /** Its extra bits. */
  function OpBits(op: Op): seq<bit>
    requires OpOK(op)
  {
    match op
    case One(_) => []
    case Again(n) => Number(n - 3, 2)
    case Zeros(n) => if n <= 10 then Number(n - 3, 3) else Number(n - 11, 7)
  }

  predicate Fits(acc: seq<nat>, op: Op) {
    OpOK(op) && (op.Again? ==> acc != [])
  }

  /** The lengths it stands for. */
  function Adds(acc: seq<nat>, op: Op): (r: seq<nat>)
    requires Fits(acc, op)
    ensures acc <= r && |acc| < |r|
  {
    match op
    case One(v) => acc + [v]
    case Again(n) => acc + seq(n, _ => acc[|acc| - 1])
    case Zeros(n) => acc + seq(n, _ => 0)
  }

  /** All of them, if they fit together. */
  predicate Spell(acc: seq<nat>, ops: seq<Op>, b: seq<nat>)
    decreases |ops|
  {
    if ops == [] then acc == b else Fits(acc, ops[0]) && Spell(Adds(acc, ops[0]), ops[1..], b)
  }

  lemma {:induction false} SpellLonger(acc: seq<nat>, ops: seq<Op>, b: seq<nat>)
    requires Spell(acc, ops, b)
    ensures acc <= b && (ops != [] ==> |acc| < |b|)
    decreases |ops|
  {
    if ops != [] { SpellLonger(Adds(acc, ops[0]), ops[1..], b); }
  }

  // ----- the header

  datatype Header = Header(lit: seq<nat>, dist: seq<nat>, clen: seq<nat>, sent: nat, ops: seq<Op>)

  ghost predicate HeaderOK(h: Header) {
    && 257 <= |h.lit| <= 286 && 1 <= |h.dist| <= 30 && LengthsOK(h.lit + h.dist) && Usable(h.lit, h.dist)
    && |h.clen| == 19 && (forall i | 0 <= i < 19 :: h.clen[i] <= 7) && Acceptable(h.clen) && MaxLen(h.clen) > 0
    && 4 <= h.sent <= 19 && (forall i | h.sent <= i < 19 :: h.clen[Order(i)] == 0)
    && Spell([], h.ops, h.lit + h.dist) && Named(h.ops, h.clen)
  }

  /** All symbols that the runs need have codes. */
  predicate Named(ops: seq<Op>, clen: seq<nat>)
    requires |clen| == 19
  {
    forall i | 0 <= i < |ops| :: OpOK(ops[i]) && 0 < clen[OpSymbol(ops[i])]
  }

  /** The canonical code of the lengths `b`. */
  function Canonical(b: seq<nat>): Words {
    (s: nat) => if s < |b| && 0 < b[s] <= BMAX then Word(Code(b, s), b[s]) else []
  }

  function ClenBits(clen: seq<nat>, i: nat, n: nat): seq<bit>
    requires |clen| == 19 && i <= n <= 19
    decreases n - i
  {
    if i == n then [] else Number(clen[Order(i)], 3) + ClenBits(clen, i + 1, n)
  }

  function OpsBits(ops: seq<Op>, w: Words): seq<bit>
    requires forall i | 0 <= i < |ops| :: OpOK(ops[i])
  {
    if ops == [] then [] else w(OpSymbol(ops[0])) + OpBits(ops[0]) + OpsBits(ops[1..], w)
  }

  function Sizes(h: Header): seq<bit>
    requires |h.lit| >= 257 && |h.dist| >= 1 && h.sent >= 4
  {
    Number(|h.lit| - 257, 5) + (Number(|h.dist| - 1, 5) + Number(h.sent - 4, 4))
  }

  ghost function HeaderBits(h: Header): seq<bit>
    requires HeaderOK(h)
  {
    Sizes(h) + (ClenBits(h.clen, 0, h.sent) + OpsBits(h.ops, Canonical(h.clen)))
  }

  // ----- code words fit their lengths

  /** In a set that is not oversubscribed. */
  lemma CanonicalSends(b: seq<nat>, s: nat)
    requires LengthsOK(b) && Kraft(b) <= Pow2(BMAX) && s < |b| && b[s] > 0
    ensures Sends(b, Canonical(b), s)
  {
    CodeFits(b, s);
    hide Code, Kraft, Pow2;
  }

  lemma CodeFits(b: seq<nat>, s: nat)
    requires LengthsOK(b) && Kraft(b) <= Pow2(BMAX) && s < |b| && b[s] > 0
    ensures b[s] <= BMAX && Code(b, s) < Pow2(b[s])
  {
    hide *;
    var c, len := Counts(b), b[s];
    CodeParts(b, s);
    NthUnique(b, s);
    KraftIsEnd(b);
    EndMono(c, BMAX, len, BMAX);
    FirstCodeEnd(c, BMAX, len);
    Pow2Add(len, BMAX - len);
    BelowTop(FirstCode(c, len), Count(b[..s], len), c[len], Pow2(BMAX - len), Pow2(len));
  }

  lemma CodeParts(b: seq<nat>, s: nat)
    requires LengthsOK(b) && s < |b| && b[s] > 0
    ensures b[s] <= BMAX && (forall i | 0 <= i < |b| :: b[i] <= BMAX) && |Counts(b)| == BMAX + 1
    ensures var c, len := Counts(b), b[s];
      && c[len] == Count(b, len) && Code(b, s) == FirstCode(c, len) + Count(b[..s], len)
      && End(c, BMAX, len) == End(c, BMAX, len - 1) + c[len] * Pow2(BMAX - len)
  {
  }

  lemma BelowTop(f: nat, q: nat, n: nat, z: nat, top: nat)
    requires q < n && f * z + n * z <= top * z && z >= 1
    ensures f + q < top
  {
    assert (f + n) * z == f * z + n * z;
    AtLeast(top, f + n, z);
  }

  // ----- reading back

  lemma ReadSizes(inp: seq<byte>, cur: nat, h: Header)
    requires 257 <= |h.lit| <= 286 && 1 <= |h.dist| <= 30 && 4 <= h.sent <= 19 && Holds(inp, cur, Sizes(h))
    ensures var table := Take(inp, cur, 14);
      NumLit(table) == |h.lit| && NumDist(table) == |h.dist| && NumClen(table) == h.sent && !TooMany(table) &&
      TableOK(table)
  {
    hide Holds, Number, Take, NumLit, NumDist, NumClen, TooMany, TableOK;
    ReadFields(inp, cur, |h.lit| - 257, |h.dist| - 1, h.sent - 4);
    FieldsMean(Take(inp, cur, 14), |h.lit| - 257, |h.dist| - 1, h.sent - 4);
  }

  lemma FieldsMean(table: nat, a: nat, b: nat, c: nat)
    requires a < 30 && b < 30 && c < 16 && table == a + 32 * (b + 32 * c)
    ensures NumLit(table) == 257 + a && NumDist(table) == 1 + b && NumClen(table) == 4 + c && !TooMany(table) &&
      TableOK(table)
  {
    Fields(a, b, c);
  }

  lemma ReadFields(inp: seq<byte>, cur: nat, a: nat, b: nat, c: nat)
    requires a < 32 && b < 32 && c < 16 && Holds(inp, cur, Number(a, 5) + (Number(b, 5) + Number(c, 4)))
    ensures cur + 14 <= 8 * |inp| && Take(inp, cur, 14) == a + 32 * (b + 32 * c)
  {
    hide *;
    SmallPowers();
    HoldsParts(inp, cur, Number(a, 5), Number(b, 5) + Number(c, 4));
    HoldsParts(inp, cur + 5, Number(b, 5), Number(c, 4));
    HoldsRoom(inp, cur + 10, Number(c, 4));
    TakeNumber(inp, cur, a, 5);
    TakeNumber(inp, cur + 5, b, 5);
    TakeNumber(inp, cur + 10, c, 4);
    TakeCat(inp, cur, 5, 9);
    TakeCat(inp, cur + 5, 5, 4);
    CatIsSum(5, b, c);
    CatIsSum(5, a, b + c * 32);
  }

  lemma SmallPowers()
    ensures Pow2(3) == 8 && Pow2(4) == 16 && Pow2(5) == 32
  {
  }

  lemma HoldsRoom(inp: seq<byte>, cur: nat, s: seq<bit>)
    requires Holds(inp, cur, s)
    ensures cur + |s| <= 8 * |inp|
  {
  }

  lemma Fields(a: nat, b: nat, c: nat)
    requires a < 32 && b < 32
    ensures var t := a + 32 * (b + 32 * c); t % 32 == a && t / 32 % 32 == b && t / 1024 == c
  {
  }

  /** The first `i` lengths sent are in place, the others zero. */
  predicate Partly(acc: seq<nat>, clen: seq<nat>, i: nat) {
    |acc| == |clen| == 19 && forall s | 0 <= s < 19 :: acc[s] == if Place(s) < i then clen[s] else 0
  }

  lemma {:induction false} ReadClenBits(inp: seq<byte>, cur: nat, clen: seq<nat>, n: nat, i: nat, acc: seq<nat>)
    requires |clen| == 19 && (forall j | 0 <= j < 19 :: clen[j] <= 7) && i <= n <= 19
    requires (forall j | n <= j < 19 :: clen[Order(j)] == 0) && Partly(acc, clen, i)
    requires Holds(inp, cur, ClenBits(clen, i, n))
    ensures forall j | 0 <= j < 19 :: acc[j] <= 7
    ensures ReadClens(inp, cur, n, i, acc) == Lens(clen, cur + |ClenBits(clen, i, n)|)
    decreases n - i
  {
    hide *;
    ClensSmall(acc, clen, i);
    if i < n {
      PlaceEach(i);
      var v := clen[Order(i)];
      ClenBitsNext(clen, i, n);
      HoldsParts(inp, cur, Number(v, 3), ClenBits(clen, i + 1, n));
      HoldsRoom(inp, cur, Number(v, 3));
      SmallPowers();
      TakeNumber(inp, cur, v, 3);
      NextPlace(acc, clen, i);
      ClensSmall(acc[Order(i) := v], clen, i + 1);
      ReadClenBits(inp, cur + 3, clen, n, i + 1, acc[Order(i) := v]);
      ReadOneClen(inp, cur, n, i, acc);
    } else {
      ClenBitsNone(clen, n);
      ReadZeros(inp, cur, clen, n, n, acc);
    }
  }

  lemma ClensSmall(acc: seq<nat>, clen: seq<nat>, i: nat)
    requires Partly(acc, clen, i) && forall j | 0 <= j < 19 :: clen[j] <= 7
    ensures |acc| == 19 && forall j | 0 <= j < 19 :: acc[j] <= 7
  {
    hide Place;
  }

  lemma ClenBitsNext(clen: seq<nat>, i: nat, n: nat)
    requires |clen| == 19 && i < n <= 19
    ensures ClenBits(clen, i, n) == Number(clen[Order(i)], 3) + ClenBits(clen, i + 1, n)
  {
    hide Number, Order;
  }

  lemma ClenBitsNone(clen: seq<nat>, n: nat)
    requires |clen| == 19 && n <= 19
    ensures ClenBits(clen, n, n) == []
  {
  }

  lemma ReadOneClen(inp: seq<byte>, cur: nat, n: nat, i: nat, acc: seq<nat>)
    requires i < n <= 19 && |acc| == 19 && (forall j | 0 <= j < 19 :: acc[j] <= 7)
    requires cur + 3 <= 8 * |inp| && Take(inp, cur, 3) <= 7
    ensures Order(i) < 19
    ensures ReadClens(inp, cur, n, i, acc) == ReadClens(inp, cur + 3, n, i + 1, acc[Order(i) := Take(inp, cur, 3)])
  {
    OrderTable(i);
    hide Take, Order, BORDER;
  }

  lemma NextPlace(acc: seq<nat>, clen: seq<nat>, i: nat)
    requires Partly(acc, clen, i) && i < 19 && Order(i) < 19
    ensures Partly(acc[Order(i) := clen[Order(i)]], clen, i + 1)
  {
    forall s | 0 <= s < 19 ensures Place(s) == i <==> s == Order(i) {
      OrderEach(s);
      PlaceEach(i);
    }
    hide Order, Place;
  }

  lemma {:induction false} ReadZeros(inp: seq<byte>, cur: nat, clen: seq<nat>, n: nat, i: nat, acc: seq<nat>)
    requires |clen| == 19 && (forall j | 0 <= j < 19 :: clen[j] <= 7) && n <= i <= 19
    requires (forall j | n <= j < 19 :: clen[Order(j)] == 0) && Partly(acc, clen, i)
    ensures ReadClens(inp, cur, n, i, acc) == Lens(clen, cur)
    decreases 19 - i
  {
    if i < 19 {
      PlaceEach(i);
      OrderTable(i);
      NextPlace(acc, clen, i);
      assert clen[Order(i)] == 0;
      ReadZeros(inp, cur, clen, n, i + 1, acc[Order(i) := 0]);
    } else {
      forall s | 0 <= s < 19 ensures acc[s] == clen[s] { OrderEach(s); }
      assert acc == clen;
    }
  }

  /** One length, or one run. */
  lemma ReadOp(inp: seq<byte>, cur: nat, clen: seq<nat>, total: nat, acc: seq<nat>, op: Op)
    requires |clen| == 19 && MaxLen(clen) <= BMAX && Fits(acc, op) && |Adds(acc, op)| <= total
    requires LengthsOK(acc) && LengthsOK(Adds(acc, op))
    requires Sends(clen, Canonical(clen), OpSymbol(op))
    requires Holds(inp, cur, Canonical(clen)(OpSymbol(op)) + OpBits(op))
    ensures ReadLens(inp, cur, clen, total, acc) ==
      ReadLens(inp, cur + |Canonical(clen)(OpSymbol(op))| + |OpBits(op)|, clen, total, Adds(acc, op))
  {
    hide BitWriter.Word, Number;
    hide Decode, Sends, Canonical, Take, Pow2, Count, Bit;
    var w := Canonical(clen)(OpSymbol(op));
    HoldsParts(inp, cur, w, OpBits(op));
    HoldsRoom(inp, cur + |w|, OpBits(op));
    ReadWord(inp, cur, clen, Canonical(clen), OpSymbol(op));
    assert CodeLength(inp, cur, clen) == Sym(OpSymbol(op), |w|);
    hide CodeLength, MaxLen, Holds;
    RunPowers();
    match op
    case One(v) =>
    case Again(n) =>
      TakeNumber(inp, cur + |w|, n - 3, 2);
      assert Repeat(acc[|acc| - 1], n) == seq(n, _ => acc[|acc| - 1]);
    case Zeros(n) =>
      if n <= 10 { TakeNumber(inp, cur + |w|, n - 3, 3); } else { TakeNumber(inp, cur + |w|, n - 11, 7); }
      assert Repeat(0, n) == seq(n, _ => 0);
  }

  lemma RunPowers()
    ensures Pow2(2) == 4 && Pow2(3) == 8 && Pow2(7) == 128
  {
  }

  lemma RunCode(clen: seq<nat>)
    requires |clen| == 19 && (forall i | 0 <= i < 19 :: clen[i] <= 7) && Acceptable(clen)
    ensures LengthsOK(clen) && Kraft(clen) <= Pow2(BMAX) && MaxLen(clen) <= BMAX
  {
  }

  lemma ReadNone(inp: seq<byte>, cur: nat, clen: seq<nat>, acc: seq<nat>)
    requires |clen| == 19 && MaxLen(clen) <= BMAX && LengthsOK(acc)
    ensures ReadLens(inp, cur, clen, |acc|, acc) == Lens(acc, cur)
  {
  }

  lemma {:induction false} ReadOps(inp: seq<byte>, cur: nat, clen: seq<nat>, total: nat, acc: seq<nat>, ops: seq<Op>,
                                   b: seq<nat>)
    requires |clen| == 19 && (forall i | 0 <= i < 19 :: clen[i] <= 7) && Acceptable(clen) && Named(ops, clen)
    requires Spell(acc, ops, b) && LengthsOK(b) && |b| <= total && Holds(inp, cur, OpsBits(ops, Canonical(clen)))
    ensures acc <= b && MaxLen(clen) <= BMAX
    ensures ReadLens(inp, cur, clen, total, acc) ==
      ReadLens(inp, cur + |OpsBits(ops, Canonical(clen))|, clen, total, b)
    decreases |ops|
  {
    hide Holds, ReadLens, Canonical, OpBits, OpSymbol, Adds, Acceptable, Kraft, Pow2, MaxLen, Sends, Code, Number;
    hide OpOK;
    SpellLonger(acc, ops, b);
    RunCode(clen);
    if ops != [] {
      var op, w := ops[0], Canonical(clen);
      var head, more := w(OpSymbol(op)) + OpBits(op), OpsBits(ops[1..], w);
      var next := Adds(acc, op);
      SpellLonger(next, ops[1..], b);
      HoldsParts(inp, cur, head, more);
      CanonicalSends(clen, OpSymbol(op));
      ReadOp(inp, cur, clen, total, acc, op);
      ReadOps(inp, cur + |head|, clen, total, next, ops[1..], b);
    }
  }

  /** The header is read back, and the codes follow. */
  lemma ReadHeader(inp: seq<byte>, cur: nat, h: Header, out: seq<byte>)
    requires HeaderOK(h) && Holds(inp, cur, HeaderBits(h))
    ensures LitLens(h.lit) && DistLens(h.dist)
    ensures Dynamic(inp, cur, out) == Codes(inp, cur + |HeaderBits(h)|, h.lit, h.dist, out)
  {
    hide *;
    var w := Canonical(h.clen);
    var b := h.lit + h.dist;
    HeaderParts(h);
    var clens, ops := ClenBits(h.clen, 0, h.sent), OpsBits(h.ops, w);
    HoldsParts(inp, cur, Sizes(h), clens + ops);
    HoldsParts(inp, cur + 14, clens, ops);
    HoldsRoom(inp, cur + 14 + |clens|, ops);
    ReadSizes(inp, cur, h);
    TableHeader(inp, cur, out);
    ReadClenBits(inp, cur + 14, h.clen, h.sent, 0, Repeat(0, 19));
    ClensThere(inp, cur + 14, cur + 14 + |clens|, Take(inp, cur, 14), h.clen, out);
    ReadOps(inp, cur + 14 + |clens|, h.clen, |b|, [], h.ops, b);
    ReadNone(inp, cur + 14 + |clens| + |ops|, h.clen, b);
    LensThere(inp, cur + 14 + |clens|, cur + 14 + |clens| + |ops|, Take(inp, cur, 14), h, out);
  }

  lemma HeaderParts(h: Header)
    requires HeaderOK(h)
    ensures 257 <= |h.lit| <= 286 && 1 <= |h.dist| <= 30 && 4 <= h.sent <= 19 && LengthsOK(h.lit + h.dist)
    ensures |h.clen| == 19 && (forall i | 0 <= i < 19 :: h.clen[i] <= 7) && Acceptable(h.clen) && MaxLen(h.clen) > 0
    ensures (forall i | h.sent <= i < 19 :: h.clen[Order(i)] == 0) && MaxLen(h.clen) <= BMAX
    ensures Spell([], h.ops, h.lit + h.dist) && Named(h.ops, h.clen) && Usable(h.lit, h.dist)
    ensures forall i | 0 <= i < |h.ops| :: OpOK(h.ops[i])
    ensures |Sizes(h)| == 14 && Partly(Repeat(0, 19), h.clen, 0) && LitLens(h.lit) && DistLens(h.dist)
    ensures HeaderBits(h) == Sizes(h) + (ClenBits(h.clen, 0, h.sent) + OpsBits(h.ops, Canonical(h.clen)))
  {
    hide Order, Spell, Canonical, ClenBits, OpsBits, Kraft, Pow2, OpOK;
  }

  lemma ClensThere(inp: seq<byte>, cur: nat, cur': nat, table: nat, clen: seq<nat>, out: seq<byte>)
    requires TableOK(table) && |clen| == 19 && (forall i | 0 <= i < 19 :: clen[i] <= 7) && cur <= 8 * |inp|
    requires ReadClens(inp, cur, NumClen(table), 0, Repeat(0, 19)) == Lens(clen, cur')
    requires Acceptable(clen) && 0 < MaxLen(clen) <= BMAX
    ensures cur' <= 8 * |inp|
    ensures ClensGoal(inp, cur, table, 0, Repeat(0, 19), out) == LensGoal(inp, cur', table, clen, [], out)
  {
    hide Acceptable, ReadClens, ReadLens, WithLens, MaxLen, Repeat;
  }

  lemma LensThere(inp: seq<byte>, cur: nat, cur': nat, table: nat, h: Header, out: seq<byte>)
    requires TableOK(table) && |h.clen| == 19 && MaxLen(h.clen) <= BMAX && cur <= 8 * |inp|
    requires NumLit(table) == |h.lit| && NumDist(table) == |h.dist| && Usable(h.lit, h.dist)
    requires LitLens(h.lit) && DistLens(h.dist)
    requires ReadLens(inp, cur, h.clen, |h.lit + h.dist|, []) == Lens(h.lit + h.dist, cur')
    ensures LensGoal(inp, cur, table, h.clen, [], out) == Codes(inp, cur', h.lit, h.dist, out)
  {
    var b := h.lit + h.dist;
    assert b[..|h.lit|] == h.lit && b[|h.lit|..] == h.dist;
    hide Usable, ReadLens, WithLens, Codes, MaxLen;
    ReadNone(inp, cur', h.clen, b);
    LensAll(inp, cur', table, h.clen, b, out);
  }
}
