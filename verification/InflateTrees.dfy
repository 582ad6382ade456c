/** The trees of a block: inflate_trees_bits, inflate_trees_dynamic and inflate_trees_fixed. */
module InflateTrees {
  import opened Bits
  import opened Status
  import opened Huffman
  import opened HuftTables
  import opened HuftLengths
  import opened HuftBuild
  import opened HuftNarrow
  import opened HuftSpace
  import opened HuftRoom
  import opened HuftDecode
  import opened Reference
  import opened CodesTrees

  /** The alphabet of code length symbols. */
  ghost function ClenAlphabet(b: seq<nat>): Alphabet { Alphabet(b, 19, [], []) }

  /** What huft_build takes without complaint is a full code set, or one code of one bit, or none. */
  lemma TakenIff(b: seq<nat>)
    requires LengthsOK(b) && MaxLen(b) <= BMAX
    ensures Acceptable(b) <==> Kraft(b) <= Pow2(BMAX) && !(0 < Kraft(b) < Pow2(BMAX) && MaxLen(b) != 1)
    ensures MaxLen(b) > 0 ==> Kraft(b) > 0
    ensures MaxLen(b) == 0 ==> Acceptable(b)
  {
    if MaxLen(b) > 0 { KraftDecides(b); } else { ZeroLengths(b); }
  }

  lemma LengthsBounded(b: seq<nat>)
    requires MaxLen(b) <= BMAX
    ensures LengthsOK(b)
  {
  }

  /** The index width is no more than asked for unless every code is longer. */
  lemma WidthFacts(b: seq<nat>, m: nat, l: nat)
    requires LengthsOK(b) && IsIndexWidth(b, m, l) && m >= 1
    ensures 1 <= l <= MaxLen(b) && (l >= m || l == MaxLen(b))
    ensures l <= m || forall s | 0 <= s < |b| && b[s] > 0 :: l <= b[s]
  {
  }

  /** The tree of a code set that has no code running past a table boundary. */
  lemma TreeDone(al: Alphabet, l: nat, bd: Build, hp0: seq<Huft>, hp: seq<Huft>, lo: nat, hn: nat, m: nat)
    requires LengthsOK(al.b) && IsIndexWidth(al.b, m, l) && 1 <= m
    requires Built(PlanOf(al, l), bd, hp0, hp, lo, hn)
    requires MaxLen(al.b) <= 2 * m || (al.Valid() && Acceptable(al.b) && |al.b| < Pow2(m + 1))
    ensures TreeOK(TreeOf(PlanOf(al, l), bd, lo, hn), hp)
  {
    hide Built, Kraft, IsIndexWidth, TreeOK, Plan.Wide;
    NoWide(al, l, m);
    BuiltTree(PlanOf(al, l), bd, hp0, hp, lo, hn);
  }

  lemma NoWide(al: Alphabet, l: nat, m: nat)
    requires LengthsOK(al.b) && IsIndexWidth(al.b, m, l) && 1 <= m
    requires MaxLen(al.b) <= 2 * m || (al.Valid() && Acceptable(al.b) && |al.b| < Pow2(m + 1))
    ensures !PlanOf(al, l).Wide()
  {
    hide Kraft, Plan.Wide, IsIndexWidth, Pow2;
    WidthFacts(al.b, m, l);
    PlanGreatest(al, l);
    if MaxLen(al.b) <= 2 * l {
      NarrowByDepth(PlanOf(al, l));
    } else {
      Pow2Mono(m + 1, l + 1);
      NarrowByCount(al, l);
    }
  }

  lemma PlanGreatest(al: Alphabet, l: nat)
    ensures PlanOf(al, l).g == MaxLen(al.b) && PlanOf(al, l).l == l && PlanOf(al, l).al == al
  {
  }

  lemma LooksAhead(al: Alphabet, m: nat, l: nat)
    requires LengthsOK(al.b) && IsIndexWidth(al.b, m, l) && 1 <= m <= 9
    ensures Lookahead(PlanOf(al, l))
  {
    hide IsIndexWidth;
    WidthFacts(al.b, m, l);
    PlanGreatest(al, l);
  }

  /** The tree for the code lengths of a dynamic header.  It has a single table. */
  method TreesBits(c: seq<nat>, hp: array<Huft>) returns (r: int, bb: nat, tb: int, ghost tr: Tree)
    requires |c| == 19 && (forall i | 0 <= i < 19 :: c[i] <= 7) && hp.Length == MANY
    modifies hp
    ensures r == if Acceptable(c) && MaxLen(c) > 0 then Z_OK else Z_DATA_ERROR
    ensures r == Z_OK ==>
      TreeOK(tr, hp[..]) && tr.x.al == ClenAlphabet(c) && tb == tr.lo == 0 && bb == tr.x.l == tr.x.g == MaxLen(c) <= 7
  {
    hide Built, Kraft, Acceptable, TreeOK, MaxLen;
    ghost var al := ClenAlphabet(c);
    assert al.Valid();
    BoundedMax(c, 7);
    LengthsBounded(c);
    TakenIff(c);
    var v := new nat[19];
    var hn;
    ghost var bd;
    ghost var hp0 := hp[..];
    r, tb, bb, hn, bd := BuildTables(c, 19, [], [], 7, hp, 0, v);
    if MaxLen(c) > 0 {
      WidthFacts(c, 7, bb);
      assert bb == MaxLen(c);
      Pow2Mono(bb, 7);
      assert Pow2(7) == 128;
    }
    if r == Z_BUF_ERROR || bb == 0 {
      r := Z_DATA_ERROR;
    }
    tr := TreeOf(PlanOf(al, bb), bd, 0, hn);
    if r == Z_OK {
      TreeDone(al, bb, bd, hp0, hp[..], 0, hn, 7);
    }
  }

  /** Memory before the new tables is as it was. */
  lemma BuiltAfter(x: Plan, bd: Build, hp0: seq<Huft>, hp: seq<Huft>, lo: nat, hn: nat)
    requires Built(x, bd, hp0, hp, lo, hn)
    ensures lo <= hn <= |hp| == |hp0| && hp[..lo] == hp0[..lo]
  {
    hide Done, Chain, Closed, HasWide, Plan.Wide;
    assert forall a | 0 <= a < lo :: hp[a] == hp0[a];
  }

  /** The code sets of a block that can be decoded. */
  ghost predicate Usable(lit: seq<nat>, dist: seq<nat>) {
    Acceptable(lit) && MaxLen(lit) > 0 && Acceptable(dist) && (MaxLen(dist) > 0 || |lit| <= 257)
  }

  /** The two alphabets of a dynamic block, with the index width asked for and the table space put by. */
  ghost predicate Asked(b: seq<nat>, m: nat, room: nat) {
    (m == 9 && |b| <= 286 && room == LITROOM) || (m == 6 && |b| <= 30 && room == DISTROOM)
  }

  lemma AskedWidth(b: seq<nat>, m: nat, room: nat)
    requires Asked(b, m, room)
    ensures |b| < Pow2(m + 1) && (m == 9 || |b| < 128) && Pow2(7) == 128
  {
    Powers();
    assert Pow2(10) == 1024;
  }

  /** An accepted code set needs no more table space than is put by for it. */
  lemma TreeRoom(al: Alphabet, m: nat, l: nat, room: nat, tabs: seq<Tab>, lo: nat, hn: nat)
    requires al.Valid() && LengthsOK(al.b) && 1 <= MaxLen(al.b) && Acceptable(al.b) && IsIndexWidth(al.b, m, l)
    requires Asked(al.b, m, room) && Space(PlanOf(al, l), tabs, lo, hn)
    ensures hn <= lo + room
  {
    hide Space, Plan.Wide, MaxLen, Kraft, Acceptable, IsIndexWidth, Pow2, Before;
    AskedWidth(al.b, m, room);
    WidthAsked(al.b, m, l);
    AcceptedPlan(al, l);
    NoWide(al, l, m) by { BoundedMaxOK(al.b); }
    WordCount(al, l, if m == 9 then 286 else 30);
    PlanGreatest(al, l);
    if m == 9 {
      LitRoom(PlanOf(al, l), tabs, lo, hn);
    } else {
      DistRoom(PlanOf(al, l), tabs, lo, hn);
    }
  }

  lemma AcceptedPlan(al: Alphabet, l: nat)
    requires al.Valid() && 1 <= l <= MaxLen(al.b) && LengthsOK(al.b) && Acceptable(al.b)
    ensures PlanOf(al, l).Valid()
  {
    KraftDecides(al.b);
    PlanOfValid(al, l);
  }

  lemma NeverOverfull(al: Alphabet, m: nat, l: nat, room: nat, lo: nat)
    requires al.Valid() && LengthsOK(al.b) && 1 <= MaxLen(al.b) && Acceptable(al.b) && IsIndexWidth(al.b, m, l)
    requires Asked(al.b, m, room) && lo + room <= MANY
    ensures !Overfull(PlanOf(al, l), lo, MANY)
  {
    hide Space, MaxLen, Acceptable, IsIndexWidth, Asked;
    if Overfull(PlanOf(al, l), lo, MANY) {
      var tabs: seq<Tab>, hn: nat :| Space(PlanOf(al, l), tabs, lo, hn) && hn > MANY;
      TreeRoom(al, m, l, room, tabs, lo, hn);
    }
  }

  /** One of the two trees of a dynamic block, with `m` index bits asked for. */
  method OneTree(b: seq<nat>, s: nat, d: seq<nat>, e: seq<nat>, m: nat, hp: array<Huft>, hn: nat, v: array<nat>,
                 ghost room: nat)
    returns (r: int, t: int, m': nat, hn': nat, ghost tr: Tree)
    requires b != [] && LengthsOK(b) && Alphabet(b, s, d, e).Valid() && hp.Length == MANY && |b| <= v.Length
    requires Asked(b, m, room) && hn + room <= MANY
    modifies hp, v
    ensures r in {Z_OK, Z_DATA_ERROR, Z_MEM_ERROR, Z_BUF_ERROR} && (r == Z_OK <==> Acceptable(b))
    ensures MaxLen(b) > 0 <==> m' > 0
    ensures r == Z_OK ==> hn <= hn' <= hn + room && hp[..hn] == old(hp[..hn])
    ensures r == Z_OK && m' > 0 ==>
      TreeOK(tr, hp[..]) && tr.x.al == Alphabet(b, s, d, e) && t == tr.lo == hn && m' == tr.x.l && tr.hi == hn' &&
      Lookahead(tr.x)
  {
    hide Built, Kraft, Acceptable, TreeOK, MaxLen, Lookahead, IsIndexWidth, LengthsOK, Alphabet.Valid, Pow2, Space;
    hide Overfull, Asked;
    ghost var al := Alphabet(b, s, d, e);
    AskedWidth(b, m, room);
    AskedOne(b, m, room);
    BoundedMaxOK(b);
    TakenIff(b);
    ghost var bd;
    ghost var hp0 := hp[..];
    r, t, m', hn', bd := BuildTables(b, s, d, e, m, hp, hn, v);
    tr := TreeOf(PlanOf(al, m'), bd, hn, hn');
    if MaxLen(b) > 0 { WidthFacts(b, m, m'); }
    if r == Z_MEM_ERROR && Acceptable(b) {
      NeverOverfull(al, m, m', room, hn);
    }
    if r == Z_OK && m' > 0 {
      TreeRoom(al, m, m', room, bd.tabs, hn, hn');
      TreeDone(al, m', bd, hp0, hp[..], hn, hn', m);
      LooksAhead(al, m, m');
      PlanGreatest(al, m');
      BuiltAfter(PlanOf(al, m'), bd, hp0, hp[..], hn, hn');
    }
  }

  lemma AskedOne(b: seq<nat>, m: nat, room: nat)
    requires Asked(b, m, room)
    ensures (m == 9 || m == 6) && (m == 9 || |b| < Pow2(m + 1))
  {
    Powers();
  }

  lemma BoundedMaxOK(b: seq<nat>)
    requires LengthsOK(b)
    ensures MaxLen(b) <= BMAX
  {
  }

  /** The two trees of a dynamic block, in one block of table space. */
  method TreesDynamic(nl: nat, nd: nat, c: seq<nat>, hp: array<Huft>)
    returns (r: int, bl: nat, bd: nat, tl: int, td: int, ghost ltr: Tree, ghost dtr: Tree)
    requires 257 <= nl <= 286 && 1 <= nd <= 30 && |c| == nl + nd && LengthsOK(c) && hp.Length == MANY
    modifies hp
    ensures r in {Z_OK, Z_DATA_ERROR, Z_MEM_ERROR} && LitLens(c[..nl]) && DistLens(c[nl..])
    ensures r == Z_OK <==> Usable(c[..nl], c[nl..])
    ensures r == Z_OK ==>
      tl >= 0 && LitTree(ltr, hp[..], c[..nl], tl, bl) && DistTree(dtr, hp[..], c[nl..], td, bd, c[..nl])
  {
    hide Kraft, Overfull, Space, Shape, CellOK;
    assert Pow2(7) == 128;
    hide Acceptable, TreeOK, MaxLen, Lookahead, Alphabet.Valid, Pow2;
    ghost var lit, dist := c[..nl], c[nl..];
    BoundedMaxOK(lit);
    BoundedMaxOK(dist);
    AlphabetsOK(lit, dist);
    var v := new nat[288];
    var hn;
    td, bd := NULL, 0;
    r, tl, bl, hn, ltr := OneTree(c[..nl], 257, CPLENS, CPLEXT, 9, hp, 0, v, LITROOM);
    dtr := ltr;
    if r != Z_OK || bl == 0 {
      if r != Z_MEM_ERROR { r := Z_DATA_ERROR; }
      return;
    }
    ghost var hp1 := hp[..];
    r, td, bd, hn, dtr := OneTree(c[nl..], 0, CPDIST, CPDEXT, 6, hp, hn, v, DISTROOM);
    if r != Z_OK || (bd == 0 && nl > 257) {
      if r == Z_BUF_ERROR || r == Z_OK { r := Z_DATA_ERROR; }
      return;
    }
    assert hp1[ltr.lo..ltr.hi] == hp[ltr.lo..ltr.hi] by { assert hp1[..ltr.hi] == hp[..ltr.hi]; TreeRange(ltr, hp1); }
    TreeKept(ltr, hp1, hp[..]);
  }

  lemma TreeRange(tr: Tree, hp: seq<Huft>)
    requires TreeOK(tr, hp)
    ensures tr.lo <= tr.hi <= |hp|
  {
  }

  lemma AlphabetsOK(lit: seq<nat>, dist: seq<nat>)
    requires LengthsOK(lit) && LengthsOK(dist) && |lit| <= 288 && |dist| <= 30
    ensures Alphabet(lit, 257, CPLENS, CPLEXT).Valid() && Alphabet(dist, 0, CPDIST, CPDEXT).Valid()
  {
    ExtraOK();
    hide CPLENS, CPLEXT, CPDIST, CPDEXT;
  }

  /** Every length and distance symbol has an entry in the two lists that stands for extra bits or is invalid. */
  lemma ExtraOK()
    ensures |CPLENS| == |CPLEXT| == 31 && forall i | 0 <= i < 31 :: CPLEXT[i] < 16 || CPLEXT[i] == 112
    ensures |CPDIST| == |CPDEXT| == 30 && forall i | 0 <= i < 30 :: CPDEXT[i] < 16
  {
  }

  // ----- the fixed codes

  lemma {:induction false} KraftRepeat(b: seq<nat>, v: nat, n: nat)
    requires LengthsOK(b) && 1 <= v <= BMAX
    ensures LengthsOK(b + Repeat(v, n)) && Kraft(b + Repeat(v, n)) == Kraft(b) + n * Pow2(BMAX - v)
  {
    hide Pow2, Kraft;
    if n == 0 {
      assert b + Repeat(v, n) == b;
    } else {
      var s := b + Repeat(v, n - 1);
      KraftRepeat(b, v, n - 1);
      assert b + Repeat(v, n) == s + [v];
      KraftSnoc(s, v);
      hide *;
      Scale(n - 1, n, Pow2(BMAX - v));
    }
  }

  lemma KraftSnoc(s: seq<nat>, v: nat)
    requires LengthsOK(s) && 1 <= v <= BMAX
    ensures LengthsOK(s + [v]) && Kraft(s + [v]) == Kraft(s) + Pow2(BMAX - v)
  {
    assert (s + [v])[..|s|] == s;
  }

  /** The fixed literal/length code is full; the fixed distance code lacks two of its 32 words. */
  lemma FixedCodes()
    ensures LengthsOK(FixedLit()) && MaxLen(FixedLit()) == 9 && Kraft(FixedLit()) == Pow2(BMAX)
    ensures LengthsOK(FixedDist()) && MaxLen(FixedDist()) == 5 && Kraft(FixedDist()) == 30 * Pow2(10) < Pow2(BMAX)
  {
    Powers();
    FixedMax();
    assert BMAX == 15;
    hide *;
    FixedSums();
  }

  lemma FixedMax()
    ensures MaxLen(FixedLit()) == 9 && MaxLen(FixedDist()) == 5
  {
    BoundedMax(FixedLit(), 9);
    BoundedMax(FixedDist(), 5);
    assert FixedLit()[144] == 9 && FixedDist()[0] == 5;
  }

  lemma FixedSums()
    ensures LengthsOK(FixedLit()) && LengthsOK(FixedDist())
    ensures Kraft(FixedLit()) == 144 * Pow2(7) + 112 * Pow2(6) + 24 * Pow2(8) + 8 * Pow2(7)
    ensures Kraft(FixedDist()) == 30 * Pow2(10)
  {
    hide Pow2, Kraft;
    KraftOf(8, 144);
    KraftOf(5, 30);
    hide Repeat, Kraft, Pow2, LengthsOK;
    var a := Repeat(8, 144);
    var b := a + Repeat(9, 112);
    KraftRepeat(a, 9, 112);
    KraftRepeat(b, 7, 24);
    KraftRepeat(b + Repeat(7, 24), 8, 8);
  }

  lemma KraftOf(v: nat, n: nat)
    requires 1 <= v <= BMAX
    ensures LengthsOK(Repeat(v, n)) && Kraft(Repeat(v, n)) == n * Pow2(BMAX - v)
  {
    KraftRepeat([], v, n);
    assert [] + Repeat(v, n) == Repeat(v, n) && Kraft([]) == 0;
  }

  lemma Powers()
    ensures Pow2(6) == 64 && Pow2(7) == 128 && Pow2(8) == 256 && Pow2(9) == 512 && Pow2(10) == 1024 && Pow2(15) == 32768
    ensures Pow2(5) == 32
  {
    Pow2Add(5, 5);
    Pow2Add(7, 8);
  }

  /** The trees of the fixed codes. */
  method TreesFixed() returns (bl: nat, bd: nat, lt: array<Huft>, tl: nat, dt: array<Huft>, td: nat,
    ghost ltr: Tree, ghost dtr: Tree)
    ensures fresh(lt) && fresh(dt) && bl == 9 && bd == 5
    ensures LitTree(ltr, lt[..], FixedLit(), tl, bl) && DistTree(dtr, dt[..], FixedDist(), td, bd, FixedLit())
  {
    FixedCodes();
    AlphabetsOK(FixedLit(), FixedDist());
    hide Acceptable, TreeOK, MaxLen, Lookahead, Alphabet.Valid, Pow2, Kraft;
    lt, tl, bl, ltr := FixedTree(FixedLit(), 257, CPLENS, CPLEXT, 9);
    dt, td, bd, dtr := FixedTree(FixedDist(), 0, CPDIST, CPDEXT, 5);
  }

  method FixedTree(b: seq<nat>, s: nat, d: seq<nat>, e: seq<nat>, m: nat)
    returns (hp: array<Huft>, t: nat, m': nat, ghost tr: Tree)
    requires LengthsOK(b) && Alphabet(b, s, d, e).Valid() && 0 < |b| <= 288
    requires 5 <= m <= 9 && MaxLen(b) == m && Kraft(b) <= Pow2(BMAX)
    ensures fresh(hp) && m' == m
    ensures TreeOK(tr, hp[..]) && tr.x.al == Alphabet(b, s, d, e) && t == tr.lo && m' == tr.x.l && Lookahead(tr.x)
  {
    hide Built, Kraft, TreeOK, MaxLen, Lookahead, IsIndexWidth, LengthsOK, Alphabet.Valid;
    ghost var al := Alphabet(b, s, d, e);
    hp := new Huft[MANY](_ => Huft(0, 0, 0));
    var v := new nat[288];
    var r, hn, t';
    ghost var bd;
    ghost var hp0 := hp[..];
    r, t', m', hn, bd := BuildTables(b, s, d, e, m, hp, 0, v);
    WidthFacts(b, m, m');
    Powers();
    Pow2Mono(m, 9);
    t := t';
    tr := TreeOf(PlanOf(al, m'), bd, 0, hn);
    TreeDone(al, m', bd, hp0, hp[..], 0, hn, m);
    LooksAhead(al, m, m');
    PlanGreatest(al, m');
  }
}
