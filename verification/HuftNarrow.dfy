/** Which code lengths never run past a table boundary: all that the decoder hands to huft_build. */
module HuftNarrow {
  import opened Bits
  import opened Huffman
  import opened HuftTables
  import opened HuftFill
  import opened HuftLengths
  import opened HuftBuild

  /** Two levels of tables are enough for every code. */
  lemma NarrowByDepth(x: Plan)
    requires x.g <= 2 * x.l
    ensures !x.Wide()
  {
    if x.Wide() {
      var lvl: nat, len: nat, q: nat :| x.WideAt(lvl, len, q);
      WidthMono(2, lvl + 1, x.l);
    }
  }

  ghost function Tail(c: seq<nat>, from: nat, g: nat): nat
    requires g < |c|
    decreases g + 1 - from
  {
    if from > g then 0 else c[from] + Tail(c, from + 1, g)
  }

  /** Codes of length `from` and up take at most the room that many of length `from` take. */
  lemma {:induction false} TailRoom(c: seq<nat>, g: nat, from: nat)
    requires 1 <= from <= g < |c|
    ensures End(c, g, g) - End(c, g, from - 1) <= Tail(c, from, g) * Pow2(g - from)
    decreases g - from
  {
    if from < g {
      TailRoom(c, g, from + 1);
      MoreRoom(c[from], Tail(c, from + 1, g), Pow2(g - (from + 1)));
    } else {
      assert Tail(c, g, g) == c[g] + Tail(c, g + 1, g);
    }
  }

  lemma MoreRoom(a: nat, n: nat, h: nat)
    ensures a * (2 * h) + n * h <= (a + n) * (2 * h)
  {
    Distribute(1, a, n, 2 * h);
    Scale(0, n, h);
    assert n * (2 * h) == n * h + n * h;
  }

  lemma {:induction false} TailBound(b: seq<nat>, c: seq<nat>, g: nat, from: nat)
    requires 1 <= from <= g + 1 && g < |c| && forall k | 1 <= k <= g :: c[k] == Count(b, k)
    ensures Tail(c, from, g) + Off(b, from) == Off(b, g + 1)
    decreases g + 1 - from
  {
    if from <= g {
      TailBound(b, c, g, from + 1);
      OffNext(b, from);
    }
  }

  /** Below the start of an aligned subtree there are as many codes as it has words of the first length. */
  lemma WideNeedsCodes(x: Plan, lvl: nat, len: nat, q: nat)
    requires x.Valid() && x.WideAt(lvl, len, q)
    ensures Pow2(x.l + 1) <= Tail(x.c, len, x.g)
  {
    hide Pow2, End, FirstCode, Tail, Plan.Valid;
    NextWidth(lvl, x.l);
    var w, cv := lvl * x.l, FirstCode(x.c, len) + q;
    CodesLeft(x, len, q);
    Pow2Add(w, len - w);
    AlignedRoom(cv, Pow2(len - w), Pow2(w), Pow2(len));
    Pow2Mono(x.l + 1, len - w);
  }

  lemma CodesLeft(x: Plan, len: nat, q: nat)
    requires x.Valid() && 1 <= len <= x.g && q < x.c[len]
    ensures FirstCode(x.c, len) + q < Pow2(len)
    ensures Pow2(len) - (FirstCode(x.c, len) + q) <= Tail(x.c, len, x.g)
  {
    hide MaxLen, Pow2, FirstCode;
    var z := Pow2(x.g - len);
    assert End(x.c, x.g, len) == End(x.c, x.g, len - 1) + x.c[len] * z;
    hide Pow2, FirstCode, Tail, End;
    TailRoom(x.c, x.g, len);
    FirstCodeEnd(x.c, x.g, len);
    Pow2Add(len, x.g - len);
    EndMono(x.c, x.g, len, x.g);
    Codes(FirstCode(x.c, len), q, x.c[len], Tail(x.c, len, x.g), z, Pow2(len));
  }

  /** With f*z taken by shorter codes out of p*z, and n codes from there on: code f + q leaves p - f - q
      words, each needing one of them. */
  lemma Codes(f: nat, q: nat, c: nat, n: nat, z: nat, p: nat)
    requires z >= 1 && p * z - f * z <= n * z && q < c && (f * z) + c * z <= p * z
    ensures f + q < p && p - (f + q) <= n
  {
    assert (p - f) * z <= n * z by { Minus(p, f, z); }
    if p - f > n { Scale(n + 1, p - f, z); Scale(n, n, z); }
    Distribute(1, f, c, z);
    if f + c > p { Scale(p + 1, f + c, z); Scale(p, p, z); }
  }

  lemma AlignedRoom(cv: nat, s: nat, m: nat, p: nat)
    requires s >= 1 && cv % s == 0 && p == m * s && cv < p
    ensures p - cv >= s
  {
    var n := cv / s;
    assert cv == n * s;
    if n >= m { Scale(m, n, s); }
    Scale(n + 1, m, s);
    Scale(n, n, s);
  }

  /** A full code set of fewer than 2^(l+1) symbols has no code that runs past a table boundary. */
  lemma NarrowByCount(al: Alphabet, l: nat)
    requires al.Valid() && 1 <= l <= MaxLen(al.b) && Kraft(al.b) == Pow2(BMAX) && |al.b| < Pow2(l + 1)
    ensures !PlanOf(al, l).Wide()
  {
    hide Pow2, Count, Kraft, MaxLen, Off, Tail, End, Plan.Valid, Counts;
    KraftDecides(al.b);
    var x := PlanOf(al, l);
    PlanOfValid(al, l);
    FullCounts(al, l);
    if x.Wide() {
      var lvl: nat, len: nat, q: nat :| x.WideAt(lvl, len, q);
      WideNeedsCodes(x, lvl, len, q);
      TailBound(al.b, x.c, x.g, len);
      OffBound(al.b, x.g + 1);
    }
  }

  lemma FullCounts(al: Alphabet, l: nat)
    requires MaxLen(al.b) <= BMAX && End(Counts(al.b), MaxLen(al.b), MaxLen(al.b)) == Pow2(MaxLen(al.b))
    ensures var x := PlanOf(al, l);
      x.g == MaxLen(al.b) && |x.c| == BMAX + 1 && forall k | 1 <= k <= x.g :: x.c[k] == Count(al.b, k)
  {
    assert PlanOf(al, l).c == Counts(al.b);
  }

  /** One code of one bit and four of three bits, with tables indexed by one bit: the four lie below a
      table boundary at one bit and run past the one at two. */
  lemma WideExample()
    ensures var al := Alphabet([1, 3, 3, 3, 3], 5, [], []);
      && al.Valid() && Kraft(al.b) == Pow2(BMAX) && IsIndexWidth(al.b, 1, 1) && PlanOf(al, 1).Wide()
  {
    hide Pow2, MaxLen;
    var b := [1, 3, 3, 3, 3];
    ExampleCounts(b);
    var c := Counts(b);
    ExampleEnds(c);
    KraftDecides(b);
    assert b[0] == 1 && IsMinLen(b, 1);
    var x := PlanOf(Alphabet(b, 5, [], []), 1);
    assert x.c == c;
    assert x.WideAt(1, 3, 0);
  }

  lemma ExampleCounts(b: seq<nat>)
    requires b == [1, 3, 3, 3, 3]
    ensures MaxLen(b) == 3 && Count(b, 1) == 1 && Count(b, 2) == 0 && Count(b, 3) == 4
  {
    CountPush([], 1);
    CountPush([1], 3);
    CountPush([1, 3], 3);
    CountPush([1, 3, 3], 3);
    CountPush([1, 3, 3, 3], 3);
    assert [] + [1] == [1] && [1] + [3] == [1, 3] && [1, 3] + [3] == [1, 3, 3];
    assert [1, 3, 3] + [3] == [1, 3, 3, 3] && [1, 3, 3, 3] + [3] == b;
    GreatestIs(b, 3) by { assert b[4] == 3; CountPresent(b, 4); NoneAbove(b); }
  }

  lemma CountPush(b: seq<nat>, v: nat)
    ensures forall len: nat :: Count(b + [v], len) == Count(b, len) + if v == len then 1 else 0
  {
    assert (b + [v])[..|b|] == b;
  }

  lemma NoneAbove(b: seq<nat>)
    requires b == [1, 3, 3, 3, 3]
    ensures forall len | 3 < len <= BMAX :: Counts(b)[len] == 0
  {
    forall len | 3 < len <= BMAX ensures Counts(b)[len] == 0 { CountAbsent(b, len); }
  }

  lemma ExampleEnds(c: seq<nat>)
    requires |c| == BMAX + 1 && c[1] == 1 && c[2] == 0 && c[3] == 4
    ensures End(c, 3, 3) == 8 == Pow2(3) && FirstCode(c, 3) == 4 && Pow2(2) == 4
  {
    assert Pow2(1) == 2 && Pow2(0) == 1;
    assert End(c, 3, 0) == 0 && End(c, 3, 1) == 4 && End(c, 3, 2) == 4;
    assert FirstCode(c, 2) == 2;
  }
}
