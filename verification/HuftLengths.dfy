/** What huft_build does before it makes tables: count the code lengths, bound them, check that they
    fit the code space, and list the symbols in order of length. */
module HuftLengths {
  import opened Bits
  import opened Huffman

  ghost predicate LengthsOK(b: seq<nat>) {
    forall i | 0 <= i < |b| :: b[i] <= BMAX
  }

  lemma CountSnoc(b: seq<nat>, i: nat, len: nat)
    requires i < |b|
    ensures Count(b[..i + 1], len) == Count(b[..i], len) + if b[i] == len then 1 else 0
  {
    assert b[..i + 1][..i] == b[..i];
  }

  /** Counts for each code length. */
  method Tally(b: seq<nat>) returns (c: seq<nat>)
    requires b != [] && LengthsOK(b)
    ensures c == Counts(b)
  {
    c := seq(BMAX + 1, _ => 0);
    var i := 0;
    while i < |b|
      invariant 0 <= i <= |b| && c == Counts(b[..i])
    {
      forall len: nat ensures Count(b[..i + 1], len) == Count(b[..i], len) + if b[i] == len then 1 else 0 {
        CountSnoc(b, i, len);
      }
      c := c[b[i] := c[b[i]] + 1];
      i := i + 1;
    }
    assert b[..|b|] == b;
  }

  /** All lengths are zero iff there are as many zeros as lengths. */
  lemma {:induction false} AllZero(b: seq<nat>)
    ensures Count(b, 0) <= |b|
    ensures Count(b, 0) == |b| <==> forall i | 0 <= i < |b| :: b[i] == 0
  {
    if b != [] {
      var b' := b[..|b| - 1];
      AllZero(b');
      if forall i | 0 <= i < |b'| :: b'[i] == 0 {
        assert forall i | 0 <= i < |b'| :: b[i] == b'[i];
      } else {
        var i :| 0 <= i < |b'| && b'[i] != 0;
        assert b[i] != 0;
      }
    }
  }

  /** The least length in use and the greatest. */
  method Extremes(b: seq<nat>, c: seq<nat>) returns (j: nat, i: nat)
    requires LengthsOK(b) && c == Counts(b) && c[0] != |b|
    ensures 1 <= j <= i <= BMAX && i == MaxLen(b) && c[i] > 0 && c[j] > 0
    ensures forall len | 1 <= len < j :: c[len] == 0
    ensures forall len | i < len <= BMAX :: c[len] == 0
  {
    AllZero(b);
    var s :| 0 <= s < |b| && b[s] != 0;
    CountPresent(b, s);
    j := 1;
    while j <= BMAX && c[j] == 0
      invariant 1 <= j <= b[s]
      invariant forall len | 1 <= len < j :: c[len] == 0
    {
      j := j + 1;
    }
    i := BMAX;
    while i != 0 && c[i] == 0
      invariant b[s] <= i <= BMAX
      invariant forall len | i < len <= BMAX :: c[len] == 0
    {
      i := i - 1;
    }
    GreatestIs(b, i);
  }

  lemma GreatestIs(b: seq<nat>, i: nat)
    requires LengthsOK(b) && 0 < i <= BMAX && Count(b, i) > 0
    requires forall len | i < len <= BMAX :: Counts(b)[len] == 0
    ensures MaxLen(b) == i
  {
    var s := Nth(b, i, 0);
    var g := MaxLen(b);
    var t :| 0 <= t < |b| && b[t] == g;
    CountPresent(b, t);
    assert Counts(b)[g] > 0;
  }

  /** How many codes of the greatest length are missing from a full code set, unless the lengths ask for
      more codes than there are. */
  method Missing(c: seq<nat>, j0: nat, g: nat) returns (ok: bool, y: int)
    requires 1 <= j0 <= g <= BMAX < |c|
    requires forall len | 1 <= len < j0 :: c[len] == 0
    ensures ok <==> End(c, g, g) <= Pow2(g)
    ensures ok ==> y == Pow2(g) - End(c, g, g)
  {
    var j := j0;
    y := Pow2(j);
    NoneBefore(c, g, j - 1);
    Pow2Add(j, g - j);
    assert Balance(c, g, j, y);
    hide *;
    while j < g
      invariant j0 <= j <= g && y >= 0 && Balance(c, g, j, y)
    {
      Spent(c, g, j, y);
      y := y - c[j];
      if y < 0 {
        return false, y;
      }
      y := 2 * y;
      j := j + 1;
    }
    Spent(c, g, g, y);
    y := y - c[g];
    ok := y >= 0;
  }

  /** `y` codes of length `j` are left once the shorter ones are taken. */
  ghost predicate Balance(c: seq<nat>, g: nat, j: nat, y: int)
    requires 1 <= j <= g < |c|
  {
    y * Pow2(g - j) == Pow2(g) - End(c, g, j - 1)
  }

  lemma Spent(c: seq<nat>, g: nat, j: nat, y: int)
    requires 1 <= j <= g < |c| && Balance(c, g, j, y)
    ensures j < g ==> Balance(c, g, j + 1, 2 * (y - c[j]))
    ensures y - c[j] < 0 ==> End(c, g, g) > Pow2(g)
    ensures j == g ==> y - c[g] == Pow2(g) - End(c, g, g)
  {
    var z := Pow2(g - j);
    assert End(c, g, j) == End(c, g, j - 1) + c[j] * z && Pow2(0) == 1;
    EndMono(c, g, j, g);
    hide Pow2, End;
    Spend(y, c[j], z);
    if j < g { Halves(y - c[j], g - j); }
  }

  lemma Spend(y: int, n: nat, z: nat)
    ensures (y - n) * z == y * z - n * z && (z >= 1 && y < n ==> (y - n) * z < 0)
    ensures z == 1 ==> y * z == y && n * z == n
  {
  }

  lemma Halves(y: int, n: nat)
    requires n >= 1
    ensures 2 * y * Pow2(n - 1) == y * Pow2(n)
  {
  }

  lemma {:induction false} NoneBefore(c: seq<nat>, g: nat, len: nat)
    requires len <= g < |c| && forall k | 1 <= k <= len :: c[k] == 0
    ensures End(c, g, len) == 0
  {
    if len > 0 { NoneBefore(c, g, len - 1); }
  }

  /** The Kraft sum decides whether the lengths fit, and whether they leave nothing over. */
  lemma KraftDecides(b: seq<nat>)
    requires LengthsOK(b) && 1 <= MaxLen(b) <= BMAX
    ensures Kraft(b) == End(Counts(b), MaxLen(b), MaxLen(b)) * Pow2(BMAX - MaxLen(b))
    ensures Kraft(b) > Pow2(BMAX) <==> End(Counts(b), MaxLen(b), MaxLen(b)) > Pow2(MaxLen(b))
    ensures Kraft(b) < Pow2(BMAX) <==> End(Counts(b), MaxLen(b), MaxLen(b)) < Pow2(MaxLen(b))
    ensures Kraft(b) > 0
  {
    SomeCode(b);
    var c, g := Counts(b), MaxLen(b);
    KraftIsEnd(b);
    forall k | g < k <= BMAX ensures c[k] == 0 { CountAbsent(b, k); }
    EndFlat(c, g, BMAX);
    EndScale(c, g, g);
    Pow2Add(g, BMAX - g);
    Ordered(End(c, g, g), Pow2(g), Pow2(BMAX - g));
    Ordered(0, End(c, g, g), Pow2(BMAX - g));
  }

  lemma SomeCode(b: seq<nat>)
    requires 1 <= MaxLen(b) <= BMAX
    ensures End(Counts(b), MaxLen(b), MaxLen(b)) > 0
  {
    var s :| 0 <= s < |b| && b[s] == MaxLen(b);
    CountPresent(b, s);
    Scale(1, Counts(b)[MaxLen(b)], Pow2(0));
  }

  lemma Ordered(a: nat, b: nat, z: nat)
    requires z >= 1
    ensures a > b <==> a * z > b * z
    ensures a < b <==> a * z < b * z
  {
    if a > b { Scale(b + 1, a, z); Scale(b, a, z); } else { Scale(a, b, z); }
    if a < b { Scale(a + 1, b, z); Scale(a, b, z); } else { Scale(b, a, z); }
  }

  // ----- symbols in order of length

  /** How many symbols have shorter codes. */
  function Off(b: seq<nat>, len: nat): nat {
    if len <= 1 then 0 else Off(b, len - 1) + Count(b, len - 1)
  }

  ghost predicate SortedAt(b: seq<nat>, v: seq<nat>, len: nat, q: nat) {
    q < Count(b, len) && Off(b, len) + q < |v| && v[Off(b, len) + q] == Nth(b, len, q)
  }

  /** The first `n` of `v` are the symbols in order of code length. */
  ghost predicate Sorted(b: seq<nat>, v: seq<nat>, n: nat) {
    && n == Off(b, MaxLen(b) + 1) <= |v|
    && forall len: nat, q: nat | 1 <= len <= MaxLen(b) && q < Count(b, len) :: SortedAt(b, v, len, q)
  }

  lemma OffNext(b: seq<nat>, len: nat)
    requires len >= 1
    ensures Off(b, len + 1) == Off(b, len) + Count(b, len)
  {
  }

  lemma {:induction false} OffMono(b: seq<nat>, len: nat, len': nat)
    requires 1 <= len < len'
    ensures Off(b, len) + Count(b, len) <= Off(b, len')
    decreases len'
  {
    if len + 1 < len' { OffMono(b, len, len' - 1); }
  }

  lemma {:induction false} OffSnoc(b: seq<nat>, len: nat)
    requires b != []
    ensures var last := b[|b| - 1];
      Off(b, len) == Off(b[..|b| - 1], len) + if 1 <= last < len then 1 else 0
  {
    if len > 1 { OffSnoc(b, len - 1); }
  }

  lemma {:induction false} OffBound(b: seq<nat>, len: nat)
    ensures Off(b, len) <= |b|
  {
    if b == [] {
      OffEmpty(len);
    } else {
      OffBound(b[..|b| - 1], len);
      OffSnoc(b, len);
    }
  }

  lemma {:induction false} OffEmpty(len: nat)
    ensures Off([], len) == 0
  {
    if len > 1 { OffEmpty(len - 1); }
  }

  lemma {:induction false} CountPrefix(b: seq<nat>, i: nat, len: nat)
    requires i <= |b|
    ensures Count(b[..i], len) <= Count(b, len)
    decreases |b|
  {
    if i < |b| {
      CountPrefix(b[..|b| - 1], i, len);
      assert b[..|b| - 1][..i] == b[..i];
    } else {
      assert b[..i] == b;
    }
  }

  /** Symbol `s`, among the first `i`, is in its place. */
  ghost predicate Placed(b: seq<nat>, v: seq<nat>, s: nat)
    requires s < |b|
  {
    var at := Off(b, b[s]) + Count(b[..s], b[s]);
    at < |v| && v[at] == s
  }

  lemma SlotsDiffer(b: seq<nat>, s: nat, i: nat)
    requires s < i < |b| && 0 < b[s] && 0 < b[i]
    ensures Off(b, b[s]) + Count(b[..s], b[s]) != Off(b, b[i]) + Count(b[..i], b[i])
  {
    NthUnique(b, s);
    NthUnique(b, i);
    if b[s] == b[i] {
      assert b[..i][..s] == b[..s];
      NthUnique(b[..i], s);
    } else if b[s] < b[i] {
      OffMono(b, b[s], b[i]);
    } else {
      OffMono(b, b[i], b[s]);
    }
  }

  lemma SlotFits(b: seq<nat>, i: nat)
    requires i < |b| && 0 < b[i]
    ensures Off(b, b[i]) + Count(b[..i], b[i]) < |b|
  {
    NthUnique(b, i);
    OffMono(b, b[i], b[i] + 1);
    OffBound(b, b[i] + 1);
  }

  lemma PlacedSorted(b: seq<nat>, v: seq<nat>)
    requires forall s | 0 <= s < |b| && 0 < b[s] :: Placed(b, v, s)
    requires |b| <= |v|
    ensures Sorted(b, v, Off(b, MaxLen(b) + 1))
  {
    hide Off, Count, MaxLen, Nth;
    OffBound(b, MaxLen(b) + 1);
    forall len: nat, q: nat | 1 <= len <= MaxLen(b) && q < Count(b, len) ensures SortedAt(b, v, len, q) {
      var s := Nth(b, len, q);
      assert b[s] == len && Count(b[..s], len) == q;
      assert Placed(b, v, s);
    }
  }

  /** For each length, how many symbols have shorter codes: the slot its first symbol will take. */
  method Offsets(b: seq<nat>, c: seq<nat>, g: nat) returns (x: seq<nat>)
    requires 1 <= g <= BMAX && |c| == BMAX + 1 && forall len | 1 <= len < g :: c[len] == Count(b, len)
    ensures |x| == BMAX + 1 && forall len | 1 <= len <= g :: x[len] == Off(b, len)
  {
    x := seq(BMAX + 1, _ => 0);
    var j, len := 0, 1;
    while len < g
      invariant 1 <= len <= g && |x| == BMAX + 1 && j == Off(b, len) && j >= 0
      invariant forall k | 1 <= k <= len :: x[k] == Off(b, k)
    {
      j := j + c[len];
      len := len + 1;
      x := x[len := j];
    }
  }

  /** Puts every symbol that has a code into `v`, those with shorter codes first; `n` counts them. */
  method SortSymbols(b: seq<nat>, c: seq<nat>, g: nat, v: array<nat>) returns (n: nat)
    requires LengthsOK(b) && g == MaxLen(b) && 1 <= g <= BMAX && |b| <= v.Length
    requires |c| == BMAX + 1 && forall len | 1 <= len < g :: c[len] == Count(b, len)
    modifies v
    ensures Sorted(b, v[..], n)
  {
    hide Off, MaxLen, Placed;
    var x := Offsets(b, c, g);
    var i := 0;
    while i < |b|
      invariant 0 <= i <= |b| && |x| == BMAX + 1
      invariant forall len | 1 <= len <= g :: x[len] == Off(b, len) + Count(b[..i], len)
      invariant forall s | 0 <= s < i && 0 < b[s] :: Placed(b, v[..], s)
    {
      var j := b[i];
      ghost var old_v, old_x := v[..], x;
      if j != 0 {
        SlotFits(b, i);
        v[x[j]] := i;
        x := x[j := x[j] + 1];
      }
      PlacedStep(b, g, i, old_v, v[..], old_x, x);
      i := i + 1;
    }
    assert b[..|b|] == b;
    n := x[g];
    OffNext(b, g);
    PlacedSorted(b, v[..]);
  }

  lemma PlacedStep(b: seq<nat>, g: nat, i: nat, v: seq<nat>, v': seq<nat>, x: seq<nat>, x': seq<nat>)
    requires LengthsOK(b) && g == MaxLen(b) && 1 <= g <= BMAX && i < |b| && |x| == |x'| == BMAX + 1 &&
      |v'| == |v| >= |b|
    requires forall len | 1 <= len <= g :: x[len] == Off(b, len) + Count(b[..i], len)
    requires forall s | 0 <= s < i && 0 < b[s] :: Placed(b, v, s)
    requires b[i] == 0 ==> v' == v && x' == x
    requires b[i] != 0 ==> x[b[i]] < |v| && v' == v[x[b[i]] := i] && x' == x[b[i] := x[b[i]] + 1]
    ensures forall len | 1 <= len <= g :: x'[len] == Off(b, len) + Count(b[..i + 1], len)
    ensures forall s | 0 <= s < i + 1 && 0 < b[s] :: Placed(b, v', s)
  {
    forall len | 1 <= len <= g ensures x'[len] == Off(b, len) + Count(b[..i + 1], len) {
      CountSnoc(b, i, len);
    }
    forall s | 0 <= s < i + 1 && 0 < b[s] ensures Placed(b, v', s) {
      if s < i {
        assert Placed(b, v, s);
        if b[i] != 0 { SlotsDiffer(b, s, i); }
      }
    }
  }
}
