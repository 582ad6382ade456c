/** The text rewriting that AddressStringToBinary does to an IPv4 address before it converts it. */
module Ipv4 {
  import opened Bits
  import opened DnsName

  const ZERO: byte := 48
  const NINE: byte := 57

  type Digits = seq<byte>

  // ----- what the rewriting is for

  /** A group without the zeros before it. */
  function Bare(g: Digits): Digits {
    if g != [] && g[0] == ZERO then Bare(g[1..]) else g
  }

  /** A group in plain decimal. */
  function Plainly(g: Digits): Digits {
    if Bare(g) == [] then [ZERO] else Bare(g)
  }

  function AllPlainly(gs: seq<Digits>): (r: seq<Digits>)
    ensures |r| == |gs| && forall i | 0 <= i < |gs| :: r[i] == Plainly(gs[i])
  {
    if gs == [] then [] else [Plainly(gs[0])] + AllPlainly(gs[1..])
  }

  /** Abbreviated addresses get their zeros: behind the first group, or before a single one. */
  function Widened(gs: seq<Digits>): (r: seq<Digits>)
    requires gs != []
    ensures |gs| <= 4 ==> |r| == 4
  {
    match |gs|
    case 1 => [[ZERO], [ZERO], [ZERO], gs[0]]
    case 2 => [gs[0], [ZERO], [ZERO], gs[1]]
    case 3 => [gs[0], [ZERO], gs[1], gs[2]]
    case _ => gs
  }

  /** The first group: it stays when it is empty. */
  function Lead(g: Digits): Digits {
    if g == [] then [] else Plainly(g)
  }

  /** The groups in plain decimal. */
  function Ordered(gs: seq<Digits>): seq<Digits>
    requires gs != []
  {
    [Lead(gs[0])] + AllPlainly(gs[1..])
  }

  predicate IsDigits(g: Digits) {
    forall i | 0 <= i < |g| :: ZERO <= g[i] <= NINE
  }

  function Value(g: Digits): nat
    requires IsDigits(g)
  {
    if g == [] then 0 else Value(g[..|g| - 1]) * 10 + (g[|g| - 1] - ZERO)
  }

  /** Decimal without leading zeros. */
  predicate Decimal(g: Digits) {
    IsDigits(g) && (g == [ZERO] || (g != [] && g[0] != ZERO))
  }

  /** A plain group is decimal and has the group's value; an empty group counts as zero. */
  lemma {:induction false} PlainlyMeans(g: Digits)
    requires IsDigits(g)
    ensures Decimal(Plainly(g)) && Value(Plainly(g)) == Value(g)
  {
    if g != [] && g[0] == ZERO {
      PlainlyMeans(g[1..]);
      ZeroBefore(g);
    }
    assert Value([ZERO]) == 0;
  }

  lemma {:induction false} ZeroBefore(g: Digits)
    requires IsDigits(g) && g != [] && g[0] == ZERO
    ensures Value(g[1..]) == Value(g)
  {
    if |g| > 1 {
      var h := g[..|g| - 1];
      ZeroBefore(h);
      assert g[1..][..|g| - 2] == h[1..];
    } else {
      assert g[..0] == [];
    }
  }

  /** There is one such decimal for a value. */
  lemma {:induction false} DecimalUnique(a: Digits, b: Digits)
    requires Decimal(a) && Decimal(b) && Value(a) == Value(b)
    ensures a == b
  {
    var p, q := a[..|a| - 1], b[..|b| - 1];
    TenUnique(Value(p), a[|a| - 1] - ZERO, Value(q), b[|b| - 1] - ZERO);
    assert a == p + [a[|a| - 1]] && b == q + [b[|b| - 1]];
    DecimalPositive(a);
    DecimalPositive(b);
    if p != [] && q != [] {
      DecimalUnique(p, q);
    }
  }

  lemma {:induction false} DecimalPositive(a: Digits)
    requires Decimal(a)
    ensures var p := a[..|a| - 1]; IsDigits(p) && (p != [] ==> Decimal(p) && Value(p) > 0)
  {
    var p := a[..|a| - 1];
    if p != [] { LeadingPositive(p); }
  }

  lemma {:induction false} LeadingPositive(p: Digits)
    requires IsDigits(p) && p != [] && p[0] != ZERO
    ensures Value(p) > 0
  {
    if |p| > 1 { LeadingPositive(p[..|p| - 1]); }
  }

  lemma TenUnique(a: nat, x: nat, b: nat, y: nat)
    requires a * 10 + x == b * 10 + y && x < 10 && y < 10
    ensures a == b && x == y
  {
  }

  // ----- the loops

  predicate OccursAt(s: seq<byte>, pat: seq<byte>, i: nat) {
    i + |pat| <= |s| && s[i..i + |pat|] == pat
  }

  /** std::string::find from `from` on; -1 for npos. */
  function Find(s: seq<byte>, pat: seq<byte>, from: nat): (i: int)
    requires from <= |s|
    ensures i == -1 || (from <= i && OccursAt(s, pat, i))
    ensures forall j | from <= j <= |s| && (i == -1 || j < i) :: !OccursAt(s, pat, j)
    decreases |s| - from
  {
    if OccursAt(s, pat, from) then from
    else if from == |s| then -1
    else Find(s, pat, from + 1)
  }

  /** std::string::replace. */
  function Replace(s: seq<byte>, i: nat, n: nat, with: seq<byte>): seq<byte>
    requires i + n <= |s|
  {
    s[..i] + with + s[i + n..]
  }

  /** One pass that drops the zeros behind each dot. */
  function Stripped(s: seq<byte>, behindDot: bool): seq<byte> {
    if s == [] then []
    else if behindDot && s[0] == ZERO then Stripped(s[1..], true)
    else [s[0]] + Stripped(s[1..], s[0] == DOT)
  }

  /** One pass that puts a zero behind each dot that no digit follows. */
  function Filled(s: seq<byte>, behindDot: bool): (r: seq<byte>)
    ensures |r| >= |s|
  {
    if s == [] then (if behindDot then [ZERO] else [])
    else (if behindDot && s[0] == DOT then [ZERO] else []) + [s[0]] + Filled(s[1..], s[0] == DOT)
  }

  lemma {:induction false} StripKeeps(a: seq<byte>, zeros: seq<byte>, b: seq<byte>, behindDot: bool)
    requires forall i | 0 <= i < |zeros| :: zeros[i] == ZERO
    ensures Stripped(a + ([DOT] + zeros + b), behindDot) == Stripped(a + ([DOT] + b), behindDot)
    decreases |a|, |zeros|
  {
    var s, t := a + ([DOT] + zeros + b), a + ([DOT] + b);
    if a != [] {
      StripKeeps(a[1..], zeros, b, a[0] == DOT);
      StripKeeps(a[1..], zeros, b, true);
      assert s[1..] == a[1..] + ([DOT] + zeros + b) && t[1..] == a[1..] + ([DOT] + b);
    } else {
      assert s[1..] == zeros + b && t[1..] == b;
      StripZeros(zeros, b);
    }
  }

  lemma {:induction false} StripZeros(zeros: seq<byte>, b: seq<byte>)
    requires forall i | 0 <= i < |zeros| :: zeros[i] == ZERO
    ensures Stripped(zeros + b, true) == Stripped(b, true)
  {
    if zeros == [] {
      assert zeros + b == b;
    } else {
      StripZeros(zeros[1..], b);
      assert (zeros + b)[1..] == zeros[1..] + b;
    }
  }

  lemma {:induction false} FillKeeps(a: seq<byte>, b: seq<byte>, behindDot: bool)
    ensures Filled(a + ([DOT, ZERO, DOT] + b), behindDot) == Filled(a + ([DOT, DOT] + b), behindDot)
  {
    var s, t := a + ([DOT, ZERO, DOT] + b), a + ([DOT, DOT] + b);
    if a != [] {
      FillKeeps(a[1..], b, a[0] == DOT);
      assert s[1..] == a[1..] + ([DOT, ZERO, DOT] + b) && t[1..] == a[1..] + ([DOT, DOT] + b);
    } else {
      assert s[1..] == [ZERO, DOT] + b && s[1..][1..] == [DOT] + b == t[1..] && ([DOT] + b)[1..] == b;
      var c := Filled(b, true);
      assert [] + [DOT] + c == [DOT] + c && [] + [ZERO] == [ZERO];
      assert Filled([DOT] + b, false) == [DOT] + c;
      assert Filled([ZERO, DOT] + b, true) == [ZERO] + ([DOT] + c);
      assert Filled([DOT] + b, true) == [ZERO] + [DOT] + c;
    }
  }

  lemma {:induction false} NothingToStrip(s: seq<byte>, behindDot: bool)
    requires forall i: nat | i <= |s| :: !OccursAt(s, [DOT, ZERO], i)
    requires behindDot ==> s == [] || s[0] != ZERO
    ensures Stripped(s, behindDot) == s
  {
    if s != [] {
      forall i: nat | i <= |s| - 1 ensures !OccursAt(s[1..], [DOT, ZERO], i) { Shifted(s, [DOT, ZERO], i); }
      assert !OccursAt(s, [DOT, ZERO], 0);
      assert |s| > 1 ==> s[0..2] == [s[0], s[1]];
      NothingToStrip(s[1..], s[0] == DOT);
    }
  }

  lemma {:induction false} NothingToFill(s: seq<byte>, behindDot: bool)
    requires forall i: nat | i <= |s| :: !OccursAt(s, [DOT, DOT], i)
    requires behindDot ==> s != [] && s[0] != DOT
    ensures Filled(s, behindDot) == s + if s != [] && s[|s| - 1] == DOT then [ZERO] else []
  {
    if |s| > 1 {
      forall i: nat | i <= |s| - 1 ensures !OccursAt(s[1..], [DOT, DOT], i) { Shifted(s, [DOT, DOT], i); }
      assert !OccursAt(s, [DOT, DOT], 0);
      assert s[0..2] == [s[0], s[1]];
      NothingToFill(s[1..], s[0] == DOT);
    }
  }

  lemma Shifted(s: seq<byte>, pat: seq<byte>, i: nat)
    requires s != [] && !OccursAt(s, pat, i + 1)
    ensures !OccursAt(s[1..], pat, i)
  {
    assert i + |pat| <= |s[1..]| ==> s[1..][i..i + |pat|] == s[i + 1..i + 1 + |pat|];
  }

  lemma CutAt(s: seq<byte>, pat: seq<byte>, i: nat)
    requires OccursAt(s, pat, i)
    ensures s == s[..i] + (pat + s[i + |pat|..])
  {
  }

  /** The three loops and the last test. */
  method Rewrite(s0: seq<byte>) returns (s: seq<byte>)
    requires s0 != []
    ensures s == Filled(Stripped(s0, false), false)
  {
    s := DropAll(s0, [DOT, ZERO, ZERO], 3, [ZERO, ZERO]);
    s := DropAll(s, [DOT, ZERO], 2, [ZERO]);
    NothingToStrip(s, false);
    hide *;
    ghost var t := s;
    while Find(s, [DOT, DOT], 0) != -1
      invariant s != [] && Filled(s, false) == Filled(t, false)
      decreases |Filled(t, false)| - |s|
    {
      var i := Find(s, [DOT, DOT], 0);
      AddZero(s, i);
      s := Replace(s, i, 2, [DOT, ZERO, DOT]);
    }
    NothingToFill(s, false);
    if s[|s| - 1] == DOT {
      s := s + [ZERO];
    }
  }

  /** Either of the first two loops: replaces `pat` by a dot while it is there. */
  method DropAll(s0: seq<byte>, pat: seq<byte>, n: nat, ghost zeros: seq<byte>) returns (s: seq<byte>)
    requires s0 != [] && zeros != [] && n == |pat| && pat == [DOT] + zeros &&
      forall k | 0 <= k < |zeros| :: zeros[k] == ZERO
    ensures s != [] && Stripped(s, false) == Stripped(s0, false)
    ensures forall i: nat | i <= |s| :: !OccursAt(s, pat, i)
  {
    hide *;
    s := s0;
    while Find(s, pat, 0) != -1
      invariant s != [] && Stripped(s, false) == Stripped(s0, false)
      decreases |s|
    {
      var i := Find(s, pat, 0);
      DropZeros(s, i, pat, zeros);
      s := Replace(s, i, n, [DOT]);
    }
  }

  lemma DropZeros(s: seq<byte>, i: nat, pat: seq<byte>, zeros: seq<byte>)
    requires pat == [DOT] + zeros && (forall k | 0 <= k < |zeros| :: zeros[k] == ZERO) && OccursAt(s, pat, i)
    ensures i + |pat| <= |s|
    ensures var t := Replace(s, i, |pat|, [DOT]);
      Stripped(t, false) == Stripped(s, false) && t != [] && |t| == |s| - |zeros|
  {
    CutAt(s, pat, i);
    var a, b := s[..i], s[i + |pat|..];
    StripKeeps(a, zeros, b, false);
    assert a + [DOT] + b == a + ([DOT] + b);
  }

  lemma AddZero(s: seq<byte>, i: nat)
    requires OccursAt(s, [DOT, DOT], i)
    ensures i + 2 <= |s|
    ensures var t := Replace(s, i, 2, [DOT, ZERO, DOT]);
      Filled(t, false) == Filled(s, false) && |t| == |s| + 1 <= |Filled(s, false)|
  {
    CutAt(s, [DOT, DOT], i);
    var a, b := s[..i], s[i + 2..];
    FillKeeps(a, b, false);
    assert a + [DOT, ZERO, DOT] + b == a + ([DOT, ZERO, DOT] + b);
  }
}
