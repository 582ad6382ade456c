/** The IPv4 branch of AddressStringToBinary up to the system's conversion: what its result is, group by group. */
module Ipv4Address {
  import opened Bits
  import opened DnsName
  import opened Ipv4

  predicate AddressChar(c: byte) {
    c == DOT || ZERO <= c <= NINE
  }

  /** They are the dot and the ten digits. */
  lemma AddressChars(c: byte)
    ensures AddressChar(c) <==> c == '.' as int || '0' as int <= c <= '9' as int
  {
  }

  predicate AddressText(s: seq<byte>) {
    forall i | 0 <= i < |s| :: AddressChar(s[i])
  }

  predicate NoDot(g: Digits) {
    forall i | 0 <= i < |g| :: g[i] != DOT
  }

  predicate NoDots(gs: seq<Digits>) {
    forall i | 0 <= i < |gs| :: NoDot(gs[i])
  }

  function Dots(s: seq<byte>): nat {
    if s == [] then 0 else (if s[0] == DOT then 1 else 0) + Dots(s[1..])
  }

  // ----- the two passes, group by group

  function BareAll(gs: seq<Digits>): (r: seq<Digits>)
    ensures |r| == |gs|
  {
    if gs == [] then [] else [Bare(gs[0])] + BareAll(gs[1..])
  }

  /** Groups behind a first one, each behind its dot. */
  function Behind(gs: seq<Digits>): seq<byte> {
    if gs == [] then [] else [DOT] + gs[0] + Behind(gs[1..])
  }

  lemma {:induction false} TextBehind(g: Digits, gs: seq<Digits>)
    ensures Text([g] + gs) == g + Behind(gs)
    decreases gs
  {
    assert ([g] + gs)[1..] == gs;
    if gs == [] {
      assert g + [] == g;
    } else {
      TextBehind(gs[0], gs[1..]);
      assert [gs[0]] + gs[1..] == gs;
      assert g + [DOT] + (gs[0] + Behind(gs[1..])) == g + ([DOT] + gs[0] + Behind(gs[1..]));
    }
  }

  lemma {:induction false} StripGroup(g: Digits, rest: seq<byte>, behindDot: bool)
    requires NoDot(g) && (rest == [] || rest[0] == DOT)
    ensures Stripped(g + rest, behindDot) == (if behindDot then Bare(g) else g) + Stripped(rest, false)
  {
    var s := g + rest;
    if g == [] {
      assert s == rest;
      assert [] + Stripped(rest, false) == Stripped(rest, false);
    } else {
      assert s[1..] == g[1..] + rest && s[0] == g[0];
      StripGroup(g[1..], rest, behindDot && g[0] == ZERO);
      assert g == [g[0]] + g[1..];
      assert [g[0]] + (g[1..] + Stripped(rest, false)) == g + Stripped(rest, false);
    }
  }

  /** The first pass strips every group but the first. */
  lemma {:induction false} StripBehind(gs: seq<Digits>)
    requires NoDots(gs)
    ensures Stripped(Behind(gs), false) == Behind(BareAll(gs))
  {
    if gs != [] {
      var g, more := gs[0], gs[1..];
      StripBehind(more);
      BehindStarts(more);
      BehindStep(gs, g, more);
      BehindStep(BareAll(gs), Bare(g), BareAll(more));
      hide Behind, Stripped, Bare, BareAll;
      StripGroup(g, Behind(more), true);
      StripDot(g + Behind(more));
    }
  }

  lemma BehindStep(gs: seq<Digits>, g: Digits, more: seq<Digits>)
    requires gs != [] && g == gs[0] && more == gs[1..]
    ensures Behind(gs) == [DOT] + (g + Behind(more))
  {
  }

  lemma StripDot(s: seq<byte>)
    ensures Stripped([DOT] + s, false) == [DOT] + Stripped(s, true)
  {
    assert ([DOT] + s)[1..] == s;
  }

  lemma FillDot(s: seq<byte>)
    ensures Filled([DOT] + s, false) == [DOT] + Filled(s, true)
  {
    assert ([DOT] + s)[1..] == s;
  }

  lemma BehindStarts(gs: seq<Digits>)
    ensures Behind(gs) == [] || Behind(gs)[0] == DOT
  {
  }

  lemma {:induction false} FillGroup(g: Digits, rest: seq<byte>, behindDot: bool)
    requires NoDot(g) && g != []
    ensures Filled(g + rest, behindDot) == g + Filled(rest, false)
  {
    var s := g + rest;
    assert s[0] == g[0] && s[1..] == g[1..] + rest;
    assert g == [g[0]] + g[1..];
    assert [] + [g[0]] == [g[0]];
    if |g| > 1 {
      FillGroup(g[1..], rest, false);
      assert [g[0]] + (g[1..] + Filled(rest, false)) == g + Filled(rest, false);
    } else {
      assert s[1..] == rest && g == [g[0]];
    }
  }

  /** A zero goes into each empty group. */
  lemma {:induction false} FillBehind(gs: seq<Digits>)
    requires NoDots(gs)
    ensures Filled(Behind(BareAll(gs)), false) == Behind(AllPlainly(gs))
  {
    if gs != [] {
      var g, more := gs[0], gs[1..];
      var h, rest := Bare(g), Behind(BareAll(more));
      FillBehind(more);
      BehindStarts(BareAll(more));
      BareNoDot(g);
      BehindStep(BareAll(gs), h, BareAll(more));
      BehindStep(AllPlainly(gs), Plainly(g), AllPlainly(more));
      assert h == [] ==> h + rest == rest;
      hide Behind, Filled, Bare, BareAll, AllPlainly;
      FillDot(h + rest);
      if h == [] {
        FillEmpty(rest);
      } else {
        FillGroup(h, rest, true);
      }
    }
  }

  lemma FillEmpty(rest: seq<byte>)
    requires rest == [] || rest[0] == DOT
    ensures Filled(rest, true) == [ZERO] + Filled(rest, false)
  {
    if rest != [] {
      var c := Filled(rest[1..], true);
      assert [ZERO] + [DOT] + c == [ZERO] + ([] + [DOT] + c);
    }
  }

  lemma {:induction false} BareNoDot(g: Digits)
    requires NoDot(g)
    ensures NoDot(Bare(g))
  {
    if g != [] && g[0] == ZERO { BareNoDot(g[1..]); }
  }

  /** What the three loops make of a text. */
  lemma RewritePlainly(g: Digits, gs: seq<Digits>)
    requires NoDot(g) && NoDots(gs)
    ensures Filled(Stripped(Text([g] + gs), false), false) == Text([g] + AllPlainly(gs))
  {
    TextBehind(g, gs);
    TextBehind(g, AllPlainly(gs));
    BehindStarts(gs);
    StripGroup(g, Behind(gs), false);
    StripBehind(gs);
    FillBehind(gs);
    var b := Behind(BareAll(gs));
    if g == [] {
      assert g + b == b && g + Behind(AllPlainly(gs)) == Behind(AllPlainly(gs));
    } else {
      FillGroup(g, b, false);
    }
  }

  // ----- the whole branch

  lemma {:induction false} SplitGroups(s: seq<byte>)
    ensures NoDots(Split(s)) && |Split(s)| == Dots(s) + 1
  {
    if s != [] { SplitGroups(s[1..]); }
  }

  lemma LeadStep(s: seq<byte>)
    requires |s| > 1 && s[0] == ZERO && s[1] != DOT
    ensures var a, b := Split(s), Split(s[1..]); a[1..] == b[1..] && Lead(a[0]) == Lead(b[0])
  {
    var b := Split(s[1..]);
    var a := Split(s);
    assert a == [[ZERO] + b[0]] + b[1..];
    assert b[0] != [];
    assert a[0][1..] == b[0];
  }

  lemma LeadDone(s: seq<byte>)
    requires !(|s| > 1 && s[0] == ZERO && s[1] != DOT)
    ensures Split(s)[0] == Lead(Split(s)[0])
  {
    SplitHead(s);
    if |s| > 1 { SplitHead(s[1..]); }
    hide Split;
    if s != [] && s[0] == ZERO {
      assert Split(s)[0] == [ZERO];
      assert Bare([ZERO]) == Bare([ZERO][1..]) == [];
    }
  }

  lemma SplitHead(s: seq<byte>)
    ensures Split(s)[0] == if s == [] || s[0] == DOT then [] else [s[0]] + Split(s[1..])[0]
  {
  }

  /** The first dot is behind the first group. */
  lemma {:induction false} FirstDot(g: Digits, t: seq<byte>, with: seq<byte>)
    requires NoDot(g)
    ensures var s := g + [DOT] + t; Find(s, [DOT], 0) == |g| && Replace(s, |g|, 1, with) == g + with + t
  {
    var s := g + [DOT] + t;
    assert s[|g|..|g| + 1] == [DOT];
    assert OccursAt(s, [DOT], |g|);
    var i := Find(s, [DOT], 0);
    forall j: nat | j < |g| ensures !OccursAt(s, [DOT], j) {
      var one := [g[j]];
      assert s[j..j + 1] == one && one[0] != [DOT][0];
    }
    assert s[..|g|] == g && s[|g| + 1..] == t;
  }

  /** Validates an address, drops the zeros before it, widens it and rewrites it. */
  method Normalise(addr: seq<byte>) returns (ok: bool, s: seq<byte>)
    ensures ok <==> AddressText(addr)
    ensures ok ==> s == Text(Ordered(Widened(Split(addr))))
  {
    hide Split, Text, Ordered, Widened, Dots, Lead;
    var commaNum := 0;
    var result := 0;
    s := [];
    while result < |addr|
      invariant result <= |addr| && forall i | 0 <= i < result :: AddressChar(addr[i])
      invariant commaNum + Dots(addr[result..]) == Dots(addr)
    {
      DotsStep(addr, result);
      if (addr[result] != DOT && addr[result] < ZERO) || addr[result] > NINE {
        return false, s;
      } else if addr[result] == DOT {
        commaNum := commaNum + 1;
      }
      result := result + 1;
    }
    NoMoreDots(addr);
    s := Erase(addr);
    s := Widen(addr, s, commaNum);
    s := Rewrite(s);
    return true, s;
  }

  lemma DotsStep(s: seq<byte>, i: nat)
    requires i < |s|
    ensures Dots(s[i..]) == (if s[i] == DOT then 1 else 0) + Dots(s[i + 1..])
  {
    assert s[i..][1..] == s[i + 1..];
  }

  lemma NoMoreDots(s: seq<byte>)
    ensures Dots(s[|s|..]) == 0 && s[0..] == s
  {
  }

  /** Erases zeros before the address, down to its last digit. */
  method Erase(addr: seq<byte>) returns (s: seq<byte>)
    ensures Split(s) == [Lead(Split(addr)[0])] + Split(addr)[1..]
  {
    hide Split, Lead;
    s := addr;
    while |s| > 1 && s[0] == ZERO && s[1] != DOT
      invariant Split(s)[1..] == Split(addr)[1..] && Lead(Split(s)[0]) == Lead(Split(addr)[0])
    {
      LeadStep(s);
      s := s[1..];
    }
    LeadDone(s);
    assert Split(s) == [Split(s)[0]] + Split(s)[1..];
  }

  lemma TextAhead(g: Digits, gs: seq<Digits>)
    requires gs != []
    ensures Text([g] + gs) == g + [DOT] + Text(gs)
  {
    assert ([g] + gs)[1..] == gs;
  }

  lemma TextOne(g: Digits)
    ensures Text([g]) == g
  {
  }

  // Widening, on the text.
  lemma WidenOne(gs: seq<Digits>)
    requires |gs| == 1
    ensures Text(Widened(gs)) == [ZERO, DOT, ZERO, DOT, ZERO, DOT] + Text(gs)
  {
    var g, z := gs[0], [ZERO];
    assert gs == [g];
    TextOne(g);
    hide Text;
    TextAhead(z, [g]);
    TextAhead(z, [z] + [g]);
    TextAhead(z, [z] + ([z] + [g]));
    assert Widened(gs) == [z] + ([z] + ([z] + [g]));
    Join3(z, z, z, g);
  }

  lemma Join3(a: seq<byte>, b: seq<byte>, c: seq<byte>, t: seq<byte>)
    ensures a + [DOT] + (b + [DOT] + (c + [DOT] + t)) == a + [DOT] + b + [DOT] + c + [DOT] + t
  {
    assert b + [DOT] + (c + [DOT] + t) == b + [DOT] + c + [DOT] + t;
  }

  lemma Join2(a: seq<byte>, b: seq<byte>, t: seq<byte>)
    ensures a + [DOT] + (b + [DOT] + t) == a + ([DOT] + b + [DOT]) + t
  {
  }

  lemma WidenTwo(hs: seq<Digits>)
    requires |hs| == 2
    ensures Text(Widened(hs)) == hs[0] + [DOT, ZERO, DOT, ZERO, DOT] + Text(hs[1..])
  {
    var h, more, z := hs[0], hs[1..], [ZERO];
    hide Text;
    TextAhead(z, more);
    TextAhead(z, [z] + more);
    TextAhead(h, [z] + ([z] + more));
    assert Widened(hs) == [h] + ([z] + ([z] + more));
    var t := Text(more);
    Join2(z, z, t);
    assert [DOT] + z + [DOT] == [DOT, ZERO, DOT];
    assert h + [DOT] + (z + [DOT, ZERO, DOT] + t) == h + [DOT, ZERO, DOT, ZERO, DOT] + t;
  }

  lemma WidenThree(hs: seq<Digits>)
    requires |hs| == 3
    ensures Text(Widened(hs)) == hs[0] + [DOT, ZERO, DOT] + Text(hs[1..])
  {
    var h, more, z := hs[0], hs[1..], [ZERO];
    hide Text;
    TextAhead(z, more);
    TextAhead(h, [z] + more);
    assert Widened(hs) == [h] + ([z] + more);
    Join2(h, z, Text(more));
    assert [DOT] + z + [DOT] == [DOT, ZERO, DOT];
  }

  /** Erasing the zeros of the first group first changes nothing of the result. */
  lemma OrderedLead(gs: seq<Digits>, hs: seq<Digits>)
    requires gs != [] && hs == (if |gs| == 1 then gs else [Lead(gs[0])] + gs[1..]) && NoDots(hs)
    ensures var w := Widened(hs);
      w != [] && Text(w) != [] && Filled(Stripped(Text(w), false), false) == Text(Ordered(Widened(gs)))
  {
    var w := Widened(hs);
    var v := Widened(gs);
    assert w[0] == Lead(v[0]) && w[1..] == v[1..] by {
      assert Bare([ZERO]) == Bare([ZERO][1..]) == [];
    }
    assert forall i | 0 <= i < |w| :: NoDot(w[i]);
    RewritePlainly(w[0], w[1..]);
    assert w == [w[0]] + w[1..];
    assert |w| >= 2;
    TextAhead(w[0], w[1..]);
  }

  /** The groups of the address with the zeros of an abbreviation; of a single number the text before erasing. */
  method Widen(addr: seq<byte>, s0: seq<byte>, commaNum: nat) returns (s: seq<byte>)
    requires commaNum == Dots(addr) && Split(s0) == [Lead(Split(addr)[0])] + Split(addr)[1..]
    ensures s != [] && Filled(Stripped(s, false), false) == Text(Ordered(Widened(Split(addr))))
  {
    s := s0;
    ghost var gs, hs := Split(addr), Split(s0);
    SplitGroups(addr);
    SplitGroups(s0);
    TextSplit(s0);
    TextSplit(addr);
    hide Split, Lead, Stripped, Filled, Text, Ordered, Widened, NoDots, Dots;
    if commaNum == 0 {
      WidenOne(gs);
      OrderedLead(gs, gs);
      s := [];
      s := s + [ZERO, DOT, ZERO, DOT, ZERO, DOT];
      s := s + addr;
      assert s == Text(Widened(gs));
    } else {
      OrderedLead(gs, hs);
      FirstGroup(hs);
      if commaNum == 1 {
        WidenTwo(hs);
        FirstDot(hs[0], Text(hs[1..]), [DOT, ZERO, DOT, ZERO, DOT]);
        s := Replace(s, Find(s, [DOT], 0), 1, [DOT, ZERO, DOT, ZERO, DOT]);
        assert s == Text(Widened(hs));
      } else if commaNum == 2 {
        WidenThree(hs);
        FirstDot(hs[0], Text(hs[1..]), [DOT, ZERO, DOT]);
        s := Replace(s, Find(s, [DOT], 0), 1, [DOT, ZERO, DOT]);
        assert s == Text(Widened(hs));
      } else {
        WidenedLong(hs);
      }
    }
  }

  lemma FirstGroup(hs: seq<Digits>)
    requires NoDots(hs) && |hs| >= 2
    ensures NoDot(hs[0]) && Text(hs) == hs[0] + [DOT] + Text(hs[1..])
  {
  }

  lemma WidenedLong(hs: seq<Digits>)
    requires |hs| >= 4
    ensures Widened(hs) == hs
  {
  }

  // ----- what the result means

  /** Of an address with at most four groups and a non-empty first one, the result has four groups; each is the
      decimal of the group that stands there once the missing zeros are put in. */
  lemma NormaliseMeans(addr: seq<byte>)
    requires AddressText(addr)
    ensures var gs, r := Widened(Split(addr)), Ordered(Widened(Split(addr)));
      Split(Text(r)) == r && |r| == |gs| && (|Split(addr)| <= 4 ==> |r| == 4) &&
      (forall i | 0 <= i < |gs| :: IsDigits(gs[i]) && IsDigits(r[i]) && Value(r[i]) == Value(gs[i])) &&
      (forall i | 1 <= i < |gs| :: Decimal(r[i])) && (Decimal(r[0]) <==> addr == [] || addr[0] != DOT)
  {
    SplitDigits(addr);
    GroupsMean(Split(addr));
    hide *;
    SplitText(Ordered(Widened(Split(addr))));
  }

  lemma GroupsMean(us: seq<Digits>)
    requires us != [] && forall i | 0 <= i < |us| :: IsDigits(us[i])
    ensures var gs, r := Widened(us), Ordered(Widened(us));
      |r| == |gs| && (|us| <= 4 ==> |r| == 4) && r != [] &&
      (forall i | 0 <= i < |gs| :: IsDigits(gs[i]) && IsDigits(r[i]) && Value(r[i]) == Value(gs[i])) &&
      (forall i | 1 <= i < |gs| :: Decimal(r[i])) && (Decimal(r[0]) <==> us[0] != [] || |us| == 1) &&
      forall i, j | 0 <= i < |r| && 0 <= j < |r[i]| :: r[i][j] != DOT
  {
    var gs := Widened(us);
    assert IsDigits([ZERO]);
    assert gs[0] == [] <==> us[0] == [] && |us| > 1;
    forall i | 0 <= i < |gs| ensures IsDigits(gs[i]) {
      assert gs[i] == [ZERO] || gs[i] in us;
    }
    hide Widened;
    EachMeans(gs);
  }

  lemma EachMeans(gs: seq<Digits>)
    requires gs != [] && forall i | 0 <= i < |gs| :: IsDigits(gs[i])
    ensures var r := Ordered(gs);
      |r| == |gs| &&
      (forall i | 0 <= i < |gs| :: IsDigits(r[i]) && Value(r[i]) == Value(gs[i]) && NoDot(r[i])) &&
      (forall i | 1 <= i < |gs| :: Decimal(r[i])) && (Decimal(r[0]) <==> gs[0] != [])
  {
    var r := Ordered(gs);
    hide Plainly, Bare, IsDigits, Decimal, Value, NoDot;
    forall i | 0 <= i < |gs|
      ensures r[i] == Plainly(gs[i]) || (i == 0 && r[i] == gs[i])
      ensures IsDigits(r[i]) && Value(r[i]) == Value(gs[i]) && NoDot(r[i]) && Decimal(Plainly(gs[i]))
    {
      PlainlyMeans(gs[i]);
      DigitsNoDot(gs[i]);
      DigitsNoDot(Plainly(gs[i]));
      assert i > 0 ==> r[i] == AllPlainly(gs[1..])[i - 1];
    }
    DigitsNoDot([]);
  }

  lemma DigitsNoDot(g: Digits)
    ensures IsDigits(g) ==> NoDot(g)
    ensures Decimal(g) ==> IsDigits(g)
    ensures !Decimal([])
  {
  }

  lemma {:induction false} SplitDigits(addr: seq<byte>)
    requires AddressText(addr)
    ensures forall i | 0 <= i < |Split(addr)| :: IsDigits(Split(addr)[i])
    ensures Split(addr)[0] == [] <==> addr == [] || addr[0] == DOT
  {
    if addr != [] { SplitDigits(addr[1..]); }
  }

  /** The result is the only dotted decimal of those values. */
  lemma OnlyDecimal(addr: seq<byte>, d: seq<Digits>)
    requires AddressText(addr) && (addr == [] || addr[0] != DOT)
    requires var gs := Widened(Split(addr));
      |d| == |gs| && forall i | 0 <= i < |d| :: Decimal(d[i]) && IsDigits(gs[i]) && Value(d[i]) == Value(gs[i])
    ensures Ordered(Widened(Split(addr))) == d
  {
    hide AddressText, IsDigits;
    NormaliseMeans(addr);
    var gs := Widened(Split(addr));
    var r := Ordered(gs);
    hide Split, Widened, Ordered, Text, Value;
    forall i | 0 <= i < |d| ensures r[i] == d[i] { DecimalUnique(r[i], d[i]); }
  }

  /** Normalising a normalised address changes nothing. */
  lemma NormaliseTwice(addr: seq<byte>)
    requires AddressText(addr) && (addr == [] || addr[0] != DOT)
    ensures var s := Text(Ordered(Widened(Split(addr))));
      AddressText(s) && Text(Ordered(Widened(Split(s)))) == s
  {
    NormaliseMeans(addr);
    AtLeastFour(Split(addr));
    hide Split, Widened, Ordered, Text, Value, Decimal, IsDigits, AddressText;
    var r := Ordered(Widened(Split(addr)));
    var s := Text(r);
    WidenedLong(r);
    TextChars(r);
    SplitHead(s);
    DigitsNoDot([]);
    OnlyDecimal(s, r);
  }

  lemma AtLeastFour(us: seq<Digits>)
    requires us != []
    ensures |Widened(us)| >= 4
  {
  }

  lemma {:induction false} TextChars(gs: seq<Digits>)
    requires forall i | 0 <= i < |gs| :: IsDigits(gs[i])
    ensures AddressText(Text(gs))
  {
    if |gs| > 1 { TextChars(gs[1..]); }
  }

  /** An address that starts with a dot: its first group stays empty. */
  lemma EmptyFirstGroup()
    ensures var addr := [DOT, 49, DOT, 50, DOT, 51];
      AddressText(addr) && Split(addr) == [[], [49], [50], [51]] &&
      Ordered(Widened(Split(addr))) == Split(addr) && !Decimal([])
  {
    var gs: seq<Digits> := [[], [49], [50], [51]];
    ExampleSplit(gs);
    ExamplePlainly();
    hide Split, Plainly, Bare;
    assert gs[1..] == [[49], [50], [51]];
    assert AllPlainly([]) == [] && AllPlainly([[51]]) == [[51]] + AllPlainly([[51]][1..]);
    assert [[50], [51]][1..] == [[51]] && [[49], [50], [51]][1..] == [[50], [51]];
  }

  lemma ExampleSplit(gs: seq<Digits>)
    requires gs == [[], [49], [50], [51]]
    ensures Split([DOT, 49, DOT, 50, DOT, 51]) == gs
  {
    SplitText(gs);
    TextOne([51]);
    TextAhead([50], [[51]]);
    TextAhead([49], [[50], [51]]);
    TextAhead([], [[49], [50], [51]]);
    hide Text;
    assert [[50]] + [[51]] == [[50], [51]] && [[49]] + [[50], [51]] == [[49], [50], [51]];
    assert gs == [[]] + [[49], [50], [51]];
    assert Text(gs) == [DOT, 49, DOT, 50, DOT, 51];
  }

  lemma ExamplePlainly()
    ensures Plainly([49]) == [49] && Plainly([50]) == [50] && Plainly([51]) == [51]
  {
  }
}
