/** When PrintDomainName prints a name right: exactly if a label stands wherever one of its pointers leads. */
module DnsLabelled {
  import opened Bits
  import opened DnsName
  import opened DnsDecode
  import opened DnsPrint
  import opened DnsExpand

  predicate BarePointer(p: Part) {
    p.Jump? && p.labels == []
  }

  // ----- places without a label

  /** What is printed from a pointer's target on does not depend on how many hops are allowed. */
  lemma {:induction false} FollowedSame(t: seq<byte>, target: nat, a: nat, b: nat)
    requires target > 0 && Settles(t, target, a) && Settles(t, target, b)
    ensures Followed(t, target, a) == Followed(t, target, b)
    decreases a
  {
    var d := Decode(t, target);
    hide Decode, UpToZero;
    if d.target != 0 { FollowedSame(t, d.target, a - 1, b - 1); }
  }

  /** The root, where a pointer leads, is taken for a label's length: nothing is printed, or a text that starts with a
      dot.  Where labels lie behind the root, these are printed, with the dot in front. */
  lemma PointerToRoot(msg: seq<byte>, tail: seq<byte>, p: nat, hops: nat)
    requires p > 0 && Segment(msg, p) == End([], 1) && Settles(msg + tail, p, hops)
    ensures var f := Followed(msg + tail, p, hops); f == [] || f[0] == DOT
    ensures var f, s := Followed(msg + tail, p, hops), Segment(msg, p + 1);
      s != Bad && s.size < DOMAIN_MAXSIZE ==>
        var behind := if s.labels == [] then [] else [DOT] + Text(s.labels);
        behind <= f && (s.End? ==> f == behind)
  {
    var t := msg + tail;
    SegmentFacts(msg, p);
    assert At(t, p) == 0;
    RootText(t, p);
    DotOrNothing(t, p, hops);
    var s := Segment(msg, p + 1);
    if s != Bad && s.size < DOMAIN_MAXSIZE {
      hide Segment, Decode, Text;
      BehindRoot(msg, t, p);
      SettlesNext(t, p, hops);
    }
  }

  lemma BehindRoot(msg: seq<byte>, t: seq<byte>, p: nat)
    requires msg <= t && At(t, p) == 0
    requires var s := Segment(msg, p + 1); s != Bad && s.size < DOMAIN_MAXSIZE
    ensures var s, d := Segment(msg, p + 1), Decode(t, p);
      && UpToZero(d.text) == (if s.labels == [] then [] else [DOT] + Text(s.labels))
      && (s.End? ==> d.target == 0)
  {
    ScanFirst(t, p);
    SegmentFacts(msg, p + 1);
    var ls := Segment(msg, p + 1).labels;
    hide Scan, Segment, Decode, Text;
    ScanSegment(msg, t, p, 1, 0, 0, []);
    TextShown(ls);
    assert [] + ([DOT] + Text(ls)) == [DOT] + Text(ls) && ([DOT] + Text(ls))[1..] == Text(ls);
  }

  lemma RootText(t: seq<byte>, p: nat)
    requires At(t, p) == 0
    ensures var shown := UpToZero(Decode(t, p).text); shown == [] || shown[0] == DOT
  {
    ScanFirst(t, p);
    ScanMark(t, p, 1, 0, 0, []);
    var b := At(t, p + 1);
    if 0 < b < 0xc0 {
      assert [] + [DOT] == [DOT];
      Further(t, p, 2, Signed(b), 1, [DOT]);
      var text := Decode(t, p).text;
      assert [DOT] <= text;
      assert text[0] == [DOT][0];
    }
  }

  lemma DotOrNothing(t: seq<byte>, p: nat, hops: nat)
    requires p > 0 && Settles(t, p, hops)
    requires var shown := UpToZero(Decode(t, p).text); shown == [] || shown[0] == DOT
    ensures var f := Followed(t, p, hops); f == [] || f[0] == DOT
  {
    SettlesNext(t, p, hops);
    hide Decode, UpToZero, Followed;
  }

  lemma SettlesNext(t: seq<byte>, p: nat, hops: nat)
    requires p > 0 && Settles(t, p, hops)
    ensures hops > 0 && Settles(t, Decode(t, p).target, hops - 1)
    ensures var d := Decode(t, p);
      Followed(t, p, hops) ==
      UpToZero(d.text) + if d.target == 0 then [] else [DOT] + Followed(t, d.target, hops - 1)
  {
  }

  // ----- one place without a label makes the print too long

  /** Text that is owed from `loc` on. */
  function Owed(msg: seq<byte>, loc: nat, hops: nat): nat
    requires Chained(msg, loc, hops)
  {
    |Text(Expanded(msg, loc, hops))|
  }

  lemma TextAtMost(a: seq<Label>, b: seq<Label>)
    ensures |Text(a + b)| <= |Text(a)| + 1 + |Text(b)|
    ensures a == [] ==> Text(a + b) == Text(b)
    ensures b == [] ==> Text(a + b) == Text(a)
  {
    if a == [] {
      assert a + b == b;
    } else if b == [] {
      assert a + b == a;
    } else {
      TextConcat(a, b);
    }
  }

  /** From a pointer's target on, at least what is owed is printed, and more if a pointer leads to no label or the
      target is a mere pointer itself. */
  lemma {:induction false} NeverShort(msg: seq<byte>, tail: seq<byte>, p: nat, hops: nat, k: nat)
    requires p > 0 && Chained(msg, p, hops) && Settles(msg + tail, p, k)
    ensures |Followed(msg + tail, p, k)| >= Owed(msg, p, hops)
    ensures !AllLabelled(msg, p, hops) || BarePointer(Segment(msg, p)) ==>
      |Followed(msg + tail, p, k)| > Owed(msg, p, hops)
    decreases hops
  {
    var s := Segment(msg, p);
    if s != End([], 1) && s.labels == [] && s.End? { SegmentCases(msg, p); }
    hide Segment, Decode, Text, UpToZero, Plain;
    if s.Jump? {
      SegmentShown(msg, tail, p);
      SettlesNext(msg + tail, p, k);
      NeverShort(msg, tail, s.target, hops - 1, k - 1);
      TooLong(msg, tail, p, hops, k - 1);
    } else if s.labels != [] {
      SegmentShown(msg, tail, p);
      SettlesNext(msg + tail, p, k);
    } else {
      NoText();
    }
  }

  lemma NoText()
    ensures Text([]) == []
  {
  }

  /** The labels of a name that ends in a pointer, and what is printed and owed behind it. */
  lemma TooLong(msg: seq<byte>, tail: seq<byte>, loc: nat, hops: nat, k: nat)
    requires Chained(msg, loc, hops) && Segment(msg, loc).Jump?
    requires var p := Segment(msg, loc).target;
      Settles(msg + tail, p, k) &&
      |Followed(msg + tail, p, k)| >= Owed(msg, p, hops - 1) &&
      (!AllLabelled(msg, p, hops - 1) || BarePointer(Segment(msg, p)) ==>
         |Followed(msg + tail, p, k)| > Owed(msg, p, hops - 1))
    ensures var s := Segment(msg, loc);
      var shown := |Text(s.labels)| + 1 + |Followed(msg + tail, s.target, k)|;
      shown >= Owed(msg, loc, hops) &&
      (!AllLabelled(msg, loc, hops) || s.labels == [] ==> shown > Owed(msg, loc, hops))
  {
    var s := Segment(msg, loc);
    var rest := Expanded(msg, s.target, hops - 1);
    TextAtMost(s.labels, rest);
    NoText();
    hide Text;
    if s.labels != [] && !AllLabelled(msg, loc, hops) && AllLabelled(msg, s.target, hops - 1) {
      assert !Labelled(msg, s.target);
      if Segment(msg, s.target).End? { assert rest == []; }
    }
  }

  // ----- when a name is printed right

  /** A name whose segments are well formed and whose chain of pointers ends is printed as all its labels exactly if a
      label stands wherever a pointer leads. */
  lemma PrintsRightIff(msg: seq<byte>, tail: seq<byte>, loc: nat, hops: nat, k: nat)
    requires Chained(msg, loc, hops)
    requires At(msg + tail, loc) == 0 || Settles(msg + tail, Decode(msg + tail, loc).target, k)
    ensures Shown(msg + tail, loc, k) == NameText(Expanded(msg, loc, hops)) <==> AllLabelled(msg, loc, hops)
  {
    if AllLabelled(msg, loc, hops) {
      hide *;
      PrintsExpanded(msg, tail, loc, hops);
      ShownSame(msg + tail, loc, hops, k);
    } else {
      PrintsWrong(msg, tail, loc, hops, k);
    }
  }

  lemma ShownSame(t: seq<byte>, loc: nat, a: nat, b: nat)
    requires At(t, loc) == 0 || (Settles(t, Decode(t, loc).target, a) && Settles(t, Decode(t, loc).target, b))
    ensures Shown(t, loc, a) == Shown(t, loc, b)
  {
    hide Decode, UpToZero, Followed;
    var p := Decode(t, loc).target;
    if At(t, loc) != 0 && p > 0 { FollowedSame(t, p, a, b); }
  }

  lemma PrintsWrong(msg: seq<byte>, tail: seq<byte>, loc: nat, hops: nat, k: nat)
    requires Chained(msg, loc, hops) && !AllLabelled(msg, loc, hops)
    requires At(msg + tail, loc) == 0 || Settles(msg + tail, Decode(msg + tail, loc).target, k)
    ensures Shown(msg + tail, loc, k) != NameText(Expanded(msg, loc, hops))
  {
    var t := msg + tail;
    var s := Segment(msg, loc);
    SegmentFacts(msg, loc);
    assert At(t, loc) == msg[loc];
    SegmentShown(msg, tail, loc);
    hide Segment, Decode, Text, UpToZero, Plain;
    NeverShort(msg, tail, s.target, hops - 1, k);
    if s.labels == [] {
      BareName(msg, tail, loc, hops, k);
    } else {
      TooLong(msg, tail, loc, hops, k);
    }
  }

  /** The name that is a mere pointer. */
  lemma BareName(msg: seq<byte>, tail: seq<byte>, loc: nat, hops: nat, k: nat)
    requires Chained(msg, loc, hops) && BarePointer(Segment(msg, loc)) && !AllLabelled(msg, loc, hops)
    requires var p := Segment(msg, loc).target; Settles(msg + tail, p, k)
    ensures Followed(msg + tail, Segment(msg, loc).target, k) != NameText(Expanded(msg, loc, hops))
  {
    var t := msg + tail;
    var p := Segment(msg, loc).target;
    var s := Segment(msg, p);
    var ls := Expanded(msg, p, hops - 1);
    assert [] + ls == ls;
    NoText();
    NeverShort(msg, tail, p, hops - 1, k);
    hide Decode, Text, UpToZero, Plain;
    if s.End? {
      SegmentCases(msg, p);
      if s.labels == [] { PointerToRoot(msg, tail, p, k); }
    } else if s.labels == [] {
      SegmentShown(msg, tail, p);
      DotOrNothing(t, p, k);
    } else if ls == [] {
      assert false;
    }
  }

  /** "a", a pointer to a pointer, and "b" behind that: printed with two dots. */
  lemma TwoDots()
    ensures var msg := [1, 97, 0xc0, 4, 0xc0, 6, 1, 98, 0];
      && Chained(msg, 0, 2) && NameText(Expanded(msg, 0, 2)) == [97, DOT, 98]
      && At(msg, 0) != 0 && Settles(msg, Decode(msg, 0).target, 2) && Shown(msg, 0, 2) == [97, DOT, DOT, 98]
  {
    var msg := [1, 97, 0xc0, 4, 0xc0, 6, 1, 98, 0];
    ExampleSegments(msg);
    hide *;
    ExamplePrint(msg);
  }

  lemma ExamplePrint(msg: seq<byte>)
    requires |msg| > 0 && msg[0] == 1
    requires Segment(msg, 6) == End([[98]], 3) && Segment(msg, 4) == Jump([], 2, 6) &&
      Segment(msg, 0) == Jump([[97]], 4, 4)
    ensures Chained(msg, 0, 2) && NameText(Expanded(msg, 0, 2)) == [97, DOT, 98]
    ensures At(msg, 0) != 0 && Settles(msg, Decode(msg, 0).target, 2) && Shown(msg, 0, 2) == [97, DOT, DOT, 98]
  {
    assert msg + [] == msg;
    SegmentShown(msg, [], 0);
    SegmentShown(msg, [], 4);
    SegmentShown(msg, [], 6);
    ExampleTexts([97], [98]);
    hide Segment, Decode, UpToZero, Text;
    ExampleOwed(msg, [97], [98]);
    ExampleShown(msg);
  }

  lemma ExampleTexts(a: Label, b: Label)
    ensures Text([]) == [] && Text([a]) == a && Text([b]) == b && Text([a, b]) == a + [DOT] + b
  {
    assert [a, b][1..] == [b];
  }

  lemma ExampleOwed(msg: seq<byte>, a: Label, b: Label)
    requires Segment(msg, 6) == End([b], 3) && Segment(msg, 4) == Jump([], 2, 6) && Segment(msg, 0) == Jump([a], 4, 4)
    ensures Chained(msg, 0, 2) && Expanded(msg, 0, 2) == [a, b]
  {
    hide Segment;
    assert Expanded(msg, 6, 0) == [b];
    assert Expanded(msg, 4, 1) == [] + [b] == [b];
    assert Expanded(msg, 0, 2) == [a] + [b] == [a, b];
  }

  lemma ExampleShown(t: seq<byte>)
    requires At(t, 0) != 0
    requires var d := Decode(t, 0); UpToZero(d.text) == [97] && d.target == 4 && d.used > 2
    requires var d := Decode(t, 4); UpToZero(d.text) == [] && d.target == 6
    requires var d := Decode(t, 6); UpToZero(d.text) == [98] && d.target == 0
    ensures Settles(t, Decode(t, 0).target, 2) && Shown(t, 0, 2) == [97, DOT, DOT, 98]
  {
    hide Decode, UpToZero;
    assert Settles(t, 0, 0) && Settles(t, 6, 1) && Settles(t, 4, 2);
    assert Followed(t, 6, 1) == [98] + [] == [98];
    assert Followed(t, 4, 2) == [] + ([DOT] + [98]) == [DOT, 98];
    assert [97] + [DOT] + [DOT, 98] == [97, DOT, DOT, 98];
  }

  lemma ExampleSegments(msg: seq<byte>)
    requires msg == [1, 97, 0xc0, 4, 0xc0, 6, 1, 98, 0]
    ensures Segment(msg, 6) == End([[98]], 3) && Segment(msg, 4) == Jump([], 2, 6) &&
      Segment(msg, 0) == Jump([[97]], 4, 4)
  {
    assert GoodLabel([97]) && GoodLabel([98]) && Pointer(0xc0, 4) == 4 && Pointer(0xc0, 6) == 6;
    hide Segment, GoodLabel, Pointer;
    LastStep(msg, 2);
    LastStep(msg, 4);
    LastStep(msg, 8);
    LabelAhead(msg, 6, [98]);
    LabelAhead(msg, 0, [97]);
  }

  lemma LastStep(msg: seq<byte>, pos: nat)
    requires pos + 1 < |msg| || (pos < |msg| && msg[pos] == 0)
    ensures msg[pos] == 0 ==> Segment(msg, pos) == End([], 1)
    ensures msg[pos] >= 0xc0 ==> Segment(msg, pos) == Jump([], 2, Pointer(msg[pos], msg[pos + 1]))
  {
  }
}
