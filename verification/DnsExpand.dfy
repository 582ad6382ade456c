/** What PrintDomainName prints: the name that the labels and pointers of section 4.1.4 of RFC 1035 spell. */
module DnsExpand {
  import opened Bits
  import opened DnsName
  import opened DnsDecode
  import opened DnsPrint

  /** The name at `loc` ends after at most `hops` pointers, none of them to the start of the message. */
  predicate Chained(msg: seq<byte>, loc: nat, hops: nat)
    decreases hops
  {
    var p := Segment(msg, loc);
    p != Bad && p.size <= DOMAIN_MAXSIZE &&
    (p.Jump? ==> hops > 0 && p.target > 0 && Chained(msg, p.target, hops - 1))
  }

  predicate Labelled(msg: seq<byte>, loc: nat) {
    var p := Segment(msg, loc);
    p != Bad && p.labels != []
  }

  /** A label stands wherever a pointer of the name leads. */
  predicate AllLabelled(msg: seq<byte>, loc: nat, hops: nat)
    requires Chained(msg, loc, hops)
    decreases hops
  {
    var p := Segment(msg, loc);
    p.Jump? ==> Labelled(msg, p.target) && AllLabelled(msg, p.target, hops - 1)
  }

  /** The same, by pointers that lead strictly backwards. */
  predicate Backward(msg: seq<byte>, loc: nat)
    decreases loc
  {
    var p := Segment(msg, loc);
    p != Bad && p.size <= DOMAIN_MAXSIZE &&
    (p.Jump? ==> 0 < p.target < loc && Labelled(msg, p.target) && Backward(msg, p.target))
  }

  /** All its labels. */
  function Expanded(msg: seq<byte>, loc: nat, hops: nat): seq<Label>
    requires Chained(msg, loc, hops)
    decreases hops
  {
    var p := Segment(msg, loc);
    if p.End? then p.labels else p.labels + Expanded(msg, p.target, hops - 1)
  }

  function NameText(ls: seq<Label>): seq<byte> {
    if ls == [] then ROOT else Text(ls)
  }

  /** Pointers that lead strictly backwards come to an end. */
  lemma {:induction false} BackwardEnds(msg: seq<byte>, loc: nat)
    requires Backward(msg, loc)
    ensures Chained(msg, loc, loc) && AllLabelled(msg, loc, loc)
  {
    var p := Segment(msg, loc);
    if p.Jump? {
      BackwardEnds(msg, p.target);
      MoreHops(msg, p.target, p.target, loc - 1);
    }
  }

  lemma {:induction false} MoreHops(msg: seq<byte>, loc: nat, hops: nat, more: nat)
    requires Chained(msg, loc, hops) && hops <= more
    ensures Chained(msg, loc, more) && Expanded(msg, loc, more) == Expanded(msg, loc, hops)
    ensures AllLabelled(msg, loc, more) == AllLabelled(msg, loc, hops)
    decreases hops
  {
    var p := Segment(msg, loc);
    if p.Jump? { MoreHops(msg, p.target, hops - 1, more - 1); }
  }

  // ----- facts of one segment

  lemma {:induction false} SegmentFacts(msg: seq<byte>, pos: nat)
    requires Segment(msg, pos) != Bad
    ensures pos < |msg|
    ensures var p := Segment(msg, pos);
      (msg[pos] == 0 <==> p.End? && p.labels == []) && (p.Jump? ==> p.size >= 2 && (p.size == 2 <==> p.labels == [])) &&
      forall i | 0 <= i < |p.labels| :: Plain(p.labels[i])
    decreases |msg| - pos
  {
    SegmentCases(msg, pos);
    if 0 < msg[pos] < 0xc0 { SegmentFacts(msg, pos + 1 + msg[pos]); }
  }

  lemma {:induction false} TextShown(ls: seq<Label>)
    requires forall i | 0 <= i < |ls| :: Plain(ls[i])
    ensures UpToZero(Text(ls)) == Text(ls)
  {
    TextNoZero(ls);
    FirstPart(Text(ls), |Text(ls)|);
  }

  lemma {:induction false} TextNoZero(ls: seq<Label>)
    requires forall i | 0 <= i < |ls| :: Plain(ls[i])
    ensures forall i | 0 <= i < |Text(ls)| :: Text(ls)[i] != 0
  {
    if |ls| > 1 {
      TextNoZero(ls[1..]);
    }
  }

  lemma {:induction false} TextConcat(a: seq<Label>, b: seq<Label>)
    requires a != [] && b != []
    ensures Text(a + b) == Text(a) + [DOT] + Text(b)
  {
    if |a| == 1 {
      assert (a + b)[1..] == b;
    } else {
      TextConcat(a[1..], b);
      assert (a + b)[1..] == a[1..] + b;
      assert a[0] + [DOT] + (Text(a[1..]) + [DOT] + Text(b)) == a[0] + [DOT] + Text(a[1..]) + [DOT] + Text(b);
    }
  }

  // ----- the printed name

  /** The text that one segment adds. */
  lemma SegmentShown(msg: seq<byte>, tail: seq<byte>, loc: nat)
    requires var p := Segment(msg, loc); p != Bad && p.size <= DOMAIN_MAXSIZE && (p.End? ==> p.labels != [])
    ensures var p, d := Segment(msg, loc), Decode(msg + tail, loc);
      UpToZero(d.text) == Text(p.labels) && (if p.End? then d.target == 0 else d.target == p.target && d.used == p.size)
  {
    SegmentFacts(msg, loc);
    DecodeSegment(msg, tail, loc);
    TextShown(Segment(msg, loc).labels);
  }

  /** The pointer loop prints the rest of the name. */
  lemma {:induction false} FollowsExpanded(msg: seq<byte>, tail: seq<byte>, target: nat, hops: nat)
    requires target > 0 && Labelled(msg, target) && Chained(msg, target, hops) && AllLabelled(msg, target, hops)
    ensures var t, ls := msg + tail, Expanded(msg, target, hops);
      ls != [] && Settles(t, target, hops + 1) && Followed(t, target, hops + 1) == Text(ls)
    decreases hops
  {
    hide Decode;
    var t := msg + tail;
    var p := Segment(msg, target);
    SegmentShown(msg, tail, target);
    hide Segment, Decode, Text, UpToZero;
    if p.Jump? {
      var rest := Expanded(msg, p.target, hops - 1);
      FollowsExpanded(msg, tail, p.target, hops - 1);
      TextConcat(p.labels, rest);
      assert Text(p.labels) + [DOT] + Text(rest) == Text(p.labels) + ([DOT] + Text(rest));
    } else {
      assert Text(p.labels) + [] == Text(p.labels);
    }
  }

  /** A name whose chain of pointers ends, each at a label, is printed whole, whatever lies behind the message. */
  lemma PrintsExpanded(msg: seq<byte>, tail: seq<byte>, loc: nat, hops: nat)
    requires Chained(msg, loc, hops) && AllLabelled(msg, loc, hops)
    ensures var t := msg + tail;
      (At(t, loc) == 0 || Settles(t, Decode(t, loc).target, hops)) &&
      Shown(t, loc, hops) == NameText(Expanded(msg, loc, hops))
  {
    var t := msg + tail;
    var p := Segment(msg, loc);
    SegmentFacts(msg, loc);
    assert At(t, loc) == msg[loc];
    if msg[loc] != 0 {
      SegmentShown(msg, tail, loc);
      hide Segment, Decode, Text, UpToZero, Plain;
      if p.Jump? {
        var rest := Expanded(msg, p.target, hops - 1);
        FollowsExpanded(msg, tail, p.target, hops - 1);
        if p.labels == [] {
          assert [] + rest == rest;
          assert [] + Text(rest) == Text(rest);
        } else {
          TextConcat(p.labels, rest);
        }
      }
    }
  }

  /** The returned length is the size of the name on the wire, unless it ends in a pointer to the message's start:
      `Truncated` is then zero, which also says that there is no pointer. */
  lemma ReturnsSize(msg: seq<byte>, tail: seq<byte>, loc: nat)
    requires Segment(msg, loc) != Bad && Segment(msg, loc).size <= DOMAIN_MAXSIZE
    ensures var p := Segment(msg, loc);
      Moved(msg + tail, loc) == p.size <==> !(p.Jump? && p.target == 0)
  {
    SegmentFacts(msg, loc);
    assert At(msg + tail, loc) == msg[loc];
    if Segment(msg, loc) != End([], 1) {
      SegmentCases(msg, loc);
      DecodeSegment(msg, tail, loc);
    }
  }

  /** Such a name: a pointer to offset 0 takes two bytes, and three are passed over. */
  lemma PointerToStart()
    ensures Segment([0xc0, 0x00], 0) == Jump([], 2, 0) && Moved([0xc0, 0x00], 0) == 3
  {
    var msg: seq<byte> := [0xc0, 0x00];
    assert msg + [] == msg;
    DecodeSegment(msg, [], 0);
  }

  // ----- pointers that do not end

  const TARGETS: nat := 0x4000

  /** Places whose names all lead to one another. */
  predicate Ring(t: seq<byte>, s: set<nat>) {
    0 !in s && forall q | q in s :: Decode(t, q).target in s
  }

  lemma {:induction false} RingNeverEnds(t: seq<byte>, s: set<nat>, p: nat, hops: nat)
    requires Ring(t, s) && p in s
    ensures !Settles(t, p, hops)
    decreases hops
  {
    hide Decode;
    if hops > 0 { RingNeverEnds(t, s, Decode(t, p).target, hops - 1); }
  }

  ghost predicate Ends(t: seq<byte>, p: nat) {
    exists hops: nat :: Settles(t, p, hops)
  }

  /** The pointer loop ends exactly when it has not entered a ring. */
  lemma EndsIffNoRing(t: seq<byte>, p: nat)
    requires p < TARGETS
    ensures Ends(t, p) <==> !exists s :: p in s && Ring(t, s)
  {
    hide Decode;
    forall s, hops: nat | p in s && Ring(t, s) ensures !Settles(t, p, hops) { RingNeverEnds(t, s, p, hops); }
    if !Ends(t, p) {
      var s := set q: nat | 0 < q < TARGETS && !Ends(t, q);
      forall q | q in s ensures Decode(t, q).target in s {
        var next := Decode(t, q).target;
        TargetBound(t, q);
        assert Settles(t, 0, 0) && !Settles(t, q, 1);
        forall hops: nat ensures !Settles(t, next, hops) { assert !Settles(t, q, hops + 1); }
      }
      assert !Settles(t, p, 0);
      assert p in s && Ring(t, s);
    }
  }

  /** A pointer to itself is the smallest ring: the loop goes on for ever. */
  lemma PointerToItself()
    ensures var msg := seq(12, _ => 0) + [0xc0, 0x0c]; Ring(msg, {12}) && !Ends(msg, 12)
  {
    var msg := seq(12, _ => 0) + [0xc0, 0x0c];
    assert Pointer(0xc0, 0x0c) == 12;
    ScanFirst(msg, 12);
    EndsIffNoRing(msg, 12);
  }

  lemma TargetBound(t: seq<byte>, loc: nat)
    ensures Decode(t, loc).target < TARGETS
  {
    ScanBound(t, loc, 0, 0, 0, []);
  }

  lemma {:induction false} ScanBound(t: seq<byte>, base: nat, u: nat, i0: int, i1: nat, out: seq<byte>)
    requires u <= DOMAIN_MAXSIZE
    ensures Scan(t, base, u, i0, i1, out).target < TARGETS
    decreases DOMAIN_MAXSIZE - u
  {
    if u < DOMAIN_MAXSIZE {
      var b := At(t, base + u);
      if b < 0xc0 {
        if u == 0 {
          ScanBound(t, base, 1, Signed(b), i1, out);
        } else if u == i0 + i1 + 1 {
          if b != 0 { ScanBound(t, base, u + 1, Signed(b), u, out + [DOT]); }
        } else {
          ScanBound(t, base, u + 1, i0, i1, out + [b]);
        }
      }
    }
  }
}
