/** Reading names off a message: DNSQueryToChar, which stops at the end of a name or at a compression pointer. */
module DnsDecode {
  import opened Bits
  import opened DnsName

  /** What the decoder leaves: the value it returns, `Truncated`, and the characters it wrote. */
  datatype Decoded = Decoded(used: nat, target: nat, text: seq<byte>)

  /** Buffer[i]; what lies behind the buffer is taken to be zero. */
  function At(t: seq<byte>, i: nat): byte {
    if i < |t| then t[i] else 0
  }

  /** A `char` read as an int. */
  function Signed(b: byte): int {
    if b >= 128 then b - 256 else b
  }

  /** It is the number from -128 to 127 with the same eight bits. */
  lemma SignedIs(b: byte)
    ensures -128 <= Signed(b) < 128 && (Signed(b) - b) % 256 == 0
  {
  }

  function Pointer(hi: byte, lo: byte): nat {
    hi % 64 * 256 + lo
  }

  /** The decoder's loop from offset `u` of the name at `base`: `i0` is the last length byte and `i1` its place. */
  function Scan(t: seq<byte>, base: nat, u: nat, i0: int, i1: nat, out: seq<byte>): Decoded
    requires u <= DOMAIN_MAXSIZE
    decreases DOMAIN_MAXSIZE - u
  {
    if u == DOMAIN_MAXSIZE then Decoded(u, 0, out)
    else
      var b := At(t, base + u);
      if b >= 0xc0 then Decoded(u + 2, Pointer(b, At(t, base + u + 1)), out)
      else if u == 0 then Scan(t, base, 1, Signed(b), i1, out)
      else if u == i0 + i1 + 1 then
        if b == 0 then Decoded(u, 0, out) else Scan(t, base, u + 1, Signed(b), u, out + [DOT])
      else Scan(t, base, u + 1, i0, i1, out + [b])
  }

  function Decode(t: seq<byte>, base: nat): Decoded {
    Scan(t, base, 0, 0, 0, [])
  }

  /** DNSQueryToChar.  `fName` comes zero-filled, as both callers pass it. */
  method DNSQueryToChar(t: seq<byte>, base: nat, fName: array<byte>) returns (result: nat, truncated: nat)
    requires DOMAIN_MAXSIZE <= fName.Length && forall i | 0 <= i < fName.Length :: fName[i] == 0
    modifies fName
    ensures var d := Decode(t, base);
      result == d.used && truncated == d.target &&
      |d.text| < DOMAIN_MAXSIZE && fName[..|d.text|] == d.text &&
      forall i | |d.text| <= i < fName.Length :: fName[i] == 0
  {
    var uIndex := 0;
    var index0: int, index1 := 0, 0;
    ghost var n := 0;
    while uIndex < DOMAIN_MAXSIZE
      invariant uIndex <= DOMAIN_MAXSIZE && n == if uIndex == 0 then 0 else uIndex - 1
      invariant Decode(t, base) == Scan(t, base, uIndex, index0, index1, fName[..n])
      invariant forall i | n <= i < fName.Length :: fName[i] == 0
    {
      ghost var was := fName[..n];
      var b := At(t, base + uIndex);
      if b >= 0xc0 {
        truncated := Pointer(b, At(t, base + uIndex + 1));
        return uIndex + 2, truncated;
      } else if uIndex == 0 {
        index0 := Signed(b);
      } else if uIndex == index0 + index1 + 1 {
        index0 := Signed(b);
        if index0 == 0 {
          break;
        }
        index1 := uIndex;
        fName[uIndex - 1] := DOT;
        n := n + 1;
        assert fName[..n] == was + [DOT];
      } else {
        fName[uIndex - 1] := b;
        n := n + 1;
        assert fName[..n] == was + [b];
      }
      uIndex := uIndex + 1;
    }
    return uIndex, 0;
  }

  // ----- names as section 4.1.4 of RFC 1035 writes them

  /** A run of labels that ends in the root or in a pointer, and its size on the wire. */
  datatype Part = End(labels: seq<Label>, size: nat) | Jump(labels: seq<Label>, size: nat, target: nat) | Bad

  predicate Plain(l: Label) {
    forall i | 0 <= i < |l| :: 0 < l[i] < 0xc0
  }

  function Segment(msg: seq<byte>, pos: nat): (p: Part)
    decreases |msg| - pos
  {
    if pos >= |msg| then Bad
    else if msg[pos] >= 0xc0 then
      if pos + 1 < |msg| then Jump([], 2, Pointer(msg[pos], msg[pos + 1])) else Bad
    else if msg[pos] == 0 then End([], 1)
    else
      var next := pos + 1 + msg[pos];
      if msg[pos] > 63 || next > |msg| || !Plain(msg[pos + 1..next]) then Bad
      else Behind(msg[pos + 1..next], Segment(msg, next))
  }

  function Behind(l: Label, p: Part): Part {
    match p
    case End(ls, n) => End([l] + ls, 1 + |l| + n)
    case Jump(ls, n, to) => Jump([l] + ls, 1 + |l| + n, to)
    case Bad => Bad
  }

  lemma SegmentCases(msg: seq<byte>, pos: nat)
    requires Segment(msg, pos) != Bad
    ensures pos < |msg|
    ensures var b, p := msg[pos], Segment(msg, pos);
      if b >= 0xc0 then pos + 1 < |msg| && p == Jump([], 2, Pointer(b, msg[pos + 1]))
      else if b == 0 then p == End([], 1)
      else
        var next := pos + 1 + b;
        b <= 63 && next <= |msg| && Plain(msg[pos + 1..next]) && Segment(msg, next) != Bad &&
        p == Behind(msg[pos + 1..next], Segment(msg, next))
  {
  }

  /** The decoder reads a segment of a message right, whatever lies behind the message: it returns the place of
      the closing zero, or the place behind the pointer. */
  lemma DecodeSegment(msg: seq<byte>, tail: seq<byte>, base: nat)
    requires var p := Segment(msg, base); p != Bad && p.size <= DOMAIN_MAXSIZE && (p.End? ==> p.labels != [])
    ensures var p := Segment(msg, base);
      Decode(msg + tail, base) ==
      if p.End? then Decoded(p.size - 1, 0, Text(p.labels)) else Decoded(p.size, p.target, Text(p.labels))
  {
    DecodeWithin(msg, msg + tail, base);
  }

  lemma DecodeWithin(msg: seq<byte>, t: seq<byte>, base: nat)
    requires msg <= t
    requires var p := Segment(msg, base); p != Bad && p.size <= DOMAIN_MAXSIZE && (p.End? ==> p.labels != [])
    ensures var p := Segment(msg, base);
      Decode(t, base) ==
      if p.End? then Decoded(p.size - 1, 0, Text(p.labels)) else Decoded(p.size, p.target, Text(p.labels))
  {
    hide Scan;
    var b := msg[base];
    ScanFirst(t, base);
    SegmentCases(msg, base);
    hide Segment, Text, Plain, Decode;
    if b < 0xc0 {
      var l, rest := msg[base + 1..base + 1 + b], Segment(msg, base + 1 + b);
      ScanLabel(t, base, 1, b, b, 0, [], l);
      assert [] + l == l;
      ScanSegment(msg, t, base, 1 + b, b, 0, l);
      FirstText(l, rest.labels);
    }
  }

  lemma FirstText(l: Label, ls: seq<Label>)
    ensures More(l, ls) == Text([l] + ls)
  {
    assert ([l] + ls)[1..] == ls;
    assert ls == [] ==> l + [] == l && Text([l]) == l;
    assert l + [DOT] + Text(ls) == l + ([DOT] + Text(ls));
  }

  /** The loop's first turn. */
  lemma ScanFirst(t: seq<byte>, base: nat)
    ensures var b := At(t, base);
      Decode(t, base) ==
      if b >= 0xc0 then Decoded(2, Pointer(b, At(t, base + 1)), []) else Scan(t, base, 1, Signed(b), 0, [])
  {
  }

  /** The bytes of a label are copied. */
  lemma {:induction false} ScanLabel(t: seq<byte>, base: nat, u: nat, k: nat, i0: int, i1: nat, out: seq<byte>,
    l: Label)
    requires 1 <= u && u + k == i0 + i1 + 1 <= DOMAIN_MAXSIZE && |l| == k && Plain(l)
    requires base + u + k <= |t| && t[base + u..base + u + k] == l
    ensures Scan(t, base, u, i0, i1, out) == Scan(t, base, u + k, i0, i1, out + l)
    decreases k
  {
    if k == 0 {
      assert out + l == out;
    } else {
      assert At(t, base + u) == t[base + u..base + u + k][0] == l[0];
      assert t[base + u + 1..base + u + k] == l[1..];
      ScanLabel(t, base, u + 1, k - 1, i0, i1, out + [l[0]], l[1..]);
      assert out + [l[0]] + l[1..] == out + l;
    }
  }

  /** From one label's end to the end of the segment. */
  lemma {:induction false} ScanSegment(msg: seq<byte>, t: seq<byte>, base: nat, u: nat, i0: int, i1: nat,
    out: seq<byte>)
    requires 1 <= u == i0 + i1 + 1 && msg <= t
    requires var p := Segment(msg, base + u); p != Bad && u + p.size <= DOMAIN_MAXSIZE
    ensures var p := Segment(msg, base + u);
      var text := More(out, p.labels);
      Scan(t, base, u, i0, i1, out) ==
      if p.End? then Decoded(u + p.size - 1, 0, text) else Decoded(u + p.size, p.target, text)
    decreases |msg| - base - u
  {
    hide Scan, Text, Plain, Pointer;
    var pos := base + u;
    var b := msg[pos];
    ScanMark(t, base, u, i0, i1, out);
    SegmentCases(msg, pos);
    hide Scan, Segment, Text, Plain;
    if 0 < b < 0xc0 {
      var l, rest := msg[pos + 1..pos + 1 + b], Segment(msg, pos + 1 + b);
      ScanOver(t, base, u, i0, i1, out, l);
      ScanSegment(msg, t, base, u + 1 + b, b, u, out + [DOT] + l);
      hide More;
      MoreStep(out, l, rest.labels);
    } else {
      assert More(out, []) == out;
    }
  }

  /** A text and the labels behind it. */
  function More(out: seq<byte>, ls: seq<Label>): seq<byte> {
    if ls == [] then out else out + ([DOT] + Text(ls))
  }

  /** From one label's end to the next. */
  lemma ScanOver(t: seq<byte>, base: nat, u: nat, i0: int, i1: nat, out: seq<byte>, l: Label)
    requires 1 <= u == i0 + i1 + 1 && 1 <= |l| <= 63 && u + 1 + |l| < DOMAIN_MAXSIZE && Plain(l)
    requires base + u + 1 + |l| <= |t| && t[base + u] == |l| && t[base + u + 1..base + u + 1 + |l|] == l
    ensures Scan(t, base, u, i0, i1, out) == Scan(t, base, u + 1 + |l|, |l|, u, out + [DOT] + l)
  {
    ScanMark(t, base, u, i0, i1, out);
    hide Scan, Plain;
    ScanLabel(t, base, u + 1, |l|, |l|, u, out + [DOT], l);
  }

  lemma MoreStep(out: seq<byte>, l: Label, ls: seq<Label>)
    ensures More(out + [DOT] + l, ls) == More(out, [l] + ls)
  {
    FirstText(l, ls);
    assert ls != [] ==> out + [DOT] + l + ([DOT] + Text(ls)) == out + ([DOT] + (l + ([DOT] + Text(ls))));
    assert out + [DOT] + l == out + ([DOT] + l);
  }

  /** One turn of the loop at the end of a label. */
  lemma ScanMark(t: seq<byte>, base: nat, u: nat, i0: int, i1: nat, out: seq<byte>)
    requires 1 <= u == i0 + i1 + 1 < DOMAIN_MAXSIZE
    ensures var b := At(t, base + u);
      Scan(t, base, u, i0, i1, out) ==
      if b >= 0xc0 then Decoded(u + 2, Pointer(b, At(t, base + u + 1)), out)
      else if b == 0 then Decoded(u, 0, out)
      else Scan(t, base, u + 1, Signed(b), u, out + [DOT])
  {
  }

  // ----- the decoder undoes the encoder

  /** `w` stands in `msg` at `pos`. */
  predicate Stands(msg: seq<byte>, pos: nat, w: seq<byte>) {
    pos + |w| <= |msg| && forall i | 0 <= i < |w| :: msg[pos + i] == w[i]
  }

  /** The wire form of labels, read as a segment. */
  lemma {:induction false} SegmentOfWire(ls: seq<Label>, msg: seq<byte>, pos: nat)
    requires GoodName(ls) && Stands(msg, pos, Wire(ls) + [0])
    ensures Segment(msg, pos) == End(ls, |Wire(ls)| + 1)
  {
    if ls == [] {
      assert (Wire(ls) + [0])[0] == 0 == msg[pos];
    } else {
      var l, head, w := ls[0], [|ls[0]|] + ls[0], Wire(ls[1..]);
      assert ls == [l] + ls[1..];
      assert GoodLabel(l) && GoodName(ls[1..]) && Wire(ls) == head + w;
      hide Wire, GoodName;
      assert head + w + [0] == head + (w + [0]);
      StandsParts(msg, pos, head, w + [0]);
      SegmentOfWire(ls[1..], msg, pos + |head|);
      LabelAhead(msg, pos, l);
    }
  }

  lemma StandsFirst(w: seq<byte>, post: seq<byte>)
    ensures Stands(w + post, 0, w)
  {
  }

  lemma StandsParts(msg: seq<byte>, pos: nat, a: seq<byte>, b: seq<byte>)
    requires Stands(msg, pos, a + b)
    ensures Stands(msg, pos, a) && Stands(msg, pos + |a|, b)
  {
    var w := a + b;
    forall i | 0 <= i < |a| ensures msg[pos + i] == a[i] { assert w[i] == a[i]; }
    forall i | 0 <= i < |b| ensures msg[pos + |a| + i] == b[i] {
      assert w[|a| + i] == b[i] && msg[pos + (|a| + i)] == w[|a| + i];
    }
  }

  lemma LabelAhead(msg: seq<byte>, pos: nat, l: Label)
    requires GoodLabel(l) && Stands(msg, pos, [|l|] + l)
    ensures Segment(msg, pos) == Behind(l, Segment(msg, pos + 1 + |l|))
  {
    var w := [|l|] + l;
    assert w[0] == |l| == msg[pos];
    forall i | 0 <= i < |l| ensures msg[pos + 1 + i] == l[i] { assert w[1 + i] == msg[pos + (1 + i)]; }
    assert msg[pos + 1..pos + 1 + |l|] == l;
  }

  /** Encoded and decoded, a name of good labels comes back whole, followed by zeros. */
  method RoundTrip(name: seq<byte>, tName: array<byte>, fName: array<byte>) returns (sent: nat, result: nat,
    truncated: nat)
    requires GoodName(Split(name)) && |name| <= 253
    requires tName.Length >= DOMAIN_MAXSIZE && fName.Length >= DOMAIN_MAXSIZE && tName != fName
    requires forall i | 0 <= i < fName.Length :: fName[i] == 0
    modifies tName, fName
    ensures sent == |name| + 2 && result == |name| + 1 && truncated == 0
    ensures fName[..|name|] == name && forall i | |name| <= i < fName.Length :: fName[i] == 0
  {
    hide Split, Wire, Decode, GoodName;
    sent := CharToDNSQuery(name, tName);
    DecodeEncoded(name, tName[..]);
    result, truncated := DNSQueryToChar(tName[..], 0, fName);
  }

  lemma DecodeEncoded(name: seq<byte>, t: seq<byte>)
    requires GoodName(Split(name)) && |name| <= 253
    requires |t| >= |name| + 2 && t[..|name| + 2] == Wire(Split(name)) + [0]
    ensures Decode(t, 0) == Decoded(|name| + 1, 0, name)
  {
    hide Wire, Split, Text, GoodName, GoodLabel, Decode;
    TextSplit(name);
    WireLength(Split(name));
    DecodeWire(Split(name), t[|name| + 2..]);
    FrontAndBack(t, Wire(Split(name)) + [0]);
  }

  lemma FrontAndBack(t: seq<byte>, front: seq<byte>)
    requires |front| <= |t| && t[..|front|] == front
    ensures t == front + t[|front|..]
  {
  }

  /** The decoder undoes the encoder, on the functions. */
  lemma DecodeWire(ls: seq<Label>, post: seq<byte>)
    requires ls != [] && GoodName(ls) && |Wire(ls)| < DOMAIN_MAXSIZE
    ensures Decode(Wire(ls) + [0] + post, 0) == Decoded(|Wire(ls)|, 0, Text(ls))
  {
    var wire := Wire(ls);
    hide Wire, GoodName, Decode, Text, Segment, Stands;
    var w := wire + [0];
    StandsFirst(w, post);
    SegmentOfWire(ls, w + post, 0);
    assert w + post + [] == w + post;
    DecodeSegment(w + post, [], 0);
  }
}
