/** Compression pointers as section 4.1.4 of RFC 1035 writes them: any offset of 14 bits is read back. */
module DnsPointers {
  import opened Bits
  import opened DnsName
  import opened DnsDecode
  import opened DnsPrint
  import opened DnsExpand

  /** Two one bits, and the offset in the other fourteen, high byte first. */
  function Ref(offset: nat): seq<byte>
    requires offset < 0x4000
  {
    [0xc0 + offset / 256, offset % 256]
  }

  lemma PointerTo(offset: nat)
    requires offset < 0x4000
    ensures Pointer(Ref(offset)[0], Ref(offset)[1]) == offset
  {
    assert (0xc0 + offset / 256) % 64 == offset / 256;
  }

  /** Labels, then a pointer. */
  lemma {:induction false} SegmentOfRef(ls: seq<Label>, offset: nat, msg: seq<byte>, pos: nat)
    requires GoodName(ls) && offset < 0x4000 && Stands(msg, pos, Wire(ls) + Ref(offset))
    ensures Segment(msg, pos) == Jump(ls, |Wire(ls)| + 2, offset)
  {
    if ls == [] {
      var r := Ref(offset);
      PointerTo(offset);
      assert Wire(ls) + r == r;
      assert msg[pos + 0] == r[0] && msg[pos + 1] == r[1];
    } else {
      var l, head, w := ls[0], [|ls[0]|] + ls[0], Wire(ls[1..]);
      assert ls == [l] + ls[1..];
      assert GoodLabel(l) && GoodName(ls[1..]) && Wire(ls) == head + w;
      hide Wire, GoodName, Ref;
      assert head + w + Ref(offset) == head + (w + Ref(offset));
      StandsParts(msg, pos, head, w + Ref(offset));
      SegmentOfRef(ls[1..], offset, msg, pos + |head|);
      LabelAhead(msg, pos, l);
    }
  }

  /** The decoder reads labels and pointer, whatever comes behind. */
  method ReadRef(ls: seq<Label>, offset: nat, tail: seq<byte>, fName: array<byte>) returns (result: nat, truncated: nat)
    requires GoodName(ls) && |Wire(ls)| + 2 <= DOMAIN_MAXSIZE && offset < 0x4000
    requires fName.Length >= DOMAIN_MAXSIZE && forall i | 0 <= i < fName.Length :: fName[i] == 0
    modifies fName
    ensures truncated == offset && result == |Wire(ls)| + 2
    ensures |Text(ls)| <= fName.Length && fName[..|Text(ls)|] == Text(ls) &&
      forall i | |Text(ls)| <= i < fName.Length :: fName[i] == 0
  {
    hide Wire, GoodName, Text, Decode, Ref, Segment;
    var msg := Wire(ls) + Ref(offset);
    StandsFirst(msg, []);
    assert msg + [] == msg;
    SegmentOfRef(ls, offset, msg, 0);
    DecodeSegment(msg, tail, 0);
    result, truncated := DNSQueryToChar(msg + tail, 0, fName);
  }

  /** A name of labels and a pointer to further labels is printed as all of them. */
  method PrintRef(msg: seq<byte>, tail: seq<byte>, loc: nat, ls: seq<Label>, offset: nat, ms: seq<Label>)
    returns (result: nat, printed: seq<byte>)
    requires GoodName(ls) && |Wire(ls)| + 2 <= DOMAIN_MAXSIZE && 0 < offset < 0x4000
    requires GoodName(ms) && ms != [] && |Wire(ms)| + 1 <= DOMAIN_MAXSIZE
    requires Stands(msg, loc, Wire(ls) + Ref(offset)) && Stands(msg, offset, Wire(ms) + [0])
    ensures printed == Text(ls + ms) && result == |Wire(ls)| + 2
  {
    hide Wire, GoodName, Text, Decode, Ref, Stands, Settles, Shown, Moved;
    SegmentOfRef(ls, offset, msg, loc);
    SegmentOfWire(ms, msg, offset);
    PrintsExpanded(msg, tail, loc, 1);
    ReturnsSize(msg, tail, loc);
    result, printed := PrintDomainName(msg + tail, loc, 1);
  }
}
