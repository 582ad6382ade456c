/** Printing a response: PrintDomainName, which follows compression pointers, and the cursor of PrintResponse. */
module DnsPrint {
  import opened Bits
  import opened DnsName
  import opened DnsDecode

  const PACKET_MAXSIZE: nat := 1500
  const HEADER: nat := 12
  const DNS_RECORD_OPT: nat := 41

  /** The printed mark of an empty name. */
  const ROOT: seq<byte> := [60, 82, 111, 111, 116, 62]

  lemma RootIs()
    ensures ROOT == Chars("<Root>")
  {
  }

  /** What printing a zero-terminated buffer shows. */
  function UpToZero(s: seq<byte>): seq<byte> {
    if s == [] || s[0] == 0 then [] else [s[0]] + UpToZero(s[1..])
  }

  /** Following pointers from `target` stops within `hops` hops. */
  predicate Settles(t: seq<byte>, target: nat, hops: nat)
    decreases hops
  {
    target == 0 || (hops > 0 && Settles(t, Decode(t, target).target, hops - 1))
  }

  /** What the pointer loop prints from `target` on. */
  function Followed(t: seq<byte>, target: nat, hops: nat): seq<byte>
    requires target > 0 && Settles(t, target, hops)
    decreases hops
  {
    var d := Decode(t, target);
    UpToZero(d.text) + if d.target == 0 then [] else [DOT] + Followed(t, d.target, hops - 1)
  }

  /** The printed name. */
  function Shown(t: seq<byte>, loc: nat, hops: nat): seq<byte>
    requires At(t, loc) == 0 || Settles(t, Decode(t, loc).target, hops)
  {
    var d := Decode(t, loc);
    if At(t, loc) == 0 then ROOT
    else if d.target == 0 then UpToZero(d.text)
    else (if d.used > 2 then UpToZero(d.text) + [DOT] else []) + Followed(t, d.target, hops)
  }

  /** The returned length. */
  function Moved(t: seq<byte>, loc: nat): nat {
    var d := Decode(t, loc);
    if At(t, loc) == 0 then 1 else if d.target == 0 then d.used + 1 else d.used
  }

  /** PrintDomainName.  It stops when the pointers it meets stop. */
  method PrintDomainName(t: seq<byte>, loc: nat, ghost hops: nat) returns (result: nat, printed: seq<byte>)
    requires At(t, loc) == 0 || Settles(t, Decode(t, loc).target, hops)
    ensures result == Moved(t, loc) && printed == Shown(t, loc, hops)
  {
    hide Scan;
    if At(t, loc) == 0 {
      return 1, ROOT;
    }
    var bufferTemp := new byte[PACKET_MAXSIZE](_ => 0);
    ghost var d := Decode(t, loc);
    var truncated: nat;
    printed := [];
    result, truncated := DNSQueryToChar(t, loc, bufferTemp);
    hide Decode, Settles;
    if truncated > 0 {
      if result > 2 {
        printed := PrintText(bufferTemp, d.text);
        Clear(bufferTemp);
        printed := printed + [DOT];
      } else {
        ShortIsEmpty(t, loc);
      }
      var text := FollowPointers(t, truncated, bufferTemp, hops);
      printed := printed + text;
    } else {
      printed := PrintText(bufferTemp, d.text);
      result := result + 1;
    }
  }

  /** Its loop over pointers. */
  method FollowPointers(t: seq<byte>, target: nat, bufferTemp: array<byte>,
    ghost hops: nat) returns (printed: seq<byte>)
    requires target > 0 && Settles(t, target, hops) && bufferTemp.Length == PACKET_MAXSIZE
    requires forall i | 0 <= i < bufferTemp.Length :: bufferTemp[i] == 0
    modifies bufferTemp
    ensures printed == Followed(t, target, hops)
  {
    var truncated := target;
    var multiplePtr := false;
    ghost var h := hops;
    printed := [];
    assert Followed(t, target, hops) == printed + Ahead(t, truncated, h, multiplePtr);
    hide Decode, Settles, Followed, Ahead;
    while truncated > 0
      invariant Settles(t, truncated, h)
      invariant forall i | 0 <= i < bufferTemp.Length :: bufferTemp[i] == 0
      invariant Followed(t, target, hops) == printed + Ahead(t, truncated, h, multiplePtr)
      decreases h
    {
      HopOn(t, truncated, h, multiplePtr, printed);
      if multiplePtr {
        printed := printed + [DOT];
      }
      ghost var d := Decode(t, truncated);
      truncated := Hop(t, truncated, bufferTemp);
      var text := PrintText(bufferTemp, d.text);
      printed := printed + text;
      Clear(bufferTemp);
      multiplePtr := true;
      h := h - 1;
    }
    NothingAhead(t, h, multiplePtr);
    assert printed + [] == printed;
  }

  /** What the pointer loop still has to print. */
  function Ahead(t: seq<byte>, target: nat, hops: nat, multiplePtr: bool): seq<byte>
    requires Settles(t, target, hops)
  {
    if target == 0 then [] else (if multiplePtr then [DOT] else []) + Followed(t, target, hops)
  }

  lemma NothingAhead(t: seq<byte>, hops: nat, multiplePtr: bool)
    ensures Settles(t, 0, hops) && Ahead(t, 0, hops, multiplePtr) == []
  {
  }

  method Hop(t: seq<byte>, from: nat, bufferTemp: array<byte>) returns (truncated: nat)
    requires bufferTemp.Length == PACKET_MAXSIZE
    requires forall i | 0 <= i < bufferTemp.Length :: bufferTemp[i] == 0
    modifies bufferTemp
    ensures var d := Decode(t, from);
      truncated == d.target && |d.text| < bufferTemp.Length && bufferTemp[..|d.text|] == d.text &&
      forall i | |d.text| <= i < bufferTemp.Length :: bufferTemp[i] == 0
  {
    var _, next := DNSQueryToChar(t, from, bufferTemp);
    return next;
  }

  lemma HopOn(t: seq<byte>, target: nat, hops: nat, multiplePtr: bool, was: seq<byte>)
    requires target > 0 && Settles(t, target, hops)
    ensures var d := Decode(t, target);
      hops > 0 && Settles(t, d.target, hops - 1) &&
      was + Ahead(t, target, hops, multiplePtr) ==
      (if multiplePtr then was + [DOT] else was) + UpToZero(d.text) + Ahead(t, d.target, hops - 1, true)
  {
    hide Decode, UpToZero;
    var d := Decode(t, target);
    var text := UpToZero(d.text);
    var after := Ahead(t, d.target, hops - 1, true);
    assert Followed(t, target, hops) == text + after;
    assert was + [DOT] + text + after == was + ([DOT] + (text + after));
    assert was + text + after == was + (text + after);
  }

  /** A pointer with nothing before it writes nothing. */
  lemma ShortIsEmpty(t: seq<byte>, loc: nat)
    requires var d := Decode(t, loc); d.target > 0 && d.used <= 2
    ensures Decode(t, loc).text == []
  {
    var b := At(t, loc);
    ScanFirst(t, loc);
    if b < 0xc0 { Further(t, loc, 1, Signed(b), 0, []); }
  }

  lemma {:induction false} Further(t: seq<byte>, base: nat, u: nat, i0: int, i1: nat, out: seq<byte>)
    requires 1 <= u <= DOMAIN_MAXSIZE
    ensures var d := Scan(t, base, u, i0, i1, out); (d.target > 0 ==> d.used > u + 1) && out <= d.text
    decreases DOMAIN_MAXSIZE - u
  {
    if u < DOMAIN_MAXSIZE {
      var b := At(t, base + u);
      if b < 0xc0 {
        if u == i0 + i1 + 1 {
          if b != 0 { Further(t, base, u + 1, Signed(b), u, out + [DOT]); }
        } else {
          Further(t, base, u + 1, i0, i1, out + [b]);
        }
      }
    }
  }

  /** Prints the buffer up to its first zero. */
  method PrintText(buffer: array<byte>, ghost text: seq<byte>) returns (printed: seq<byte>)
    requires |text| < buffer.Length && buffer[..|text|] == text &&
      forall i | |text| <= i < buffer.Length :: buffer[i] == 0
    ensures printed == UpToZero(text)
  {
    var n := StrnLen(buffer, buffer.Length);
    printed := [];
    var index := 0;
    while index < n
      invariant index <= n && printed == buffer[..index]
    {
      printed := printed + [buffer[index]];
      index := index + 1;
    }
    assert n <= |text|;
    assert printed == text[..n];
    assert forall i | 0 <= i < n :: text[i] == buffer[i];
    assert n < |text| ==> text[n] == buffer[n];
    FirstPart(text, n);
  }

  lemma {:induction false} FirstPart(s: seq<byte>, n: nat)
    requires n <= |s| && (forall i | 0 <= i < n :: s[i] != 0) && (n < |s| ==> s[n] == 0)
    ensures UpToZero(s) == s[..n]
  {
    if n > 0 {
      FirstPart(s[1..], n - 1);
      assert s[..n] == [s[0]] + s[1..][..n - 1];
    }
  }

  method Clear(buffer: array<byte>)
    modifies buffer
    ensures forall i | 0 <= i < buffer.Length :: buffer[i] == 0
  {
    var i := 0;
    while i < buffer.Length
      invariant i <= buffer.Length && forall j | 0 <= j < i :: buffer[j] == 0
    {
      buffer[i] := 0;
      i := i + 1;
    }
  }
}
