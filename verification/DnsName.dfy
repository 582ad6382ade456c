/** Domain names on the wire and in text: CharToDNSQuery and DNSQueryToChar. */
module DnsName {
  import opened Bits

  const DOT: byte := 46
  /** Maximum size of a domain name. */
  const DOMAIN_MAXSIZE: nat := 256

  type Label = seq<byte>

  /** Labels as sent: each behind its length (section 3.1 of RFC 1035), which is stored in a `char`. */
  function Wire(ls: seq<Label>): seq<byte> {
    if ls == [] then [] else [LengthByte(|ls[0]|)] + ls[0] + Wire(ls[1..])
  }

  function LengthByte(n: nat): byte {
    n % 256
  }

  /** Labels with a dot after each. */
  function Dotted(ls: seq<Label>): seq<byte> {
    if ls == [] then [] else ls[0] + [DOT] + Dotted(ls[1..])
  }

  /** Labels with dots between them. */
  function Text(ls: seq<Label>): seq<byte> {
    if |ls| <= 1 then (if ls == [] then [] else ls[0]) else ls[0] + [DOT] + Text(ls[1..])
  }

  /** A text cut at its dots. */
  function Split(s: seq<byte>): (ls: seq<Label>)
    ensures |ls| >= 1 && forall i | 0 <= i < |ls| :: |ls[i]| <= |s|
  {
    if s == [] then [[]]
    else
      var r := Split(s[1..]);
      if s[0] == DOT then [[]] + r else [[s[0]] + r[0]] + r[1..]
  }

  /** What a label may hold for the codec to treat it right. */
  predicate GoodLabel(l: Label) {
    1 <= |l| <= 63 && forall i | 0 <= i < |l| :: 0 < l[i] < 0xc0 && l[i] != DOT
  }

  predicate GoodName(ls: seq<Label>) {
    forall i | 0 <= i < |ls| :: GoodLabel(ls[i])
  }

  // ----- in characters

  /** "a.bc" is sent as one byte, 'a', two bytes, 'b' and 'c'. */
  lemma WireExample()
    ensures Wire(Split(Chars("a.bc"))) == [1, 'a' as int, 2, 'b' as int, 'c' as int]
  {
    hide Wire, Split, Text;
    TwoLabels([97], [98, 99]);
    SplitText([[97], [98, 99]]);
    assert Chars("a.bc") == [97] + [DOT] + [98, 99];
  }

  lemma TwoLabels(a: Label, b: Label)
    ensures Text([a, b]) == a + [DOT] + b
    ensures Wire([a, b]) == [LengthByte(|a|)] + a + ([LengthByte(|b|)] + b)
  {
    assert [a, b][1..] == [b] && [b][1..] == [];
    assert Wire([b]) == [LengthByte(|b|)] + b + [];
  }

  function Chars(s: string): seq<byte>
    requires forall i | 0 <= i < |s| :: s[i] < 256 as char
  {
    seq(|s|, i requires 0 <= i < |s| => s[i] as int)
  }

  /** A label's length is sent as the C code casts it, and a text is cut at 256 characters. */
  lemma LengthsCut(n: nat, s: seq<byte>)
    ensures LengthByte(n) == n % 256 && |Cut(s)| == (if |s| < 256 then |s| else 256) && Cut(s) <= s
  {
  }

  // ----- texts and labels

  lemma {:induction false} SplitText(ls: seq<Label>)
    requires ls != [] && forall i, j | 0 <= i < |ls| && 0 <= j < |ls[i]| :: ls[i][j] != DOT
    ensures Split(Text(ls)) == ls
    decreases |ls|, |ls[0]|
  {
    if ls[0] == [] { TextDot(ls); } else { TextFirst(ls); }
    HeadlessEmpty();
    hide Split, Text, Headless;
    if ls[0] != [] {
      var c, ls' := ls[0][0], [ls[0][1..]] + ls[1..];
      SplitText(ls');
      SplitFirst(c, Text(ls'));
      assert [c] + ls'[0] == ls[0] && ls == [ls[0]] + ls'[1..];
    } else if |ls| > 1 {
      SplitText(ls[1..]);
      SplitFirst(DOT, Text(ls[1..]));
      assert ls == [[]] + ls[1..];
    } else {
      assert ls == [[]];
    }
  }

  lemma SplitFirst(c: byte, s: seq<byte>)
    ensures Split([c] + s) == if c == DOT then [[]] + Split(s) else [[c] + Split(s)[0]] + Split(s)[1..]
  {
    assert ([c] + s)[1..] == s;
  }

  lemma TextFirst(ls: seq<Label>)
    requires ls != [] && ls[0] != []
    ensures Text(ls) == [ls[0][0]] + Text([ls[0][1..]] + ls[1..])
  {
    var c, l, more := ls[0][0], ls[0][1..], ls[1..];
    assert ([l] + more)[1..] == more;
    var rest := Text(more);
    assert Text([l] + more) == if more == [] then l else l + [DOT] + rest;
    assert Text(ls) == if more == [] then ls[0] else ls[0] + [DOT] + rest;
    hide *;
    assert ls[0] == [c] + l;
    assert [c] + l + [DOT] + rest == [c] + (l + [DOT] + rest);
  }

  lemma TextDot(ls: seq<Label>)
    requires ls != [] && ls[0] == []
    ensures Text(ls) == if |ls| == 1 then [] else [DOT] + Text(ls[1..])
  {
    assert [] + [DOT] == [DOT];
  }

  lemma {:induction false} TextSplit(s: seq<byte>)
    ensures Text(Split(s)) == s
  {
    if s != [] {
      TextSplit(s[1..]);
      var r := Split(s[1..]);
      if s[0] == DOT {
        assert ([[]] + r)[1..] == r;
      } else {
        var ls := [[s[0]] + r[0]] + r[1..];
        assert ls[1..] == r[1..];
      }
    }
  }

  lemma {:induction false} WireLength(ls: seq<Label>)
    ensures |Wire(ls)| == |Dotted(ls)| == if ls == [] then 0 else |Text(ls)| + 1
  {
    if ls != [] { WireLength(ls[1..]); }
  }

  // ----- the encoder

  /** The first label bare, the others behind their lengths. */
  function Headless(ls: seq<Label>): seq<byte>
    requires |ls| >= 1
  {
    ls[0] + Wire(ls[1..])
  }

  lemma HeadlessStep(s: seq<byte>, i: nat)
    requires i < |s|
    ensures var ls, r := Split(s[i..]), Split(s[i + 1..]);
      if s[i] == DOT then ls[0] == [] && Headless(ls) == [LengthByte(|r[0]|)] + Headless(r)
      else |ls[0]| == |r[0]| + 1 && Headless(ls) == [s[i]] + Headless(r)
  {
    var ls, r := Split(s[i..]), Split(s[i + 1..]);
    assert s[i..][1..] == s[i + 1..];
    if s[i] == DOT {
      assert ls[1..] == r;
    } else {
      assert ls[1..] == r[1..];
    }
  }

  /** strnlen_s: the place of the first zero, or `max`. */
  method StrnLen(a: array<byte>, max: nat) returns (n: nat)
    requires max <= a.Length
    ensures n <= max && (n < max ==> a[n] == 0) && forall i | 0 <= i < n :: a[i] != 0
  {
    n := 0;
    while n < max && a[n] != 0
      invariant n <= max && forall i | 0 <= i < n :: a[i] != 0
    {
      n := n + 1;
    }
  }

  /** As much of a text as the codec takes. */
  function Cut(fName: seq<byte>): seq<byte> {
    if |fName| < DOMAIN_MAXSIZE then fName else fName[..DOMAIN_MAXSIZE]
  }

  /** CharToDNSQuery: writes the wire form of a text from its end to its start.  `fName` is the text without its
      closing zero; `result` is what is before the first zero byte written, and one. */
  method CharToDNSQuery(fName: seq<byte>, tName: array<byte>) returns (result: nat)
    requires |Cut(fName)| + 2 <= tName.Length && DOMAIN_MAXSIZE <= tName.Length + 1
    modifies tName
    ensures var n := |Cut(fName)| + 2;
      tName[..n] == Wire(Split(Cut(fName))) + [0] && tName[n..] == old(tName[n..])
    ensures 1 <= result <= DOMAIN_MAXSIZE && (forall i | 0 <= i < result - 1 :: tName[i] != 0)
    ensures result < DOMAIN_MAXSIZE ==> tName[result - 1] == 0
    ensures GoodName(Split(fName)) && |fName| <= 253 ==> result == |fName| + 2
  {
    WriteLabels(Cut(fName), tName);
    result := StrnLen(tName, DOMAIN_MAXSIZE - 1);
    if GoodName(Split(fName)) && |fName| <= 253 { FirstZero(fName, tName[..], result); }
    result := result + 1;
  }

  lemma FirstZero(fName: seq<byte>, t: seq<byte>, k: nat)
    requires |fName| <= 253 && |t| >= 255 && t[..|fName| + 2] == Wire(Split(fName)) + [0] && GoodName(Split(fName))
    requires k <= 255 && (k < 255 ==> t[k] == 0) && forall i | 0 <= i < k :: t[i] != 0
    ensures k == |fName| + 1
  {
    NoZero(Split(fName));
    hide *;
    ZeroBehind(Wire(Split(fName)), t, k, |fName| + 1);
  }

  lemma ZeroBehind(w: seq<byte>, t: seq<byte>, k: nat, n: nat)
    requires n < 255 <= |t| && t[..n + 1] == w + [0] && forall i | 0 <= i < |w| :: w[i] != 0
    requires k <= 255 && (k < 255 ==> t[k] == 0) && forall i | 0 <= i < k :: t[i] != 0
    ensures k == n
  {
    assert t[..n + 1][n] == (w + [0])[n] && |w| == n;
    assert forall i | 0 <= i < n :: t[i] == t[..n + 1][i] && t[..n + 1][i] == w[i];
  }

  /** The loop, from the last character down. */
  method WriteLabels(fName: seq<byte>, tName: array<byte>)
    requires |fName| + 2 <= tName.Length
    modifies tName
    ensures tName[..|fName| + 2] == Wire(Split(fName)) + [0]
    ensures tName[|fName| + 2..] == old(tName[|fName| + 2..])
  {
    hide *;
    var n := |fName|;
    var index0, index1, index2 := n - 1, 0, n;
    tName[index0 + 2] := 0;
    SuffixNone(fName, tName[..]);
    while index0 >= 0
      invariant -1 <= index0 < n && index2 == index0 + 1 && Suffix(fName, tName[..], index0 + 1, index1)
      invariant tName[n + 2..] == old(tName[n + 2..])
    {
      SuffixStep(fName, tName[..], index0, index1);
      if fName[index0] == DOT {
        tName[index2] := LengthByte(index1);
        index1 := 0;
      } else {
        tName[index2] := fName[index0];
        index1 := index1 + 1;
      }
      index0, index2 := index0 - 1, index2 - 1;
    }
    SuffixWhole(fName, tName[..], index1);
    tName[index2] := LengthByte(index1);
  }

  /** From character `i` on the text is written, but for the length of the label there. */
  ghost predicate Suffix(fName: seq<byte>, t: seq<byte>, i: nat, index1: nat) {
    var n := |fName|;
    i <= n && n + 2 <= |t| && index1 == |Split(fName[i..])[0]| &&
    t[i + 1..n + 2] == Headless(Split(fName[i..])) + [0]
  }

  lemma SuffixNone(fName: seq<byte>, t: seq<byte>)
    requires |fName| + 2 <= |t| && t[|fName| + 1] == 0
    ensures Suffix(fName, t, |fName|, 0)
  {
    assert fName[|fName|..] == [];
    HeadlessEmpty();
    assert t[|fName| + 1..|fName| + 2] == [0];
  }

  lemma SuffixStep(fName: seq<byte>, t: seq<byte>, i: nat, index1: nat)
    requires i < |fName| && Suffix(fName, t, i + 1, index1)
    ensures |fName| + 2 <= |t|
    ensures if fName[i] == DOT then Suffix(fName, t[i + 1 := LengthByte(index1)], i, 0)
            else Suffix(fName, t[i + 1 := fName[i]], i, index1 + 1)
  {
    HeadlessStep(fName, i);
    hide Split, Headless, LengthByte;
    var c := if fName[i] == DOT then LengthByte(index1) else fName[i];
    InFront(t, i + 1, |fName| + 2, c, Headless(Split(fName[i + 1..])));
  }

  lemma SuffixWhole(fName: seq<byte>, t: seq<byte>, index1: nat)
    requires Suffix(fName, t, 0, index1)
    ensures |fName| + 2 <= |t| && t[0 := LengthByte(index1)][..|fName| + 2] == Wire(Split(fName)) + [0]
  {
    assert fName[0..] == fName;
    HeadlessWire(Split(fName));
    hide Split, Headless, LengthByte, Wire;
    InFront(t, 0, |fName| + 2, LengthByte(index1), Headless(Split(fName)));
  }

  lemma InFront(t: seq<byte>, i: nat, m: nat, c: byte, s: seq<byte>)
    requires i < m <= |t| && t[i + 1..m] == s + [0]
    ensures t[i := c][i..m] == [c] + s + [0]
  {
    assert t[i := c][i..m] == [c] + t[i + 1..m];
  }

  lemma HeadlessEmpty()
    ensures Split([]) == [[]] && Headless([[]]) == []
  {
  }

  lemma HeadlessWire(ls: seq<Label>)
    requires |ls| >= 1
    ensures Wire(ls) == [LengthByte(|ls[0]|)] + Headless(ls)
  {
  }

  lemma {:induction false} NoZero(ls: seq<Label>)
    requires GoodName(ls)
    ensures forall i | 0 <= i < |Wire(ls)| :: Wire(ls)[i] != 0
  {
    if ls != [] { NoZero(ls[1..]); }
  }
}
