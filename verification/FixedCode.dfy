/** The code words of section 3.2.6 of RFC 1951, as ranges of numbers, and that they are the canonical words of the
    fixed code lengths. */
module FixedCode {
  import opened Bits
  import opened Huffman
  import opened Reference
  import opened BitWriter
  import opened Encoder

  function LitWord(s: nat): seq<bit> {
    if s < 144 then Word(48 + s, 8)
    else if s < 256 then Word(400 + (s - 144), 9)
    else if s < 280 then Word(s - 256, 7)
    else Word(192 + (s - 280), 8)
  }

  function DistWord(s: nat): seq<bit> {
    Word(s, 5)
  }

  lemma {:induction false} CountConcat(a: seq<nat>, b: seq<nat>, len: nat)
    ensures Count(a + b, len) == Count(a, len) + Count(b, len)
    decreases |b|
  {
    if b == [] {
      assert a + b == a;
    } else {
      CountConcat(a, b[..|b| - 1], len);
      assert (a + b)[..|a + b| - 1] == a + b[..|b| - 1];
    }
  }

  lemma {:induction false} CountRepeat(v: nat, n: nat, len: nat)
    ensures Count(Repeat(v, n), len) == if v == len then n else 0
  {
    if n > 0 {
      assert Repeat(v, n)[..n - 1] == Repeat(v, n - 1);
      CountRepeat(v, n - 1, len);
    }
  }

  /** How often a length stands among the first symbols. */
  lemma LitCount(s: nat, len: nat)
    requires s <= 288
    ensures Count(FixedLit()[..s], len) ==
      if len == 8 then (if s < 144 then s else if s < 280 then 144 else s - 136)
      else if len == 9 then (if s < 144 then 0 else if s < 256 then s - 144 else 112)
      else if len == 7 then (if s < 256 then 0 else if s < 280 then s - 256 else 24)
      else 0
  {
    var a := if s < 144 then s else 144;
    var b := if s < 144 then 0 else if s < 256 then s - 144 else 112;
    var c := if s < 256 then 0 else if s < 280 then s - 256 else 24;
    var d := if s < 280 then 0 else s - 280;
    assert FixedLit()[..s] == Repeat(8, a) + Repeat(9, b) + Repeat(7, c) + Repeat(8, d);
    hide FixedLit, Repeat, Count;
    CountConcat(Repeat(8, a) + Repeat(9, b) + Repeat(7, c), Repeat(8, d), len);
    CountConcat(Repeat(8, a) + Repeat(9, b), Repeat(7, c), len);
    CountConcat(Repeat(8, a), Repeat(9, b), len);
    CountRepeat(8, a, len);
    CountRepeat(9, b, len);
    CountRepeat(7, c, len);
    CountRepeat(8, d, len);
  }

  lemma LitFirst()
    ensures |FixedLit()| == 288
    ensures var c := Counts(FixedLit());
      FirstCode(c, 7) == 0 && FirstCode(c, 8) == 48 && FirstCode(c, 9) == 400
  {
    var b := FixedLit();
    assert b[..288] == b;
    var c := Counts(b);
    forall len | 0 <= len <= BMAX
      ensures c[len] == if len == 8 then 152 else if len == 9 then 112 else if len == 7 then 24 else 0
    {
      LitCount(288, len);
    }
    hide FixedLit, Count, Counts;
    NoneShorter(c, 7);
    assert FirstCode(c, 8) == 2 * (FirstCode(c, 7) + c[7]);
    assert FirstCode(c, 9) == 2 * (FirstCode(c, 8) + c[8]);
  }

  lemma {:induction false} NoneShorter(c: seq<nat>, len: nat)
    requires len <= |c| && forall k | 1 <= k < len :: c[k] == 0
    ensures FirstCode(c, len) == 0
  {
    if len > 1 { NoneShorter(c, len - 1); }
  }

  lemma LitSends(s: nat)
    requires s < 288
    ensures Sends(FixedLit(), LitWord, s)
  {
    hide *;
    LitLength(s);
    LitCode(s);
    LitWordIs(s);
    WordSizes();
    SendsIf(FixedLit(), LitWord, s);
  }

  lemma SendsIf(b: seq<nat>, w: Words, s: nat)
    requires s < |b| && 0 < b[s] <= 15 && Code(b, s) < Pow2(b[s]) && w(s) == Word(Code(b, s), b[s])
    ensures Sends(b, w, s)
  {
  }

  lemma WordSizes()
    ensures Pow2(7) == 128 && Pow2(8) == 256 && Pow2(9) == 512
  {
  }

  lemma LitWordIs(s: nat)
    ensures LitWord(s) == if s < 144 then Word(48 + s, 8) else if s < 256 then Word(256 + s, 9)
                          else if s < 280 then Word(s - 256, 7) else Word(s - 88, 8)
  {
  }

  lemma LitCode(s: nat)
    requires s < 288
    ensures |FixedLit()| == 288 && 0 < FixedLit()[s] <= BMAX
    ensures Code(FixedLit(), s) == if s < 144 then 48 + s else if s < 256 then 256 + s else if s < 280 then s - 256
                                   else s - 88
  {
    LitFirst();
    LitCount(s, FixedLit()[s]);
    LitLength(s);
    hide FixedLit, Count, Counts, FirstCode;
  }

  lemma LitLength(s: nat)
    requires s < 288
    ensures |FixedLit()| == 288
    ensures FixedLit()[s] == if s < 144 then 8 else if s < 256 then 9 else if s < 280 then 7 else 8
  {
  }

  lemma DistSends(s: nat)
    requires s < 30
    ensures Sends(FixedDist(), DistWord, s)
  {
    var b := FixedDist();
    var c := Counts(b);
    forall len | 0 <= len <= BMAX ensures c[len] == if len == 5 then 30 else 0 { CountRepeat(5, 30, len); }
    assert b[..s] == Repeat(5, s);
    CountRepeat(5, s, 5);
    hide Count, Counts, Word;
    NoneShorter(c, 5);
    assert Pow2(5) == 32;
  }
}
