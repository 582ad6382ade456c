/** The cursor of PrintResponse over the sections of a message. */
module DnsResponse {
  import opened Bits
  import opened DnsDecode
  import opened DnsPrint
  import opened DnsExpand

  /** An entry as sent.  `fixed` of a record holds its type, class and time to live. */
  datatype Entry =
    | Question(name: seq<byte>, kind: seq<byte>)
    | Record(name: seq<byte>, fixed: seq<byte>, data: seq<byte>)

  predicate Formed(e: Entry) {
    match e
    case Question(_, kind) => |kind| == 4
    case Record(_, fixed, data) => |fixed| == 8 && |data| < 0x10000
  }

  function EntryBytes(e: Entry): seq<byte>
    requires Formed(e)
  {
    match e
    case Question(name, kind) => name + kind
    case Record(name, fixed, data) => name + (fixed + ([|data| / 256, |data| % 256] + data))
  }

  function Size(e: Entry): nat {
    match e
    case Question(name, kind) => |name| + 4
    case Record(name, fixed, data) => |name| + 10 + |data|
  }

  /** The name at `pos` takes `size` bytes, and its pointers lead to labels and come to an end. */
  ghost predicate Named(msg: seq<byte>, pos: nat, size: nat) {
    var p := Segment(msg, pos);
    p != Bad && p.size == size && exists hops: nat :: Chained(msg, pos, hops) && AllLabelled(msg, pos, hops)
  }

  /** One entry of a message. */
  ghost predicate Placed(msg: seq<byte>, pos: nat, e: Entry) {
    Formed(e) && Stands(msg, pos, EntryBytes(e)) && Named(msg, pos, |e.name|) &&
    (e.Question? ==> Segment(msg, pos).End?)
  }

  /** Entries one behind the other. */
  ghost predicate Laid(msg: seq<byte>, pos: nat, es: seq<Entry>)
    decreases es
  {
    es == [] || (Placed(msg, pos, es[0]) && Laid(msg, pos + Size(es[0]), es[1..]))
  }

  function SizeAll(es: seq<Entry>): nat {
    if es == [] then 0 else Size(es[0]) + SizeAll(es[1..])
  }

  /** Where the entries start. */
  function Starts(pos: nat, es: seq<Entry>): seq<nat>
    decreases es
  {
    if es == [] then [] else [pos] + Starts(pos + Size(es[0]), es[1..])
  }

  /** The text of a name. */
  ghost function NameOf(msg: seq<byte>, pos: nat): seq<byte>
    requires exists hops: nat :: Chained(msg, pos, hops)
  {
    var hops: nat :| Chained(msg, pos, hops);
    NameText(Expanded(msg, pos, hops))
  }

  ghost function Names(msg: seq<byte>, pos: nat, es: seq<Entry>): seq<seq<byte>>
    requires Laid(msg, pos, es)
    decreases es
  {
    if es == [] then [] else [NameOf(msg, pos)] + Names(msg, pos + Size(es[0]), es[1..])
  }

  /** A 16-bit field in network order. */
  function Word(t: seq<byte>, i: nat): nat {
    At(t, i) * 256 + At(t, i + 1)
  }

  /** A message: a header with the four counts, the questions, the records of three sections, and no more. */
  ghost predicate WellFormed(msg: seq<byte>, all: seq<Entry>) {
    var questions := Word(msg, 4);
    |msg| == HEADER + SizeAll(all) && Laid(msg, HEADER, all) &&
    |all| == questions + Word(msg, 6) + Word(msg, 8) + Word(msg, 10) &&
    AllQuestions(all, questions) && AllRecords(all, questions)
  }

  predicate AllQuestions(all: seq<Entry>, to: nat)
    requires to <= |all|
  {
    forall i | 0 <= i < to :: all[i].Question?
  }

  predicate AllRecords(all: seq<Entry>, from: nat)
  {
    forall i | from <= i < |all| :: all[i].Record?
  }

  /** strnlen_s of the buffer from `pos` on. */
  function ZeroAt(t: seq<byte>, pos: nat, max: nat): (n: nat)
    ensures n <= max
    decreases max
  {
    if max == 0 || At(t, pos) == 0 then 0 else 1 + ZeroAt(t, pos + 1, max - 1)
  }

  // ----- questions

  /** The advance over a question's name is right exactly when the name is not compressed, or ends in a pointer
      whose low byte is zero. */
  lemma QuestionAdvance(msg: seq<byte>, tail: seq<byte>, pos: nat, max: nat)
    requires Segment(msg, pos) != Bad && Segment(msg, pos).size <= max
    ensures var p := Segment(msg, pos);
      ZeroAt(msg + tail, pos, max) + 1 == p.size <==> p.End? || p.target % 256 == 0
  {
    ZeroInSegment(msg, msg + tail, pos, max);
  }

  /** A question with a pointer as its name: three bytes are passed over instead of two. */
  lemma CompressedQuestion()
    ensures Segment([0xc0, 0x0c], 0) == Jump([], 2, 12) && ZeroAt([0xc0, 0x0c], 0, 2) + 1 == 3
  {
    var msg: seq<byte> := [0xc0, 0x0c];
    assert msg + [] == msg;
    SegmentCases(msg, 0);
    assert ZeroAt(msg, 1, 1) == 1 + ZeroAt(msg, 2, 0);
  }

  lemma {:induction false} ZeroInSegment(msg: seq<byte>, t: seq<byte>, pos: nat, max: nat)
    requires msg <= t && Segment(msg, pos) != Bad && Segment(msg, pos).size <= max
    ensures var p, n := Segment(msg, pos), ZeroAt(t, pos, max);
      if p.End? || p.target % 256 == 0 then n + 1 == p.size else n >= p.size
    decreases |msg| - pos
  {
    hide Segment, Plain;
    SegmentCases(msg, pos);
    var b := msg[pos];
    ZeroStep(msg, t, pos, max);
    hide Segment, ZeroAt, At;
    if b >= 0xc0 {
      ZeroStep(msg, t, pos + 1, max - 1);
      LowByte(b % 64, msg[pos + 1]);
    } else if b > 0 {
      SizePositive(msg, pos + 1 + b);
      PlainSlice(msg, pos + 1, pos + 1 + b);
      PlainNoZero(msg, t, pos + 1, b, max - 1);
      ZeroInSegment(msg, t, pos + 1 + b, max - 1 - b);
    }
  }

  lemma ZeroStep(msg: seq<byte>, t: seq<byte>, pos: nat, max: nat)
    requires msg <= t && pos < |msg| && max > 0
    ensures ZeroAt(t, pos, max) == if msg[pos] == 0 then 0 else 1 + ZeroAt(t, pos + 1, max - 1)
  {
  }

  lemma PlainSlice(msg: seq<byte>, from: nat, to: nat)
    requires from <= to <= |msg| && Plain(msg[from..to])
    ensures forall i | from <= i < to :: msg[i] != 0
  {
    forall i | from <= i < to ensures msg[i] != 0 { assert msg[i] == msg[from..to][i - from]; }
  }

  lemma LowByte(hi: nat, lo: byte)
    ensures (hi * 256 + lo) % 256 == lo
  {
  }

  lemma SizePositive(msg: seq<byte>, pos: nat)
    requires Segment(msg, pos) != Bad
    ensures Segment(msg, pos).size > 0
  {
    SegmentCases(msg, pos);
  }

  lemma {:induction false} PlainNoZero(msg: seq<byte>, t: seq<byte>, pos: nat, k: nat, max: nat)
    requires msg <= t && pos + k <= |msg| && k <= max && forall i | pos <= i < pos + k :: msg[i] != 0
    ensures ZeroAt(t, pos, max) == k + ZeroAt(t, pos + k, max - k)
    decreases k
  {
    if k > 0 {
      assert At(t, pos) == msg[pos] != 0;
      PlainNoZero(msg, t, pos + 1, k - 1, max - 1);
    }
  }

  // ----- the cursor

  /** At an entry of a well-formed message the printed name and the returned length are those of the entry. */
  lemma NamePrinted(msg: seq<byte>, tail: seq<byte>, pos: nat, size: nat) returns (hops: nat)
    requires Named(msg, pos, size)
    ensures var t := msg + tail;
      (At(t, pos) == 0 || Settles(t, Decode(t, pos).target, hops)) &&
      Shown(t, pos, hops) == NameOf(msg, pos) && Moved(t, pos) == size
  {
    hide Segment, Decode, Shown, Settles, At, NameText, Moved;
    hops :| Chained(msg, pos, hops) && AllLabelled(msg, pos, hops);
    PrintsExpanded(msg, tail, pos, hops);
    ReturnsSize(msg, tail, pos);
    forall h: nat | Chained(msg, pos, h) ensures Expanded(msg, pos, h) == Expanded(msg, pos, hops) {
      MoreHops(msg, pos, h, h + hops);
      MoreHops(msg, pos, hops, h + hops);
    }
  }

  lemma RecordLength(msg: seq<byte>, tail: seq<byte>, pos: nat, e: Entry)
    requires Placed(msg, pos, e) && e.Record?
    ensures Word(msg + tail, pos + |e.name| + 8) == |e.data|
  {
    var b, n := EntryBytes(e), |e.name|;
    hide Named, Segment;
    assert b[n + 8] == |e.data| / 256 && b[n + 9] == |e.data| % 256;
    assert msg[pos + (n + 8)] == b[n + 8] && msg[pos + (n + 9)] == b[n + 9];
  }

  /** strnlen_s behind a cursor. */
  method StrnLenAt(t: seq<byte>, pos: nat, max: nat) returns (n: nat)
    ensures n == ZeroAt(t, pos, max)
  {
    n := 0;
    while n < max && At(t, pos + n) != 0
      invariant n <= max && ZeroAt(t, pos, max) == n + ZeroAt(t, pos + n, max - n)
    {
      n := n + 1;
    }
  }

  /** What a section leaves: the cursor, and where it printed which names. */
  datatype Trace = Trace(current: nat, starts: seq<nat>, names: seq<seq<byte>>)

  /** The run over `all` has printed its first `k` entries. */
  ghost predicate OnCourse(msg: seq<byte>, all: seq<Entry>, k: nat, c: Trace) {
    k <= |all| && Laid(msg, HEADER, all) && Laid(msg, c.current, all[k..]) &&
    c.current + SizeAll(all[k..]) == HEADER + SizeAll(all) &&
    c.starts + Starts(c.current, all[k..]) == Starts(HEADER, all) &&
    c.names + Names(msg, c.current, all[k..]) == Names(msg, HEADER, all)
  }

  /** One entry on. */
  lemma Onward(msg: seq<byte>, all: seq<Entry>, k: nat, c: Trace)
    requires OnCourse(msg, all, k, c) && k < |all|
    ensures Placed(msg, c.current, all[k])
    ensures OnCourse(msg, all, k + 1,
                     Trace(c.current + Size(all[k]), c.starts + [c.current], c.names + [NameOf(msg, c.current)]))
  {
    hide Placed, NameOf, Size;
    AllStep(msg, c.current, all, k);
    hide Laid, Starts, Names, SizeAll;
    var pos := c.current + Size(all[k]);
    var name := NameOf(msg, c.current);
    Regroup(c.starts, c.current, Starts(pos, all[k + 1..]));
    Regroup(c.names, name, Names(msg, pos, all[k + 1..]));
  }

  lemma Regroup<T>(a: seq<T>, x: T, b: seq<T>)
    ensures a + ([x] + b) == a + [x] + b
  {
  }

  lemma AllStep(msg: seq<byte>, current: nat, all: seq<Entry>, k: nat)
    requires k < |all| && Laid(msg, current, all[k..])
    ensures Placed(msg, current, all[k]) && exists hops: nat :: Chained(msg, current, hops)
    ensures var pos := current + Size(all[k]);
      Laid(msg, pos, all[k + 1..]) &&
      SizeAll(all[k..]) == Size(all[k]) + SizeAll(all[k + 1..]) &&
      Starts(current, all[k..]) == [current] + Starts(pos, all[k + 1..]) &&
      Names(msg, current, all[k..]) == [NameOf(msg, current)] + Names(msg, pos, all[k + 1..])
  {
    assert all[k..][1..] == all[k + 1..] && all[k..][0] == all[k];
    hide Stands, NameOf, Segment;
  }

  lemma Inside(msg: seq<byte>, t: seq<byte>, pos: nat, e: Entry)
    requires Placed(msg, pos, e) && msg <= t
    ensures pos + Size(e) <= |msg| && Named(msg, pos, |e.name|) && t == msg + t[|msg|..]
    ensures e.Question? ==> Segment(msg, pos).End? && Segment(msg, pos).size == |e.name|
  {
  }

  /** A question: its name is passed over by its closing zero. */
  method PrintQuestion(t: seq<byte>, length: nat, current: nat, ghost msg: seq<byte>, ghost e: Entry)
      returns (next: nat, name: seq<byte>)
    requires msg <= t && length == |msg| && Placed(msg, current, e) && e.Question?
    ensures next == current + Size(e) && name == NameOf(msg, current)
  {
    hide Segment;
    Inside(msg, t, current, e);
    ghost var hops := NamePrinted(msg, t[|msg|..], current, |e.name|);
    QuestionAdvance(msg, t[|msg|..], current, length - current);
    hide *;
    var _, printed := PrintDomainName(t, current, hops);
    name := printed;
    next := StrnLenAt(t, current, length - current);
    next := current + (next + 1);
    next := next + 4;
    assert next == current + Size(e) by {
      SizeOf(e);
    }
  }

  lemma SizeOf(e: Entry)
    ensures Size(e) == |e.name| + if e.Question? then 4 else 10 + |e.data|
  {
  }

  /** A record.  Only the additional section looks for the OPT record. */
  method PrintRecord(t: seq<byte>, additional: bool, current: nat, ghost msg: seq<byte>, ghost e: Entry)
      returns (next: nat, name: seq<byte>)
    requires msg <= t && Placed(msg, current, e) && e.Record?
    ensures next == current + Size(e) && name == NameOf(msg, current)
  {
    Inside(msg, t, current, e);
    ghost var hops := NamePrinted(msg, t[|msg|..], current, |e.name|);
    RecordLength(msg, t[|msg|..], current, e);
    SizeOf(e);
    hide *;
    var moved, printed := PrintDomainName(t, current, hops);
    name := printed;
    next := current + moved;
    if additional && Word(t, next) == DNS_RECORD_OPT {
      next := next + (10 + Word(t, next + 8));
    } else {
      var dataLength := Word(t, next + 8);
      next := next + 10;
      next := next + dataLength;
    }
  }

  /** The questions. */
  method PrintQuestions(t: seq<byte>, length: nat, count: nat, c0: Trace, ghost msg: seq<byte>, ghost all: seq<Entry>,
                        ghost k: nat)
      returns (c: Trace)
    requires msg <= t && length == |msg| && k + count <= |all| && AllQuestions(all, k + count)
    requires OnCourse(msg, all, k, c0)
    ensures OnCourse(msg, all, k + count, c)
  {
    hide OnCourse;
    c := c0;
    var index := 0;
    while index < count
      invariant index <= count && OnCourse(msg, all, k + index, c)
    {
      hide *;
      Onward(msg, all, k + index, c);
      var next, name := PrintQuestion(t, length, c.current, msg, all[k + index]);
      c := Trace(next, c.starts + [c.current], c.names + [name]);
      index := index + 1;
    }
  }

  lemma RecordAt(all: seq<Entry>, k: nat, i: nat)
    requires AllRecords(all, k) && k <= i < |all|
    ensures all[i].Record?
  {
  }

  /** A section of records. */
  method PrintRecords(t: seq<byte>, count: nat, additional: bool, c0: Trace, ghost msg: seq<byte>,
                      ghost all: seq<Entry>, ghost k: nat) returns (c: Trace)
    requires msg <= t && k + count <= |all| && AllRecords(all, k)
    requires OnCourse(msg, all, k, c0)
    ensures OnCourse(msg, all, k + count, c)
  {
    hide *;
    c := c0;
    var index := 0;
    while index < count
      invariant index <= count && OnCourse(msg, all, k + index, c)
    {
      RecordAt(all, k, k + index);
      Onward(msg, all, k + index, c);
      var next, name := PrintRecord(t, additional, c.current, msg, all[k + index]);
      c := Trace(next, c.starts + [c.current], c.names + [name]);
      index := index + 1;
    }
  }

  /** PrintResponse.  On a well-formed message, with anything behind it in the buffer, the cursor visits the start of
      every entry, the full name of each is printed, and the cursor ends at the message's end. */
  method PrintResponse(t: seq<byte>, length: nat, ghost all: seq<Entry>) returns (c: Trace)
    requires length <= |t| && WellFormed(t[..length], all)
    ensures c.current == length
    ensures c.starts == Starts(HEADER, all)
    ensures c.names == Names(t[..length], HEADER, all)
  {
    ghost var msg := t[..length];
    Departing(msg, all);
    Counts(t, msg, all);
    hide *;
    c := PrintSections(t, length, Word(t, 4), Word(t, 6), Word(t, 8), Word(t, 10), msg, all);
    Arrived(msg, all, c);
  }

  method PrintSections(t: seq<byte>, length: nat, questions: nat, answer: nat, authority: nat, extra: nat,
                       ghost msg: seq<byte>, ghost all: seq<Entry>)
      returns (c: Trace)
    requires msg <= t && |msg| == length && OnCourse(msg, all, 0, Trace(HEADER, [], []))
    requires |all| == questions + answer + authority + extra && AllQuestions(all, questions)
    requires AllRecords(all, questions)
    ensures OnCourse(msg, all, |all|, c)
  {
    c := Trace(HEADER, [], []);
    hide *;
    c := PrintQuestions(t, length, questions, c, msg, all, 0);
    c := PrintRecords(t, answer, false, c, msg, all, questions);
    RecordsFrom(all, questions, questions + answer);
    c := PrintRecords(t, authority, false, c, msg, all, questions + answer);
    RecordsFrom(all, questions, questions + answer + authority);
    c := PrintRecords(t, extra, true, c, msg, all, questions + answer + authority);
  }

  lemma RecordsFrom(all: seq<Entry>, a: nat, b: nat)
    requires AllRecords(all, a) && a <= b
    ensures AllRecords(all, b)
  {
  }

  lemma Counts(t: seq<byte>, msg: seq<byte>, all: seq<Entry>)
    requires msg <= t && WellFormed(msg, all)
    ensures var a, b, c, d := Word(t, 4), Word(t, 6), Word(t, 8), Word(t, 10);
      |all| == a + b + c + d && AllQuestions(all, a) && AllRecords(all, a)
  {
    hide Laid, SizeAll;
    assert forall i: nat | i < HEADER :: At(t, i) == At(msg, i);
  }

  lemma Departing(msg: seq<byte>, all: seq<Entry>)
    requires WellFormed(msg, all)
    ensures OnCourse(msg, all, 0, Trace(HEADER, [], []))
  {
    assert all[0..] == all;
    hide Laid, SizeAll, Names, Starts, At;
    assert [] + Starts(HEADER, all) == Starts(HEADER, all) && [] + Names(msg, HEADER, all) == Names(msg, HEADER, all);
  }

  lemma Arrived(msg: seq<byte>, all: seq<Entry>, c: Trace)
    requires OnCourse(msg, all, |all|, c)
    ensures c.current == HEADER + SizeAll(all) && c.starts == Starts(HEADER, all)
    ensures Laid(msg, HEADER, all) && c.names == Names(msg, HEADER, all)
  {
    assert all[|all|..] == [];
  }
}
