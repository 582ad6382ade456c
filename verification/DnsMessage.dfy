/** Responses as section 4.1 of RFC 1035 lays them out: six 16-bit words, high byte first, then questions and records;
    and what PrintResponse makes of one whose names are written out. */
module DnsMessage {
  import opened Bits
  import opened DnsName
  import opened DnsDecode
  import opened DnsExpand
  import opened DnsResponse

  function Two(n: nat): seq<byte>
    requires n < 0x1_0000
  {
    [n / 256, n % 256]
  }

  /** The words before the counts are the identifier and the flags. */
  function Header(id: nat, flags: nat, questions: nat, answers: nat, authority: nat, extra: nat): (h: seq<byte>)
    requires id < 0x1_0000 && flags < 0x1_0000 && questions < 0x1_0000 && answers < 0x1_0000
    requires authority < 0x1_0000 && extra < 0x1_0000
    ensures |h| == 12
  {
    Two(id) + Two(flags) + Two(questions) + Two(answers) + Two(authority) + Two(extra)
  }

  /** An entry whose name is the labels `ls`, written out. */
  predicate Spelt(e: Entry, ls: seq<Label>) {
    Formed(e) && GoodName(ls) && |Wire(ls)| < 256 && e.name == Wire(ls) + [0]
  }

  predicate AllSpelt(es: seq<Entry>, names: seq<seq<Label>>) {
    |es| == |names| && forall i | 0 <= i < |es| :: Spelt(es[i], names[i])
  }

  function EntriesBytes(es: seq<Entry>): seq<byte>
    requires forall i | 0 <= i < |es| :: Formed(es[i])
  {
    if es == [] then [] else EntryBytes(es[0]) + EntriesBytes(es[1..])
  }

  function Texts(names: seq<seq<Label>>): seq<seq<byte>> {
    if names == [] then [] else [NameText(names[0])] + Texts(names[1..])
  }

  lemma EntrySize(e: Entry)
    requires Formed(e)
    ensures |EntryBytes(e)| == Size(e)
  {
  }

  /** A name written out is found as it is, wherever it stands. */
  lemma SpeltPlaced(msg: seq<byte>, pos: nat, e: Entry, ls: seq<Label>)
    requires Spelt(e, ls) && Stands(msg, pos, EntryBytes(e))
    ensures Placed(msg, pos, e) && NameOf(msg, pos) == NameText(ls)
  {
    var rest := EntryBytes(e)[|e.name|..];
    assert EntryBytes(e) == e.name + rest;
    hide Wire, GoodName, Segment, Stands, NameText, EntryBytes;
    StandsParts(msg, pos, e.name, rest);
    SegmentOfWire(ls, msg, pos);
    assert Chained(msg, pos, 0) && AllLabelled(msg, pos, 0);
    OneName(msg, pos, ls);
  }

  lemma OneName(msg: seq<byte>, pos: nat, ls: seq<Label>)
    requires Segment(msg, pos) == End(ls, |Wire(ls)| + 1) && Chained(msg, pos, 0)
    ensures NameOf(msg, pos) == NameText(ls)
  {
    hide Segment, NameText, Wire;
    forall hops: nat | Chained(msg, pos, hops) ensures Expanded(msg, pos, hops) == ls {
    }
  }

  lemma {:induction false} SpeltLaid(msg: seq<byte>, pos: nat, es: seq<Entry>, names: seq<seq<Label>>)
    requires AllSpelt(es, names) && Stands(msg, pos, EntriesBytes(es))
    ensures Laid(msg, pos, es) && Names(msg, pos, es) == Texts(names) && |EntriesBytes(es)| == SizeAll(es)
    decreases |es|
  {
    hide Placed, NameOf, NameText, Spelt, EntryBytes, Stands, Size;
    if es != [] {
      forall i | 0 <= i < |es| ensures Formed(es[i]) { EntryFormed(es[i], names[i]); }
      EntryFormed(es[0], names[0]);
      StandsParts(msg, pos, EntryBytes(es[0]), EntriesBytes(es[1..]));
      SpeltPlaced(msg, pos, es[0], names[0]);
      SpeltLaid(msg, pos + Size(es[0]), es[1..], names[1..]);
    }
  }

  lemma EntryFormed(e: Entry, ls: seq<Label>)
    requires Spelt(e, ls)
    ensures Formed(e) && |EntryBytes(e)| == Size(e)
  {
    EntrySize(e);
  }

  lemma HeaderWords(id: nat, flags: nat, a: nat, b: nat, c: nat, d: nat, body: seq<byte>)
    requires id < 0x1_0000 && flags < 0x1_0000 && a < 0x1_0000 && b < 0x1_0000 && c < 0x1_0000 && d < 0x1_0000
    ensures var msg := Header(id, flags, a, b, c, d) + body;
      Word(msg, 4) == a && Word(msg, 6) == b && Word(msg, 8) == c && Word(msg, 10) == d && Stands(msg, 12, body)
  {
  }

  /** PrintResponse on a message with any header, questions and records: it stops at each entry, prints each name, and
      ends where the message ends. */
  method PrintSpelt(id: nat, flags: nat, questions: nat, answers: nat, authority: nat, extra: nat, es: seq<Entry>,
                    names: seq<seq<Label>>, tail: seq<byte>) returns (c: Trace)
    requires id < 0x1_0000 && flags < 0x1_0000 && questions < 0x1_0000 && answers < 0x1_0000
    requires authority < 0x1_0000 && extra < 0x1_0000
    requires AllSpelt(es, names) && |es| == questions + answers + authority + extra
    requires AllQuestions(es, questions) && AllRecords(es, questions)
    ensures c.current == 12 + SizeAll(es) && c.starts == Starts(12, es) && c.names == Texts(names)
  {
    hide Laid, Names, Header, SizeAll, Starts, Word, Stands, Spelt, EntryBytes, Texts;
    forall i | 0 <= i < |es| ensures Formed(es[i]) { EntryFormed(es[i], names[i]); }
    var head, body := Header(id, flags, questions, answers, authority, extra), EntriesBytes(es);
    var msg := head + body;
    HeaderWords(id, flags, questions, answers, authority, extra, body);
    SpeltLaid(msg, 12, es, names);
    var t := msg + tail;
    assert t[..|msg|] == msg;
    c := PrintResponse(t, |msg|, es);
  }
}
