/** unzlocal_SearchCentralDir: the end-of-central-directory record, looked for backwards in blocks. */
module CentralDir {
  import opened Bits

  const BUFREADCOMMENT: nat := 0x400
  /** How far back the search goes. */
  const MAXBACK: nat := 0xffff

  /** The record's signature stands at `p`. */
  predicate Signature(file: seq<byte>, p: nat) {
    p + 4 <= |file| && file[p] == 0x50 && file[p + 1] == 0x4b && file[p + 2] == 0x05 && file[p + 3] == 0x06
  }

  /** Four bytes, lowest first. */
  function Number(a: nat, b: nat, c: nat, d: nat): nat {
    a + 0x100 * b + 0x1_0000 * c + 0x100_0000 * d
  }

  /** It is the number 0x06054b50, lowest byte first. */
  lemma SignatureIs(file: seq<byte>, p: nat)
    ensures p + 4 <= |file| ==>
      (Signature(file, p) <==> Number(file[p], file[p + 1], file[p + 2], file[p + 3]) == 0x0605_4b50)
    ensures p + 4 > |file| ==> !Signature(file, p)
  {
  }

  function Back(file: seq<byte>): (b: nat)
    ensures b <= |file|
  {
    if MAXBACK > |file| then |file| else MAXBACK
  }

  /** The plain search: the last place from `lo` on, looking from `p - 1` down. */
  function LastFrom(file: seq<byte>, lo: nat, p: nat): int
    decreases p
  {
    if p <= lo then -1 else if Signature(file, p - 1) then p - 1 else LastFrom(file, lo, p - 1)
  }

  /** What the search is for.  The answer 0 also stands for nothing found. */
  function Search(file: seq<byte>): nat {
    var last := LastFrom(file, |file| - Back(file), |file|);
    if last > 0 then last else 0
  }

  lemma {:induction false} LastFromIs(file: seq<byte>, lo: nat, p: nat, r: int)
    requires if r < 0 then r == -1 else lo <= r < p && Signature(file, r)
    requires forall i: nat | lo <= i < p && i > r :: !Signature(file, i)
    ensures LastFrom(file, lo, p) == r
    decreases p
  {
    if p > lo && r != p - 1 { LastFromIs(file, lo, p - 1, r); }
  }

  lemma {:induction false} LastFromHas(file: seq<byte>, lo: nat, p: nat)
    ensures var r := LastFrom(file, lo, p); if r < 0 then r == -1 else lo <= r < p && Signature(file, r)
    ensures forall i: nat | lo <= i < p && i > LastFrom(file, lo, p) :: !Signature(file, i)
    decreases p
  {
    if p > lo && !Signature(file, p - 1) { LastFromHas(file, lo, p - 1); }
  }

  /** A record is found exactly when it is the last, not at the start of the file and no more than 65535 bytes from
      its end. */
  lemma FoundIff(file: seq<byte>, p: nat)
    requires p > 0
    ensures Search(file) == p <==>
      Signature(file, p) && (forall i: nat | i > p :: !Signature(file, i)) && |file| - p <= MAXBACK
  {
    var lo := |file| - Back(file);
    LastFromHas(file, lo, |file|);
    if Signature(file, p) && (forall i: nat | i > p :: !Signature(file, i)) && |file| - p <= MAXBACK {
      LastFromIs(file, lo, |file|, p);
    }
  }

  /** Nothing is found exactly when there is no such record. */
  lemma NotFoundIff(file: seq<byte>)
    ensures Search(file) == 0 <==> forall p: nat | 0 < p && |file| - p <= MAXBACK :: !Signature(file, p)
  {
    LastFromHas(file, |file| - Back(file), |file|);
  }

  const SIGNATURE: seq<byte> := [0x50, 0x4b, 0x05, 0x06]

  /** An archive of `before` bytes, a record of 22 and a comment, all zero but for the signature. */
  function Archive(before: nat, comment: nat): seq<byte> {
    seq(before, _ => 0) + SIGNATURE + seq(18 + comment, _ => 0)
  }

  lemma ArchiveSignature(before: nat, comment: nat, p: nat)
    ensures Signature(Archive(before, comment), p) <==> p == before
  {
    var file := Archive(before, comment);
    assert file[before] == 0x50 && file[before + 1] == 0x4b && file[before + 2] == 0x05 && file[before + 3] == 0x06;
    assert forall i: nat | i < |file| && !(before <= i < before + 4) :: file[i] == 0;
  }

  /** Its record is found exactly when the comment takes no more than 65513 bytes and the record is not at the start:
      an archive whose comment has the greatest length that fits its field is not read. */
  lemma ArchiveFound(before: nat, comment: nat)
    ensures Search(Archive(before, comment)) == if comment <= 65513 then before else 0
  {
    hide Search, Archive, Signature;
    assert |Archive(before, comment)| == before + 22 + comment by { ArchiveSize(before, comment); }
    forall p: nat ensures Signature(Archive(before, comment), p) <==> p == before {
      ArchiveSignature(before, comment, p);
    }
    if before > 0 { FoundIff(Archive(before, comment), before); }
    NotFoundIff(Archive(before, comment));
  }

  lemma ArchiveSize(before: nat, comment: nat)
    ensures |Archive(before, comment)| == before + 22 + comment
  {
  }

  /** With a comment of 65514 bytes, and with the record at offset 0, nothing is found. */
  lemma MissedRecords()
    ensures Signature(Archive(1, 65514), 1) && Search(Archive(1, 65514)) == 0
    ensures Signature(Archive(0, 0), 0) && Search(Archive(0, 0)) == 0
  {
    ArchiveSignature(1, 65514, 1);
    ArchiveFound(1, 65514);
    ArchiveSignature(0, 0, 0);
    ArchiveFound(0, 0);
  }

  /** The last signature in one block. */
  method ScanBlock(buf: seq<byte>) returns (i: int)
    requires |buf| >= 4
    ensures -1 <= i <= |buf| - 4 && (i >= 0 ==> Signature(buf, i))
    ensures forall j: nat | j > i :: !Signature(buf, j)
  {
    i := |buf| - 3;
    while i > 0
      invariant 0 <= i <= |buf| - 3
      invariant forall j: nat | j >= i :: !Signature(buf, j)
    {
      i := i - 1;
      if buf[i] == 0x50 && buf[i + 1] == 0x4b && buf[i + 2] == 0x05 && buf[i + 3] == 0x06 {
        return;
      }
    }
    i := -1;
  }

  lemma InBlock(file: seq<byte>, pos: nat, n: nat, j: nat)
    requires pos + n <= |file| && j + 4 <= n
    ensures Signature(file[pos..pos + n], j) <==> Signature(file, pos + j)
  {
  }

  /** The blockwise search finds what the plain one does, except at the very start of the file: there
      the answer 0 is also the one for nothing found. */
  method SearchCentralDir(file: seq<byte>) returns (uPosFound: nat)
    ensures uPosFound == Search(file)
  {
    var uSizeFile := |file|;
    var uMaxBack := MAXBACK;
    if uMaxBack > uSizeFile { uMaxBack := uSizeFile; }
    uPosFound := 0;
    var uBackRead := 4;
    ghost var found := -1;
    while uBackRead < uMaxBack && uPosFound == 0
      invariant uBackRead == 4 || 4 < uBackRead <= uMaxBack
      invariant uPosFound == if found > 0 then found else 0
      invariant found < 0 ==> found == -1
      invariant found >= 0 ==> |file| - uBackRead <= found && Signature(file, found)
      invariant found == 0 ==> uBackRead == |file| == uMaxBack
      invariant forall p: nat | p > found && p >= |file| - uBackRead &&
        (p > |file| - 4 || uBackRead > 4) :: !Signature(file, p)
      decreases uMaxBack - uBackRead
    {
      ghost var was := uBackRead;
      uBackRead := if uBackRead + BUFREADCOMMENT > uMaxBack then uMaxBack else uBackRead + BUFREADCOMMENT;
      var uReadPos := uSizeFile - uBackRead;
      var uReadSize := if BUFREADCOMMENT + 4 < uSizeFile - uReadPos then BUFREADCOMMENT + 4 else uSizeFile - uReadPos;
      var i := ScanBlock(file[uReadPos..uReadPos + uReadSize]);
      if i >= 0 {
        InBlock(file, uReadPos, uReadSize, i);
        found := uReadPos + i;
        uPosFound := uReadPos + i;
      }
      forall p: nat | p > found && p >= |file| - uBackRead ensures !Signature(file, p) {
        if p <= uReadPos + uReadSize - 4 { InBlock(file, uReadPos, uReadSize, p - uReadPos); }
      }
    }
    LastOf(file, uMaxBack, found, uBackRead);
  }

  lemma LastOf(file: seq<byte>, back: nat, found: int, read: nat)
    requires back == Back(file) && 4 <= read && (read == 4 || read <= back)
    requires if found < 0 then found == -1 && read >= back
             else |file| - read <= found && Signature(file, found) && read <= back
    requires forall p: nat | p > found && p >= |file| - read && (p > |file| - 4 || read > 4) :: !Signature(file, p)
    ensures Search(file) == if found > 0 then found else 0
  {
    if back > 4 || found >= 0 {
      LastFromIs(file, |file| - back, |file|, found);
    } else {
      SmallFile(file);
    }
  }

  /** A file of no more than four bytes has room for a signature at its start only. */
  lemma SmallFile(file: seq<byte>)
    requires |file| <= 4
    ensures LastFrom(file, 0, |file|) <= 0
  {
    if |file| == 4 { NoneIn(file, 4); } else { NoneIn(file, |file|); }
  }

  lemma {:induction false} NoneIn(file: seq<byte>, p: nat)
    requires |file| <= 4
    ensures LastFrom(file, 0, p) <= 0
  {
    if p > 0 && !Signature(file, p - 1) { NoneIn(file, p - 1); }
  }
}
