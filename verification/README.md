# Verification of the inflate decoder, archive reader and DNS codec

This project models three parts of the repository and proves what they are for.

**The DEFLATE decoder of `XUnzip.cpp`** (zlib 1.1.3 inflate). `huft_build` turns code lengths into multi-level
tables in one shared array; `inflate_blocks` and `inflate_codes` are two nested state machines that stop at any missing
input byte or output slot and go on later; `inflate_fast` decodes without checks while there is plenty of both; a 32K
ring buffer is history and output queue at once. Module `Reference` is a one-shot decoder written from RFC 1951, on
sequences, with `Huffman.Decode` for the canonical codes of section 3.2.2. Every step of the machines keeps what
the reference decoder makes of the whole stream constant (`Goal`), so the end-to-end theorem
`InflateStream.AnyCaller` holds for every way of dealing out input and room.

An encoder, written from the same document without tables, turns literals and matches into streams of all three kinds of block,
with any code lengths and any way of sending them; `Streams.InflateDecodes` says that they come back. `BadStreams` says what is
found bad.

**Around it**: the two checksums, the entry reader and the search for the end-of-central-directory record.

**The DNS codec and address rewriting of DNSPing**: the name encoder and decoder, the printing of compressed names, the
cursor over a response, and the IPv4 text normaliser.

| files | what they hold |
|---|---|
| `Bits`, `Huffman`, `Reference` | bit streams, canonical codes, the reference decoder |
| `HuftTables`, `HuftGrow`, `HuftFill`, `HuftCodes`, `HuftLengths`, `HuftBuild` | `huft_build` |
| `HuftDecode`, `HuftLookup`, `HuftNarrow`, `HuftSpace`, `HuftRoom`, `InflateTrees` | what its tables decode, which code sets they are right for, and how much space they take |
| `Status`, `BitReader`, `Window`, `OutWindow` | status values, the bit buffer and the ring |
| `CodesTrees`, `CodesMeaning`, `CodesEntries`, `InflateFast`, `InflateCodes` | literals and matches |
| `BlocksMeaning`, `InflateBlocks`, `InflateStream`, `StrayExample` | block headers, blocks, `inflate` and its callers |
| `BitWriter`, `Tokens`, `Encoder`, `FixedCode`, `HeaderCode`, `Streams`, `StreamExamples`, `BadStreams` | the encoder, round trips, and faults |
| `Crc32`, `CrcPoly`, `Adler32`, `Reader`, `CentralDir` | checksums and archive |
| `DnsName`, `DnsDecode`, `DnsPrint`, `DnsExpand`, `DnsPointers`, `DnsLabelled`, `DnsResponse`, `DnsMessage`, `Ipv4`, `Ipv4Address` | DNSPing |

## How the model reads the code

- The compressed stream is one sequence; `next_in` is a position in it and `avail_in` says how much of it the caller has made
  known. `WASH` steps the input pointer back by a byte it has taken before (line 1349). The ghost fields `base` and `stray`
  of `ZStream` say where the caller's present buffer starts and whether the decoder has gone on to another block after a
  step that left it. Behind the last block no input is taken, so there the step does no harm.
- `Bits.Take(inp, i, m)` is the number that `m` stream bits make, lowest first. The bit buffer may hold stale bits above
  `bitk` after bytes were handed back; the ghost field `held` says how many, and or-ing the same bytes in again changes
  nothing (`Bits.OrRefill`).
- The window comes from `calloc` (line 2444), so a match that reaches back before the start of the output copies zero
  bytes, and the reference decoder does the same (`Reference.Back`).
- A stream has to be followed by one more byte for the end to be reached, as lines 3645-3651 say: the decoder looks as
  many bits ahead as the table's index is wide. `Tidy` is that condition. Everything else holds without it.

## What turned out not to hold as promised

- `huft_build` is not right for every code set. A code may lie below a table boundary and run past the next one; then
  the new table has more than 2^l entries, all of which its link reaches, but only the first 2^l are ever written.
  `WideExample` is such a set of five codes. `ReadsOnlyWritten` and `EveryEntryWritten` say when it happens: exactly if
  some code is `Wide`. The three callers never meet the case (`NarrowByDepth`, `NarrowByCount`, `TreesBits`, `TreesDynamic`).
- The search for the central directory goes back 65535 bytes, called the greatest comment length in line 3081, but the
  record itself takes 22 bytes before its comment; and the answer 0 also stands for nothing found. A record is found
  exactly if it is the last, not at offset 0 and no more than 65535 bytes from the end of the file (`FoundIff`), so not
  behind a comment of more than 65513 bytes (`ArchiveFound`, `MissedRecords`).
- The loop that copies a stored entry ends exactly if there are bytes enough for what is asked for or the archive breaks
  off before the size it promises, so that a fetch fails (`StoredEndsIff`). `StoredEndless` is an entry for which it goes
  on for ever.
- A byte cannot always be returned, as line 1349 says it can: the reader has one buffer, and a byte taken before it was
  refilled is there no more. The decoder then points `next_in` in front of the buffer and reads the next block from
  there. In the terms of the reference decoder (`ends` of its outcome), that happens in a call exactly if a compressed
  block that is not the last is done in it and ends a byte or more before the buffer that the call starts with
  (`Strayed`, in `StepCodes`, `Run`, `Inflate` and `ReadCurrentFile`). `Straying` is such a run: the decoder
  stops for room with 14 bits in hand, the buffer is refilled, and the block ends in two of them. When the decoder
  stops for lack of input instead, no such block can follow (`Waiting`), and none ends more than a byte early
  (`EndsAhead`). So an entry comes out right if it fits the buffer, or is read by one call, or no compressed block but
  the last ends in the last byte but one of a full buffer (`Calm`, `CutsBuffer`, in `AnyReader`).
- `Truncated` is zero both for a name without a pointer and for a pointer to offset 0, so the length returned for
  the latter is one too large (`ReturnsSize`, exactly then; `PointerToStart`).
- A compressed name is printed right exactly if a label stands wherever one of its pointers leads (`PrintsRightIff`). A
  pointer to a mere pointer adds a dot (`TwoDots`), and a pointer to the root prints what lies behind the root
  (`PointerToRoot`). Pointers in a ring are followed for ever (`EndsIffNoRing`).
- The cursor passes over the name of a question by its first zero byte, which is right exactly if the name is not compressed or
  the low byte of its pointer is zero (`QuestionAdvance`, `CompressedQuestion`).
- The IPv4 rewriting leaves an empty first group empty: the first group of the result is a decimal exactly if the address
  does not start with a dot (`NormaliseMeans`, `EmptyFirstGroup`).

## Model

| member | source | states |
|---|---|---|
| InflateStream.AnyCaller | code/third/duilib/src/Utils/XUnzip.cpp:1477-1718 | for every input and every schedule of input and room, what is delivered is a prefix of the reference output, all of it at Z_STREAM_END; errors only for bad streams; with a byte after the stream, all input and room enough, the end is reached |
| Streams.InflateDecodes | code/third/duilib/src/Utils/XUnzip.cpp:1477-1718 | stored, fixed and dynamic blocks of any contents, encoded, with a byte behind them, come out of `inflate` as the bytes they stand for, with Z_STREAM_END, for every schedule of input and room that gives enough of both |
| Streams.ReferenceDecodes | code/third/duilib/src/Utils/XUnzip.cpp:1477-1718 | the reference decoder undoes the encoder, whatever comes behind, and ends right behind the last bit |
| Tokens.LenTable | code/third/duilib/src/Utils/XUnzip.cpp:1762-1768 | the length symbol and its extra bits are those computed with shifts, four symbols for each number of bits, and 258 alone |
| Tokens.DistTable | code/third/duilib/src/Utils/XUnzip.cpp:1769-1776 | the same for distances, two symbols for each number of bits |
| Tokens.CopyMatches | code/third/duilib/src/Utils/XUnzip.cpp:1324-1337 | a match is the last `dist` bytes over and over |
| Encoder.ReadBody | code/third/duilib/src/Utils/XUnzip.cpp:1210-1365 | tokens sent by any two canonical codes that cover them are read back as the bytes they mean |
| FixedCode.LitSends | code/third/duilib/src/Utils/XUnzip.cpp:2101-2112 | the fixed literal code words are the four ranges of section 3.2.6 |
| FixedCode.DistSends | code/third/duilib/src/Utils/XUnzip.cpp:2101-2112 | the fixed distance words are the numbers 0 to 29 in five bits |
| HeaderCode.OrderTable | code/third/duilib/src/Utils/XUnzip.cpp:1383-1385 | the order of the code length code lengths: 16, 17, 18, 0, then outwards from 8 |
| HeaderCode.OrderEach | code/third/duilib/src/Utils/XUnzip.cpp:1383-1385 | each symbol has its place in it |
| HeaderCode.ReadHeader | code/third/duilib/src/Utils/XUnzip.cpp:1570-1686 | a header that sends code lengths by any runs and any code for them is read back, and the codes follow |
| StreamExamples.FourLetters | code/third/duilib/src/Utils/XUnzip.cpp:2101-2112 | 4b 04 02 00 is the encoding of a letter and a match, and says "aaaa" |
| StreamExamples.TwoSymbolsOK | code/third/duilib/src/Utils/XUnzip.cpp:1570-1686 | a dynamic block that the encoder takes |
| BadStreams.BadKind | code/third/duilib/src/Utils/XUnzip.cpp:1531-1536 | a fourth kind of block is bad |
| BadStreams.BadComplement | code/third/duilib/src/Utils/XUnzip.cpp:1541-1547 | so is a stored length without its complement |
| BadStreams.BadSizes | code/third/duilib/src/Utils/XUnzip.cpp:1574-1580 | so are more than 286 or 30 symbols |
| BadStreams.BadClens | code/third/duilib/src/Utils/XUnzip.cpp:1603-1611 | so is a code length code that cannot be decoded |
| BadStreams.BadRun | code/third/duilib/src/Utils/XUnzip.cpp:1642-1650 | so is a run past the last length, or a repeat before the first |
| BadStreams.BadTrees | code/third/duilib/src/Utils/XUnzip.cpp:1665-1676 | so are two alphabets that cannot both be decoded |
| BadStreams.BadLength | code/third/duilib/src/Utils/XUnzip.cpp:1766-1768 | symbols 286 and 287 are bad |
| BadStreams.BadDistance | code/third/duilib/src/Utils/XUnzip.cpp:2101-2112 | distance symbols 30 and 31 are bad |
| InflateStream.InflateState.Inflate | code/third/duilib/src/Utils/XUnzip.cpp:2595-2715 | one call: output stays a prefix of the reference's, Z_STREAM_END exactly at the end with the byte position right behind the stream, Z_DATA_ERROR only for corrupt input, otherwise it stopped for lack of input, with no block's end a byte or more behind it, or of room; it strays exactly if a block done in it ends a byte or more before the buffer |
| InflateStream.InflateState.EndsAhead | code/third/duilib/src/Utils/XUnzip.cpp:1343-1350 | a compressed block still to be finished, the last left out, ends in the last byte but one of what was taken, or later |
| InflateBlocks.BlocksState.Run | code/third/duilib/src/Utils/XUnzip.cpp:1477-1718 | whatever the reference makes of the whole stream is the same after the call as before, from any state the machine can stop in; Z_MEM_ERROR only for corrupt streams |
| InflateBlocks.BlocksState.StepType | code/third/duilib/src/Utils/XUnzip.cpp:1493-1538 | block type: keeps the reference outcome, loses no bits when it stops |
| InflateBlocks.BlocksState.StepLens | code/third/duilib/src/Utils/XUnzip.cpp:1539-1552 | stored length and its complement |
| InflateBlocks.BlocksState.StepStored | code/third/duilib/src/Utils/XUnzip.cpp:1553-1569 | copies as much of a stored block as input and room allow |
| InflateBlocks.BlocksState.StepTable | code/third/duilib/src/Utils/XUnzip.cpp:1570-1591 | table sizes, with more than 286 or 30 symbols rejected |
| InflateBlocks.BlocksState.StepBtree | code/third/duilib/src/Utils/XUnzip.cpp:1592-1614 | code length code, in the order of section 3.2.7 |
| InflateBlocks.BlocksState.StepDtree | code/third/duilib/src/Utils/XUnzip.cpp:1615-1686 | run-length coded lengths as one list over both alphabets, and the two trees |
| InflateBlocks.BlocksState.StepRun | code/third/duilib/src/Utils/XUnzip.cpp:1632-1656 | codes 16, 17 and 18: rejected iff the run overshoots or 16 comes first; nothing is dropped before all its bits are there |
| InflateBlocks.BlocksState.StepCodes | code/third/duilib/src/Utils/XUnzip.cpp:1687-1702 | the codes machine inside a block, and the step to the next one: it strays exactly if the block, not the last, ends a byte or more before the buffer |
| InflateBlocks.BlocksState.CodesDone | code/third/duilib/src/Utils/XUnzip.cpp:1689-1702 | where the block's last byte ends there `next_in` is; before the buffer exactly if the end is a byte or more before it |
| StrayExample.Straying | code/third/duilib/src/Utils/XUnzip.cpp:1343-1350 | a run that ends with `next_in` one byte in front of the caller's buffer |
| StrayExample.EndNext | code/third/duilib/src/Utils/XUnzip.cpp:1343-1350 | in it, the end of the block stands next, in two bits, while 14 are in hand |
| BlocksMeaning.ClenLookup | code/third/duilib/src/Utils/XUnzip.cpp:1622-1631 | one look-up in the single code-length table yields the code length symbol and its length, the lone one-bit code included |
| BlocksMeaning.LensRun | code/third/duilib/src/Utils/XUnzip.cpp:1634-1655 | the reference's reading of a run, by the repeat count and value of the code |
| InflateCodes.CodesState.Run | code/third/duilib/src/Utils/XUnzip.cpp:1210-1365 | the rest of the block as the reference sees it is constant; why the machine stopped; without input or room enough it changes nothing |
| InflateCodes.CodesState.StepLen | code/third/duilib/src/Utils/XUnzip.cpp:1247-1284 | literal/length look-up, one table a turn |
| InflateCodes.CodesState.StepDist | code/third/duilib/src/Utils/XUnzip.cpp:1294-1316 | distance look-up |
| InflateCodes.CodesState.StepCopy | code/third/duilib/src/Utils/XUnzip.cpp:1324-1337 | the copy appends each byte from `dist` back, across the window's end, overlapping itself, stopped and resumed |
| InflateCodes.CodesState.StepWash | code/third/duilib/src/Utils/XUnzip.cpp:1343-1354 | hands one unused byte back, after which the byte position is right behind the last bit used, and drains the window |
| CodesMeaning.NoRoom | code/third/duilib/src/Utils/XUnzip.cpp:3645-3651 | when all input is used and a look-up still lacks bits, the stream has no whole byte behind it |
| InflateFast.InflateFast | code/third/duilib/src/Utils/XUnzip.cpp:2137-2279 | entered with room for 258 bytes and 10 bytes of input: same output, position and verdict as the reference; never reads past the input or writes past the room; unused bytes go back |
| InflateFast.FastCopy | code/third/duilib/src/Utils/XUnzip.cpp:2203-2226 | the unrolled two-part copy is the sequence rule |
| BitReader.BitBuffer.Need | code/third/duilib/src/Utils/XUnzip.cpp:894-895 | the position in bits does not move; short only if the known input is used up |
| BitReader.BitBuffer.Dump | code/third/duilib/src/Utils/XUnzip.cpp:896 | the position moves by what is dumped |
| BitReader.BitBuffer.GiveBack | code/third/duilib/src/Utils/XUnzip.cpp:2130 | handing bytes back moves the byte position, not the bit position |
| Bits.OrRefill | code/third/duilib/src/Utils/XUnzip.cpp:895 | or-ing a byte in over stale bits of the same byte gives the stream bits |
| BitReader.ShiftFits | code/third/duilib/src/Utils/XUnzip.cpp:895 | a byte shifted by at most 24 fits the 32-bit buffer |
| Window.PutByte | code/third/duilib/src/Utils/XUnzip.cpp:903 | a byte written while there is room keeps FIFO and history |
| Window.EmptyIff | code/third/duilib/src/Utils/XUnzip.cpp:898-903 | the pointers meet exactly if everything was sent |
| Window.Segment | code/third/duilib/src/Utils/XUnzip.cpp:1082-1106 | what is read out up to the window's end is the next unsent output |
| Window.SourceSlot | code/third/duilib/src/Utils/XUnzip.cpp:1325-1327 | for every distance up to 32768 the source is in the window and holds the byte that far back |
| OutWindow.Output.Flush | code/third/duilib/src/Utils/XUnzip.cpp:1072-1135 | sends the next bytes in order, all of them or as many as there is room for |
| OutWindow.Output.Need | code/third/duilib/src/Utils/XUnzip.cpp:899-902 | makes room, or window and caller are full |
| HuftBuild.BuildTables | code/third/duilib/src/Utils/XUnzip.cpp:1814-2012 | status by the Kraft sum, index width, finished tables (`Built`) with the memory outside them kept, and what running out of space means |
| HuftBuild.Survey | code/third/duilib/src/Utils/XUnzip.cpp:1853-1894 | Z_DATA_ERROR iff the Kraft sum exceeds one; the last count is topped up to a full set; `y` is non-zero iff the sum is below one |
| HuftLengths.Missing | code/third/duilib/src/Utils/XUnzip.cpp:1889-1893 | the running `y` ends as 2^g less the weighted counts |
| HuftLengths.KraftDecides | code/third/duilib/src/Utils/XUnzip.cpp:1888-1894 | the Kraft sum against one is the end of the last code against 2^g |
| HuftLengths.SortSymbols | code/third/duilib/src/Utils/XUnzip.cpp:1897-1911 | the values are sorted by length, then by symbol, and each stands once |
| HuftBuild.OpenTables | code/third/duilib/src/Utils/XUnzip.cpp:1931-1971 | opens tables down to the code's level; links go only into entries not written before |
| HuftBuild.PlaceCode | code/third/duilib/src/Utils/XUnzip.cpp:1927-2006 | one code placed, the next one ready; no entry is written twice |
| HuftBuild.EnterCode | code/third/duilib/src/Utils/XUnzip.cpp:1973-1991 | the code's entries, none of which was written before |
| HuftCodes.FitTable | code/third/duilib/src/Utils/XUnzip.cpp:1936-1951 | the size chosen: all codes in the subtree end there or the table has full width; no smaller one would do |
| HuftCodes.FillEntries | code/third/duilib/src/Utils/XUnzip.cpp:1988-1991 | exactly the entries that agree with the code are written |
| HuftCodes.NextCode | code/third/duilib/src/Utils/XUnzip.cpp:1993-1996 | the backwards increment is the next code in canonical order |
| HuftBuild.BackUp | code/third/duilib/src/Utils/XUnzip.cpp:1998-2005 | stops at an open table, with `h` not below zero, that the next code belongs to |
| HuftBuild.PlaceCodes | code/third/duilib/src/Utils/XUnzip.cpp:1914-2007 | all codes placed in canonical order into finished tables, or the tables cannot fit in the space |
| HuftGrow.OpenValid | code/third/duilib/src/Utils/XUnzip.cpp:1953-1968 | opening a table keeps memory right and puts the link into an empty entry |
| HuftLookup.LookupDecodes | code/third/duilib/src/Utils/XUnzip.cpp:1248-1274 | walking finished tables on any bits finds exactly the symbol whose canonical code is next and dumps exactly its length; a dummy only where no code is next; it lacks bits only where fewer are left than the longest code has |
| HuftLookup.LookupFromRoot | code/third/duilib/src/Utils/XUnzip.cpp:1244-1274 | the same from the first table on, at any position of the stream |
| HuftLookup.EveryEntryWritten | code/third/duilib/src/Utils/XUnzip.cpp:1954-1991 | every entry of every table is written iff no code runs past a table boundary |
| HuftLookup.ReadsOnlyWritten | code/third/duilib/src/Utils/XUnzip.cpp:1936-1968 | the walk never reads an unwritten entry, whatever the stream, iff no code runs past a table boundary |
| HuftLookup.Misread | code/third/duilib/src/Utils/XUnzip.cpp:1939-1968 | with such a code, a stream that makes the walk read old memory |
| HuftNarrow.WideExample | code/third/duilib/src/Utils/XUnzip.cpp:1939-1951 | a full set of five lengths with such a code |
| HuftNarrow.NarrowByCount | code/third/duilib/src/Utils/XUnzip.cpp:1939-1951 | a full set of fewer than 2^(l+1) symbols has none |
| HuftNarrow.NarrowByDepth | code/third/duilib/src/Utils/XUnzip.cpp:1931-1934 | nor has a set whose longest code takes at most two levels |
| HuftSpace.RankGap | code/third/duilib/src/Utils/XUnzip.cpp:1936-1957 | how many codes stand between two codes that start a given distance apart |
| HuftSpace.SpaceOpen | code/third/duilib/src/Utils/XUnzip.cpp:1953-1957 | the account of table space survives each new table |
| HuftRoom.LitRoom | code/third/duilib/src/Utils/XUnzip.cpp:1954-1957 | literal/length tables of a full set take at most 1148 entries |
| HuftRoom.DistRoom | code/third/duilib/src/Utils/XUnzip.cpp:1954-1957 | distance tables of a full set take at most 226 entries: with the 1148 never more than 1374 of the 1440, where lines 745-749 say that the maximum is not known |
| InflateTrees.NeverOverfull | code/third/duilib/src/Utils/XUnzip.cpp:740-750 | code sets that are accepted never run out of table space |
| InflateTrees.TreesBits | code/third/duilib/src/Utils/XUnzip.cpp:2015-2039 | Z_OK iff the set is full, or one single one-bit code; then a single table |
| InflateTrees.TreesDynamic | code/third/duilib/src/Utils/XUnzip.cpp:2042-2095 | Z_OK iff both sets can be decoded; then two right trees in one array |
| InflateTrees.TreesFixed | code/third/duilib/src/Utils/XUnzip.cpp:2101-2112 | trees for the fixed codes |
| InflateTrees.FixedCodes | code/third/duilib/src/Utils/XUnzip.cpp:2101-2112 | the fixed literal code is full, the distance code lacks two words |
| Huffman.DecodeIsCode | code/third/duilib/src/Utils/XUnzip.cpp:1779-1808 | the reference look-up finds exactly the symbol whose RFC code stands next |
| Crc32.Ucrc32 | code/third/duilib/src/Utils/XUnzip.cpp:2357-2368 | the unrolled table form is the bit-at-a-time CRC, for every buffer |
| Crc32.ByteStep | code/third/duilib/src/Utils/XUnzip.cpp:2357 | one table look-up is eight bit steps |
| Crc32.CrcConcat | code/third/duilib/src/Utils/XUnzip.cpp:2362-2368 | the checksum of a concatenation from the checksum of its first part |
| Crc32.RegisterFits | code/third/duilib/src/Utils/XUnzip.cpp:2362-2368 | the register keeps to 32 bits |
| CrcPoly.CrcIsRemainder | code/third/duilib/src/Utils/XUnzip.cpp:2357-2368 | read backwards and inverted, the checksum is the remainder, over the two-element field, of the message 32 places up with its first bits inverted; the generator is given by its exponents |
| CrcPoly.OneRemainder | code/third/duilib/src/Utils/XUnzip.cpp:2357-2368 | there is only one remainder |
| CrcPoly.Reflected | code/third/duilib/src/Utils/XUnzip.cpp:2324 | the table's polynomial, read backwards, is the generator |
| CrcPoly.Entry128 | code/third/duilib/src/Utils/XUnzip.cpp:2324 | the entry 128 of the table |
| CrcPoly.OneByte | code/third/duilib/src/Utils/XUnzip.cpp:2357-2368 | the checksum of the byte 7f |
| Adler32.AdlerIs | code/third/duilib/src/Utils/XUnzip.cpp:2389-2413 | low half: the sum of the bytes and the start; high half: each byte as often as there are bytes from it on; both modulo 65521 |
| Adler32.AdlerNothing | code/third/duilib/src/Utils/XUnzip.cpp:2389-2413 | without bytes the checksum stays as it was |
| Adler32.AdlerExample | code/third/duilib/src/Utils/XUnzip.cpp:2389-2413 | the checksum of "abc" |
| Adler32.ComputeAdler32 | code/third/duilib/src/Utils/XUnzip.cpp:2389-2413 | in 32-bit arithmetic, with the reductions put off, the per-byte definition |
| Adler32.RawFits | code/third/duilib/src/Utils/XUnzip.cpp:2379-2380 | 5552 bytes without reduction stay below 2^32, from any two 16-bit sums |
| Adler32.RawIsReduced | code/third/duilib/src/Utils/XUnzip.cpp:2405-2410 | reducing once is reducing every time |
| Adler32.AdlerConcat | code/third/duilib/src/Utils/XUnzip.cpp:2389-2413 | the checksum can be taken in pieces |
| Reader.EntryReader.ReadCurrentFile | code/third/duilib/src/Utils/XUnzip.cpp:3677-3752 | delivered plus rest is the entry's size and the stored checksum is that of the delivered bytes; these are a prefix of the entry until the decoder strays, which a call does exactly if a block done in it ends a byte or more before the buffer it starts with; the first call does not, nor does any once one got less than it asked for, or all the rest; each call ends that `Ends` allows |
| Reader.EntryReader.Cutting | code/third/duilib/src/Utils/XUnzip.cpp:3697-3708 | decoding strays only where a block's end cuts a full read buffer |
| Reader.EntryReader.Fetch | code/third/duilib/src/Utils/XUnzip.cpp:3697-3708 | the bytes made known are those of the archive between the old position and the new one |
| Reader.EntryReader.ReadTurn | code/third/duilib/src/Utils/XUnzip.cpp:3696-3747 | one turn of the loop; for a stored entry it moves the counters as `Turn` does, or fails as it does |
| Reader.EntryReader.EndsIf | code/third/duilib/src/Utils/XUnzip.cpp:3696-3728 | whether a call on a stored entry ends, from the sizes in the header and of the archive |
| Reader.EntryReader.CloseCurrentFile | code/third/duilib/src/Utils/XUnzip.cpp:3839-3876 | UNZ_CRCERROR iff all was delivered and the checksum differs |
| Reader.AnyReader | code/third/duilib/src/Utils/XUnzip.cpp:3677-3752 | the same over every sequence of reads: byte i of a stored entry's output is byte start + i of the archive, and exactly what was asked for is delivered; of a deflated one a prefix of the reference output, and all that was asked for if a byte follows its compressed data, both as long as the decoder does not stray, which it cannot if the entry fits the buffer, or one call asks for all that is read of it, or no block but the last ends in the last byte but one of a full buffer |
| Reader.StoredEndsIff | code/third/duilib/src/Utils/XUnzip.cpp:3696-3728 | the copying loop ends iff there are bytes enough or a fetch fails |
| Reader.StoredEndless | code/third/duilib/src/Utils/XUnzip.cpp:3696-3728 | an entry with which it does not end |
| CentralDir.SearchCentralDir | code/third/duilib/src/Utils/XUnzip.cpp:3077-3107 | the blockwise search is the plain search for the last signature in the last 65535 bytes, with 0 for none |
| CentralDir.FoundIff | code/third/duilib/src/Utils/XUnzip.cpp:3077-3107 | p is found iff a signature stands there, none behind it, p is not 0 and the file ends no more than 65535 bytes behind it |
| CentralDir.NotFoundIff | code/third/duilib/src/Utils/XUnzip.cpp:3077-3107 | 0 is returned iff there is no such place |
| CentralDir.SignatureIs | code/third/duilib/src/Utils/XUnzip.cpp:3099 | the signature is 0x06054b50, lowest byte first |
| CentralDir.ArchiveFound | code/third/duilib/src/Utils/XUnzip.cpp:3081-3082 | the record before a comment is found iff the comment takes no more than 65513 bytes and the record is not at offset 0 |
| CentralDir.MissedRecords | code/third/duilib/src/Utils/XUnzip.cpp:3081-3103 | two archives whose records are not found |
| DnsName.CharToDNSQuery | code/third/DNSPing/Source/Protocol.cpp:900-924 | writes the labels with their lengths and a zero, nothing more, of a text cut at 256 characters; returns the place behind the first zero byte, which for good labels is the size of it |
| DnsName.LengthsCut | code/third/DNSPing/Source/Protocol.cpp:900-921 | a length is sent modulo 256, and a text is cut at 256 characters |
| DnsName.WireExample | code/third/DNSPing/Source/Protocol.cpp:900-924 | "a.bc" and the five bytes that are sent for it before the closing zero |
| DnsName.SplitText | code/third/DNSPing/Source/Protocol.cpp:909-921 | cutting a text at its dots gives its labels back |
| DnsDecode.DNSQueryToChar | code/third/DNSPing/Source/Protocol.cpp:927-967 | for every buffer: value, pointer and characters of the scan, the rest of the buffer still zero |
| DnsDecode.DecodeSegment | code/third/DNSPing/Source/Protocol.cpp:937-966 | on labels as RFC 1035 writes them: their text, the place of the closing zero, or the pointer and the place behind it, whatever lies behind the message |
| DnsDecode.SignedIs | code/third/DNSPing/Source/Protocol.cpp:950-956 | a character read as a number from -128 to 127 |
| DnsPointers.ReadRef | code/third/DNSPing/Source/Protocol.cpp:937-966 | labels and a pointer to any offset of 14 bits: the offset and the labels' text are returned, whatever comes behind |
| DnsPointers.PrintRef | code/third/DNSPing/Source/Resolver.cpp:1069-1120 | labels and a pointer to further labels are printed as one name, wherever in the message they stand |
| DnsDecode.RoundTrip | code/third/DNSPing/Source/Protocol.cpp:900-967 | a name of n <= 253 characters with labels of 1-63 bytes is sent in n + 2 bytes and comes back whole, with index n + 1 and no pointer |
| DnsDecode.DecodeWire | code/third/DNSPing/Source/Protocol.cpp:900-967 | decoding the wire form of labels gives their text |
| DnsPrint.PrintDomainName | code/third/DNSPing/Source/Resolver.cpp:1069-1120 | for every buffer on which the pointers come to an end: printed text and returned length |
| DnsPrint.RootIs | code/third/DNSPing/Source/Resolver.cpp:1073-1078 | the mark of an empty name |
| DnsExpand.PrintsExpanded | code/third/DNSPing/Source/Resolver.cpp:1086-1119 | a compressed name whose chain of pointers ends, each at a label, is printed as all its labels with dots between, within as many hops as it has pointers |
| DnsExpand.BackwardEnds | code/third/DNSPing/Source/Resolver.cpp:1099-1109 | pointers that lead strictly backwards come to an end |
| DnsExpand.EndsIffNoRing | code/third/DNSPing/Source/Resolver.cpp:1099-1109 | the pointer loop ends iff it does not enter a set of places that lead to one another |
| DnsExpand.ReturnsSize | code/third/DNSPing/Source/Resolver.cpp:1086-1120 | the returned length is the size on the wire iff the name does not end in a pointer to offset 0 |
| DnsLabelled.PrintsRightIff | code/third/DNSPing/Source/Resolver.cpp:1069-1120 | a name of well-formed segments whose pointers end is printed as all its labels iff a label stands wherever a pointer leads |
| DnsLabelled.NeverShort | code/third/DNSPing/Source/Resolver.cpp:1099-1109 | each place without a label makes the print longer than the name |
| DnsLabelled.PointerToRoot | code/third/DNSPing/Source/Resolver.cpp:1099-1109 | from a pointer to the root on, nothing is printed, or a text that starts with a dot; where labels lie behind the root, a dot and these labels |
| DnsExpand.PointerToItself | code/third/DNSPing/Source/Resolver.cpp:1099-1109 | a message of 14 bytes with a pointer that leads to itself, followed for ever |
| DnsLabelled.TwoDots | code/third/DNSPing/Source/Resolver.cpp:1099-1109 | a message whose name "a.b" is printed "a..b" |
| DnsExpand.PointerToStart | code/third/DNSPing/Source/Resolver.cpp:1086-1120 | a name of two bytes for which three are returned |
| DnsResponse.PrintResponse | code/third/DNSPing/Source/Resolver.cpp:152-286 | on a well-formed message the cursor visits the start of every entry of the four sections, each full name is printed, and the cursor ends at the message's end |
| DnsMessage.PrintSpelt | code/third/DNSPing/Source/Resolver.cpp:152-286 | a message built from six header words and any questions and records with names written out: every entry is met, every name printed, and the cursor ends at its end |
| DnsResponse.QuestionAdvance | code/third/DNSPing/Source/Resolver.cpp:182 | the advance over a question's name is right iff the name is not compressed or its pointer's low byte is zero |
| DnsResponse.CompressedQuestion | code/third/DNSPing/Source/Resolver.cpp:182 | a question of which a byte too many is passed over |
| DnsResponse.PrintRecord | code/third/DNSPing/Source/Resolver.cpp:249-281 | one record, as OPT record of the additional section or not: the same advance |
| Ipv4Address.AddressChars | code/third/DNSPing/Source/Protocol.cpp:153-160 | the characters accepted are the dot and the ten digits |
| Ipv4Address.Normalise | code/third/DNSPing/Source/Protocol.cpp:152-190 | accepts exactly digits and dots; the result is the groups, with missing zeros put in, in plain decimal with dots between; all loops end |
| Ipv4Address.NormaliseMeans | code/third/DNSPing/Source/Protocol.cpp:161-190 | each group of the result has the value of the group it comes from and no leading zeros; four groups for up to four; the first is a decimal iff the address does not start with a dot |
| Ipv4Address.EmptyFirstGroup | code/third/DNSPing/Source/Protocol.cpp:161-190 | ".1.2.3" stays as it is |
| Ipv4Address.OnlyDecimal | code/third/DNSPing/Source/Protocol.cpp:161-190 | the result is the only dotted decimal of those values |
| Ipv4Address.NormaliseTwice | code/third/DNSPing/Source/Protocol.cpp:161-190 | normalising a result changes nothing |
| Ipv4.Rewrite | code/third/DNSPing/Source/Protocol.cpp:182-190 | the three replace loops end, with the result of two single passes |
| Ipv4.FillKeeps | code/third/DNSPing/Source/Protocol.cpp:186-187 | a replacement of two dots anywhere does not change what the pass makes of the text |
| Ipv4.StripKeeps | code/third/DNSPing/Source/Protocol.cpp:182-185 | nor does dropping zeros behind a dot |
| Ipv4.DecimalUnique | code/third/DNSPing/Source/Protocol.cpp:161-163 | a value has one decimal without leading zeros |

## Left out

- Failed allocations, and null pointers (`ucrc32` and `adler32` return 0 and 1 for a null buffer): memory is there. Z_MEM_ERROR remains where
  `huft_build` reports that MANY entries are not enough; it is proved to occur for corrupt streams only, and calls after
  it are outside the contract, as the code has freed `blens` by then.
- Zlib-wrapper modes of `inflate` (headers, dictionary, check value): `inflateInit2` always asks for raw streams.
- The literal contents of `fixed_tl` and `fixed_td`, and of `crc_table`: the trees are built by the modelled `huft_build`,
  the table is computed from the polynomial.
- What the decoder reads once it has strayed: the contracts then say no more than how many bytes were delivered and
  that the checksum is theirs.
- Reader.AnyReader: of a deflated entry without a byte behind its compressed data it is not claimed that all of it comes,
  as the decoder's look-ahead may ask for that byte; archives rarely hold it.
- Z_STREAM_END that `inflate_codes` can return while the window is not yet empty (the status of `inflate_fast` survives
  FLUSH): modelled as it is; the block machine then goes on with the rest still in the window.
- The C form of `inflate_fast`'s tables as pointers: tables are addressed by index into one array, read through a
  snapshot while nothing writes them.
- Archive bookkeeping (`unzLocateFile`, file names, `TUnzip`, handles, time stamps): operating-system work, or flat
  parsing without a property that spans functions.
- Record data in `PrintResourseData`, type and flag names, hex dumps: flat printing that does not move the cursor.
- `PrintDomainName` and `DNSQueryToChar` read bytes behind the buffer as zero. For well-formed names nothing behind the message
  is looked at, which the lemmas say by a free `tail`.
- `PrintResponse` on messages that are not well-formed: the code checks no bound there, and rings of pointers do not end.
- The IPv6 branch and the system's conversion of the rewritten text: `inet_pton` is not part of this model.
- Sockets, SOCKS, options, the duilib controls and the other third-party code: input and output, or layout.
