/**
  What the scanner of SolanaTx measures when a transaction is cut short.

  The scan is lax: a vector may reach beyond the buffer, and a count that is cut short reads as an empty
  vector. CutSize says, in terms of the transaction, which size results for every point at which its
  encoding can be cut.
 */
module CutTransactions {
  import opened Wrappers
  import opened Binary
  import opened SolanaTx
  import opened TransactionFormat

  //
  // The size of a transaction of which only n bytes are there
  //

  /** At p a count is cut short: every further vector is empty, so each record takes its fixed bytes only. */
  function Stuck(p: nat, records: nat, n: nat, fixedBytes: nat): Option<nat> {
    if records == 0 || p + records * fixedBytes <= n then Some(p + records * fixedBytes) else None
  }

  /** Records that begin at offset. The second vector of the last one may reach beyond n, and any first one may. */
  function CutRecords(records: seq<Record>, offset: nat, n: nat, fixedBytes: nat): Option<nat>
    requires WellFormedRecords(records, fixedBytes)
    decreases |records|
  {
    if records == [] then Some(offset)
    else if offset + fixedBytes > n then None
    else
      var r, first := records[0], offset + fixedBytes;
      var second := first + |CountedBytes(r.first)|;
      if first + |CompactBytes(|r.first|)| > n then Stuck(first, |records| - 1, n, fixedBytes)
      else if second + |CompactBytes(|r.second|)| > n then Stuck(second, |records| - 1, n, fixedBytes)
      else CutRecords(records[1..], second + |CountedBytes(r.second)|, n, fixedBytes)
  }

  function CutRecordVector(records: seq<Record>, offset: nat, n: nat, fixedBytes: nat): Option<nat>
    requires |records| < MAX_COUNT && WellFormedRecords(records, fixedBytes)
  {
    var first := offset + |CompactBytes(|records|)|;
    if first > n then Some(offset) else CutRecords(records, first, n, fixedBytes)
  }

  /** Header, keys and blockhash must be there. */
  function CutMessage(t: Transaction, offset: nat, n: nat): Option<nat>
    requires WellFormed(t)
  {
    var instructions := offset + 3 + |KeysBytes(t)| + 32;
    if instructions > n then None else CutRecordVector(t.instructions, instructions, n, 1)
  }

  function CutVersionedMessage(t: Transaction, offset: nat, n: nat): Option<nat>
    requires WellFormed(t)
  {
    match t.version
    case Legacy => CutMessage(t, offset, n)
    case V0(lookups) =>
      var end :- CutMessage(t, offset + 1, n);
      if end == offset + 1 + |MessageBytes(t)| then CutRecordVector(lookups, end, n, 32) else Some(end)
  }

  /** The size measured for the first n bytes of a transaction. */
  function CutSize(t: Transaction, n: nat): nat
    requires WellFormed(t)
  {
    var message := |SignaturesBytes(t)|;
    if message >= n then 0
    else
      var end := CutVersionedMessage(t, message, n);
      if end.Some? then end.value else 0
  }

  function SignaturesBytes(t: Transaction): bytes
    requires WellFormed(t)
  {
    CompactBytes(|t.signatures|) + Concat(t.signatures)
  }

  function KeysBytes(t: Transaction): bytes
    requires WellFormed(t)
  {
    CompactBytes(|t.accountKeys|) + Concat(t.accountKeys)
  }

  //
  // A buffer that may end within a part
  //

  /** As far as the buffer reaches, it holds this part at offset. */
  ghost predicate BeginsAt(buffer: bytes, offset: nat, part: bytes) {
    forall i :: 0 <= i < |part| && offset + i < |buffer| ==> buffer[offset + i] == part[i]
  }

  lemma BeginsAtSplit(buffer: bytes, offset: nat, first: bytes, second: bytes)
    requires BeginsAt(buffer, offset, first + second)
    ensures BeginsAt(buffer, offset, first) && BeginsAt(buffer, offset + |first|, second)
  {
    forall i | 0 <= i < |first| && offset + i < |buffer|
      ensures buffer[offset + i] == first[i]
    {
      assert (first + second)[i] == first[i];
    }
    forall i | 0 <= i < |second| && offset + |first| + i < |buffer|
      ensures buffer[offset + |first| + i] == second[i]
    {
      assert buffer[offset + (|first| + i)] == (first + second)[|first| + i];
    }
  }

  lemma BeginsAtWhole(buffer: bytes, offset: nat, part: bytes)
    requires BeginsAt(buffer, offset, part) && offset + |part| <= |buffer|
    ensures HasAt(buffer, offset, part)
  {
  }

  /** From here on only bytes of a count that is cut short. */
  ghost predicate Short(buffer: bytes, offset: nat) {
    |buffer| <= offset + 2 && forall i :: offset <= i < |buffer| ==> buffer[i] >= 0x80
  }

  lemma ShortReads(buffer: bytes, offset: nat)
    requires Short(buffer, offset)
    ensures CompactAt(buffer, offset) == None
  {
  }

  lemma CountReads(buffer: bytes, offset: nat, count: nat)
    requires count < MAX_COUNT && BeginsAt(buffer, offset, CompactBytes(count))
    ensures offset + |CompactBytes(count)| <= |buffer| ==>
              CompactAt(buffer, offset) == Some((count, |CompactBytes(count)|))
    ensures offset + |CompactBytes(count)| > |buffer| ==> Short(buffer, offset)
  {
    if offset + |CompactBytes(count)| <= |buffer| {
      BeginsAtWhole(buffer, offset, CompactBytes(count));
      CompactRoundTrip(buffer, offset, count);
    } else {
      forall i | offset <= i < |buffer|
        ensures buffer[i] >= 0x80
      {
        assert buffer[offset + (i - offset)] == CompactBytes(count)[i - offset];
      }
    }
  }

  lemma VectorReads(buffer: bytes, offset: nat, content: bytes)
    requires |content| < MAX_COUNT && BeginsAt(buffer, offset, CountedBytes(content))
    ensures offset + |CompactBytes(|content|)| <= |buffer| ==>
              SkipVector(buffer, offset) == offset + |CountedBytes(content)|
    ensures offset + |CompactBytes(|content|)| > |buffer| ==> Short(buffer, offset)
    ensures BeginsAt(buffer, offset, CompactBytes(|content|))
  {
    hide CompactBytes, CompactAt, BeginsAt, Short;
    BeginsAtSplit(buffer, offset, CompactBytes(|content|), content);
    CountReads(buffer, offset, |content|);
  }

  lemma ShortVector(buffer: bytes, offset: nat)
    requires Short(buffer, offset)
    ensures SkipVector(buffer, offset) == offset
  {
    ShortReads(buffer, offset);
  }

  lemma ShortLater(buffer: bytes, offset: nat, later: nat)
    requires Short(buffer, offset) && offset <= later
    ensures Short(buffer, later)
  {
  }

  lemma ShortRecordVector(buffer: bytes, offset: nat, fixedBytes: nat)
    requires Short(buffer, offset)
    ensures SkipRecordVector(buffer, offset, fixedBytes) == Some(offset)
  {
    ShortReads(buffer, offset);
  }

  //
  // The scan of each part
  //

  lemma {:induction false} StuckRecords(buffer: bytes, p: nat, count: nat, fixedBytes: nat)
    requires fixedBytes > 0 && Short(buffer, p)
    ensures SkipRecords(buffer, p, count, fixedBytes) == Stuck(p, count, |buffer|, fixedBytes)
    decreases count
  {
    hide Short, SkipVector;
    if count > 0 {
      OneMoreRecord(count, fixedBytes);
      if p + fixedBytes <= |buffer| {
        ShortLater(buffer, p, p + fixedBytes);
        ShortVector(buffer, p + fixedBytes);
        StuckRecords(buffer, p + fixedBytes, count - 1, fixedBytes);
      }
    }
  }

  lemma OneMoreRecord(count: nat, fixedBytes: nat)
    requires count > 0
    ensures count * fixedBytes == fixedBytes + (count - 1) * fixedBytes >= fixedBytes
  {
  }

  lemma StuckIsShort(buffer: bytes, p: nat, count: nat, fixedBytes: nat)
    requires Short(buffer, p)
    ensures var end := Stuck(p, count, |buffer|, fixedBytes); end.Some? ==> Short(buffer, end.value)
  {
    hide Short;
    ShortLater(buffer, p, p + count * fixedBytes);
  }

  /** Either the vectors all end where they should, or the scan is stuck in a count that is cut short. */
  ghost predicate EndsOrStuck(buffer: bytes, end: Option<nat>, expected: nat) {
    end.Some? ==> end.value == expected || Short(buffer, end.value)
  }

  lemma RecordBegins(buffer: bytes, offset: nat, r: Record)
    requires |r.first| < MAX_COUNT && |r.second| < MAX_COUNT && BeginsAt(buffer, offset, RecordBytes(r))
    ensures BeginsAt(buffer, offset + |r.fixed|, CountedBytes(r.first))
    ensures BeginsAt(buffer, offset + |r.fixed| + |CountedBytes(r.first)|, CountedBytes(r.second))
  {
    hide BeginsAt, CountedBytes;
    BeginsAtSplit(buffer, offset, r.fixed + CountedBytes(r.first), CountedBytes(r.second));
    BeginsAtSplit(buffer, offset, r.fixed, CountedBytes(r.first));
  }

  lemma {:induction false} RecordsCut(buffer: bytes, offset: nat, records: seq<Record>, fixedBytes: nat)
    requires fixedBytes > 0 && WellFormedRecords(records, fixedBytes)
    requires BeginsAt(buffer, offset, RecordsBytes(records, fixedBytes))
    ensures SkipRecords(buffer, offset, |records|, fixedBytes)
         == CutRecords(records, offset, |buffer|, fixedBytes)
    ensures EndsOrStuck(buffer, CutRecords(records, offset, |buffer|, fixedBytes),
                        offset + |RecordsBytes(records, fixedBytes)|)
    decreases |records|
  {
    hide BeginsAt, Short, SkipVector, CompactBytes, CountedBytes, Stuck;
    if records != [] && offset + fixedBytes <= |buffer| {
      var r, first := records[0], offset + fixedBytes;
      var second := first + |CountedBytes(r.first)|;
      var next := second + |CountedBytes(r.second)|;
      BeginsAtSplit(buffer, offset, RecordBytes(r), RecordsBytes(records[1..], fixedBytes));
      RecordBegins(buffer, offset, r);
      VectorReads(buffer, first, r.first);
      if first + |CompactBytes(|r.first|)| > |buffer| {
        ShortVector(buffer, first);
        StuckRecords(buffer, first, |records| - 1, fixedBytes);
        StuckIsShort(buffer, first, |records| - 1, fixedBytes);
      } else {
        VectorReads(buffer, second, r.second);
        if second + |CompactBytes(|r.second|)| > |buffer| {
          ShortVector(buffer, second);
          StuckRecords(buffer, second, |records| - 1, fixedBytes);
          StuckIsShort(buffer, second, |records| - 1, fixedBytes);
        } else {
          RecordsCut(buffer, next, records[1..], fixedBytes);
        }
      }
    }
  }

  lemma RecordVectorCut(buffer: bytes, offset: nat, records: seq<Record>, fixedBytes: nat)
    requires fixedBytes > 0 && |records| < MAX_COUNT && WellFormedRecords(records, fixedBytes)
    requires BeginsAt(buffer, offset, RecordVectorBytes(records, fixedBytes))
    ensures SkipRecordVector(buffer, offset, fixedBytes)
         == CutRecordVector(records, offset, |buffer|, fixedBytes)
    ensures EndsOrStuck(buffer, CutRecordVector(records, offset, |buffer|, fixedBytes),
                        offset + |RecordVectorBytes(records, fixedBytes)|)
  {
    hide BeginsAt, Short, CompactBytes, CompactAt, RecordsBytes, SkipRecords, CutRecords;
    var count := CompactBytes(|records|);
    BeginsAtSplit(buffer, offset, count, RecordsBytes(records, fixedBytes));
    CountReads(buffer, offset, |records|);
    if offset + |count| > |buffer| {
      ShortRecordVector(buffer, offset, fixedBytes);
    } else {
      RecordsCut(buffer, offset + |count|, records, fixedBytes);
    }
  }

  lemma MessageBegins(buffer: bytes, offset: nat, t: Transaction)
    requires WellFormed(t) && BeginsAt(buffer, offset, MessageBytes(t))
    ensures BeginsAt(buffer, offset + 3, CompactBytes(|t.accountKeys|))
    ensures BeginsAt(buffer, offset + 3 + |KeysBytes(t)| + 32, RecordVectorBytes(t.instructions, 1))
    ensures |MessageBytes(t)| == 3 + |KeysBytes(t)| + 32 + |RecordVectorBytes(t.instructions, 1)|
  {
    hide BeginsAt, CompactBytes, Concat, RecordVectorBytes;
    var keys := KeysBytes(t);
    BeginsAtSplit(buffer, offset, t.header + keys + t.recentBlockhash, RecordVectorBytes(t.instructions, 1));
    BeginsAtSplit(buffer, offset, t.header + keys, t.recentBlockhash);
    BeginsAtSplit(buffer, offset, t.header, keys);
    BeginsAtSplit(buffer, offset + 3, CompactBytes(|t.accountKeys|), Concat(t.accountKeys));
  }

  lemma MessageCut(buffer: bytes, offset: nat, t: Transaction)
    requires WellFormed(t) && BeginsAt(buffer, offset, MessageBytes(t))
    ensures SkipMessage(buffer, offset) == CutMessage(t, offset, |buffer|)
    ensures EndsOrStuck(buffer, CutMessage(t, offset, |buffer|), offset + |MessageBytes(t)|)
  {
    hide BeginsAt, Short, CompactBytes, CompactAt, MessageBytes, RecordVectorBytes, SkipRecordVector, CutRecordVector;
    MessageBegins(buffer, offset, t);
    ConcatLength(t.accountKeys, 32);
    CountReads(buffer, offset + 3, |t.accountKeys|);
    if offset + 3 + |CompactBytes(|t.accountKeys|)| > |buffer| {
      ShortReads(buffer, offset + 3);
      ShortIsNear(buffer, offset + 3);
    } else if offset + 3 + |KeysBytes(t)| + 32 <= |buffer| {
      RecordVectorCut(buffer, offset + 3 + |KeysBytes(t)| + 32, t.instructions, 1);
    }
  }

  lemma ShortIsNear(buffer: bytes, offset: nat)
    requires Short(buffer, offset)
    ensures |buffer| <= offset + 2
  {
  }

  lemma FirstByteBegins(buffer: bytes, offset: nat, part: bytes)
    requires BeginsAt(buffer, offset, part) && part != [] && offset < |buffer|
    ensures buffer[offset] == part[0]
  {
    assert buffer[offset + 0] == part[0];
  }

  lemma HeaderFirst(t: Transaction)
    requires WellFormed(t)
    ensures MessageBytes(t) != [] && MessageBytes(t)[0] == t.header[0]
  {
    hide RecordVectorBytes, CompactBytes, Concat;
  }

  lemma LegacyCut(buffer: bytes, offset: nat, t: Transaction)
    requires WellFormed(t) && t.version.Legacy? && offset < |buffer| && BeginsAt(buffer, offset, MessageBytes(t))
    ensures SkipVersionedMessage(buffer, offset) == CutMessage(t, offset, |buffer|)
  {
    hide BeginsAt, MessageBytes, SkipMessage, CutMessage;
    HeaderFirst(t);
    FirstByteBegins(buffer, offset, MessageBytes(t));
    MessageCut(buffer, offset, t);
  }

  lemma V0Cut(buffer: bytes, offset: nat, t: Transaction)
    requires WellFormed(t) && t.version.V0? && offset < |buffer|
    requires BeginsAt(buffer, offset, [0x80] + MessageBytes(t) + RecordVectorBytes(t.version.lookups, 32))
    ensures SkipVersionedMessage(buffer, offset) == CutVersionedMessage(t, offset, |buffer|)
  {
    hide BeginsAt, MessageBytes, RecordVectorBytes, SkipMessage, CutMessage, SkipRecordVector, CutRecordVector, Short;
    var lookups := RecordVectorBytes(t.version.lookups, 32);
    BeginsAtSplit(buffer, offset, [0x80] + MessageBytes(t), lookups);
    BeginsAtSplit(buffer, offset, [0x80], MessageBytes(t));
    FirstByteBegins(buffer, offset, [0x80]);
    MessageCut(buffer, offset + 1, t);
    var end := CutMessage(t, offset + 1, |buffer|);
    if end.Some? {
      if end.value == offset + 1 + |MessageBytes(t)| {
        RecordVectorCut(buffer, end.value, t.version.lookups, 32);
      } else {
        ShortRecordVector(buffer, end.value, 32);
      }
    }
  }

  lemma SignaturesCut(buffer: bytes, t: Transaction)
    requires WellFormed(t) && BeginsAt(buffer, 0, SignaturesBytes(t))
    ensures SkipSignatures(buffer) == if |SignaturesBytes(t)| < |buffer| then Some(|SignaturesBytes(t)|) else None
  {
    hide BeginsAt, CompactAt, CompactBytes, Concat;
    BeginsAtSplit(buffer, 0, CompactBytes(|t.signatures|), Concat(t.signatures));
    CountReads(buffer, 0, |t.signatures|);
    ConcatLength(t.signatures, 64);
    if |CompactBytes(|t.signatures|)| > |buffer| {
      ShortReads(buffer, 0);
    }
  }

  /** Every buffer that begins a transaction and ends in it, anywhere, is measured like this. */
  lemma BegunMeasures(buffer: bytes, t: Transaction)
    requires WellFormed(t) && BeginsAt(buffer, 0, TransactionBytes(t))
    ensures MeasuredSize(buffer) == CutSize(t, |buffer|)
  {
    hide BeginsAt, SkipSignatures, SkipVersionedMessage, CutVersionedMessage, SignaturesBytes, MessageBytes;
    var message := |SignaturesBytes(t)|;
    TransactionBegins(buffer, t);
    SignaturesCut(buffer, t);
    if message < |buffer| {
      VersionedMessageCut(buffer, message, t);
    }
  }

  lemma TransactionBegins(buffer: bytes, t: Transaction)
    requires WellFormed(t) && BeginsAt(buffer, 0, TransactionBytes(t))
    ensures BeginsAt(buffer, 0, SignaturesBytes(t))
    ensures BeginsAt(buffer, |SignaturesBytes(t)|, VersionedMessageBytes(t))
  {
    hide BeginsAt, VersionedMessageBytes, CompactBytes, Concat;
    BeginsAtSplit(buffer, 0, SignaturesBytes(t), VersionedMessageBytes(t));
  }

  lemma VersionedMessageCut(buffer: bytes, offset: nat, t: Transaction)
    requires WellFormed(t) && offset < |buffer| && BeginsAt(buffer, offset, VersionedMessageBytes(t))
    ensures SkipVersionedMessage(buffer, offset) == CutVersionedMessage(t, offset, |buffer|)
  {
    hide BeginsAt, MessageBytes, RecordVectorBytes, SkipVersionedMessage, CutMessage, CutRecordVector, WellFormed;
    match t.version
    case Legacy => LegacyCut(buffer, offset, t);
    case V0(_) => V0Cut(buffer, offset, t);
  }

  /** What the scanner measures for the first n bytes of any transaction, for every n. */
  lemma CutMeasures(t: Transaction, n: nat)
    requires WellFormed(t) && n <= |TransactionBytes(t)|
    ensures MeasuredSize(TransactionBytes(t)[..n]) == CutSize(t, n)
  {
    hide MeasuredSize, CutSize, TransactionBytes;
    BegunMeasures(TransactionBytes(t)[..n], t);
  }

  //
  // Which cuts the scanner does not notice
  //

  function LastContent(records: seq<Record>): bytes {
    if records == [] then [] else records[|records| - 1].second
  }

  /** The data of the last instruction, or the readonly indexes of the last lookup. */
  function Tail(t: Transaction): bytes {
    match t.version
    case Legacy => LastContent(t.instructions)
    case V0(lookups) => LastContent(lookups)
  }

  lemma {:induction false} RecordsBytesAtLeast(records: seq<Record>, fixedBytes: nat)
    requires WellFormedRecords(records, fixedBytes)
    ensures |RecordsBytes(records, fixedBytes)| >= |records| * fixedBytes
    ensures |RecordsBytes(records, fixedBytes)| >= |LastContent(records)|
    decreases |records|
  {
    hide CompactBytes;
    if records != [] {
      RecordsBytesAtLeast(records[1..], fixedBytes);
      assert |records| * fixedBytes == fixedBytes + (|records| - 1) * fixedBytes;
    }
  }

  /** Reaches the end exactly if no more than the last content is cut; never beyond it. */
  predicate FullIff(end: Option<nat>, full: nat, content: nat, n: nat) {
    && (end.Some? ==> end.value <= full)
    && (end == Some(full) <==> n + content >= full)
  }

  lemma NoRecords(offset: nat, n: nat, fixedBytes: nat)
    ensures CutRecords([], offset, n, fixedBytes) == Some(offset) && RecordsBytes([], fixedBytes) == []
  {
  }

  /** At a count that is cut short the scan ends before the records do, if it ends at all. */
  lemma StuckIsBefore(p: nat, records: nat, n: nat, fixedBytes: nat, full: nat)
    requires p + records * fixedBytes < full
    ensures var end := Stuck(p, records, n, fixedBytes); end.Some? ==> end.value < full
  {
  }

  lemma RecordsSplit(records: seq<Record>, fixedBytes: nat)
    requires WellFormedRecords(records, fixedBytes) && records != []
    ensures |RecordsBytes(records, fixedBytes)|
         == fixedBytes + |CountedBytes(records[0].first)| + |CountedBytes(records[0].second)|
          + |RecordsBytes(records[1..], fixedBytes)|
  {
    hide CompactBytes;
  }

  lemma {:induction false} RecordsFull(records: seq<Record>, offset: nat, n: nat, fixedBytes: nat)
    requires fixedBytes > 0 && WellFormedRecords(records, fixedBytes) && records != []
    ensures FullIff(CutRecords(records, offset, n, fixedBytes), offset + |RecordsBytes(records, fixedBytes)|,
                    |LastContent(records)|, n)
    decreases |records|
  {
    hide CompactBytes, RecordsBytes, Stuck;
    var r, first, rest := records[0], offset + fixedBytes, records[1..];
    var second := first + |CountedBytes(r.first)|;
    var full := offset + |RecordsBytes(records, fixedBytes)|;
    RecordsBytesAtLeast(rest, fixedBytes);
    RecordsSplit(records, fixedBytes);
    StuckIsBefore(first, |records| - 1, n, fixedBytes, full);
    StuckIsBefore(second, |records| - 1, n, fixedBytes, full);
    if rest != [] {
      RecordsFull(rest, second + |CountedBytes(r.second)|, n, fixedBytes);
    } else {
      NoRecords(second + |CountedBytes(r.second)|, n, fixedBytes);
    }
  }

  lemma RecordVectorFull(records: seq<Record>, offset: nat, n: nat, fixedBytes: nat)
    requires fixedBytes > 0 && |records| < MAX_COUNT && WellFormedRecords(records, fixedBytes)
    ensures FullIff(CutRecordVector(records, offset, n, fixedBytes),
                    offset + |RecordVectorBytes(records, fixedBytes)|, |LastContent(records)|, n)
  {
    hide CompactBytes, RecordsBytes, CutRecords;
    RecordsBytesAtLeast(records, fixedBytes);
    if records == [] {
      NoRecords(offset + |CompactBytes(0)|, n, fixedBytes);
    } else {
      RecordsFull(records, offset + |CompactBytes(|records|)|, n, fixedBytes);
    }
  }

  lemma MessageFull(t: Transaction, offset: nat, n: nat)
    requires WellFormed(t)
    ensures FullIff(CutMessage(t, offset, n), offset + |MessageBytes(t)|, |LastContent(t.instructions)|, n)
  {
    hide CompactBytes, Concat, RecordVectorBytes, CutRecordVector;
    RecordVectorFull(t.instructions, offset + 3 + |KeysBytes(t)| + 32, n, 1);
    VectorHoldsContent(t.instructions, 1);
  }

  lemma VectorHoldsContent(records: seq<Record>, fixedBytes: nat)
    requires |records| < MAX_COUNT && WellFormedRecords(records, fixedBytes)
    ensures |RecordVectorBytes(records, fixedBytes)| >= |LastContent(records)| + 1
  {
    hide RecordsBytes;
    RecordsBytesAtLeast(records, fixedBytes);
  }

  lemma VersionedMessageFull(t: Transaction, offset: nat, n: nat)
    requires WellFormed(t)
    ensures FullIff(CutVersionedMessage(t, offset, n), offset + |VersionedMessageBytes(t)|, |Tail(t)|, n)
  {
    hide MessageBytes, RecordVectorBytes, CutMessage, CutRecordVector, LastContent;
    match t.version
    case Legacy => MessageFull(t, offset, n);
    case V0(lookups) =>
      MessageFull(t, offset + 1, n);
      RecordVectorFull(lookups, offset + 1 + |MessageBytes(t)|, n, 32);
      VectorHoldsContent(lookups, 32);
  }

  /**
    Exactly which cuts the scanner does not notice: those within the content of the last vector. The size is
    then that of the whole transaction, beyond the end of the buffer; after every other cut it is smaller.
   */
  lemma CutUnnoticedIff(t: Transaction, n: nat)
    requires WellFormed(t) && n <= |TransactionBytes(t)|
    ensures |Tail(t)| < |TransactionBytes(t)|
    ensures MeasuredSize(TransactionBytes(t)[..n]) == |TransactionBytes(t)| <==> |TransactionBytes(t)| - n <= |Tail(t)|
    ensures MeasuredSize(TransactionBytes(t)[..n]) <= |TransactionBytes(t)|
  {
    hide MeasuredSize, CutVersionedMessage, VersionedMessageBytes, SignaturesBytes, Tail;
    CutMeasures(t, n);
    var message := |SignaturesBytes(t)|;
    TransactionParts(t);
    VersionedMessageFull(t, message, n);
    TailIsShort(t);
  }

  lemma TransactionParts(t: Transaction)
    requires WellFormed(t)
    ensures |TransactionBytes(t)| == |SignaturesBytes(t)| + |VersionedMessageBytes(t)|
  {
    hide VersionedMessageBytes, CompactBytes, Concat;
  }

  lemma TailIsShort(t: Transaction)
    requires WellFormed(t)
    ensures |Tail(t)| < |VersionedMessageBytes(t)|
  {
    hide RecordVectorBytes, CompactBytes, Concat, LastContent;
    if t.version.V0? {
      VectorHoldsContent(t.version.lookups, 32);
    } else {
      VectorHoldsContent(t.instructions, 1);
    }
  }
}
