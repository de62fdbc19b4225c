/**
  Solana transactions as data, and their wire encoding.

  The encoder is the printer that the strict grammar of SolanaTx parses: it fixes what a
  well-formed transaction is, independently of how the scanner walks over one.
 */
module TransactionFormat {
  import opened Wrappers
  import opened Binary
  import opened SolanaTx

  type bytes = seq<byte>

  /** An instruction (1 fixed byte) or an address-table lookup (32 fixed bytes). */
  datatype Record = Record(fixed: bytes, first: bytes, second: bytes)

  datatype Version = Legacy | V0(lookups: seq<Record>)

  datatype Transaction = Transaction(
    signatures: seq<bytes>,
    version: Version,
    header: bytes,
    accountKeys: seq<bytes>,
    recentBlockhash: bytes,
    instructions: seq<Record>
  )

  const MAX_COUNT := 0x1_0000

  predicate AllOfSize(items: seq<bytes>, size: nat) {
    forall i :: 0 <= i < |items| ==> |items[i]| == size
  }

  predicate WellFormedRecords(records: seq<Record>, fixedBytes: nat) {
    forall i :: 0 <= i < |records| ==>
      |records[i].fixed| == fixedBytes && |records[i].first| < MAX_COUNT && |records[i].second| < MAX_COUNT
  }

  /** A legacy message is told from a versioned one by its first header byte. */
  predicate WellFormed(t: Transaction) {
    && 1 <= |t.signatures| <= 64 && AllOfSize(t.signatures, 64)
    && |t.header| == 3 && (t.version.Legacy? ==> t.header[0] != 0x80)
    && |t.accountKeys| < MAX_COUNT && AllOfSize(t.accountKeys, 32)
    && |t.recentBlockhash| == 32
    && |t.instructions| < MAX_COUNT && WellFormedRecords(t.instructions, 1)
    && (t.version.V0? ==> |t.version.lookups| < MAX_COUNT && WellFormedRecords(t.version.lookups, 32))
  }

  function Concat(parts: seq<bytes>): bytes {
    if parts == [] then [] else parts[0] + Concat(parts[1..])
  }

  function CountedBytes(content: bytes): bytes
    requires |content| < MAX_COUNT
  {
    CompactBytes(|content|) + content
  }

  function RecordBytes(r: Record): bytes
    requires |r.first| < MAX_COUNT && |r.second| < MAX_COUNT
  {
    r.fixed + CountedBytes(r.first) + CountedBytes(r.second)
  }

  function RecordsBytes(records: seq<Record>, fixedBytes: nat): bytes
    requires WellFormedRecords(records, fixedBytes)
  {
    if records == [] then [] else RecordBytes(records[0]) + RecordsBytes(records[1..], fixedBytes)
  }

  function RecordVectorBytes(records: seq<Record>, fixedBytes: nat): bytes
    requires |records| < MAX_COUNT && WellFormedRecords(records, fixedBytes)
  {
    CompactBytes(|records|) + RecordsBytes(records, fixedBytes)
  }

  function MessageBytes(t: Transaction): bytes
    requires WellFormed(t)
  {
    t.header
    + (CompactBytes(|t.accountKeys|) + Concat(t.accountKeys))
    + t.recentBlockhash
    + RecordVectorBytes(t.instructions, 1)
  }

  function VersionedMessageBytes(t: Transaction): (message: bytes)
    requires WellFormed(t)
    ensures message != []
  {
    match t.version
    case Legacy => MessageBytes(t)
    case V0(lookups) => [0x80] + MessageBytes(t) + RecordVectorBytes(lookups, 32)
  }

  function TransactionBytes(t: Transaction): bytes
    requires WellFormed(t)
  {
    CompactBytes(|t.signatures|) + Concat(t.signatures) + VersionedMessageBytes(t)
  }

  //
  // Each grammar production consumes exactly what the encoder prints for it
  //

  lemma {:induction false} ConcatLength(parts: seq<bytes>, size: nat)
    requires AllOfSize(parts, size)
    ensures |Concat(parts)| == size * |parts|
  {
    if parts != [] {
      ConcatLength(parts[1..], size);
    }
  }

  lemma CountRoundTrip(buffer: bytes, offset: nat, count: nat, content: bytes)
    requires count < MAX_COUNT && HasAt(buffer, offset, CompactBytes(count) + content)
    ensures CompactAt(buffer, offset) == Some((count, |CompactBytes(count)|))
    ensures HasAt(buffer, offset + |CompactBytes(count)|, content)
    ensures offset + |CompactBytes(count)| + |content| <= |buffer|
  {
    HasAtSplit(buffer, offset, CompactBytes(count), content);
    CompactRoundTrip(buffer, offset, count);
  }

  lemma VectorRoundTrip(buffer: bytes, offset: nat, content: bytes, itemBytes: nat, count: nat)
    requires count < MAX_COUNT && |content| == itemBytes * count
    requires HasAt(buffer, offset, CompactBytes(count) + content)
    ensures TakeVector(buffer, offset, itemBytes) == Some(offset + |CompactBytes(count)| + |content|)
  {
    hide HasAt, CompactAt, CompactBytes;
    CountRoundTrip(buffer, offset, count, content);
  }

  lemma RecordParts(buffer: bytes, offset: nat, r: Record)
    requires |r.first| < MAX_COUNT && |r.second| < MAX_COUNT
    requires HasAt(buffer, offset, RecordBytes(r))
    ensures offset + |r.fixed| <= |buffer|
    ensures HasAt(buffer, offset + |r.fixed|, CountedBytes(r.first))
    ensures HasAt(buffer, offset + |r.fixed| + |CountedBytes(r.first)|, CountedBytes(r.second))
  {
    HasAtSplit(buffer, offset, r.fixed + CountedBytes(r.first), CountedBytes(r.second));
    HasAtSplit(buffer, offset, r.fixed, CountedBytes(r.first));
  }

  lemma RecordRoundTrip(buffer: bytes, offset: nat, count: nat, r: Record)
    requires count > 0 && |r.first| < MAX_COUNT && |r.second| < MAX_COUNT
    requires HasAt(buffer, offset, RecordBytes(r))
    ensures TakeRecords(buffer, offset, count, |r.fixed|)
         == TakeRecords(buffer, offset + |RecordBytes(r)|, count - 1, |r.fixed|)
  {
    hide HasAt, CompactAt, CompactBytes, TakeVector;
    var first := offset + |r.fixed|;
    RecordParts(buffer, offset, r);
    VectorRoundTrip(buffer, first, r.first, 1, |r.first|);
    VectorRoundTrip(buffer, first + |CountedBytes(r.first)|, r.second, 1, |r.second|);
  }

  lemma {:induction false} RecordsRoundTrip(buffer: bytes, offset: nat, records: seq<Record>, fixedBytes: nat)
    requires offset <= |buffer|
    requires WellFormedRecords(records, fixedBytes) && HasAt(buffer, offset, RecordsBytes(records, fixedBytes))
    ensures TakeRecords(buffer, offset, |records|, fixedBytes) == Some(offset + |RecordsBytes(records, fixedBytes)|)
    decreases |records|
  {
    hide HasAt, RecordBytes, TakeVector, TakeBytes;
    if records != [] {
      var head, tail := RecordBytes(records[0]), RecordsBytes(records[1..], fixedBytes);
      HasAtSplit(buffer, offset, head, tail);
      RecordRoundTrip(buffer, offset, |records|, records[0]);
      RecordsRoundTrip(buffer, offset + |head|, records[1..], fixedBytes);
    }
  }

  lemma RecordVectorRoundTrip(buffer: bytes, offset: nat, records: seq<Record>, fixedBytes: nat)
    requires |records| < MAX_COUNT && WellFormedRecords(records, fixedBytes)
    requires HasAt(buffer, offset, RecordVectorBytes(records, fixedBytes))
    ensures TakeRecordVector(buffer, offset, fixedBytes) == Some(offset + |RecordVectorBytes(records, fixedBytes)|)
  {
    hide TakeRecordVector, TakeRecords, CompactAt, HasAt;
    assert TakeRecordVector(buffer, offset, fixedBytes) == Some(offset + |RecordVectorBytes(records, fixedBytes)|) by {
      var count, content := CompactBytes(|records|), RecordsBytes(records, fixedBytes);
      CountRoundTrip(buffer, offset, |records|, content);
      RecordsRoundTrip(buffer, offset + |count|, records, fixedBytes);
      RecordVectorEnd(buffer, offset, fixedBytes, |records|, |count|);
    }
  }

  lemma MessageParts(buffer: bytes, offset: nat, t: Transaction)
    requires WellFormed(t) && HasAt(buffer, offset, MessageBytes(t))
    ensures var keys := CompactBytes(|t.accountKeys|) + Concat(t.accountKeys);
            && |MessageBytes(t)| == 3 + |keys| + 32 + |RecordVectorBytes(t.instructions, 1)|
            && HasAt(buffer, offset + 3, keys)
            && offset + 3 + |keys| + 32 <= |buffer|
            && HasAt(buffer, offset + 3 + |keys| + 32, RecordVectorBytes(t.instructions, 1))
  {
    hide HasAt, CompactBytes, Concat, RecordVectorBytes;
    var keys := CompactBytes(|t.accountKeys|) + Concat(t.accountKeys);
    HasAtSplit(buffer, offset, t.header + keys + t.recentBlockhash, RecordVectorBytes(t.instructions, 1));
    HasAtSplit(buffer, offset, t.header + keys, t.recentBlockhash);
    HasAtSplit(buffer, offset, t.header, keys);
  }

  lemma MessageRoundTrip(buffer: bytes, offset: nat, t: Transaction)
    requires WellFormed(t) && HasAt(buffer, offset, MessageBytes(t))
    ensures TakeMessage(buffer, offset) == Some(offset + |MessageBytes(t)|)
  {
    hide TakeMessage, TakeRecordVector, TakeVector, HasAt;
    assert TakeMessage(buffer, offset) == Some(offset + |MessageBytes(t)|) by {
      var keys := CompactBytes(|t.accountKeys|) + Concat(t.accountKeys);
      MessageParts(buffer, offset, t);
      ConcatLength(t.accountKeys, 32);
      VectorRoundTrip(buffer, offset + 3, Concat(t.accountKeys), 32, |t.accountKeys|);
      RecordVectorRoundTrip(buffer, offset + 3 + |keys| + 32, t.instructions, 1);
      MessageEnd(buffer, offset, offset + 3 + |keys|);
    }
  }

  lemma SignaturesRoundTrip(buffer: bytes, t: Transaction)
    requires WellFormed(t)
    requires HasAt(buffer, 0, CompactBytes(|t.signatures|) + Concat(t.signatures))
    requires |CompactBytes(|t.signatures|) + Concat(t.signatures)| < |buffer|
    ensures TakeSignatures(buffer) == Some(|CompactBytes(|t.signatures|) + Concat(t.signatures)|)
  {
    CountRoundTrip(buffer, 0, |t.signatures|, Concat(t.signatures));
    ConcatLength(t.signatures, 64);
  }

  lemma LegacyFirstByte(buffer: bytes, offset: nat, t: Transaction)
    requires WellFormed(t) && t.version.Legacy? && HasAt(buffer, offset, MessageBytes(t))
    ensures offset < |buffer| && buffer[offset] != 0x80
  {
    hide RecordVectorBytes, CompactBytes, Concat;
    HasAtIndex(buffer, offset, MessageBytes(t));
    assert buffer[offset + 0] == MessageBytes(t)[0] == t.header[0];
  }

  lemma LegacyRoundTrip(buffer: bytes, offset: nat, t: Transaction)
    requires WellFormed(t) && t.version.Legacy? && HasAt(buffer, offset, MessageBytes(t))
    ensures offset < |buffer| && TakeVersionedMessage(buffer, offset) == Some(offset + |MessageBytes(t)|)
  {
    hide TakeMessage, MessageBytes, HasAt, WellFormed;
    LegacyFirstByte(buffer, offset, t);
    MessageRoundTrip(buffer, offset, t);
  }

  lemma V0Parts(buffer: bytes, offset: nat, message: bytes, lookups: bytes)
    requires HasAt(buffer, offset, [0x80] + message + lookups)
    ensures offset < |buffer| && buffer[offset] == 0x80
    ensures HasAt(buffer, offset + 1, message) && HasAt(buffer, offset + 1 + |message|, lookups)
  {
    HasAtSplit(buffer, offset, [0x80] + message, lookups);
    HasAtSplit(buffer, offset, [0x80], message);
    HasAtIndex(buffer, offset, [0x80]);
    assert buffer[offset + 0] == 0x80;
  }

  lemma V0RoundTrip(buffer: bytes, offset: nat, t: Transaction)
    requires WellFormed(t) && t.version.V0?
    requires HasAt(buffer, offset, [0x80] + MessageBytes(t) + RecordVectorBytes(t.version.lookups, 32))
    ensures offset < |buffer|
    ensures TakeVersionedMessage(buffer, offset)
         == Some(offset + 1 + |MessageBytes(t)| + |RecordVectorBytes(t.version.lookups, 32)|)
  {
    hide TakeMessage, TakeRecordVector, MessageBytes, RecordVectorBytes, HasAt;
    V0Parts(buffer, offset, MessageBytes(t), RecordVectorBytes(t.version.lookups, 32));
    MessageRoundTrip(buffer, offset + 1, t);
    RecordVectorRoundTrip(buffer, offset + 1 + |MessageBytes(t)|, t.version.lookups, 32);
  }

  lemma VersionedMessageRoundTrip(buffer: bytes, offset: nat, t: Transaction)
    requires WellFormed(t) && HasAt(buffer, offset, VersionedMessageBytes(t))
    ensures offset < |buffer| && TakeVersionedMessage(buffer, offset) == Some(offset + |VersionedMessageBytes(t)|)
  {
    hide TakeVersionedMessage, MessageBytes, RecordVectorBytes, HasAt;
    match t.version
    case Legacy => LegacyRoundTrip(buffer, offset, t);
    case V0(_) => V0RoundTrip(buffer, offset, t);
  }

  /** The strict grammar consumes an encoded transaction to its last byte, whatever follows it. */
  lemma TransactionRoundTrip(buffer: bytes, t: Transaction)
    requires WellFormed(t) && HasAt(buffer, 0, TransactionBytes(t))
    ensures TransactionEnd(buffer) == Some(|TransactionBytes(t)|)
  {
    hide TransactionEnd, TakeSignatures, TakeVersionedMessage, HasAt;
    assert TransactionEnd(buffer) == Some(|TransactionBytes(t)|) by {
      var signatures := CompactBytes(|t.signatures|) + Concat(t.signatures);
      HasAtSplit(buffer, 0, signatures, VersionedMessageBytes(t));
      SignaturesRoundTrip(buffer, t);
      VersionedMessageRoundTrip(buffer, |signatures|, t);
      SignedMessageEnd(buffer, |signatures|);
    }
  }

  /** The scanner therefore measures every well-formed transaction exactly. */
  lemma MeasureEncoded(buffer: bytes, t: Transaction)
    requires WellFormed(t) && HasAt(buffer, 0, TransactionBytes(t))
    ensures MeasuredSize(buffer) == |TransactionBytes(t)|
  {
    TransactionRoundTrip(buffer, t);
    StrictImpliesMeasured(buffer);
  }

  /** Boundaries are unambiguous: no encoding is the start of a different encoding. */
  lemma EncodingsArePrefixFree(t: Transaction, u: Transaction)
    requires WellFormed(t) && WellFormed(u) && HasAt(TransactionBytes(u), 0, TransactionBytes(t))
    ensures TransactionBytes(t) == TransactionBytes(u)
  {
    TransactionRoundTrip(TransactionBytes(u), t);
    TransactionRoundTrip(TransactionBytes(u), u);
  }
}
