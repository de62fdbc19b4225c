/**
  Measuring a Solana transaction that carries no length prefix (src/utils/solana-tx.ts).

  MeasuredSize is the scanner of the source, lax as written: a short compact-u16 counts as an
  empty vector of zero bytes and nothing checks the last vector against the buffer.
  TransactionEnd is the strict wire grammar, in which every byte consumed must be present.
 */
module SolanaTx {
  import opened Wrappers
  import opened Binary

  //
  // The scanner of the source
  //

  /** Past a compact-u16 count and as many one-byte items. */
  function SkipVector(buffer: seq<byte>, offset: nat): (next: nat)
    ensures next >= offset
  {
    var (count, length) := CompactOrEmpty(buffer, offset);
    offset + length + count
  }

  /**
    Past count records, each of fixedBytes bytes and two vectors: an instruction has a program
    index, accounts and data; an address-table lookup has a key, writable and readonly indexes.
   */
  function SkipRecords(buffer: seq<byte>, offset: nat, count: nat, fixedBytes: nat): (next: Option<nat>)
    ensures next.Some? ==> next.value >= offset
    decreases count
  {
    if count == 0 then Some(offset)
    else if offset + fixedBytes > |buffer| then None
    else SkipRecords(buffer, SkipVector(buffer, SkipVector(buffer, offset + fixedBytes)), count - 1, fixedBytes)
  }

  function SkipRecordVector(buffer: seq<byte>, offset: nat, fixedBytes: nat): Option<nat> {
    var (count, length) := CompactOrEmpty(buffer, offset);
    SkipRecords(buffer, offset + length, count, fixedBytes)
  }

  /** Past the message header, account keys, recent blockhash and instructions. */
  function SkipMessage(buffer: seq<byte>, offset: nat): (next: Option<nat>)
    ensures next.Some? ==> next.value >= offset + 36 && |buffer| >= offset + 36
  {
    if offset + 3 > |buffer| then None
    else
      var (keys, length) := CompactOrEmpty(buffer, offset + 3);
      var blockhash := offset + 3 + length + 32 * keys;
      if blockhash + 32 > |buffer| then None
      else SkipRecordVector(buffer, blockhash + 32, 1)
  }

  /** Past the signatures, when their number is acceptable and a message byte follows. */
  function SkipSignatures(buffer: seq<byte>): Option<nat> {
    var (signatures, length) := CompactOrEmpty(buffer, 0);
    if signatures == 0 || signatures > 64 || length + 64 * signatures >= |buffer| then None
    else Some(length + 64 * signatures)
  }

  function SkipVersionedMessage(buffer: seq<byte>, message: nat): Option<nat>
    requires message < |buffer|
  {
    if buffer[message] == 0x80 then
      var lookups :- SkipMessage(buffer, message + 1);
      SkipRecordVector(buffer, lookups, 32)
    else
      SkipMessage(buffer, message)
  }

  function MeasuredSize(buffer: seq<byte>): nat {
    var message := SkipSignatures(buffer);
    if message.None? then 0
    else
      var end := SkipVersionedMessage(buffer, message.value);
      if end.Some? then end.value else 0
  }

  method ReadCount(buffer: seq<byte>, offset: nat) returns (count: nat, length: nat)
    ensures (count, length) == CompactOrEmpty(buffer, offset)
  {
    var r := ReadCompactU16(buffer, offset);
    count, length := r.0, r.1;
  }

  /** The three record loops of the source differ in the bytes that precede the two vectors. */
  method ScanRecords(buffer: seq<byte>, start: nat, count: nat, fixedBytes: nat) returns (next: Option<nat>)
    ensures next == SkipRecords(buffer, start, count, fixedBytes)
  {
    hide CompactAt;
    var offset: nat := start;
    for i := 0 to count
      invariant SkipRecords(buffer, start, count, fixedBytes) == SkipRecords(buffer, offset, count - i, fixedBytes)
    {
      if offset + fixedBytes > |buffer| {
        return None;
      }
      offset := offset + fixedBytes;

      var first, firstBytes := ReadCount(buffer, offset);
      offset := offset + firstBytes;
      offset := offset + first;

      var second, secondBytes := ReadCount(buffer, offset);
      offset := offset + secondBytes;
      offset := offset + second;
    }
    return Some(offset);
  }

  method ScanMessage(buffer: seq<byte>, start: nat) returns (next: Option<nat>)
    ensures next == SkipMessage(buffer, start)
  {
    var offset: nat := start;
    if offset + 3 > |buffer| {
      return None;
    }
    offset := offset + 3;

    var numKeys, keyBytes := ReadCount(buffer, offset);
    offset := offset + keyBytes;
    offset := offset + numKeys * 32;
    if offset + 32 > |buffer| {
      return None;
    }
    offset := offset + 32;

    var numInstructions, instrBytes := ReadCount(buffer, offset);
    offset := offset + instrBytes;
    next := ScanRecords(buffer, offset, numInstructions, 1);
  }

  method ScanVersionedMessage(buffer: seq<byte>, start: nat) returns (next: Option<nat>)
    requires start < |buffer|
    ensures next == SkipVersionedMessage(buffer, start)
  {
    var offset: nat := start;
    var firstByte := buffer[offset];
    if firstByte == 0x80 {
      offset := offset + 1;
      next := ScanMessage(buffer, offset);
      if next.None? {
        return None;
      }
      offset := next.value;
      var numLookups, lookupBytes := ReadCount(buffer, offset);
      offset := offset + lookupBytes;
      next := ScanRecords(buffer, offset, numLookups, 32);
    } else {
      next := ScanMessage(buffer, offset);
    }
  }

  method MeasureTransactionSize(buffer: seq<byte>) returns (size: nat)
    ensures size == MeasuredSize(buffer)
  {
    var offset: nat := 0;
    var numSigs, sigBytes := ReadCount(buffer, offset);
    offset := offset + sigBytes;
    if numSigs == 0 || numSigs > 64 {
      return 0;
    }
    offset := offset + numSigs * 64;
    if offset >= |buffer| {
      return 0;
    }
    var end := ScanVersionedMessage(buffer, offset);
    size := if end.Some? then end.value else 0;
  }

  //
  // The strict grammar
  //

  function TakeBytes(buffer: seq<byte>, offset: nat, count: nat): Option<nat> {
    if offset + count <= |buffer| then Some(offset + count) else None
  }

  /** A compact-u16 count and that many items of itemBytes bytes. */
  function TakeVector(buffer: seq<byte>, offset: nat, itemBytes: nat): Option<nat> {
    var (count, length) :- CompactAt(buffer, offset);
    TakeBytes(buffer, offset + length, itemBytes * count)
  }

  function TakeRecords(buffer: seq<byte>, offset: nat, count: nat, fixedBytes: nat): (next: Option<nat>)
    requires offset <= |buffer|
    ensures next.Some? ==> offset <= next.value <= |buffer|
    decreases count
  {
    if count == 0 then Some(offset)
    else
      var first :- TakeBytes(buffer, offset, fixedBytes);
      var second :- TakeVector(buffer, first, 1);
      var next :- TakeVector(buffer, second, 1);
      TakeRecords(buffer, next, count - 1, fixedBytes)
  }

  function TakeRecordVector(buffer: seq<byte>, offset: nat, fixedBytes: nat): (next: Option<nat>)
    ensures next.Some? ==> offset <= next.value <= |buffer|
  {
    var (count, length) :- CompactAt(buffer, offset);
    TakeRecords(buffer, offset + length, count, fixedBytes)
  }

  function TakeMessage(buffer: seq<byte>, offset: nat): (next: Option<nat>)
    ensures next.Some? ==> offset < next.value <= |buffer|
  {
    var keys :- TakeBytes(buffer, offset, 3);
    var blockhash :- TakeVector(buffer, keys, 32);
    var instructions :- TakeBytes(buffer, blockhash, 32);
    TakeRecordVector(buffer, instructions, 1)
  }

  function TakeSignatures(buffer: seq<byte>): (message: Option<nat>)
    ensures message.Some? ==> 0 < message.value < |buffer|
  {
    var (signatures, length) :- CompactAt(buffer, 0);
    if signatures == 0 || signatures > 64 || length + 64 * signatures >= |buffer| then None
    else Some(length + 64 * signatures)
  }

  function TakeVersionedMessage(buffer: seq<byte>, message: nat): (next: Option<nat>)
    requires message < |buffer|
    ensures next.Some? ==> message < next.value <= |buffer|
  {
    if buffer[message] == 0x80 then
      var lookups :- TakeMessage(buffer, message + 1);
      TakeRecordVector(buffer, lookups, 32)
    else
      TakeMessage(buffer, message)
  }

  /** Where the transaction at the start of buffer ends, or None if buffer does not hold all of it. */
  function TransactionEnd(buffer: seq<byte>): (end: Option<nat>)
    ensures end.Some? ==> 0 < end.value <= |buffer|
  {
    var message :- TakeSignatures(buffer);
    TakeVersionedMessage(buffer, message)
  }

  // How the productions compose, for proofs that keep their bodies hidden.

  lemma RecordVectorEnd(buffer: seq<byte>, offset: nat, fixedBytes: nat, count: nat, length: nat)
    requires CompactAt(buffer, offset) == Some((count, length)) && offset + length <= |buffer|
    ensures TakeRecordVector(buffer, offset, fixedBytes) == TakeRecords(buffer, offset + length, count, fixedBytes)
  {
  }

  lemma MessageEnd(buffer: seq<byte>, offset: nat, blockhash: nat)
    requires TakeVector(buffer, offset + 3, 32) == Some(blockhash) && blockhash + 32 <= |buffer|
    requires offset + 3 <= |buffer|
    ensures TakeMessage(buffer, offset) == TakeRecordVector(buffer, blockhash + 32, 1)
  {
  }

  lemma SignedMessageEnd(buffer: seq<byte>, message: nat)
    requires TakeSignatures(buffer) == Some(message)
    ensures TransactionEnd(buffer) == TakeVersionedMessage(buffer, message)
  {
  }

  //
  // From the grammar to the scanner
  //

  lemma VectorAgrees(buffer: seq<byte>, offset: nat)
    requires TakeVector(buffer, offset, 1).Some?
    ensures SkipVector(buffer, offset) == TakeVector(buffer, offset, 1).value
  {
  }

  lemma {:induction false} RecordsAgree(buffer: seq<byte>, offset: nat, count: nat, fixedBytes: nat)
    requires offset <= |buffer| && TakeRecords(buffer, offset, count, fixedBytes).Some?
    ensures SkipRecords(buffer, offset, count, fixedBytes) == TakeRecords(buffer, offset, count, fixedBytes)
    decreases count
  {
    hide CompactAt, SkipVector;
    if count > 0 {
      var second := TakeVector(buffer, offset + fixedBytes, 1).value;
      var next := TakeVector(buffer, second, 1).value;
      VectorAgrees(buffer, offset + fixedBytes);
      VectorAgrees(buffer, second);
      RecordsAgree(buffer, next, count - 1, fixedBytes);
    }
  }

  lemma RecordVectorAgrees(buffer: seq<byte>, offset: nat, fixedBytes: nat)
    requires TakeRecordVector(buffer, offset, fixedBytes).Some?
    ensures SkipRecordVector(buffer, offset, fixedBytes) == TakeRecordVector(buffer, offset, fixedBytes)
  {
    var (count, length) := CompactAt(buffer, offset).value;
    RecordsAgree(buffer, offset + length, count, fixedBytes);
  }

  lemma MessageAgrees(buffer: seq<byte>, offset: nat)
    requires TakeMessage(buffer, offset).Some?
    ensures SkipMessage(buffer, offset) == TakeMessage(buffer, offset)
  {
    var blockhash := TakeVector(buffer, offset + 3, 32).value;
    RecordVectorAgrees(buffer, blockhash + 32, 1);
  }

  lemma VersionedMessageAgrees(buffer: seq<byte>, message: nat)
    requires message < |buffer| && TakeVersionedMessage(buffer, message).Some?
    ensures SkipVersionedMessage(buffer, message) == TakeVersionedMessage(buffer, message)
  {
    if buffer[message] == 0x80 {
      MessageAgrees(buffer, message + 1);
      RecordVectorAgrees(buffer, TakeMessage(buffer, message + 1).value, 32);
    } else {
      MessageAgrees(buffer, message);
    }
  }

  lemma SignaturesAgree(buffer: seq<byte>)
    requires TakeSignatures(buffer).Some?
    ensures SkipSignatures(buffer) == TakeSignatures(buffer)
  {
  }

  /** If the grammar consumes n bytes, the scanner measures n. */
  lemma StrictImpliesMeasured(buffer: seq<byte>)
    requires TransactionEnd(buffer).Some?
    ensures MeasuredSize(buffer) == TransactionEnd(buffer).value
  {
    SignaturesAgree(buffer);
    VersionedMessageAgrees(buffer, TakeSignatures(buffer).value);
  }

  //
  // From the scanner to the grammar: a short read leaves the offset within 2 of the end
  //

  lemma VectorComplete(buffer: seq<byte>, offset: nat)
    requires SkipVector(buffer, offset) + 2 < |buffer|
    ensures TakeVector(buffer, offset, 1) == Some(SkipVector(buffer, offset))
  {
  }

  lemma {:induction false} RecordsComplete(buffer: seq<byte>, offset: nat, count: nat, fixedBytes: nat)
    requires SkipRecords(buffer, offset, count, fixedBytes).Some?
    requires SkipRecords(buffer, offset, count, fixedBytes).value + 2 < |buffer|
    ensures TakeRecords(buffer, offset, count, fixedBytes) == SkipRecords(buffer, offset, count, fixedBytes)
    decreases count
  {
    if count > 0 {
      var second := SkipVector(buffer, offset + fixedBytes);
      RecordsComplete(buffer, SkipVector(buffer, second), count - 1, fixedBytes);
      VectorComplete(buffer, offset + fixedBytes);
      VectorComplete(buffer, second);
    }
  }

  lemma RecordVectorComplete(buffer: seq<byte>, offset: nat, fixedBytes: nat)
    requires SkipRecordVector(buffer, offset, fixedBytes).Some?
    requires SkipRecordVector(buffer, offset, fixedBytes).value + 2 < |buffer|
    ensures TakeRecordVector(buffer, offset, fixedBytes) == SkipRecordVector(buffer, offset, fixedBytes)
  {
    var (count, length) := CompactOrEmpty(buffer, offset);
    RecordsComplete(buffer, offset + length, count, fixedBytes);
  }

  lemma MessageComplete(buffer: seq<byte>, offset: nat)
    requires SkipMessage(buffer, offset).Some? && SkipMessage(buffer, offset).value + 2 < |buffer|
    ensures TakeMessage(buffer, offset) == SkipMessage(buffer, offset)
  {
    var (keys, length) := CompactOrEmpty(buffer, offset + 3);
    RecordVectorComplete(buffer, offset + 3 + length + 32 * keys + 32, 1);
  }

  lemma VersionedMessageComplete(buffer: seq<byte>, message: nat)
    requires message < |buffer| && SkipVersionedMessage(buffer, message).Some?
    requires SkipVersionedMessage(buffer, message).value + 2 < |buffer|
    ensures TakeVersionedMessage(buffer, message) == SkipVersionedMessage(buffer, message)
  {
    if buffer[message] == 0x80 {
      RecordVectorComplete(buffer, SkipMessage(buffer, message + 1).value, 32);
      MessageComplete(buffer, message + 1);
    } else {
      MessageComplete(buffer, message);
    }
  }

  /** A measured size that leaves more than 2 bytes of the buffer is the size of a strict transaction. */
  lemma MeasuredImpliesStrict(buffer: seq<byte>)
    requires 0 < MeasuredSize(buffer) && MeasuredSize(buffer) + 2 < |buffer|
    ensures TransactionEnd(buffer) == Some(MeasuredSize(buffer))
  {
    VersionedMessageComplete(buffer, SkipSignatures(buffer).value);
  }

  //
  // The grammar looks only at the bytes it consumes
  //

  ghost predicate Agree(a: seq<byte>, b: seq<byte>, end: nat) {
    end <= |a| && end <= |b| && forall i :: 0 <= i < end ==> a[i] == b[i]
  }

  lemma CompactLocal(a: seq<byte>, b: seq<byte>, offset: nat)
    requires CompactAt(a, offset).Some? && Agree(a, b, offset + CompactAt(a, offset).value.1)
    ensures CompactAt(b, offset) == CompactAt(a, offset)
  {
  }

  lemma VectorLocal(a: seq<byte>, b: seq<byte>, offset: nat, itemBytes: nat)
    requires TakeVector(a, offset, itemBytes).Some? && Agree(a, b, TakeVector(a, offset, itemBytes).value)
    ensures TakeVector(b, offset, itemBytes) == TakeVector(a, offset, itemBytes)
  {
    hide CompactAt;
    CompactLocal(a, b, offset);
  }

  lemma {:induction false} RecordsLocal(a: seq<byte>, b: seq<byte>, offset: nat, count: nat, fixedBytes: nat)
    requires offset <= |a| && offset <= |b| && TakeRecords(a, offset, count, fixedBytes).Some?
    requires Agree(a, b, TakeRecords(a, offset, count, fixedBytes).value)
    ensures TakeRecords(b, offset, count, fixedBytes) == TakeRecords(a, offset, count, fixedBytes)
    decreases count
  {
    if count > 0 {
      var second := TakeVector(a, offset + fixedBytes, 1).value;
      var next := TakeVector(a, second, 1).value;
      VectorLocal(a, b, offset + fixedBytes, 1);
      VectorLocal(a, b, second, 1);
      RecordsLocal(a, b, next, count - 1, fixedBytes);
    }
  }

  lemma RecordVectorLocal(a: seq<byte>, b: seq<byte>, offset: nat, fixedBytes: nat)
    requires TakeRecordVector(a, offset, fixedBytes).Some?
    requires Agree(a, b, TakeRecordVector(a, offset, fixedBytes).value)
    ensures TakeRecordVector(b, offset, fixedBytes) == TakeRecordVector(a, offset, fixedBytes)
  {
    var (count, length) := CompactAt(a, offset).value;
    hide CompactAt, TakeRecords;
    CompactLocal(a, b, offset);
    RecordsLocal(a, b, offset + length, count, fixedBytes);
  }

  lemma MessageLocal(a: seq<byte>, b: seq<byte>, offset: nat)
    requires TakeMessage(a, offset).Some? && Agree(a, b, TakeMessage(a, offset).value)
    ensures TakeMessage(b, offset) == TakeMessage(a, offset)
  {
    var blockhash := TakeVector(a, offset + 3, 32).value;
    hide TakeVector, TakeRecordVector;
    VectorLocal(a, b, offset + 3, 32);
    RecordVectorLocal(a, b, blockhash + 32, 1);
  }

  lemma VersionedMessageLocal(a: seq<byte>, b: seq<byte>, message: nat)
    requires message < |a| && TakeVersionedMessage(a, message).Some?
    requires Agree(a, b, TakeVersionedMessage(a, message).value)
    ensures TakeVersionedMessage(b, message) == TakeVersionedMessage(a, message)
  {
    if a[message] == 0x80 {
      MessageLocal(a, b, message + 1);
      RecordVectorLocal(a, b, TakeMessage(a, message + 1).value, 32);
    } else {
      MessageLocal(a, b, message);
    }
  }

  /** Any buffer that starts with the consumed bytes holds the same transaction. */
  lemma TransactionEndLocal(a: seq<byte>, b: seq<byte>)
    requires TransactionEnd(a).Some? && Agree(a, b, TransactionEnd(a).value)
    ensures TransactionEnd(b) == TransactionEnd(a)
  {
    CompactLocal(a, b, 0);
    VersionedMessageLocal(a, b, TakeSignatures(a).value);
  }

  //
  // How far the measure can be trusted
  //

  /**
    The condition on the input is the grammar's: the buffer begins with a complete transaction of this
    size. A caller who has only the scanner can decide it: cut the buffer at the size, append three
    zero bytes and measure again.
   */
  lemma MeasureIsStrictIff(buffer: seq<byte>, size: nat)
    requires 0 < size <= |buffer|
    ensures TransactionEnd(buffer) == Some(size) <==> MeasuredSize(buffer[..size] + [0, 0, 0]) == size
  {
    var padded := buffer[..size] + [0, 0, 0];
    if TransactionEnd(buffer) == Some(size) {
      TransactionEndLocal(buffer, padded);
      StrictImpliesMeasured(padded);
    }
    if MeasuredSize(padded) == size {
      MeasuredImpliesStrict(padded);
      TransactionEndLocal(padded, buffer);
    }
  }

  /**
    The slack of 2 bytes cannot be lowered: this buffer is 2 bytes longer than the size measured
    for it, yet its instruction count is cut short and no transaction is complete in it.
   */
  lemma SlackIsTight() returns (buffer: seq<byte>)
    ensures MeasuredSize(buffer) == 101 && |buffer| == 103
    ensures TransactionEnd(buffer).None?
  {
    var zeros: seq<byte> := seq(100, i => 0);
    buffer := [1] + zeros + [0x80, 0x80];
    assert buffer[0] == 1 && buffer[65] == 0 && buffer[68] == 0 && buffer[101] == 0x80 && buffer[102] == 0x80;
  }

  /** The first transaction stays the same whatever follows it, once 3 bytes follow it. */
  lemma MeasureIsStable(buffer: seq<byte>, after: seq<byte>)
    requires 0 < MeasuredSize(buffer) && MeasuredSize(buffer) + 2 < |buffer|
    ensures MeasuredSize(buffer[..MeasuredSize(buffer)] + after) == MeasuredSize(buffer)
    ensures TransactionEnd(buffer[..MeasuredSize(buffer)]) == Some(MeasuredSize(buffer))
  {
    var size := MeasuredSize(buffer);
    MeasuredImpliesStrict(buffer);
    TransactionEndLocal(buffer, buffer[..size]);
    var again := buffer[..size] + after;
    TransactionEndLocal(buffer, again);
    StrictImpliesMeasured(again);
  }

  /** The smallest transaction the scanner reports, and the bytes that must be there for it. */
  lemma MeasuredSizeAtLeast(buffer: seq<byte>)
    requires MeasuredSize(buffer) != 0
    ensures MeasuredSize(buffer) >= 101 && |buffer| >= 101
  {
  }
}
