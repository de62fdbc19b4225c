/**
  Decoding a bincode Vec<Entry> whose transactions have no length prefix (src/utils/entries.ts).
 */
module Entries {
  import opened Binary
  import opened Doubles
  import opened SolanaTx
  import opened TransactionFormat

  datatype Entry = Entry(numHashes: nat, hash: bytes, transactions: seq<bytes>)

  /** The source's function either returns or throws; offset is where the read failed. */
  datatype Outcome<+T> = Returned(value: T) | Thrown(offset: nat)

  function Min(a: nat, b: nat): nat {
    if a < b then a else b
  }

  /** JavaScript's slice, which stops at the end of the buffer. */
  function Slice(buffer: bytes, start: nat, end: nat): bytes
    requires start <= end
  {
    buffer[Min(start, |buffer|)..Min(end, |buffer|)]
  }

  //
  // What the decoder computes
  //

  /** The loops count in doubles. Exact counts are the reference that the rounding is compared with. */
  function Count(announced: nat, exact: bool): nat {
    if exact then announced else Number(announced)
  }

  /** Up to count transactions from offset on, and where the scan stops. */
  function ScanTransactions(buffer: bytes, offset: nat, count: nat): (r: (seq<bytes>, nat))
    ensures r.1 >= offset
    decreases count
  {
    if count == 0 || offset >= |buffer| then ([], offset)
    else
      var size := MeasuredSize(buffer[offset..]);
      if size == 0 then ([], offset)
      else
        var (rest, next) := ScanTransactions(buffer, offset + size, count - 1);
        ([Slice(buffer, offset, offset + size)] + rest, next)
  }

  /** An entry together with the transaction count that its header announced. */
  datatype ScannedEntry = ScannedEntry(entry: Entry, announced: nat)

  type Scan = Outcome<(seq<ScannedEntry>, nat)>

  function Prepend(scanned: seq<ScannedEntry>, rest: Scan): Scan {
    match rest
    case Returned((more, end)) => Returned((scanned + more, end))
    case Thrown(at) => Thrown(at)
  }

  function ScanEntry(buffer: bytes, offset: nat, exact: bool): (ScannedEntry, nat)
    requires offset + 48 <= |buffer|
  {
    var announced := ReadU64(buffer, offset + 40);
    var (transactions, next) := ScanTransactions(buffer, offset + 48, Count(announced, exact));
    var entry := Entry(ReadU64(buffer, offset), Slice(buffer, offset + 8, offset + 40), transactions);
    (ScannedEntry(entry, announced), next)
  }

  function ScanEntries(buffer: bytes, offset: nat, count: nat, exact: bool): Scan
    decreases count
  {
    if count == 0 then Returned(([], offset))
    else if offset + 48 > |buffer| then Thrown(offset + 40)
    else
      var (scanned, next) := ScanEntry(buffer, offset, exact);
      Prepend([scanned], ScanEntries(buffer, next, count - 1, exact))
  }

  function ScanAll(buffer: bytes, exact: bool): Scan {
    ScanEntries(buffer, 8, Count(ReadU64(buffer, 0), exact), exact)
  }

  function PlainEntries(scanned: seq<ScannedEntry>): (entries: seq<Entry>)
    ensures |entries| == |scanned|
  {
    seq(|scanned|, i requires 0 <= i < |scanned| => scanned[i].entry)
  }

  function Result(scan: Scan): Outcome<seq<Entry>> {
    match scan
    case Returned((scanned, _)) => Returned(PlainEntries(scanned))
    case Thrown(at) => Thrown(at)
  }

  /** The source's function; both loops end because each round moves the offset through the buffer. */
  method DeserializeEntries(entriesBytes: bytes) returns (result: Outcome<seq<Entry>>)
    ensures result == Result(ScanAll(entriesBytes, false))
  {
    hide ReadU64, Number, ScanEntry;
    var offset: nat := 0;
    var length := Number(ReadU64(entriesBytes, offset));
    offset := offset + 8;

    var entries: seq<Entry> := [];
    ghost var scanned: seq<ScannedEntry> := [];
    PrependNothing(ScanAll(entriesBytes, false));
    var i: nat := 0;
    while i < length
      invariant i <= length
      invariant entries == PlainEntries(scanned)
      invariant ScanAll(entriesBytes, false)
             == Prepend(scanned, ScanEntries(entriesBytes, offset, length - i, false))
      decreases |entriesBytes| - offset
    {
      ghost var start := offset;
      var entry, next := TakeEntry(entriesBytes, offset);
      if entry.Thrown? {
        return Thrown(entry.offset);
      }
      offset := next;
      entries := entries + [entry.value];
      i := i + 1;

      ghost var step := [ScanEntry(entriesBytes, start, false).0];
      PrependTwice(scanned, step, ScanEntries(entriesBytes, offset, length - i, false));
      scanned := scanned + step;
    }
    assert scanned + [] == scanned;
    return Returned(entries);
  }

  /** One round of the outer loop: the entry read at start and the offset after it. */
  method TakeEntry(entriesBytes: bytes, start: nat) returns (entry: Outcome<Entry>, offset: nat)
    ensures start + 48 > |entriesBytes| ==> entry == Thrown(start + 40)
    ensures start + 48 <= |entriesBytes| ==>
      var (scanned, next) := ScanEntry(entriesBytes, start, false);
      entry == Returned(scanned.entry) && offset == next && next >= start + 48
  {
    hide ReadU64, Number, ScanTransactions;
    offset := start;
    var numHashes := ReadU64(entriesBytes, offset);
    offset := offset + 8;
    var hash := Slice(entriesBytes, offset, offset + 32);
    offset := offset + 32;
    if offset + 8 > |entriesBytes| {
      return Thrown(offset), offset;
    }
    var txCount := Number(ReadU64(entriesBytes, offset));
    offset := offset + 8;
    var transactions;
    transactions, offset := TakeTransactions(entriesBytes, offset, txCount);
    entry := Returned(Entry(numHashes, hash, transactions));
  }

  /** The inner loop of the source's function. */
  method TakeTransactions(entriesBytes: bytes, start: nat, txCount: nat)
    returns (transactions: seq<bytes>, offset: nat)
    ensures (transactions, offset) == ScanTransactions(entriesBytes, start, txCount)
  {
    hide MeasuredSize, Slice;
    transactions, offset := [], start;
    assert [] + ScanTransactions(entriesBytes, start, txCount).0 == ScanTransactions(entriesBytes, start, txCount).0;
    var t := 0;
    while t < txCount
      invariant 0 <= t <= txCount
      invariant var (rest, next) := ScanTransactions(entriesBytes, offset, txCount - t);
                ScanTransactions(entriesBytes, start, txCount) == (transactions + rest, next)
      decreases |entriesBytes| - offset
    {
      if offset >= |entriesBytes| {
        assert ScanTransactions(entriesBytes, offset, txCount - t) == ([], offset);
        break;
      }
      var remaining := entriesBytes[offset..];
      var txSize := MeasureTransactionSize(remaining);
      if txSize == 0 {
        assert ScanTransactions(entriesBytes, offset, txCount - t) == ([], offset);
        break;
      }
      var txBytes := Slice(entriesBytes, offset, offset + txSize);
      ghost var rest := ScanTransactions(entriesBytes, offset + txSize, txCount - t - 1).0;
      assert transactions + ([txBytes] + rest) == (transactions + [txBytes]) + rest;
      transactions := transactions + [txBytes];
      offset := offset + txSize;
      t := t + 1;
    }
    assert transactions + [] == transactions;
  }

  lemma PrependNothing(scan: Scan)
    ensures Prepend([], scan) == scan
  {
    if scan.Returned? {
      assert [] + scan.value.0 == scan.value.0;
    }
  }

  lemma PrependTwice(a: seq<ScannedEntry>, b: seq<ScannedEntry>, rest: Scan)
    ensures Prepend(a, Prepend(b, rest)) == Prepend(a + b, rest)
  {
    if rest.Returned? {
      assert a + (b + rest.value.0) == (a + b) + rest.value.0;
    }
  }
}
