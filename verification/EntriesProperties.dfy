/**
  What the decoder of Entries guarantees: it undoes the bincode encoding, what it returns prints
  back to the bytes it consumed, and its work is bounded by the input.
 */
module EntriesProperties {
  import opened Wrappers
  import opened Binary
  import opened Doubles
  import opened SolanaTx
  import opened TransactionFormat
  import opened Entries

  const U64_LIMIT: nat := 0x1_0000_0000_0000_0000

  //
  // The encoder
  //

  predicate IsTransaction(tx: bytes) {
    TransactionEnd(tx) == Some(|tx|)
  }

  predicate AllTransactions(transactions: seq<bytes>) {
    forall i :: 0 <= i < |transactions| ==> IsTransaction(transactions[i])
  }

  predicate WellFormedEntry(e: Entry) {
    e.numHashes < U64_LIMIT && |e.hash| == 32 && |e.transactions| < EXACT && AllTransactions(e.transactions)
  }

  /** The header of an entry may announce more transactions than follow it. */
  function ScannedBytes(s: ScannedEntry): bytes {
    U64Bytes(s.entry.numHashes) + s.entry.hash + U64Bytes(s.announced) + Concat(s.entry.transactions)
  }

  function AllScannedBytes(scanned: seq<ScannedEntry>): bytes {
    if scanned == [] then [] else ScannedBytes(scanned[0]) + AllScannedBytes(scanned[1..])
  }

  /** Headers that announce exactly the transactions that follow them. */
  function Announced(entries: seq<Entry>): (scanned: seq<ScannedEntry>)
    ensures |scanned| == |entries|
  {
    if entries == [] then []
    else [ScannedEntry(entries[0], |entries[0].transactions|)] + Announced(entries[1..])
  }

  function EntriesBytes(entries: seq<Entry>): bytes {
    U64Bytes(|entries|) + AllScannedBytes(Announced(entries))
  }

  lemma {:induction false} PlainOfAnnounced(entries: seq<Entry>)
    ensures PlainEntries(Announced(entries)) == entries
  {
    if entries != [] {
      PlainOfAnnounced(entries[1..]);
      assert PlainEntries(Announced(entries)) == [entries[0]] + PlainEntries(Announced(entries[1..]));
    }
  }

  //
  // Round trip
  //

  lemma {:induction false} TransactionsRoundTrip(buffer: bytes, offset: nat, transactions: seq<bytes>)
    requires AllTransactions(transactions)
    requires HasAt(buffer, offset, Concat(transactions))
    ensures ScanTransactions(buffer, offset, |transactions|) == (transactions, offset + |Concat(transactions)|)
    decreases |transactions|
  {
    hide HasAt, IsTransaction, ScanTransactions, MeasuredSize, Slice;
    if transactions == [] {
      NoTransactions(buffer, offset);
    } else {
      var tx, rest := transactions[0], transactions[1..];
      assert IsTransaction(tx);
      assert ScanTransactions(buffer, offset, |transactions|) == ([tx] + rest, offset + |tx| + |Concat(rest)|) by {
        HasAtSplit(buffer, offset, tx, Concat(rest));
        OneTransaction(buffer, offset, tx);
        TransactionsRoundTrip(buffer, offset + |tx|, rest);
        FirstTransaction(buffer, offset, |transactions|, tx);
      }
      assert transactions == [tx] + rest;
    }
  }

  lemma NoTransactions(buffer: bytes, offset: nat)
    ensures ScanTransactions(buffer, offset, 0) == ([], offset)
  {
  }

  lemma FirstTransaction(buffer: bytes, offset: nat, count: nat, tx: bytes)
    requires count > 0 && offset < |buffer| && |tx| > 0
    requires MeasuredSize(buffer[offset..]) == |tx| && Slice(buffer, offset, offset + |tx|) == tx
    ensures var (rest, next) := ScanTransactions(buffer, offset + |tx|, count - 1);
            ScanTransactions(buffer, offset, count) == ([tx] + rest, next)
  {
    hide MeasuredSize, Slice;
  }

  lemma OneTransaction(buffer: bytes, offset: nat, tx: bytes)
    requires IsTransaction(tx) && HasAt(buffer, offset, tx)
    ensures |tx| > 0 && offset < |buffer| && MeasuredSize(buffer[offset..]) == |tx|
    ensures Slice(buffer, offset, offset + |tx|) == tx
  {
    hide TransactionEnd, MeasuredSize;
    HasAtIndex(buffer, offset, tx);
    TransactionEndLocal(tx, buffer[offset..]);
    StrictImpliesMeasured(buffer[offset..]);
  }

  lemma EntryParts(buffer: bytes, offset: nat, s: ScannedEntry)
    requires |s.entry.hash| == 32 && HasAt(buffer, offset, ScannedBytes(s))
    ensures offset + 48 <= |buffer| && |ScannedBytes(s)| == 48 + |Concat(s.entry.transactions)|
    ensures HasAt(buffer, offset, U64Bytes(s.entry.numHashes))
    ensures Slice(buffer, offset + 8, offset + 40) == s.entry.hash
    ensures HasAt(buffer, offset + 40, U64Bytes(s.announced))
    ensures HasAt(buffer, offset + 48, Concat(s.entry.transactions))
  {
    hide Concat, LittleEndianBytes;
    var hashes, count := U64Bytes(s.entry.numHashes), U64Bytes(s.announced);
    HasAtSplit(buffer, offset, hashes + s.entry.hash + count, Concat(s.entry.transactions));
    HasAtSplit(buffer, offset, hashes + s.entry.hash, count);
    HasAtSplit(buffer, offset, hashes, s.entry.hash);
  }

  lemma EntryRoundTrip(buffer: bytes, offset: nat, e: Entry, exact: bool)
    requires WellFormedEntry(e)
    requires HasAt(buffer, offset, ScannedBytes(ScannedEntry(e, |e.transactions|)))
    ensures offset + 48 <= |buffer|
    ensures var s := ScannedEntry(e, |e.transactions|);
            ScanEntry(buffer, offset, exact) == (s, offset + |ScannedBytes(s)|)
  {
    hide HasAt, ReadU64, ScannedBytes, ScanTransactions, ScanEntry, IsTransaction, Slice, Number, U64Bytes, Concat;
    var s := ScannedEntry(e, |e.transactions|);
    EntryParts(buffer, offset, s);
    assert ScanEntry(buffer, offset, exact) == (s, offset + |ScannedBytes(s)|) by {
      U64RoundTrip(buffer, offset, e.numHashes);
      U64RoundTrip(buffer, offset + 40, s.announced);
      TransactionsRoundTrip(buffer, offset + 48, e.transactions);
      EntryFields(buffer, offset, s, exact);
    }
  }

  lemma EntryFields(buffer: bytes, offset: nat, s: ScannedEntry, exact: bool)
    requires offset + 48 <= |buffer| && s.announced < EXACT
    requires ReadU64(buffer, offset) == s.entry.numHashes && ReadU64(buffer, offset + 40) == s.announced
    requires Slice(buffer, offset + 8, offset + 40) == s.entry.hash
    requires ScanTransactions(buffer, offset + 48, s.announced).0 == s.entry.transactions
    ensures ScanEntry(buffer, offset, exact) == (s, ScanTransactions(buffer, offset + 48, s.announced).1)
  {
    hide ReadU64, Slice, ScanTransactions;
  }

  /** A header that announces exactly the well-formed transactions that follow it. */
  predicate Faithful(s: ScannedEntry) {
    WellFormedEntry(s.entry) && s.announced == |s.entry.transactions|
  }

  predicate AllFaithful(scanned: seq<ScannedEntry>) {
    forall i :: 0 <= i < |scanned| ==> Faithful(scanned[i])
  }

  lemma {:induction false} EntriesFromRoundTrip(buffer: bytes, offset: nat, scanned: seq<ScannedEntry>, exact: bool)
    requires AllFaithful(scanned)
    requires HasAt(buffer, offset, AllScannedBytes(scanned))
    ensures ScanEntries(buffer, offset, |scanned|, exact)
         == Returned((scanned, offset + |AllScannedBytes(scanned)|))
    decreases |scanned|
  {
    hide HasAt, ScanEntry, ScannedBytes, WellFormedEntry, ScanEntries;
    if scanned == [] {
      NoEntries(buffer, offset, exact);
    } else {
      var s, rest := scanned[0], scanned[1..];
      var next := offset + |ScannedBytes(s)|;
      assert scanned == [s] + rest;
      assert Faithful(s);
      assert ScanEntries(buffer, offset, |scanned|, exact)
          == Prepend([s], Returned((rest, next + |AllScannedBytes(rest)|))) by {
        FirstScannedBytes(buffer, offset, scanned);
        EntryRoundTrip(buffer, offset, s.entry, exact);
        EntriesFromRoundTrip(buffer, next, rest, exact);
        FirstEntry(buffer, offset, |scanned|, s, exact);
      }
    }
  }

  lemma FirstScannedBytes(buffer: bytes, offset: nat, scanned: seq<ScannedEntry>)
    requires scanned != [] && HasAt(buffer, offset, AllScannedBytes(scanned))
    ensures HasAt(buffer, offset, ScannedBytes(scanned[0]))
    ensures HasAt(buffer, offset + |ScannedBytes(scanned[0])|, AllScannedBytes(scanned[1..]))
    ensures |AllScannedBytes(scanned)| == |ScannedBytes(scanned[0])| + |AllScannedBytes(scanned[1..])|
  {
    hide HasAt, ScannedBytes;
    HasAtSplit(buffer, offset, ScannedBytes(scanned[0]), AllScannedBytes(scanned[1..]));
  }

  lemma NoEntries(buffer: bytes, offset: nat, exact: bool)
    ensures ScanEntries(buffer, offset, 0, exact) == Returned(([], offset))
  {
  }

  lemma FirstEntry(buffer: bytes, offset: nat, count: nat, s: ScannedEntry, exact: bool)
    requires count > 0 && offset + 48 <= |buffer| && ScanEntry(buffer, offset, exact).0 == s
    ensures ScanEntries(buffer, offset, count, exact)
         == Prepend([s], ScanEntries(buffer, ScanEntry(buffer, offset, exact).1, count - 1, exact))
  {
    hide ScanEntry;
  }

  lemma {:induction false} AnnouncedIsFaithful(entries: seq<Entry>)
    requires forall i :: 0 <= i < |entries| ==> WellFormedEntry(entries[i])
    ensures AllFaithful(Announced(entries))
  {
    if entries != [] {
      AnnouncedIsFaithful(entries[1..]);
    }
  }

  /** Decoding the encoding of well-formed entries gives them back, whatever bytes follow. */
  lemma EntriesRoundTrip(entries: seq<Entry>, after: bytes)
    requires |entries| < EXACT && forall i :: 0 <= i < |entries| ==> WellFormedEntry(entries[i])
    ensures Result(ScanAll(EntriesBytes(entries) + after, false)) == Returned(entries)
  {
    var buffer := EntriesBytes(entries) + after;
    var scanned := Announced(entries);
    assert HasAt(buffer, 0, EntriesBytes(entries));
    hide HasAt, ReadU64, AllScannedBytes, Faithful, WellFormedEntry, ScanEntries;
    HasAtSplit(buffer, 0, U64Bytes(|entries|), AllScannedBytes(scanned));
    U64RoundTrip(buffer, 0, |entries|);
    AnnouncedIsFaithful(entries);
    EntriesFromRoundTrip(buffer, 8, scanned, false);
    PlainOfAnnounced(entries);
  }

  //
  // Parse, then print
  //

  lemma SlicesMeet(buffer: bytes, a: nat, b: nat, c: nat)
    requires a <= b <= c
    ensures Slice(buffer, a, b) + Slice(buffer, b, c) == Slice(buffer, a, c)
  {
  }

  /** The transaction slices are consecutive and cover the bytes that the scan passed. */
  lemma {:induction false} TransactionsReprint(buffer: bytes, offset: nat, count: nat)
    ensures var (transactions, next) := ScanTransactions(buffer, offset, count);
            Concat(transactions) == Slice(buffer, offset, next)
    decreases count
  {
    hide MeasuredSize;
    if count > 0 && offset < |buffer| && MeasuredSize(buffer[offset..]) != 0 {
      var size := MeasuredSize(buffer[offset..]);
      var (rest, next) := ScanTransactions(buffer, offset + size, count - 1);
      TransactionsReprint(buffer, offset + size, count - 1);
      SlicesMeet(buffer, offset, offset + size, next);
      var tx := Slice(buffer, offset, offset + size);
      assert ([tx] + rest)[1..] == rest;
    }
  }

  lemma U64Reprint(buffer: bytes, offset: nat)
    requires offset + 8 <= |buffer|
    ensures U64Bytes(ReadU64(buffer, offset)) == Slice(buffer, offset, offset + 8)
  {
    LittleEndianReprint(buffer, offset, 8);
  }

  lemma EntryReprint(buffer: bytes, offset: nat, exact: bool)
    requires offset + 48 <= |buffer|
    ensures var (s, next) := ScanEntry(buffer, offset, exact);
            next >= offset + 48 && ScannedBytes(s) == Slice(buffer, offset, next)
  {
    hide ReadU64, U64Bytes, ScanTransactions, Concat, Slice;
    var (s, next) := ScanEntry(buffer, offset, exact);
    U64Reprint(buffer, offset);
    U64Reprint(buffer, offset + 40);
    TransactionsReprint(buffer, offset + 48, Count(s.announced, exact));
    SlicesMeet(buffer, offset, offset + 8, offset + 40);
    SlicesMeet(buffer, offset, offset + 40, offset + 48);
    SlicesMeet(buffer, offset, offset + 48, next);
  }

  /** A scan that starts within the buffer: every entry begins where the one before it ended. */
  lemma {:induction false} EntriesFromReprint(buffer: bytes, offset: nat, count: nat, exact: bool)
    requires ScanEntries(buffer, offset, count, exact).Returned?
    ensures var (scanned, end) := ScanEntries(buffer, offset, count, exact).value;
            && |scanned| == count && end >= offset
            && AllScannedBytes(scanned) == Slice(buffer, offset, end)
    decreases count
  {
    hide ScanEntry, ScannedBytes;
    if count > 0 {
      var (s, next) := ScanEntry(buffer, offset, exact);
      EntryReprint(buffer, offset, exact);
      EntriesFromReprint(buffer, next, count - 1, exact);
      var (rest, end) := ScanEntries(buffer, next, count - 1, exact).value;
      assert ([s] + rest)[1..] == rest;
      SlicesMeet(buffer, offset, next, end);
    }
  }

  /**
    Whatever the decoder returns accounts for the bytes up to the final offset: the length word,
    then header and transaction slices entry by entry, without gap or overlap.
   */
  lemma ParseThenPrint(buffer: bytes)
    requires |buffer| >= 8 && ScanAll(buffer, false).Returned?
    ensures var (scanned, end) := ScanAll(buffer, false).value;
            && |scanned| == Number(ReadU64(buffer, 0))
            && U64Bytes(ReadU64(buffer, 0)) + AllScannedBytes(scanned) == buffer[..Min(end, |buffer|)]
  {
    hide ReadU64, U64Bytes, Number, ScanEntries, AllScannedBytes;
    var (scanned, end) := ScanAll(buffer, false).value;
    U64Reprint(buffer, 0);
    EntriesFromReprint(buffer, 8, Number(ReadU64(buffer, 0)), false);
    SlicesMeet(buffer, 0, 8, end);
  }

  //
  // Work is bounded by the input, not by the counts it announces
  //

  function TransactionCount(scanned: seq<ScannedEntry>): nat {
    if scanned == [] then 0 else |scanned[0].entry.transactions| + TransactionCount(scanned[1..])
  }

  lemma {:induction false} TransactionsBounded(buffer: bytes, offset: nat, count: nat)
    ensures var (transactions, next) := ScanTransactions(buffer, offset, count);
            transactions == [] || offset + 101 * |transactions| <= Min(next, |buffer|)
    decreases count
  {
    hide MeasuredSize;
    if count > 0 && offset < |buffer| && MeasuredSize(buffer[offset..]) != 0 {
      MeasuredSizeAtLeast(buffer[offset..]);
      TransactionsBounded(buffer, offset + MeasuredSize(buffer[offset..]), count - 1);
    }
  }

  lemma {:induction false} EntriesFromBounded(buffer: bytes, offset: nat, count: nat, exact: bool)
    requires ScanEntries(buffer, offset, count, exact).Returned?
    ensures var (scanned, end) := ScanEntries(buffer, offset, count, exact).value;
            && |scanned| == count
            && (count > 0 ==> offset + 48 * count + 101 * TransactionCount(scanned) <= |buffer|)
    decreases count
  {
    hide ScanTransactions, ReadU64, Slice, Number;
    if count > 0 {
      var (s, next) := ScanEntry(buffer, offset, exact);
      TransactionsBounded(buffer, offset + 48, Count(s.announced, exact));
      EntriesFromBounded(buffer, next, count - 1, exact);
      var rest := ScanEntries(buffer, next, count - 1, exact).value.0;
      assert ([s] + rest)[1..] == rest;
    }
  }

  /** n entries with T transactions in all need 8 + 48 n + 101 T bytes of input. */
  lemma WorkIsBounded(buffer: bytes)
    requires ScanAll(buffer, false).Returned? && ScanAll(buffer, false).value.0 != []
    ensures var scanned := ScanAll(buffer, false).value.0;
            8 + 48 * |scanned| + 101 * TransactionCount(scanned) <= |buffer|
  {
    EntriesFromBounded(buffer, 8, Number(ReadU64(buffer, 0)), false);
  }

  //
  // Rounding the announced counts to doubles does not matter
  //

  /** Counts that the buffer cannot hold all give the same scan. */
  lemma {:induction false} TransactionCountsIrrelevant(buffer: bytes, offset: nat, count: nat, other: nat)
    requires count == other || (offset + count > |buffer| && offset + other > |buffer|)
    ensures ScanTransactions(buffer, offset, count) == ScanTransactions(buffer, offset, other)
    decreases count
  {
    hide MeasuredSize, Slice;
    if count > 0 && other > 0 && offset < |buffer| && MeasuredSize(buffer[offset..]) != 0 {
      var next := offset + MeasuredSize(buffer[offset..]);
      TransactionCountsIrrelevant(buffer, next, count - 1, other - 1);
    }
  }

  lemma EntryRoundingIrrelevant(buffer: bytes, offset: nat)
    requires |buffer| < EXACT && offset + 48 <= |buffer|
    ensures ScanEntry(buffer, offset, true) == ScanEntry(buffer, offset, false)
  {
    hide ReadU64, Number, ScanTransactions, Slice;
    var announced := ReadU64(buffer, offset + 40);
    TransactionCountsIrrelevant(buffer, offset + 48, announced, Number(announced));
  }

  lemma {:induction false} EntryCountsIrrelevant(buffer: bytes, offset: nat, count: nat, other: nat)
    requires |buffer| < EXACT
    requires count == other || (count > 0 && other > 0 && offset + count > |buffer| && offset + other > |buffer|)
    ensures ScanEntries(buffer, offset, count, true) == ScanEntries(buffer, offset, other, false)
    decreases count
  {
    hide ScanEntry;
    if count > 0 && offset + 48 <= |buffer| {
      EntryRoundingIrrelevant(buffer, offset);
      EntryReprint(buffer, offset, false);
      EntryCountsIrrelevant(buffer, ScanEntry(buffer, offset, true).1, count - 1, other - 1);
    }
  }

  /** On every input below 2^53 bytes, the outcome is the one that exact 64-bit counts would give. */
  lemma RoundingIrrelevant(buffer: bytes)
    requires |buffer| < EXACT
    ensures ScanAll(buffer, true) == ScanAll(buffer, false)
  {
    hide ReadU64, Number, ScanEntries;
    var announced := ReadU64(buffer, 0);
    EntryCountsIrrelevant(buffer, 8, announced, Number(announced));
  }

  //
  // When the result is a faithful decoding
  //

  predicate AllAnnounced(scanned: seq<ScannedEntry>) {
    forall i :: 0 <= i < |scanned| ==> |scanned[i].entry.transactions| == scanned[i].announced
  }

  lemma {:induction false} AnnouncedIsScanned(scanned: seq<ScannedEntry>)
    requires AllAnnounced(scanned)
    ensures Announced(PlainEntries(scanned)) == scanned
  {
    if scanned != [] {
      AnnouncedIsScanned(scanned[1..]);
      assert PlainEntries(scanned)[1..] == PlainEntries(scanned[1..]);
    }
  }

  /** If every entry got the transactions it announced, encoding the result prints the same bytes. */
  lemma CompleteResultReprints(buffer: bytes)
    requires 8 <= |buffer| < EXACT && ScanAll(buffer, false).Returned?
    requires AllAnnounced(ScanAll(buffer, false).value.0)
    ensures var (scanned, end) := ScanAll(buffer, false).value;
            EntriesBytes(PlainEntries(scanned)) == buffer[..Min(end, |buffer|)]
  {
    hide ReadU64, U64Bytes, Number, ScanEntries, AllScannedBytes, PlainEntries, Announced;
    var (scanned, end) := ScanAll(buffer, false).value;
    ParseThenPrint(buffer);
    AnnouncedIsScanned(scanned);
    if scanned != [] {
      WorkIsBounded(buffer);
    }
  }

  lemma {:induction false} TransactionsAreStrict(buffer: bytes, offset: nat, count: nat)
    requires ScanTransactions(buffer, offset, count).1 + 2 < |buffer|
    ensures AllTransactions(ScanTransactions(buffer, offset, count).0)
    decreases count
  {
    hide MeasuredSize, IsTransaction;
    if count > 0 && offset < |buffer| && MeasuredSize(buffer[offset..]) != 0 {
      var remaining := buffer[offset..];
      var size := MeasuredSize(remaining);
      TransactionsAreStrict(buffer, offset + size, count - 1);
      var tx := Slice(buffer, offset, offset + size);
      assert IsTransaction(tx) by {
        assert tx == remaining[..size];
        MeasureIsStable(remaining, []);
        IsTransactionMeans(tx);
      }
    }
  }

  lemma IsTransactionMeans(tx: bytes)
    ensures IsTransaction(tx) <==> TransactionEnd(tx) == Some(|tx|)
  {
  }

  lemma EntryIsFaithful(buffer: bytes, offset: nat)
    requires offset + 48 <= |buffer| < EXACT && ScanEntry(buffer, offset, false).1 + 2 < |buffer|
    requires var s := ScanEntry(buffer, offset, false).0; |s.entry.transactions| == s.announced
    ensures Faithful(ScanEntry(buffer, offset, false).0)
  {
    hide IsTransaction, ScanTransactions, Number, ReadU64, MeasuredSize;
    var count := Number(ReadU64(buffer, offset + 40));
    TransactionsAreStrict(buffer, offset + 48, count);
    TransactionsBounded(buffer, offset + 48, count);
  }

  lemma {:induction false} EntriesAreFaithful(buffer: bytes, offset: nat, count: nat)
    requires |buffer| < EXACT && ScanEntries(buffer, offset, count, false).Returned?
    requires ScanEntries(buffer, offset, count, false).value.1 + 2 < |buffer|
    requires AllAnnounced(ScanEntries(buffer, offset, count, false).value.0)
    ensures AllFaithful(ScanEntries(buffer, offset, count, false).value.0)
    decreases count
  {
    hide ScanEntry, Faithful;
    if count > 0 {
      var (s, next) := ScanEntry(buffer, offset, false);
      var (rest, end) := ScanEntries(buffer, next, count - 1, false).value;
      var scanned := ScanEntries(buffer, offset, count, false).value.0;
      assert scanned == [s] + rest;
      assert |scanned[0].entry.transactions| == scanned[0].announced;
      assert forall i :: 0 <= i < |rest| ==> rest[i] == scanned[i + 1];
      EntriesFromReprint(buffer, next, count - 1, false);
      EntryIsFaithful(buffer, offset);
      EntriesAreFaithful(buffer, next, count - 1);
    }
  }

  /** A transaction slice that was cut at the end of the buffer is not a transaction. */
  lemma {:induction false} TransactionsEndInside(buffer: bytes, offset: nat, count: nat)
    requires offset <= |buffer| && AllTransactions(ScanTransactions(buffer, offset, count).0)
    ensures ScanTransactions(buffer, offset, count).1 <= |buffer|
    decreases count
  {
    hide MeasuredSize, IsTransaction;
    if count > 0 && offset < |buffer| && MeasuredSize(buffer[offset..]) != 0 {
      var remaining := buffer[offset..];
      var size := MeasuredSize(remaining);
      var (rest, next) := ScanTransactions(buffer, offset + size, count - 1);
      var transactions := ScanTransactions(buffer, offset, count).0;
      assert transactions == [Slice(buffer, offset, offset + size)] + rest;
      assert IsTransaction(transactions[0]) && AllTransactions(rest) by {
        assert forall i :: 0 <= i < |rest| ==> rest[i] == transactions[i + 1];
      }
      if offset + size > |buffer| {
        assert transactions[0] == remaining;
        IsTransactionMeans(remaining);
        StrictImpliesMeasured(remaining);
      }
      TransactionsEndInside(buffer, offset + size, count - 1);
    }
  }

  lemma {:induction false} EntriesEndInside(buffer: bytes, offset: nat, count: nat)
    requires offset <= |buffer| && ScanEntries(buffer, offset, count, false).Returned?
    requires AllFaithful(ScanEntries(buffer, offset, count, false).value.0)
    ensures ScanEntries(buffer, offset, count, false).value.1 <= |buffer|
    decreases count
  {
    hide ReadU64, Number, ScanTransactions, IsTransaction, Slice;
    if count > 0 {
      var (s, next) := ScanEntry(buffer, offset, false);
      var rest := ScanEntries(buffer, next, count - 1, false).value.0;
      var scanned := ScanEntries(buffer, offset, count, false).value.0;
      assert scanned[0] == s && forall i :: 0 <= i < |rest| ==> rest[i] == scanned[i + 1];
      TransactionsEndInside(buffer, offset + 48, Number(s.announced));
      EntriesEndInside(buffer, next, count - 1);
    }
  }

  /** A faithful scan decodes the same from any buffer that starts with the same bytes. */
  lemma FaithfulScanIsStable(buffer: bytes, after: bytes)
    requires 8 <= |buffer| < EXACT && ScanAll(buffer, false).Returned?
    requires AllFaithful(ScanAll(buffer, false).value.0)
    ensures ScanAll(buffer, false).value.1 <= |buffer|
    ensures ScanAll(buffer[..ScanAll(buffer, false).value.1] + after, false) == ScanAll(buffer, false)
  {
    hide ReadU64, U64Bytes, Number, ScanEntries, AllScannedBytes, WellFormedEntry;
    var (scanned, end) := ScanAll(buffer, false).value;
    EntriesEndInside(buffer, 8, Number(ReadU64(buffer, 0)));
    var again := buffer[..end] + after;
    ParseThenPrint(buffer);
    if scanned != [] {
      WorkIsBounded(buffer);
    }
    assert HasAt(again, 0, U64Bytes(|scanned|) + AllScannedBytes(scanned));
    HasAtSplit(again, 0, U64Bytes(|scanned|), AllScannedBytes(scanned));
    U64RoundTrip(again, 0, |scanned|);
    EntriesFromRoundTrip(again, 8, scanned, false);
  }

  /** The input begins with the encoding of well-formed entries. */
  ghost predicate BeginsWithEntries(buffer: bytes) {
    exists entries, after :: Encodes(buffer, entries, after)
  }

  ghost predicate Encodes(buffer: bytes, entries: seq<Entry>, after: bytes) {
    && |entries| < EXACT && (forall i :: 0 <= i < |entries| ==> WellFormedEntry(entries[i]))
    && buffer == EntriesBytes(entries) + after
  }

  lemma FaithfulIsAnnounced(scanned: seq<ScannedEntry>)
    requires AllFaithful(scanned)
    ensures AllAnnounced(scanned)
    ensures forall i :: 0 <= i < |scanned| ==> WellFormedEntry(PlainEntries(scanned)[i])
  {
    hide WellFormedEntry;
    assert forall i :: 0 <= i < |scanned| ==> Faithful(scanned[i]);
  }

  lemma EncodesScanned(buffer: bytes, entries: seq<Entry>, after: bytes)
    requires Encodes(buffer, entries, after)
    ensures ScanAll(buffer, false)
         == Returned((Announced(entries), 8 + |AllScannedBytes(Announced(entries))|))
    ensures AllFaithful(Announced(entries))
  {
    hide ScanEntries, ReadU64, HasAt, AllScannedBytes, U64Bytes, WellFormedEntry;
    var scanned := Announced(entries);
    EncodedAt(buffer, entries, after);
    U64RoundTrip(buffer, 0, |entries|);
    AnnouncedIsFaithful(entries);
    EntriesFromRoundTrip(buffer, 8, scanned, false);
  }

  lemma EncodedAt(buffer: bytes, entries: seq<Entry>, after: bytes)
    requires buffer == EntriesBytes(entries) + after
    ensures HasAt(buffer, 0, U64Bytes(|entries|)) && HasAt(buffer, 8, AllScannedBytes(Announced(entries)))
  {
    hide AllScannedBytes, U64Bytes;
    assert HasAt(buffer, 0, EntriesBytes(entries));
    HasAtSplit(buffer, 0, U64Bytes(|entries|), AllScannedBytes(Announced(entries)));
  }

  /**
    Exactly which inputs are decoded faithfully: those that begin with the encoding of well-formed entries.
    For every other input the decoder may throw, or return entries that are cut short without saying so.
   */
  lemma FaithfulIffEncoded(buffer: bytes)
    requires 8 <= |buffer| < EXACT
    ensures BeginsWithEntries(buffer)
       <==> ScanAll(buffer, false).Returned? && AllFaithful(ScanAll(buffer, false).value.0)
  {
    hide ScanAll, Encodes, AllFaithful;
    if BeginsWithEntries(buffer) {
      var entries, after :| Encodes(buffer, entries, after);
      EncodesScanned(buffer, entries, after);
    }
    if ScanAll(buffer, false).Returned? && AllFaithful(ScanAll(buffer, false).value.0) {
      FaithfulIsEncoded(buffer);
    }
  }

  lemma FaithfulIsEncoded(buffer: bytes)
    requires 8 <= |buffer| < EXACT && ScanAll(buffer, false).Returned?
    requires AllFaithful(ScanAll(buffer, false).value.0)
    ensures BeginsWithEntries(buffer)
  {
    hide ScanAll, EntriesBytes, AllFaithful, WellFormedEntry;
    var (scanned, end) := ScanAll(buffer, false).value;
    FaithfulIsAnnounced(scanned);
    CompleteResultReprints(buffer);
    FewEntries(buffer);
    var entries, after := PlainEntries(scanned), buffer[Min(end, |buffer|)..];
    assert buffer == buffer[..Min(end, |buffer|)] + after;
    assert Encodes(buffer, entries, after);
  }

  lemma FewEntries(buffer: bytes)
    requires |buffer| < EXACT && ScanAll(buffer, false).Returned?
    ensures |ScanAll(buffer, false).value.0| < EXACT
  {
    hide ScanAll;
    if ScanAll(buffer, false).value.0 != [] {
      WorkIsBounded(buffer);
    }
  }

  /**
    An input that is cut short and returned all the same: 56 bytes that announce one entry, whose header
    announces one transaction, and nothing more.
   */
  lemma CutShort() returns (buffer: bytes)
    ensures |buffer| == 56
    ensures ScanAll(buffer, false) == Returned(([ScannedEntry(Entry(0, Zeros(32), []), 1)], 56))
    ensures !BeginsWithEntries(buffer)
  {
    var s := ScannedEntry(Entry(0, Zeros(32), []), 1);
    buffer := U64Bytes(1) + ScannedBytes(s);
    hide ScannedBytes, BeginsWithEntries, ReadU64, U64Bytes, HasAt;
    OnlyHeader(buffer, s);
    U64RoundTrip(buffer, 0, 1);
    U64RoundTrip(buffer, 8, 0);
    U64RoundTrip(buffer, 48, 1);
    assert ScanTransactions(buffer, 56, 1) == ([], 56);
    EntryFields(buffer, 8, s, false);
    assert ScanEntries(buffer, 56, 0, false) == Returned(([], 56));
    FirstEntry(buffer, 8, 1, s, false);
    assert [s] + [] == [s];
    FaithfulIffEncoded(buffer);
    assert !Faithful([s][0]);
  }

  function Zeros(n: nat): (b: bytes)
    ensures |b| == n
  {
    seq(n, _ => 0)
  }

  lemma OnlyHeader(buffer: bytes, s: ScannedEntry)
    requires |s.entry.hash| == 32 && s.entry.transactions == [] && buffer == U64Bytes(1) + ScannedBytes(s)
    ensures |buffer| == 56 && HasAt(buffer, 0, U64Bytes(1)) && HasAt(buffer, 8, U64Bytes(s.entry.numHashes))
    ensures Slice(buffer, 16, 48) == s.entry.hash && HasAt(buffer, 48, U64Bytes(s.announced))
  {
    hide U64Bytes, ScannedBytes;
    HasAtSplit(buffer, 0, U64Bytes(1), ScannedBytes(s));
    EntryParts(buffer, 8, s);
  }

  /** What a caller can check: counts met, and the same result from the consumed bytes and three zeros. */
  predicate PassesCheck(buffer: bytes, scanned: seq<ScannedEntry>, end: nat) {
    && AllAnnounced(scanned)
    && end <= |buffer|
    && ScanAll(buffer[..end] + [0, 0, 0], false) == Returned((scanned, end))
  }

  /**
    The decoder never says that a transaction was cut short or missing. The check above tells
    exactly when the result is a faithful decoding.
   */
  lemma FaithfulIff(buffer: bytes)
    requires 8 <= |buffer| && |buffer| + 3 < EXACT && ScanAll(buffer, false).Returned?
    ensures AllFaithful(ScanAll(buffer, false).value.0)
       <==> PassesCheck(buffer, ScanAll(buffer, false).value.0, ScanAll(buffer, false).value.1)
  {
    hide ReadU64, Number, ScanEntries, WellFormedEntry;
    var (scanned, end) := ScanAll(buffer, false).value;
    if AllFaithful(scanned) {
      assert AllAnnounced(scanned) by {
        assert forall i :: 0 <= i < |scanned| ==>
          Faithful(scanned[i]) && |scanned[i].entry.transactions| == scanned[i].announced;
      }
      FaithfulScanIsStable(buffer, [0, 0, 0]);
    }
    if PassesCheck(buffer, scanned, end) {
      var padded := buffer[..end] + [0, 0, 0];
      EntriesAreFaithful(padded, 8, Number(ReadU64(padded, 0)));
    }
  }

  lemma {:induction false} ZeroBytes(buffer: bytes, offset: nat, width: nat)
    ensures LittleEndianAt(buffer, offset, width) == 0
       <==> forall i :: offset <= i < offset + width ==> ByteAt(buffer, i) == 0
    decreases width
  {
    if width > 0 {
      ZeroBytes(buffer, offset + 1, width - 1);
    }
  }

  /** An input too short for its length word is rejected only when one of its bytes is not zero. */
  lemma ShortInput(buffer: bytes)
    requires |buffer| < 8
    ensures Result(ScanAll(buffer, false)).Thrown? <==> exists i :: 0 <= i < |buffer| && buffer[i] != 0
    ensures Result(ScanAll(buffer, false)).Thrown? || Result(ScanAll(buffer, false)) == Returned([])
  {
    ZeroBytes(buffer, 0, 8);
    if exists i :: 0 <= i < |buffer| && buffer[i] != 0 {
      var i :| 0 <= i < |buffer| && buffer[i] != 0;
      assert ByteAt(buffer, i) != 0;
    }
  }
}
