/**
  What the decoder of Entries returns for an encoding that ends within its last transaction.
 */
module CutEntries {
  import opened Binary
  import opened Doubles
  import opened SolanaTx
  import opened TransactionFormat
  import opened Entries
  import opened EntriesProperties
  import opened CutTransactions

  /** What is left of the last transaction when n of its bytes are there. */
  function Remaining(t: Transaction, n: nat): seq<bytes>
    requires WellFormed(t) && n <= |TransactionBytes(t)|
  {
    var size := CutSize(t, n);
    if size == 0 then [] else [TransactionBytes(t)[..Min(size, n)]]
  }

  /** The transactions of the last entry: complete ones, and one of which n bytes are there. */
  function Whole(e: Entry, t: Transaction): Entry
    requires WellFormed(t)
  {
    e.(transactions := e.transactions + [TransactionBytes(t)])
  }

  function CutAt(e: Entry, t: Transaction, n: nat): Entry
    requires WellFormed(t) && n <= |TransactionBytes(t)|
  {
    e.(transactions := e.transactions + Remaining(t, n))
  }

  lemma NothingLeft(t: Transaction)
    requires WellFormed(t)
    ensures CutSize(t, 0) == 0
  {
  }

  lemma {:induction false} TransactionsEndCut(
    buffer: bytes, offset: nat, transactions: seq<bytes>, t: Transaction, n: nat
  )
    requires AllTransactions(transactions) && WellFormed(t) && n <= |TransactionBytes(t)|
    requires HasAt(buffer, offset, Concat(transactions) + TransactionBytes(t)[..n])
    requires |buffer| == offset + |Concat(transactions)| + n
    ensures ScanTransactions(buffer, offset, |transactions| + 1).0 == transactions + Remaining(t, n)
    decreases |transactions|
  {
    hide HasAt, IsTransaction, ScanTransactions, MeasuredSize, Slice, TransactionBytes, CutSize;
    if transactions == [] {
      LastCut(buffer, offset, t, n);
      assert [] + Remaining(t, n) == Remaining(t, n);
    } else {
      var tx, rest := transactions[0], transactions[1..];
      assert IsTransaction(tx);
      var cut := TransactionBytes(t)[..n];
      assert Concat(transactions) + cut == tx + (Concat(rest) + cut);
      HasAtSplit(buffer, offset, tx, Concat(rest) + cut);
      OneTransaction(buffer, offset, tx);
      TransactionsEndCut(buffer, offset + |tx|, rest, t, n);
      FirstTransaction(buffer, offset, |transactions| + 1, tx);
      assert transactions + Remaining(t, n) == [tx] + (rest + Remaining(t, n));
    }
  }

  lemma LastCut(buffer: bytes, offset: nat, t: Transaction, n: nat)
    requires WellFormed(t) && n <= |TransactionBytes(t)| && |buffer| == offset + n
    requires HasAt(buffer, offset, Concat([]) + TransactionBytes(t)[..n])
    ensures ScanTransactions(buffer, offset, 1).0 == Remaining(t, n)
  {
    hide MeasuredSize, TransactionBytes, CutSize;
    assert Concat([]) + TransactionBytes(t)[..n] == TransactionBytes(t)[..n];
    assert buffer[offset..] == TransactionBytes(t)[..n];
    CutMeasures(t, n);
    NothingLeft(t);
    if n > 0 && CutSize(t, n) > 0 {
      var size := CutSize(t, n);
      assert Slice(buffer, offset, offset + size) == TransactionBytes(t)[..Min(size, n)];
      assert ScanTransactions(buffer, offset + size, 0).0 == [];
    }
  }

  /** The header of an entry that announces one transaction more than this one has. */
  function HeaderBytes(e: Entry): bytes {
    U64Bytes(e.numHashes) + e.hash + U64Bytes(|e.transactions| + 1)
  }

  lemma HeaderParts(buffer: bytes, offset: nat, e: Entry, after: bytes)
    requires |e.hash| == 32 && HasAt(buffer, offset, HeaderBytes(e) + after)
    ensures offset + 48 <= |buffer|
    ensures HasAt(buffer, offset, U64Bytes(e.numHashes))
    ensures Slice(buffer, offset + 8, offset + 40) == e.hash
    ensures HasAt(buffer, offset + 40, U64Bytes(|e.transactions| + 1))
    ensures HasAt(buffer, offset + 48, after)
  {
    hide LittleEndianBytes;
    var hashes, count := U64Bytes(e.numHashes), U64Bytes(|e.transactions| + 1);
    HasAtSplit(buffer, offset, hashes + e.hash + count, after);
    HasAtSplit(buffer, offset, hashes + e.hash, count);
    HasAtSplit(buffer, offset, hashes, e.hash);
  }

  lemma HeaderLength(e: Entry)
    requires WellFormedEntry(e)
    ensures |HeaderBytes(e)| == 48
  {
  }

  lemma WholeAt(buffer: bytes)
    ensures HasAt(buffer, 0, buffer)
  {
  }

  lemma PlainAppend(scanned: seq<ScannedEntry>, last: ScannedEntry)
    ensures PlainEntries(scanned + [last]) == PlainEntries(scanned) + [last.entry]
  {
  }

  lemma LastEntryCut(buffer: bytes, offset: nat, e: Entry, t: Transaction, n: nat)
    requires WellFormed(t) && n <= |TransactionBytes(t)| && WellFormedEntry(e) && |e.transactions| + 1 < EXACT
    requires HasAt(buffer, offset, HeaderBytes(e) + (Concat(e.transactions) + TransactionBytes(t)[..n]))
    requires |buffer| == offset + 48 + |Concat(e.transactions)| + n
    ensures ScanEntry(buffer, offset, false).0 == ScannedEntry(CutAt(e, t, n), |e.transactions| + 1)
  {
    hide HasAt, ReadU64, ScanTransactions, ScanEntry, IsTransaction, Slice, Number, U64Bytes, Concat;
    hide TransactionBytes, CutSize, HeaderBytes;
    var s := ScannedEntry(CutAt(e, t, n), |e.transactions| + 1);
    HeaderParts(buffer, offset, e, Concat(e.transactions) + TransactionBytes(t)[..n]);
    U64RoundTrip(buffer, offset, e.numHashes);
    U64RoundTrip(buffer, offset + 40, |e.transactions| + 1);
    TransactionsEndCut(buffer, offset + 48, e.transactions, t, n);
    EntryFields(buffer, offset, s, false);
  }

  lemma {:induction false} EntriesEndCut(buffer: bytes, offset: nat, scanned: seq<ScannedEntry>, last: ScannedEntry)
    requires AllFaithful(scanned) && HasAt(buffer, offset, AllScannedBytes(scanned))
    requires offset + |AllScannedBytes(scanned)| + 48 <= |buffer|
    requires ScanEntry(buffer, offset + |AllScannedBytes(scanned)|, false).0 == last
    ensures var scan := ScanEntries(buffer, offset, |scanned| + 1, false);
            scan.Returned? && scan.value.0 == scanned + [last]
    decreases |scanned|
  {
    hide HasAt, ScanEntry, ScannedBytes, WellFormedEntry, ScanEntries;
    if scanned == [] {
      FirstEntry(buffer, offset, 1, last, false);
      NoEntries(buffer, ScanEntry(buffer, offset, false).1, false);
      assert [last] + [] == [] + [last];
    } else {
      var s, rest := scanned[0], scanned[1..];
      assert Faithful(s) && scanned == [s] + rest;
      FirstScannedBytes(buffer, offset, scanned);
      EntryRoundTrip(buffer, offset, s.entry, false);
      EntriesEndCut(buffer, offset + |ScannedBytes(s)|, rest, last);
      FirstEntry(buffer, offset, |scanned| + 1, s, false);
      assert [s] + (rest + [last]) == scanned + [last];
    }
  }

  lemma {:induction false} AnnouncedAppend(entries: seq<Entry>, e: Entry)
    ensures Announced(entries + [e]) == Announced(entries) + [ScannedEntry(e, |e.transactions|)]
    decreases |entries|
  {
    if entries == [] {
      assert [] + [e] == [e];
    } else {
      assert (entries + [e])[1..] == entries[1..] + [e];
      AnnouncedAppend(entries[1..], e);
    }
  }

  lemma {:induction false} AllScannedAppend(scanned: seq<ScannedEntry>, s: ScannedEntry)
    ensures AllScannedBytes(scanned + [s]) == AllScannedBytes(scanned) + ScannedBytes(s)
    decreases |scanned|
  {
    hide ScannedBytes;
    if scanned == [] {
      assert [] + [s] == [s];
    } else {
      assert (scanned + [s])[1..] == scanned[1..] + [s];
      AllScannedAppend(scanned[1..], s);
    }
  }

  lemma {:induction false} ConcatAppend(parts: seq<bytes>, part: bytes)
    ensures Concat(parts + [part]) == Concat(parts) + part
    decreases |parts|
  {
    if parts == [] {
      assert [] + [part] == [part];
    } else {
      assert (parts + [part])[1..] == parts[1..] + [part];
      ConcatAppend(parts[1..], part);
    }
  }

  lemma WholeBytes(e: Entry, t: Transaction)
    requires WellFormed(t)
    ensures ScannedBytes(ScannedEntry(Whole(e, t), |Whole(e, t).transactions|))
         == HeaderBytes(e) + (Concat(e.transactions) + TransactionBytes(t))
  {
    hide TransactionBytes, U64Bytes, Concat;
    ConcatAppend(e.transactions, TransactionBytes(t));
  }

  /** The encoding of the entries, up to the last transaction of the last entry and that transaction. */
  lemma EncodingEnds(entries: seq<Entry>, e: Entry, t: Transaction)
    requires WellFormed(t)
    ensures EntriesBytes(entries + [Whole(e, t)])
         == U64Bytes(|entries| + 1) + AllScannedBytes(Announced(entries))
          + (HeaderBytes(e) + (Concat(e.transactions) + TransactionBytes(t)))
  {
    hide TransactionBytes, U64Bytes, Concat, AllScannedBytes, ScannedBytes, HeaderBytes, Announced;
    AnnouncedAppend(entries, Whole(e, t));
    AllScannedAppend(Announced(entries), ScannedEntry(Whole(e, t), |Whole(e, t).transactions|));
    WholeBytes(e, t);
  }

  lemma CutEncoding(front: bytes, tx: bytes, n: nat)
    requires n <= |tx|
    ensures (front + tx)[..|front + tx| - (|tx| - n)] == front + tx[..n]
  {
  }

  /** The encoding up to the first n bytes of the last transaction. */
  function BytesUpTo(entries: seq<Entry>, e: Entry, t: Transaction, n: nat): bytes
    requires WellFormed(t) && n <= |TransactionBytes(t)|
  {
    U64Bytes(|entries| + 1) + AllScannedBytes(Announced(entries))
    + (HeaderBytes(e) + (Concat(e.transactions) + TransactionBytes(t)[..n]))
  }

  lemma UpToIsCut(entries: seq<Entry>, e: Entry, t: Transaction, n: nat)
    requires WellFormed(t) && n <= |TransactionBytes(t)|
    ensures var all, missing := EntriesBytes(entries + [Whole(e, t)]), |TransactionBytes(t)| - n;
            missing <= |all| && all[..|all| - missing] == BytesUpTo(entries, e, t, n)
  {
    hide TransactionBytes, Concat, AllScannedBytes, HeaderBytes, U64Bytes, EntriesBytes;
    var header, before := U64Bytes(|entries| + 1), AllScannedBytes(Announced(entries));
    var front := header + before + (HeaderBytes(e) + Concat(e.transactions));
    EncodingEnds(entries, e, t);
    assert EntriesBytes(entries + [Whole(e, t)]) == front + TransactionBytes(t);
    CutEncoding(front, TransactionBytes(t), n);
  }

  lemma BytesUpToParts(entries: seq<Entry>, e: Entry, t: Transaction, n: nat)
    requires WellFormed(t) && n <= |TransactionBytes(t)| && WellFormedEntry(e)
    ensures var buffer, before := BytesUpTo(entries, e, t, n), AllScannedBytes(Announced(entries));
            && |buffer| == 8 + |before| + 48 + |Concat(e.transactions)| + n
            && HasAt(buffer, 0, U64Bytes(|entries| + 1)) && HasAt(buffer, 8, before)
            && HasAt(buffer, 8 + |before|, HeaderBytes(e) + (Concat(e.transactions) + TransactionBytes(t)[..n]))
  {
    hide TransactionBytes, Concat, AllScannedBytes, HeaderBytes, WellFormedEntry, HasAt;
    var buffer, header := BytesUpTo(entries, e, t, n), U64Bytes(|entries| + 1);
    var before := AllScannedBytes(Announced(entries));
    WholeAt(buffer);
    HeaderLength(e);
    HasAtSplit(buffer, 0, header + before, HeaderBytes(e) + (Concat(e.transactions) + TransactionBytes(t)[..n]));
    HasAtSplit(buffer, 0, header, before);
  }

  lemma ScanUpTo(entries: seq<Entry>, e: Entry, t: Transaction, n: nat)
    requires |entries| + 1 < EXACT && forall i :: 0 <= i < |entries| ==> WellFormedEntry(entries[i])
    requires WellFormedEntry(e) && |e.transactions| + 1 < EXACT && WellFormed(t) && n <= |TransactionBytes(t)|
    ensures Result(ScanAll(BytesUpTo(entries, e, t, n), false)) == Returned(entries + [CutAt(e, t, n)])
  {
    hide TransactionBytes, AllScannedBytes, ScanEntries, ScanEntry, WellFormedEntry, HasAt, HeaderBytes, Concat;
    hide ReadU64, U64Bytes, Faithful, CutAt, BytesUpTo;
    var buffer, before := BytesUpTo(entries, e, t, n), AllScannedBytes(Announced(entries));
    var last := ScannedEntry(CutAt(e, t, n), |e.transactions| + 1);
    BytesUpToParts(entries, e, t, n);
    U64RoundTrip(buffer, 0, |entries| + 1);
    AnnouncedIsFaithful(entries);
    LastEntryCut(buffer, 8 + |before|, e, t, n);
    EntriesEndCut(buffer, 8, Announced(entries), last);
    PlainOfAnnounced(entries);
    PlainAppend(Announced(entries), last);
  }

  /**
    Decoding an encoding of which k bytes of the last transaction are missing, for every k: all entries come
    back, and of the last transaction what CutSize leaves of it.
   */
  lemma CutIsReturned(entries: seq<Entry>, e: Entry, t: Transaction, k: nat)
    requires |entries| + 1 < EXACT && forall i :: 0 <= i < |entries| ==> WellFormedEntry(entries[i])
    requires WellFormedEntry(e) && |e.transactions| + 1 < EXACT && WellFormed(t) && k <= |TransactionBytes(t)|
    ensures var all := EntriesBytes(entries + [Whole(e, t)]);
            && k <= |all|
            && Result(ScanAll(all[..|all| - k], false)) == Returned(entries + [CutAt(e, t, |TransactionBytes(t)| - k)])
  {
    hide TransactionBytes, AllScannedBytes, ScanEntries, ScanEntry, WellFormedEntry, HasAt, HeaderBytes, Concat;
    hide ReadU64, U64Bytes, Faithful, EntriesBytes, CutAt, BytesUpTo, ScanAll;
    var n := |TransactionBytes(t)| - k;
    UpToIsCut(entries, e, t, n);
    ScanUpTo(entries, e, t, n);
  }

  /**
    A cut within the content of the last vector goes unnoticed: the decoder returns the same entries, with the
    bytes that are there as their last transaction.
   */
  lemma UnnoticedCut(entries: seq<Entry>, e: Entry, t: Transaction, k: nat)
    requires |entries| + 1 < EXACT && forall i :: 0 <= i < |entries| ==> WellFormedEntry(entries[i])
    requires WellFormedEntry(e) && |e.transactions| + 1 < EXACT && WellFormed(t) && k <= |Tail(t)|
    ensures k < |TransactionBytes(t)|
    ensures var all, tx := EntriesBytes(entries + [Whole(e, t)]), TransactionBytes(t);
            && k <= |all|
            && Result(ScanAll(all[..|all| - k], false))
               == Returned(entries + [e.(transactions := e.transactions + [tx[..|tx| - k]])])
  {
    hide TransactionBytes, EntriesBytes, ScanAll, CutSize, Tail, WellFormedEntry, MeasuredSize;
    CutUnnoticedIff(t, |TransactionBytes(t)|);
    CutUnnoticedIff(t, |TransactionBytes(t)| - k);
    CutMeasures(t, |TransactionBytes(t)| - k);
    CutIsReturned(entries, e, t, k);
  }
}
