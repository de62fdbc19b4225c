/**
  The engine on top of the transaction cache: every buy is recorded in full, also when it sent a
  transaction that another buy had sent. A transaction is executed once, since its signature is one.
 */
module CopyEngineCache {
  import opened Repetition
  import opened Positions
  import opened PositionLedger
  import opened CopyEngine
  import opened CopyEngineLedger
  import opened CopyEngineSafety
  import opened CopyEngineOverlap
  import TxCache
  import TxCacheReuse
  import TxCacheSends

  /** The signatures of the recorded buys. */
  function BuySignatures(records: seq<Record>): seq<string>
    decreases |records|
  {
    if records == [] then []
    else
      var last := records[|records| - 1];
      BuySignatures(records[..|records| - 1]) + (if last.BuyRecord? then [last.signature] else [])
  }

  predicate BuysAt(records: seq<Record>, usdc: real) {
    forall r :: r in records && r.BuyRecord? ==> r.usdc == usdc
  }

  lemma {:induction false} SpentOnBuys(records: seq<Record>, usdc: real)
    requires AllPositive(records) && BuysAt(records, usdc)
    ensures RunRecords(records).spent == Times(usdc, |BuySignatures(records)|)
    decreases |records|
  {
    hide AfterBuy, AfterSell, AllPriced;
    if records != [] {
      var before, last := records[..|records| - 1], records[|records| - 1];
      assert last in records && AllPositive(before);
      SpentOnBuys(before, usdc);
      assert Apply(RunRecords(before), last).spent
          == RunRecords(before).spent + (if last.BuyRecord? then last.usdc else 0.0);
    }
  }

  lemma {:induction false} EngineBuysAt(cfg: Config, s: EngineState, actions: seq<Action>)
    requires AllPriced(s.positions)
    ensures BuysAt(RecordsOf(cfg, s, actions), cfg.tradeAmount)
    decreases |actions|
  {
    hide Step, AllPriced;
    if actions != [] {
      EngineBuysAt(cfg, Step(cfg, s, actions[0]), actions[1..]);
    }
  }

  /** The signatures of the buys that a run of the engine records. */
  ghost function EngineSignatures(cfg: Config, actions: seq<Action>): seq<string> {
    BuySignatures(RecordsOf(cfg, INITIAL, actions))
  }

  lemma {:induction false} TimesAdds(x: real, n: nat, m: nat)
    ensures Times(x, n + m) == Times(x, n) + Times(x, m)
  {
    if n > 0 {
      TimesAdds(x, n - 1, m);
    }
  }

  /**
    What the engine records as spent is one trade amount for each distinct signature, and one more for each
    further buy with the same signature.
   */
  lemma SpentBeyondSignatures(cfg: Config, actions: seq<Action>)
    ensures var signatures := EngineSignatures(cfg, actions);
            var excess := Excess(signatures, Elements(signatures));
            && excess >= 0
            && RunRecords(RecordsOf(cfg, INITIAL, actions)).spent
               == Times(cfg.tradeAmount, |Elements(signatures)|) + Times(cfg.tradeAmount, excess)
  {
    hide RunRecords, RecordsOf, BuySignatures, Excess, Elements;
    var signatures := EngineSignatures(cfg, actions);
    EngineBuysAt(cfg, INITIAL, actions);
    SpentOnBuys(RecordsOf(cfg, INITIAL, actions), cfg.tradeAmount);
    LengthIsElementsAndExcess(signatures);
    ElementsAreFewer(signatures);
    TimesAdds(cfg.tradeAmount, |Elements(signatures)|, Excess(signatures, Elements(signatures)));
  }

  lemma {:induction false} ElementsAreFewer<T>(xs: seq<T>)
    ensures |Elements(xs)| <= |xs|
    decreases |xs|
  {
    if xs == [] {
      NoElements(xs);
    } else {
      ElementsAreFewer(xs[..|xs| - 1]);
      ElementsAppend(xs[..|xs| - 1], xs[|xs| - 1]);
      assert xs[..|xs| - 1] + [xs[|xs| - 1]] == xs;
    }
  }

  /** The recorded buys are those whose cached transactions were sent; a transaction has its own signature. */
  ghost predicate Composed(signatures: seq<string>, sent: seq<TxCache.PreBuilt>, sign: TxCache.PreBuilt -> string) {
    && |signatures| == |sent| && (forall i :: 0 <= i < |sent| ==> signatures[i] == sign(sent[i]))
    && (forall a, b :: a in sent && b in sent && sign(a) == sign(b) ==> a == b)
  }

  /**
    When the engine's buys all use the cache: it records one trade amount for each transaction that was
    executed, and picks beyond the first of a transaction - at most as many as its sends overlapped - add
    one trade amount each that was never spent.
   */
  lemma SpentBeyondTransactions(
    cfg: Config, actions: seq<Action>, cacheActions: seq<TxCache.Action>, sign: TxCache.PreBuilt -> string
  )
    requires Composed(EngineSignatures(cfg, actions), TxCacheSends.SentOf(cacheActions), sign)
    ensures var sent := TxCacheSends.SentOf(cacheActions);
            var excess := Excess(sent, Elements(sent));
            && excess >= 0
            && RunRecords(RecordsOf(cfg, INITIAL, actions)).spent
               == Times(cfg.tradeAmount, |Elements(sent)|) + Times(cfg.tradeAmount, excess)
            && (forall tx :: tx in sent ==>
                  1 <= multiset(sent)[tx] <= TxCacheReuse.PeakSends(cacheActions, tx.mint))
            && ((forall tx :: tx in sent ==> TxCacheReuse.PeakSends(cacheActions, tx.mint) <= 1) ==> excess == 0)
  {
    hide RunRecords, RecordsOf, BuySignatures, Excess, TxCacheSends.SentOf, TxCacheReuse.PeakSends;
    var signatures, sent := EngineSignatures(cfg, actions), TxCacheSends.SentOf(cacheActions);
    SpentBeyondSignatures(cfg, actions);
    InjectiveImage(sent, signatures, sign);
    LengthIsElementsAndExcess(signatures);
    LengthIsElementsAndExcess(sent);
    forall tx | tx in sent
      ensures 1 <= multiset(sent)[tx] <= TxCacheReuse.PeakSends(cacheActions, tx.mint)
    {
      TxCacheSends.SentWithinPeak(cacheActions, tx);
    }
    if forall tx :: tx in sent ==> TxCacheReuse.PeakSends(cacheActions, tx.mint) <= 1 {
      NoExcess(sent, Elements(sent));
    }
  }

  //
  // The excess is attained
  //

  lemma {:induction false} RecordsOfConcat(cfg: Config, s: EngineState, first: seq<Action>, second: seq<Action>)
    requires AllPriced(s.positions)
    ensures RecordsOf(cfg, s, first + second)
         == RecordsOf(cfg, s, first) + RecordsOf(cfg, RunFrom(cfg, s, first), second)
    decreases |first|
  {
    hide Step, AllPriced, RecordOf;
    if first == [] {
      assert first + second == second;
    } else {
      assert (first + second)[1..] == first[1..] + second;
      RecordsOfConcat(cfg, Step(cfg, s, first[0]), first[1..], second);
    }
  }

  lemma {:induction false} NothingRecorded(cfg: Config, s: EngineState, actions: seq<Action>)
    requires AllPriced(s.positions) && NoneSettles(actions)
    ensures RecordsOf(cfg, s, actions) == []
    decreases |actions|
  {
    hide Step, AllPriced;
    if actions != [] {
      assert actions[0] in actions;
      NothingRecorded(cfg, Step(cfg, s, actions[0]), actions[1..]);
    }
  }

  lemma {:induction false} SignaturesPrepend(r: Record, records: seq<Record>)
    ensures BuySignatures([r] + records)
         == (if r.BuyRecord? then [r.signature] else []) + BuySignatures(records)
    decreases |records|
  {
    if records == [] {
      assert [r] + records == [r] && [r][..0] == [];
    } else {
      var last := |records| - 1;
      assert ([r] + records)[..|records|] == [r] + records[..last];
      SignaturesPrepend(r, records[..last]);
    }
  }

  /** Every buy in flight settles with this receipt. */
  lemma {:induction false} SettleWith(cfg: Config, s: EngineState, receipt: Receipt) returns (actions: seq<Action>)
    requires AllPriced(s.positions)
    ensures BuySignatures(RecordsOf(cfg, s, actions)) == seq(|InFlight(s, Whole)|, _ => receipt.signature)
    decreases |InFlight(s, Whole)|
  {
    hide SettleStep, AllPriced, BuySignatures;
    if InFlight(s, Whole) == {} {
      actions := [];
      NoSignatures();
    } else {
      var id :| id in InFlight(s, Whole);
      var a := Settle(id, Sent(receipt));
      var next := Step(cfg, s, a);
      SettleEnds(cfg, s, id, Sent(receipt));
      InFlightAfterDrop(s, next, id, Whole);
      var rest := SettleWith(cfg, next, receipt);
      actions := [a] + rest;
      assert actions[1..] == rest;
      SignaturesPrepend(RecordOf(cfg, s, a)[0], RecordsOf(cfg, next, rest));
      assert RecordsOf(cfg, s, actions) == [RecordOf(cfg, s, a)[0]] + RecordsOf(cfg, next, rest);
      OneMore(receipt.signature, |InFlight(next, Whole)|);
    }
  }

  lemma NoSignatures()
    ensures BuySignatures([]) == []
  {
  }

  lemma OneMore<T>(x: T, n: nat)
    ensures [x] + seq(n, _ => x) == seq(n + 1, _ => x)
  {
  }

  /** n overlapping buys that report one signature. */
  lemma OverlapRecordsOneSignature(cfg: Config, t: Trade, n: nat, balance: real, signature: string)
    returns (actions: seq<Action>)
    requires cfg.tracksPositions && FirstBuyPasses(cfg, t, balance)
    ensures EngineSignatures(cfg, actions) == seq(n, _ => signature)
  {
    hide RunFrom, RecordsOf, BuySignatures, FirstBuyPasses, Lined, InFlight;
    var trades := seq(n, _ => t);
    BuysAlone(cfg, t, balance);
    var before := AdmitLine(cfg, trades, n, balance);
    var s := Run(cfg, before);
    LineInFlight(s, trades);
    NothingRecorded(cfg, INITIAL, before);
    var more := SettleWith(cfg, s, Receipt(1, signature));
    RecordsOfConcat(cfg, INITIAL, before, more);
    assert [] + RecordsOf(cfg, s, more) == RecordsOf(cfg, s, more);
    actions := before + more;
  }

  lemma BuysAlone(cfg: Config, t: Trade, balance: real)
    requires FirstBuyPasses(cfg, t, balance)
    ensures t.direction == Buy
  {
  }

  /**
    However many buys overlap: they all send one cached transaction, which is executed once, and the engine
    records a trade amount for each of them.
   */
  lemma RecordedBeyondExecuted(cfg: Config, t: Trade, n: nat, balance: real, signature: string)
    returns (actions: seq<Action>, cacheActions: seq<TxCache.Action>, tx: TxCache.PreBuilt)
    requires cfg.tracksPositions && FirstBuyPasses(cfg, t, balance)
    ensures TxCacheSends.SentOf(cacheActions) == seq(n, _ => tx)
    ensures Composed(EngineSignatures(cfg, actions), TxCacheSends.SentOf(cacheActions), (_: TxCache.PreBuilt) => signature)
    ensures RunRecords(RecordsOf(cfg, INITIAL, actions)).spent == Times(cfg.tradeAmount, n)
  {
    hide RunRecords, RecordsOf, BuySignatures, FirstBuyPasses, TxCacheSends.SentOf;
    actions := OverlapRecordsOneSignature(cfg, t, n, balance, signature);
    cacheActions, tx := TxCacheSends.OverlapSendsEach(TxCache.Order(t.mint, cfg.tradeAmount), n);
    EngineBuysAt(cfg, INITIAL, actions);
    SpentOnBuys(RecordsOf(cfg, INITIAL, actions), cfg.tradeAmount);
  }
}
