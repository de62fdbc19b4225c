/**
  The engine's portfolio is that of the records that its settled copies make, so the laws of the ledger
  hold for it in every run.
 */
module CopyEngineLedger {
  import opened Positions
  import opened PositionLedger
  import opened CopyEngine

  /** What a step records: the settlement of a copy that was sent. */
  ghost function RecordOf(cfg: Config, s: EngineState, a: Action): (records: seq<Record>)
    ensures AllPositive(records)
  {
    if a.Settle? && InPhase(s, a.id, Executing) && a.outcome.Sent? then
      var trade, receipt := s.tasks[a.id].trade, a.outcome.receipt;
      match trade.direction
      case Buy => [BuyRecord(trade.mint, receipt.outAmount, cfg.tradeAmount, receipt.signature)]
      case Sell => [SellRecord(trade.mint, receipt.outAmount, cfg.tradeAmount, receipt.signature)]
    else []
  }

  ghost function RecordsOf(cfg: Config, s: EngineState, actions: seq<Action>): (records: seq<Record>)
    requires AllPriced(s.positions)
    ensures AllPositive(records)
    decreases |actions|
  {
    if actions == [] then []
    else RecordOf(cfg, s, actions[0]) + RecordsOf(cfg, Step(cfg, s, actions[0]), actions[1..])
  }

  lemma RecordIsApplied(cfg: Config, l: Ledger, trade: Trade, receipt: Receipt)
    requires AllPriced(l.positions)
    ensures var r := match trade.direction
                     case Buy => BuyRecord(trade.mint, receipt.outAmount, cfg.tradeAmount, receipt.signature)
                     case Sell => SellRecord(trade.mint, receipt.outAmount, cfg.tradeAmount, receipt.signature);
            Positive(r) && Apply(l, r).positions == RecordedPositions(cfg, l.positions, trade, receipt)
  {
  }

  lemma StepRecords(cfg: Config, s: EngineState, a: Action, records: seq<Record>)
    requires cfg.tracksPositions && AllPriced(s.positions) && AllPositive(records)
    requires RunRecords(records).positions == s.positions
    ensures RunRecords(records + RecordOf(cfg, s, a)).positions == Step(cfg, s, a).positions
  {
    hide RiskVerdict, SkippedAtOnce, RecordedPositions, Apply, AllPriced;
    var more := RecordOf(cfg, s, a);
    if more == [] {
      assert records + more == records;
    } else {
      RecordIsApplied(cfg, RunRecords(records), s.tasks[a.id].trade, a.outcome.receipt);
      assert (records + more)[..|records|] == records;
    }
  }

  lemma {:induction false} RunFromRecords(cfg: Config, s: EngineState, actions: seq<Action>, records: seq<Record>)
    requires cfg.tracksPositions && AllPriced(s.positions) && AllPositive(records)
    requires RunRecords(records).positions == s.positions
    ensures RunRecords(records + RecordsOf(cfg, s, actions)).positions == RunFrom(cfg, s, actions).positions
    decreases |actions|
  {
    hide Step, AllPriced, RunRecords, RecordOf, Positive;
    if actions == [] {
      assert records + [] == records;
    } else {
      var first, rest := RecordOf(cfg, s, actions[0]), RecordsOf(cfg, Step(cfg, s, actions[0]), actions[1..]);
      StepRecords(cfg, s, actions[0], records);
      RunFromRecords(cfg, Step(cfg, s, actions[0]), actions[1..], records + first);
      assert records + (first + rest) == records + first + rest;
    }
  }

  /** The portfolio after any run of an engine that tracks positions. */
  lemma EngineRecords(cfg: Config, actions: seq<Action>)
    requires cfg.tracksPositions
    ensures Run(cfg, actions).positions == RunRecords(RecordsOf(cfg, INITIAL, actions)).positions
  {
    hide RunFrom, RecordsOf;
    RunFromRecords(cfg, INITIAL, actions, []);
    assert [] + RecordsOf(cfg, INITIAL, actions) == RecordsOf(cfg, INITIAL, actions);
  }

  /**
    The laws of the ledger for every run of the engine: money spent is exposure plus cost bases sold, realized
    profit is received minus spent plus exposure, and the two profit percentages agree for every position held.
   */
  lemma EngineConserves(cfg: Config, actions: seq<Action>)
    requires cfg.tracksPositions
    ensures var positions, l := Run(cfg, actions).positions, RunRecords(RecordsOf(cfg, INITIAL, actions));
            && l.spent == Exposure(positions) + l.soldBasis
            && l.realizedPnl == l.received - l.spent + Exposure(positions)
            && forall mint, price :: mint in positions ==>
                 && positions[mint].entryPrice > 0.0 && positions[mint].totalCost > 0.0
                 && ProfitPercent(price, positions[mint].entryPrice)
                    == UnrealizedPnlPercent(price, positions[mint].amount as real, positions[mint].totalCost)
  {
    hide Run, RunRecords, RecordsOf, Exposure, ProfitPercent, UnrealizedPnlPercent;
    var records, positions := RecordsOf(cfg, INITIAL, actions), Run(cfg, actions).positions;
    EngineRecords(cfg, actions);
    Conservation(records);
    forall mint, price | mint in positions
      ensures positions[mint].entryPrice > 0.0 && positions[mint].totalCost > 0.0
      ensures ProfitPercent(price, positions[mint].entryPrice)
           == UnrealizedPnlPercent(price, positions[mint].amount as real, positions[mint].totalCost)
    {
      ProfitFormulasAgree(records, mint, price);
    }
  }
}
