/**
  What overlapping trades can do to the guarantees that the engine documents: the limits are
  checked before a trade is executed, and a transaction is not copied twice.
 */
module CopyEngineOverlap {
  import opened Positions
  import opened PositionLedger
  import opened CopyEngine
  import opened CopyEngineSafety

  //
  // Overlapping buys pass the limits together
  //

  /** One buy passes every check when nothing is held and nothing is pending. */
  ghost predicate FirstBuyPasses(cfg: Config, t: Trade, balance: real) {
    && t.direction == Buy && !SkippedAtOnce(cfg, {}, t)
    && RiskVerdict(map[], cfg.limits, t.mint, Buy, cfg.tradeAmount, balance).Allowed?
  }

  ghost predicate AllPass(cfg: Config, trades: seq<Trade>, balance: real) {
    forall t :: t in trades ==> FirstBuyPasses(cfg, t, balance)
  }

  /** These trades have been detected; the first admitted of them execute, the others await the balance. */
  ghost predicate Lined(s: EngineState, trades: seq<Trade>, admitted: nat) {
    && s.positions == map[] && s.nextId == |trades|
    && (admitted == 0 ==> s.pendingCopies == {})
    && |s.tasks| == |trades| && (forall id: nat :: id in s.tasks <==> id < |trades|)
    && (forall id: nat :: id in s.tasks ==>
          s.tasks[id] == Task(trades[id], if id < admitted then Executing else AwaitingBalance))
  }

  /** From detection to the wait for the balance. */
  function Lead(cfg: Config, t: Trade, id: nat): seq<Action> {
    if cfg.usesFilter then [Detect(t), FilterResult(id, true)] else [Detect(t)]
  }

  predicate NoneSettles(actions: seq<Action>) {
    forall a :: a in actions ==> !a.Settle?
  }

  lemma LeadSteps(cfg: Config, s: EngineState, t: Trade)
    requires cfg.tracksPositions && AllPriced(s.positions)
    requires !SkippedAtOnce(cfg, {}, t) && s.pendingCopies == {}
    ensures var end := RunFrom(cfg, s, Lead(cfg, t, s.nextId));
            && end.positions == s.positions && end.nextId == s.nextId + 1 && end.pendingCopies == {}
            && end.tasks == s.tasks[s.nextId := Task(t, AwaitingBalance)]
  {
    hide SkippedAtOnce, AllPriced;
    var n, detected := s.nextId, Step(cfg, s, Detect(t));
    assert RunFrom(cfg, detected, []) == detected;
    if cfg.usesFilter {
      var passed := Step(cfg, detected, FilterResult(n, true));
      assert Lead(cfg, t, n)[1..] == [FilterResult(n, true)];
      assert RunFrom(cfg, detected, [FilterResult(n, true)]) == passed;
    }
  }

  lemma LeadLines(cfg: Config, s: EngineState, trades: seq<Trade>, t: Trade)
    requires cfg.tracksPositions && !SkippedAtOnce(cfg, {}, t) && Lined(s, trades, 0)
    ensures Lined(RunFrom(cfg, s, Lead(cfg, t, |trades|)), trades + [t], 0)
  {
    hide RunFrom, Lead, SkippedAtOnce;
    LeadSteps(cfg, s, t);
  }

  lemma {:induction false} LineUp(cfg: Config, trades: seq<Trade>) returns (actions: seq<Action>)
    requires cfg.tracksPositions && forall t :: t in trades ==> !SkippedAtOnce(cfg, {}, t)
    ensures Lined(Run(cfg, actions), trades, 0) && NoneSettles(actions)
    decreases |trades|
  {
    if trades == [] {
      return [];
    }
    var first, t := trades[..|trades| - 1], trades[|trades| - 1];
    var before := LineUp(cfg, first);
    var more := Lead(cfg, t, |first|);
    assert NoneSettles(more);
    hide RunFrom, Lined, SkippedAtOnce, Lead;
    LeadLines(cfg, Run(cfg, before), first, t);
    RunFromConcat(cfg, INITIAL, before, more);
    actions := before + more;
    assert first + [t] == trades;
  }

  lemma AdmitNext(cfg: Config, s: EngineState, trades: seq<Trade>, admitted: nat, balance: real)
    requires cfg.tracksPositions && admitted < |trades| && FirstBuyPasses(cfg, trades[admitted], balance)
    requires Lined(s, trades, admitted)
    ensures Lined(RunFrom(cfg, s, [BalanceResult(admitted, balance)]), trades, admitted + 1)
  {
    hide RiskVerdict, SkippedAtOnce;
    var next := Step(cfg, s, BalanceResult(admitted, balance));
    assert RunFrom(cfg, next, []) == next;
    assert Lined(next, trades, admitted + 1);
  }

  lemma {:induction false} AdmitLine(cfg: Config, trades: seq<Trade>, admitted: nat, balance: real)
    returns (actions: seq<Action>)
    requires cfg.tracksPositions && AllPass(cfg, trades, balance) && admitted <= |trades|
    ensures Lined(Run(cfg, actions), trades, admitted) && NoneSettles(actions)
    decreases admitted
  {
    if admitted == 0 {
      assert forall t :: t in trades ==> FirstBuyPasses(cfg, t, balance);
      actions := LineUp(cfg, trades);
      return;
    }
    var before := AdmitLine(cfg, trades, admitted - 1, balance);
    var more := [BalanceResult(admitted - 1, balance)];
    hide RunFrom, Lined, FirstBuyPasses;
    assert trades[admitted - 1] in trades;
    AdmitNext(cfg, Run(cfg, before), trades, admitted - 1, balance);
    RunFromConcat(cfg, INITIAL, before, more);
    actions := before + more;
  }

  lemma LineInFlight(s: EngineState, trades: seq<Trade>)
    requires Lined(s, trades, |trades|) && forall t :: t in trades ==> t.direction == Buy
    ensures InFlight(s, Whole) == s.tasks.Keys && |InFlight(s, Whole)| == |trades|
    ensures CommittedMints(s) == MintsOf(trades)
  {
    forall id | id in s.tasks
      ensures id in InFlight(s, Whole)
    {
      assert trades[id] in trades;
    }
    assert InFlight(s, Whole) == s.tasks.Keys;
    forall mint
      ensures mint in MintsInFlight(s) <==> mint in MintsOf(trades)
    {
      if t :| t in trades && t.mint == mint {
        var i: nat :| i < |trades| && trades[i] == t;
        assert i in InFlight(s, Whole) && s.tasks[i].trade == t;
      }
    }
  }

  function MintsOf(trades: seq<Trade>): set<Mint> {
    set t | t in trades :: t.mint
  }

  /**
    However low the limits are: buys that overlap all pass if each passes by itself, and once they settle
    the exposure is one trade amount for each, and every token among them is held.
   */
  lemma OverlapAttains(cfg: Config, trades: seq<Trade>, balance: real) returns (actions: seq<Action>)
    requires cfg.tracksPositions && AllPass(cfg, trades, balance)
    ensures Exposure(Run(cfg, actions).positions) == Times(cfg.tradeAmount, |trades|)
    ensures Run(cfg, actions).positions.Keys == MintsOf(trades)
  {
    var before := AdmitLine(cfg, trades, |trades|, balance);
    var s := Run(cfg, before);
    assert forall t :: t in trades ==> FirstBuyPasses(cfg, t, balance);
    LineInFlight(s, trades);
    assert Cost(s.positions, Whole) == 0.0;
    hide RunFrom, Lined, FirstBuyPasses, InFlight, Exposure, CommittedMints, MintsOf;
    var more := SettleEveryBuy(cfg, s, Whole);
    RunFromConcat(cfg, INITIAL, before, more);
    actions := before + more;
  }

  /** n overlapping copies of one buy that passes: the exposure is n trade amounts, for every n. */
  lemma OverlapAttainsExposure(cfg: Config, t: Trade, n: nat, balance: real) returns (actions: seq<Action>)
    requires cfg.tracksPositions && FirstBuyPasses(cfg, t, balance)
    ensures Exposure(Run(cfg, actions).positions) == Times(cfg.tradeAmount, n)
  {
    hide FirstBuyPasses, RunFrom;
    actions := OverlapAttains(cfg, seq(n, _ => t), balance);
  }

  predicate DistinctMints(trades: seq<Trade>) {
    forall i, j :: 0 <= i < j < |trades| ==> trades[i].mint != trades[j].mint
  }

  lemma {:induction false} DistinctMintsCount(trades: seq<Trade>)
    requires DistinctMints(trades)
    ensures |MintsOf(trades)| == |trades|
    decreases |trades|
  {
    if trades == [] {
      assert MintsOf(trades) == {};
    } else {
      var first, t := trades[..|trades| - 1], trades[|trades| - 1];
      DistinctMintsCount(first);
      assert MintsOf(trades) == MintsOf(first) + {t.mint} by {
        assert trades == first + [t];
      }
      assert t.mint !in MintsOf(first) by {
        assert forall i :: 0 <= i < |first| ==> first[i] == trades[i];
      }
    }
  }

  /** Overlapping buys of different tokens, each of which passes by itself, end as that many positions. */
  lemma OverlapAttainsCount(cfg: Config, trades: seq<Trade>, balance: real) returns (actions: seq<Action>)
    requires cfg.tracksPositions && AllPass(cfg, trades, balance) && DistinctMints(trades)
    ensures |Run(cfg, actions).positions| == |trades|
  {
    hide AllPass, RunFrom, MintsOf, DistinctMints;
    actions := OverlapAttains(cfg, trades, balance);
    DistinctMintsCount(trades);
    var positions := Run(cfg, actions).positions;
    assert |positions.Keys| == |positions|;
  }

  //
  // The duplicate guard
  //

  ghost function ExecutingSignatures(s: EngineState): set<string> {
    set id | id in s.tasks && s.tasks[id].phase == Executing :: s.tasks[id].trade.signature
  }

  /** In every configuration a pending signature belongs to an executing copy. */
  ghost predicate PendingExecutes(s: EngineState) {
    s.pendingCopies <= ExecutingSignatures(s)
  }

  /** What the guard is for: it knows every executing copy, and each has a signature of its own. */
  ghost predicate NoDuplicates(s: EngineState) {
    && s.pendingCopies == ExecutingSignatures(s)
    && forall a, b ::
         InPhase(s, a, Executing) && InPhase(s, b, Executing) && a != b
         ==> s.tasks[a].trade.signature != s.tasks[b].trade.signature
  }

  /** A pending signature keeps the executing copy that it belongs to until that copy settles. */
  lemma PendingCopyStays(cfg: Config, s: EngineState, a: Action, id: nat)
    requires AllPriced(s.positions) && Numbered(s) && InPhase(s, id, Executing)
    requires s.tasks[id].trade.signature in s.pendingCopies
    requires s.tasks[id].trade.signature in Step(cfg, s, a).pendingCopies
    ensures InPhase(Step(cfg, s, a), id, Executing) && Step(cfg, s, a).tasks[id] == s.tasks[id]
  {
    hide AllPriced, RiskVerdict, SettleStep, SkippedAtOnce;
    if Enabled(s, a) && a.Settle? {
      SettleEnds(cfg, s, a.id, a.outcome);
    }
  }

  lemma NewPendingExecutes(cfg: Config, s: EngineState, a: Action, signature: string)
    requires AllPriced(s.positions) && Numbered(s)
    requires signature in Step(cfg, s, a).pendingCopies && signature !in s.pendingCopies
    ensures signature in ExecutingSignatures(Step(cfg, s, a))
  {
    hide AllPriced, RiskVerdict, RecordedPositions, SkippedAtOnce;
    var next := Step(cfg, s, a);
    var id := if a.Detect? then s.nextId else a.id;
    assert id in next.tasks && next.tasks[id].phase == Executing && next.tasks[id].trade.signature == signature;
  }

  lemma StepKeepsPendingExecutes(cfg: Config, s: EngineState, a: Action)
    requires AllPriced(s.positions) && Numbered(s) && PendingExecutes(s)
    ensures PendingExecutes(Step(cfg, s, a))
  {
    hide Step, AllPriced, Numbered;
    var next := Step(cfg, s, a);
    forall signature | signature in next.pendingCopies
      ensures signature in ExecutingSignatures(next)
    {
      if signature in s.pendingCopies {
        assert signature in ExecutingSignatures(s);
        var id :| InPhase(s, id, Executing) && s.tasks[id].trade.signature == signature;
        PendingCopyStays(cfg, s, a, id);
      } else {
        NewPendingExecutes(cfg, s, a, signature);
      }
    }
  }

  lemma {:induction false} RunKeepsPendingExecutes(cfg: Config, s: EngineState, actions: seq<Action>)
    requires AllPriced(s.positions) && Numbered(s) && PendingExecutes(s)
    ensures PendingExecutes(RunFrom(cfg, s, actions))
    decreases |actions|
  {
    hide Step, AllPriced, Numbered, PendingExecutes;
    if actions == [] {
    } else {
      StepKeepsNumbered(cfg, s, actions[0]);
      StepKeepsPendingExecutes(cfg, s, actions[0]);
      RunKeepsPendingExecutes(cfg, Step(cfg, s, actions[0]), actions[1..]);
    }
  }

  lemma PendingAlwaysExecutes(cfg: Config, actions: seq<Action>)
    ensures PendingExecutes(Run(cfg, actions))
  {
    RunKeepsPendingExecutes(cfg, INITIAL, actions);
  }

  /** With neither filter nor position manager, detection and admission are one step. */
  ghost predicate AllExecute(s: EngineState) {
    Numbered(s) && NoDuplicates(s) && forall id :: id in s.tasks ==> s.tasks[id].phase == Executing
  }

  lemma UnguardedDetect(cfg: Config, s: EngineState, trade: Trade)
    requires !cfg.usesFilter && !cfg.tracksPositions && AllExecute(s)
    ensures AllExecute(DetectStep(cfg, s, trade))
  {
    hide AllExecute, Numbered;
    var next := DetectStep(cfg, s, trade);
    if SkippedAtOnce(cfg, s.pendingCopies, trade) {
      SameExecutions(s, next);
    } else {
      UnguardedAdmit(s, next, trade);
    }
  }

  lemma SameExecutions(s: EngineState, next: EngineState)
    requires AllExecute(s) && next.nextId == s.nextId + 1
    requires next.tasks == s.tasks - {s.nextId} && next.pendingCopies == s.pendingCopies
    ensures AllExecute(next)
  {
    assert next.tasks == s.tasks;
    assert ExecutingSignatures(next) == ExecutingSignatures(s);
  }

  lemma UnguardedAdmit(s: EngineState, next: EngineState, trade: Trade)
    requires AllExecute(s) && next.nextId == s.nextId + 1 && trade.signature !in s.pendingCopies
    requires next.tasks == s.tasks[s.nextId := Task(trade, Executing)]
    requires next.pendingCopies == s.pendingCopies + {trade.signature}
    ensures AllExecute(next)
  {
    AddedSignature(s, next, s.nextId, trade);
    assert forall other :: InPhase(s, other, Executing) ==>
      s.tasks[other].trade.signature in ExecutingSignatures(s);
  }

  lemma AddedSignature(s: EngineState, next: EngineState, id: nat, trade: Trade)
    requires id !in s.tasks && next.tasks == s.tasks[id := Task(trade, Executing)]
    ensures ExecutingSignatures(next) == ExecutingSignatures(s) + {trade.signature}
  {
    assert id in next.tasks && next.tasks[id] == Task(trade, Executing);
    assert forall other :: other in s.tasks ==> other in next.tasks && next.tasks[other] == s.tasks[other];
  }

  lemma UnguardedSettle(cfg: Config, s: EngineState, id: nat, outcome: SwapOutcome)
    requires !cfg.tracksPositions && AllPriced(s.positions) && AllExecute(s) && InPhase(s, id, Executing)
    ensures AllExecute(SettleStep(cfg, s, id, outcome))
  {
    hide AllPriced, SettleStep;
    var next := SettleStep(cfg, s, id, outcome);
    var signature := s.tasks[id].trade.signature;
    SettleEnds(cfg, s, id, outcome);
    assert ExecutingSignatures(next) == ExecutingSignatures(s) - {signature} by {
      assert forall other :: other in next.tasks ==>
        InPhase(s, other, Executing) && other != id && next.tasks[other] == s.tasks[other];
      assert forall other :: other in s.tasks && other != id ==> other in next.tasks;
    }
  }

  lemma UnguardedStep(cfg: Config, s: EngineState, a: Action)
    requires !cfg.usesFilter && !cfg.tracksPositions && AllPriced(s.positions) && AllExecute(s)
    ensures AllExecute(Step(cfg, s, a))
  {
    hide AllPriced, DetectStep, SettleStep;
    if Enabled(s, a) {
      if a.Detect? {
        UnguardedDetect(cfg, s, a.trade);
      } else if a.Settle? {
        UnguardedSettle(cfg, s, a.id, a.outcome);
      }
    }
  }

  lemma {:induction false} UnguardedRun(cfg: Config, s: EngineState, actions: seq<Action>)
    requires !cfg.usesFilter && !cfg.tracksPositions && AllPriced(s.positions) && AllExecute(s)
    ensures AllExecute(RunFrom(cfg, s, actions))
    decreases |actions|
  {
    hide Step, AllPriced, AllExecute;
    if actions == [] {
    } else {
      UnguardedStep(cfg, s, actions[0]);
      UnguardedRun(cfg, Step(cfg, s, actions[0]), actions[1..]);
    }
  }

  /** With a position manager that never lets a first buy through, nothing executes at all. */
  ghost predicate NothingExecutes(s: EngineState) {
    s.positions == map[] && s.pendingCopies == {} && forall id :: !InPhase(s, id, Executing)
  }

  predicate AdmitsFirstBuy(cfg: Config) {
    && cfg.tradeAmount <= cfg.limits.maxPositionSize
    && cfg.tradeAmount <= cfg.limits.maxTotalExposure
    && 0 < cfg.limits.maxOpenPositions
  }

  lemma FirstBuyAllowed(cfg: Config, mint: Mint)
    requires AdmitsFirstBuy(cfg)
    ensures RiskVerdict(map[], cfg.limits, mint, Buy, cfg.tradeAmount,
                        cfg.limits.minUsdcReserve + cfg.tradeAmount).Allowed?
  {
    assert Exposure(map[]) == 0.0;
  }

  lemma ClosedVerdict(cfg: Config, trade: Trade, balance: real)
    requires !AdmitsFirstBuy(cfg)
    ensures !RiskVerdict(map[], cfg.limits, trade.mint, trade.direction, cfg.tradeAmount, balance).Allowed?
  {
    assert Exposure(map[]) == 0.0;
  }

  lemma ClosedStep(cfg: Config, s: EngineState, a: Action)
    requires cfg.tracksPositions && !AdmitsFirstBuy(cfg) && AllPriced(s.positions) && NothingExecutes(s)
    ensures NothingExecutes(Step(cfg, s, a))
  {
    hide SkippedAtOnce, SettleStep, RiskVerdict, AllPriced, AdmitsFirstBuy;
    var next := Step(cfg, s, a);
    if a.BalanceResult? && InPhase(s, a.id, AwaitingBalance) {
      ClosedVerdict(cfg, s.tasks[a.id].trade, a.balance);
    }
    assert forall id :: id in next.tasks ==> next.tasks[id].phase != Executing by {
      assert forall id :: id in s.tasks ==> !InPhase(s, id, Executing);
    }
  }

  lemma ClosedKeepsGuard(s: EngineState)
    requires NothingExecutes(s)
    ensures NoDuplicates(s)
  {
    assert forall id :: id in s.tasks ==> !InPhase(s, id, Executing);
  }

  lemma {:induction false} ClosedRun(cfg: Config, s: EngineState, actions: seq<Action>)
    requires cfg.tracksPositions && !AdmitsFirstBuy(cfg) && AllPriced(s.positions) && NothingExecutes(s)
    ensures NothingExecutes(RunFrom(cfg, s, actions))
    decreases |actions|
  {
    hide Step, AllPriced, NothingExecutes;
    if actions == [] {
    } else {
      ClosedStep(cfg, s, actions[0]);
      ClosedRun(cfg, Step(cfg, s, actions[0]), actions[1..]);
    }
  }

  /** A buy that filters 1 to 4 let through when nothing is pending. */
  function SomeBuy(cfg: Config): (t: Trade)
    ensures t.direction == Buy && !SkippedAtOnce(cfg, {}, t)
  {
    Trade(if cfg.allowedTokens == [] then "" else cfg.allowedTokens[0], Buy, cfg.minTradeUsdc, "")
  }

  /** Two detections of one transaction, both past the duplicate filter before either is admitted. */
  lemma TwoCopiesBehindFilter(cfg: Config) returns (actions: seq<Action>)
    requires cfg.usesFilter && !cfg.tracksPositions
    ensures InPhase(Run(cfg, actions), 0, Executing) && InPhase(Run(cfg, actions), 1, Executing)
    ensures Run(cfg, actions).tasks[0].trade == Run(cfg, actions).tasks[1].trade
  {
    hide SkippedAtOnce;
    var t := SomeBuy(cfg);
    var s1 := Step(cfg, INITIAL, Detect(t));
    var s2 := Step(cfg, s1, Detect(t));
    var s3 := Step(cfg, s2, FilterResult(0, true));
    var s4 := Step(cfg, s3, FilterResult(1, true));
    assert RunFrom(cfg, s4, []) == s4;
    assert RunFrom(cfg, s3, [FilterResult(1, true)]) == s4;
    assert [FilterResult(0, true), FilterResult(1, true)][1..] == [FilterResult(1, true)];
    assert RunFrom(cfg, s2, [FilterResult(0, true), FilterResult(1, true)]) == s4;
    var rest := [Detect(t), FilterResult(0, true), FilterResult(1, true)];
    assert rest[1..] == [FilterResult(0, true), FilterResult(1, true)];
    assert RunFrom(cfg, s1, rest) == s4;
    actions := [Detect(t)] + rest;
    assert actions[1..] == rest;
  }

  /** Exactly which configurations keep the promise that no transaction is copied twice at once. */
  predicate GuardWorks(cfg: Config) {
    if cfg.tracksPositions then !AdmitsFirstBuy(cfg) else !cfg.usesFilter
  }

  lemma NoDuplicatesIff(cfg: Config)
    ensures GuardWorks(cfg) <==> forall actions :: NoDuplicates(Run(cfg, actions))
  {
    if GuardWorks(cfg) {
      forall actions
        ensures NoDuplicates(Run(cfg, actions))
      {
        hide RunFrom;
        if cfg.tracksPositions {
          ClosedRun(cfg, INITIAL, actions);
          ClosedKeepsGuard(Run(cfg, actions));
        } else {
          UnguardedRun(cfg, INITIAL, actions);
        }
      }
    } else {
      var actions := DuplicateRun(cfg);
    }
  }

  lemma DuplicateRun(cfg: Config) returns (actions: seq<Action>)
    requires !GuardWorks(cfg)
    ensures !NoDuplicates(Run(cfg, actions))
  {
    hide RunFrom, SkippedAtOnce;
    if cfg.tracksPositions {
      var t, balance := SomeBuy(cfg), cfg.limits.minUsdcReserve + cfg.tradeAmount;
      assert Exposure(map[]) == 0.0;
      actions := AdmitLine(cfg, [t, t], 2, balance);
      assert InPhase(Run(cfg, actions), 0, Executing) && InPhase(Run(cfg, actions), 1, Executing);
    } else {
      actions := TwoCopiesBehindFilter(cfg);
    }
  }
}
