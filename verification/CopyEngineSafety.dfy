/**
  How far the risk limits hold when trades overlap.

  A buy is checked against the limits when it is admitted and recorded only when its swap settles,
  so what is bounded is the recorded cost together with the buys in flight.
 */
module CopyEngineSafety {
  import opened Sets
  import opened Positions
  import opened PositionLedger
  import opened CopyEngine

  /** The whole portfolio, or one token: the two USDC limits are the same law in two scopes. */
  datatype Scope = Whole | Token(mint: Mint)

  predicate InScope(scope: Scope, mint: Mint) {
    scope.Whole? || scope.mint == mint
  }

  ghost function Cost(positions: Portfolio, scope: Scope): real {
    match scope
    case Whole => Exposure(positions)
    case Token(mint) => CostOf(positions, mint)
  }

  function Limit(cfg: Config, scope: Scope): real {
    match scope
    case Whole => cfg.limits.maxTotalExposure
    case Token(_) => cfg.limits.maxPositionSize
  }

  /** Buys between admission and completion. */
  predicate IsBuyInFlight(t: Task, scope: Scope) {
    t.phase == Executing && t.trade.direction == Buy && InScope(scope, t.trade.mint)
  }

  ghost function InFlight(s: EngineState, scope: Scope): set<nat> {
    set id | id in s.tasks && IsBuyInFlight(s.tasks[id], scope)
  }

  /** The cost of n trades, x * n, as repeated addition. */
  function Times(x: real, n: nat): real {
    if n == 0 then 0.0 else x + Times(x, n - 1)
  }

  lemma {:induction false} TimesIsProduct(x: real, n: nat)
    ensures Times(x, n) == x * n as real
  {
    if n > 0 {
      TimesIsProduct(x, n - 1);
    }
  }

  lemma {:induction false} TimesMonotone(x: real, n: nat, m: nat)
    requires x > 0.0 && n <= m
    ensures 0.0 <= Times(x, n) <= Times(x, m)
  {
    if m > 0 {
      TimesMonotone(x, if n == 0 then 0 else n - 1, m - 1);
    }
  }

  /** Cost recorded and cost on its way. */
  ghost function Committed(cfg: Config, s: EngineState, scope: Scope): real {
    Cost(s.positions, scope) + Times(cfg.tradeAmount, |InFlight(s, scope)|)
  }

  //
  // Costs
  //

  lemma {:induction false} ExposureNotNegative(positions: Portfolio)
    requires AllPriced(positions)
    ensures Exposure(positions) >= 0.0
    decreases |positions|
  {
    if positions != map[] {
      var mint :| mint in positions;
      assert Priced(positions[mint]);
      ExposureRemove(positions, mint);
      ExposureNotNegative(positions - {mint});
    }
  }

  lemma CostNotNegative(positions: Portfolio, scope: Scope)
    requires AllPriced(positions)
    ensures Cost(positions, scope) >= 0.0
  {
    ExposureNotNegative(positions);
    if scope.Token? && scope.mint in positions {
      assert Priced(positions[scope.mint]);
    }
  }

  /** A recorded buy adds the trade amount within its scopes; a recorded sell adds nothing anywhere. */
  lemma RecordedCost(cfg: Config, positions: Portfolio, trade: Trade, receipt: Receipt, scope: Scope)
    requires AllPriced(positions)
    ensures trade.direction == Buy ==>
      Cost(RecordedPositions(cfg, positions, trade, receipt), scope)
        == Cost(positions, scope) + (if InScope(scope, trade.mint) then cfg.tradeAmount else 0.0)
    ensures trade.direction == Sell ==>
      Cost(RecordedPositions(cfg, positions, trade, receipt), scope) <= Cost(positions, scope)
  {
    var mint, outAmount, signature := trade.mint, receipt.outAmount, receipt.signature;
    match trade.direction
    case Buy =>
      BuyKeepsPriced(positions, mint, outAmount, cfg.tradeAmount, signature);
      BuyAddsExposure(positions, mint, outAmount, cfg.tradeAmount, cfg.tradeAmount / outAmount as real, signature);
    case Sell =>
      SellKeepsPriced(positions, mint, outAmount, signature);
      SellLowersCost(positions, mint, outAmount, signature, scope);
  }

  lemma SellLowersCost(positions: Portfolio, mint: Mint, amount: int, signature: string, scope: Scope)
    requires AllPriced(positions) && amount > 0 && (mint in positions ==> positions[mint].amount != 0)
    ensures Cost(AfterSell(positions, mint, amount, signature), scope) <= Cost(positions, scope)
  {
    if SellAccepted(positions, mint, amount) {
      var p := positions[mint];
      assert Priced(p);
      BasisNotNegative(p, amount);
      SellMovesBasis(positions, mint, amount, 0.0, signature);
    }
  }

  lemma BasisNotNegative(p: Position, amount: int)
    requires Priced(p) && 0 < amount
    ensures SaleOf(p, amount, 0.0).costBasis >= 0.0
    ensures p.totalCost * (1.0 - SellShare(p, amount)) <= p.totalCost
  {
    var share := SellShare(p, amount);
    QuotientTimesDivisor(amount as real, p.amount as real);
    PositiveFactor(share, p.amount as real);
    PositiveProduct(p.totalCost, share);
    assert p.totalCost * (1.0 - share) == p.totalCost - p.totalCost * share;
  }

  //
  // What one step does to the committed cost
  //

  lemma InFlightAfterWaiting(s: EngineState, id: nat, trade: Trade, phase: Phase, scope: Scope)
    requires id !in InFlight(s, scope)
    ensures InFlight(Waiting(s, id, trade, phase), scope)
         == if IsBuyInFlight(Task(trade, phase), scope) then InFlight(s, scope) + {id} else InFlight(s, scope)
  {
  }

  lemma InFlightAfterDrop(s: EngineState, t: EngineState, id: nat, scope: Scope)
    requires t.tasks == s.tasks - {id}
    ensures InFlight(t, scope) == InFlight(s, scope) - {id}
  {
  }

  /** Task numbers are never reused. */
  predicate Numbered(s: EngineState) {
    forall id :: id in s.tasks ==> id < s.nextId
  }

  /** Without a position manager trades are not checked; with one, no trade executes unchecked. */
  ghost predicate Admission(cfg: Config, s: EngineState, a: Action, scope: Scope) {
    && a.BalanceResult? && InPhase(s, a.id, AwaitingBalance)
    && var trade := s.tasks[a.id].trade;
       && trade.direction == Buy && InScope(scope, trade.mint)
       && RiskVerdict(s.positions, cfg.limits, trade.mint, Buy, cfg.tradeAmount, a.balance).Allowed?
  }

  lemma AdmissionCommits(cfg: Config, s: EngineState, a: Action, scope: Scope)
    requires cfg.tracksPositions && AllPriced(s.positions) && Admission(cfg, s, a, scope)
    ensures Cost(Step(cfg, s, a).positions, scope) + cfg.tradeAmount <= Limit(cfg, scope)
    ensures InFlight(Step(cfg, s, a), scope) == InFlight(s, scope) + {a.id}
    ensures a.id !in InFlight(s, scope)
  {
    InFlightAfterWaiting(s, a.id, s.tasks[a.id].trade, Executing, scope);
  }

  lemma SettleCommits(cfg: Config, s: EngineState, id: nat, outcome: SwapOutcome, scope: Scope)
    requires cfg.tracksPositions && AllPriced(s.positions) && InPhase(s, id, Executing)
    ensures Committed(cfg, SettleStep(cfg, s, id, outcome), scope) <= Committed(cfg, s, scope)
    ensures InFlight(SettleStep(cfg, s, id, outcome), scope) == InFlight(s, scope) - {id}
  {
    hide RecordedPositions, Cost, AllPriced;
    var next := SettleStep(cfg, s, id, outcome);
    InFlightAfterDrop(s, next, id, scope);
    if outcome.Sent? {
      RecordedCost(cfg, s.positions, s.tasks[id].trade, outcome.receipt, scope);
    }
    if id in InFlight(s, scope) {
      assert |InFlight(next, scope)| == |InFlight(s, scope)| - 1;
    } else {
      assert InFlight(next, scope) == InFlight(s, scope);
    }
  }

  lemma OtherStepCommits(cfg: Config, s: EngineState, a: Action, scope: Scope)
    requires cfg.tracksPositions && AllPriced(s.positions) && Numbered(s) && !Admission(cfg, s, a, scope)
    ensures Committed(cfg, Step(cfg, s, a), scope) <= Committed(cfg, s, scope)
  {
    hide Cost, AllPriced, SettleStep;
    if Enabled(s, a) && a.Settle? {
      SettleCommits(cfg, s, a.id, a.outcome, scope);
    } else {
      InFlightUnchanged(cfg, s, a, scope);
    }
  }

  lemma InFlightUnchanged(cfg: Config, s: EngineState, a: Action, scope: Scope)
    requires cfg.tracksPositions && AllPriced(s.positions) && Numbered(s) && !Admission(cfg, s, a, scope)
    requires Enabled(s, a) ==> !a.Settle?
    ensures InFlight(Step(cfg, s, a), scope) == InFlight(s, scope)
    ensures Step(cfg, s, a).positions == s.positions
  {
    hide SettleStep, RiskVerdict, AllPriced, SkippedAtOnce, InFlight;
    if Enabled(s, a) {
      var id, next := if a.Detect? then s.nextId else a.id, Step(cfg, s, a);
      NotInFlight(s, id, scope);
      if id in next.tasks {
        InFlightAfterWaiting(s, id, next.tasks[id].trade, next.tasks[id].phase, scope);
        SameInFlight(Waiting(s, id, next.tasks[id].trade, next.tasks[id].phase), next, scope);
      } else {
        InFlightAfterDrop(s, next, id, scope);
      }
    }
  }

  lemma NotInFlight(s: EngineState, id: nat, scope: Scope)
    requires !InPhase(s, id, Executing)
    ensures id !in InFlight(s, scope)
  {
  }

  lemma SameInFlight(s: EngineState, t: EngineState, scope: Scope)
    requires s.tasks == t.tasks
    ensures InFlight(s, scope) == InFlight(t, scope)
  {
  }

  lemma StepKeepsNumbered(cfg: Config, s: EngineState, a: Action)
    requires AllPriced(s.positions) && Numbered(s)
    ensures Numbered(Step(cfg, s, a))
  {
  }

  //
  // The bound over every interleaving
  //

  /** The largest number of buys in flight at once, but at least 1. */
  ghost function PeakFrom(cfg: Config, s: EngineState, actions: seq<Action>, scope: Scope): (peak: nat)
    requires AllPriced(s.positions)
    ensures peak >= 1 && peak >= |InFlight(s, scope)|
    decreases |actions|
  {
    var here := if |InFlight(s, scope)| > 1 then |InFlight(s, scope)| else 1;
    if actions == [] then here
    else
      var rest := PeakFrom(cfg, Step(cfg, s, actions[0]), actions[1..], scope);
      if rest > here then rest else here
  }

  ghost predicate CommittedWithin(cfg: Config, s: EngineState, scope: Scope, peak: nat)
    requires peak >= 1
  {
    || Committed(cfg, s, scope) == 0.0
    || Committed(cfg, s, scope) <= Limit(cfg, scope) + Times(cfg.tradeAmount, peak - 1)
  }

  lemma StepKeepsWithin(cfg: Config, s: EngineState, a: Action, scope: Scope, peak: nat)
    requires cfg.tracksPositions && AllPriced(s.positions) && Numbered(s)
    requires peak >= 1 && CommittedWithin(cfg, s, scope, peak)
    requires |InFlight(Step(cfg, s, a), scope)| <= peak
    ensures CommittedWithin(cfg, Step(cfg, s, a), scope, peak)
  {
    hide Step, Cost, InFlight, AllPriced, Admission;
    var next := Step(cfg, s, a);
    CostNotNegative(next.positions, scope);
    TimesMonotone(cfg.tradeAmount, |InFlight(next, scope)|, peak);
    if Admission(cfg, s, a, scope) {
      AdmissionCommits(cfg, s, a, scope);
    } else {
      OtherStepCommits(cfg, s, a, scope);
    }
  }

  lemma {:induction false} RunKeepsWithin(cfg: Config, s: EngineState, actions: seq<Action>, scope: Scope, peak: nat)
    requires cfg.tracksPositions && AllPriced(s.positions) && Numbered(s)
    requires peak >= 1 && CommittedWithin(cfg, s, scope, peak) && PeakFrom(cfg, s, actions, scope) <= peak
    ensures CommittedWithin(cfg, RunFrom(cfg, s, actions), scope, peak)
    decreases |actions|
  {
    hide Step, CommittedWithin, InFlight, AllPriced, Numbered;
    if actions == [] {
    } else {
      var next := Step(cfg, s, actions[0]);
      StepKeepsNumbered(cfg, s, actions[0]);
      StepKeepsWithin(cfg, s, actions[0], scope, peak);
      RunKeepsWithin(cfg, next, actions[1..], scope, peak);
    }
  }

  /**
    For every interleaving: the recorded cost and the buys in flight exceed the configured limit by
    at most one trade amount for each buy that overlapped another; this holds for the whole
    portfolio and for every token by itself.
   */
  lemma CostBound(cfg: Config, actions: seq<Action>, scope: Scope)
    requires cfg.tracksPositions
    ensures CommittedWithin(cfg, Run(cfg, actions), scope, PeakFrom(cfg, INITIAL, actions, scope))
  {
    assert InFlight(INITIAL, scope) == {};
    RunKeepsWithin(cfg, INITIAL, actions, scope, PeakFrom(cfg, INITIAL, actions, scope));
  }

  //
  // The number of tokens
  //

  ghost function MintsInFlight(s: EngineState): set<Mint> {
    set id | id in InFlight(s, Whole) :: s.tasks[id].trade.mint
  }

  /** Tokens held and tokens on their way. */
  ghost function CommittedMints(s: EngineState): set<Mint> {
    s.positions.Keys + MintsInFlight(s)
  }

  lemma {:induction false} ImageNotLarger(tasks: map<nat, Task>, ids: set<nat>)
    requires ids <= tasks.Keys
    ensures |set id | id in ids :: tasks[id].trade.mint| <= |ids|
    decreases |ids|
  {
    if ids != {} {
      var some :| some in ids;
      var rest := ids - {some};
      ImageNotLarger(tasks, rest);
      assert (set id | id in ids :: tasks[id].trade.mint)
          == (set id | id in rest :: tasks[id].trade.mint) + {tasks[some].trade.mint};
    }
  }

  ghost predicate CountWithin(cfg: Config, s: EngineState, peak: nat) {
    CommittedMints(s) == {} || |CommittedMints(s)| <= cfg.limits.maxOpenPositions + peak - 1
  }

  lemma RecordedMints(cfg: Config, positions: Portfolio, trade: Trade, receipt: Receipt)
    requires AllPriced(positions)
    ensures RecordedPositions(cfg, positions, trade, receipt).Keys
         <= positions.Keys + (if trade.direction == Buy then {trade.mint} else {})
  {
  }

  lemma SettleMints(cfg: Config, s: EngineState, id: nat, outcome: SwapOutcome)
    requires AllPriced(s.positions) && InPhase(s, id, Executing)
    ensures CommittedMints(SettleStep(cfg, s, id, outcome)) <= CommittedMints(s)
  {
    hide RecordedPositions, AllPriced;
    var next, trade := SettleStep(cfg, s, id, outcome), s.tasks[id].trade;
    assert MintsInFlight(next) <= MintsInFlight(s) by {
      assert forall other :: other in InFlight(next, Whole) ==>
        other in InFlight(s, Whole) && next.tasks[other] == s.tasks[other];
    }
    if outcome.Sent? {
      RecordedMints(cfg, s.positions, trade, outcome.receipt);
      assert trade.direction == Buy ==> id in InFlight(s, Whole);
    }
  }

  lemma OtherStepMints(cfg: Config, s: EngineState, a: Action)
    requires cfg.tracksPositions && AllPriced(s.positions) && Numbered(s) && !Admission(cfg, s, a, Whole)
    ensures CommittedMints(Step(cfg, s, a)) <= CommittedMints(s)
  {
    hide SettleStep, AllPriced, InFlight;
    if Enabled(s, a) && a.Settle? {
      SettleMints(cfg, s, a.id, a.outcome);
    } else {
      InFlightUnchanged(cfg, s, a, Whole);
      SameMintsInFlight(cfg, s, a);
    }
  }

  lemma SameMintsInFlight(cfg: Config, s: EngineState, a: Action)
    requires cfg.tracksPositions && AllPriced(s.positions) && Numbered(s)
    requires Enabled(s, a) ==> !a.Settle?
    requires InFlight(Step(cfg, s, a), Whole) == InFlight(s, Whole)
    ensures MintsInFlight(Step(cfg, s, a)) == MintsInFlight(s)
  {
    var next := Step(cfg, s, a);
    assert forall id :: id in InFlight(s, Whole) ==> next.tasks[id].trade.mint == s.tasks[id].trade.mint;
  }

  lemma AdmissionAddsMint(cfg: Config, s: EngineState, a: Action)
    requires cfg.tracksPositions && AllPriced(s.positions) && Admission(cfg, s, a, Whole)
    ensures var next, mint := Step(cfg, s, a), s.tasks[a.id].trade.mint;
            && next.positions == s.positions && MintsInFlight(next) == MintsInFlight(s) + {mint}
            && (mint in s.positions || |s.positions| < cfg.limits.maxOpenPositions)
            && InFlight(next, Whole) <= next.tasks.Keys
  {
    AdmissionCommits(cfg, s, a, Whole);
  }

  lemma AdmissionMints(cfg: Config, s: EngineState, a: Action, peak: nat)
    requires cfg.tracksPositions && AllPriced(s.positions) && Admission(cfg, s, a, Whole)
    requires |InFlight(Step(cfg, s, a), Whole)| <= peak && CountWithin(cfg, s, peak)
    ensures CountWithin(cfg, Step(cfg, s, a), peak)
  {
    hide Step, InFlight, AllPriced, RiskVerdict;
    var next := Step(cfg, s, a);
    AdmissionAddsMint(cfg, s, a);
    if s.tasks[a.id].trade.mint in s.positions {
      assert CommittedMints(next) == CommittedMints(s);
    } else {
      ImageNotLarger(next.tasks, InFlight(next, Whole));
      UnionNotLarger(next.positions.Keys, MintsInFlight(next));
      assert |s.positions.Keys| == |s.positions|;
    }
  }

  lemma {:induction false} RunKeepsCount(cfg: Config, s: EngineState, actions: seq<Action>, peak: nat)
    requires cfg.tracksPositions && AllPriced(s.positions) && Numbered(s)
    requires CountWithin(cfg, s, peak) && PeakFrom(cfg, s, actions, Whole) <= peak
    ensures CountWithin(cfg, RunFrom(cfg, s, actions), peak)
    decreases |actions|
  {
    hide Step, InFlight, AllPriced, Numbered, CommittedMints, Admission;
    if actions == [] {
    } else {
      var a := actions[0];
      var next := Step(cfg, s, a);
      StepKeepsNumbered(cfg, s, a);
      assert CountWithin(cfg, next, peak) by {
        if Admission(cfg, s, a, Whole) {
          AdmissionMints(cfg, s, a, peak);
        } else {
          OtherStepMints(cfg, s, a);
          SubsetNotLarger(CommittedMints(next), CommittedMints(s));
        }
      }
      RunKeepsCount(cfg, next, actions[1..], peak);
    }
  }

  /** For every interleaving: at most one token beyond the limit for each overlapping buy. */
  lemma CountBound(cfg: Config, actions: seq<Action>)
    requires cfg.tracksPositions
    ensures CountWithin(cfg, Run(cfg, actions), PeakFrom(cfg, INITIAL, actions, Whole))
  {
    assert InFlight(INITIAL, Whole) == {};
    RunKeepsCount(cfg, INITIAL, actions, PeakFrom(cfg, INITIAL, actions, Whole));
  }

  //
  // One buy at a time
  //

  lemma {:induction false} TokenPeak(cfg: Config, s: EngineState, actions: seq<Action>, mint: Mint)
    requires AllPriced(s.positions)
    ensures PeakFrom(cfg, s, actions, Token(mint)) <= PeakFrom(cfg, s, actions, Whole)
    decreases |actions|
  {
    hide Step, AllPriced;
    SubsetNotLarger(InFlight(s, Token(mint)), InFlight(s, Whole));
    if actions == [] {
    } else {
      TokenPeak(cfg, Step(cfg, s, actions[0]), actions[1..], mint);
    }
  }

  /** If buys never overlap, every configured limit holds in every reachable state. */
  lemma LimitsHoldWithoutOverlap(cfg: Config, actions: seq<Action>)
    requires cfg.tracksPositions && PeakFrom(cfg, INITIAL, actions, Whole) == 1
    requires 0.0 <= cfg.limits.maxTotalExposure && 0.0 <= cfg.limits.maxPositionSize
    requires 0 <= cfg.limits.maxOpenPositions
    ensures var positions := Run(cfg, actions).positions;
            && Exposure(positions) <= cfg.limits.maxTotalExposure
            && (forall mint :: CostOf(positions, mint) <= cfg.limits.maxPositionSize)
            && |positions| <= cfg.limits.maxOpenPositions
  {
    hide Run, PeakFrom, Exposure;
    var s := Run(cfg, actions);
    CostBound(cfg, actions, Whole);
    TimesMonotone(cfg.tradeAmount, |InFlight(s, Whole)|, |InFlight(s, Whole)|);
    forall mint ensures CostOf(s.positions, mint) <= cfg.limits.maxPositionSize {
      TokenPeak(cfg, INITIAL, actions, mint);
      CostBound(cfg, actions, Token(mint));
      TimesMonotone(cfg.tradeAmount, |InFlight(s, Token(mint))|, |InFlight(s, Token(mint))|);
    }
    CountBound(cfg, actions);
    assert |s.positions.Keys| == |s.positions|;
    SubsetNotLarger(s.positions.Keys, CommittedMints(s));
  }

  //
  // Exactly when the buys in flight can break a limit
  //

  predicate AllSettles(actions: seq<Action>) {
    forall i :: 0 <= i < |actions| ==> actions[i].Settle?
  }

  ghost predicate SafeToSettle(cfg: Config, s: EngineState, scope: Scope)
    requires AllPriced(s.positions)
  {
    forall actions :: AllSettles(actions) ==> Cost(RunFrom(cfg, s, actions).positions, scope) <= Limit(cfg, scope)
  }

  lemma {:induction false} SettlingCommitsNoMore(cfg: Config, s: EngineState, actions: seq<Action>, scope: Scope)
    requires cfg.tracksPositions && AllPriced(s.positions) && AllSettles(actions)
    ensures Committed(cfg, RunFrom(cfg, s, actions), scope) <= Committed(cfg, s, scope)
    decreases |actions|
  {
    hide SettleStep, Committed, AllPriced;
    if actions == [] {
    } else {
      var a := actions[0];
      if Enabled(s, a) {
        SettleCommits(cfg, s, a.id, a.outcome, scope);
      }
      SettlingCommitsNoMore(cfg, Step(cfg, s, a), actions[1..], scope);
    }
  }

  const RECEIPT := Receipt(1, "")

  lemma SettleBuyMints(cfg: Config, s: EngineState, id: nat)
    requires cfg.tracksPositions && AllPriced(s.positions) && id in InFlight(s, Whole)
    ensures CommittedMints(SettleStep(cfg, s, id, Sent(RECEIPT))) == CommittedMints(s)
  {
    hide AllPriced;
    var next, mint := SettleStep(cfg, s, id, Sent(RECEIPT)), s.tasks[id].trade.mint;
    InFlightAfterDrop(s, next, id, Whole);
    assert next.positions.Keys == s.positions.Keys + {mint};
    assert MintsInFlight(next) + {mint} == MintsInFlight(s) by {
      assert forall other :: other in InFlight(s, Whole) && other != id ==>
        other in InFlight(next, Whole) && next.tasks[other] == s.tasks[other];
    }
  }

  /** When every buy in flight succeeds, the whole committed cost is recorded, and every committed token held. */
  lemma {:induction false} SettleEveryBuy(cfg: Config, s: EngineState, scope: Scope) returns (actions: seq<Action>)
    requires cfg.tracksPositions && AllPriced(s.positions)
    ensures AllSettles(actions)
    ensures Cost(RunFrom(cfg, s, actions).positions, scope) == Committed(cfg, s, scope)
    ensures scope.Whole? ==> RunFrom(cfg, s, actions).positions.Keys == CommittedMints(s)
    decreases |InFlight(s, scope)|
  {
    hide RecordedPositions, Cost, AllPriced, CommittedMints;
    if InFlight(s, scope) == {} {
      NoMintsInFlight(s);
      return [];
    }
    var id :| id in InFlight(s, scope);
    var a := Settle(id, Sent(RECEIPT));
    var next := Step(cfg, s, a);
    RecordedCost(cfg, s.positions, s.tasks[id].trade, RECEIPT, scope);
    InFlightAfterDrop(s, next, id, scope);
    if scope.Whole? {
      SettleBuyMints(cfg, s, id);
    }
    var rest := SettleEveryBuy(cfg, next, scope);
    actions := [a] + rest;
    assert actions[1..] == rest;
  }

  /**
    The check at admission compares the recorded cost with the limit. What decides whether the buys
    in flight can still break the limit is the committed cost.
   */
  lemma SafeToSettleIff(cfg: Config, s: EngineState, scope: Scope)
    requires cfg.tracksPositions && AllPriced(s.positions)
    ensures SafeToSettle(cfg, s, scope) <==> Committed(cfg, s, scope) <= Limit(cfg, scope)
  {
    hide RunFrom, Cost;
    if Committed(cfg, s, scope) <= Limit(cfg, scope) {
      forall actions | AllSettles(actions)
        ensures Cost(RunFrom(cfg, s, actions).positions, scope) <= Limit(cfg, scope)
      {
        SettlingCommitsNoMore(cfg, s, actions, scope);
        var end := RunFrom(cfg, s, actions);
        TimesMonotone(cfg.tradeAmount, |InFlight(end, scope)|, |InFlight(end, scope)|);
      }
    } else {
      var actions := SettleEveryBuy(cfg, s, scope);
      assert Cost(RunFrom(cfg, s, actions).positions, scope) > Limit(cfg, scope);
    }
  }

  lemma NoMintsInFlight(s: EngineState)
    ensures InFlight(s, Whole) == {} ==> CommittedMints(s) == s.positions.Keys
  {
  }

  ghost predicate SafeToSettleCount(cfg: Config, s: EngineState)
    requires AllPriced(s.positions)
  {
    forall actions :: AllSettles(actions) ==> |RunFrom(cfg, s, actions).positions| <= cfg.limits.maxOpenPositions
  }

  lemma {:induction false} SettlingAddsNoMints(cfg: Config, s: EngineState, actions: seq<Action>)
    requires AllPriced(s.positions) && AllSettles(actions)
    ensures CommittedMints(RunFrom(cfg, s, actions)) <= CommittedMints(s)
    decreases |actions|
  {
    hide SettleStep, CommittedMints, AllPriced;
    if actions == [] {
    } else {
      var a := actions[0];
      if Enabled(s, a) {
        SettleMints(cfg, s, a.id, a.outcome);
      }
      SettlingAddsNoMints(cfg, Step(cfg, s, a), actions[1..]);
    }
  }

  /** The same for the number of positions: what decides are the tokens held or on their way. */
  lemma SafeToSettleCountIff(cfg: Config, s: EngineState)
    requires cfg.tracksPositions && AllPriced(s.positions)
    ensures SafeToSettleCount(cfg, s) <==> |CommittedMints(s)| <= cfg.limits.maxOpenPositions
  {
    hide RunFrom, MintsInFlight;
    if |CommittedMints(s)| <= cfg.limits.maxOpenPositions {
      forall actions | AllSettles(actions)
        ensures |RunFrom(cfg, s, actions).positions| <= cfg.limits.maxOpenPositions
      {
        var end := RunFrom(cfg, s, actions);
        SettlingAddsNoMints(cfg, s, actions);
        SubsetNotLarger(end.positions.Keys, CommittedMints(s));
        assert |end.positions.Keys| == |end.positions|;
      }
    } else {
      var actions := SettleEveryBuy(cfg, s, Whole);
      var end := RunFrom(cfg, s, actions);
      assert |end.positions.Keys| == |end.positions|;
    }
  }
}
