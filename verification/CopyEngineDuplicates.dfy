/**
  How often a transaction is copied. The guard against duplicates forgets it as soon as its copy has
  settled, so it is copied at most as often as it is delivered, and may be copied that often.
 */
module CopyEngineDuplicates {
  import opened Wrappers
  import opened Sets
  import opened Positions
  import opened PositionLedger
  import opened CopyEngine
  import opened CopyEngineSafety
  import opened CopyEngineOverlap

  /** The trade that a step admits, if it admits one. */
  ghost function Admitted(cfg: Config, s: EngineState, a: Action): Option<Trade>
    requires AllPriced(s.positions)
  {
    if Step(cfg, s, a).stats.copyAttempts == s.stats.copyAttempts then None
    else
      match a
      case Detect(trade) => Some(trade)
      case FilterResult(id, _) => if id in s.tasks then Some(s.tasks[id].trade) else None
      case BalanceResult(id, _) => if id in s.tasks then Some(s.tasks[id].trade) else None
      case Settle(_, _) => None
  }

  ghost predicate Copies(cfg: Config, s: EngineState, a: Action, signature: string)
    requires AllPriced(s.positions)
  {
    Admitted(cfg, s, a).Some? && Admitted(cfg, s, a).value.signature == signature
  }

  /** How often a run copies the transaction with this signature. */
  ghost function CopiesOf(cfg: Config, s: EngineState, actions: seq<Action>, signature: string): nat
    requires AllPriced(s.positions)
    decreases |actions|
  {
    if actions == [] then 0
    else
      (if Copies(cfg, s, actions[0], signature) then 1 else 0)
      + CopiesOf(cfg, Step(cfg, s, actions[0]), actions[1..], signature)
  }

  lemma {:induction false} CopiesOfConcat(
    cfg: Config, s: EngineState, first: seq<Action>, second: seq<Action>, signature: string
  )
    requires AllPriced(s.positions)
    ensures CopiesOf(cfg, s, first + second, signature)
         == CopiesOf(cfg, s, first, signature) + CopiesOf(cfg, RunFrom(cfg, s, first), second, signature)
    decreases |first|
  {
    hide Step, AllPriced, Copies;
    if first == [] {
      assert first + second == second;
    } else {
      assert (first + second)[1..] == first[1..] + second;
      CopiesOfConcat(cfg, Step(cfg, s, first[0]), first[1..], second, signature);
    }
  }

  //
  // The bound: as many copies as deliveries
  //

  /** How often the transaction with this signature is delivered to the engine. */
  function Detections(actions: seq<Action>, signature: string): nat
    decreases |actions|
  {
    if actions == [] then 0
    else
      (if actions[0].Detect? && actions[0].trade.signature == signature then 1 else 0)
      + Detections(actions[1..], signature)
  }

  lemma {:induction false} DetectionsOfConcat(first: seq<Action>, second: seq<Action>, signature: string)
    ensures Detections(first + second, signature) == Detections(first, signature) + Detections(second, signature)
    decreases |first|
  {
    if first == [] {
      assert first + second == second;
    } else {
      assert (first + second)[1..] == first[1..] + second;
      DetectionsOfConcat(first[1..], second, signature);
    }
  }

  predicate IsUndecided(t: Task, signature: string) {
    t.phase != Executing && t.trade.signature == signature
  }

  /** Trades with this signature that are still being evaluated. */
  ghost function Undecided(s: EngineState, signature: string): set<nat> {
    set id | id in s.tasks && IsUndecided(s.tasks[id], signature)
  }

  lemma UndecidedAfterPut(s: EngineState, next: EngineState, id: nat, t: Task, signature: string)
    requires next.tasks == s.tasks[id := t]
    ensures |Undecided(next, signature)|
         == |Undecided(s, signature) - {id}| + (if IsUndecided(t, signature) then 1 else 0)
  {
    var rest := Undecided(s, signature) - {id};
    assert Undecided(next, signature) == rest + (if IsUndecided(t, signature) then {id} else {});
  }

  lemma UndecidedAfterDrop(s: EngineState, next: EngineState, id: nat, signature: string)
    requires next.tasks == s.tasks - {id}
    ensures |Undecided(next, signature)| == |Undecided(s, signature) - {id}|
  {
    assert Undecided(next, signature) == Undecided(s, signature) - {id};
  }

  /** A copy uses up a trade that was being evaluated, or the delivery that the step itself is. */
  lemma StepUsesDelivery(cfg: Config, s: EngineState, a: Action, signature: string)
    requires AllPriced(s.positions) && Numbered(s)
    ensures (if Copies(cfg, s, a, signature) then 1 else 0) + |Undecided(Step(cfg, s, a), signature)|
         <= |Undecided(s, signature)| + Detections([a], signature)
  {
    hide SettleStep, RiskVerdict, AllPriced, SkippedAtOnce, Undecided;
    if Enabled(s, a) {
      if a.Settle? {
        SettleKeepsUndecided(cfg, s, a.id, a.outcome, signature);
      } else {
        var id, next := if a.Detect? then s.nextId else a.id, Step(cfg, s, a);
        WithoutOne(Undecided(s, signature), id);
        UndecidedHas(s, id, signature);
        if id in next.tasks {
          UndecidedAfterPut(s, next, id, next.tasks[id], signature);
        } else {
          UndecidedAfterDrop(s, next, id, signature);
        }
      }
    }
  }

  lemma UndecidedHas(s: EngineState, id: nat, signature: string)
    ensures id in Undecided(s, signature) <==> id in s.tasks && IsUndecided(s.tasks[id], signature)
  {
  }

  lemma SettleKeepsUndecided(cfg: Config, s: EngineState, id: nat, outcome: SwapOutcome, signature: string)
    requires AllPriced(s.positions) && InPhase(s, id, Executing)
    ensures |Undecided(SettleStep(cfg, s, id, outcome), signature)| == |Undecided(s, signature)|
    ensures SettleStep(cfg, s, id, outcome).stats.copyAttempts == s.stats.copyAttempts
  {
    hide AllPriced, SettleStep;
    var next := SettleStep(cfg, s, id, outcome);
    SettleEnds(cfg, s, id, outcome);
    assert Undecided(next, signature) == Undecided(s, signature);
  }

  lemma {:induction false} CopiesUseDeliveries(cfg: Config, s: EngineState, actions: seq<Action>, signature: string)
    requires AllPriced(s.positions) && Numbered(s)
    ensures CopiesOf(cfg, s, actions, signature) <= |Undecided(s, signature)| + Detections(actions, signature)
    decreases |actions|
  {
    hide Step, AllPriced, Numbered, Copies, Undecided;
    if actions == [] {
    } else {
      var a := actions[0];
      StepKeepsNumbered(cfg, s, a);
      StepUsesDelivery(cfg, s, a, signature);
      CopiesUseDeliveries(cfg, Step(cfg, s, a), actions[1..], signature);
    }
  }

  /**
    In every configuration and every interleaving: a transaction is copied at most as often as it was
    delivered. What a caller controls is thus the number of deliveries.
   */
  lemma CopiesWithinDetections(cfg: Config, actions: seq<Action>, signature: string)
    ensures CopiesOf(cfg, INITIAL, actions, signature) <= Detections(actions, signature)
  {
    assert Undecided(INITIAL, signature) == {};
    CopiesUseDeliveries(cfg, INITIAL, actions, signature);
  }

  //
  // Deliveries without repetition
  //

  ghost predicate DeliveredOnce(actions: seq<Action>) {
    forall signature :: Detections(actions, signature) <= 1
  }

  /** The trades in progress all differ, none of them is delivered again, and the guard knows the executing ones. */
  ghost predicate AllDiffer(s: EngineState, actions: seq<Action>) {
    && Numbered(s) && s.pendingCopies == ExecutingSignatures(s)
    && (forall id :: id in s.tasks ==> Detections(actions, s.tasks[id].trade.signature) == 0)
    && (forall a, b :: a in s.tasks && b in s.tasks && a != b ==>
          s.tasks[a].trade.signature != s.tasks[b].trade.signature)
  }

  lemma PutDiffers(s: EngineState, next: EngineState, id: nat, t: Task, rest: seq<Action>)
    requires AllDiffer(s, rest) && id < next.nextId && s.nextId <= next.nextId
    requires next.tasks == s.tasks[id := t] && !InPhase(s, id, Executing)
    requires id in s.tasks ==> s.tasks[id].trade == t.trade
    requires Detections(rest, t.trade.signature) == 0
    requires forall other :: other in s.tasks && other != id ==> s.tasks[other].trade.signature != t.trade.signature
    requires next.pendingCopies == s.pendingCopies + (if t.phase == Executing then {t.trade.signature} else {})
    ensures AllDiffer(next, rest)
  {
    hide Detections;
    assert ExecutingSignatures(next)
        == ExecutingSignatures(s) + (if t.phase == Executing then {t.trade.signature} else {}) by {
      assert forall other :: other in s.tasks && other != id ==> other in next.tasks && next.tasks[other] == s.tasks[other];
      assert id in next.tasks && next.tasks[id] == t;
    }
  }

  lemma DropDiffers(s: EngineState, next: EngineState, id: nat, rest: seq<Action>)
    requires AllDiffer(s, rest) && s.nextId <= next.nextId && next.tasks == s.tasks - {id}
    requires next.pendingCopies
          == s.pendingCopies - (if InPhase(s, id, Executing) then {s.tasks[id].trade.signature} else {})
    ensures AllDiffer(next, rest)
  {
    hide Detections;
    assert ExecutingSignatures(next)
        == ExecutingSignatures(s) - (if InPhase(s, id, Executing) then {s.tasks[id].trade.signature} else {}) by {
      assert forall other :: other in next.tasks ==> other in s.tasks && other != id && next.tasks[other] == s.tasks[other];
      assert forall other :: other in s.tasks && other != id ==> other in next.tasks;
    }
  }

  lemma SettleDiffers(cfg: Config, s: EngineState, id: nat, outcome: SwapOutcome, rest: seq<Action>)
    requires AllPriced(s.positions) && AllDiffer(s, rest) && InPhase(s, id, Executing)
    ensures AllDiffer(SettleStep(cfg, s, id, outcome), rest)
  {
    hide AllPriced, SettleStep, AllDiffer;
    SettleEnds(cfg, s, id, outcome);
    DropDiffers(s, SettleStep(cfg, s, id, outcome), id, rest);
  }

  lemma DetectDiffers(cfg: Config, s: EngineState, t: Trade, rest: seq<Action>)
    requires AllDiffer(s, rest) && Detections(rest, t.signature) == 0
    requires forall id :: id in s.tasks ==> s.tasks[id].trade.signature != t.signature
    ensures AllDiffer(DetectStep(cfg, s, t), rest)
  {
    hide SkippedAtOnce, Detections, ExecutingSignatures;
    var id, next := s.nextId, DetectStep(cfg, s, t);
    if id in next.tasks {
      PutDiffers(s, next, id, next.tasks[id], rest);
    } else {
      DropDiffers(s, next, id, rest);
    }
  }

  /** The answer of the filter, or of the balance. */
  lemma AnswerDiffers(s: EngineState, next: EngineState, id: nat, rest: seq<Action>)
    requires AllDiffer(s, rest) && id in s.tasks && s.tasks[id].phase != Executing && next.nextId == s.nextId
    requires
      || (next.tasks == s.tasks - {id} && next.pendingCopies == s.pendingCopies)
      || (exists phase ::
            && next.tasks == s.tasks[id := Task(s.tasks[id].trade, phase)]
            && next.pendingCopies
               == s.pendingCopies + (if phase == Executing then {s.tasks[id].trade.signature} else {}))
    ensures AllDiffer(next, rest)
  {
    hide Detections, ExecutingSignatures;
    if id in next.tasks {
      PutDiffers(s, next, id, next.tasks[id], rest);
    } else {
      DropDiffers(s, next, id, rest);
    }
  }

  lemma StepDiffers(cfg: Config, s: EngineState, a: Action, rest: seq<Action>)
    requires AllPriced(s.positions) && AllDiffer(s, rest)
    requires a.Detect? ==> Detections(rest, a.trade.signature) == 0
    requires a.Detect? ==> forall id :: id in s.tasks ==> s.tasks[id].trade.signature != a.trade.signature
    ensures AllDiffer(Step(cfg, s, a), rest)
  {
    hide RiskVerdict, AllPriced, DetectStep, SettleStep, Detections, AllDiffer;
    if Enabled(s, a) {
      match a
      case Detect(t) => DetectDiffers(cfg, s, t, rest);
      case FilterResult(id, _) => AnswerDiffers(s, Step(cfg, s, a), id, rest);
      case BalanceResult(id, _) => AnswerDiffers(s, Step(cfg, s, a), id, rest);
      case Settle(id, outcome) => SettleDiffers(cfg, s, id, outcome, rest);
    }
  }

  lemma {:induction false} RunDiffers(cfg: Config, s: EngineState, actions: seq<Action>)
    requires AllPriced(s.positions) && AllDiffer(s, actions) && DeliveredOnce(actions)
    ensures AllDiffer(RunFrom(cfg, s, actions), [])
    decreases |actions|
  {
    hide Step, AllPriced;
    if actions == [] {
    } else {
      var a, rest := actions[0], actions[1..];
      assert forall signature :: Detections(rest, signature) <= Detections(actions, signature);
      assert a.Detect? ==> Detections(actions, a.trade.signature) == 1 + Detections(rest, a.trade.signature);
      StepDiffers(cfg, s, a, rest);
      RunDiffers(cfg, Step(cfg, s, a), rest);
    }
  }

  /** If no transaction is delivered twice, none is copied twice, and the guard is exact in every configuration. */
  lemma DeliveredOnceCopiedOnce(cfg: Config, actions: seq<Action>)
    requires DeliveredOnce(actions)
    ensures forall signature :: CopiesOf(cfg, INITIAL, actions, signature) <= 1
    ensures NoDuplicates(Run(cfg, actions))
  {
    hide CopiesOf, Detections, RunFrom;
    forall signature
      ensures CopiesOf(cfg, INITIAL, actions, signature) <= 1
    {
      CopiesWithinDetections(cfg, actions, signature);
    }
    assert ExecutingSignatures(INITIAL) == {};
    RunDiffers(cfg, INITIAL, actions);
  }

  //
  // The bound is attained
  //

  /** Nothing is held, pending or in progress. */
  predicate Idle(s: EngineState) {
    s.positions == map[] && s.tasks == map[] && s.pendingCopies == {}
  }

  /** Some trade can be executed in this configuration. */
  predicate CanExecute(cfg: Config) {
    !cfg.tracksPositions || AdmitsFirstBuy(cfg)
  }

  /** From detection to execution of one buy, and its failure. */
  function OneCopy(cfg: Config, id: nat): seq<Action> {
    [Detect(SomeBuy(cfg))]
    + (if cfg.usesFilter then [FilterResult(id, true)] else [])
    + (if cfg.tracksPositions then [BalanceResult(id, cfg.limits.minUsdcReserve + cfg.tradeAmount)] else [])
    + [Settle(id, SwapError)]
  }

  lemma TakeStep(cfg: Config, s: EngineState, a: Action, rest: seq<Action>, signature: string)
    requires AllPriced(s.positions)
    ensures RunFrom(cfg, s, [a] + rest) == RunFrom(cfg, Step(cfg, s, a), rest)
    ensures CopiesOf(cfg, s, [a] + rest, signature)
         == (if Copies(cfg, s, a, signature) then 1 else 0) + CopiesOf(cfg, Step(cfg, s, a), rest, signature)
  {
    hide Step, AllPriced, Copies;
    assert ([a] + rest)[1..] == rest;
  }

  /** A trade in progress by itself, in this phase. */
  predicate Alone(s: EngineState, id: nat, phase: Phase, trade: Trade) {
    s.positions == map[] && s.pendingCopies == {} && s.nextId == id + 1 && s.tasks == map[id := Task(trade, phase)]
  }

  lemma SettleAlone(cfg: Config, s: EngineState, id: nat, trade: Trade)
    requires s.positions == map[] && s.pendingCopies == {trade.signature}
    requires s.tasks == map[id := Task(trade, Executing)]
    ensures Idle(RunFrom(cfg, s, [Settle(id, SwapError)]))
    ensures CopiesOf(cfg, s, [Settle(id, SwapError)], trade.signature) == 0
  {
    var a := Settle(id, SwapError);
    assert [a] + [] == [a];
    TakeStep(cfg, s, a, [], trade.signature);
  }

  lemma BalanceAlone(cfg: Config, s: EngineState, id: nat, trade: Trade)
    requires cfg.tracksPositions && AdmitsFirstBuy(cfg) && trade.direction == Buy
    requires Alone(s, id, AwaitingBalance, trade)
    ensures var actions := [BalanceResult(id, cfg.limits.minUsdcReserve + cfg.tradeAmount), Settle(id, SwapError)];
            Idle(RunFrom(cfg, s, actions)) && CopiesOf(cfg, s, actions, trade.signature) == 1
  {
    hide RiskVerdict, Idle, RunFrom, CopiesOf;
    var a := BalanceResult(id, cfg.limits.minUsdcReserve + cfg.tradeAmount);
    assert [a] + [Settle(id, SwapError)] == [a, Settle(id, SwapError)];
    FirstBuyAllowed(cfg, trade.mint);
    TakeStep(cfg, s, a, [Settle(id, SwapError)], trade.signature);
    SettleAlone(cfg, Step(cfg, s, a), id, trade);
  }

  /** The rest of a copy from the wait for the filter on. */
  lemma FilterAlone(cfg: Config, s: EngineState, id: nat, trade: Trade)
    requires CanExecute(cfg) && trade.direction == Buy && Alone(s, id, AwaitingFilter, trade)
    ensures var balance := BalanceResult(id, cfg.limits.minUsdcReserve + cfg.tradeAmount);
            var actions := [FilterResult(id, true)] + (if cfg.tracksPositions then [balance] else []) + [Settle(id, SwapError)];
            Idle(RunFrom(cfg, s, actions)) && CopiesOf(cfg, s, actions, trade.signature) == 1
  {
    hide RiskVerdict, Idle, RunFrom, CopiesOf, AdmitsFirstBuy;
    var a, balance := FilterResult(id, true), BalanceResult(id, cfg.limits.minUsdcReserve + cfg.tradeAmount);
    var rest := (if cfg.tracksPositions then [balance] else []) + [Settle(id, SwapError)];
    assert [a] + (if cfg.tracksPositions then [balance] else []) + [Settle(id, SwapError)] == [a] + rest;
    TakeStep(cfg, s, a, rest, trade.signature);
    if cfg.tracksPositions {
      assert rest == [balance, Settle(id, SwapError)];
      BalanceAlone(cfg, Step(cfg, s, a), id, trade);
    } else {
      assert rest == [Settle(id, SwapError)];
      SettleAlone(cfg, Step(cfg, s, a), id, trade);
    }
  }

  lemma OneCopyFromIdle(cfg: Config, s: EngineState)
    requires CanExecute(cfg) && Idle(s)
    ensures var actions := OneCopy(cfg, s.nextId);
            Idle(RunFrom(cfg, s, actions)) && CopiesOf(cfg, s, actions, SomeBuy(cfg).signature) == 1
  {
    hide RiskVerdict, RunFrom, CopiesOf, AdmitsFirstBuy, SkippedAtOnce, SomeBuy;
    var id, t := s.nextId, SomeBuy(cfg);
    var a, balance := Detect(t), BalanceResult(id, cfg.limits.minUsdcReserve + cfg.tradeAmount);
    var settle := Settle(id, SwapError);
    var rest := OneCopy(cfg, id)[1..];
    assert OneCopy(cfg, id) == [a] + rest;
    TakeStep(cfg, s, a, rest, t.signature);
    if cfg.usesFilter {
      assert rest == [FilterResult(id, true)] + (if cfg.tracksPositions then [balance] else []) + [settle];
      FilterAlone(cfg, Step(cfg, s, a), id, t);
    } else if cfg.tracksPositions {
      assert rest == [balance, settle];
      BalanceAlone(cfg, Step(cfg, s, a), id, t);
    } else {
      assert rest == [settle];
      SettleAlone(cfg, Step(cfg, s, a), id, t);
    }
  }

  /** However often: a transaction delivered n times is copied n times in a row, with no two copies overlapping. */
  lemma {:induction false} CopiedAgain(cfg: Config, n: nat) returns (actions: seq<Action>)
    requires CanExecute(cfg)
    ensures Idle(Run(cfg, actions)) && CopiesOf(cfg, INITIAL, actions, SomeBuy(cfg).signature) == n
    ensures Detections(actions, SomeBuy(cfg).signature) == n
  {
    hide RunFrom, CopiesOf, SomeBuy, OneCopy, AdmitsFirstBuy, Detections;
    if n == 0 {
      actions := [];
      NoActions(cfg);
      NoDetections(SomeBuy(cfg).signature);
    } else {
      var before := CopiedAgain(cfg, n - 1);
      var s := Run(cfg, before);
      var more := OneCopy(cfg, s.nextId);
      OneCopyFromIdle(cfg, s);
      RunFromConcat(cfg, INITIAL, before, more);
      CopiesOfConcat(cfg, INITIAL, before, more, SomeBuy(cfg).signature);
      OneCopyDelivers(cfg, s.nextId);
      DetectionsOfConcat(before, more, SomeBuy(cfg).signature);
      actions := before + more;
    }
  }

  lemma NoDetections(signature: string)
    ensures Detections([], signature) == 0
  {
  }

  lemma OneCopyDelivers(cfg: Config, id: nat)
    ensures Detections(OneCopy(cfg, id), SomeBuy(cfg).signature) == 1
  {
    hide SomeBuy;
    var rest := OneCopy(cfg, id)[1..];
    assert OneCopy(cfg, id) == [Detect(SomeBuy(cfg))] + rest;
    NoneDelivered(rest, SomeBuy(cfg).signature);
  }

  lemma {:induction false} NoneDelivered(actions: seq<Action>, signature: string)
    requires forall a :: a in actions ==> !a.Detect?
    ensures Detections(actions, signature) == 0
    decreases |actions|
  {
    if actions != [] {
      NoneDelivered(actions[1..], signature);
    }
  }

  lemma NoActions(cfg: Config)
    ensures Idle(Run(cfg, [])) && CopiesOf(cfg, INITIAL, [], SomeBuy(cfg).signature) == 0
  {
  }

  lemma {:induction false} NothingCopied(cfg: Config, s: EngineState, actions: seq<Action>, signature: string)
    requires !CanExecute(cfg) && AllPriced(s.positions) && NothingExecutes(s)
    ensures CopiesOf(cfg, s, actions, signature) == 0
    decreases |actions|
  {
    hide Step, AllPriced, NothingExecutes, AdmitsFirstBuy;
    if actions == [] {
    } else {
      ClosedStep(cfg, s, actions[0]);
      ClosedCopiesNothing(cfg, s, actions[0], signature);
      NothingCopied(cfg, Step(cfg, s, actions[0]), actions[1..], signature);
    }
  }

  lemma ClosedCopiesNothing(cfg: Config, s: EngineState, a: Action, signature: string)
    requires !CanExecute(cfg) && AllPriced(s.positions) && NothingExecutes(s)
    ensures !Copies(cfg, s, a, signature)
  {
    hide AllPriced, SkippedAtOnce, RiskVerdict, AdmitsFirstBuy, SettleStep;
    if a.BalanceResult? && InPhase(s, a.id, AwaitingBalance) {
      ClosedVerdict(cfg, s.tasks[a.id].trade, a.balance);
    }
  }

  /** No transaction is ever copied twice exactly where nothing can be copied at all. */
  lemma NeverTwiceIff(cfg: Config)
    ensures (forall actions, signature :: CopiesOf(cfg, INITIAL, actions, signature) <= 1) <==> !CanExecute(cfg)
  {
    hide CopiesOf, AdmitsFirstBuy;
    if CanExecute(cfg) {
      var actions := CopiedAgain(cfg, 2);
      assert CopiesOf(cfg, INITIAL, actions, SomeBuy(cfg).signature) > 1;
    } else {
      forall actions, signature
        ensures CopiesOf(cfg, INITIAL, actions, signature) <= 1
      {
        NothingCopied(cfg, INITIAL, actions, signature);
      }
    }
  }

  /** How many deliveries of each transaction a configuration can bear without copying one twice. */
  lemma CopiedOnceIff(cfg: Config, deliveries: nat)
    ensures (forall actions, signature ::
               Detections(actions, signature) <= deliveries ==> CopiesOf(cfg, INITIAL, actions, signature) <= 1)
       <==> deliveries <= 1 || !CanExecute(cfg)
  {
    hide CopiesOf, Detections, CanExecute, SomeBuy;
    if deliveries <= 1 || !CanExecute(cfg) {
      forall actions, signature | Detections(actions, signature) <= deliveries
        ensures CopiesOf(cfg, INITIAL, actions, signature) <= 1
      {
        CopiesWithinDetections(cfg, actions, signature);
        if !CanExecute(cfg) {
          NothingCopied(cfg, INITIAL, actions, signature);
        }
      }
    } else {
      var actions := CopiedAgain(cfg, 2);
      assert CopiesOf(cfg, INITIAL, actions, SomeBuy(cfg).signature) > 1;
    }
  }
}
