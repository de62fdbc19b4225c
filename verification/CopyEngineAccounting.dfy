/**
  What the engine's counters, events and duplicate guard mean at every point of every interleaving.
 */
module CopyEngineAccounting {
  import opened Sets
  import opened Positions
  import opened PositionLedger
  import opened CopyEngine
  import opened CopyEngineSafety
  import opened CopyEngineOverlap

  ghost function InPhases(s: EngineState, executing: bool): set<nat> {
    set id | id in s.tasks && (s.tasks[id].phase == Executing <==> executing)
  }

  //
  // Counters
  //

  /** Every detected trade is filtered, rejected, attempted or still being evaluated. */
  ghost predicate DetectionsBalance(s: EngineState) {
    s.stats.tradesDetected
      == s.stats.tradesFiltered + s.stats.tradesRiskRejected + s.stats.copyAttempts + |InPhases(s, false)|
  }

  /** Every attempt has succeeded, failed or is executing; a success whose record step threw counts twice. */
  ghost predicate AttemptsBalance(s: EngineState) {
    s.stats.copyAttempts + s.recordFaults
      == s.stats.copySuccesses + s.stats.copyFailures + |InPhases(s, true)|
  }

  //
  // Events
  //

  function TerminalCount(events: seq<Event>, id: nat): nat
    decreases |events|
  {
    if events == [] then 0
    else
      var last := events[|events| - 1];
      TerminalCount(events[..|events| - 1], id) + (if last.id == id && last.kind != Initiated then 1 else 0)
  }

  lemma TerminalCountAppend(events: seq<Event>, e: Event, id: nat)
    ensures TerminalCount(events + [e], id)
         == TerminalCount(events, id) + (if e.id == id && e.kind != Initiated then 1 else 0)
  {
    assert (events + [e])[..|events|] == events;
  }

  /** A trade is over once it has been detected and is no longer in progress. */
  predicate Over(s: EngineState, id: nat) {
    id < s.nextId && id !in s.tasks
  }

  /** A trade has had exactly one terminal event when it is over, and none before. */
  ghost predicate OneTerminalEach(s: EngineState) {
    forall id: nat :: TerminalCount(s.events, id) == (if Over(s, id) then 1 else 0)
  }

  //
  // The effect of one step on each law
  //

  predicate Known(s: EngineState, next: EngineState, id: nat) {
    if id in s.tasks then next.nextId == s.nextId else id == s.nextId && next.nextId == id + 1
  }

  lemma EndedTrade(s: EngineState, next: EngineState, id: nat, kind: EventKind)
    requires Numbered(s) && OneTerminalEach(s) && kind != Initiated && Known(s, next, id)
    requires next.events == s.events + [Event(id, kind)] && next.tasks == s.tasks - {id}
    ensures OneTerminalEach(next)
  {
    forall other: nat
      ensures TerminalCount(next.events, other) == (if Over(next, other) then 1 else 0)
    {
      TerminalCountAppend(s.events, Event(id, kind), other);
      assert TerminalCount(s.events, other) == (if Over(s, other) then 1 else 0);
    }
  }

  lemma OngoingTrade(s: EngineState, next: EngineState, id: nat)
    requires Numbered(s) && OneTerminalEach(s) && Known(s, next, id)
    requires next.events == s.events || next.events == s.events + [Event(id, Initiated)]
    requires next.tasks.Keys == s.tasks.Keys + {id}
    ensures OneTerminalEach(next)
  {
    forall other: nat
      ensures TerminalCount(next.events, other) == (if Over(next, other) then 1 else 0)
    {
      TerminalCountAppend(s.events, Event(id, Initiated), other);
      assert TerminalCount(s.events, other) == (if Over(s, other) then 1 else 0);
    }
  }

  lemma PhasesAfterDrop(s: EngineState, next: EngineState, id: nat, executing: bool)
    requires next.tasks == s.tasks - {id}
    ensures |InPhases(next, executing)|
         == |InPhases(s, executing)| - (if id in InPhases(s, executing) then 1 else 0)
  {
    assert InPhases(next, executing) == InPhases(s, executing) - {id};
  }

  lemma PhasesAfterPut(s: EngineState, next: EngineState, id: nat, t: Task, executing: bool)
    requires next.tasks == s.tasks[id := t]
    ensures |InPhases(next, executing)|
         == |InPhases(s, executing)| - (if id in InPhases(s, executing) then 1 else 0)
          + (if t.phase == Executing <==> executing then 1 else 0)
  {
    var put := t.phase == Executing <==> executing;
    InPhasesAfterPut(s, next, id, t, executing);
    PutCount(InPhases(s, executing), id, put);
    hide InPhases;
  }

  lemma InPhasesAfterPut(s: EngineState, next: EngineState, id: nat, t: Task, executing: bool)
    requires next.tasks == s.tasks[id := t]
    ensures InPhases(next, executing)
         == InPhases(s, executing) - {id} + (if t.phase == Executing <==> executing then {id} else {})
  {
  }

  //
  // Invariance
  //

  ghost predicate Accounts(s: EngineState) {
    Numbered(s) && DetectionsBalance(s) && AttemptsBalance(s) && OneTerminalEach(s)
  }

  lemma EndedAccounts(s: EngineState, next: EngineState, id: nat, kind: EventKind)
    requires Numbered(s) && OneTerminalEach(s) && kind != Initiated && Known(s, next, id)
    requires next.events == s.events + [Event(id, kind)] && next.tasks == s.tasks - {id}
    ensures Numbered(next) && OneTerminalEach(next)
    ensures |InPhases(next, true)| == |InPhases(s, true)| - (if InPhase(s, id, Executing) then 1 else 0)
    ensures |InPhases(next, false)|
         == |InPhases(s, false)| - (if id in s.tasks && !InPhase(s, id, Executing) then 1 else 0)
  {
    EndedTrade(s, next, id, kind);
    PhasesAfterDrop(s, next, id, true);
    PhasesAfterDrop(s, next, id, false);
  }

  lemma OngoingAccounts(s: EngineState, next: EngineState, id: nat, t: Task)
    requires Numbered(s) && OneTerminalEach(s) && Known(s, next, id) && !InPhase(s, id, Executing)
    requires next.events == s.events || next.events == s.events + [Event(id, Initiated)]
    requires next.tasks == s.tasks[id := t]
    ensures Numbered(next) && OneTerminalEach(next)
    ensures |InPhases(next, true)| == |InPhases(s, true)| + (if t.phase == Executing then 1 else 0)
    ensures |InPhases(next, false)|
         == |InPhases(s, false)| - (if id in s.tasks then 1 else 0) + (if t.phase == Executing then 0 else 1)
  {
    OngoingTrade(s, next, id);
    PhasesAfterPut(s, next, id, t, true);
    PhasesAfterPut(s, next, id, t, false);
  }

  lemma DetectAccounts(cfg: Config, s: EngineState, trade: Trade)
    requires Accounts(s)
    ensures Accounts(DetectStep(cfg, s, trade))
  {
    hide SkippedAtOnce, OneTerminalEach, InPhases;
    var id, next := s.nextId, DetectStep(cfg, s, trade);
    if id in next.tasks {
      OngoingAccounts(s, next, id, next.tasks[id]);
    } else {
      EndedAccounts(s, next, id, Skipped);
    }
  }

  lemma FilterAccounts(cfg: Config, s: EngineState, id: nat, allowed: bool)
    requires Accounts(s) && InPhase(s, id, AwaitingFilter)
    ensures Accounts(FilterStep(cfg, s, id, allowed))
  {
    hide OneTerminalEach, InPhases, Numbered;
    var next := FilterStep(cfg, s, id, allowed);
    if allowed {
      OngoingAccounts(s, next, id, next.tasks[id]);
    } else {
      EndedAccounts(s, next, id, Skipped);
    }
  }

  lemma BalanceAccounts(cfg: Config, s: EngineState, id: nat, balance: real)
    requires Accounts(s) && InPhase(s, id, AwaitingBalance)
    ensures Accounts(BalanceStep(cfg, s, id, balance))
  {
    hide RiskVerdict, OneTerminalEach, InPhases, Numbered;
    var next := BalanceStep(cfg, s, id, balance);
    if id in next.tasks {
      OngoingAccounts(s, next, id, next.tasks[id]);
    } else {
      EndedAccounts(s, next, id, Skipped);
    }
  }

  lemma SettleAccounts(cfg: Config, s: EngineState, id: nat, outcome: SwapOutcome)
    requires AllPriced(s.positions) && Accounts(s) && InPhase(s, id, Executing)
    ensures Accounts(SettleStep(cfg, s, id, outcome))
  {
    hide AllPriced, RecordedPositions, OneTerminalEach, InPhases, Numbered;
    var next := SettleStep(cfg, s, id, outcome);
    EndedAccounts(s, next, id, next.events[|s.events|].kind);
  }

  lemma {:induction false} RunKeepsAccounts(cfg: Config, s: EngineState, actions: seq<Action>)
    requires AllPriced(s.positions) && Accounts(s)
    ensures Accounts(RunFrom(cfg, s, actions))
    decreases |actions|
  {
    if actions == [] {
    } else {
      var a, next := actions[0], Step(cfg, s, actions[0]);
      assert Accounts(next) by {
        hide Accounts, DetectStep, FilterStep, BalanceStep, SettleStep, AllPriced;
        if Enabled(s, a) {
          match a
          case Detect(trade) => DetectAccounts(cfg, s, trade);
          case FilterResult(id, allowed) => FilterAccounts(cfg, s, id, allowed);
          case BalanceResult(id, balance) => BalanceAccounts(cfg, s, id, balance);
          case Settle(id, outcome) => SettleAccounts(cfg, s, id, outcome);
        }
      }
      RunKeepsAccounts(cfg, next, actions[1..]);
    }
  }

  //
  // Successes that cannot be recorded
  //

  /** The step settles a copy that was sent but whose amount cannot be read, so that it is not recorded. */
  ghost predicate Unrecorded(cfg: Config, s: EngineState, a: Action) {
    cfg.tracksPositions && a.Settle? && a.outcome.SentUnreadable? && InPhase(s, a.id, Executing)
  }

  ghost function UnrecordedCount(cfg: Config, s: EngineState, actions: seq<Action>): nat
    requires AllPriced(s.positions)
    decreases |actions|
  {
    if actions == [] then 0
    else
      (if Unrecorded(cfg, s, actions[0]) then 1 else 0)
      + UnrecordedCount(cfg, Step(cfg, s, actions[0]), actions[1..])
  }

  lemma StepCountsFault(cfg: Config, s: EngineState, a: Action)
    requires AllPriced(s.positions)
    ensures Step(cfg, s, a).recordFaults == s.recordFaults + (if Unrecorded(cfg, s, a) then 1 else 0)
  {
    hide AllPriced, RecordedPositions, RiskVerdict, SkippedAtOnce;
  }

  lemma {:induction false} FaultsAreUnrecorded(cfg: Config, s: EngineState, actions: seq<Action>)
    requires AllPriced(s.positions)
    ensures RunFrom(cfg, s, actions).recordFaults == s.recordFaults + UnrecordedCount(cfg, s, actions)
    decreases |actions|
  {
    hide Step, AllPriced, Unrecorded;
    if actions == [] {
    } else {
      StepCountsFault(cfg, s, actions[0]);
      FaultsAreUnrecorded(cfg, Step(cfg, s, actions[0]), actions[1..]);
    }
  }

  /**
    The laws of the counters and the events hold after every sequence of steps. That the attempts are the
    successes, the failures and the executing copies is so exactly if every sent copy could be recorded.
   */
  lemma AccountsAlwaysHold(cfg: Config, actions: seq<Action>)
    ensures var s := Run(cfg, actions);
            && DetectionsBalance(s) && AttemptsBalance(s) && OneTerminalEach(s)
            && s.recordFaults == UnrecordedCount(cfg, INITIAL, actions)
            && (s.stats.copyAttempts == s.stats.copySuccesses + s.stats.copyFailures + |InPhases(s, true)|
                <==> UnrecordedCount(cfg, INITIAL, actions) == 0)
  {
    hide RunFrom, UnrecordedCount, OneTerminalEach;
    InitialAccounts();
    RunKeepsAccounts(cfg, INITIAL, actions);
    FaultsAreUnrecorded(cfg, INITIAL, actions);
  }

  lemma InitialAccounts()
    ensures Accounts(INITIAL)
  {
    assert InPhases(INITIAL, true) == {} && InPhases(INITIAL, false) == {};
  }

  /** A single trade, waiting for the balance. */
  lemma OneAwaits(cfg: Config, t: Trade) returns (actions: seq<Action>)
    requires cfg.tracksPositions && !SkippedAtOnce(cfg, {}, t)
    ensures Run(cfg, actions).positions == map[] && Run(cfg, actions).recordFaults == 0
    ensures Run(cfg, actions).tasks == map[0 := Task(t, AwaitingBalance)]
    ensures Run(cfg, actions).stats == Stats(1, 0, 0, 0, 0, 0)
  {
    hide RunFrom, SkippedAtOnce;
    assert Run(cfg, []) == INITIAL by {
      NoSteps(cfg);
    }
    actions := [] + [Detect(t)];
    RunAppend(cfg, [], Detect(t));
    if cfg.usesFilter {
      RunAppend(cfg, actions, FilterResult(0, true));
      actions := actions + [FilterResult(0, true)];
    }
  }

  /** One trade, one attempt, and it is counted as a success and as a failure. */
  lemma CountedTwice(cfg: Config) returns (actions: seq<Action>)
    requires cfg.tracksPositions && AdmitsFirstBuy(cfg)
    ensures var stats := Run(cfg, actions).stats;
            && stats.copyAttempts == 1 && stats.copySuccesses == 1 && stats.copyFailures == 1
            && UnrecordedCount(cfg, INITIAL, actions) == 1
  {
    hide RunFrom, AdmitsFirstBuy, SkippedAtOnce, RiskVerdict, UnrecordedCount, SomeBuy;
    var t := SomeBuy(cfg);
    var balance, settle := BalanceResult(0, cfg.limits.minUsdcReserve + cfg.tradeAmount), Settle(0, SentUnreadable);
    var before := OneAwaits(cfg, t);
    FirstBuyAllowed(cfg, t.mint);
    RunAppend(cfg, before, balance);
    RunAppend(cfg, before + [balance], settle);
    actions := before + [balance] + [settle];
    FaultsAreUnrecorded(cfg, INITIAL, actions);
  }
}
