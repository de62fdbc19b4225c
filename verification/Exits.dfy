/**
  The exit manager (src/services/exit-manager.ts) as a machine of atomic steps.

  A check of one position runs without interruption from one await to the next. The timer starts a
  round of checks whether or not the last round has ended, so any number of checks may be under way,
  also of the same token. Prices, holding times and the results of sells are inputs.
 */
module Exits {
  import opened Wrappers
  import opened Positions
  import opened PositionLedger

  type Price = x: real | x > 0.0 witness 1.0

  datatype Target = Target(profitPercent: real, sellPercent: int)

  /** A time limit or trailing percentage of zero is not set. */
  datatype Strategy = Strategy(
    targets: seq<Target>,
    stopLossPercent: real,
    maxHoldTimeHours: real,
    trailingStopPercent: real,
    trailingActivationPercent: real
  )

  datatype Exit = TakeProfit(index: nat) | StopLoss | TimeLimit | TrailingStop

  /**
    Where a check of a position is: looking for the next take profit, between two exits, selling, or between
    the end of a sell and the return to the exit that called for it.
   */
  datatype Stage =
    | Scanning(from: nat) | AtStopLoss | AtTimeLimit | AtTrailing | Selling(exit: Exit) | Sold(exit: Exit)

  datatype Check = Check(mint: Mint, price: Price, profitPercent: real, stage: Stage)

  /** Kept for a token for ever, also when its position is closed and opened again. */
  datatype ExitState = ExitState(tpHit: set<real>, highWaterMark: Price)

  datatype ExitStats = ExitStats(
    exitsTriggered: nat,
    takeProfitsHit: nat,
    stopLossesHit: nat,
    timeLimitsHit: nat,
    trailingStopsHit: nat,
    exitsFailed: nat
  )

  datatype EventKind = Triggered | Executed | Failed

  /** An event of the check with this number. */
  datatype Event = Event(kind: EventKind, id: nat, mint: Mint, exit: Exit)

  datatype State = State(
    exitStates: map<Mint, ExitState>,
    checks: map<nat, Check>,
    nextId: nat,
    stats: ExitStats,
    events: seq<Event>
  )

  const INITIAL: State := State(map[], map[], 0, ExitStats(0, 0, 0, 0, 0, 0), [])

  /** A missing price and a price of zero are both None. */
  datatype Action =
    | Observe(mint: Mint, price: Option<Price>, entryPrice: Price)
    | Resume(id: nat, hoursHeld: real)
    | SellSettled(id: nat, succeeded: bool)
    | Return(id: nat)

  //
  // Parts of the steps
  //

  predicate Fires(targets: seq<Target>, hit: set<real>, profitPercent: real, i: nat)
    requires i < |targets|
  {
    profitPercent >= targets[i].profitPercent && targets[i].profitPercent !in hit
  }

  /** The first target from this one on that fires, or the number of targets. */
  function NextTarget(targets: seq<Target>, hit: set<real>, profitPercent: real, from: nat): (i: nat)
    requires from <= |targets|
    ensures from <= i <= |targets|
    ensures forall k :: from <= k < i ==> !Fires(targets, hit, profitPercent, k)
    ensures i < |targets| ==> Fires(targets, hit, profitPercent, i)
    decreases |targets| - from
  {
    if from == |targets| then from
    else if Fires(targets, hit, profitPercent, from) then from
    else NextTarget(targets, hit, profitPercent, from + 1)
  }

  /** From the begin of a sell to the return to its caller. */
  predicate InSale(stage: Stage) {
    stage.Selling? || stage.Sold?
  }

  predicate Sound(strategy: Strategy, exitStates: map<Mint, ExitState>, c: Check) {
    && c.mint in exitStates
    && (c.stage.Scanning? ==> c.stage.from <= |strategy.targets|)
    && (InSale(c.stage) && c.stage.exit.TakeProfit? ==> c.stage.exit.index < |strategy.targets|)
  }

  /** Every check under way has an exit state and names a target that exists. */
  ghost predicate Tracked(strategy: Strategy, s: State) {
    forall id :: id in s.checks ==> id < s.nextId && Sound(strategy, s.exitStates, s.checks[id])
  }

  function Noted(exitStates: map<Mint, ExitState>, mint: Mint, price: Price): map<Mint, ExitState> {
    if mint !in exitStates then exitStates[mint := ExitState({}, price)]
    else if price > exitStates[mint].highWaterMark then
      exitStates[mint := exitStates[mint].(highWaterMark := price)]
    else exitStates
  }

  function Marked(exitStates: map<Mint, ExitState>, mint: Mint, level: real): map<Mint, ExitState>
    requires mint in exitStates
  {
    exitStates[mint := exitStates[mint].(tpHit := exitStates[mint].tpHit + {level})]
  }

  function MovedTo(s: State, id: nat, stage: Stage): State
    requires id in s.checks
  {
    s.(checks := s.checks[id := s.checks[id].(stage := stage)])
  }

  function SellBegun(s: State, id: nat, exit: Exit): State
    requires id in s.checks
  {
    MovedTo(s, id, Selling(exit)).(
      stats := s.stats.(exitsTriggered := s.stats.exitsTriggered + 1),
      events := s.events + [Event(Triggered, id, s.checks[id].mint, exit)])
  }

  function CountHit(stats: ExitStats, exit: Exit): ExitStats {
    match exit
    case TakeProfit(_) => stats.(takeProfitsHit := stats.takeProfitsHit + 1)
    case StopLoss => stats.(stopLossesHit := stats.stopLossesHit + 1)
    case TimeLimit => stats.(timeLimitsHit := stats.timeLimitsHit + 1)
    case TrailingStop => stats.(trailingStopsHit := stats.trailingStopsHit + 1)
  }

  function DrawdownPercent(highWaterMark: Price, price: Price): real {
    (highWaterMark - price) / highWaterMark * 100.0
  }

  predicate TrailingFires(strategy: Strategy, highWaterMark: Price, c: Check) {
    && strategy.trailingStopPercent != 0.0 && strategy.trailingActivationPercent != 0.0
    && c.profitPercent >= strategy.trailingActivationPercent
    && DrawdownPercent(highWaterMark, c.price) >= strategy.trailingStopPercent
  }

  //
  // The steps
  //

  /** A check of a position begins: its exit state is created or its high-water mark raised. */
  function Note(s: State, mint: Mint, price: Price, entryPrice: Price): State {
    s.(exitStates := Noted(s.exitStates, mint, price),
       checks := s.checks[s.nextId := Check(mint, price, ProfitPercent(price, entryPrice), Scanning(0))],
       nextId := s.nextId + 1)
  }

  /** The loop over the take profits, up to the next one that fires. */
  function Scan(strategy: Strategy, s: State, id: nat): State
    requires id in s.checks && s.checks[id].stage.Scanning? && Sound(strategy, s.exitStates, s.checks[id])
  {
    var c := s.checks[id];
    var i := NextTarget(strategy.targets, s.exitStates[c.mint].tpHit, c.profitPercent, c.stage.from);
    if i < |strategy.targets| then SellBegun(s, id, TakeProfit(i)) else MovedTo(s, id, AtStopLoss)
  }

  function ResumeStep(strategy: Strategy, s: State, id: nat, hoursHeld: real): State
    requires id in s.checks && Sound(strategy, s.exitStates, s.checks[id])
    requires s.checks[id].stage in {AtStopLoss, AtTimeLimit, AtTrailing}
  {
    var c := s.checks[id];
    match c.stage
    case AtStopLoss =>
      if c.profitPercent <= strategy.stopLossPercent then SellBegun(s, id, StopLoss) else MovedTo(s, id, AtTimeLimit)
    case AtTimeLimit =>
      if strategy.maxHoldTimeHours != 0.0 && hoursHeld >= strategy.maxHoldTimeHours then SellBegun(s, id, TimeLimit)
      else MovedTo(s, id, AtTrailing)
    case AtTrailing =>
      if TrailingFires(strategy, s.exitStates[c.mint].highWaterMark, c) then SellBegun(s, id, TrailingStop)
      else s.(checks := s.checks - {id})
  }

  /** The end of an awaited sell, which is reported. */
  function Report(s: State, id: nat, succeeded: bool): State
    requires id in s.checks && s.checks[id].stage.Selling?
  {
    var c, exit := s.checks[id], s.checks[id].stage.exit;
    MovedTo(s, id, Sold(exit)).(
      stats := if succeeded then s.stats else s.stats.(exitsFailed := s.stats.exitsFailed + 1),
      events := s.events + [Event(if succeeded then Executed else Failed, id, c.mint, exit)])
  }

  /** Back in the exit that called for the sell: whether or not it succeeded, the exit counts as hit. */
  function Hit(strategy: Strategy, s: State, id: nat): State
    requires id in s.checks && s.checks[id].stage.Sold? && Sound(strategy, s.exitStates, s.checks[id])
  {
    var c, exit := s.checks[id], s.checks[id].stage.exit;
    var counted := s.(stats := CountHit(s.stats, exit));
    match exit
    case TakeProfit(i) =>
      MovedTo(counted, id, Scanning(i + 1)).(
        exitStates := Marked(s.exitStates, c.mint, strategy.targets[i].profitPercent))
    case StopLoss => MovedTo(counted, id, AtTimeLimit)
    case TimeLimit => MovedTo(counted, id, AtTrailing)
    case TrailingStop => counted.(checks := counted.checks - {id})
  }

  function ReturnStep(strategy: Strategy, s: State, id: nat): State
    requires id in s.checks && s.checks[id].stage.Sold? && Sound(strategy, s.exitStates, s.checks[id])
  {
    var hit := Hit(strategy, s, id);
    if s.checks[id].stage.exit.TakeProfit? then Scan(strategy, hit, id) else hit
  }

  /** An answer for a check that is not waiting for it cannot occur. */
  predicate Enabled(s: State, a: Action) {
    match a
    case Observe(_, _, _) => true
    case Resume(id, _) => id in s.checks && s.checks[id].stage in {AtStopLoss, AtTimeLimit, AtTrailing}
    case SellSettled(id, _) => id in s.checks && s.checks[id].stage.Selling?
    case Return(id) => id in s.checks && s.checks[id].stage.Sold?
  }

  ghost function Step(strategy: Strategy, s: State, a: Action): (next: State)
    requires Tracked(strategy, s)
    ensures Tracked(strategy, next)
  {
    if !Enabled(s, a) then s
    else
      match a
      case Observe(mint, price, entryPrice) =>
        if price.None? then s
        else Scan(strategy, Note(s, mint, price.value, entryPrice), s.nextId)
      case Resume(id, hoursHeld) => ResumeStep(strategy, s, id, hoursHeld)
      case SellSettled(id, succeeded) => Report(s, id, succeeded)
      case Return(id) => ReturnStep(strategy, s, id)
  }

  /** An interleaving: any sequence of actions of any checks. */
  ghost function Run(strategy: Strategy, actions: seq<Action>): (end: State)
    ensures Tracked(strategy, end)
    decreases |actions|
  {
    if actions == [] then INITIAL
    else Step(strategy, Run(strategy, actions[..|actions| - 1]), actions[|actions| - 1])
  }

  lemma RunAppend(strategy: Strategy, actions: seq<Action>, a: Action)
    ensures Run(strategy, actions + [a]) == Step(strategy, Run(strategy, actions), a)
  {
    hide Step;
    assert (actions + [a])[..|actions|] == actions;
  }

  lemma NoActions(strategy: Strategy)
    ensures Run(strategy, []) == INITIAL
  {
  }

  //
  // The object
  //

  class ExitManager {
    const strategy: Strategy
    var exitStates: map<Mint, ExitState>
    var checks: map<nat, Check>
    var nextId: nat
    var stats: ExitStats
    var events: seq<Event>

    ghost function Value(): State
      reads this
    {
      State(exitStates, checks, nextId, stats, events)
    }

    ghost predicate Valid()
      reads this
    {
      Tracked(strategy, Value())
    }

    constructor (strategy: Strategy)
      ensures Valid() && Value() == INITIAL && this.strategy == strategy
    {
      this.strategy := strategy;
      exitStates, checks, nextId := map[], map[], 0;
      stats, events := ExitStats(0, 0, 0, 0, 0, 0), [];
    }

    /** One round of the loop over the positions, up to its first await. */
    method ObservePrice(mint: Mint, price: Option<Price>, entryPrice: Price)
      requires Valid()
      modifies this
      ensures Valid() && Value() == Step(strategy, old(Value()), Observe(mint, price, entryPrice))
    {
      if price.None? {
        return;
      }
      var currentPrice := price.value;
      if mint !in exitStates {
        exitStates := exitStates[mint := ExitState({}, currentPrice)];
      }
      var exitState := exitStates[mint];
      if currentPrice > exitState.highWaterMark {
        exitStates := exitStates[mint := exitState.(highWaterMark := currentPrice)];
      }
      var id := nextId;
      nextId := nextId + 1;
      checks := checks[id := Check(mint, currentPrice, ProfitPercent(currentPrice, entryPrice), Scanning(0))];
      CheckTakeProfits(id);
    }

    /** The take-profit loop from where it stands to the next sell, or to its end. */
    method CheckTakeProfits(id: nat)
      requires id in checks && checks[id].stage.Scanning? && Sound(strategy, exitStates, checks[id])
      modifies this
      ensures Value() == Scan(strategy, old(Value()), id)
    {
      var c := checks[id];
      var tpHit := exitStates[c.mint].tpHit;
      var i := c.stage.from;
      while i < |strategy.targets|
        invariant c.stage.from <= i <= |strategy.targets|
        invariant Value() == old(Value())
        invariant NextTarget(strategy.targets, tpHit, c.profitPercent, c.stage.from)
               == NextTarget(strategy.targets, tpHit, c.profitPercent, i)
      {
        if c.profitPercent >= strategy.targets[i].profitPercent && strategy.targets[i].profitPercent !in tpHit {
          ExecuteSell(id, TakeProfit(i));
          return;
        }
        i := i + 1;
      }
      checks := checks[id := c.(stage := AtStopLoss)];
    }

    /** Stop loss, time limit and trailing stop. */
    method ContinueCheck(id: nat, hoursHeld: real)
      requires Valid() && Enabled(Value(), Resume(id, hoursHeld))
      modifies this
      ensures Valid() && Value() == Step(strategy, old(Value()), Resume(id, hoursHeld))
    {
      var c := checks[id];
      match c.stage {
        case AtStopLoss =>
          if c.profitPercent <= strategy.stopLossPercent {
            ExecuteSell(id, StopLoss);
          } else {
            checks := checks[id := c.(stage := AtTimeLimit)];
          }
        case AtTimeLimit =>
          if strategy.maxHoldTimeHours != 0.0 && hoursHeld >= strategy.maxHoldTimeHours {
            ExecuteSell(id, TimeLimit);
          } else {
            checks := checks[id := c.(stage := AtTrailing)];
          }
        case AtTrailing =>
          if TrailingFires(strategy, exitStates[c.mint].highWaterMark, c) {
            ExecuteSell(id, TrailingStop);
          } else {
            checks := checks - {id};
          }
      }
    }

    /** executeSell up to its await. */
    method ExecuteSell(id: nat, exit: Exit)
      requires id in checks
      modifies this
      ensures Value() == SellBegun(old(Value()), id, exit)
    {
      stats := stats.(exitsTriggered := stats.exitsTriggered + 1);
      events := events + [Event(Triggered, id, checks[id].mint, exit)];
      checks := checks[id := checks[id].(stage := Selling(exit))];
    }

    /** The rest of executeSell after its await. */
    method OnSellSettled(id: nat, succeeded: bool)
      requires Valid() && Enabled(Value(), SellSettled(id, succeeded))
      modifies this
      ensures Valid() && Value() == Step(strategy, old(Value()), SellSettled(id, succeeded))
    {
      var c := checks[id];
      if !succeeded {
        stats := stats.(exitsFailed := stats.exitsFailed + 1);
      }
      events := events + [Event(if succeeded then Executed else Failed, id, c.mint, c.stage.exit)];
      checks := checks[id := c.(stage := Sold(c.stage.exit))];
    }

    /** What the caller of executeSell does when it has returned. */
    method CountExit(id: nat)
      requires id in checks && checks[id].stage.Sold? && Sound(strategy, exitStates, checks[id])
      modifies this
      ensures Value() == Hit(strategy, old(Value()), id)
    {
      var c := checks[id];
      match c.stage.exit {
        case TakeProfit(i) =>
          var exitState := exitStates[c.mint];
          exitStates :=
            exitStates[c.mint := exitState.(tpHit := exitState.tpHit + {strategy.targets[i].profitPercent})];
          stats := stats.(takeProfitsHit := stats.takeProfitsHit + 1);
          checks := checks[id := c.(stage := Scanning(i + 1))];
        case StopLoss =>
          stats := stats.(stopLossesHit := stats.stopLossesHit + 1);
          checks := checks[id := c.(stage := AtTimeLimit)];
        case TimeLimit =>
          stats := stats.(timeLimitsHit := stats.timeLimitsHit + 1);
          checks := checks[id := c.(stage := AtTrailing)];
        case TrailingStop =>
          stats := stats.(trailingStopsHit := stats.trailingStopsHit + 1);
          checks := checks - {id};
      }
    }

    /** From the return of executeSell to the next await. */
    method OnSellReturned(id: nat)
      requires Valid() && Enabled(Value(), Return(id))
      modifies this
      ensures Valid() && Value() == Step(strategy, old(Value()), Return(id))
    {
      var exit := checks[id].stage.exit;
      CountExit(id);
      if exit.TakeProfit? {
        CheckTakeProfits(id);
      }
    }
  }
}
