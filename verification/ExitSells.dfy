/**
  How often one check sells: for each exit at most once, and the whole position more than once exactly where
  the strategy lets two full exits meet.
 */
module ExitSells {
  import opened Wrappers
  import opened Positions
  import opened PositionLedger
  import opened Exits
  import opened ExitHistory
  import opened ExitAccounting
  import opened ExitCourse

  //
  // The order of the exits
  //

  /** The place of an exit in the course of a check. */
  function Rank(strategy: Strategy, exit: Exit): nat {
    match exit
    case TakeProfit(j) => j
    case StopLoss => |strategy.targets|
    case TimeLimit => |strategy.targets| + 1
    case TrailingStop => |strategy.targets| + 2
  }

  predicate Exists(strategy: Strategy, exit: Exit) {
    exit.TakeProfit? ==> exit.index < |strategy.targets|
  }

  /** The exits that a check at this stage has behind it are those of lower rank. */
  function Progress(strategy: Strategy, stage: Stage): nat {
    match stage
    case Scanning(from) => from
    case AtStopLoss => |strategy.targets|
    case AtTimeLimit => |strategy.targets| + 1
    case AtTrailing => |strategy.targets| + 2
    case Selling(exit) => Rank(strategy, exit) + 1
    case Sold(exit) => Rank(strategy, exit) + 1
  }

  /** How often the check with this number has begun to sell for the exit. */
  function Begins(events: seq<Event>, id: nat, exit: Exit): nat
    decreases |events|
  {
    if events == [] then 0
    else
      var last := events[|events| - 1];
      Begins(events[..|events| - 1], id, exit)
      + (if last.kind == Triggered && last.id == id && last.exit == exit then 1 else 0)
  }

  lemma BeginsAppend(events: seq<Event>, e: Event, id: nat, exit: Exit)
    ensures Begins(events + [e], id, exit)
         == Begins(events, id, exit) + (if e.kind == Triggered && e.id == id && e.exit == exit then 1 else 0)
  {
    assert (events + [e])[..|events|] == events;
  }

  /** What must hold of the profit that a check observed if it sells for the exit. */
  predicate CanBegin(strategy: Strategy, exit: Exit, profit: real) {
    match exit
    case TakeProfit(j) => j < |strategy.targets| ==> profit >= strategy.targets[j].profitPercent
    case StopLoss => profit <= strategy.stopLossPercent
    case TimeLimit => strategy.maxHoldTimeHours != 0.0
    case TrailingStop => TrailingSet(strategy) && profit >= strategy.trailingActivationPercent
  }

  /** The trailing stop is set, to a fall that a price can take. */
  predicate TrailingSet(strategy: Strategy) {
    strategy.trailingStopPercent != 0.0 && strategy.trailingActivationPercent != 0.0
    && strategy.trailingStopPercent < 100.0
  }

  ghost predicate Orderly(strategy: Strategy, s: State, id: nat, exit: Exit, profit: real) {
    var begun := Begins(s.events, id, exit);
    && begun <= 1 && (begun > 0 ==> CanBegin(strategy, exit, profit))
    && (id in s.checks ==>
          && s.checks[id].profitPercent == profit
          && (Rank(strategy, exit) >= Progress(strategy, s.checks[id].stage) ==> begun == 0))
  }

  lemma MoveOrderly(strategy: Strategy, s: State, id: nat, stage: Stage, other: nat, exit: Exit, profit: real)
    requires id in s.checks && Orderly(strategy, s, other, exit, profit)
    requires Progress(strategy, stage) >= Progress(strategy, s.checks[id].stage)
    ensures Orderly(strategy, MovedTo(s, id, stage), other, exit, profit)
  {
  }

  lemma BeginOrderly(strategy: Strategy, s: State, id: nat, begun: Exit, other: nat, exit: Exit, profit: real)
    requires id in s.checks && Orderly(strategy, s, other, exit, profit)
    requires Exists(strategy, begun) && Exists(strategy, exit)
    requires Rank(strategy, begun) >= Progress(strategy, s.checks[id].stage)
    requires CanBegin(strategy, begun, s.checks[id].profitPercent)
    ensures Orderly(strategy, SellBegun(s, id, begun), other, exit, profit)
  {
    hide Begins, CanBegin;
    BeginsAppend(s.events, Event(Triggered, id, s.checks[id].mint, begun), other, exit);
  }

  lemma ScanOrderly(strategy: Strategy, s: State, id: nat, other: nat, exit: Exit, profit: real)
    requires id in s.checks && s.checks[id].stage.Scanning? && Sound(strategy, s.exitStates, s.checks[id])
    requires Exists(strategy, exit) && Orderly(strategy, s, other, exit, profit)
    ensures Orderly(strategy, Scan(strategy, s, id), other, exit, profit)
  {
    hide Orderly, SellBegun, MovedTo;
    var c := s.checks[id];
    var i := NextTarget(strategy.targets, s.exitStates[c.mint].tpHit, c.profitPercent, c.stage.from);
    if i < |strategy.targets| {
      BeginOrderly(strategy, s, id, TakeProfit(i), other, exit, profit);
    } else {
      MoveOrderly(strategy, s, id, AtStopLoss, other, exit, profit);
    }
  }

  lemma TrailingCanBegin(strategy: Strategy, highWaterMark: Price, c: Check)
    requires TrailingFires(strategy, highWaterMark, c)
    ensures CanBegin(strategy, TrailingStop, c.profitPercent)
  {
    hide DrawdownPercent;
    DrawdownIff(highWaterMark, c.price, 100.0);
  }

  lemma DropOrderly(strategy: Strategy, s: State, next: State, id: nat, other: nat, exit: Exit, profit: real)
    requires Orderly(strategy, s, other, exit, profit)
    requires next.events == s.events && next.checks == s.checks - {id}
    ensures Orderly(strategy, next, other, exit, profit)
  {
  }

  lemma ResumeOrderly(strategy: Strategy, s: State, id: nat, hoursHeld: real, other: nat, exit: Exit, profit: real)
    requires id in s.checks && Sound(strategy, s.exitStates, s.checks[id])
    requires s.checks[id].stage in {AtStopLoss, AtTimeLimit, AtTrailing}
    requires Exists(strategy, exit) && Orderly(strategy, s, other, exit, profit)
    ensures Orderly(strategy, ResumeStep(strategy, s, id, hoursHeld), other, exit, profit)
  {
    hide Orderly, TrailingFires;
    var c, next := s.checks[id], ResumeStep(strategy, s, id, hoursHeld);
    if id !in next.checks {
      DropOrderly(strategy, s, next, id, other, exit, profit);
    } else if next.checks[id].stage.Selling? {
      if c.stage == AtTrailing {
        TrailingCanBegin(strategy, s.exitStates[c.mint].highWaterMark, c);
      }
      BeginOrderly(strategy, s, id, next.checks[id].stage.exit, other, exit, profit);
    } else {
      MoveOrderly(strategy, s, id, next.checks[id].stage, other, exit, profit);
    }
  }

  lemma ReportOrderly(strategy: Strategy, s: State, id: nat, succeeded: bool, other: nat, exit: Exit, profit: real)
    requires id in s.checks && s.checks[id].stage.Selling? && Orderly(strategy, s, other, exit, profit)
    ensures Orderly(strategy, Report(s, id, succeeded), other, exit, profit)
  {
    hide Begins, CanBegin;
    var c := s.checks[id];
    BeginsAppend(s.events, Event(if succeeded then Executed else Failed, id, c.mint, c.stage.exit), other, exit);
  }

  lemma HitOrderly(strategy: Strategy, s: State, id: nat, other: nat, exit: Exit, profit: real)
    requires id in s.checks && s.checks[id].stage.Sold? && Sound(strategy, s.exitStates, s.checks[id])
    requires Orderly(strategy, s, other, exit, profit)
    ensures Orderly(strategy, Hit(strategy, s, id), other, exit, profit)
  {
    hide Begins, CanBegin, CountHit, Marked;
  }

  lemma ReturnOrderly(strategy: Strategy, s: State, id: nat, other: nat, exit: Exit, profit: real)
    requires id in s.checks && s.checks[id].stage.Sold? && Sound(strategy, s.exitStates, s.checks[id])
    requires Exists(strategy, exit) && Orderly(strategy, s, other, exit, profit)
    ensures Orderly(strategy, ReturnStep(strategy, s, id), other, exit, profit)
  {
    hide Orderly, Scan;
    HitOrderly(strategy, s, id, other, exit, profit);
    if s.checks[id].stage.exit.TakeProfit? {
      ScanOrderly(strategy, Hit(strategy, s, id), id, other, exit, profit);
    }
  }

  lemma NoteOrderly(
    strategy: Strategy, s: State, mint: Mint, price: Price, entryPrice: Price, other: nat, exit: Exit, profit: real
  )
    requires other < s.nextId && Orderly(strategy, s, other, exit, profit)
    ensures Orderly(strategy, Note(s, mint, price, entryPrice), other, exit, profit)
  {
    hide Begins, CanBegin;
  }

  lemma StepOrderly(strategy: Strategy, s: State, a: Action, id: nat, exit: Exit, profit: real)
    requires Tracked(strategy, s) && id < s.nextId && Exists(strategy, exit) && Orderly(strategy, s, id, exit, profit)
    ensures Orderly(strategy, Step(strategy, s, a), id, exit, profit)
  {
    hide Orderly, Scan, Hit, Report, ResumeStep;
    if Enabled(s, a) {
      match a
      case Observe(mint, price, entryPrice) =>
        if price.Some? {
          NoteOrderly(strategy, s, mint, price.value, entryPrice, id, exit, profit);
          ScanOrderly(strategy, Note(s, mint, price.value, entryPrice), s.nextId, id, exit, profit);
        }
      case Resume(other, hoursHeld) => ResumeOrderly(strategy, s, other, hoursHeld, id, exit, profit);
      case SellSettled(other, succeeded) => ReportOrderly(strategy, s, other, succeeded, id, exit, profit);
      case Return(other) => ReturnOrderly(strategy, s, other, id, exit, profit);
    }
  }

  lemma {:induction false} NoneBegins(events: seq<Event>, id: nat, exit: Exit)
    requires forall e :: e in events ==> e.id < id
    ensures Begins(events, id, exit) == 0
    decreases |events|
  {
    if events != [] {
      NoneBegins(events[..|events| - 1], id, exit);
    }
  }

  lemma FirstStepOrderly(strategy: Strategy, s: State, a: Action, exit: Exit)
    requires Tracked(strategy, s) && Begun(s) && HasPrice(a) && Exists(strategy, exit)
    ensures Orderly(strategy, Step(strategy, s, a), s.nextId, exit, ObservedProfit(a))
  {
    hide Scan, Begins, CanBegin, ProfitPercent;
    NoneBegins(s.events, s.nextId, exit);
    var noted := Note(s, a.mint, a.price.value, a.entryPrice);
    assert Orderly(strategy, noted, s.nextId, exit, ObservedProfit(a));
    ScanOrderly(strategy, noted, s.nextId, s.nextId, exit, ObservedProfit(a));
  }

  /** Over every interleaving: each check sells for each exit at most once, and only at a fitting profit. */
  lemma {:induction false} EachExitOnce(strategy: Strategy, actions: seq<Action>, id: nat, exit: Exit)
    requires Exists(strategy, exit)
    ensures var s := Run(strategy, actions);
            && (id < s.nextId ==> ProfitOf(actions, id).Some?)
            && (id < s.nextId ==> Orderly(strategy, s, id, exit, ProfitOf(actions, id).value))
            && (id >= s.nextId ==> Begins(s.events, id, exit) == 0)
    decreases |actions|
  {
    hide Step, Tracked, Orderly, OnCourse;
    var s := Run(strategy, actions);
    EveryCheckOnCourse(strategy, actions, id);
    if id >= s.nextId {
      NoneBegins(s.events, id, exit);
    } else {
      var before, a := actions[..|actions| - 1], actions[|actions| - 1];
      EachExitOnce(strategy, before, id, exit);
      EveryCheckOnCourse(strategy, before, id);
      StepKeepsBegun(strategy, Run(strategy, before), a);
      if id < Run(strategy, before).nextId {
        StepOrderly(strategy, Run(strategy, before), a, id, exit, ProfitOf(before, id).value);
      } else {
        FirstStepOrderly(strategy, Run(strategy, before), a, exit);
      }
    }
  }

  /** How often the check has begun to sell the whole position. */
  function FullSells(events: seq<Event>, id: nat): nat {
    Begins(events, id, StopLoss) + Begins(events, id, TimeLimit) + Begins(events, id, TrailingStop)
  }

  //
  // Strategies that sell the whole position twice
  //

  /** Two of the full exits can meet in one check. A profit is always above -100 percent. */
  predicate FullExitsMeet(strategy: Strategy) {
    var stop, time := strategy.stopLossPercent > -100.0, strategy.maxHoldTimeHours != 0.0;
    || (stop && time)
    || (time && TrailingSet(strategy))
    || (stop && TrailingSet(strategy) && strategy.trailingActivationPercent <= strategy.stopLossPercent)
  }

  lemma {:induction false} ProfitAboveLoss(actions: seq<Action>, id: nat)
    ensures ProfitOf(actions, id).Some? ==> ProfitOf(actions, id).value > -100.0
    decreases |actions|
  {
    if actions != [] {
      ProfitAboveLoss(actions[..|actions| - 1], id);
      var last := actions[|actions| - 1];
      if HasPrice(last) {
        PositiveProfitBound(last.price.value, last.entryPrice);
      }
    }
  }

  lemma PositiveProfitBound(price: Price, entryPrice: Price)
    ensures ProfitPercent(price, entryPrice) > -100.0
  {
    QuotientTimesDivisor(price, entryPrice);
    PositiveFactor(price / entryPrice, entryPrice);
  }

  function TimeDue(strategy: Strategy): nat {
    if strategy.maxHoldTimeHours != 0.0 then 1 else 0
  }

  /** The full exits that a profit allows. */
  function FullAt(strategy: Strategy, profit: real): nat {
    Due(strategy, profit) + TimeDue(strategy) + (if CanBegin(strategy, TrailingStop, profit) then 1 else 0)
  }

  /** Over every interleaving: a check sells the whole position no more often than its profit allows. */
  lemma FullSellsWithin(strategy: Strategy, actions: seq<Action>, id: nat)
    ensures FullSells(Run(strategy, actions).events, id)
         <= match ProfitOf(actions, id) case Some(profit) => FullAt(strategy, profit) case None => 0
  {
    hide Run, Begins, ProfitOf;
    EveryCheckOnCourse(strategy, actions, id);
    EachExitOnce(strategy, actions, id, StopLoss);
    EachExitOnce(strategy, actions, id, TimeLimit);
    EachExitOnce(strategy, actions, id, TrailingStop);
  }

  lemma FullSellsOnce(strategy: Strategy, actions: seq<Action>, id: nat)
    requires !FullExitsMeet(strategy)
    ensures FullSells(Run(strategy, actions).events, id) <= 1
  {
    hide Run, FullSells, ProfitOf;
    FullSellsWithin(strategy, actions, id);
    ProfitAboveLoss(actions, id);
  }

  //
  // A run in which they do meet
  //

  /** The check is here, the token has been this high, and so many full exits have begun. */
  ghost predicate At(s: State, id: nat, c: Check, high: Price, sells: nat) {
    && id in s.checks && s.checks[id] == c
    && c.mint in s.exitStates && s.exitStates[c.mint].highWaterMark == high
    && FullSells(s.events, id) == sells
  }

  lemma FullSellsAppend(events: seq<Event>, e: Event, id: nat)
    ensures FullSells(events + [e], id)
         == FullSells(events, id) + (if e.kind == Triggered && e.id == id && !e.exit.TakeProfit? then 1 else 0)
  {
    hide Begins;
    BeginsAppend(events, e, id, StopLoss);
    BeginsAppend(events, e, id, TimeLimit);
    BeginsAppend(events, e, id, TrailingStop);
  }

  lemma SettleAt(strategy: Strategy, s: State, id: nat, c: Check, high: Price, sells: nat)
    requires Tracked(strategy, s) && At(s, id, c, high, sells) && c.stage.Selling?
    ensures At(Step(strategy, s, SellSettled(id, true)), id, c.(stage := Sold(c.stage.exit)), high, sells)
  {
    hide FullSells;
    FullSellsAppend(s.events, Event(Executed, id, c.mint, c.stage.exit), id);
  }

  lemma ReturnAt(strategy: Strategy, s: State, id: nat, c: Check, high: Price, sells: nat)
    requires Tracked(strategy, s) && At(s, id, c, high, sells) && c.stage.Sold? && c.stage.exit != TrailingStop
    ensures var next := Step(strategy, s, Return(id));
            && id in next.checks && At(next, id, c.(stage := next.checks[id].stage), high, sells)
            && match c.stage.exit
               case StopLoss => next.checks[id].stage == AtTimeLimit
               case TimeLimit => next.checks[id].stage == AtTrailing
               case TakeProfit(i) => AfterTarget(strategy, next.checks[id].stage, i)
               case TrailingStop => true
  {
    hide FullSells, CountHit, NextTarget;
    var next := Step(strategy, s, Return(id));
    if next.events != s.events {
      FullSellsAppend(s.events, next.events[|s.events|], id);
    }
  }

  /** At the stop loss, or selling for a target beyond the i-th. */
  predicate AfterTarget(strategy: Strategy, stage: Stage, i: int) {
    || stage == AtStopLoss
    || (stage.Selling? && stage.exit.TakeProfit? && i < stage.exit.index < |strategy.targets|)
  }

  lemma ResumeAt(strategy: Strategy, s: State, id: nat, c: Check, high: Price, sells: nat)
    requires Tracked(strategy, s) && At(s, id, c, high, sells)
    requires c.stage in {AtStopLoss, AtTimeLimit, AtTrailing}
    ensures var next := Step(strategy, s, Resume(id, strategy.maxHoldTimeHours));
            match c.stage
            case AtStopLoss =>
              if Due(strategy, c.profitPercent) == 1 then At(next, id, c.(stage := Selling(StopLoss)), high, sells + 1)
              else At(next, id, c.(stage := AtTimeLimit), high, sells)
            case AtTimeLimit =>
              if TimeDue(strategy) == 1 then At(next, id, c.(stage := Selling(TimeLimit)), high, sells + 1)
              else At(next, id, c.(stage := AtTrailing), high, sells)
            case _ => FullSells(next.events, id) == sells + (if TrailingFires(strategy, high, c) then 1 else 0)
  {
    hide FullSells, TrailingFires;
    var next := Step(strategy, s, Resume(id, strategy.maxHoldTimeHours));
    if next.events != s.events {
      FullSellsAppend(s.events, next.events[|s.events|], id);
    }
  }

  /** No other check returns from a sell. */
  predicate OnlyReturns(actions: seq<Action>, id: nat) {
    forall a :: a in actions && a.Return? ==> a.id == id
  }

  /** The awaited sell ends and returns. */
  lemma SellThrough(strategy: Strategy, actions: seq<Action>, id: nat, c: Check, high: Price, sells: nat)
    returns (more: seq<Action>, stage: Stage)
    requires At(Run(strategy, actions), id, c, high, sells) && c.stage.Selling? && c.stage.exit != TrailingStop
    ensures At(Run(strategy, more), id, c.(stage := stage), high, sells)
    ensures OnlyReturns(actions, id) ==> OnlyReturns(more, id)
    ensures match c.stage.exit
            case StopLoss => stage == AtTimeLimit
            case TimeLimit => stage == AtTrailing
            case TakeProfit(i) => AfterTarget(strategy, stage, i)
            case TrailingStop => true
  {
    hide Run, Step, At;
    var sold := actions + [SellSettled(id, true)];
    RunAppend(strategy, actions, SellSettled(id, true));
    SettleAt(strategy, Run(strategy, actions), id, c, high, sells);
    more := sold + [Return(id)];
    RunAppend(strategy, sold, Return(id));
    ReturnAt(strategy, Run(strategy, sold), id, c.(stage := Sold(c.stage.exit)), high, sells);
    stage := Run(strategy, more).checks[id].stage;
  }

  lemma {:induction false} PastTargets(
    strategy: Strategy, actions: seq<Action>, id: nat, c: Check, high: Price, sells: nat
  ) returns (more: seq<Action>)
    requires At(Run(strategy, actions), id, c, high, sells) && AfterTarget(strategy, c.stage, -1)
    ensures At(Run(strategy, more), id, c.(stage := AtStopLoss), high, sells)
    ensures OnlyReturns(actions, id) ==> OnlyReturns(more, id)
    decreases if c.stage == AtStopLoss then 0 else |strategy.targets| - c.stage.exit.index
  {
    hide Run, At;
    if c.stage == AtStopLoss {
      more := actions;
    } else {
      var sold, stage := SellThrough(strategy, actions, id, c, high, sells);
      more := PastTargets(strategy, sold, id, c.(stage := stage), high, sells);
    }
  }

  lemma PastStopLoss(strategy: Strategy, actions: seq<Action>, id: nat, c: Check, high: Price, sells: nat)
    returns (more: seq<Action>)
    requires At(Run(strategy, actions), id, c, high, sells) && c.stage == AtStopLoss
    ensures At(Run(strategy, more), id, c.(stage := AtTimeLimit), high, sells + Due(strategy, c.profitPercent))
    ensures OnlyReturns(actions, id) ==> OnlyReturns(more, id)
  {
    hide Run, Step, At;
    var a := Resume(id, strategy.maxHoldTimeHours);
    RunAppend(strategy, actions, a);
    ResumeAt(strategy, Run(strategy, actions), id, c, high, sells);
    more := actions + [a];
    if Due(strategy, c.profitPercent) == 1 {
      var stage;
      more, stage := SellThrough(strategy, more, id, c.(stage := Selling(StopLoss)), high, sells + 1);
    }
  }

  lemma PastTimeLimit(strategy: Strategy, actions: seq<Action>, id: nat, c: Check, high: Price, sells: nat)
    returns (more: seq<Action>)
    requires At(Run(strategy, actions), id, c, high, sells) && c.stage == AtTimeLimit
    ensures At(Run(strategy, more), id, c.(stage := AtTrailing), high, sells + TimeDue(strategy))
    ensures OnlyReturns(actions, id) ==> OnlyReturns(more, id)
  {
    hide Run, Step, At;
    var a := Resume(id, strategy.maxHoldTimeHours);
    RunAppend(strategy, actions, a);
    ResumeAt(strategy, Run(strategy, actions), id, c, high, sells);
    more := actions + [a];
    if TimeDue(strategy) == 1 {
      var stage;
      more, stage := SellThrough(strategy, more, id, c.(stage := Selling(TimeLimit)), high, sells + 1);
    }
  }

  /** The second check of a token that was higher before. */
  lemma SecondCheck(strategy: Strategy, mint: Mint, high: Price, price: Price, entryPrice: Price)
    returns (actions: seq<Action>, c: Check)
    requires high >= price
    ensures c == Check(mint, price, ProfitPercent(price, entryPrice), c.stage) && AfterTarget(strategy, c.stage, -1)
    ensures At(Run(strategy, actions), 1, c, high, 0) && OnlyReturns(actions, 1)
  {
    hide Run, Step, At, ProfitPercent;
    var first, second := Observe(mint, Some(high), 1.0), Observe(mint, Some(price), entryPrice);
    NoActions(strategy);
    RunAppend(strategy, [], first);
    RunAppend(strategy, [] + [first], second);
    actions := [] + [first] + [second];
    FirstObserved(strategy, mint, high);
    c := SecondObserved(strategy, Run(strategy, [] + [first]), mint, high, price, entryPrice);
  }

  lemma FirstObserved(strategy: Strategy, mint: Mint, high: Price)
    ensures var s := Step(strategy, INITIAL, Observe(mint, Some(high), 1.0));
            && s.nextId == 1 && s.exitStates.Keys == {mint} && s.exitStates[mint].highWaterMark == high
            && forall e :: e in s.events ==> e.id < 1
  {
    hide NextTarget, ProfitPercent;
  }

  lemma SecondObserved(strategy: Strategy, s: State, mint: Mint, high: Price, price: Price, entryPrice: Price)
    returns (c: Check)
    requires Tracked(strategy, s) && s.nextId == 1 && high >= price
    requires mint in s.exitStates && s.exitStates[mint].highWaterMark == high
    requires forall e :: e in s.events ==> e.id < 1
    ensures c == Check(mint, price, ProfitPercent(price, entryPrice), c.stage) && AfterTarget(strategy, c.stage, -1)
    ensures At(Step(strategy, s, Observe(mint, Some(price), entryPrice)), 1, c, high, 0)
  {
    hide NextTarget, ProfitPercent, FullSells;
    var next := Step(strategy, s, Observe(mint, Some(price), entryPrice));
    NoFullSells(s.events, 1);
    if next.events != s.events {
      FullSellsAppend(s.events, next.events[|s.events|], 1);
    }
    c := next.checks[1];
  }

  lemma NoFullSells(events: seq<Event>, id: nat)
    requires forall e :: e in events ==> e.id < id
    ensures FullSells(events, id) == 0
  {
    NoneBegins(events, id, StopLoss);
    NoneBegins(events, id, TimeLimit);
    NoneBegins(events, id, TrailingStop);
  }

  lemma EntryFor(profit: real) returns (entryPrice: Price)
    requires profit > -100.0
    ensures ProfitPercent(1.0, entryPrice) == profit
  {
    var rest := 100.0 + profit;
    entryPrice := 100.0 / rest;
    QuotientTimesDivisor(100.0, rest);
    PositiveFactor(100.0 / rest, rest);
    var ratio := 1.0 / entryPrice;
    QuotientTimesDivisor(1.0, entryPrice);
    assert ratio * entryPrice == 1.0;
    assert rest / 100.0 * entryPrice == 1.0;
    CancelFactor(ratio, rest / 100.0, entryPrice);
  }

  /** A price so high that a fall to 1 sets off the trailing stop. */
  lemma HighFor(stop: real) returns (high: Price)
    requires stop < 100.0
    ensures high >= 1.0 && DrawdownPercent(high, 1.0) >= stop
  {
    if stop <= 0.0 {
      high := 1.0;
      assert DrawdownPercent(1.0, 1.0) == 0.0;
    } else {
      var rest := 100.0 - stop;
      high := 100.0 / rest;
      QuotientTimesDivisor(100.0, rest);
      CancelOrder(high, 1.0, rest);
      DrawdownIff(high, 1.0, stop);
    }
  }

  lemma CancelOrder(x: real, y: real, factor: real)
    requires factor > 0.0 && x * factor >= y * factor
    ensures x >= y
  {
    assert (y - x) * factor == y * factor - x * factor;
    if x < y {
      PositiveProduct(y - x, factor);
    }
  }

  /** A profit at which the full exits meet. */
  lemma MeetingProfit(strategy: Strategy) returns (profit: real)
    requires FullExitsMeet(strategy)
    ensures profit > -100.0
    ensures FullAt(strategy, profit) >= 2
  {
    if strategy.stopLossPercent > -100.0
       && (strategy.maxHoldTimeHours != 0.0 || strategy.trailingActivationPercent <= strategy.stopLossPercent) {
      profit := strategy.stopLossPercent;
    } else {
      profit := if strategy.trailingActivationPercent > 0.0 then strategy.trailingActivationPercent else 0.0;
    }
  }

  /** A check of any profit, from its begin to the trailing stop, in which every full exit that can begin does. */
  lemma WholeCheck(strategy: Strategy, profit: real) returns (before: seq<Action>, a: Action)
    requires profit > -100.0
    ensures var s := Run(strategy, before);
            && OnlyReturns(before, 1) && 1 in s.checks
            && s.checks[1].stage == AtTrailing && s.checks[1].profitPercent == profit
    ensures a == Resume(1, strategy.maxHoldTimeHours)
    ensures FullSells(Run(strategy, before + [a]).events, 1) >= FullAt(strategy, profit)
  {
    hide Run, Step, FullSells, Due, TimeDue, ProfitPercent, DrawdownPercent, OnlyReturns;
    var entryPrice := EntryFor(profit);
    var high: Price := 1.0;
    if TrailingSet(strategy) {
      high := HighFor(strategy.trailingStopPercent);
    }
    var c;
    before, c := SecondCheck(strategy, "", high, 1.0, entryPrice);
    before := PastTargets(strategy, before, 1, c, high, 0);
    before := PastStopLoss(strategy, before, 1, c.(stage := AtStopLoss), high, 0);
    before := PastTimeLimit(strategy, before, 1, c.(stage := AtTimeLimit), high, Due(strategy, profit));
    var last := c.(stage := AtTrailing);
    a := Resume(1, strategy.maxHoldTimeHours);
    ResumeAt(strategy, Run(strategy, before), 1, last, high, Due(strategy, profit) + TimeDue(strategy));
    RunAppend(strategy, before, a);
  }

  lemma FullSellsTwice(strategy: Strategy) returns (actions: seq<Action>)
    requires FullExitsMeet(strategy)
    ensures FullSells(Run(strategy, actions).events, 1) >= 2
  {
    hide Run, FullExitsMeet, FullSells, FullAt;
    var profit := MeetingProfit(strategy);
    var before, a := WholeCheck(strategy, profit);
    actions := before + [a];
  }

  /** Exactly which strategies never begin to sell the whole position twice in one check. */
  lemma FullSellsOnceIff(strategy: Strategy)
    ensures (forall actions, id :: FullSells(Run(strategy, actions).events, id) <= 1) <==> !FullExitsMeet(strategy)
  {
    hide Run, FullSells, FullExitsMeet;
    if FullExitsMeet(strategy) {
      var actions := FullSellsTwice(strategy);
      assert FullSells(Run(strategy, actions).events, 1) > 1;
    } else {
      forall actions, id
        ensures FullSells(Run(strategy, actions).events, id) <= 1
      {
        FullSellsOnce(strategy, actions, id);
      }
    }
  }
}
