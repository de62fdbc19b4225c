/**
  The course of a single check of a position: where it sells for the stop loss, whatever runs between
  its steps.
 */
module ExitCourse {
  import opened Wrappers
  import opened Positions
  import opened PositionLedger
  import opened Exits
  import opened ExitHistory

  /** Checks are numbered in the order of the observed prices. */
  function ObservationCount(actions: seq<Action>): nat
    decreases |actions|
  {
    if actions == [] then 0
    else ObservationCount(actions[..|actions| - 1]) + (if HasPrice(actions[|actions| - 1]) then 1 else 0)
  }

  /** The profit that the check with this number observed. */
  function ProfitOf(actions: seq<Action>, id: nat): Option<real>
    decreases |actions|
  {
    if actions == [] then None
    else
      var last, before := actions[|actions| - 1], actions[..|actions| - 1];
      if HasPrice(last) && ObservationCount(before) == id then Some(ObservedProfit(last))
      else ProfitOf(before, id)
  }

  /** How often the check with this number has sold for the stop loss. */
  function StopLosses(events: seq<Event>, id: nat): nat
    decreases |events|
  {
    if events == [] then 0
    else
      var last := events[|events| - 1];
      StopLosses(events[..|events| - 1], id)
      + (if last.kind == Triggered && last.id == id && last.exit == StopLoss then 1 else 0)
  }

  lemma StopLossesAppend(events: seq<Event>, e: Event, id: nat)
    ensures StopLosses(events + [e], id)
         == StopLosses(events, id) + (if e.kind == Triggered && e.id == id && e.exit == StopLoss then 1 else 0)
  {
    assert (events + [e])[..|events|] == events;
  }

  function Due(strategy: Strategy, profit: real): nat {
    if profit <= strategy.stopLossPercent then 1 else 0
  }

  /** Before the stop loss is looked at, nothing is sold for it; from then on, what is due. */
  predicate SoldAt(strategy: Strategy, stage: Stage, profit: real, sold: nat) {
    match stage
    case Scanning(_) => sold == 0
    case AtStopLoss => sold == 0
    case Selling(TakeProfit(_)) => sold == 0
    case Sold(TakeProfit(_)) => sold == 0
    case _ => sold == Due(strategy, profit)
  }

  /** This check has observed this profit and has sold for the stop loss as it should have by now. */
  ghost predicate OnCourse(strategy: Strategy, s: State, id: nat, profit: real) {
    var sold := StopLosses(s.events, id);
    if id in s.checks then
      s.checks[id].profitPercent == profit && SoldAt(strategy, s.checks[id].stage, profit, sold)
    else sold == Due(strategy, profit)
  }

  //
  // Each part of a step keeps each check on its course
  //

  lemma MoveOnCourse(strategy: Strategy, s: State, id: nat, stage: Stage, other: nat, profit: real)
    requires id in s.checks && OnCourse(strategy, s, other, profit)
    requires id == other ==> SoldAt(strategy, stage, profit, StopLosses(s.events, id))
    ensures OnCourse(strategy, MovedTo(s, id, stage), other, profit)
  {
  }

  lemma BeginOnCourse(strategy: Strategy, s: State, id: nat, exit: Exit, other: nat, profit: real)
    requires id in s.checks && OnCourse(strategy, s, other, profit)
    requires id == other ==>
      SoldAt(strategy, Selling(exit), profit, StopLosses(s.events, id) + (if exit == StopLoss then 1 else 0))
    ensures OnCourse(strategy, SellBegun(s, id, exit), other, profit)
  {
    hide StopLosses, SoldAt;
    StopLossesAppend(s.events, Event(Triggered, id, s.checks[id].mint, exit), other);
  }

  lemma ScanOnCourse(strategy: Strategy, s: State, id: nat, other: nat, profit: real)
    requires id in s.checks && s.checks[id].stage.Scanning? && Sound(strategy, s.exitStates, s.checks[id])
    requires OnCourse(strategy, s, other, profit)
    ensures OnCourse(strategy, Scan(strategy, s, id), other, profit)
  {
    hide StopLosses, SellBegun, MovedTo;
    var c := s.checks[id];
    var i := NextTarget(strategy.targets, s.exitStates[c.mint].tpHit, c.profitPercent, c.stage.from);
    if i < |strategy.targets| {
      BeginOnCourse(strategy, s, id, TakeProfit(i), other, profit);
    } else {
      MoveOnCourse(strategy, s, id, AtStopLoss, other, profit);
    }
  }

  lemma ResumeOnCourse(strategy: Strategy, s: State, id: nat, hoursHeld: real, other: nat, profit: real)
    requires id in s.checks && Sound(strategy, s.exitStates, s.checks[id])
    requires s.checks[id].stage in {AtStopLoss, AtTimeLimit, AtTrailing}
    requires OnCourse(strategy, s, other, profit)
    ensures OnCourse(strategy, ResumeStep(strategy, s, id, hoursHeld), other, profit)
  {
    hide StopLosses, TrailingFires;
    var next := ResumeStep(strategy, s, id, hoursHeld);
    if id in next.checks && next.checks[id].stage.Selling? {
      BeginOnCourse(strategy, s, id, next.checks[id].stage.exit, other, profit);
    }
  }

  lemma ReportOnCourse(strategy: Strategy, s: State, id: nat, succeeded: bool, other: nat, profit: real)
    requires id in s.checks && s.checks[id].stage.Selling? && OnCourse(strategy, s, other, profit)
    ensures OnCourse(strategy, Report(s, id, succeeded), other, profit)
  {
    hide StopLosses;
    var c := s.checks[id];
    StopLossesAppend(s.events, Event(if succeeded then Executed else Failed, id, c.mint, c.stage.exit), other);
  }

  lemma HitOnCourse(strategy: Strategy, s: State, id: nat, other: nat, profit: real)
    requires id in s.checks && s.checks[id].stage.Sold? && Sound(strategy, s.exitStates, s.checks[id])
    requires OnCourse(strategy, s, other, profit)
    ensures OnCourse(strategy, Hit(strategy, s, id), other, profit)
  {
    hide StopLosses, CountHit, Marked;
  }

  lemma StepOnCourse(strategy: Strategy, s: State, a: Action, id: nat, profit: real)
    requires Tracked(strategy, s) && id < s.nextId && OnCourse(strategy, s, id, profit)
    ensures OnCourse(strategy, Step(strategy, s, a), id, profit)
  {
    hide OnCourse, Scan, Hit, Report, ResumeStep;
    if Enabled(s, a) {
      match a
      case Observe(mint, price, entryPrice) =>
        if price.Some? {
          NoteOnCourse(strategy, s, mint, price.value, entryPrice, id, profit);
          ScanOnCourse(strategy, Note(s, mint, price.value, entryPrice), s.nextId, id, profit);
        }
      case Resume(other, hoursHeld) => ResumeOnCourse(strategy, s, other, hoursHeld, id, profit);
      case SellSettled(other, succeeded) => ReportOnCourse(strategy, s, other, succeeded, id, profit);
      case Return(other) => ReturnOnCourse(strategy, s, other, id, profit);
    }
  }

  lemma ReturnOnCourse(strategy: Strategy, s: State, id: nat, other: nat, profit: real)
    requires id in s.checks && s.checks[id].stage.Sold? && Sound(strategy, s.exitStates, s.checks[id])
    requires OnCourse(strategy, s, other, profit)
    ensures OnCourse(strategy, ReturnStep(strategy, s, id), other, profit)
  {
    hide OnCourse, Scan;
    HitOnCourse(strategy, s, id, other, profit);
    if s.checks[id].stage.exit.TakeProfit? {
      ScanOnCourse(strategy, Hit(strategy, s, id), id, other, profit);
    }
  }

  lemma NoteOnCourse(
    strategy: Strategy, s: State, mint: Mint, price: Price, entryPrice: Price, other: nat, profit: real
  )
    requires other < s.nextId && OnCourse(strategy, s, other, profit)
    ensures OnCourse(strategy, Note(s, mint, price, entryPrice), other, profit)
  {
    hide StopLosses, SoldAt;
  }

  lemma NewOnCourse(strategy: Strategy, s: State, mint: Mint, price: Price, entryPrice: Price)
    requires StopLosses(s.events, s.nextId) == 0
    ensures OnCourse(strategy, Note(s, mint, price, entryPrice), s.nextId, ProfitPercent(price, entryPrice))
  {
    hide StopLosses, ProfitPercent;
  }

  //
  // Over a whole run
  //

  /** Events are of checks that have begun. */
  ghost predicate Begun(s: State) {
    forall e :: e in s.events ==> e.id < s.nextId
  }

  lemma StepKeepsBegun(strategy: Strategy, s: State, a: Action)
    requires Tracked(strategy, s) && Begun(s)
    ensures Begun(Step(strategy, s, a))
    ensures Step(strategy, s, a).nextId == s.nextId + (if HasPrice(a) then 1 else 0)
  {
    hide NextTarget, TrailingFires, Noted, CountHit, ProfitPercent;
  }

  lemma {:induction false} NotBegun(events: seq<Event>, id: nat)
    requires forall e :: e in events ==> e.id < id
    ensures StopLosses(events, id) == 0
    decreases |events|
  {
    if events != [] {
      NotBegun(events[..|events| - 1], id);
    }
  }

  lemma {:induction false} EveryCheckOnCourse(strategy: Strategy, actions: seq<Action>, id: nat)
    ensures var s := Run(strategy, actions);
            && Begun(s) && s.nextId == ObservationCount(actions)
            && (id < s.nextId <==> ProfitOf(actions, id).Some?)
            && (id < s.nextId ==> OnCourse(strategy, s, id, ProfitOf(actions, id).value))
    decreases |actions|
  {
    hide Step, Tracked, OnCourse, Begun;
    if actions == [] {
      assert Begun(INITIAL) by {
        NoneBegun();
      }
    } else {
      var before, a := actions[..|actions| - 1], actions[|actions| - 1];
      var s := Run(strategy, before);
      EveryCheckOnCourse(strategy, before, id);
      StepKeepsBegun(strategy, s, a);
      if id < s.nextId {
        StepOnCourse(strategy, s, a, id, ProfitOf(before, id).value);
      } else if HasPrice(a) && id == s.nextId {
        FirstStepOnCourse(strategy, s, a);
      }
    }
  }

  lemma NoneBegun()
    ensures Begun(INITIAL)
  {
  }

  lemma FirstStepOnCourse(strategy: Strategy, s: State, a: Action)
    requires Tracked(strategy, s) && Begun(s) && HasPrice(a)
    ensures OnCourse(strategy, Step(strategy, s, a), s.nextId, ObservedProfit(a))
  {
    hide OnCourse, Scan, StopLosses;
    NotBegun(s.events, s.nextId);
    NewOnCourse(strategy, s, a.mint, a.price.value, a.entryPrice);
    ScanOnCourse(strategy, Note(s, a.mint, a.price.value, a.entryPrice), s.nextId, s.nextId, ObservedProfit(a));
  }

  /**
    Every check that has ended has sold for the stop loss exactly once if the profit it observed was at the
    stop-loss level or below, and never otherwise - whatever other checks did in between, and although the
    position may have been sold for a take profit before.
   */
  lemma StopLossOncePerCheck(strategy: Strategy, actions: seq<Action>, id: nat)
    requires id < Run(strategy, actions).nextId && id !in Run(strategy, actions).checks
    ensures ProfitOf(actions, id).Some?
    ensures StopLosses(Run(strategy, actions).events, id)
         == if ProfitOf(actions, id).value <= strategy.stopLossPercent then 1 else 0
  {
    hide Run, StopLosses;
    EveryCheckOnCourse(strategy, actions, id);
  }
}
