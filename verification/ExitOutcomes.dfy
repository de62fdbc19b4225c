/**
  What the result of a sell changes. The exit manager marks a level when its sell has ended, whichever way
  it ended.
 */
module ExitOutcomes {
  import opened Wrappers
  import opened Positions
  import opened PositionLedger
  import opened Exits
  import opened ExitHistory

  //
  // The course of a run whose sells all fail
  //

  function Failing(a: Action): Action {
    if a.SellSettled? then SellSettled(a.id, false) else a
  }

  function AllFailing(actions: seq<Action>): (failing: seq<Action>)
    ensures |failing| == |actions|
    decreases |actions|
  {
    if actions == [] then []
    else AllFailing(actions[..|actions| - 1]) + [Failing(actions[|actions| - 1])]
  }

  predicate SameCourse(s: State, t: State) {
    s.exitStates == t.exitStates && s.checks == t.checks && s.nextId == t.nextId
  }

  lemma ScanSameCourse(strategy: Strategy, s: State, t: State, id: nat)
    requires id in s.checks && s.checks[id].stage.Scanning? && Sound(strategy, s.exitStates, s.checks[id])
    requires SameCourse(s, t)
    ensures SameCourse(Scan(strategy, s, id), Scan(strategy, t, id))
  {
    hide NextTarget;
  }

  lemma ReturnSameCourse(strategy: Strategy, s: State, t: State, id: nat)
    requires id in s.checks && s.checks[id].stage.Sold? && Sound(strategy, s.exitStates, s.checks[id])
    requires SameCourse(s, t)
    ensures SameCourse(ReturnStep(strategy, s, id), ReturnStep(strategy, t, id))
  {
    hide Scan, CountHit;
    if s.checks[id].stage.exit.TakeProfit? {
      ScanSameCourse(strategy, Hit(strategy, s, id), Hit(strategy, t, id), id);
    }
  }

  lemma StepSameCourse(strategy: Strategy, s: State, t: State, a: Action)
    requires Tracked(strategy, s) && Tracked(strategy, t) && SameCourse(s, t)
    ensures SameCourse(Step(strategy, s, a), Step(strategy, t, Failing(a)))
  {
    hide Scan, ReturnStep, TrailingFires, ProfitPercent;
    if Enabled(s, a) {
      match a
      case Observe(mint, price, entryPrice) =>
        if price.Some? {
          ScanSameCourse(strategy, Note(s, mint, price.value, entryPrice), Note(t, mint, price.value, entryPrice),
                         s.nextId);
        }
      case Resume(id, hoursHeld) =>
      case SellSettled(id, succeeded) =>
      case Return(id) => ReturnSameCourse(strategy, s, t, id);
    }
  }

  /**
    A level counts as executed whether or not its sell succeeded: had every sell of a run failed, the
    hit levels, high-water marks and checks would be the same, and no level would be tried again.
   */
  lemma {:induction false} OutcomesDoNotMatter(strategy: Strategy, actions: seq<Action>)
    ensures SameCourse(Run(strategy, actions), Run(strategy, AllFailing(actions)))
    decreases |actions|
  {
    hide Step, SameCourse, Tracked;
    if actions == [] {
      assert AllFailing(actions) == actions;
      SameAsItself(Run(strategy, actions));
    } else {
      var before, last, failing := actions[..|actions| - 1], actions[|actions| - 1], AllFailing(actions);
      OutcomesDoNotMatter(strategy, before);
      assert failing[..|failing| - 1] == AllFailing(before) && failing[|failing| - 1] == Failing(last);
      StepSameCourse(strategy, Run(strategy, before), Run(strategy, AllFailing(before)), last);
    }
  }

  lemma SameAsItself(s: State)
    ensures SameCourse(s, s)
  {
  }

  //
  // The outcomes of the sells for a level
  //

  /** How often a sell for this level has ended in this way. */
  function OutcomeCount(strategy: Strategy, events: seq<Event>, kind: EventKind, mint: Mint, level: real): nat
    decreases |events|
  {
    if events == [] then 0
    else
      OutcomeCount(strategy, events[..|events| - 1], kind, mint, level)
      + (if IsOutcome(strategy, events[|events| - 1], kind, mint, level) then 1 else 0)
  }

  predicate IsOutcome(strategy: Strategy, e: Event, kind: EventKind, mint: Mint, level: real) {
    e.kind == kind && e.mint == mint && IsLevel(strategy, e.exit, level)
  }

  lemma OutcomeCountAppend(
    strategy: Strategy, events: seq<Event>, e: Event, kind: EventKind, mint: Mint, level: real
  )
    ensures OutcomeCount(strategy, events + [e], kind, mint, level)
         == OutcomeCount(strategy, events, kind, mint, level)
          + (if IsOutcome(strategy, e, kind, mint, level) then 1 else 0)
  {
    assert (events + [e])[..|events|] == events;
  }

  predicate AwaitsSell(strategy: Strategy, c: Check, mint: Mint, level: real) {
    c.mint == mint && c.stage.Selling? && IsLevel(strategy, c.stage.exit, level)
  }

  function AwaiterOf(strategy: Strategy, mint: Mint, level: real): Check -> bool {
    (c: Check) => AwaitsSell(strategy, c, mint, level)
  }

  /** Checks that await a sell for this level. */
  ghost function Awaiting(strategy: Strategy, s: State, mint: Mint, level: real): set<nat> {
    Ids(s.checks, AwaiterOf(strategy, mint, level))
  }

  /** Every sell that was begun for the level is under way, was executed or has failed. */
  ghost predicate LevelBalance(strategy: Strategy, s: State, mint: Mint, level: real) {
    FireCount(strategy, s.events, mint, level)
      == OutcomeCount(strategy, s.events, Executed, mint, level)
       + OutcomeCount(strategy, s.events, Failed, mint, level)
       + |Awaiting(strategy, s, mint, level)|
  }

  lemma LevelPut(strategy: Strategy, s: State, next: State, id: nat, c: Check, mint: Mint, level: real)
    requires LevelBalance(strategy, s, mint, level) && next.events == s.events && next.checks == s.checks[id := c]
    requires !c.stage.Selling? && (id in s.checks ==> !s.checks[id].stage.Selling?)
    ensures LevelBalance(strategy, next, mint, level)
  {
    hide FireCount, OutcomeCount, Ids;
    IdsAfterPut(s.checks, id, c, AwaiterOf(strategy, mint, level));
  }

  lemma LevelDrop(strategy: Strategy, s: State, next: State, id: nat, mint: Mint, level: real)
    requires LevelBalance(strategy, s, mint, level) && next.events == s.events && next.checks == s.checks - {id}
    requires id in s.checks ==> !s.checks[id].stage.Selling?
    ensures LevelBalance(strategy, next, mint, level)
  {
    hide FireCount, OutcomeCount, Ids;
    IdsAfterDrop(s.checks, id, AwaiterOf(strategy, mint, level));
  }

  lemma LevelBegin(strategy: Strategy, s: State, id: nat, exit: Exit, mint: Mint, level: real)
    requires id in s.checks && !s.checks[id].stage.Selling? && LevelBalance(strategy, s, mint, level)
    ensures LevelBalance(strategy, SellBegun(s, id, exit), mint, level)
  {
    hide FireCount, OutcomeCount, Ids;
    var c := s.checks[id];
    var e := Event(Triggered, id, c.mint, exit);
    IdsAfterPut(s.checks, id, c.(stage := Selling(exit)), AwaiterOf(strategy, mint, level));
    FireCountAppend(strategy, s.events, e, mint, level);
    OutcomeCountAppend(strategy, s.events, e, Executed, mint, level);
    OutcomeCountAppend(strategy, s.events, e, Failed, mint, level);
  }

  lemma LevelReport(strategy: Strategy, s: State, id: nat, succeeded: bool, mint: Mint, level: real)
    requires id in s.checks && s.checks[id].stage.Selling? && LevelBalance(strategy, s, mint, level)
    ensures LevelBalance(strategy, Report(s, id, succeeded), mint, level)
  {
    hide FireCount, OutcomeCount, Ids;
    var c, next := s.checks[id], Report(s, id, succeeded);
    var e := Event(if succeeded then Executed else Failed, id, c.mint, c.stage.exit);
    FireCountAppend(strategy, s.events, e, mint, level);
    OutcomeCountAppend(strategy, s.events, e, Executed, mint, level);
    OutcomeCountAppend(strategy, s.events, e, Failed, mint, level);
    IdsAfterPut(s.checks, id, next.checks[id], AwaiterOf(strategy, mint, level));
  }

  lemma LevelHit(strategy: Strategy, s: State, id: nat, mint: Mint, level: real)
    requires id in s.checks && s.checks[id].stage.Sold? && Sound(strategy, s.exitStates, s.checks[id])
    requires LevelBalance(strategy, s, mint, level)
    ensures LevelBalance(strategy, Hit(strategy, s, id), mint, level)
  {
    hide LevelBalance, CountHit, Marked;
    var next := Hit(strategy, s, id);
    if id in next.checks {
      LevelPut(strategy, s, next, id, next.checks[id], mint, level);
    } else {
      LevelDrop(strategy, s, next, id, mint, level);
    }
  }

  lemma LevelScan(strategy: Strategy, s: State, id: nat, mint: Mint, level: real)
    requires id in s.checks && s.checks[id].stage.Scanning? && Sound(strategy, s.exitStates, s.checks[id])
    requires LevelBalance(strategy, s, mint, level)
    ensures LevelBalance(strategy, Scan(strategy, s, id), mint, level)
  {
    hide LevelBalance, SellBegun;
    var c := s.checks[id];
    var i := NextTarget(strategy.targets, s.exitStates[c.mint].tpHit, c.profitPercent, c.stage.from);
    if i < |strategy.targets| {
      LevelBegin(strategy, s, id, TakeProfit(i), mint, level);
    } else {
      LevelPut(strategy, s, MovedTo(s, id, AtStopLoss), id, c.(stage := AtStopLoss), mint, level);
    }
  }

  lemma LevelResume(strategy: Strategy, s: State, id: nat, hoursHeld: real, mint: Mint, level: real)
    requires id in s.checks && Sound(strategy, s.exitStates, s.checks[id])
    requires s.checks[id].stage in {AtStopLoss, AtTimeLimit, AtTrailing} && LevelBalance(strategy, s, mint, level)
    ensures LevelBalance(strategy, ResumeStep(strategy, s, id, hoursHeld), mint, level)
  {
    hide LevelBalance, TrailingFires;
    var next := ResumeStep(strategy, s, id, hoursHeld);
    if id !in next.checks {
      LevelDrop(strategy, s, next, id, mint, level);
    } else if next.checks[id].stage.Selling? {
      LevelBegin(strategy, s, id, next.checks[id].stage.exit, mint, level);
    } else {
      LevelPut(strategy, s, next, id, next.checks[id], mint, level);
    }
  }

  lemma LevelStep(strategy: Strategy, s: State, a: Action, mint: Mint, level: real)
    requires Tracked(strategy, s) && LevelBalance(strategy, s, mint, level)
    ensures LevelBalance(strategy, Step(strategy, s, a), mint, level)
  {
    hide LevelBalance, Scan, ResumeStep, CountHit;
    if Enabled(s, a) {
      match a
      case Observe(m, price, entryPrice) =>
        if price.Some? {
          var noted := Note(s, m, price.value, entryPrice);
          LevelPut(strategy, s, noted, s.nextId, noted.checks[s.nextId], mint, level);
          LevelScan(strategy, noted, s.nextId, mint, level);
        }
      case Resume(id, hoursHeld) => LevelResume(strategy, s, id, hoursHeld, mint, level);
      case SellSettled(id, succeeded) => LevelReport(strategy, s, id, succeeded, mint, level);
      case Return(id) =>
        LevelHit(strategy, s, id, mint, level);
        if s.checks[id].stage.exit.TakeProfit? {
          LevelScan(strategy, Hit(strategy, s, id), id, mint, level);
        }
    }
  }

  lemma NoLevels(strategy: Strategy, s: State, mint: Mint, level: real)
    requires s.checks == map[] && s.events == []
    ensures LevelBalance(strategy, s, mint, level)
  {
    assert Awaiting(strategy, s, mint, level) == {};
  }

  lemma {:induction false} LevelAlwaysBalances(strategy: Strategy, actions: seq<Action>, mint: Mint, level: real)
    ensures LevelBalance(strategy, Run(strategy, actions), mint, level)
    decreases |actions|
  {
    hide Step, Tracked, LevelBalance;
    if actions == [] {
      NoLevels(strategy, INITIAL, mint, level);
    } else {
      LevelAlwaysBalances(strategy, actions[..|actions| - 1], mint, level);
      LevelStep(strategy, Run(strategy, actions[..|actions| - 1]), actions[|actions| - 1], mint, level);
    }
  }

  //
  // When hit levels have been executed
  //

  predicate OutcomesIn(actions: seq<Action>, outcomes: set<bool>) {
    forall a :: a in actions && a.SellSettled? ==> a.succeeded in outcomes
  }

  ghost function Executions(strategy: Strategy, s: State, mint: Mint, level: real): nat {
    OutcomeCount(strategy, s.events, Executed, mint, level)
  }

  predicate HasSold(strategy: Strategy, c: Check, mint: Mint, level: real) {
    c.mint == mint && c.stage.Sold? && IsLevel(strategy, c.stage.exit, level)
  }

  /** A level that is hit, or is about to be, has been executed. */
  ghost predicate Backed(strategy: Strategy, s: State, mint: Mint, level: real) {
    || Executions(strategy, s, mint, level) > 0
    || (level !in HitOf(s, mint) && forall id :: id in s.checks ==> !HasSold(strategy, s.checks[id], mint, level))
  }

  lemma MoreEvents(strategy: Strategy, events: seq<Event>, e: Event, mint: Mint, level: real)
    ensures OutcomeCount(strategy, events + [e], Executed, mint, level)
         >= OutcomeCount(strategy, events, Executed, mint, level)
  {
    OutcomeCountAppend(strategy, events, e, Executed, mint, level);
  }

  lemma ScanBacked(strategy: Strategy, s: State, id: nat, mint: Mint, level: real)
    requires id in s.checks && s.checks[id].stage.Scanning? && Sound(strategy, s.exitStates, s.checks[id])
    requires Backed(strategy, s, mint, level)
    ensures Backed(strategy, Scan(strategy, s, id), mint, level)
  {
    hide OutcomeCount, NextTarget;
    var next := Scan(strategy, s, id);
    if next.events != s.events {
      MoreEvents(strategy, s.events, next.events[|s.events|], mint, level);
    }
  }

  lemma ResumeBacked(strategy: Strategy, s: State, id: nat, hoursHeld: real, mint: Mint, level: real)
    requires id in s.checks && Sound(strategy, s.exitStates, s.checks[id])
    requires s.checks[id].stage in {AtStopLoss, AtTimeLimit, AtTrailing} && Backed(strategy, s, mint, level)
    ensures Backed(strategy, ResumeStep(strategy, s, id, hoursHeld), mint, level)
  {
    hide OutcomeCount, TrailingFires;
    var next := ResumeStep(strategy, s, id, hoursHeld);
    if next.events != s.events {
      MoreEvents(strategy, s.events, next.events[|s.events|], mint, level);
    }
  }

  lemma ReportBacked(strategy: Strategy, s: State, id: nat, mint: Mint, level: real)
    requires id in s.checks && s.checks[id].stage.Selling? && Backed(strategy, s, mint, level)
    ensures Backed(strategy, Report(s, id, true), mint, level)
  {
    hide OutcomeCount;
    var c := s.checks[id];
    OutcomeCountAppend(strategy, s.events, Event(Executed, id, c.mint, c.stage.exit), Executed, mint, level);
  }

  lemma HitBacked(strategy: Strategy, s: State, id: nat, mint: Mint, level: real)
    requires id in s.checks && s.checks[id].stage.Sold? && Sound(strategy, s.exitStates, s.checks[id])
    requires Backed(strategy, s, mint, level)
    ensures Backed(strategy, Hit(strategy, s, id), mint, level)
  {
    hide OutcomeCount, CountHit;
    assert HasSold(strategy, s.checks[id], mint, level) ==> Executions(strategy, s, mint, level) > 0;
  }

  lemma StepBacked(strategy: Strategy, s: State, a: Action, mint: Mint, level: real)
    requires Tracked(strategy, s) && Backed(strategy, s, mint, level) && OutcomesIn([a], {true})
    ensures Backed(strategy, Step(strategy, s, a), mint, level)
  {
    hide Scan, ResumeStep, Hit, OutcomeCount, ProfitPercent;
    if Enabled(s, a) {
      match a
      case Observe(m, price, entryPrice) =>
        if price.Some? {
          ScanBacked(strategy, Note(s, m, price.value, entryPrice), s.nextId, mint, level);
        }
      case Resume(id, hoursHeld) => ResumeBacked(strategy, s, id, hoursHeld, mint, level);
      case SellSettled(id, succeeded) =>
        assert a in [a];
        ReportBacked(strategy, s, id, mint, level);
      case Return(id) => ReturnBacked(strategy, s, id, mint, level);
    }
  }

  lemma ReturnBacked(strategy: Strategy, s: State, id: nat, mint: Mint, level: real)
    requires id in s.checks && s.checks[id].stage.Sold? && Sound(strategy, s.exitStates, s.checks[id])
    requires Backed(strategy, s, mint, level)
    ensures Backed(strategy, ReturnStep(strategy, s, id), mint, level)
  {
    hide Scan, Backed, CountHit;
    HitBacked(strategy, s, id, mint, level);
    if s.checks[id].stage.exit.TakeProfit? {
      ScanBacked(strategy, Hit(strategy, s, id), id, mint, level);
    }
  }

  lemma {:induction false} RunBacked(strategy: Strategy, actions: seq<Action>, mint: Mint, level: real)
    requires OutcomesIn(actions, {true})
    ensures Backed(strategy, Run(strategy, actions), mint, level)
    decreases |actions|
  {
    hide Step, Tracked, OutcomeCount;
    if actions == [] {
    } else {
      var before, a := actions[..|actions| - 1], actions[|actions| - 1];
      assert actions == before + [a];
      RunBacked(strategy, before, mint, level);
      StepBacked(strategy, Run(strategy, before), a, mint, level);
    }
  }

  /** The level is hit, but no sell for it was ever executed. */
  ghost predicate HitUnexecuted(strategy: Strategy, s: State, mint: Mint, level: real) {
    level in HitOf(s, mint) && Executions(strategy, s, mint, level) == 0
  }

  /** One check whose only sell fails: its level counts as executed from then on. */
  lemma FailedSellHits(strategy: Strategy, mint: Mint, price: Price, entryPrice: Price) returns (actions: seq<Action>)
    requires NextTarget(strategy.targets, {}, ProfitPercent(price, entryPrice), 0) < |strategy.targets|
    ensures var j := NextTarget(strategy.targets, {}, ProfitPercent(price, entryPrice), 0);
            HitUnexecuted(strategy, Run(strategy, actions), mint, strategy.targets[j].profitPercent)
    ensures actions == [Observe(mint, Some(price), entryPrice), SellSettled(0, false), Return(0)]
  {
    hide NextTarget, ProfitPercent, Run, OutcomeCount, Step;
    var observe, settle := Observe(mint, Some(price), entryPrice), SellSettled(0, false);
    RunAppend(strategy, [], observe);
    RunAppend(strategy, [observe], settle);
    RunAppend(strategy, [observe, settle], Return(0));
    actions := [observe, settle, Return(0)];
    assert [] + [observe] == [observe] && [observe] + [settle] == [observe, settle];
    assert [observe, settle] + [Return(0)] == actions;
    NoActions(strategy);
    var j := NextTarget(strategy.targets, {}, ProfitPercent(price, entryPrice), 0);
    FirstSells(strategy, mint, price, entryPrice, j);
    var s := Run(strategy, [observe]);
    SettleFails(strategy, s, 0);
    ReturnHits(strategy, Run(strategy, [observe, settle]), mint, j);
  }

  lemma FirstSells(strategy: Strategy, mint: Mint, price: Price, entryPrice: Price, j: nat)
    requires j == NextTarget(strategy.targets, {}, ProfitPercent(price, entryPrice), 0) < |strategy.targets|
    ensures var next := Step(strategy, INITIAL, Observe(mint, Some(price), entryPrice));
            && next.checks == map[0 := Check(mint, price, ProfitPercent(price, entryPrice), Selling(TakeProfit(j)))]
            && next.events == [Event(Triggered, 0, mint, TakeProfit(j))]
            && next.exitStates == map[mint := ExitState({}, price)]
  {
    hide NextTarget, ProfitPercent;
  }

  lemma SettleFails(strategy: Strategy, s: State, id: nat)
    requires Tracked(strategy, s) && id in s.checks && s.checks[id].stage.Selling?
    ensures var c, next := s.checks[id], Step(strategy, s, SellSettled(id, false));
            && next.checks == s.checks[id := c.(stage := Sold(c.stage.exit))]
            && next.events == s.events + [Event(Failed, id, c.mint, c.stage.exit)]
            && next.exitStates == s.exitStates
  {
  }

  lemma ReturnHits(strategy: Strategy, s: State, mint: Mint, j: nat)
    requires Tracked(strategy, s) && 0 in s.checks && s.checks[0].mint == mint
    requires s.checks[0].stage == Sold(TakeProfit(j)) && j < |strategy.targets|
    requires forall e :: e in s.events ==> e.kind != Executed
    ensures HitUnexecuted(strategy, Step(strategy, s, Return(0)), mint, strategy.targets[j].profitPercent)
  {
    hide NextTarget, OutcomeCount, CountHit;
    var next := Step(strategy, s, Return(0));
    assert forall e :: e in next.events ==> e.kind != Executed;
    NoneExecuted(strategy, next.events, mint, strategy.targets[j].profitPercent);
  }

  lemma {:induction false} NoneExecuted(strategy: Strategy, events: seq<Event>, mint: Mint, level: real)
    requires forall e :: e in events ==> e.kind != Executed
    ensures OutcomeCount(strategy, events, Executed, mint, level) == 0
    decreases |events|
  {
    if events != [] {
      NoneExecuted(strategy, events[..|events| - 1], mint, level);
    }
  }

  /** Every level that is hit has been executed at least once. */
  ghost predicate HitsExecuted(strategy: Strategy, s: State) {
    forall mint, level :: level in HitOf(s, mint) ==> Executions(strategy, s, mint, level) > 0
  }

  /** A price at which the first target fires, for a position entered at 1. */
  lemma FiringPrice(strategy: Strategy) returns (price: Price)
    requires strategy.targets != []
    ensures NextTarget(strategy.targets, {}, ProfitPercent(price, 1.0), 0) == 0
  {
    var level := strategy.targets[0].profitPercent;
    price := if level < 0.0 then 1.0 else 1.0 + level / 100.0;
    assert price / 1.0 == price;
    assert ProfitPercent(price, 1.0) == (price - 1.0) * 100.0;
  }

  /**
    Exactly which outcomes of sells let the marked levels be the executed ones in every run: those without
    a failure, unless there is nothing to mark.
   */
  lemma HitsExecutedIff(strategy: Strategy, outcomes: set<bool>)
    ensures (forall actions :: OutcomesIn(actions, outcomes) ==> HitsExecuted(strategy, Run(strategy, actions)))
       <==> false !in outcomes || strategy.targets == []
  {
    hide Run, NextTarget, ProfitPercent, OutcomeCount;
    if strategy.targets == [] {
      forall actions ensures HitsExecuted(strategy, Run(strategy, actions)) {
        NothingToHit(strategy, actions);
      }
    } else if false in outcomes {
      var price := FiringPrice(strategy);
      var actions := FailedSellHits(strategy, "", price, 1.0);
      assert OutcomesIn(actions, outcomes);
      assert !HitsExecuted(strategy, Run(strategy, actions));
    } else {
      forall actions | OutcomesIn(actions, outcomes)
        ensures HitsExecuted(strategy, Run(strategy, actions))
      {
        forall mint, level | level in HitOf(Run(strategy, actions), mint)
          ensures Executions(strategy, Run(strategy, actions), mint, level) > 0
        {
          RunBacked(strategy, actions, mint, level);
        }
      }
    }
  }

  lemma NothingToHit(strategy: Strategy, actions: seq<Action>)
    requires strategy.targets == []
    ensures forall mint :: HitOf(Run(strategy, actions), mint) == {}
  {
    hide Run, Reached, HitOf;
    forall mint ensures HitOf(Run(strategy, actions), mint) == {} {
      var hit := HitOf(Run(strategy, actions), mint);
      HitsAreLevelsReached(strategy, actions, mint);
      assert forall level :: !Configured(strategy, level);
      assert forall level :: level !in hit;
    }
  }
}
