/**
  How much one check of a position tries to sell: over every interleaving, and exactly which strategies
  never try to sell more than there is.
 */
module ExitPercents {
  import opened Wrappers
  import opened Positions
  import opened PositionLedger
  import opened Exits
  import opened ExitHistory
  import opened ExitCourse
  import opened ExitSells

  //
  // The percentages that a check tries to sell
  //

  function PercentOf(strategy: Strategy, exit: Exit): int {
    if exit.TakeProfit? then
      if exit.index < |strategy.targets| then strategy.targets[exit.index].sellPercent else 0
    else 100
  }

  /** The percentages of all sells that the check has begun, added up. */
  function Attempted(strategy: Strategy, events: seq<Event>, id: nat): int
    decreases |events|
  {
    if events == [] then 0
    else
      var last := events[|events| - 1];
      Attempted(strategy, events[..|events| - 1], id)
      + (if last.kind == Triggered && last.id == id then PercentOf(strategy, last.exit) else 0)
  }

  /** The percentages of the first k targets, each as often as the check has fired it. */
  function TargetPercents(strategy: Strategy, events: seq<Event>, id: nat, k: nat): int
    requires k <= |strategy.targets|
  {
    if k == 0 then 0
    else
      TargetPercents(strategy, events, id, k - 1)
      + Begins(events, id, TakeProfit(k - 1)) * strategy.targets[k - 1].sellPercent
  }

  lemma {:induction false} TargetPercentsAppend(strategy: Strategy, events: seq<Event>, e: Event, id: nat, k: nat)
    requires k <= |strategy.targets|
    ensures TargetPercents(strategy, events + [e], id, k)
         == TargetPercents(strategy, events, id, k)
          + (if e.kind == Triggered && e.id == id && e.exit.TakeProfit? && e.exit.index < k
             then strategy.targets[e.exit.index].sellPercent else 0)
  {
    hide Begins;
    if k > 0 {
      TargetPercentsAppend(strategy, events, e, id, k - 1);
      BeginsAppend(events, e, id, TakeProfit(k - 1));
      var n, percent := Begins(events, id, TakeProfit(k - 1)), strategy.targets[k - 1].sellPercent;
      assert (n + 1) * percent == n * percent + percent;
    }
  }

  lemma {:induction false} NoTargetPercents(strategy: Strategy, id: nat, k: nat)
    requires k <= |strategy.targets|
    ensures TargetPercents(strategy, [], id, k) == 0
  {
    if k > 0 {
      NoTargetPercents(strategy, id, k - 1);
    }
  }

  /** What a check tries to sell: the percentages of the targets that it fired, and 100 for each full exit. */
  lemma {:induction false} AttemptedIs(strategy: Strategy, events: seq<Event>, id: nat)
    ensures Attempted(strategy, events, id)
         == TargetPercents(strategy, events, id, |strategy.targets|) + 100 * FullSells(events, id)
    decreases |events|
  {
    if events == [] {
      NoTargetPercents(strategy, id, |strategy.targets|);
    } else {
      hide Begins, TargetPercents;
      var before, last := events[..|events| - 1], events[|events| - 1];
      assert events == before + [last];
      AttemptedIs(strategy, before, id);
      TargetPercentsAppend(strategy, before, last, id, |strategy.targets|);
      BeginsAppend(before, last, id, StopLoss);
      BeginsAppend(before, last, id, TimeLimit);
      BeginsAppend(before, last, id, TrailingStop);
    }
  }

  //
  // Which targets a check fires
  //

  /** No target before this one has its level. */
  predicate First(strategy: Strategy, j: nat)
    requires j < |strategy.targets|
  {
    forall i :: 0 <= i < j ==> strategy.targets[i].profitPercent != strategy.targets[j].profitPercent
  }

  /** The targets that a check has behind it; the one that it is selling for is not. */
  function Behind(strategy: Strategy, stage: Stage): nat {
    match stage
    case Scanning(from) => from
    case Selling(TakeProfit(i)) => i
    case Sold(TakeProfit(i)) => i
    case _ => |strategy.targets|
  }

  predicate MustBeHit(strategy: Strategy, c: Check, j: nat)
    requires j < |strategy.targets|
  {
    j < Behind(strategy, c.stage) && c.profitPercent >= strategy.targets[j].profitPercent
  }

  /** What is behind a check is hit, if its profit was high enough. */
  ghost predicate Passed(strategy: Strategy, s: State, c: Check) {
    forall j :: 0 <= j < |strategy.targets| && MustBeHit(strategy, c, j) ==>
      strategy.targets[j].profitPercent in HitOf(s, c.mint)
  }

  ghost predicate AllPassed(strategy: Strategy, s: State) {
    forall id :: id in s.checks ==> Passed(strategy, s, s.checks[id])
  }

  predicate FiresFirst(strategy: Strategy, e: Event) {
    e.kind == Triggered && e.exit.TakeProfit? ==> e.exit.index < |strategy.targets| && First(strategy, e.exit.index)
  }

  /** Of several targets with one level, only the first is ever fired. */
  ghost predicate FirstsOnly(strategy: Strategy, s: State) {
    AllPassed(strategy, s) && forall e :: e in s.events ==> FiresFirst(strategy, e)
  }

  lemma ScanFirsts(strategy: Strategy, s: State, id: nat)
    requires id in s.checks && s.checks[id].stage.Scanning? && Sound(strategy, s.exitStates, s.checks[id])
    requires FirstsOnly(strategy, s)
    ensures FirstsOnly(strategy, Scan(strategy, s, id))
  {
    var c, next := s.checks[id], Scan(strategy, s, id);
    assert Passed(strategy, s, c);
    forall j | 0 <= j < |strategy.targets| && MustBeHit(strategy, next.checks[id], j)
      ensures strategy.targets[j].profitPercent in HitOf(s, c.mint)
    {
      if j < c.stage.from {
        assert MustBeHit(strategy, c, j);
      } else {
        assert !Fires(strategy.targets, HitOf(s, c.mint), c.profitPercent, j);
      }
    }
    if next.checks[id].stage.Selling? {
      ScannedFirst(strategy, s, c, next.checks[id].stage.exit.index);
    }
  }

  lemma ScannedFirst(strategy: Strategy, s: State, c: Check, i: nat)
    requires i < |strategy.targets| && Fires(strategy.targets, HitOf(s, c.mint), c.profitPercent, i)
    requires Passed(strategy, s, c.(stage := Selling(TakeProfit(i))))
    ensures First(strategy, i)
  {
    forall j | 0 <= j < i
      ensures strategy.targets[j].profitPercent != strategy.targets[i].profitPercent
    {
      assert strategy.targets[j].profitPercent == strategy.targets[i].profitPercent ==>
        MustBeHit(strategy, c.(stage := Selling(TakeProfit(i))), j);
    }
  }

  lemma ResumeFirsts(strategy: Strategy, s: State, id: nat, hoursHeld: real)
    requires id in s.checks && Sound(strategy, s.exitStates, s.checks[id])
    requires s.checks[id].stage in {AtStopLoss, AtTimeLimit, AtTrailing} && FirstsOnly(strategy, s)
    ensures FirstsOnly(strategy, ResumeStep(strategy, s, id, hoursHeld))
  {
    hide TrailingFires, First;
    assert Passed(strategy, s, s.checks[id]);
  }

  lemma ReportFirsts(strategy: Strategy, s: State, id: nat, succeeded: bool)
    requires id in s.checks && s.checks[id].stage.Selling? && FirstsOnly(strategy, s)
    ensures FirstsOnly(strategy, Report(s, id, succeeded))
  {
    hide First;
    assert Passed(strategy, s, s.checks[id]);
  }

  lemma HitFirsts(strategy: Strategy, s: State, id: nat)
    requires id in s.checks && s.checks[id].stage.Sold? && Sound(strategy, s.exitStates, s.checks[id])
    requires FirstsOnly(strategy, s)
    ensures FirstsOnly(strategy, Hit(strategy, s, id))
  {
    hide First, CountHit;
    assert Passed(strategy, s, s.checks[id]);
  }

  lemma NoteFirsts(strategy: Strategy, s: State, mint: Mint, price: Price, entryPrice: Price)
    requires FirstsOnly(strategy, s)
    ensures FirstsOnly(strategy, Note(s, mint, price, entryPrice))
  {
    hide FiresFirst, ProfitPercent;
  }

  lemma StepFirsts(strategy: Strategy, s: State, a: Action)
    requires Tracked(strategy, s) && FirstsOnly(strategy, s)
    ensures FirstsOnly(strategy, Step(strategy, s, a))
  {
    hide FirstsOnly, Scan, Hit, Report, ResumeStep;
    if Enabled(s, a) {
      match a
      case Observe(mint, price, entryPrice) =>
        if price.Some? {
          NoteFirsts(strategy, s, mint, price.value, entryPrice);
          ScanFirsts(strategy, Note(s, mint, price.value, entryPrice), s.nextId);
        }
      case Resume(id, hoursHeld) => ResumeFirsts(strategy, s, id, hoursHeld);
      case SellSettled(id, succeeded) => ReportFirsts(strategy, s, id, succeeded);
      case Return(id) => ReturnFirsts(strategy, s, id);
    }
  }

  lemma ReturnFirsts(strategy: Strategy, s: State, id: nat)
    requires id in s.checks && s.checks[id].stage.Sold? && Sound(strategy, s.exitStates, s.checks[id])
    requires FirstsOnly(strategy, s)
    ensures FirstsOnly(strategy, ReturnStep(strategy, s, id))
  {
    hide FirstsOnly, Scan;
    HitFirsts(strategy, s, id);
    if s.checks[id].stage.exit.TakeProfit? {
      ScanFirsts(strategy, Hit(strategy, s, id), id);
    }
  }

  lemma {:induction false} OnlyFirstsFire(strategy: Strategy, actions: seq<Action>)
    ensures FirstsOnly(strategy, Run(strategy, actions))
    decreases |actions|
  {
    if actions != [] {
      hide Step, Tracked, FirstsOnly;
      OnlyFirstsFire(strategy, actions[..|actions| - 1]);
      StepFirsts(strategy, Run(strategy, actions[..|actions| - 1]), actions[|actions| - 1]);
    }
  }

  //
  // The most that a check can try to sell
  //

  /** The percentages of the first k targets that a profit reaches, each level counted once. */
  function Fitting(strategy: Strategy, profit: real, k: nat): int
    requires k <= |strategy.targets|
  {
    if k == 0 then 0
    else
      Fitting(strategy, profit, k - 1)
      + (if First(strategy, k - 1) && profit >= strategy.targets[k - 1].profitPercent
         then strategy.targets[k - 1].sellPercent else 0)
  }

  /** The most that a check that observes this profit can try to sell, in percent. */
  function MostAt(strategy: Strategy, profit: real): int {
    Fitting(strategy, profit, |strategy.targets|) + 100 * FullAt(strategy, profit)
  }

  predicate SellsPortions(strategy: Strategy) {
    forall target :: target in strategy.targets ==> target.sellPercent >= 0
  }

  lemma {:induction false} BegunFires(strategy: Strategy, events: seq<Event>, id: nat, j: nat)
    requires Begins(events, id, TakeProfit(j)) > 0 && (forall e :: e in events ==> FiresFirst(strategy, e))
    ensures j < |strategy.targets| && First(strategy, j)
    decreases |events|
  {
    var last, before := events[|events| - 1], events[..|events| - 1];
    assert FiresFirst(strategy, last);
    if Begins(before, id, TakeProfit(j)) > 0 {
      BegunFires(strategy, before, id, j);
    }
  }

  lemma {:induction false} TargetsWithin(strategy: Strategy, actions: seq<Action>, id: nat, profit: real, k: nat)
    requires SellsPortions(strategy) && k <= |strategy.targets| && ProfitOf(actions, id) == Some(profit)
    ensures TargetPercents(strategy, Run(strategy, actions).events, id, k) <= Fitting(strategy, profit, k)
  {
    hide Run, ProfitOf, First;
    if k > 0 {
      TargetsWithin(strategy, actions, id, profit, k - 1);
      var events := Run(strategy, actions).events;
      assert strategy.targets[k - 1] in strategy.targets;
      EveryCheckOnCourse(strategy, actions, id);
      EachExitOnce(strategy, actions, id, TakeProfit(k - 1));
      OnlyFirstsFire(strategy, actions);
      if Begins(events, id, TakeProfit(k - 1)) > 0 {
        BegunFires(strategy, events, id, k - 1);
      }
    }
  }

  /** Over every interleaving: no check tries to sell more than its profit allows. */
  lemma AttemptedWithin(strategy: Strategy, actions: seq<Action>, id: nat)
    requires SellsPortions(strategy)
    ensures match ProfitOf(actions, id)
            case Some(profit) => Attempted(strategy, Run(strategy, actions).events, id) <= MostAt(strategy, profit)
            case None => Attempted(strategy, Run(strategy, actions).events, id) == 0
  {
    hide Run, ProfitOf, Fitting, FullSells;
    var events := Run(strategy, actions).events;
    AttemptedIs(strategy, events, id);
    FullSellsWithin(strategy, actions, id);
    match ProfitOf(actions, id)
    case Some(profit) => TargetsWithin(strategy, actions, id, profit, |strategy.targets|);
    case None =>
      EveryCheckOnCourse(strategy, actions, id);
      NothingFired(strategy, events, id, |strategy.targets|);
  }

  lemma {:induction false} NothingFired(strategy: Strategy, events: seq<Event>, id: nat, k: nat)
    requires k <= |strategy.targets| && forall e :: e in events ==> e.id < id
    ensures TargetPercents(strategy, events, id, k) == 0
  {
    if k > 0 {
      NothingFired(strategy, events, id, k - 1);
      NoneBegins(events, id, TakeProfit(k - 1));
    }
  }

  //
  // It is reached
  //

  /** This check has begun to sell for the level. */
  ghost predicate BegunFor(strategy: Strategy, s: State, id: nat, level: real) {
    exists j :: 0 <= j < |strategy.targets| && strategy.targets[j].profitPercent == level
             && Begins(s.events, id, TakeProfit(j)) > 0
  }

  ghost predicate OwnHits(strategy: Strategy, s: State, id: nat) {
    && (forall mint, level :: level in HitOf(s, mint) ==> BegunFor(strategy, s, id, level))
    && (id in s.checks && InSale(s.checks[id].stage) && s.checks[id].stage.exit.TakeProfit? ==>
          Begins(s.events, id, s.checks[id].stage.exit) > 0)
  }

  lemma BegunForAppend(strategy: Strategy, s: State, next: State, e: Event, id: nat, level: real)
    requires BegunFor(strategy, s, id, level) && next.events == s.events + [e]
    ensures BegunFor(strategy, next, id, level)
  {
    hide Begins;
    var j :| 0 <= j < |strategy.targets| && strategy.targets[j].profitPercent == level
          && Begins(s.events, id, TakeProfit(j)) > 0;
    BeginsAppend(s.events, e, id, TakeProfit(j));
  }

  /** Hits stay, and events are added. */
  lemma AppendOwn(strategy: Strategy, s: State, next: State, e: Event, id: nat)
    requires OwnHits(strategy, s, id) && next.events == s.events + [e] && next.exitStates == s.exitStates
    ensures forall mint, level :: level in HitOf(next, mint) ==> BegunFor(strategy, next, id, level)
  {
    hide BegunFor, Begins;
    forall mint, level | level in HitOf(next, mint)
      ensures BegunFor(strategy, next, id, level)
    {
      assert HitOf(s, mint) == HitOf(next, mint);
      BegunForAppend(strategy, s, next, e, id, level);
    }
  }

  lemma BeginOwn(strategy: Strategy, s: State, begun: nat, exit: Exit, id: nat)
    requires begun in s.checks && OwnHits(strategy, s, id)
    ensures OwnHits(strategy, SellBegun(s, begun, exit), id)
  {
    hide BegunFor, Begins;
    var e, next := Event(Triggered, begun, s.checks[begun].mint, exit), SellBegun(s, begun, exit);
    AppendOwn(strategy, s, next, e, id);
    if id in next.checks && InSale(next.checks[id].stage) && next.checks[id].stage.exit.TakeProfit? {
      BeginsAppend(s.events, e, id, next.checks[id].stage.exit);
    }
  }

  lemma MoveOwn(strategy: Strategy, s: State, next: State, id: nat)
    requires OwnHits(strategy, s, id) && next.events == s.events && forall mint :: HitOf(next, mint) == HitOf(s, mint)
    requires id in next.checks && InSale(next.checks[id].stage) ==> id in s.checks && s.checks[id] == next.checks[id]
    ensures OwnHits(strategy, next, id)
  {
    hide Begins;
    assert forall level :: BegunFor(strategy, next, id, level) == BegunFor(strategy, s, id, level);
  }

  lemma ScanOwn(strategy: Strategy, s: State, scanning: nat, id: nat)
    requires scanning in s.checks && s.checks[scanning].stage.Scanning?
    requires Sound(strategy, s.exitStates, s.checks[scanning]) && OwnHits(strategy, s, id)
    ensures OwnHits(strategy, Scan(strategy, s, scanning), id)
  {
    hide OwnHits, SellBegun;
    var next, c := Scan(strategy, s, scanning), s.checks[scanning];
    var i := NextTarget(strategy.targets, s.exitStates[c.mint].tpHit, c.profitPercent, c.stage.from);
    if i < |strategy.targets| {
      BeginOwn(strategy, s, scanning, TakeProfit(i), id);
    } else {
      MoveOwn(strategy, s, next, id);
    }
  }

  lemma ResumeOwn(strategy: Strategy, s: State, resumed: nat, hoursHeld: real, id: nat)
    requires resumed in s.checks && Sound(strategy, s.exitStates, s.checks[resumed])
    requires s.checks[resumed].stage in {AtStopLoss, AtTimeLimit, AtTrailing} && OwnHits(strategy, s, id)
    ensures OwnHits(strategy, ResumeStep(strategy, s, resumed, hoursHeld), id)
  {
    hide OwnHits, TrailingFires;
    var next := ResumeStep(strategy, s, resumed, hoursHeld);
    if resumed in next.checks && next.checks[resumed].stage.Selling? {
      BeginOwn(strategy, s, resumed, next.checks[resumed].stage.exit, id);
    } else {
      MoveOwn(strategy, s, next, id);
    }
  }

  lemma ReportOwn(strategy: Strategy, s: State, settled: nat, succeeded: bool, id: nat)
    requires settled in s.checks && s.checks[settled].stage.Selling? && OwnHits(strategy, s, id)
    ensures OwnHits(strategy, Report(s, settled, succeeded), id)
  {
    hide BegunFor, Begins;
    var next := Report(s, settled, succeeded);
    var e := next.events[|s.events|];
    AppendOwn(strategy, s, next, e, id);
    if id in next.checks && InSale(next.checks[id].stage) && next.checks[id].stage.exit.TakeProfit? {
      BeginsAppend(s.events, e, id, next.checks[id].stage.exit);
    }
  }

  lemma HitOwn(strategy: Strategy, s: State, id: nat)
    requires id in s.checks && s.checks[id].stage.Sold? && Sound(strategy, s.exitStates, s.checks[id])
    requires OwnHits(strategy, s, id)
    ensures OwnHits(strategy, Hit(strategy, s, id), id)
  {
    hide Begins, CountHit, BegunFor;
    var next, exit := Hit(strategy, s, id), s.checks[id].stage.exit;
    forall mint, level | level in HitOf(next, mint)
      ensures BegunFor(strategy, next, id, level)
    {
      if level !in HitOf(s, mint) {
        assert exit.TakeProfit? && level == strategy.targets[exit.index].profitPercent;
        SoldIsBegun(strategy, s, id, exit.index);
      }
      SameBegun(strategy, s, next, id, level);
    }
  }

  lemma SoldIsBegun(strategy: Strategy, s: State, id: nat, j: nat)
    requires j < |strategy.targets| && Begins(s.events, id, TakeProfit(j)) > 0
    ensures BegunFor(strategy, s, id, strategy.targets[j].profitPercent)
  {
    hide Begins;
  }

  lemma SameBegun(strategy: Strategy, s: State, next: State, id: nat, level: real)
    requires next.events == s.events
    ensures BegunFor(strategy, next, id, level) == BegunFor(strategy, s, id, level)
  {
    hide Begins;
  }

  lemma StepOwn(strategy: Strategy, s: State, a: Action, id: nat)
    requires Tracked(strategy, s) && OwnHits(strategy, s, id) && OnlyReturns([a], id)
    ensures OwnHits(strategy, Step(strategy, s, a), id)
  {
    hide OwnHits, Scan, Hit, Report, ResumeStep, ProfitPercent;
    if Enabled(s, a) {
      match a
      case Observe(mint, price, entryPrice) =>
        if price.Some? {
          var noted := Note(s, mint, price.value, entryPrice);
          MoveOwn(strategy, s, noted, id);
          ScanOwn(strategy, noted, s.nextId, id);
        }
      case Resume(other, hoursHeld) => ResumeOwn(strategy, s, other, hoursHeld, id);
      case SellSettled(other, succeeded) => ReportOwn(strategy, s, other, succeeded, id);
      case Return(_) => ReturnOwn(strategy, s, id);
    }
  }

  lemma ReturnOwn(strategy: Strategy, s: State, id: nat)
    requires id in s.checks && s.checks[id].stage.Sold? && Sound(strategy, s.exitStates, s.checks[id])
    requires OwnHits(strategy, s, id)
    ensures OwnHits(strategy, ReturnStep(strategy, s, id), id)
  {
    hide OwnHits, Scan;
    HitOwn(strategy, s, id);
    if s.checks[id].stage.exit.TakeProfit? {
      ScanOwn(strategy, Hit(strategy, s, id), id, id);
    }
  }

  /** Where only one check returns from its sells, it has begun a sell for every level that is hit. */
  lemma {:induction false} HitsAreOwn(strategy: Strategy, actions: seq<Action>, id: nat)
    requires OnlyReturns(actions, id)
    ensures OwnHits(strategy, Run(strategy, actions), id)
    decreases |actions|
  {
    if actions != [] {
      hide Step, Tracked, OwnHits;
      HitsAreOwn(strategy, actions[..|actions| - 1], id);
      StepOwn(strategy, Run(strategy, actions[..|actions| - 1]), actions[|actions| - 1], id);
    }
  }

  lemma FirstOfLevel(strategy: Strategy, i: nat, j: nat)
    requires i < |strategy.targets| && j < |strategy.targets| && First(strategy, i) && First(strategy, j)
    requires strategy.targets[i].profitPercent == strategy.targets[j].profitPercent
    ensures i == j
  {
  }

  /** A check that is past the targets and alone in selling has fired all that its profit reaches. */
  lemma FittingBegun(strategy: Strategy, actions: seq<Action>, id: nat, j: nat)
    requires OnlyReturns(actions, id) && j < |strategy.targets| && First(strategy, j)
    requires var s := Run(strategy, actions);
             id in s.checks && s.checks[id].stage == AtTrailing && MustBeHit(strategy, s.checks[id], j)
    ensures Begins(Run(strategy, actions).events, id, TakeProfit(j)) > 0
  {
    hide Run, First, Begins;
    var s, level := Run(strategy, actions), strategy.targets[j].profitPercent;
    OnlyFirstsFire(strategy, actions);
    HitsAreOwn(strategy, actions, id);
    assert Passed(strategy, s, s.checks[id]);
    assert BegunFor(strategy, s, id, level);
    var i :| 0 <= i < |strategy.targets| && strategy.targets[i].profitPercent == level
          && Begins(s.events, id, TakeProfit(i)) > 0;
    BegunFires(strategy, s.events, id, i);
    FirstOfLevel(strategy, i, j);
  }

  lemma {:induction false} TargetsReached(strategy: Strategy, actions: seq<Action>, id: nat, k: nat)
    requires SellsPortions(strategy) && k <= |strategy.targets| && OnlyReturns(actions, id)
    requires id in Run(strategy, actions).checks && Run(strategy, actions).checks[id].stage == AtTrailing
    ensures var s := Run(strategy, actions);
            TargetPercents(strategy, s.events, id, k) >= Fitting(strategy, s.checks[id].profitPercent, k)
  {
    hide Run, First, OnlyReturns, Begins;
    if k > 0 {
      TargetsReached(strategy, actions, id, k - 1);
      var s, percent := Run(strategy, actions), strategy.targets[k - 1].sellPercent;
      assert strategy.targets[k - 1] in strategy.targets;
      var n := Begins(s.events, id, TakeProfit(k - 1));
      if First(strategy, k - 1) && MustBeHit(strategy, s.checks[id], k - 1) {
        FittingBegun(strategy, actions, id, k - 1);
        assert (n - 1) * percent >= 0;
        assert n * percent == (n - 1) * percent + percent;
      } else {
        assert n * percent >= 0;
      }
    }
  }

  /** For every profit, a check that tries to sell as much as the profit allows. */
  lemma MostReached(strategy: Strategy, profit: real) returns (actions: seq<Action>)
    requires SellsPortions(strategy) && profit > -100.0
    ensures Attempted(strategy, Run(strategy, actions).events, 1) >= MostAt(strategy, profit)
  {
    hide Run, Fitting, FullSells, FullAt, OnlyReturns, Attempted, TargetPercents;
    var before, a := WholeCheck(strategy, profit);
    actions := before + [a];
    RunAppend(strategy, before, a);
    TargetsReached(strategy, before, 1, |strategy.targets|);
    LastResume(strategy, Run(strategy, before), 1);
    AttemptedIs(strategy, Run(strategy, actions).events, 1);
  }

  lemma LastResume(strategy: Strategy, s: State, id: nat)
    requires Tracked(strategy, s) && id in s.checks && s.checks[id].stage == AtTrailing
    ensures var next := Step(strategy, s, Resume(id, strategy.maxHoldTimeHours));
            TargetPercents(strategy, next.events, id, |strategy.targets|)
              == TargetPercents(strategy, s.events, id, |strategy.targets|)
  {
    hide TargetPercents, TrailingFires;
    var next := Step(strategy, s, Resume(id, strategy.maxHoldTimeHours));
    if next.events != s.events {
      TargetPercentsAppend(strategy, s.events, next.events[|s.events|], id, |strategy.targets|);
    }
  }

  //
  // Strategies that never try to sell more than there is
  //

  /** At or above the first k targets and the trailing stop's activation. */
  function Highest(strategy: Strategy, k: nat): (highest: real)
    requires k <= |strategy.targets|
    ensures highest >= strategy.trailingActivationPercent && highest >= 0.0
    ensures forall j :: 0 <= j < k ==> highest >= strategy.targets[j].profitPercent
  {
    if k == 0 then
      if strategy.trailingActivationPercent > 0.0 then strategy.trailingActivationPercent else 0.0
    else
      var rest, level := Highest(strategy, k - 1), strategy.targets[k - 1].profitPercent;
      if level > rest then level else rest
  }

  /**
    At two profits a check can try to sell most: at the highest that matters, and at the stop loss, where a
    target or the trailing stop can meet it.
   */
  predicate Modest(strategy: Strategy) {
    && MostAt(strategy, Highest(strategy, |strategy.targets|)) <= 100
    && (strategy.stopLossPercent > -100.0 ==> MostAt(strategy, strategy.stopLossPercent) <= 100)
  }

  lemma {:induction false} FittingGrows(strategy: Strategy, low: real, high: real, k: nat)
    requires SellsPortions(strategy) && k <= |strategy.targets|
    requires forall j :: 0 <= j < k && low >= strategy.targets[j].profitPercent ==>
               high >= strategy.targets[j].profitPercent
    ensures Fitting(strategy, low, k) <= Fitting(strategy, high, k)
  {
    hide First;
    if k > 0 {
      FittingGrows(strategy, low, high, k - 1);
      assert strategy.targets[k - 1] in strategy.targets;
    }
  }

  lemma ModestEverywhere(strategy: Strategy, profit: real)
    requires SellsPortions(strategy) && Modest(strategy) && profit > -100.0
    ensures MostAt(strategy, profit) <= 100
  {
    hide Fitting, Highest;
    var highest := Highest(strategy, |strategy.targets|);
    if profit <= strategy.stopLossPercent {
      FittingGrows(strategy, profit, strategy.stopLossPercent, |strategy.targets|);
    } else {
      FittingGrows(strategy, profit, highest, |strategy.targets|);
    }
  }

  /**
    Exactly which strategies never let a check try to sell more than the whole position, in whatever portions,
    over every interleaving.
   */
  lemma AttemptedWithinIff(strategy: Strategy)
    requires SellsPortions(strategy)
    ensures (forall actions, id :: Attempted(strategy, Run(strategy, actions).events, id) <= 100) <==> Modest(strategy)
  {
    hide Run, Attempted, MostAt, SellsPortions, ProfitOf;
    if Modest(strategy) {
      forall actions, id
        ensures Attempted(strategy, Run(strategy, actions).events, id) <= 100
      {
        AttemptedWithin(strategy, actions, id);
        ProfitAboveLoss(actions, id);
        if ProfitOf(actions, id).Some? {
          ModestEverywhere(strategy, ProfitOf(actions, id).value);
        }
      }
    } else {
      var highest := Highest(strategy, |strategy.targets|);
      var profit := if MostAt(strategy, highest) > 100 then highest else strategy.stopLossPercent;
      var actions := MostReached(strategy, profit);
      assert Attempted(strategy, Run(strategy, actions).events, 1) > 100;
    }
  }

  //
  // The strategy that the program is shipped with
  //

  /** The defaults of src/index.ts: a ladder of three targets, a stop loss, a time limit and no trailing stop. */
  const SHIPPED: Strategy :=
    Strategy([Target(50.0, 25), Target(100.0, 50), Target(300.0, 100)], -30.0, 24.0, 0.0, 0.0)

  lemma ShippedMost(profit: real)
    ensures MostAt(SHIPPED, profit) <= 275
    ensures MostAt(SHIPPED, 300.0) == 275
  {
    ShippedLadder(profit);
    ShippedLadder(300.0);
  }

  lemma ShippedLadder(profit: real)
    ensures Fitting(SHIPPED, profit, 3)
         == (if profit >= 50.0 then 25 else 0) + (if profit >= 100.0 then 50 else 0)
          + (if profit >= 300.0 then 100 else 0)
  {
    assert First(SHIPPED, 0) && First(SHIPPED, 1) && First(SHIPPED, 2);
    assert Fitting(SHIPPED, profit, 1) == if profit >= 50.0 then 25 else 0;
    assert Fitting(SHIPPED, profit, 2) == Fitting(SHIPPED, profit, 1) + if profit >= 100.0 then 50 else 0;
  }

  /** It lets a check try to sell 275 percent of a position, and not more. */
  lemma ShippedAttempts() returns (actions: seq<Action>)
    ensures Attempted(SHIPPED, Run(SHIPPED, actions).events, 1) == 275
    ensures forall actions, id :: Attempted(SHIPPED, Run(SHIPPED, actions).events, id) <= 275
  {
    hide Run, Attempted, MostAt, ProfitOf;
    actions := MostReached(SHIPPED, 300.0);
    ShippedMost(300.0);
    forall actions, id
      ensures Attempted(SHIPPED, Run(SHIPPED, actions).events, id) <= 275
    {
      AttemptedWithin(SHIPPED, actions, id);
      if ProfitOf(actions, id).Some? {
        ShippedMost(ProfitOf(actions, id).value);
      }
    }
  }
}
