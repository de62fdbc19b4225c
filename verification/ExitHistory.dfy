/**
  What the exit manager's state says about the whole run that led to it, however checks overlap.
 */
module ExitHistory {
  import opened Wrappers
  import opened Sets
  import opened Positions
  import opened PositionLedger
  import opened Exits

  //
  // What a run has observed
  //

  predicate HasPrice(a: Action) {
    a.Observe? && a.price.Some?
  }

  predicate Observes(a: Action, mint: Mint) {
    HasPrice(a) && a.mint == mint
  }

  function ObservedProfit(a: Action): real
    requires HasPrice(a)
  {
    ProfitPercent(a.price.value, a.entryPrice)
  }

  /** Some observed profit of the token was at this level or above: the running maximum is. */
  predicate Reached(actions: seq<Action>, mint: Mint, level: real)
    decreases |actions|
  {
    && actions != []
    && var last := actions[|actions| - 1];
       || (Observes(last, mint) && ObservedProfit(last) >= level)
       || Reached(actions[..|actions| - 1], mint, level)
  }

  /** The largest price processed for the token. */
  function MaxPrice(actions: seq<Action>, mint: Mint): Option<Price>
    decreases |actions|
  {
    if actions == [] then None
    else
      var last, before := actions[|actions| - 1], MaxPrice(actions[..|actions| - 1], mint);
      if Observes(last, mint) && (before.None? || last.price.value > before.value) then last.price else before
  }

  //
  // The high-water mark
  //

  ghost predicate MarksMaximum(s: State, actions: seq<Action>) {
    forall mint ::
      && (mint in s.exitStates <==> MaxPrice(actions, mint).Some?)
      && (mint in s.exitStates ==> s.exitStates[mint].highWaterMark == MaxPrice(actions, mint).value)
  }

  /** A step raises the marks as Noted does and otherwise leaves them. */
  lemma StepMarks(strategy: Strategy, s: State, a: Action)
    requires Tracked(strategy, s)
    ensures var next := Step(strategy, s, a);
            var noted := if HasPrice(a) then Noted(s.exitStates, a.mint, a.price.value)
                         else s.exitStates;
            && next.exitStates.Keys == noted.Keys
            && forall mint :: mint in noted ==> next.exitStates[mint].highWaterMark == noted[mint].highWaterMark
  {
    hide NextTarget, TrailingFires, ProfitPercent;
  }

  lemma {:induction false} HighWaterMarkIsMaximum(strategy: Strategy, actions: seq<Action>)
    ensures MarksMaximum(Run(strategy, actions), actions)
    decreases |actions|
  {
    hide Step, Tracked;
    if actions == [] {
    } else {
      var before, last := actions[..|actions| - 1], actions[|actions| - 1];
      HighWaterMarkIsMaximum(strategy, before);
      StepMarks(strategy, Run(strategy, before), last);
    }
  }

  //
  // Which take-profit levels are hit
  //

  predicate IsLevel(strategy: Strategy, exit: Exit, level: real) {
    exit.TakeProfit? && exit.index < |strategy.targets| && strategy.targets[exit.index].profitPercent == level
  }

  ghost predicate Configured(strategy: Strategy, level: real) {
    exists j: nat :: IsLevel(strategy, TakeProfit(j), level)
  }

  /** A sell for the level has begun, and its check has not returned from it. */
  predicate SellsLevel(strategy: Strategy, c: Check, mint: Mint, level: real) {
    c.mint == mint && InSale(c.stage) && IsLevel(strategy, c.stage.exit, level)
  }

  /** This check will still come to target j, or is selling for it. */
  predicate Awaits(c: Check, mint: Mint, j: nat) {
    && c.mint == mint
    && match c.stage
       case Scanning(from) => from <= j
       case Selling(TakeProfit(i)) => i <= j
       case Sold(TakeProfit(i)) => i <= j
       case _ => false
  }

  predicate AwaitsReached(strategy: Strategy, c: Check, mint: Mint, j: nat)
    requires j < |strategy.targets|
  {
    Awaits(c, mint, j) && c.profitPercent >= strategy.targets[j].profitPercent
  }

  function HitOf(s: State, mint: Mint): set<real> {
    if mint in s.exitStates then s.exitStates[mint].tpHit else {}
  }

  /** Target j is hit, or a check that has seen enough profit is on its way to it. */
  ghost predicate Covered(strategy: Strategy, s: State, mint: Mint, j: nat)
    requires j < |strategy.targets|
  {
    || strategy.targets[j].profitPercent in HitOf(s, mint)
    || exists id :: id in s.checks && AwaitsReached(strategy, s.checks[id], mint, j)
  }

  /** Checks know only observed profits. */
  ghost predicate ProfitsReached(s: State, actions: seq<Action>) {
    forall id :: id in s.checks ==> Reached(actions, s.checks[id].mint, s.checks[id].profitPercent)
  }

  ghost predicate SellsOnlyReached(strategy: Strategy, s: State) {
    forall id :: id in s.checks && InSale(s.checks[id].stage) && s.checks[id].stage.exit.TakeProfit? ==>
      var i := s.checks[id].stage.exit.index;
      i < |strategy.targets| && s.checks[id].profitPercent >= strategy.targets[i].profitPercent
  }

  ghost predicate HitsReached(strategy: Strategy, s: State, actions: seq<Action>) {
    forall mint, level :: level in HitOf(s, mint) ==>
      Reached(actions, mint, level) && Configured(strategy, level)
  }

  ghost predicate AllCovered(strategy: Strategy, s: State, actions: seq<Action>) {
    forall mint, j: nat :: j < |strategy.targets| && Reached(actions, mint, strategy.targets[j].profitPercent) ==>
      Covered(strategy, s, mint, j)
  }

  ghost predicate History(strategy: Strategy, s: State, actions: seq<Action>) {
    && ProfitsReached(s, actions) && SellsOnlyReached(strategy, s)
    && HitsReached(strategy, s, actions) && AllCovered(strategy, s, actions)
  }

  lemma {:induction false} ReachedMonotone(actions: seq<Action>, mint: Mint, high: real, low: real)
    requires low <= high && Reached(actions, mint, high)
    ensures Reached(actions, mint, low)
    decreases |actions|
  {
    var last, before := actions[|actions| - 1], actions[..|actions| - 1];
    if !(Observes(last, mint) && ObservedProfit(last) >= low) {
      ReachedMonotone(before, mint, high, low);
    }
  }

  lemma ReachedGrows(actions: seq<Action>, mint: Mint, level: real)
    requires actions != [] && Reached(actions[..|actions| - 1], mint, level)
    ensures Reached(actions, mint, level)
  {
  }

  lemma NoteKeepsHistory(strategy: Strategy, s: State, actions: seq<Action>)
    requires actions != [] && Tracked(strategy, s) && History(strategy, s, actions[..|actions| - 1])
    requires HasPrice(actions[|actions| - 1])
    ensures var last := actions[|actions| - 1];
            History(strategy, Note(s, last.mint, last.price.value, last.entryPrice), actions)
  {
    hide ProfitPercent;
    var last, before := actions[|actions| - 1], actions[..|actions| - 1];
    var next := Note(s, last.mint, last.price.value, last.entryPrice);
    assert forall mint :: HitOf(next, mint) == HitOf(s, mint);
    forall mint, level | level in HitOf(next, mint)
      ensures Reached(actions, mint, level) && Configured(strategy, level)
    {
      ReachedGrows(actions, mint, level);
    }
    forall id | id in next.checks
      ensures Reached(actions, next.checks[id].mint, next.checks[id].profitPercent)
    {
      if id in s.checks && id != s.nextId {
        ReachedGrows(actions, s.checks[id].mint, s.checks[id].profitPercent);
      }
    }
    forall mint, j: nat | j < |strategy.targets| && Reached(actions, mint, strategy.targets[j].profitPercent)
      ensures Covered(strategy, next, mint, j)
    {
      if Reached(before, mint, strategy.targets[j].profitPercent) {
        StillCovered(strategy, s, next, mint, j);
      } else {
        assert AwaitsReached(strategy, next.checks[s.nextId], mint, j);
      }
    }
  }

  lemma StillCovered(strategy: Strategy, s: State, next: State, mint: Mint, j: nat)
    requires j < |strategy.targets| && Covered(strategy, s, mint, j)
    requires HitOf(s, mint) <= HitOf(next, mint)
    requires forall id :: id in s.checks && AwaitsReached(strategy, s.checks[id], mint, j) ==>
               || strategy.targets[j].profitPercent in HitOf(next, mint)
               || (id in next.checks && AwaitsReached(strategy, next.checks[id], mint, j))
    ensures Covered(strategy, next, mint, j)
  {
  }

  lemma ScanKeepsHistory(strategy: Strategy, s: State, id: nat, actions: seq<Action>)
    requires id in s.checks && s.checks[id].stage.Scanning? && Sound(strategy, s.exitStates, s.checks[id])
    requires History(strategy, s, actions)
    ensures History(strategy, Scan(strategy, s, id), actions)
  {
    var next := Scan(strategy, s, id);
    forall mint, j: nat | j < |strategy.targets| && Reached(actions, mint, strategy.targets[j].profitPercent)
      ensures Covered(strategy, next, mint, j)
    {
      assert !AwaitsReached(strategy, next.checks[id], mint, j) && AwaitsReached(strategy, s.checks[id], mint, j)
        ==> !Fires(strategy.targets, s.exitStates[mint].tpHit, s.checks[id].profitPercent, j);
      StillCovered(strategy, s, next, mint, j);
    }
  }

  lemma SoldLevel(strategy: Strategy, c: Check, actions: seq<Action>)
    requires InSale(c.stage) && c.stage.exit.TakeProfit? && c.stage.exit.index < |strategy.targets|
    requires Reached(actions, c.mint, c.profitPercent)
    requires c.profitPercent >= strategy.targets[c.stage.exit.index].profitPercent
    ensures var level := strategy.targets[c.stage.exit.index].profitPercent;
            Reached(actions, c.mint, level) && Configured(strategy, level)
  {
    var level := strategy.targets[c.stage.exit.index].profitPercent;
    ReachedMonotone(actions, c.mint, c.profitPercent, level);
    assert IsLevel(strategy, TakeProfit(c.stage.exit.index), level);
  }

  lemma ReportKeepsHistory(strategy: Strategy, s: State, id: nat, succeeded: bool, actions: seq<Action>)
    requires id in s.checks && s.checks[id].stage.Selling? && History(strategy, s, actions)
    ensures History(strategy, Report(s, id, succeeded), actions)
  {
    hide Reached, Configured;
    var next := Report(s, id, succeeded);
    assert forall mint :: HitOf(next, mint) == HitOf(s, mint);
    assert ProfitsReached(next, actions) && SellsOnlyReached(strategy, next) && HitsReached(strategy, next, actions);
    forall mint, j: nat | j < |strategy.targets| && Reached(actions, mint, strategy.targets[j].profitPercent)
      ensures Covered(strategy, next, mint, j)
    {
      StillCovered(strategy, s, next, mint, j);
    }
  }

  lemma HitKeepsChecks(strategy: Strategy, s: State, id: nat, actions: seq<Action>)
    requires id in s.checks && s.checks[id].stage.Sold? && Sound(strategy, s.exitStates, s.checks[id])
    requires ProfitsReached(s, actions) && SellsOnlyReached(strategy, s)
    ensures ProfitsReached(Hit(strategy, s, id), actions)
    ensures SellsOnlyReached(strategy, Hit(strategy, s, id))
  {
    hide CountHit, Reached, Marked;
  }

  lemma HitKeepsHistory(strategy: Strategy, s: State, id: nat, actions: seq<Action>)
    requires id in s.checks && s.checks[id].stage.Sold? && Sound(strategy, s.exitStates, s.checks[id])
    requires History(strategy, s, actions)
    ensures History(strategy, Hit(strategy, s, id), actions)
  {
    hide CountHit, Reached, Configured;
    var c, next := s.checks[id], Hit(strategy, s, id);
    HitKeepsChecks(strategy, s, id, actions);
    forall mint, level | level in HitOf(next, mint)
      ensures Reached(actions, mint, level) && Configured(strategy, level)
    {
      if level !in HitOf(s, mint) {
        SoldLevel(strategy, c, actions);
      }
    }
    forall mint, j: nat | j < |strategy.targets| && Reached(actions, mint, strategy.targets[j].profitPercent)
      ensures Covered(strategy, next, mint, j)
    {
      StillCovered(strategy, s, next, mint, j);
    }
  }

  lemma ResumeKeepsHistory(strategy: Strategy, s: State, id: nat, hoursHeld: real, actions: seq<Action>)
    requires id in s.checks && Sound(strategy, s.exitStates, s.checks[id])
    requires s.checks[id].stage in {AtStopLoss, AtTimeLimit, AtTrailing}
    requires History(strategy, s, actions)
    ensures History(strategy, ResumeStep(strategy, s, id, hoursHeld), actions)
  {
    hide TrailingFires, Reached, Configured;
    var next := ResumeStep(strategy, s, id, hoursHeld);
    assert forall mint :: HitOf(next, mint) == HitOf(s, mint);
    assert ProfitsReached(next, actions);
    assert SellsOnlyReached(strategy, next);
    assert HitsReached(strategy, next, actions);
    forall mint, j: nat | j < |strategy.targets| && Reached(actions, mint, strategy.targets[j].profitPercent)
      ensures Covered(strategy, next, mint, j)
    {
      StillCovered(strategy, s, next, mint, j);
    }
  }

  /** A step that observes no price reaches nothing new. */
  lemma HistoryExtends(strategy: Strategy, s: State, actions: seq<Action>)
    requires actions != [] && History(strategy, s, actions[..|actions| - 1])
    requires !HasPrice(actions[|actions| - 1])
    ensures History(strategy, s, actions)
  {
  }

  lemma StepKeepsHistory(strategy: Strategy, s: State, actions: seq<Action>)
    requires actions != [] && Tracked(strategy, s) && History(strategy, s, actions[..|actions| - 1])
    ensures History(strategy, Step(strategy, s, actions[|actions| - 1]), actions)
  {
    hide History, Scan, Report, Hit, ResumeStep, Reached;
    var a := actions[|actions| - 1];
    if HasPrice(a) {
      NoteKeepsHistory(strategy, s, actions);
      ScanKeepsHistory(strategy, Note(s, a.mint, a.price.value, a.entryPrice), s.nextId, actions);
    } else {
      HistoryExtends(strategy, s, actions);
      if Enabled(s, a) {
        if a.Resume? {
          ResumeKeepsHistory(strategy, s, a.id, a.hoursHeld, actions);
        } else if a.SellSettled? {
          ReportKeepsHistory(strategy, s, a.id, a.succeeded, actions);
        } else if a.Return? {
          ReturnKeepsHistory(strategy, s, a.id, actions);
        }
      }
    }
  }

  lemma ReturnKeepsHistory(strategy: Strategy, s: State, id: nat, actions: seq<Action>)
    requires id in s.checks && s.checks[id].stage.Sold? && Sound(strategy, s.exitStates, s.checks[id])
    requires History(strategy, s, actions)
    ensures History(strategy, ReturnStep(strategy, s, id), actions)
  {
    hide History, Scan;
    HitKeepsHistory(strategy, s, id, actions);
    if s.checks[id].stage.exit.TakeProfit? {
      ScanKeepsHistory(strategy, Hit(strategy, s, id), id, actions);
    }
  }

  lemma {:induction false} RunHasHistory(strategy: Strategy, actions: seq<Action>)
    ensures History(strategy, Run(strategy, actions), actions)
    decreases |actions|
  {
    hide Step, Tracked;
    if actions == [] {
    } else {
      RunHasHistory(strategy, actions[..|actions| - 1]);
      StepKeepsHistory(strategy, Run(strategy, actions[..|actions| - 1]), actions);
    }
  }

  predicate TakingProfits(c: Check) {
    c.stage.Scanning? || (InSale(c.stage) && c.stage.exit.TakeProfit?)
  }

  /** No check of the token is in its take-profit loop. */
  ghost predicate Settled(s: State, mint: Mint) {
    forall id :: id in s.checks && s.checks[id].mint == mint ==> !TakingProfits(s.checks[id])
  }

  /**
    However checks overlap, once none is taking profits: the hit levels of a token are the configured
    levels up to the running maximum of its observed profit. At every other time there are no more.
   */
  lemma HitsAreLevelsReached(strategy: Strategy, actions: seq<Action>, mint: Mint)
    ensures var s := Run(strategy, actions);
            && (forall level :: level in HitOf(s, mint) ==> Configured(strategy, level) && Reached(actions, mint, level))
            && (Settled(s, mint) ==>
              forall level :: Configured(strategy, level) && Reached(actions, mint, level) ==> level in HitOf(s, mint))
  {
    hide Run, Reached, ProfitsReached, SellsOnlyReached;
    var s := Run(strategy, actions);
    RunHasHistory(strategy, actions);
    if Settled(s, mint) {
      forall level | Configured(strategy, level) && Reached(actions, mint, level)
        ensures level in HitOf(s, mint)
      {
        var j: nat :| IsLevel(strategy, TakeProfit(j), level);
        assert Covered(strategy, s, mint, j);
      }
    }
  }

  //
  // How often a level fires
  //

  ghost function Ids(checks: map<nat, Check>, p: Check -> bool): set<nat> {
    set id | id in checks && p(checks[id])
  }

  lemma IdsWithPut(checks: map<nat, Check>, id: nat, c: Check, p: Check -> bool)
    ensures Ids(checks[id := c], p) == Ids(checks, p) - {id} + (if p(c) then {id} else {})
  {
    var after := Ids(checks[id := c], p);
    forall other
      ensures other in after <==> other in Ids(checks, p) - {id} + (if p(c) then {id} else {})
    {
    }
  }

  lemma IdsAfterPut(checks: map<nat, Check>, id: nat, c: Check, p: Check -> bool)
    ensures |Ids(checks[id := c], p)|
         == |Ids(checks, p)| - (if id in checks && p(checks[id]) then 1 else 0) + (if p(c) then 1 else 0)
  {
    hide Ids;
    IdsWithPut(checks, id, c, p);
    PutCount(Ids(checks, p), id, p(c));
    InIds(checks, id, p);
  }

  lemma InIds(checks: map<nat, Check>, id: nat, p: Check -> bool)
    ensures id in Ids(checks, p) <==> id in checks && p(checks[id])
  {
  }

  lemma IdsAfterDrop(checks: map<nat, Check>, id: nat, p: Check -> bool)
    ensures |Ids(checks - {id}, p)| == |Ids(checks, p)| - (if id in checks && p(checks[id]) then 1 else 0)
  {
    assert Ids(checks - {id}, p) == Ids(checks, p) - {id};
  }

  function OfMint(mint: Mint): Check -> bool {
    (c: Check) => c.mint == mint
  }

  function SellerOf(strategy: Strategy, mint: Mint, level: real): Check -> bool {
    (c: Check) => SellsLevel(strategy, c, mint, level)
  }

  /** Checks of the token that are under way. */
  ghost function Checking(s: State, mint: Mint): set<nat> {
    Ids(s.checks, OfMint(mint))
  }

  /** Checks that are selling for this level. */
  ghost function Sellers(strategy: Strategy, s: State, mint: Mint, level: real): set<nat> {
    Ids(s.checks, SellerOf(strategy, mint, level))
  }

  predicate IsFire(strategy: Strategy, e: Event, mint: Mint, level: real) {
    e.kind == Triggered && e.mint == mint && IsLevel(strategy, e.exit, level)
  }

  /** How often the level has fired for the token, over the whole run. */
  function FireCount(strategy: Strategy, events: seq<Event>, mint: Mint, level: real): nat
    decreases |events|
  {
    if events == [] then 0
    else
      FireCount(strategy, events[..|events| - 1], mint, level)
      + (if IsFire(strategy, events[|events| - 1], mint, level) then 1 else 0)
  }

  lemma FireCountAppend(strategy: Strategy, events: seq<Event>, e: Event, mint: Mint, level: real)
    ensures FireCount(strategy, events + [e], mint, level)
         == FireCount(strategy, events, mint, level) + (if IsFire(strategy, e, mint, level) then 1 else 0)
  {
    assert (events + [e])[..|events|] == events;
  }

  /** The largest number of checks of the token that ever overlapped. */
  ghost function PeakChecks(strategy: Strategy, actions: seq<Action>, mint: Mint): (peak: nat)
    ensures peak >= |Checking(Run(strategy, actions), mint)|
    decreases |actions|
  {
    var here := |Checking(Run(strategy, actions), mint)|;
    if actions == [] then here
    else
      var before := PeakChecks(strategy, actions[..|actions| - 1], mint);
      if before > here then before else here
  }

  /** Until the level is marked as hit, every fire is a check still selling for it. */
  ghost predicate Fired(strategy: Strategy, s: State, mint: Mint, level: real) {
    var fires := FireCount(strategy, s.events, mint, level);
    if level in HitOf(s, mint) then fires >= 1 else fires == |Sellers(strategy, s, mint, level)|
  }

  /** A step may add to the fires of a level only while it is not marked. */
  ghost predicate FiresOnlyUnhit(strategy: Strategy, s: State, next: State, mint: Mint, level: real) {
    || FireCount(strategy, next.events, mint, level) == FireCount(strategy, s.events, mint, level)
    || level !in HitOf(next, mint)
  }

  lemma MovePreservesFired(strategy: Strategy, s: State, id: nat, stage: Stage, mint: Mint, level: real)
    requires id in s.checks && Fired(strategy, s, mint, level)
    requires !SellsLevel(strategy, s.checks[id], mint, level) || level in HitOf(s, mint)
    requires !InSale(stage)
    ensures Fired(strategy, MovedTo(s, id, stage), mint, level)
  {
    IdsAfterPut(s.checks, id, s.checks[id].(stage := stage), SellerOf(strategy, mint, level));
  }

  lemma BeginFires(strategy: Strategy, s: State, id: nat, exit: Exit, mint: Mint, level: real)
    requires id in s.checks && !InSale(s.checks[id].stage) && Fired(strategy, s, mint, level)
    requires s.checks[id].mint == mint && IsLevel(strategy, exit, level) ==> level !in HitOf(s, mint)
    ensures Fired(strategy, SellBegun(s, id, exit), mint, level)
    ensures FiresOnlyUnhit(strategy, s, SellBegun(s, id, exit), mint, level)
  {
    hide Ids;
    var c := s.checks[id];
    IdsAfterPut(s.checks, id, c.(stage := Selling(exit)), SellerOf(strategy, mint, level));
    FireCountAppend(strategy, s.events, Event(Triggered, id, c.mint, exit), mint, level);
    assert HitOf(SellBegun(s, id, exit), mint) == HitOf(s, mint);
  }

  lemma ScanFires(strategy: Strategy, s: State, id: nat, mint: Mint, level: real)
    requires id in s.checks && s.checks[id].stage.Scanning? && Sound(strategy, s.exitStates, s.checks[id])
    requires Fired(strategy, s, mint, level)
    ensures Fired(strategy, Scan(strategy, s, id), mint, level)
    ensures FiresOnlyUnhit(strategy, s, Scan(strategy, s, id), mint, level)
  {
    hide Fired, FireCount, SellBegun;
    var c := s.checks[id];
    var i := NextTarget(strategy.targets, s.exitStates[c.mint].tpHit, c.profitPercent, c.stage.from);
    if i < |strategy.targets| {
      BeginFires(strategy, s, id, TakeProfit(i), mint, level);
    } else {
      MovePreservesFired(strategy, s, id, AtStopLoss, mint, level);
    }
  }

  lemma NoteFires(strategy: Strategy, s: State, mint: Mint, price: Price, entryPrice: Price, other: Mint, level: real)
    requires s.nextId !in s.checks && Fired(strategy, s, other, level)
    ensures Fired(strategy, Note(s, mint, price, entryPrice), other, level)
  {
    hide FireCount, Ids, ProfitPercent;
    var next := Note(s, mint, price, entryPrice);
    IdsAfterPut(s.checks, s.nextId, next.checks[s.nextId], SellerOf(strategy, other, level));
    assert HitOf(next, other) == HitOf(s, other);
  }

  lemma ReportFires(strategy: Strategy, s: State, id: nat, succeeded: bool, mint: Mint, level: real)
    requires id in s.checks && s.checks[id].stage.Selling? && Fired(strategy, s, mint, level)
    ensures var next := Report(s, id, succeeded);
            && Fired(strategy, next, mint, level)
            && FireCount(strategy, next.events, mint, level) == FireCount(strategy, s.events, mint, level)
  {
    hide FireCount, Ids;
    var c, next := s.checks[id], Report(s, id, succeeded);
    FireCountAppend(strategy, s.events, next.events[|s.events|], mint, level);
    IdsAfterPut(s.checks, id, next.checks[id], SellerOf(strategy, mint, level));
    assert HitOf(next, mint) == HitOf(s, mint);
  }

  lemma HitFires(strategy: Strategy, s: State, id: nat, mint: Mint, level: real)
    requires id in s.checks && s.checks[id].stage.Sold? && Sound(strategy, s.exitStates, s.checks[id])
    requires Fired(strategy, s, mint, level)
    ensures Fired(strategy, Hit(strategy, s, id), mint, level)
  {
    hide CountHit, FireCount;
    var c, next := s.checks[id], Hit(strategy, s, id);
    if c.stage.exit.TrailingStop? {
      IdsAfterDrop(s.checks, id, SellerOf(strategy, mint, level));
    } else {
      IdsAfterPut(s.checks, id, next.checks[id], SellerOf(strategy, mint, level));
    }
    assert SellsLevel(strategy, c, mint, level) ==> id in Sellers(strategy, s, mint, level);
  }

  lemma ReturnFires(strategy: Strategy, s: State, id: nat, mint: Mint, level: real)
    requires id in s.checks && s.checks[id].stage.Sold? && Sound(strategy, s.exitStates, s.checks[id])
    requires Fired(strategy, s, mint, level)
    ensures Fired(strategy, ReturnStep(strategy, s, id), mint, level)
    ensures FiresOnlyUnhit(strategy, s, ReturnStep(strategy, s, id), mint, level)
  {
    hide Fired, Scan, FireCount, CountHit;
    HitFires(strategy, s, id, mint, level);
    if s.checks[id].stage.exit.TakeProfit? {
      ScanFires(strategy, Hit(strategy, s, id), id, mint, level);
    }
  }

  lemma ResumeFires(strategy: Strategy, s: State, id: nat, hoursHeld: real, mint: Mint, level: real)
    requires id in s.checks && Sound(strategy, s.exitStates, s.checks[id])
    requires s.checks[id].stage in {AtStopLoss, AtTimeLimit, AtTrailing}
    requires Fired(strategy, s, mint, level)
    ensures Fired(strategy, ResumeStep(strategy, s, id, hoursHeld), mint, level)
    ensures FiresOnlyUnhit(strategy, s, ResumeStep(strategy, s, id, hoursHeld), mint, level)
  {
    hide TrailingFires, FireCount;
    var c, next := s.checks[id], ResumeStep(strategy, s, id, hoursHeld);
    if id !in next.checks {
      IdsAfterDrop(s.checks, id, SellerOf(strategy, mint, level));
    } else if next.checks[id].stage.Selling? {
      BeginFires(strategy, s, id, next.checks[id].stage.exit, mint, level);
    } else {
      MovePreservesFired(strategy, s, id, next.checks[id].stage, mint, level);
    }
  }

  lemma StepFires(strategy: Strategy, s: State, a: Action, mint: Mint, level: real)
    requires Tracked(strategy, s) && Fired(strategy, s, mint, level)
    ensures Fired(strategy, Step(strategy, s, a), mint, level)
    ensures FiresOnlyUnhit(strategy, s, Step(strategy, s, a), mint, level)
  {
    hide Fired, Scan, Report, ReturnStep, ResumeStep, FireCount;
    if Enabled(s, a) {
      match a
      case Observe(m, price, entryPrice) =>
        if price.Some? {
          NoteFires(strategy, s, m, price.value, entryPrice, mint, level);
          ScanFires(strategy, Note(s, m, price.value, entryPrice), s.nextId, mint, level);
        }
      case Resume(id, hoursHeld) => ResumeFires(strategy, s, id, hoursHeld, mint, level);
      case SellSettled(id, succeeded) => ReportFires(strategy, s, id, succeeded, mint, level);
      case Return(id) => ReturnFires(strategy, s, id, mint, level);
    }
  }

  lemma SellersCheck(strategy: Strategy, s: State, mint: Mint, level: real)
    ensures |Sellers(strategy, s, mint, level)| <= |Checking(s, mint)|
  {
    assert |Checking(s, mint)|
        == |Sellers(strategy, s, mint, level)| + |Checking(s, mint) - Sellers(strategy, s, mint, level)|;
  }

  /** A level fires for a token at most as often as checks of that token ever overlapped. */
  lemma {:induction false} FiresWithinPeak(strategy: Strategy, actions: seq<Action>, mint: Mint, level: real)
    ensures Fired(strategy, Run(strategy, actions), mint, level)
    ensures FireCount(strategy, Run(strategy, actions).events, mint, level) <= PeakChecks(strategy, actions, mint)
    decreases |actions|
  {
    hide Step, Checking, Sellers;
    var s := Run(strategy, actions);
    if actions == [] {
      SellersCheck(strategy, s, mint, level);
      NoChecks(strategy, mint, level);
    } else {
      var before := actions[..|actions| - 1];
      FiresWithinPeak(strategy, before, mint, level);
      StepFires(strategy, Run(strategy, before), actions[|actions| - 1], mint, level);
      SellersCheck(strategy, s, mint, level);
    }
  }

  lemma NoChecks(strategy: Strategy, mint: Mint, level: real)
    ensures Sellers(strategy, INITIAL, mint, level) == {}
  {
  }

  lemma StepKeepsHits(strategy: Strategy, s: State, a: Action, mint: Mint)
    requires Tracked(strategy, s)
    ensures HitOf(s, mint) <= HitOf(Step(strategy, s, a), mint)
  {
    hide NextTarget, TrailingFires, ProfitPercent, CountHit;
  }

  lemma ScanFiresOnce(strategy: Strategy, s: State, id: nat, mint: Mint, level: real)
    requires id in s.checks && s.checks[id].stage.Scanning? && Sound(strategy, s.exitStates, s.checks[id])
    ensures FireCount(strategy, Scan(strategy, s, id).events, mint, level)
         <= FireCount(strategy, s.events, mint, level) + 1
  {
    hide FireCount, NextTarget;
    var next := Scan(strategy, s, id);
    if next.events != s.events {
      FireCountAppend(strategy, s.events, next.events[|s.events|], mint, level);
    }
  }

  lemma ResumeFiresOnce(strategy: Strategy, s: State, id: nat, hoursHeld: real, mint: Mint, level: real)
    requires id in s.checks && Sound(strategy, s.exitStates, s.checks[id])
    requires s.checks[id].stage in {AtStopLoss, AtTimeLimit, AtTrailing}
    ensures FireCount(strategy, ResumeStep(strategy, s, id, hoursHeld).events, mint, level)
         == FireCount(strategy, s.events, mint, level)
  {
    hide FireCount, TrailingFires;
    var next := ResumeStep(strategy, s, id, hoursHeld);
    if next.events != s.events {
      FireCountAppend(strategy, s.events, next.events[|s.events|], mint, level);
    }
  }

  lemma ReturnFiresOnce(strategy: Strategy, s: State, id: nat, mint: Mint, level: real)
    requires id in s.checks && s.checks[id].stage.Sold? && Sound(strategy, s.exitStates, s.checks[id])
    ensures FireCount(strategy, ReturnStep(strategy, s, id).events, mint, level)
         <= FireCount(strategy, s.events, mint, level) + 1
  {
    hide FireCount, Scan, CountHit;
    if s.checks[id].stage.exit.TakeProfit? {
      ScanFiresOnce(strategy, Hit(strategy, s, id), id, mint, level);
    }
  }

  lemma StepFiresOnce(strategy: Strategy, s: State, a: Action, mint: Mint, level: real)
    requires Tracked(strategy, s)
    ensures FireCount(strategy, Step(strategy, s, a).events, mint, level)
         <= FireCount(strategy, s.events, mint, level) + 1
  {
    hide FireCount, Scan, ReturnStep, ResumeStep, ProfitPercent;
    if Enabled(s, a) {
      match a
      case Observe(m, price, entryPrice) =>
        if price.Some? {
          ScanFiresOnce(strategy, Note(s, m, price.value, entryPrice), s.nextId, mint, level);
        }
      case Resume(id, hoursHeld) => ResumeFiresOnce(strategy, s, id, hoursHeld, mint, level);
      case SellSettled(id, succeeded) =>
        FireCountAppend(strategy, s.events, Report(s, id, succeeded).events[|s.events|], mint, level);
      case Return(id) => ReturnFiresOnce(strategy, s, id, mint, level);
    }
  }

  /**
    In any reachable state: a step that fires a level repeats an earlier fire if and only if a check is still
    selling for that level when the step is made.
   */
  lemma RepeatsIff(strategy: Strategy, actions: seq<Action>, a: Action, mint: Mint, level: real)
    requires FireCount(strategy, Step(strategy, Run(strategy, actions), a).events, mint, level)
           > FireCount(strategy, Run(strategy, actions).events, mint, level)
    ensures var s := Run(strategy, actions);
            FireCount(strategy, Step(strategy, s, a).events, mint, level) > 1
            <==> exists id :: id in s.checks && SellsLevel(strategy, s.checks[id], mint, level)
  {
    hide Run, Step, FireCount, PeakChecks;
    var s := Run(strategy, actions);
    FiresWithinPeak(strategy, actions, mint, level);
    StepFires(strategy, s, a, mint, level);
    StepKeepsHits(strategy, s, a, mint);
    StepFiresOnce(strategy, s, a, mint, level);
    assert FireCount(strategy, s.events, mint, level) == |Sellers(strategy, s, mint, level)|;
    if id :| id in s.checks && SellsLevel(strategy, s.checks[id], mint, level) {
      assert id in Sellers(strategy, s, mint, level);
      assert Sellers(strategy, s, mint, level) != {};
    } else {
      assert Sellers(strategy, s, mint, level) == {};
    }
  }

  /**
    Without overlap, and while no take profit is being sold: a configured level has fired once if the
    token's observed profit ever reached it, and never otherwise.
   */
  lemma FiresOnce(strategy: Strategy, actions: seq<Action>, mint: Mint, level: real)
    requires PeakChecks(strategy, actions, mint) <= 1 && Settled(Run(strategy, actions), mint)
    ensures FireCount(strategy, Run(strategy, actions).events, mint, level)
         == if Configured(strategy, level) && Reached(actions, mint, level) then 1 else 0
  {
    hide Run, PeakChecks, FireCount, Reached;
    FiresWithinPeak(strategy, actions, mint, level);
    HitsAreLevelsReached(strategy, actions, mint);
    assert Sellers(strategy, Run(strategy, actions), mint, level) == {};
  }
}
