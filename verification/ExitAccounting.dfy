/**
  The exit manager's counters, when the trailing stop fires, and that the bound on repeated fires is
  attained.
 */
module ExitAccounting {
  import opened Wrappers
  import opened Positions
  import opened PositionLedger
  import opened Exits
  import opened ExitHistory

  //
  // Counters
  //

  function Hits(stats: ExitStats): nat {
    stats.takeProfitsHit + stats.stopLossesHit + stats.timeLimitsHit + stats.trailingStopsHit
  }

  function IsSelling(): Check -> bool {
    (c: Check) => c.stage.Selling?
  }

  function IsSold(): Check -> bool {
    (c: Check) => c.stage.Sold?
  }

  ghost function SalesUnderWay(s: State): set<nat> {
    Ids(s.checks, IsSelling())
  }

  /** Sells that have ended, but not yet returned to the exit that called for them. */
  ghost function SalesToReturn(s: State): set<nat> {
    Ids(s.checks, IsSold())
  }

  function CountKind(events: seq<Event>, kind: EventKind): nat
    decreases |events|
  {
    if events == [] then 0
    else CountKind(events[..|events| - 1], kind) + (if events[|events| - 1].kind == kind then 1 else 0)
  }

  lemma CountKindAppend(events: seq<Event>, e: Event, kind: EventKind)
    ensures CountKind(events + [e], kind) == CountKind(events, kind) + (if e.kind == kind then 1 else 0)
  {
    assert (events + [e])[..|events|] == events;
  }

  /** Every triggered exit is being sold, is about to return or has been hit, and every sell that ended did so. */
  ghost predicate ExitsBalance(s: State) {
    && s.stats.exitsTriggered == Hits(s.stats) + |SalesToReturn(s)| + |SalesUnderWay(s)|
    && s.stats.exitsTriggered == CountKind(s.events, Triggered)
    && s.stats.exitsFailed == CountKind(s.events, Failed)
    && CountKind(s.events, Executed) + s.stats.exitsFailed == Hits(s.stats) + |SalesToReturn(s)|
  }

  lemma PutBalance(s: State, id: nat, c: Check, next: State)
    requires ExitsBalance(s) && !InSale(c.stage) && (id in s.checks ==> !InSale(s.checks[id].stage))
    requires next.stats == s.stats && next.events == s.events && next.checks == s.checks[id := c]
    ensures ExitsBalance(next)
  {
    IdsAfterPut(s.checks, id, c, IsSelling());
    IdsAfterPut(s.checks, id, c, IsSold());
  }

  lemma DropBalance(s: State, id: nat, next: State)
    requires ExitsBalance(s) && (id in s.checks ==> !InSale(s.checks[id].stage))
    requires next.stats == s.stats && next.events == s.events && next.checks == s.checks - {id}
    ensures ExitsBalance(next)
  {
    IdsAfterDrop(s.checks, id, IsSelling());
    IdsAfterDrop(s.checks, id, IsSold());
  }

  lemma BeginBalance(s: State, id: nat, exit: Exit)
    requires id in s.checks && !InSale(s.checks[id].stage) && ExitsBalance(s)
    ensures ExitsBalance(SellBegun(s, id, exit))
  {
    hide Ids, CountKind;
    var c := s.checks[id];
    IdsAfterPut(s.checks, id, c.(stage := Selling(exit)), IsSelling());
    IdsAfterPut(s.checks, id, c.(stage := Selling(exit)), IsSold());
    KindsAfter(s.events, Event(Triggered, id, c.mint, exit));
  }

  lemma KindsAfter(events: seq<Event>, e: Event)
    ensures CountKind(events + [e], Triggered) == CountKind(events, Triggered) + (if e.kind == Triggered then 1 else 0)
    ensures CountKind(events + [e], Executed) == CountKind(events, Executed) + (if e.kind == Executed then 1 else 0)
    ensures CountKind(events + [e], Failed) == CountKind(events, Failed) + (if e.kind == Failed then 1 else 0)
  {
    hide CountKind;
    CountKindAppend(events, e, Triggered);
    CountKindAppend(events, e, Executed);
    CountKindAppend(events, e, Failed);
  }

  lemma ScanBalance(strategy: Strategy, s: State, id: nat)
    requires id in s.checks && s.checks[id].stage.Scanning? && Sound(strategy, s.exitStates, s.checks[id])
    requires ExitsBalance(s)
    ensures ExitsBalance(Scan(strategy, s, id))
  {
    hide ExitsBalance, SellBegun;
    var c := s.checks[id];
    var i := NextTarget(strategy.targets, s.exitStates[c.mint].tpHit, c.profitPercent, c.stage.from);
    if i < |strategy.targets| {
      BeginBalance(s, id, TakeProfit(i));
    } else {
      PutBalance(s, id, c.(stage := AtStopLoss), MovedTo(s, id, AtStopLoss));
    }
  }

  lemma ResumeBalance(strategy: Strategy, s: State, id: nat, hoursHeld: real)
    requires id in s.checks && Sound(strategy, s.exitStates, s.checks[id])
    requires s.checks[id].stage in {AtStopLoss, AtTimeLimit, AtTrailing} && ExitsBalance(s)
    ensures ExitsBalance(ResumeStep(strategy, s, id, hoursHeld))
  {
    hide ExitsBalance, TrailingFires;
    var next := ResumeStep(strategy, s, id, hoursHeld);
    if id !in next.checks {
      DropBalance(s, id, next);
    } else if next.checks[id].stage.Selling? {
      BeginBalance(s, id, next.checks[id].stage.exit);
    } else {
      PutBalance(s, id, next.checks[id], next);
    }
  }

  lemma ReportBalance(s: State, id: nat, succeeded: bool)
    requires id in s.checks && s.checks[id].stage.Selling? && ExitsBalance(s)
    ensures ExitsBalance(Report(s, id, succeeded))
  {
    hide Ids, CountKind;
    var c, next := s.checks[id], Report(s, id, succeeded);
    IdsAfterPut(s.checks, id, next.checks[id], IsSelling());
    IdsAfterPut(s.checks, id, next.checks[id], IsSold());
    KindsAfter(s.events, Event(if succeeded then Executed else Failed, id, c.mint, c.stage.exit));
  }

  lemma HitEndsSale(strategy: Strategy, s: State, id: nat)
    requires id in s.checks && s.checks[id].stage.Sold? && Sound(strategy, s.exitStates, s.checks[id])
    ensures |SalesUnderWay(Hit(strategy, s, id))| == |SalesUnderWay(s)|
    ensures |SalesToReturn(Hit(strategy, s, id))| == |SalesToReturn(s)| - 1
  {
    hide Ids, Marked, CountHit;
    var next := Hit(strategy, s, id);
    if id in next.checks {
      IdsAfterPut(s.checks, id, next.checks[id], IsSelling());
      IdsAfterPut(s.checks, id, next.checks[id], IsSold());
    } else {
      IdsAfterDrop(s.checks, id, IsSelling());
      IdsAfterDrop(s.checks, id, IsSold());
    }
  }

  lemma HitBalance(strategy: Strategy, s: State, id: nat)
    requires id in s.checks && s.checks[id].stage.Sold? && Sound(strategy, s.exitStates, s.checks[id])
    requires ExitsBalance(s)
    ensures ExitsBalance(Hit(strategy, s, id))
  {
    hide SalesUnderWay, SalesToReturn, CountKind, Marked;
    HitEndsSale(strategy, s, id);
  }

  lemma StepBalance(strategy: Strategy, s: State, a: Action)
    requires Tracked(strategy, s) && ExitsBalance(s)
    ensures ExitsBalance(Step(strategy, s, a))
  {
    hide ExitsBalance, Scan, ResumeStep, CountHit;
    if Enabled(s, a) {
      match a
      case Observe(mint, price, entryPrice) =>
        if price.Some? {
          var noted := Note(s, mint, price.value, entryPrice);
          PutBalance(s, s.nextId, noted.checks[s.nextId], noted);
          ScanBalance(strategy, noted, s.nextId);
        }
      case Resume(id, hoursHeld) => ResumeBalance(strategy, s, id, hoursHeld);
      case SellSettled(id, succeeded) => ReportBalance(s, id, succeeded);
      case Return(id) =>
        HitBalance(strategy, s, id);
        if s.checks[id].stage.exit.TakeProfit? {
          ScanBalance(strategy, Hit(strategy, s, id), id);
        }
    }
  }

  lemma NoSales(s: State)
    requires s.checks == map[]
    ensures |SalesUnderWay(s)| == 0 && |SalesToReturn(s)| == 0
  {
    assert SalesUnderWay(s) == {} && SalesToReturn(s) == {};
  }

  lemma NoEvents(events: seq<Event>, kind: EventKind)
    requires events == []
    ensures CountKind(events, kind) == 0
  {
  }

  lemma CountsBalance(s: State)
    requires s.stats.exitsTriggered == 0 && Hits(s.stats) == 0 && s.stats.exitsFailed == 0
    requires |SalesUnderWay(s)| == 0 && |SalesToReturn(s)| == 0 && forall kind :: CountKind(s.events, kind) == 0
    ensures ExitsBalance(s)
  {
    hide SalesUnderWay, SalesToReturn, CountKind;
  }

  lemma NothingBalances(s: State)
    requires s.checks == map[] && s.events == []
    requires s.stats.exitsTriggered == 0 && Hits(s.stats) == 0 && s.stats.exitsFailed == 0
    ensures ExitsBalance(s)
  {
    hide ExitsBalance, SalesUnderWay, SalesToReturn, CountKind;
    NoSales(s);
    forall kind ensures CountKind(s.events, kind) == 0 {
      NoEvents(s.events, kind);
    }
    CountsBalance(s);
  }

  lemma {:induction false} ExitsAlwaysBalance(strategy: Strategy, actions: seq<Action>)
    ensures ExitsBalance(Run(strategy, actions))
    decreases |actions|
  {
    hide Step, Tracked, ExitsBalance;
    if actions == [] {
      NothingBalances(INITIAL);
    } else {
      ExitsAlwaysBalance(strategy, actions[..|actions| - 1]);
      StepBalance(strategy, Run(strategy, actions[..|actions| - 1]), actions[|actions| - 1]);
    }
  }

  //
  // The trailing stop
  //

  lemma DrawdownIff(high: Price, price: Price, stop: real)
    ensures DrawdownPercent(high, price) >= stop <==> price * 100.0 <= high * (100.0 - stop)
  {
    var d := (high - price) / high;
    QuotientTimesDivisor(high - price, high);
    assert DrawdownPercent(high, price) == d * 100.0;
    assert high * (d * 100.0) == (high - price) * 100.0;
    ScaledOrder(high, d * 100.0, stop);
    assert high * (100.0 - stop) == high * 100.0 - high * stop;
  }

  lemma ScaledOrder(x: real, a: real, b: real)
    requires x > 0.0
    ensures a >= b <==> x * a >= x * b
  {
    assert x * a - x * b == x * (a - b);
    if a > b {
      PositiveProduct(x, a - b);
    } else if a < b {
      PositiveProduct(x, b - a);
      assert x * (b - a) == -(x * (a - b));
    }
  }

  /**
    At any point of any run: the trailing stop of a check fires if and only if it is set, the profit
    is now at the activation level, and the price is that far below the largest price ever processed.
   */
  lemma TrailingStopIff(strategy: Strategy, actions: seq<Action>, id: nat)
    requires id in Run(strategy, actions).checks
    ensures var s := Run(strategy, actions); var c := s.checks[id];
            && c.mint in s.exitStates && MaxPrice(actions, c.mint).Some?
            && (TrailingFires(strategy, s.exitStates[c.mint].highWaterMark, c) <==>
                && strategy.trailingStopPercent != 0.0 && strategy.trailingActivationPercent != 0.0
                && c.profitPercent >= strategy.trailingActivationPercent
                && c.price * 100.0 <= MaxPrice(actions, c.mint).value * (100.0 - strategy.trailingStopPercent))
  {
    hide Run, MaxPrice, DrawdownPercent;
    var s := Run(strategy, actions);
    HighWaterMarkIsMaximum(strategy, actions);
    var c := s.checks[id];
    assert Sound(strategy, s.exitStates, c);
    DrawdownIff(s.exitStates[c.mint].highWaterMark, c.price, strategy.trailingStopPercent);
  }

  //
  // Overlapping checks do fire the same level
  //

  /** n checks of one token, all selling for target j. */
  ghost predicate AllSelling(strategy: Strategy, s: State, mint: Mint, price: Price, profit: real, j: nat, n: nat) {
    && s.nextId == n && s.exitStates == (if n == 0 then map[] else map[mint := ExitState({}, price)])
    && |s.checks| == n
    && forall id :: id in s.checks ==> id < n && s.checks[id] == Check(mint, price, profit, Selling(TakeProfit(j)))
  }

  lemma OneMoreSells(strategy: Strategy, s: State, mint: Mint, price: Price, entryPrice: Price, j: nat, n: nat)
    requires Tracked(strategy, s) && AllSelling(strategy, s, mint, price, ProfitPercent(price, entryPrice), j, n)
    requires j < |strategy.targets| && j == NextTarget(strategy.targets, {}, ProfitPercent(price, entryPrice), 0)
    ensures var next := Step(strategy, s, Observe(mint, Some(price), entryPrice));
            && AllSelling(strategy, next, mint, price, ProfitPercent(price, entryPrice), j, n + 1)
            && next.events == s.events + [Event(Triggered, n, mint, TakeProfit(j))]
  {
    hide NextTarget, ProfitPercent;
  }

  /**
    Whatever the number of checks: that many overlapping checks that see the same profit all sell for
    the same level, since a level is marked only after its awaited sell.
   */
  lemma {:induction false} OverlapFiresEach(strategy: Strategy, mint: Mint, price: Price, entryPrice: Price, n: nat)
    returns (actions: seq<Action>)
    requires NextTarget(strategy.targets, {}, ProfitPercent(price, entryPrice), 0) < |strategy.targets|
    ensures var j := NextTarget(strategy.targets, {}, ProfitPercent(price, entryPrice), 0);
            var s := Run(strategy, actions);
            && AllSelling(strategy, s, mint, price, ProfitPercent(price, entryPrice), j, n)
            && |Checking(s, mint)| == n
            && FireCount(strategy, s.events, mint, strategy.targets[j].profitPercent) == n
  {
    hide Step, Tracked, NextTarget, ProfitPercent;
    var profit := ProfitPercent(price, entryPrice);
    var j := NextTarget(strategy.targets, {}, profit, 0);
    if n == 0 {
      actions := [];
      assert Checking(INITIAL, mint) == {};
    } else {
      var before := OverlapFiresEach(strategy, mint, price, entryPrice, n - 1);
      var last := Observe(mint, Some(price), entryPrice);
      actions := before + [last];
      assert actions[..|actions| - 1] == before;
      var s := Run(strategy, before);
      OneMoreSells(strategy, s, mint, price, entryPrice, j, n - 1);
      FireCountAppend(strategy, s.events, Event(Triggered, n - 1, mint, TakeProfit(j)), mint,
                      strategy.targets[j].profitPercent);
      AllAreChecking(strategy, Run(strategy, actions), mint, price, profit, j, n);
    }
  }

  lemma AllAreChecking(strategy: Strategy, s: State, mint: Mint, price: Price, profit: real, j: nat, n: nat)
    requires AllSelling(strategy, s, mint, price, profit, j, n)
    ensures |Checking(s, mint)| == n
  {
    assert Checking(s, mint) == s.checks.Keys;
  }
}
