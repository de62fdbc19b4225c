/**
  The exit state belongs to the token and outlives the position: what a level that was hit for one
  position means for the next position of the same token.
 */
module ExitReopening {
  import opened Wrappers
  import opened Positions
  import opened PositionLedger
  import opened Exits
  import opened ExitHistory

  /** A level that the profit has reached and that the token had not reached before. */
  ghost predicate ReachesNewLevel(strategy: Strategy, actions: seq<Action>, mint: Mint, profit: real) {
    exists j :: 0 <= j < |strategy.targets| && NewLevel(strategy, actions, mint, profit, j)
  }

  predicate NewLevel(strategy: Strategy, actions: seq<Action>, mint: Mint, profit: real, j: nat)
    requires j < |strategy.targets|
  {
    profit >= strategy.targets[j].profitPercent && !Reached(actions, mint, strategy.targets[j].profitPercent)
  }

  lemma HitIffReached(strategy: Strategy, actions: seq<Action>, mint: Mint, j: nat)
    requires j < |strategy.targets| && Settled(Run(strategy, actions), mint)
    ensures strategy.targets[j].profitPercent in HitOf(Run(strategy, actions), mint)
       <==> Reached(actions, mint, strategy.targets[j].profitPercent)
  {
    hide Run, Reached;
    HitsAreLevelsReached(strategy, actions, mint);
    assert IsLevel(strategy, TakeProfit(j), strategy.targets[j].profitPercent);
  }

  lemma ObservationFires(strategy: Strategy, s: State, mint: Mint, price: Price, entryPrice: Price)
    requires Tracked(strategy, s)
    ensures var next := Step(strategy, s, Observe(mint, Some(price), entryPrice));
            && s.nextId in next.checks
            && (next.checks[s.nextId].stage.Selling? <==>
                exists j :: 0 <= j < |strategy.targets|
                  && Fires(strategy.targets, HitOf(s, mint), ProfitPercent(price, entryPrice), j))
  {
    hide ProfitPercent;
    var i := NextTarget(strategy.targets, HitOf(s, mint), ProfitPercent(price, entryPrice), 0);
    assert Note(s, mint, price, entryPrice).exitStates[mint].tpHit == HitOf(s, mint);
  }

  /**
    A position is sold for a take profit at the first sight of a profit exactly if the profit reaches a level
    that no earlier position of the same token had reached, provided that no check is still taking profits.
   */
  lemma FreshCheckFiresIff(strategy: Strategy, actions: seq<Action>, mint: Mint, price: Price, entryPrice: Price)
    requires Settled(Run(strategy, actions), mint)
    ensures var s := Run(strategy, actions);
            var next := Step(strategy, s, Observe(mint, Some(price), entryPrice));
            && s.nextId in next.checks
            && (next.checks[s.nextId].stage.Selling? <==>
                ReachesNewLevel(strategy, actions, mint, ProfitPercent(price, entryPrice)))
  {
    hide Run, Step, Reached, ProfitPercent, Settled;
    var s, profit := Run(strategy, actions), ProfitPercent(price, entryPrice);
    ObservationFires(strategy, s, mint, price, entryPrice);
    forall j | 0 <= j < |strategy.targets|
      ensures Fires(strategy.targets, HitOf(s, mint), profit, j) <==> NewLevel(strategy, actions, mint, profit, j)
    {
      HitIffReached(strategy, actions, mint, j);
    }
  }

  lemma OnlyTarget(strategy: Strategy, hit: set<real>, profit: real)
    requires |strategy.targets| == 1 && profit >= strategy.targets[0].profitPercent
    ensures NextTarget(strategy.targets, hit, profit, 0)
         == if strategy.targets[0].profitPercent in hit then 1 else 0
  {
  }

  /**
    One target. A position reaches it, is sold, and is opened again at any price; the new position reaches the
    same target, and nothing is sold for it.
   */
  lemma ReopenedIsNotSold(
    strategy: Strategy, mint: Mint, price: Price, entryPrice: Price, price2: Price, entryPrice2: Price
  )
    requires |strategy.targets| == 1
    requires ProfitPercent(price, entryPrice) >= strategy.targets[0].profitPercent
    requires ProfitPercent(price2, entryPrice2) >= strategy.targets[0].profitPercent
    ensures var s := Run(strategy, [Observe(mint, Some(price), entryPrice), SellSettled(0, true), Return(0)]);
            var next := Step(strategy, s, Observe(mint, Some(price2), entryPrice2));
            && s.nextId == 1 && strategy.targets[0].profitPercent in HitOf(s, mint)
            && 1 in next.checks && next.checks[1].stage == AtStopLoss && next.events == s.events
  {
    hide Run, Step, NextTarget, ProfitPercent;
    var first, settle := Observe(mint, Some(price), entryPrice), SellSettled(0, true);
    RunAppend(strategy, [], first);
    RunAppend(strategy, [first], settle);
    RunAppend(strategy, [first, settle], Return(0));
    assert [] + [first] == [first] && [first] + [settle] == [first, settle];
    assert [first, settle] + [Return(0)] == [first, settle, Return(0)];
    NoActions(strategy);
    FirstIsSold(strategy, mint, price, entryPrice);
    SecondIsNot(strategy, Run(strategy, [first, settle, Return(0)]), mint, price2, entryPrice2);
  }

  lemma FirstIsSold(strategy: Strategy, mint: Mint, price: Price, entryPrice: Price)
    requires |strategy.targets| == 1
    requires ProfitPercent(price, entryPrice) >= strategy.targets[0].profitPercent
    ensures var s1 := Step(strategy, INITIAL, Observe(mint, Some(price), entryPrice));
            var s3 := Step(strategy, Step(strategy, s1, SellSettled(0, true)), Return(0));
            && s3.nextId == 1 && strategy.targets[0].profitPercent in HitOf(s3, mint)
  {
    hide ProfitPercent, NextTarget;
    OnlyTarget(strategy, {}, ProfitPercent(price, entryPrice));
  }

  lemma SecondIsNot(strategy: Strategy, s: State, mint: Mint, price: Price, entryPrice: Price)
    requires Tracked(strategy, s) && s.nextId == 1 && |strategy.targets| == 1
    requires strategy.targets[0].profitPercent in HitOf(s, mint)
    requires ProfitPercent(price, entryPrice) >= strategy.targets[0].profitPercent
    ensures var next := Step(strategy, s, Observe(mint, Some(price), entryPrice));
            1 in next.checks && next.checks[1].stage == AtStopLoss && next.events == s.events
  {
    hide ProfitPercent, NextTarget;
    OnlyTarget(strategy, HitOf(s, mint), ProfitPercent(price, entryPrice));
  }
}
