/**
  How often, for which buys and for how long a pre-built transaction is used, over every interleaving.
 */
module TxCacheReuse {
  import opened TxCache

  lemma RunAppend(actions: seq<Action>, a: Action)
    ensures Run(actions + [a]) == Step(Run(actions), a)
  {
    assert (actions + [a])[..|actions|] == actions;
  }

  //
  // What a transaction in the cache has been used for
  //

  /** Buys of the token that are sending a cached transaction. */
  ghost function Sending(s: State, mint: Mint): set<nat> {
    set id | id in s.sends && s.sends[id].order.mint == mint
  }

  ghost function SendsOf(s: State, tx: PreBuilt): set<nat> {
    set id | id in s.sends && s.sends[id].tx == tx
  }

  function PickCount(picks: seq<Pick>, tx: PreBuilt): nat
    decreases |picks|
  {
    if picks == [] then 0
    else PickCount(picks[..|picks| - 1], tx) + (if picks[|picks| - 1].tx == tx then 1 else 0)
  }

  lemma PickCountAppend(picks: seq<Pick>, pick: Pick, tx: PreBuilt)
    ensures PickCount(picks + [pick], tx) == PickCount(picks, tx) + (if pick.tx == tx then 1 else 0)
  {
    assert (picks + [pick])[..|picks|] == picks;
  }

  /** A transaction is for its token, lives for its time to live, and has a serial number already given out. */
  predicate Made(tx: PreBuilt, mint: Mint, nextSerial: nat) {
    tx.mint == mint && tx.expiresAt == tx.createdAt + PREBUILT_TX_TTL && tx.serial < nextSerial
  }

  predicate PickValid(pick: Pick, nextSerial: nat) {
    Made(pick.tx, pick.order.mint, nextSerial) && pick.at < pick.tx.expiresAt
  }

  ghost predicate Consistent(s: State) {
    && (forall mint :: mint in s.txCache ==> Made(s.txCache[mint], mint, s.nextSerial))
    && (forall id :: id in s.sends ==> id < s.nextId && Made(s.sends[id].tx, s.sends[id].order.mint, s.nextSerial))
    && (forall id :: id in s.builds ==> id < s.nextId)
    && (forall pick :: pick in s.picks ==> PickValid(pick, s.nextSerial))
  }

  /** As long as a transaction is in the cache, every buy that picked it is still sending it. */
  ghost predicate CachedPicksSend(s: State) {
    forall mint :: mint in s.txCache ==>
      PickCount(s.picks, s.txCache[mint]) == |SendsOf(s, s.txCache[mint])|
  }

  //
  // Every step keeps this
  //

  lemma BuildsKeep(s: State, mints: seq<Mint>, usdcAmount: real)
    ensures var next := BuildsStarted(s, mints, usdcAmount);
            next == s.(builds := next.builds, nextId := next.nextId) && next.nextId >= s.nextId
    decreases |mints|
  {
  }

  lemma {:induction false} FreshNeverPicked(picks: seq<Pick>, tx: PreBuilt)
    requires forall pick :: pick in picks ==> pick.tx.serial < tx.serial
    ensures PickCount(picks, tx) == 0
    decreases |picks|
  {
    if picks != [] {
      FreshNeverPicked(picks[..|picks| - 1], tx);
    }
  }

  lemma {:induction false} BuildsStartedAre(s: State, mints: seq<Mint>, usdcAmount: real)
    requires forall id :: id in s.builds ==> id < s.nextId
    ensures var next := BuildsStarted(s, mints, usdcAmount);
            && (forall id :: id in next.builds ==> id < next.nextId)
            && (forall id :: id in next.builds ==>
                  (id in s.builds && next.builds[id] == s.builds[id])
                  || (id >= s.nextId && next.builds[id].usdcAmount == usdcAmount && next.builds[id].mint in mints))
            && (forall mint :: mint in mints ==>
                  exists id :: id in next.builds && id >= s.nextId && next.builds[id].mint == mint)
            && (forall id :: id in s.builds ==> id in next.builds && next.builds[id] == s.builds[id])
    decreases |mints|
  {
    if mints != [] {
      var begun := BuildStarted(s, Order(mints[0], usdcAmount));
      var next := BuildsStarted(s, mints, usdcAmount);
      BuildsStartedAre(begun, mints[1..], usdcAmount);
      assert s.nextId in begun.builds && begun.builds[s.nextId].mint == mints[0];
      forall mint | mint in mints
        ensures exists id :: id in next.builds && id >= s.nextId && next.builds[id].mint == mint
      {
        if mint == mints[0] {
          assert s.nextId in next.builds && next.builds[s.nextId].mint == mint;
        } else {
          assert mint in mints[1..];
          var id :| id in next.builds && id >= begun.nextId && next.builds[id].mint == mint;
          assert id >= s.nextId;
        }
      }
    }
  }

  lemma StepConsistent(s: State, a: Action)
    requires Consistent(s)
    ensures Consistent(Step(s, a))
  {
    hide BuildsStarted, ToRefresh, PickValid, Made;
    if a.Refresh? {
      RefreshConsistent(s, a);
    } else if a.BuildSettled? && Enabled(s, a) {
      BuildSettledConsistent(s, a.id, a.now, a.succeeded);
    } else if a.Buy? && Usable(s.txCache, a.order.mint, a.now) {
      PickIsValid(s, a);
    }
  }

  lemma RefreshConsistent(s: State, a: Action)
    requires Consistent(s) && a.Refresh?
    ensures Consistent(Step(s, a))
  {
    hide BuildsStarted, ToRefresh, PickValid, Made;
    var mints := ToRefresh(s.txCache, a.tokens, a.now);
    BuildsKeep(s, mints, a.usdcAmount);
    BuildsStartedAre(s, mints, a.usdcAmount);
  }

  lemma BuildSettledConsistent(s: State, id: nat, now: int, succeeded: bool)
    requires Consistent(s) && id in s.builds
    ensures Consistent(BuildSettledStep(s, id, now, succeeded))
  {
  }

  lemma PickIsValid(s: State, a: Action)
    requires Consistent(s) && a.Buy? && Usable(s.txCache, a.order.mint, a.now)
    ensures PickValid(Pick(a.order, s.txCache[a.order.mint], a.now), s.nextSerial)
  {
  }

  lemma SendsOfAfterPut(s: State, next: State, id: nat, send: Send, tx: PreBuilt)
    requires id !in s.sends && next.sends == s.sends[id := send]
    ensures |SendsOf(next, tx)| == |SendsOf(s, tx)| + (if send.tx == tx then 1 else 0)
  {
    assert SendsOf(next, tx) == SendsOf(s, tx) + (if send.tx == tx then {id} else {});
  }

  lemma BuyKeepsPicks(s: State, order: Order, now: int)
    requires Consistent(s) && CachedPicksSend(s)
    ensures CachedPicksSend(BuyStep(s, order, now))
  {
    hide SendsOf, PickCount, PickValid, Made;
    var next := BuyStep(s, order, now);
    if Usable(s.txCache, order.mint, now) {
      var picked := s.txCache[order.mint];
      assert s.nextId !in s.sends;
      forall mint | mint in next.txCache
        ensures PickCount(next.picks, next.txCache[mint]) == |SendsOf(next, next.txCache[mint])|
      {
        PickCountAppend(s.picks, Pick(order, picked, now), s.txCache[mint]);
        SendsOfAfterPut(s, next, s.nextId, Send(order, picked), s.txCache[mint]);
      }
    } else {
      SamePicks(s, next);
    }
  }

  lemma SendSettledKeepsPicks(s: State, id: nat, succeeded: bool)
    requires Consistent(s) && CachedPicksSend(s) && id in s.sends
    ensures CachedPicksSend(SendSettledStep(s, id, succeeded))
  {
    var next := SendSettledStep(s, id, succeeded);
    forall mint | mint in next.txCache
      ensures PickCount(next.picks, next.txCache[mint]) == |SendsOf(next, next.txCache[mint])|
    {
      assert SendsOf(next, s.txCache[mint]) == SendsOf(s, s.txCache[mint]);
    }
  }

  lemma BuildSettledKeepsPicks(s: State, id: nat, now: int, succeeded: bool)
    requires Consistent(s) && CachedPicksSend(s) && id in s.builds
    ensures CachedPicksSend(BuildSettledStep(s, id, now, succeeded))
  {
    var next := BuildSettledStep(s, id, now, succeeded);
    forall mint | mint in next.txCache
      ensures PickCount(next.picks, next.txCache[mint]) == |SendsOf(next, next.txCache[mint])|
    {
      var tx := next.txCache[mint];
      assert SendsOf(next, tx) == SendsOf(s, tx);
      if succeeded && mint == s.builds[id].mint {
        FreshNeverPicked(s.picks, tx);
        assert SendsOf(s, tx) == {};
      }
    }
  }

  lemma StepKeepsPicks(s: State, a: Action)
    requires Consistent(s) && CachedPicksSend(s)
    ensures CachedPicksSend(Step(s, a))
  {
    hide BuildsStarted, ToRefresh, BuyStep, SendSettledStep, BuildSettledStep;
    if Enabled(s, a) {
      match a
      case Buy(order, now) => BuyKeepsPicks(s, order, now);
      case SendSettled(id, succeeded) => SendSettledKeepsPicks(s, id, succeeded);
      case PreBuild(order) => SamePicks(s, Step(s, a));
      case BuildSettled(id, now, succeeded) => BuildSettledKeepsPicks(s, id, now, succeeded);
      case Refresh(tokens, usdcAmount, now) =>
        BuildsKeep(s, ToRefresh(s.txCache, tokens, now), usdcAmount);
        SamePicks(s, Step(s, a));
    }
  }

  lemma SamePicks(s: State, next: State)
    requires CachedPicksSend(s)
    requires next.txCache == s.txCache && next.sends == s.sends && next.picks == s.picks
    ensures CachedPicksSend(next)
  {
    assert forall tx :: SendsOf(next, tx) == SendsOf(s, tx);
  }

  //
  // How often a transaction is used
  //

  /** The largest number of buys of the token that ever sent a cached transaction at once. */
  ghost function PeakSends(actions: seq<Action>, mint: Mint): (peak: nat)
    ensures peak >= |Sending(Run(actions), mint)|
    decreases |actions|
  {
    var here := |Sending(Run(actions), mint)|;
    if actions == [] then here
    else
      var before := PeakSends(actions[..|actions| - 1], mint);
      if before > here then before else here
  }

  lemma SendsOfSend(s: State, tx: PreBuilt)
    requires Consistent(s)
    ensures |SendsOf(s, tx)| <= |Sending(s, tx.mint)|
  {
    assert SendsOf(s, tx) <= Sending(s, tx.mint);
    assert |Sending(s, tx.mint)| == |SendsOf(s, tx)| + |Sending(s, tx.mint) - SendsOf(s, tx)|;
  }

  lemma PicksGrowInCache(s: State, a: Action, tx: PreBuilt)
    ensures var next := Step(s, a);
            || PickCount(next.picks, tx) == PickCount(s.picks, tx)
            || (tx.mint in next.txCache && next.txCache[tx.mint] == tx)
            || (exists mint :: mint in s.txCache && s.txCache[mint] == tx && mint != tx.mint)
  {
    hide BuildsStarted, ToRefresh;
    if a.Refresh? {
      BuildsKeep(s, ToRefresh(s.txCache, a.tokens, a.now), a.usdcAmount);
    }
    if a.Buy? && Usable(s.txCache, a.order.mint, a.now) {
      PickCountAppend(s.picks, Pick(a.order, s.txCache[a.order.mint], a.now), tx);
    }
  }

  lemma {:induction false} RunIsConsistent(actions: seq<Action>)
    ensures Consistent(Run(actions)) && CachedPicksSend(Run(actions))
    decreases |actions|
  {
    hide Step, Consistent, CachedPicksSend;
    if actions == [] {
      InitiallyConsistent();
    } else {
      var s, a := Run(actions[..|actions| - 1]), actions[|actions| - 1];
      RunIsConsistent(actions[..|actions| - 1]);
      StepConsistent(s, a);
      StepKeepsPicks(s, a);
    }
  }

  lemma InitiallyConsistent()
    ensures Consistent(INITIAL) && CachedPicksSend(INITIAL)
  {
  }

  /**
    Under any interleaving: a transaction is picked at most as often as buys of its token ever overlapped
    in sending; so it is used once if they never do.
   */
  lemma {:induction false} PicksWithinPeak(actions: seq<Action>, tx: PreBuilt)
    ensures PickCount(Run(actions).picks, tx) <= PeakSends(actions, tx.mint)
    decreases |actions|
  {
    hide Step, Sending, SendsOf, PickCount;
    if actions == [] {
      NoPicks(tx);
    } else {
      var s, next := Run(actions[..|actions| - 1]), Run(actions);
      PicksWithinPeak(actions[..|actions| - 1], tx);
      RunIsConsistent(actions[..|actions| - 1]);
      RunIsConsistent(actions);
      PicksGrowInCache(s, actions[|actions| - 1], tx);
      SendsOfSend(next, tx);
    }
  }

  lemma NoPicks(tx: PreBuilt)
    ensures PickCount(INITIAL.picks, tx) == 0
  {
  }

  /** Every pick ever made was of a transaction of the buy's own token, strictly before it expired. */
  lemma PicksAreValid(actions: seq<Action>)
    ensures forall pick :: pick in Run(actions).picks ==>
      pick.tx.mint == pick.order.mint && pick.at < pick.tx.expiresAt == pick.tx.createdAt + PREBUILT_TX_TTL
  {
    RunIsConsistent(actions);
  }

  /** In any reachable state: a buy reuses a transaction if and only if another buy is still sending that one. */
  lemma ReusesIff(actions: seq<Action>, order: Order, now: int)
    requires Usable(Run(actions).txCache, order.mint, now)
    ensures var s := Run(actions); var tx := s.txCache[order.mint];
            PickCount(Step(s, Buy(order, now)).picks, tx) > 1
            <==> exists id :: id in s.sends && s.sends[id].tx == tx
  {
    hide PickCount;
    var s := Run(actions);
    var tx := s.txCache[order.mint];
    RunIsConsistent(actions);
    PickCountAppend(s.picks, Pick(order, tx, now), tx);
    if id :| id in s.sends && s.sends[id].tx == tx {
      assert |SendsOf(s, tx)| == 1 + |SendsOf(s, tx) - {id}|;
    } else {
      assert SendsOf(s, tx) == {};
    }
  }

  /** The shortest run after which a transaction is ready, built at time 0. */
  lemma Ready(order: Order) returns (actions: seq<Action>, tx: PreBuilt)
    ensures actions == [PreBuild(order), BuildSettled(0, 0, true)]
    ensures tx == PreBuilt(0, order.mint, order.usdcAmount, 0, PREBUILT_TX_TTL)
    ensures Run(actions)
         == INITIAL.(txCache := map[order.mint := tx], nextId := 1, nextSerial := 1)
  {
    tx := PreBuilt(0, order.mint, order.usdcAmount, 0, PREBUILT_TX_TTL);
    actions := [] + [PreBuild(order)];
    RunAppend([], PreBuild(order));
    RunAppend(actions, BuildSettled(0, 0, true));
    actions := actions + [BuildSettled(0, 0, true)];
  }

  /**
    However many buys of a token overlap: when a transaction is ready they all pick it, since it is
    deleted only after it was sent.
   */
  lemma {:induction false} OverlapReuses(order: Order, n: nat) returns (actions: seq<Action>, tx: PreBuilt)
    ensures var s := Run(actions);
            && s.txCache == map[order.mint := tx] && 0 < tx.expiresAt
            && |s.sends| == n && (forall id :: id in s.sends ==> id < s.nextId && s.sends[id] == Send(order, tx))
            && PickCount(s.picks, tx) == n
    ensures forall a :: a in actions ==> !a.SendSettled?
  {
    hide PickCount;
    if n == 0 {
      actions, tx := Ready(order);
      NoPicks(tx);
    } else {
      var before;
      before, tx := OverlapReuses(order, n - 1);
      var s := Run(before);
      actions := before + [Buy(order, 0)];
      assert actions[..|actions| - 1] == before;
      assert Run(actions) == Step(s, Buy(order, 0));
      PickCountAppend(s.picks, Pick(order, tx, 0), tx);
    }
  }

  //
  // The path that each buy takes
  //

  function CountBuys(actions: seq<Action>): nat
    decreases |actions|
  {
    if actions == [] then 0
    else CountBuys(actions[..|actions| - 1]) + (if actions[|actions| - 1].Buy? then 1 else 0)
  }

  /**
    Every buy awaits the sending of a cached transaction, has heard that it was sent, or has gone on to the
    on-demand path. The last includes sends that were reported as failed, sent or not.
   */
  ghost predicate BuysBalance(s: State, buys: nat) {
    buys == |s.sends| + s.sentPreBuilt + s.builtOnDemand
  }

  lemma StepBalance(s: State, a: Action, buys: nat)
    requires Consistent(s) && BuysBalance(s, buys)
    ensures BuysBalance(Step(s, a), if a.Buy? then buys + 1 else buys)
  {
    hide BuildsStarted, ToRefresh;
    if a.Refresh? {
      BuildsKeep(s, ToRefresh(s.txCache, a.tokens, a.now), a.usdcAmount);
    } else if a.SendSettled? && Enabled(s, a) {
      assert |s.sends - {a.id}| == |s.sends| - 1 by {
        assert s.sends == (s.sends - {a.id})[a.id := s.sends[a.id]];
      }
    }
  }

  lemma {:induction false} EveryBuyTakesOnePath(actions: seq<Action>)
    ensures BuysBalance(Run(actions), CountBuys(actions))
    decreases |actions|
  {
    hide Step, Consistent;
    if actions == [] {
    } else {
      EveryBuyTakesOnePath(actions[..|actions| - 1]);
      RunIsConsistent(actions[..|actions| - 1]);
      StepBalance(Run(actions[..|actions| - 1]), actions[|actions| - 1], CountBuys(actions[..|actions| - 1]));
    }
  }

  //
  // The amount that a transaction was built for
  //

  predicate UsesAmount(a: Action, usdcAmount: real) {
    match a
    case Buy(order, _) => order.usdcAmount == usdcAmount
    case PreBuild(order) => order.usdcAmount == usdcAmount
    case Refresh(_, amount, _) => amount == usdcAmount
    case _ => true
  }

  ghost predicate HoldsAmount(s: State, usdcAmount: real) {
    && (forall mint :: mint in s.txCache ==> s.txCache[mint].usdcAmount == usdcAmount)
    && (forall id :: id in s.builds ==> s.builds[id].usdcAmount == usdcAmount)
    && (forall id :: id in s.sends ==> s.sends[id].order.usdcAmount == usdcAmount)
    && (forall pick :: pick in s.picks ==> pick.tx.usdcAmount == pick.order.usdcAmount == usdcAmount)
  }

  lemma StepHoldsAmount(s: State, a: Action, usdcAmount: real)
    requires Consistent(s) && HoldsAmount(s, usdcAmount) && UsesAmount(a, usdcAmount)
    ensures HoldsAmount(Step(s, a), usdcAmount)
  {
    hide BuildsStarted, ToRefresh, PickValid, Made;
    if a.Refresh? {
      var mints := ToRefresh(s.txCache, a.tokens, a.now);
      BuildsKeep(s, mints, a.usdcAmount);
      BuildsStartedAre(s, mints, a.usdcAmount);
    }
  }

  /** When buys and builds all use one amount, every pick is of a transaction for the amount it buys. */
  lemma {:induction false} OneAmountMatches(actions: seq<Action>, usdcAmount: real)
    requires forall a :: a in actions ==> UsesAmount(a, usdcAmount)
    ensures HoldsAmount(Run(actions), usdcAmount)
    decreases |actions|
  {
    hide Step, Consistent, UsesAmount;
    if actions == [] {
    } else {
      OneAmountMatches(actions[..|actions| - 1], usdcAmount);
      RunIsConsistent(actions[..|actions| - 1]);
      StepHoldsAmount(Run(actions[..|actions| - 1]), actions[|actions| - 1], usdcAmount);
    }
  }

  predicate PicksMatch(picks: seq<Pick>) {
    forall pick :: pick in picks ==> pick.tx.usdcAmount == pick.order.usdcAmount
  }

  predicate UsesAmounts(a: Action, amounts: set<real>) {
    match a
    case Buy(order, _) => order.usdcAmount in amounts
    case PreBuild(order) => order.usdcAmount in amounts
    case Refresh(_, amount, _) => amount in amounts
    case _ => true
  }

  predicate AllUseAmounts(actions: seq<Action>, amounts: set<real>) {
    forall a :: a in actions ==> UsesAmounts(a, amounts)
  }

  /**
    For any two amounts: a transaction built for the first is picked by a buy of the second. The engine and
    the refreshes are configured with one amount, so only a caller of the public buyToken with another amount
    can meet this.
   */
  lemma MismatchedPick(mint: Mint, built: real, bought: real) returns (actions: seq<Action>)
    requires built != bought
    ensures actions == [PreBuild(Order(mint, built)), BuildSettled(0, 0, true), Buy(Order(mint, bought), 0)]
    ensures AllUseAmounts(actions, {built, bought}) && !PicksMatch(Run(actions).picks)
  {
    var ready, tx := Ready(Order(mint, built));
    var buy := Buy(Order(mint, bought), 0);
    actions := ready + [buy];
    RunAppend(ready, buy);
    assert Pick(Order(mint, bought), tx, 0) in Run(actions).picks;
  }

  /** Exactly which sets of amounts make every run pick only transactions for the amount that it buys. */
  lemma AmountsMatchIff(amounts: set<real>)
    ensures (forall actions :: AllUseAmounts(actions, amounts) ==> PicksMatch(Run(actions).picks))
       <==> |amounts| <= 1
  {
    hide Run, PicksMatch;
    if built, bought :| built in amounts && bought in amounts && built != bought {
      var actions := MismatchedPick("", built, bought);
      assert AllUseAmounts(actions, amounts);
      assert |amounts| == |{built, bought}| + |amounts - {built, bought}|;
    } else {
      var amount := 0.0;
      if some :| some in amounts {
        amount := some;
      }
      forall other | other in amounts
        ensures other == amount
      {
        assert amount in amounts;
      }
      assert amounts <= {amount};
      assert |{amount}| == |amounts| + |{amount} - amounts|;
      forall actions | AllUseAmounts(actions, amounts)
        ensures PicksMatch(Run(actions).picks)
      {
        assert forall a :: a in actions ==> UsesAmounts(a, amounts) && UsesAmount(a, amount);
        OneAmountMatches(actions, amount);
        HeldAmountMatches(Run(actions), amount);
      }
    }
  }

  lemma HeldAmountMatches(s: State, usdcAmount: real)
    requires HoldsAmount(s, usdcAmount)
    ensures PicksMatch(s.picks)
  {
  }

  //
  // Whether a refresh leaves the token without a transaction before the next refresh
  //

  /** A build for the token has begun, or its transaction stays usable until the next refresh. */
  ghost predicate CoveredUntilNextRefresh(s: State, next: State, mint: Mint, now: int) {
    || (exists id :: id in next.builds && id >= s.nextId && next.builds[id].mint == mint)
    || (forall t :: now <= t < now + PREBUILT_TX_REFRESH_INTERVAL ==> Usable(next.txCache, mint, t))
  }

  /**
    The threshold is shorter than the interval, so not every allowed token always has a fresh
    transaction: a refresh leaves a gap exactly when what it finds has between 15 and 30 seconds left.
   */
  lemma RefreshCoversIff(actions: seq<Action>, tokens: seq<Mint>, usdcAmount: real, mint: Mint, now: int)
    requires mint in tokens && mint in Run(actions).txCache
    ensures var s := Run(actions);
            var left := s.txCache[mint].expiresAt - now;
            CoveredUntilNextRefresh(s, Step(s, Refresh(tokens, usdcAmount, now)), mint, now)
            <==> !(REFRESH_THRESHOLD <= left < PREBUILT_TX_REFRESH_INTERVAL)
  {
    hide Run, BuildsStarted, ToRefresh, CachedPicksSend, PickValid, Made;
    var s := Run(actions);
    var mints, left := ToRefresh(s.txCache, tokens, now), s.txCache[mint].expiresAt - now;
    RunIsConsistent(actions);
    BuildsKeep(s, mints, usdcAmount);
    BuildsStartedAre(s, mints, usdcAmount);
    if REFRESH_THRESHOLD <= left < PREBUILT_TX_REFRESH_INTERVAL {
      assert !Usable(s.txCache, mint, now + left);
    }
  }

  /** A gap that occurs: the transaction built at time 0 has exactly 15 seconds left at the refresh 30 seconds later. */
  lemma RefreshLeavesGap(order: Order, usdcAmount: real) returns (actions: seq<Action>)
    ensures var s, now := Run(actions), PREBUILT_TX_REFRESH_INTERVAL;
            && order.mint in s.txCache && s.txCache[order.mint].expiresAt - now == REFRESH_THRESHOLD
            && !CoveredUntilNextRefresh(s, Step(s, Refresh([order.mint], usdcAmount, now)), order.mint, now)
  {
    hide Run, CoveredUntilNextRefresh;
    var tx;
    actions, tx := Ready(order);
    RefreshCoversIff(actions, [order.mint], usdcAmount, order.mint, PREBUILT_TX_REFRESH_INTERVAL);
  }
}
