/**
  Which configurations keep the configured limits in every run, however trades overlap.
 */
module CopyEngineLimits {
  import opened Sets
  import opened Positions
  import opened PositionLedger
  import opened CopyEngine
  import opened CopyEngineSafety
  import opened CopyEngineOverlap

  //
  // Only allowed tokens are held
  //

  predicate Allows(cfg: Config, mint: Mint) {
    cfg.allowedTokens == [] || mint in cfg.allowedTokens
  }

  ghost predicate OnlyAllowed(cfg: Config, s: EngineState) {
    && (forall id :: id in s.tasks ==> Allows(cfg, s.tasks[id].trade.mint))
    && (forall mint :: mint in s.positions ==> Allows(cfg, mint))
  }

  lemma SettleKeepsAllowed(cfg: Config, s: EngineState, id: nat, outcome: SwapOutcome)
    requires AllPriced(s.positions) && OnlyAllowed(cfg, s) && InPhase(s, id, Executing)
    ensures OnlyAllowed(cfg, SettleStep(cfg, s, id, outcome))
  {
    hide AllPriced, RecordedPositions, Allows;
    if outcome.Sent? {
      RecordedMints(cfg, s.positions, s.tasks[id].trade, outcome.receipt);
    }
  }

  lemma StepKeepsAllowed(cfg: Config, s: EngineState, a: Action)
    requires AllPriced(s.positions) && OnlyAllowed(cfg, s)
    ensures OnlyAllowed(cfg, Step(cfg, s, a))
  {
    hide RiskVerdict, AllPriced, SettleStep;
    if Enabled(s, a) && a.Settle? {
      SettleKeepsAllowed(cfg, s, a.id, a.outcome);
    }
  }

  lemma {:induction false} RunKeepsAllowed(cfg: Config, s: EngineState, actions: seq<Action>)
    requires AllPriced(s.positions) && OnlyAllowed(cfg, s)
    ensures OnlyAllowed(cfg, RunFrom(cfg, s, actions))
    decreases |actions|
  {
    hide Step, AllPriced, OnlyAllowed;
    if actions == [] {
    } else {
      StepKeepsAllowed(cfg, s, actions[0]);
      RunKeepsAllowed(cfg, Step(cfg, s, actions[0]), actions[1..]);
    }
  }

  //
  // Buys that pass by themselves
  //

  /** A buy of an allowed token, large enough not to be skipped. */
  function BuyOf(cfg: Config, mint: Mint): Trade {
    Trade(mint, Buy, cfg.minTradeUsdc, "")
  }

  function Enough(cfg: Config): real {
    cfg.limits.minUsdcReserve + cfg.tradeAmount
  }

  lemma BuyPasses(cfg: Config, mint: Mint)
    requires AdmitsFirstBuy(cfg) && Allows(cfg, mint)
    ensures FirstBuyPasses(cfg, BuyOf(cfg, mint), Enough(cfg))
  {
    hide AdmitsFirstBuy, RiskVerdict;
    FirstBuyAllowed(cfg, mint);
  }

  lemma BuysPass(cfg: Config, mints: seq<Mint>) returns (trades: seq<Trade>)
    requires AdmitsFirstBuy(cfg) && forall mint :: mint in mints ==> Allows(cfg, mint)
    ensures AllPass(cfg, trades, Enough(cfg)) && |trades| == |mints|
    ensures forall i :: 0 <= i < |mints| ==> trades[i].mint == mints[i]
  {
    hide FirstBuyPasses, AdmitsFirstBuy, Allows;
    trades := seq(|mints|, i requires 0 <= i < |mints| => BuyOf(cfg, mints[i]));
    forall t | t in trades
      ensures FirstBuyPasses(cfg, t, Enough(cfg))
    {
      var i :| 0 <= i < |trades| && trades[i] == t;
      assert mints[i] in mints;
      BuyPasses(cfg, mints[i]);
    }
  }

  //
  // The exposure limit
  //

  lemma TimesExceeds(x: real, bound: real, n: nat)
    requires x > 0.0 && n as real > bound / x
    ensures Times(x, n) > bound
  {
    TimesIsProduct(x, n);
    QuotientTimesDivisor(bound, x);
    PositiveProduct(n as real - bound / x, x);
    assert (n as real - bound / x) * x == n as real * x - bound / x * x;
  }

  lemma SomeMultipleExceeds(x: real, bound: real) returns (n: nat)
    requires x > 0.0
    ensures Times(x, n) > bound
  {
    var q := bound / x;
    n := if q < 0.0 then 0 else q.Floor + 1;
    TimesExceeds(x, bound, n);
  }

  lemma ExposureBreaks(cfg: Config) returns (actions: seq<Action>)
    requires cfg.tracksPositions && AdmitsFirstBuy(cfg)
    ensures Exposure(Run(cfg, actions).positions) > cfg.limits.maxTotalExposure
  {
    hide RunFrom, FirstBuyPasses, Exposure, Allows;
    var n := SomeMultipleExceeds(cfg.tradeAmount, cfg.limits.maxTotalExposure);
    var mint := AllowedMint(cfg);
    BuyPasses(cfg, mint);
    actions := OverlapAttainsExposure(cfg, BuyOf(cfg, mint), n, Enough(cfg));
  }

  lemma OnePosition(positions: Portfolio, mint: Mint)
    requires positions.Keys == {mint}
    ensures Exposure(positions) == CostOf(positions, mint)
  {
    ExposureRemove(positions, mint);
    assert positions - {mint} == map[];
    assert Exposure(map[]) == 0.0;
  }

  lemma PositionBreaks(cfg: Config) returns (actions: seq<Action>, mint: Mint)
    requires cfg.tracksPositions && AdmitsFirstBuy(cfg)
    ensures CostOf(Run(cfg, actions).positions, mint) > cfg.limits.maxPositionSize
  {
    hide RunFrom, FirstBuyPasses, Exposure, Allows;
    var n := SomeMultipleExceeds(cfg.tradeAmount, cfg.limits.maxPositionSize);
    mint := AllowedMint(cfg);
    BuyPasses(cfg, mint);
    var trades := seq(n, _ => BuyOf(cfg, mint));
    actions := OverlapAttains(cfg, trades, Enough(cfg));
    assert n == 0 ==> Times(cfg.tradeAmount, n) == 0.0;
    if n > 0 {
      assert trades[0] == BuyOf(cfg, mint) && trades[0] in trades;
      assert MintsOf(trades) == {mint};
      OnePosition(Run(cfg, actions).positions, mint);
    }
  }

  lemma AllowedMint(cfg: Config) returns (mint: Mint)
    ensures Allows(cfg, mint)
  {
    mint := if cfg.allowedTokens == [] then "" else cfg.allowedTokens[0];
  }

  lemma NothingHeld(cfg: Config, actions: seq<Action>)
    requires cfg.tracksPositions && !AdmitsFirstBuy(cfg)
    ensures Run(cfg, actions).positions == map[] && Exposure(Run(cfg, actions).positions) == 0.0
  {
    hide RunFrom, AdmitsFirstBuy;
    ClosedRun(cfg, INITIAL, actions);
  }

  /** The exposure limit holds in every run exactly where it is not negative and no buy is ever admitted. */
  lemma ExposureHoldsIff(cfg: Config)
    requires cfg.tracksPositions
    ensures (forall actions :: Exposure(Run(cfg, actions).positions) <= cfg.limits.maxTotalExposure)
       <==> 0.0 <= cfg.limits.maxTotalExposure && !AdmitsFirstBuy(cfg)
  {
    hide RunFrom, Exposure, AdmitsFirstBuy;
    if AdmitsFirstBuy(cfg) {
      var actions := ExposureBreaks(cfg);
      assert Exposure(Run(cfg, actions).positions) > cfg.limits.maxTotalExposure;
    } else {
      NothingHeld(cfg, []);
      forall actions ensures Exposure(Run(cfg, actions).positions) == 0.0 {
        NothingHeld(cfg, actions);
      }
    }
  }

  /** So does the limit on the size of a position. */
  lemma PositionSizeHoldsIff(cfg: Config)
    requires cfg.tracksPositions
    ensures (forall actions, mint :: CostOf(Run(cfg, actions).positions, mint) <= cfg.limits.maxPositionSize)
       <==> 0.0 <= cfg.limits.maxPositionSize && !AdmitsFirstBuy(cfg)
  {
    hide RunFrom, AdmitsFirstBuy;
    if AdmitsFirstBuy(cfg) {
      var actions, mint := PositionBreaks(cfg);
      assert CostOf(Run(cfg, actions).positions, mint) > cfg.limits.maxPositionSize;
    } else {
      NothingHeld(cfg, []);
      assert CostOf(Run(cfg, []).positions, "") == 0.0;
      forall actions, mint ensures CostOf(Run(cfg, actions).positions, mint) == 0.0 {
        NothingHeld(cfg, actions);
      }
    }
  }

  //
  // The limit on the number of positions
  //

  function Allowed(cfg: Config): set<Mint> {
    set mint | mint in cfg.allowedTokens
  }

  predicate DistinctTokens(mints: seq<Mint>) {
    forall i, j :: 0 <= i < j < |mints| ==> mints[i] != mints[j]
  }

  lemma {:induction false} ListOf(mints: set<Mint>) returns (list: seq<Mint>)
    ensures |list| == |mints| && DistinctTokens(list) && forall mint :: mint in list <==> mint in mints
    decreases |mints|
  {
    if mints == {} {
      list := [];
    } else {
      var some :| some in mints;
      var rest := ListOf(mints - {some});
      list := rest + [some];
    }
  }

  /** Any number of names. */
  lemma {:induction false} Names(n: nat) returns (names: seq<Mint>)
    ensures |names| == n && DistinctTokens(names) && forall i :: 0 <= i < n ==> |names[i]| == i
  {
    if n == 0 {
      names := [];
    } else {
      var rest := Names(n - 1);
      var name: Mint := seq(n - 1, _ => 'x');
      names := rest + [name];
    }
  }

  lemma CountAttained(cfg: Config, mints: seq<Mint>) returns (actions: seq<Action>)
    requires cfg.tracksPositions && AdmitsFirstBuy(cfg)
    requires DistinctTokens(mints) && forall mint :: mint in mints ==> Allows(cfg, mint)
    ensures |Run(cfg, actions).positions| == |mints|
  {
    hide RunFrom, AllPass, Allows, AdmitsFirstBuy;
    var trades := BuysPass(cfg, mints);
    actions := OverlapAttainsCount(cfg, trades, Enough(cfg));
  }

  lemma CountWithinAllowed(cfg: Config, actions: seq<Action>)
    requires cfg.allowedTokens != []
    ensures |Run(cfg, actions).positions| <= |Allowed(cfg)|
  {
    hide RunFrom;
    RunKeepsAllowed(cfg, INITIAL, actions);
    var positions := Run(cfg, actions).positions;
    SubsetNotLarger(positions.Keys, Allowed(cfg));
    assert |positions.Keys| == |positions|;
  }

  /** No more tokens are allowed than may be held. */
  predicate FewAllowed(cfg: Config) {
    cfg.allowedTokens != [] && |Allowed(cfg)| <= cfg.limits.maxOpenPositions
  }

  lemma CountBreaks(cfg: Config) returns (actions: seq<Action>)
    requires cfg.tracksPositions && AdmitsFirstBuy(cfg) && !FewAllowed(cfg)
    ensures |Run(cfg, actions).positions| > cfg.limits.maxOpenPositions
  {
    hide RunFrom;
    if cfg.allowedTokens == [] {
      var mints := Names(cfg.limits.maxOpenPositions + 1);
      actions := CountAttained(cfg, mints);
    } else {
      var mints := ListOf(Allowed(cfg));
      actions := CountAttained(cfg, mints);
    }
  }

  /** The limit on positions holds in every run exactly where no buy is admitted or too few tokens are allowed. */
  lemma CountHoldsIff(cfg: Config)
    requires cfg.tracksPositions
    ensures (forall actions :: |Run(cfg, actions).positions| <= cfg.limits.maxOpenPositions)
       <==> 0 <= cfg.limits.maxOpenPositions && (!AdmitsFirstBuy(cfg) || FewAllowed(cfg))
  {
    hide RunFrom, AdmitsFirstBuy, FewAllowed;
    assert Run(cfg, []).positions == map[] by {
      NoSteps(cfg);
    }
    if AdmitsFirstBuy(cfg) && !FewAllowed(cfg) {
      var actions := CountBreaks(cfg);
      assert |Run(cfg, actions).positions| > cfg.limits.maxOpenPositions;
    } else if 0 <= cfg.limits.maxOpenPositions {
      forall actions
        ensures |Run(cfg, actions).positions| <= cfg.limits.maxOpenPositions
      {
        if AdmitsFirstBuy(cfg) {
          FewAreHeld(cfg, actions);
        } else {
          NothingHeld(cfg, actions);
        }
      }
    }
  }

  lemma FewAreHeld(cfg: Config, actions: seq<Action>)
    requires FewAllowed(cfg)
    ensures |Run(cfg, actions).positions| <= cfg.limits.maxOpenPositions
  {
    hide RunFrom;
    CountWithinAllowed(cfg, actions);
  }
}
