/**
  The four counters of hit exits, each told from the events.
 */
module ExitKinds {
  import opened Wrappers
  import opened Exits
  import opened ExitHistory

  datatype Kind = TakesProfit | StopsLoss | EndsHolding | Trails

  function KindOf(exit: Exit): Kind {
    match exit
    case TakeProfit(_) => TakesProfit
    case StopLoss => StopsLoss
    case TimeLimit => EndsHolding
    case TrailingStop => Trails
  }

  function HitsOf(stats: ExitStats, kind: Kind): nat {
    match kind
    case TakesProfit => stats.takeProfitsHit
    case StopsLoss => stats.stopLossesHit
    case EndsHolding => stats.timeLimitsHit
    case Trails => stats.trailingStopsHit
  }

  /** How many sells for exits of this kind have begun. */
  function BegunOf(events: seq<Event>, kind: Kind): nat
    decreases |events|
  {
    if events == [] then 0
    else
      var last := events[|events| - 1];
      BegunOf(events[..|events| - 1], kind) + (if last.kind == Triggered && KindOf(last.exit) == kind then 1 else 0)
  }

  lemma BegunOfAppend(events: seq<Event>, e: Event, kind: Kind)
    ensures BegunOf(events + [e], kind)
         == BegunOf(events, kind) + (if e.kind == Triggered && KindOf(e.exit) == kind then 1 else 0)
  {
    assert (events + [e])[..|events|] == events;
  }

  function InSaleOf(kind: Kind): Check -> bool {
    (c: Check) => InSale(c.stage) && KindOf(c.stage.exit) == kind
  }

  /** Sells for this kind that have begun and not returned to their exit. */
  ghost function SalesOf(s: State, kind: Kind): set<nat> {
    Ids(s.checks, InSaleOf(kind))
  }

  ghost predicate KindBalance(s: State, kind: Kind) {
    BegunOf(s.events, kind) == HitsOf(s.stats, kind) + |SalesOf(s, kind)|
  }

  lemma PutKind(s: State, id: nat, c: Check, next: State, kind: Kind)
    requires KindBalance(s, kind) && next.stats == s.stats && next.events == s.events
    requires next.checks == s.checks[id := c]
    requires InSaleOf(kind)(c) <==> id in s.checks && InSaleOf(kind)(s.checks[id])
    ensures KindBalance(next, kind)
  {
    hide Ids, BegunOf;
    IdsAfterPut(s.checks, id, c, InSaleOf(kind));
  }

  lemma DropKind(s: State, id: nat, next: State, kind: Kind)
    requires KindBalance(s, kind) && next.stats == s.stats && next.events == s.events
    requires next.checks == s.checks - {id} && (id in s.checks ==> !InSale(s.checks[id].stage))
    ensures KindBalance(next, kind)
  {
    hide Ids, BegunOf;
    IdsAfterDrop(s.checks, id, InSaleOf(kind));
  }

  lemma BeginKind(s: State, id: nat, exit: Exit, kind: Kind)
    requires id in s.checks && !InSale(s.checks[id].stage) && KindBalance(s, kind)
    ensures KindBalance(SellBegun(s, id, exit), kind)
  {
    hide Ids, BegunOf;
    var c := s.checks[id];
    IdsAfterPut(s.checks, id, c.(stage := Selling(exit)), InSaleOf(kind));
    BegunOfAppend(s.events, Event(Triggered, id, c.mint, exit), kind);
  }

  lemma ScanKind(strategy: Strategy, s: State, id: nat, kind: Kind)
    requires id in s.checks && s.checks[id].stage.Scanning? && Sound(strategy, s.exitStates, s.checks[id])
    requires KindBalance(s, kind)
    ensures KindBalance(Scan(strategy, s, id), kind)
  {
    hide KindBalance, SellBegun;
    var c := s.checks[id];
    var i := NextTarget(strategy.targets, s.exitStates[c.mint].tpHit, c.profitPercent, c.stage.from);
    if i < |strategy.targets| {
      BeginKind(s, id, TakeProfit(i), kind);
    } else {
      PutKind(s, id, c.(stage := AtStopLoss), MovedTo(s, id, AtStopLoss), kind);
    }
  }

  lemma ResumeKind(strategy: Strategy, s: State, id: nat, hoursHeld: real, kind: Kind)
    requires id in s.checks && Sound(strategy, s.exitStates, s.checks[id])
    requires s.checks[id].stage in {AtStopLoss, AtTimeLimit, AtTrailing} && KindBalance(s, kind)
    ensures KindBalance(ResumeStep(strategy, s, id, hoursHeld), kind)
  {
    hide KindBalance, TrailingFires;
    var next := ResumeStep(strategy, s, id, hoursHeld);
    if id !in next.checks {
      DropKind(s, id, next, kind);
    } else if next.checks[id].stage.Selling? {
      BeginKind(s, id, next.checks[id].stage.exit, kind);
    } else {
      PutKind(s, id, next.checks[id], next, kind);
    }
  }

  lemma ReportKind(s: State, id: nat, succeeded: bool, kind: Kind)
    requires id in s.checks && s.checks[id].stage.Selling? && KindBalance(s, kind)
    ensures KindBalance(Report(s, id, succeeded), kind)
  {
    hide Ids, BegunOf;
    var c, next := s.checks[id], Report(s, id, succeeded);
    IdsAfterPut(s.checks, id, next.checks[id], InSaleOf(kind));
    BegunOfAppend(s.events, next.events[|s.events|], kind);
  }

  lemma HitKind(strategy: Strategy, s: State, id: nat, kind: Kind)
    requires id in s.checks && s.checks[id].stage.Sold? && Sound(strategy, s.exitStates, s.checks[id])
    requires KindBalance(s, kind)
    ensures KindBalance(Hit(strategy, s, id), kind)
  {
    hide Ids, BegunOf, Marked;
    var next := Hit(strategy, s, id);
    if id in next.checks {
      IdsAfterPut(s.checks, id, next.checks[id], InSaleOf(kind));
    } else {
      IdsAfterDrop(s.checks, id, InSaleOf(kind));
    }
  }

  lemma StepKind(strategy: Strategy, s: State, a: Action, kind: Kind)
    requires Tracked(strategy, s) && KindBalance(s, kind)
    ensures KindBalance(Step(strategy, s, a), kind)
  {
    hide KindBalance, Scan, ResumeStep, Hit, Report;
    if Enabled(s, a) {
      match a
      case Observe(mint, price, entryPrice) =>
        if price.Some? {
          var noted := Note(s, mint, price.value, entryPrice);
          PutKind(s, s.nextId, noted.checks[s.nextId], noted, kind);
          ScanKind(strategy, noted, s.nextId, kind);
        }
      case Resume(id, hoursHeld) => ResumeKind(strategy, s, id, hoursHeld, kind);
      case SellSettled(id, succeeded) => ReportKind(s, id, succeeded, kind);
      case Return(id) => ReturnKind(strategy, s, id, kind);
    }
  }

  lemma ReturnKind(strategy: Strategy, s: State, id: nat, kind: Kind)
    requires id in s.checks && s.checks[id].stage.Sold? && Sound(strategy, s.exitStates, s.checks[id])
    requires KindBalance(s, kind)
    ensures KindBalance(ReturnStep(strategy, s, id), kind)
  {
    hide KindBalance, Scan;
    HitKind(strategy, s, id, kind);
    if s.checks[id].stage.exit.TakeProfit? {
      ScanKind(strategy, Hit(strategy, s, id), id, kind);
    }
  }

  lemma NoKind(kind: Kind)
    ensures KindBalance(INITIAL, kind)
  {
    assert SalesOf(INITIAL, kind) == {};
  }

  /** Over every interleaving, of each kind: sells begun are exits hit and sells that have not yet returned. */
  lemma {:induction false} EachKindBalances(strategy: Strategy, actions: seq<Action>, kind: Kind)
    ensures KindBalance(Run(strategy, actions), kind)
    decreases |actions|
  {
    hide Step, Tracked, KindBalance;
    if actions == [] {
      NoKind(kind);
    } else {
      EachKindBalances(strategy, actions[..|actions| - 1], kind);
      StepKind(strategy, Run(strategy, actions[..|actions| - 1]), actions[|actions| - 1], kind);
    }
  }
}
