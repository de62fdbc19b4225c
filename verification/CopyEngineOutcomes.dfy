/**
  How each trade ends, and what the engine counts and announces for it, told from the answers that the
  engine gets: filter results, balances and the outcomes of swaps.
 */
module CopyEngineOutcomes {
  import opened Positions
  import opened PositionLedger
  import opened CopyEngine
  import opened CopyEngineAccounting

  /** Unrecorded: sent, but the amount cannot be read, so that the position is not recorded. */
  datatype Ending = Dropped | RejectedByRisk | Copied | Unrecorded | NotCopied

  /** What a step does to its trade. */
  datatype Course = Unmoved | Waits | Starts | Ends(ending: Ending)

  /** A trade that the configuration lets through when it is detected. */
  predicate Copyable(cfg: Config, t: Trade) {
    && (cfg.copyBuysOnly ==> t.direction == Buy)
    && (cfg.allowedTokens == [] || t.mint in cfg.allowedTokens)
    && t.usdcAmount >= cfg.minTradeUsdc
  }

  /** What the portfolio and the balance must be for a copy. */
  ghost predicate Fits(cfg: Config, positions: Portfolio, t: Trade, balance: real) {
    match t.direction
    case Buy =>
      && balance >= cfg.limits.minUsdcReserve + cfg.tradeAmount
      && CostOf(positions, t.mint) + cfg.tradeAmount <= cfg.limits.maxPositionSize
      && Exposure(positions) + cfg.tradeAmount <= cfg.limits.maxTotalExposure
      && (t.mint in positions || |positions| < cfg.limits.maxOpenPositions)
    case Sell => t.mint in positions && positions[t.mint].amount != 0
  }

  function SettlingEnd(cfg: Config, outcome: SwapOutcome): Ending {
    match outcome
    case SwapError => NotCopied
    case SwapThrew => NotCopied
    case Sent(_) => Copied
    case SentUnreadable => if cfg.tracksPositions then Unrecorded else Copied
  }

  ghost function CourseOf(cfg: Config, s: EngineState, a: Action): Course {
    match a
    case Detect(t) =>
      if !Copyable(cfg, t) || t.signature in s.pendingCopies then Ends(Dropped)
      else if cfg.usesFilter || cfg.tracksPositions then Waits
      else Starts
    case FilterResult(id, allowed) =>
      if !InPhase(s, id, AwaitingFilter) then Unmoved
      else if !allowed then Ends(Dropped)
      else if cfg.tracksPositions then Waits
      else Starts
    case BalanceResult(id, balance) =>
      if !InPhase(s, id, AwaitingBalance) then Unmoved
      else if Fits(cfg, s.positions, s.tasks[id].trade, balance) then Starts
      else Ends(RejectedByRisk)
    case Settle(id, outcome) =>
      if !InPhase(s, id, Executing) then Unmoved else Ends(SettlingEnd(cfg, outcome))
  }

  /** The course of each trade at each step of a run. */
  datatype Turn = Turn(id: nat, course: Course)

  function TradeId(s: EngineState, a: Action): nat {
    if a.Detect? then s.nextId else a.id
  }

  ghost function Turns(cfg: Config, s: EngineState, actions: seq<Action>): seq<Turn>
    requires AllPriced(s.positions)
    decreases |actions|
  {
    if actions == [] then []
    else
      [Turn(TradeId(s, actions[0]), CourseOf(cfg, s, actions[0]))]
      + Turns(cfg, Step(cfg, s, actions[0]), actions[1..])
  }

  function CountOf(turns: seq<Turn>, course: Course): nat {
    if turns == [] then 0 else (if turns[0].course == course then 1 else 0) + CountOf(turns[1..], course)
  }

  function Announcement(turn: Turn): seq<Event> {
    match turn.course
    case Unmoved => []
    case Waits => []
    case Starts => [Event(turn.id, Initiated)]
    case Ends(Dropped) => [Event(turn.id, Skipped)]
    case Ends(RejectedByRisk) => [Event(turn.id, Skipped)]
    case Ends(Copied) => [Event(turn.id, Complete)]
    case Ends(Unrecorded) => [Event(turn.id, Failed)]
    case Ends(NotCopied) => [Event(turn.id, Failed)]
  }

  function Announcements(turns: seq<Turn>): seq<Event> {
    if turns == [] then [] else Announcement(turns[0]) + Announcements(turns[1..])
  }

  function DetectCount(actions: seq<Action>): nat {
    if actions == [] then 0 else (if actions[0].Detect? then 1 else 0) + DetectCount(actions[1..])
  }

  function One(condition: bool): nat {
    if condition then 1 else 0
  }

  //
  // One step
  //

  lemma DetectOutcome(cfg: Config, s: EngineState, t: Trade)
    ensures SkippedAtOnce(cfg, s.pendingCopies, t) <==> !Copyable(cfg, t) || t.signature in s.pendingCopies
  {
  }

  lemma BalanceOutcome(cfg: Config, positions: Portfolio, t: Trade, balance: real)
    ensures RiskVerdict(positions, cfg.limits, t.mint, t.direction, cfg.tradeAmount, balance).Allowed?
       <==> Fits(cfg, positions, t, balance)
  {
    hide Exposure;
  }

  /** The counters and events change as this turn says. */
  predicate Follows(s: EngineState, next: EngineState, detected: bool, turn: Turn) {
    var course := turn.course;
    && next.stats == Stats(s.stats.tradesDetected + One(detected),
                           s.stats.tradesFiltered + One(course == Ends(Dropped)),
                           s.stats.tradesRiskRejected + One(course == Ends(RejectedByRisk)),
                           s.stats.copyAttempts + One(course == Starts),
                           s.stats.copySuccesses + One(course == Ends(Copied) || course == Ends(Unrecorded)),
                           s.stats.copyFailures + One(course == Ends(NotCopied) || course == Ends(Unrecorded)))
    && next.events == s.events + Announcement(turn)
  }

  lemma DetectFollows(cfg: Config, s: EngineState, t: Trade)
    ensures Follows(s, DetectStep(cfg, s, t), true, Turn(s.nextId, CourseOf(cfg, s, Detect(t))))
  {
    hide SkippedAtOnce, Copyable;
    DetectOutcome(cfg, s, t);
  }

  lemma FilterFollows(cfg: Config, s: EngineState, id: nat, allowed: bool)
    requires InPhase(s, id, AwaitingFilter)
    ensures Follows(s, FilterStep(cfg, s, id, allowed), false, Turn(id, CourseOf(cfg, s, FilterResult(id, allowed))))
  {
  }

  lemma BalanceFollows(cfg: Config, s: EngineState, id: nat, balance: real)
    requires InPhase(s, id, AwaitingBalance)
    ensures Follows(s, BalanceStep(cfg, s, id, balance), false, Turn(id, CourseOf(cfg, s, BalanceResult(id, balance))))
  {
    hide RiskVerdict, Fits;
    BalanceOutcome(cfg, s.positions, s.tasks[id].trade, balance);
  }

  lemma SettleFollows(cfg: Config, s: EngineState, id: nat, outcome: SwapOutcome)
    requires InPhase(s, id, Executing) && AllPriced(s.positions)
    ensures Follows(s, SettleStep(cfg, s, id, outcome), false, Turn(id, CourseOf(cfg, s, Settle(id, outcome))))
  {
    hide RecordedPositions, AllPriced;
  }

  lemma NothingFollows(s: EngineState, id: nat)
    ensures Follows(s, s, false, Turn(id, Unmoved))
  {
  }

  lemma StepFollows(cfg: Config, s: EngineState, a: Action)
    requires AllPriced(s.positions)
    ensures Follows(s, Step(cfg, s, a), a.Detect?, Turn(TradeId(s, a), CourseOf(cfg, s, a)))
  {
    hide Follows, DetectStep, FilterStep, BalanceStep, SettleStep, AllPriced;
    if !Enabled(s, a) {
      NothingFollows(s, a.id);
    } else {
      match a
      case Detect(t) => DetectFollows(cfg, s, t);
      case FilterResult(id, allowed) => FilterFollows(cfg, s, id, allowed);
      case BalanceResult(id, balance) => BalanceFollows(cfg, s, id, balance);
      case Settle(id, outcome) => SettleFollows(cfg, s, id, outcome);
    }
  }

  //
  // Whole runs
  //

  ghost predicate Accounted(s: EngineState, end: EngineState, actions: seq<Action>, turns: seq<Turn>) {
    && end.stats.tradesDetected == s.stats.tradesDetected + DetectCount(actions)
    && end.stats.tradesFiltered == s.stats.tradesFiltered + CountOf(turns, Ends(Dropped))
    && end.stats.tradesRiskRejected == s.stats.tradesRiskRejected + CountOf(turns, Ends(RejectedByRisk))
    && end.stats.copyAttempts == s.stats.copyAttempts + CountOf(turns, Starts)
    && end.stats.copySuccesses
       == s.stats.copySuccesses + CountOf(turns, Ends(Copied)) + CountOf(turns, Ends(Unrecorded))
    && end.stats.copyFailures
       == s.stats.copyFailures + CountOf(turns, Ends(NotCopied)) + CountOf(turns, Ends(Unrecorded))
    && end.events == s.events + Announcements(turns)
  }

  lemma {:induction false} RunOutcomes(cfg: Config, s: EngineState, actions: seq<Action>)
    requires AllPriced(s.positions)
    ensures Accounted(s, RunFrom(cfg, s, actions), actions, Turns(cfg, s, actions))
    decreases |actions|
  {
    hide Step, CourseOf, Announcement, AllPriced;
    if actions == [] {
    } else {
      var a, next := actions[0], Step(cfg, s, actions[0]);
      StepFollows(cfg, s, a);
      RunOutcomes(cfg, next, actions[1..]);
      var turn, rest := Turn(TradeId(s, a), CourseOf(cfg, s, a)), Turns(cfg, next, actions[1..]);
      assert ([turn] + rest)[1..] == rest;
    }
  }

  /**
    Over every interleaving, each counter is the number of trades that took this course, and the events are
    the announcements of all courses in their order.
   */
  lemma CountersAreOutcomes(cfg: Config, actions: seq<Action>)
    ensures var s, turns := Run(cfg, actions), Turns(cfg, INITIAL, actions);
            && s.stats == Stats(DetectCount(actions), CountOf(turns, Ends(Dropped)),
                                CountOf(turns, Ends(RejectedByRisk)), CountOf(turns, Starts),
                                CountOf(turns, Ends(Copied)) + CountOf(turns, Ends(Unrecorded)),
                                CountOf(turns, Ends(NotCopied)) + CountOf(turns, Ends(Unrecorded)))
            && s.events == Announcements(turns)
  {
    hide RunFrom, Turns, CountOf, DetectCount, Announcements;
    RunOutcomes(cfg, INITIAL, actions);
  }

  //
  // One end for each trade
  //

  function EndCount(turns: seq<Turn>, id: nat): nat {
    if turns == [] then 0 else One(turns[0].id == id && turns[0].course.Ends?) + EndCount(turns[1..], id)
  }

  lemma {:induction false} TerminalPrepend(e: Event, events: seq<Event>, id: nat)
    ensures TerminalCount([e] + events, id) == One(e.id == id && e.kind != Initiated) + TerminalCount(events, id)
    decreases |events|
  {
    if events == [] {
      assert [e] + events == [e] && [e][..0] == [];
    } else {
      var last := |events| - 1;
      assert ([e] + events)[..|events|] == [e] + events[..last];
      TerminalPrepend(e, events[..last], id);
    }
  }

  lemma {:induction false} TerminalIsEnd(turns: seq<Turn>, id: nat)
    ensures TerminalCount(Announcements(turns), id) == EndCount(turns, id)
  {
    hide TerminalCount;
    if turns == [] {
      NoTerminal(id);
    } else {
      var rest := Announcements(turns[1..]);
      TerminalIsEnd(turns[1..], id);
      if Announcement(turns[0]) == [] {
        assert [] + rest == rest;
      } else {
        TerminalPrepend(Announcement(turns[0])[0], rest, id);
      }
    }
  }

  lemma NoTerminal(id: nat)
    ensures TerminalCount([], id) == 0
  {
  }

  /** A trade has come to exactly one end when it is over, and to none before. */
  lemma OneEndEach(cfg: Config, actions: seq<Action>, id: nat)
    ensures EndCount(Turns(cfg, INITIAL, actions), id) == One(Over(Run(cfg, actions), id))
  {
    hide RunFrom, Turns, TerminalCount, EndCount, Announcements;
    AccountsAlwaysHold(cfg, actions);
    CountersAreOutcomes(cfg, actions);
    TerminalIsEnd(Turns(cfg, INITIAL, actions), id);
  }

  //
  // Which trades are evaluated
  //

  ghost predicate AllCopyable(cfg: Config, s: EngineState) {
    forall id :: id in s.tasks ==> Copyable(cfg, s.tasks[id].trade)
  }

  lemma StepKeepsCopyable(cfg: Config, s: EngineState, a: Action)
    requires AllPriced(s.positions) && AllCopyable(cfg, s)
    ensures AllCopyable(cfg, Step(cfg, s, a))
  {
    hide RiskVerdict, SkippedAtOnce, Copyable, AllPriced, RecordedPositions;
    match a
    case Detect(t) => DetectOutcome(cfg, s, t);
    case _ =>
  }

  lemma {:induction false} RunKeepsCopyable(cfg: Config, s: EngineState, actions: seq<Action>)
    requires AllPriced(s.positions) && AllCopyable(cfg, s)
    ensures AllCopyable(cfg, RunFrom(cfg, s, actions))
    decreases |actions|
  {
    hide Step, AllCopyable, AllPriced;
    if actions != [] {
      StepKeepsCopyable(cfg, s, actions[0]);
      RunKeepsCopyable(cfg, Step(cfg, s, actions[0]), actions[1..]);
    }
  }

  /** Over every interleaving, only copyable trades are in progress. */
  lemma OnlyCopyableInProgress(cfg: Config, actions: seq<Action>)
    ensures AllCopyable(cfg, Run(cfg, actions))
  {
    hide RunFrom;
    RunKeepsCopyable(cfg, INITIAL, actions);
  }

  /** In every reachable state, a detected trade is dropped exactly if it is not copyable or a copy is pending. */
  lemma DroppedIff(cfg: Config, actions: seq<Action>, t: Trade)
    ensures var s := Run(cfg, actions); var next := Step(cfg, s, Detect(t));
            && (s.nextId in next.tasks <==> Copyable(cfg, t) && t.signature !in s.pendingCopies)
            && (next.stats.tradesFiltered > s.stats.tradesFiltered
                <==> !Copyable(cfg, t) || t.signature in s.pendingCopies)
  {
    hide RunFrom, AllPriced, SkippedAtOnce, Copyable;
    DetectOutcome(cfg, Run(cfg, actions), t);
  }
}
