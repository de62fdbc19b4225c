/**
  The copy-trade engine (src/services/copy-trade-engine.ts) as a machine of atomic steps.

  processTrade runs without interruption from one await to the next, so any number of trades are
  in progress at once and each step below is one such stretch. Everything awaited - the smart
  filter's answer, the USDC balance, the swap's result - is an input of the step that follows it.
 */
module CopyEngine {
  import opened Positions
  import opened PositionLedger

  datatype Trade = Trade(mint: Mint, direction: Direction, usdcAmount: real, signature: string)

  datatype EngineConfig = EngineConfig(
    tradeAmount: real,
    allowedTokens: seq<Mint>,
    copyBuysOnly: bool,
    minTradeUsdc: real,
    usesFilter: bool,
    tracksPositions: bool,
    limits: RiskLimits
  )

  /** Every copy trade has the same positive size. */
  type Config = c: EngineConfig | c.tradeAmount > 0.0
    witness EngineConfig(1.0, [], false, 0.0, false, false, RiskLimits(0.0, 0.0, 0, 0.0))

  /** What a trade in progress is waiting for. */
  datatype Phase = AwaitingFilter | AwaitingBalance | Executing

  datatype Task = Task(trade: Trade, phase: Phase)

  datatype Stats = Stats(
    tradesDetected: nat,
    tradesFiltered: nat,
    tradesRiskRejected: nat,
    copyAttempts: nat,
    copySuccesses: nat,
    copyFailures: nat
  )

  datatype EventKind = Initiated | Complete | Skipped | Failed

  /** An event emitted for the trade with this number. */
  datatype Event = Event(id: nat, kind: EventKind)

  type Quantity = x: int | x > 0 witness 1

  /** What the swap reports of a copy that was sent. */
  datatype Receipt = Receipt(outAmount: Quantity, signature: string)

  /** The awaited swap reports an error, throws, or sends; an outAmount may not parse as a bigint. */
  datatype SwapOutcome = SwapError | SwapThrew | Sent(receipt: Receipt) | SentUnreadable

  /** Trades are numbered in the order of detection. recordFaults is history: the source does not count it. */
  datatype EngineState = EngineState(
    positions: Portfolio,
    tasks: map<nat, Task>,
    nextId: nat,
    pendingCopies: set<string>,
    stats: Stats,
    events: seq<Event>,
    recordFaults: nat
  )

  const INITIAL: EngineState :=
    EngineState(map[], map[], 0, {}, Stats(0, 0, 0, 0, 0, 0), [], 0)

  datatype Action =
    | Detect(trade: Trade)
    | FilterResult(id: nat, allowed: bool)
    | BalanceResult(id: nat, balance: real)
    | Settle(id: nat, outcome: SwapOutcome)

  //
  // The steps
  //

  /** Filters 1 to 4. */
  predicate SkippedAtOnce(cfg: Config, pendingCopies: set<string>, trade: Trade) {
    || (cfg.copyBuysOnly && !trade.direction.Buy?)
    || (|cfg.allowedTokens| > 0 && trade.mint !in cfg.allowedTokens)
    || trade.usdcAmount < cfg.minTradeUsdc
    || trade.signature in pendingCopies
  }

  predicate InPhase(s: EngineState, id: nat, phase: Phase) {
    id in s.tasks && s.tasks[id].phase == phase
  }

  function Waiting(s: EngineState, id: nat, trade: Trade, phase: Phase): EngineState {
    s.(tasks := s.tasks[id := Task(trade, phase)])
  }

  function Admit(s: EngineState, id: nat, trade: Trade): EngineState {
    Waiting(s, id, trade, Executing).(
      pendingCopies := s.pendingCopies + {trade.signature},
      stats := s.stats.(copyAttempts := s.stats.copyAttempts + 1),
      events := s.events + [Event(id, Initiated)])
  }

  function Filtered(s: EngineState, id: nat): EngineState {
    s.(tasks := s.tasks - {id},
       stats := s.stats.(tradesFiltered := s.stats.tradesFiltered + 1),
       events := s.events + [Event(id, Skipped)])
  }

  function RiskRejected(s: EngineState, id: nat): EngineState {
    s.(tasks := s.tasks - {id},
       stats := s.stats.(tradesRiskRejected := s.stats.tradesRiskRejected + 1),
       events := s.events + [Event(id, Skipped)])
  }

  /** After the smart filter: on to the balance, or straight to execution without a position manager. */
  function PassFilter(cfg: Config, s: EngineState, id: nat, trade: Trade): EngineState {
    if cfg.tracksPositions then Waiting(s, id, trade, AwaitingBalance) else Admit(s, id, trade)
  }

  function DetectStep(cfg: Config, s: EngineState, trade: Trade): EngineState {
    var id := s.nextId;
    var seen := s.(nextId := id + 1, stats := s.stats.(tradesDetected := s.stats.tradesDetected + 1));
    if SkippedAtOnce(cfg, s.pendingCopies, trade) then Filtered(seen, id)
    else if cfg.usesFilter then Waiting(seen, id, trade, AwaitingFilter)
    else PassFilter(cfg, seen, id, trade)
  }

  function FilterStep(cfg: Config, s: EngineState, id: nat, allowed: bool): EngineState
    requires InPhase(s, id, AwaitingFilter)
  {
    if allowed then PassFilter(cfg, s, id, s.tasks[id].trade) else Filtered(s, id)
  }

  ghost function BalanceStep(cfg: Config, s: EngineState, id: nat, balance: real): EngineState
    requires InPhase(s, id, AwaitingBalance)
  {
    var trade := s.tasks[id].trade;
    var verdict := RiskVerdict(s.positions, cfg.limits, trade.mint, trade.direction, cfg.tradeAmount, balance);
    if verdict.Allowed? then Admit(s, id, trade) else RiskRejected(s, id)
  }

  /** A buy is recorded at its average price; a sell passes the swap's outAmount as the amount sold. */
  ghost function RecordedPositions(cfg: Config, positions: Portfolio, trade: Trade, receipt: Receipt): (p: Portfolio)
    requires AllPriced(positions)
    ensures AllPriced(p)
  {
    var Receipt(outAmount, signature) := receipt;
    match trade.direction
    case Buy =>
      BuyKeepsPriced(positions, trade.mint, outAmount, cfg.tradeAmount, signature);
      AfterBuy(positions, trade.mint, outAmount, cfg.tradeAmount, cfg.tradeAmount / outAmount as real, signature)
    case Sell =>
      SellKeepsPriced(positions, trade.mint, outAmount, signature);
      AfterSell(positions, trade.mint, outAmount, signature)
  }

  function Finished(s: EngineState, id: nat, kind: EventKind, successes: nat, failures: nat): EngineState
    requires id in s.tasks
  {
    s.(tasks := s.tasks - {id},
       pendingCopies := s.pendingCopies - {s.tasks[id].trade.signature},
       stats := s.stats.(copySuccesses := s.stats.copySuccesses + successes,
                         copyFailures := s.stats.copyFailures + failures),
       events := s.events + [Event(id, kind)])
  }

  /** A success whose record step throws is counted as a success and as a failure. */
  ghost function SettleStep(cfg: Config, s: EngineState, id: nat, outcome: SwapOutcome): EngineState
    requires InPhase(s, id, Executing) && AllPriced(s.positions)
  {
    match outcome
    case SwapError => Finished(s, id, Failed, 0, 1)
    case SwapThrew => Finished(s, id, Failed, 0, 1)
    case Sent(receipt) =>
      Finished(s, id, Complete, 1, 0).(
        positions := if cfg.tracksPositions then RecordedPositions(cfg, s.positions, s.tasks[id].trade, receipt)
                     else s.positions)
    case SentUnreadable =>
      if cfg.tracksPositions then Finished(s, id, Failed, 1, 1).(recordFaults := s.recordFaults + 1)
      else Finished(s, id, Complete, 1, 0)
  }

  /** Whatever the outcome, the copy is over and its signature no longer pending. */
  lemma SettleEnds(cfg: Config, s: EngineState, id: nat, outcome: SwapOutcome)
    requires InPhase(s, id, Executing) && AllPriced(s.positions)
    ensures var next := SettleStep(cfg, s, id, outcome);
            && next.tasks == s.tasks - {id} && next.nextId == s.nextId
            && next.pendingCopies == s.pendingCopies - {s.tasks[id].trade.signature}
            && next.stats.copyAttempts == s.stats.copyAttempts
  {
    hide RecordedPositions, AllPriced;
  }

  /** An answer for a trade that is not waiting for it cannot occur; it leaves the state as it is. */
  ghost predicate Enabled(s: EngineState, a: Action) {
    match a
    case Detect(_) => true
    case FilterResult(id, _) => InPhase(s, id, AwaitingFilter)
    case BalanceResult(id, _) => InPhase(s, id, AwaitingBalance)
    case Settle(id, _) => InPhase(s, id, Executing)
  }

  ghost function Step(cfg: Config, s: EngineState, a: Action): (next: EngineState)
    requires AllPriced(s.positions)
    ensures AllPriced(next.positions)
  {
    if !Enabled(s, a) then s
    else
      match a
      case Detect(trade) => DetectStep(cfg, s, trade)
      case FilterResult(id, allowed) => FilterStep(cfg, s, id, allowed)
      case BalanceResult(id, balance) => BalanceStep(cfg, s, id, balance)
      case Settle(id, outcome) => SettleStep(cfg, s, id, outcome)
  }

  /** An interleaving: any sequence of actions of any trades. */
  ghost function RunFrom(cfg: Config, s: EngineState, actions: seq<Action>): (end: EngineState)
    requires AllPriced(s.positions)
    ensures AllPriced(end.positions)
    decreases |actions|
  {
    if actions == [] then s else RunFrom(cfg, Step(cfg, s, actions[0]), actions[1..])
  }

  ghost function Run(cfg: Config, actions: seq<Action>): (end: EngineState)
    ensures AllPriced(end.positions)
  {
    RunFrom(cfg, INITIAL, actions)
  }

  lemma {:induction false} RunFromConcat(cfg: Config, s: EngineState, first: seq<Action>, second: seq<Action>)
    requires AllPriced(s.positions)
    ensures RunFrom(cfg, s, first + second) == RunFrom(cfg, RunFrom(cfg, s, first), second)
    decreases |first|
  {
    hide Step, AllPriced;
    if first == [] {
      assert first + second == second;
    } else {
      assert (first + second)[1..] == first[1..] + second;
      RunFromConcat(cfg, Step(cfg, s, first[0]), first[1..], second);
    }
  }

  lemma RunAppend(cfg: Config, actions: seq<Action>, a: Action)
    ensures Run(cfg, actions + [a]) == Step(cfg, Run(cfg, actions), a)
  {
    hide Step;
    var s := Run(cfg, actions);
    RunFromConcat(cfg, INITIAL, actions, [a]);
    assert RunFrom(cfg, s, [a]) == RunFrom(cfg, Step(cfg, s, a), [a][1..]);
  }

  lemma NoSteps(cfg: Config)
    ensures Run(cfg, []) == INITIAL
  {
  }

  //
  // The engine object
  //

  class CopyTradeEngine {
    const config: Config
    const positionManager: PositionManager?
    var tasks: map<nat, Task>
    var nextId: nat
    var pendingCopies: set<string>
    var stats: Stats
    var events: seq<Event>
    ghost var recordFaults: nat

    ghost predicate Valid()
      reads this, positionManager
    {
      && (positionManager != null <==> config.tracksPositions)
      && (positionManager != null ==> positionManager.limits == config.limits)
      && AllPriced(State().positions)
    }

    ghost function State(): EngineState
      reads this, positionManager
    {
      var positions := if positionManager == null then map[] else positionManager.positions;
      EngineState(positions, tasks, nextId, pendingCopies, stats, events, recordFaults)
    }

    constructor (config: Config, positionManager: PositionManager?)
      requires positionManager != null <==> config.tracksPositions
      requires positionManager != null ==>
                 positionManager.limits == config.limits && positionManager.positions == map[]
      ensures Valid() && State() == INITIAL
      ensures this.config == config && this.positionManager == positionManager
    {
      this.config := config;
      this.positionManager := positionManager;
      tasks, nextId, pendingCopies := map[], 0, {};
      stats, events, recordFaults := Stats(0, 0, 0, 0, 0, 0), [], 0;
    }

    /** From the call of processTrade to its first await. */
    method DetectTrade(trade: Trade)
      requires Valid()
      modifies this
      ensures Valid() && State() == Step(config, old(State()), Detect(trade))
    {
      var id := nextId;
      nextId := nextId + 1;
      stats := stats.(tradesDetected := stats.tradesDetected + 1);
      if config.copyBuysOnly && trade.direction != Buy {
        SkipFiltered(id);
        return;
      }
      if |config.allowedTokens| > 0 && trade.mint !in config.allowedTokens {
        SkipFiltered(id);
        return;
      }
      if trade.usdcAmount < config.minTradeUsdc {
        SkipFiltered(id);
        return;
      }
      if trade.signature in pendingCopies {
        SkipFiltered(id);
        return;
      }
      if config.usesFilter {
        tasks := tasks[id := Task(trade, AwaitingFilter)];
      } else {
        Proceed(id, trade);
      }
    }

    /** From the filter's answer to the next await. */
    method OnFilterResult(id: nat, allowed: bool)
      requires Valid() && InPhase(State(), id, AwaitingFilter)
      modifies this
      ensures Valid() && State() == Step(config, old(State()), FilterResult(id, allowed))
    {
      if allowed {
        Proceed(id, tasks[id].trade);
      } else {
        SkipFiltered(id);
      }
    }

    /** The risk check and the admission are one stretch without an await. */
    method OnBalance(id: nat, usdcBalance: real)
      requires Valid() && InPhase(State(), id, AwaitingBalance)
      requires positionManager != null
      modifies this
      ensures Valid() && State() == Step(config, old(State()), BalanceResult(id, usdcBalance))
    {
      var trade := tasks[id].trade;
      var riskCheck :=
        positionManager.CanTrade(trade.mint, trade.direction, config.tradeAmount, usdcBalance);
      if !riskCheck.Allowed? {
        stats := stats.(tradesRiskRejected := stats.tradesRiskRejected + 1);
        events := events + [Event(id, Skipped)];
        tasks := tasks - {id};
      } else {
        Execute(id, trade);
      }
    }

    /** From the swap's result to the end of processTrade. */
    method OnSwapSettled(id: nat, outcome: SwapOutcome)
      requires Valid() && InPhase(State(), id, Executing)
      modifies this, positionManager
      ensures Valid() && State() == Step(config, old(State()), Settle(id, outcome))
    {
      var trade := tasks[id].trade;
      match outcome {
        case SwapError =>
          stats := stats.(copyFailures := stats.copyFailures + 1);
          events := events + [Event(id, Failed)];
        case SwapThrew =>
          stats := stats.(copyFailures := stats.copyFailures + 1);
          events := events + [Event(id, Failed)];
        case Sent(receipt) =>
          stats := stats.(copySuccesses := stats.copySuccesses + 1);
          if positionManager != null {
            Record(trade, receipt);
          }
          events := events + [Event(id, Complete)];
        case SentUnreadable =>
          stats := stats.(copySuccesses := stats.copySuccesses + 1);
          if positionManager != null {
            stats := stats.(copyFailures := stats.copyFailures + 1);
            recordFaults := recordFaults + 1;
            events := events + [Event(id, Failed)];
          } else {
            events := events + [Event(id, Complete)];
          }
      }
      pendingCopies := pendingCopies - {trade.signature};
      tasks := tasks - {id};
    }

    method Record(trade: Trade, receipt: Receipt)
      requires positionManager != null && AllPriced(positionManager.positions)
      modifies positionManager
      ensures positionManager.positions
           == RecordedPositions(config, old(positionManager.positions), trade, receipt)
    {
      var tokenAmount := receipt.outAmount;
      var usdcAmount := config.tradeAmount;
      var pricePerToken := usdcAmount / tokenAmount as real;
      BuyKeepsPriced(positionManager.positions, trade.mint, tokenAmount, usdcAmount, receipt.signature);
      SellKeepsPriced(positionManager.positions, trade.mint, tokenAmount, receipt.signature);
      if trade.direction == Buy {
        positionManager.RecordBuy(trade.mint, tokenAmount, usdcAmount, pricePerToken, receipt.signature);
      } else {
        var _ := positionManager.RecordSell(trade.mint, tokenAmount, usdcAmount, receipt.signature);
      }
    }

    method SkipFiltered(id: nat)
      modifies this
      ensures State() == Filtered(old(State()), id)
    {
      stats := stats.(tradesFiltered := stats.tradesFiltered + 1);
      events := events + [Event(id, Skipped)];
      tasks := tasks - {id};
    }

    method Proceed(id: nat, trade: Trade)
      requires Valid()
      modifies this
      ensures State() == PassFilter(config, old(State()), id, trade)
    {
      if positionManager != null {
        tasks := tasks[id := Task(trade, AwaitingBalance)];
      } else {
        Execute(id, trade);
      }
    }

    method Execute(id: nat, trade: Trade)
      modifies this
      ensures State() == Admit(old(State()), id, trade)
    {
      pendingCopies := pendingCopies + {trade.signature};
      stats := stats.(copyAttempts := stats.copyAttempts + 1);
      events := events + [Event(id, Initiated)];
      tasks := tasks[id := Task(trade, Executing)];
    }
  }
}
