/**
  When a check sells the whole position: for each of the three full exits, told from the answer that the
  check got when it stood before that exit, over every interleaving.
 */
module ExitAnswers {
  import opened Wrappers
  import opened Positions
  import opened PositionLedger
  import opened Exits
  import opened ExitHistory
  import opened ExitAccounting
  import opened ExitCourse
  import opened ExitSells

  function StageBefore(exit: Exit): Stage
    requires !exit.TakeProfit?
  {
    match exit
    case StopLoss => AtStopLoss
    case TimeLimit => AtTimeLimit
    case TrailingStop => AtTrailing
  }

  /** The action lets a check that stands before this exit go on. */
  predicate Answers(s: State, a: Action, id: nat, exit: Exit)
    requires !exit.TakeProfit?
  {
    a.Resume? && a.id == id && id in s.checks && s.checks[id].stage == StageBefore(exit)
  }

  /** The exit fires for the check now. */
  ghost predicate DueNow(strategy: Strategy, s: State, hoursHeld: real, id: nat, exit: Exit)
    requires Tracked(strategy, s) && id in s.checks && !exit.TakeProfit?
  {
    var c := s.checks[id];
    assert Sound(strategy, s.exitStates, c);
    match exit
    case StopLoss => c.profitPercent <= strategy.stopLossPercent
    case TimeLimit => strategy.maxHoldTimeHours != 0.0 && hoursHeld >= strategy.maxHoldTimeHours
    case TrailingStop => TrailingFires(strategy, s.exitStates[c.mint].highWaterMark, c)
  }

  /** The check has begun and has the exit behind it, or is selling for it. */
  predicate Past(strategy: Strategy, s: State, id: nat, exit: Exit) {
    id < s.nextId && (id in s.checks ==> Progress(strategy, s.checks[id].stage) > Rank(strategy, exit))
  }

  predicate SameAnswered(strategy: Strategy, s: State, next: State, id: nat, exit: Exit) {
    Begins(next.events, id, exit) == Begins(s.events, id, exit)
    && (Past(strategy, next, id, exit) <==> Past(strategy, s, id, exit))
  }

  //
  // Each part of a step
  //

  lemma ScanAnswered(strategy: Strategy, s: State, scanning: nat, id: nat, exit: Exit)
    requires scanning in s.checks && s.checks[scanning].stage.Scanning?
    requires Sound(strategy, s.exitStates, s.checks[scanning]) && !exit.TakeProfit?
    ensures SameAnswered(strategy, s, Scan(strategy, s, scanning), id, exit)
  {
    hide Begins, NextTarget;
    var c := s.checks[scanning];
    var i := NextTarget(strategy.targets, s.exitStates[c.mint].tpHit, c.profitPercent, c.stage.from);
    BeginsAppend(s.events, Event(Triggered, scanning, c.mint, TakeProfit(i)), id, exit);
  }

  lemma ReportAnswered(strategy: Strategy, s: State, settled: nat, succeeded: bool, id: nat, exit: Exit)
    requires settled in s.checks && s.checks[settled].stage.Selling?
    ensures SameAnswered(strategy, s, Report(s, settled, succeeded), id, exit)
  {
    hide Begins;
    var c := s.checks[settled];
    BeginsAppend(s.events, Event(if succeeded then Executed else Failed, settled, c.mint, c.stage.exit), id, exit);
  }

  lemma HitAnswered(strategy: Strategy, s: State, returned: nat, id: nat, exit: Exit)
    requires returned in s.checks && s.checks[returned].stage.Sold? && returned < s.nextId
    requires Sound(strategy, s.exitStates, s.checks[returned]) && !exit.TakeProfit?
    ensures SameAnswered(strategy, s, Hit(strategy, s, returned), id, exit)
  {
    hide Begins, CountHit, Marked;
  }

  lemma ResumeAnswered(strategy: Strategy, s: State, resumed: nat, hoursHeld: real, id: nat, exit: Exit)
    requires Tracked(strategy, s) && resumed in s.checks && !exit.TakeProfit?
    requires s.checks[resumed].stage in {AtStopLoss, AtTimeLimit, AtTrailing}
    ensures var next, answers := ResumeStep(strategy, s, resumed, hoursHeld),
                                 Answers(s, Resume(resumed, hoursHeld), id, exit);
            && Begins(next.events, id, exit)
               == Begins(s.events, id, exit)
                + (if answers && DueNow(strategy, s, hoursHeld, id, exit) then 1 else 0)
            && (Past(strategy, next, id, exit) <==> Past(strategy, s, id, exit) || answers)
  {
    hide Begins, TrailingFires;
    var next := ResumeStep(strategy, s, resumed, hoursHeld);
    if next.events != s.events {
      BeginsAppend(s.events, next.events[|s.events|], id, exit);
    }
  }

  lemma NoteAnswered(strategy: Strategy, s: State, a: Action, id: nat, exit: Exit)
    requires Tracked(strategy, s) && HasPrice(a) && !exit.TakeProfit?
    ensures SameAnswered(strategy, s, Note(s, a.mint, a.price.value, a.entryPrice), id, exit)
  {
    hide Begins, ProfitPercent;
  }

  lemma ReturnAnswered(strategy: Strategy, s: State, returned: nat, id: nat, exit: Exit)
    requires returned in s.checks && s.checks[returned].stage.Sold? && returned < s.nextId
    requires Sound(strategy, s.exitStates, s.checks[returned]) && !exit.TakeProfit?
    ensures SameAnswered(strategy, s, ReturnStep(strategy, s, returned), id, exit)
  {
    hide Begins, Scan, Past;
    HitAnswered(strategy, s, returned, id, exit);
    if s.checks[returned].stage.exit.TakeProfit? {
      ScanAnswered(strategy, Hit(strategy, s, returned), returned, id, exit);
    }
  }

  /** An exit begins exactly when it is answered and due, and lies behind from the answer on. */
  lemma StepAnswered(strategy: Strategy, s: State, a: Action, id: nat, exit: Exit)
    requires Tracked(strategy, s) && !exit.TakeProfit?
    ensures var next, answers := Step(strategy, s, a), Answers(s, a, id, exit);
            && Begins(next.events, id, exit)
               == Begins(s.events, id, exit)
                + (if answers && DueNow(strategy, s, a.hoursHeld, id, exit) then 1 else 0)
            && (Past(strategy, next, id, exit) <==> Past(strategy, s, id, exit) || answers)
  {
    hide Begins, Past, Scan, ReturnStep, Report, ResumeStep, DueNow, TrailingFires;
    if Enabled(s, a) {
      match a
      case Observe(mint, price, entryPrice) =>
        if price.Some? {
          NoteAnswered(strategy, s, a, id, exit);
          ScanAnswered(strategy, Note(s, mint, price.value, entryPrice), s.nextId, id, exit);
        }
      case Resume(resumed, hoursHeld) => ResumeAnswered(strategy, s, resumed, hoursHeld, id, exit);
      case SellSettled(settled, succeeded) => ReportAnswered(strategy, s, settled, succeeded, id, exit);
      case Return(returned) => ReturnAnswered(strategy, s, returned, id, exit);
    }
  }

  //
  // Over a whole run
  //

  /** Where in the run the check was answered when it stood before this exit. */
  ghost function AnswerAt(strategy: Strategy, actions: seq<Action>, id: nat, exit: Exit): (at: Option<nat>)
    requires !exit.TakeProfit?
    ensures at.Some? ==> at.value < |actions|
                         && Answers(Run(strategy, actions[..at.value]), actions[at.value], id, exit)
    decreases |actions|
  {
    if actions == [] then None
    else
      var before := |actions| - 1;
      if Answers(Run(strategy, actions[..before]), actions[before], id, exit) then Some(before)
      else
        var at := AnswerAt(strategy, actions[..before], id, exit);
        assert at.Some? ==> actions[..before][..at.value] == actions[..at.value];
        at
  }

  ghost predicate DueAt(strategy: Strategy, actions: seq<Action>, at: nat, id: nat, exit: Exit)
    requires !exit.TakeProfit? && at < |actions|
    requires Answers(Run(strategy, actions[..at]), actions[at], id, exit)
  {
    DueNow(strategy, Run(strategy, actions[..at]), actions[at].hoursHeld, id, exit)
  }

  ghost predicate AnsweredAsDue(strategy: Strategy, actions: seq<Action>, id: nat, exit: Exit)
    requires !exit.TakeProfit?
  {
    var s, at := Run(strategy, actions), AnswerAt(strategy, actions, id, exit);
    && (at.Some? <==> Past(strategy, s, id, exit))
    && Begins(s.events, id, exit)
       == if at.Some? && DueAt(strategy, actions, at.value, id, exit) then 1 else 0
  }

  lemma AnswerExtends(strategy: Strategy, actions: seq<Action>, id: nat, exit: Exit)
    requires !exit.TakeProfit? && actions != []
    requires !Answers(Run(strategy, actions[..|actions| - 1]), actions[|actions| - 1], id, exit)
    ensures var before := actions[..|actions| - 1];
            var at := AnswerAt(strategy, before, id, exit);
            && AnswerAt(strategy, actions, id, exit) == at
            && (at.Some? ==> DueAt(strategy, actions, at.value, id, exit)
                             == DueAt(strategy, before, at.value, id, exit))
  {
    hide Run, Answers, DueNow;
    var before := actions[..|actions| - 1];
    var at := AnswerAt(strategy, before, id, exit);
    if at.Some? {
      assert before[..at.value] == actions[..at.value];
    }
  }

  lemma {:induction false} EveryExitAsDue(strategy: Strategy, actions: seq<Action>, id: nat, exit: Exit)
    requires !exit.TakeProfit?
    ensures AnsweredAsDue(strategy, actions, id, exit)
    decreases |actions|
  {
    if actions == [] {
    } else {
      hide Step, Tracked, Answers, DueNow, Past, Begins;
      var before, a := actions[..|actions| - 1], actions[|actions| - 1];
      var s := Run(strategy, before);
      EveryExitAsDue(strategy, before, id, exit);
      StepAnswered(strategy, s, a, id, exit);
      if Answers(s, a, id, exit) {
        AnsweredOnce(strategy, s, a, id, exit);
      } else {
        AnswerExtends(strategy, actions, id, exit);
      }
    }
  }

  lemma AnsweredOnce(strategy: Strategy, s: State, a: Action, id: nat, exit: Exit)
    requires !exit.TakeProfit? && Answers(s, a, id, exit)
    ensures !Past(strategy, s, id, exit)
  {
  }

  /**
    Every check that has ended has sold for the time limit exactly once if a limit is set and the position had
    been held that long when the check came to it, and never otherwise.
   */
  lemma TimeLimitOncePerCheck(strategy: Strategy, actions: seq<Action>, id: nat)
    requires id < Run(strategy, actions).nextId && id !in Run(strategy, actions).checks
    ensures var at := AnswerAt(strategy, actions, id, TimeLimit);
            && at.Some?
            && Begins(Run(strategy, actions).events, id, TimeLimit)
               == if strategy.maxHoldTimeHours != 0.0 && actions[at.value].hoursHeld >= strategy.maxHoldTimeHours
                  then 1 else 0
  {
    hide Run, Begins, AnswerAt;
    EveryExitAsDue(strategy, actions, id, TimeLimit);
  }

  /**
    And for the trailing stop exactly once if it is set, the profit was at the activation level, and the price was
    that far below the largest price processed until the check came to it.
   */
  lemma TrailingStopOncePerCheck(strategy: Strategy, actions: seq<Action>, id: nat)
    requires id < Run(strategy, actions).nextId && id !in Run(strategy, actions).checks
    ensures var at := AnswerAt(strategy, actions, id, TrailingStop);
            && at.Some?
            && var before := actions[..at.value];
               var c := Run(strategy, before).checks[id];
               && MaxPrice(before, c.mint).Some?
               && Begins(Run(strategy, actions).events, id, TrailingStop)
                  == if && strategy.trailingStopPercent != 0.0 && strategy.trailingActivationPercent != 0.0
                        && c.profitPercent >= strategy.trailingActivationPercent
                        && c.price * 100.0 <= MaxPrice(before, c.mint).value * (100.0 - strategy.trailingStopPercent)
                     then 1 else 0
  {
    hide Run, Begins, AnswerAt, TrailingFires, MaxPrice;
    EveryExitAsDue(strategy, actions, id, TrailingStop);
    TrailingStopIff(strategy, actions[..AnswerAt(strategy, actions, id, TrailingStop).value], id);
  }
}
