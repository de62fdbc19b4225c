/**
  Which builds begin, and what the cache holds, told from the actions of a run, over every interleaving.
 */
module TxCacheBuilds {
  import opened Wrappers
  import opened TxCache
  import opened TxCacheReuse

  //
  // Builds
  //

  /** Builds under way for this token and amount. */
  ghost function BuildsOf(s: State, order: Order): set<nat> {
    set id | id in s.builds && s.builds[id] == order
  }

  /** How many builds for this order an action begins: one for each buy whose cached transaction was sent. */
  function Begins(s: State, a: Action, order: Order): nat {
    match a
    case Buy(_, _) => 0
    case SendSettled(id, succeeded) => if succeeded && id in s.sends && s.sends[id].order == order then 1 else 0
    case PreBuild(built) => if built == order then 1 else 0
    case BuildSettled(_, _, _) => 0
    case Refresh(tokens, usdcAmount, now) =>
      if usdcAmount == order.usdcAmount && NeedsRefresh(s.txCache, order.mint, now)
      then multiset(tokens)[order.mint] else 0
  }

  function Ends(s: State, a: Action, order: Order): nat {
    if a.BuildSettled? && a.id in s.builds && s.builds[a.id] == order then 1 else 0
  }

  function BegunOver(actions: seq<Action>, order: Order): nat
    decreases |actions|
  {
    if actions == [] then 0
    else
      var before := actions[..|actions| - 1];
      BegunOver(before, order) + Begins(Run(before), actions[|actions| - 1], order)
  }

  function EndedOver(actions: seq<Action>, order: Order): nat
    decreases |actions|
  {
    if actions == [] then 0
    else
      var before := actions[..|actions| - 1];
      EndedOver(before, order) + Ends(Run(before), actions[|actions| - 1], order)
  }

  lemma BuildsAfterPut(s: State, next: State, id: nat, built: Order, order: Order)
    requires id !in s.builds && next.builds == s.builds[id := built]
    ensures |BuildsOf(next, order)| == |BuildsOf(s, order)| + (if built == order then 1 else 0)
  {
    assert BuildsOf(next, order) == BuildsOf(s, order) + (if built == order then {id} else {});
  }

  lemma BuildsAfterDrop(s: State, next: State, id: nat, order: Order)
    requires id in s.builds && next.builds == s.builds - {id}
    ensures |BuildsOf(next, order)| == |BuildsOf(s, order)| - (if s.builds[id] == order then 1 else 0)
  {
    hide BuildsOf;
    assert s.builds == next.builds[id := s.builds[id]];
    BuildsAfterPut(next, s, id, s.builds[id], order);
  }

  lemma SameBuilds(s: State, next: State, order: Order)
    requires next.builds == s.builds
    ensures BuildsOf(next, order) == BuildsOf(s, order)
  {
  }

  lemma {:induction false} StartedBuilds(s: State, mints: seq<Mint>, usdcAmount: real, order: Order)
    requires forall id :: id in s.builds ==> id < s.nextId
    ensures |BuildsOf(BuildsStarted(s, mints, usdcAmount), order)|
         == |BuildsOf(s, order)| + (if usdcAmount == order.usdcAmount then multiset(mints)[order.mint] else 0)
    decreases |mints|
  {
    hide BuildsOf;
    if mints != [] {
      var begun := BuildStarted(s, Order(mints[0], usdcAmount));
      BuildsAfterPut(s, begun, s.nextId, Order(mints[0], usdcAmount), order);
      StartedBuilds(begun, mints[1..], usdcAmount, order);
      assert mints == [mints[0]] + mints[1..];
      assert (Order(mints[0], usdcAmount) == order) == (mints[0] == order.mint && usdcAmount == order.usdcAmount);
    }
  }

  lemma {:induction false} RefreshedAsOften(txCache: map<Mint, PreBuilt>, tokens: seq<Mint>, now: int, mint: Mint)
    ensures multiset(ToRefresh(txCache, tokens, now))[mint]
         == if NeedsRefresh(txCache, mint, now) then multiset(tokens)[mint] else 0
    decreases |tokens|
  {
    hide NeedsRefresh;
    if tokens != [] {
      RefreshedAsOften(txCache, tokens[..|tokens| - 1], now, mint);
      assert tokens == tokens[..|tokens| - 1] + [tokens[|tokens| - 1]];
    }
  }

  lemma StepBuilds(s: State, a: Action, order: Order)
    requires Consistent(s)
    ensures |BuildsOf(Step(s, a), order)| + Ends(s, a, order) == |BuildsOf(s, order)| + Begins(s, a, order)
  {
    hide BuildsOf, BuildsStarted, ToRefresh, NeedsRefresh, Made, PickValid;
    var next := Step(s, a);
    match a
    case Buy(_, _) => SameBuilds(s, next, order);
    case SendSettled(id, succeeded) =>
      if succeeded && id in s.sends {
        BuildsAfterPut(s, next, s.nextId, s.sends[id].order, order);
      } else {
        SameBuilds(s, next, order);
      }
    case PreBuild(built) => BuildsAfterPut(s, next, s.nextId, built, order);
    case BuildSettled(id, _, _) =>
      if id in s.builds {
        BuildsAfterDrop(s, next, id, order);
      }
    case Refresh(tokens, usdcAmount, now) =>
      StartedBuilds(s, ToRefresh(s.txCache, tokens, now), usdcAmount, order);
      RefreshedAsOften(s.txCache, tokens, now, order.mint);
  }

  /**
    Over every interleaving, for each token and amount: the builds under way and those that ended are the ones
    ordered, one for each sent cached transaction, and one for each refresh of a token that needed it.
   */
  lemma {:induction false} BuildsAreOrdered(actions: seq<Action>, order: Order)
    ensures |BuildsOf(Run(actions), order)| + EndedOver(actions, order) == BegunOver(actions, order)
    decreases |actions|
  {
    if actions == [] {
      assert BuildsOf(INITIAL, order) == {};
    } else {
      hide Step, BuildsOf, Begins, Ends, Consistent;
      var before := actions[..|actions| - 1];
      BuildsAreOrdered(before, order);
      RunIsConsistent(before);
      StepBuilds(Run(before), actions[|actions| - 1], order);
    }
  }

  /**
    In every reachable state, a sent transaction begins exactly one build, under a new number, for the order of
    its buy, and one that was not sent begins none. Either way the token has no entry and the others keep theirs.
   */
  lemma SettledSendBegins(actions: seq<Action>, id: nat, succeeded: bool)
    requires id in Run(actions).sends
    ensures var s := Run(actions); var order, next := s.sends[id].order, Step(s, SendSettled(id, succeeded));
            && s.nextId !in s.builds && s.nextId !in s.sends
            && next.builds == (if succeeded then s.builds[s.nextId := order] else s.builds)
            && next.sends == s.sends - {id}
            && next.txCache.Keys == s.txCache.Keys - {order.mint}
            && forall mint :: mint in next.txCache ==> next.txCache[mint] == s.txCache[mint]
  {
    hide Run, Made, PickValid;
    RunIsConsistent(actions);
  }

  //
  // What the cache holds
  //

  /** When, and for which amount, the transaction in the cache was built: the last build that no send ended. */
  function CachedBuild(actions: seq<Action>, mint: Mint): Option<(real, int)>
    decreases |actions|
  {
    if actions == [] then None
    else
      var a, before := actions[|actions| - 1], actions[..|actions| - 1];
      var s := Run(before);
      if a.SendSettled? && a.id in s.sends && s.sends[a.id].order.mint == mint then None
      else if a.BuildSettled? && a.succeeded && a.id in s.builds && s.builds[a.id].mint == mint then
        Some((s.builds[a.id].usdcAmount, a.now))
      else CachedBuild(before, mint)
  }

  predicate Holds(s: State, mint: Mint, built: Option<(real, int)>) {
    if mint !in s.txCache then built == None
    else
      var tx := s.txCache[mint];
      && built == Some((tx.usdcAmount, tx.createdAt))
      && tx.mint == mint && tx.expiresAt == tx.createdAt + 45_000
  }

  lemma StepHolds(s: State, a: Action, mint: Mint, built: Option<(real, int)>)
    requires Holds(s, mint, built)
    ensures Holds(Step(s, a), mint,
                  if a.SendSettled? && a.id in s.sends && s.sends[a.id].order.mint == mint then None
                  else if a.BuildSettled? && a.succeeded && a.id in s.builds && s.builds[a.id].mint == mint then
                    Some((s.builds[a.id].usdcAmount, a.now))
                  else built)
  {
    hide BuildsStarted, ToRefresh;
    if a.Refresh? {
      BuildsKeep(s, ToRefresh(s.txCache, a.tokens, a.now), a.usdcAmount);
    }
  }

  /** Over every interleaving: the entry of a token is its last build, unless a send of the token ended since. */
  lemma {:induction false} CacheIsLastBuild(actions: seq<Action>, mint: Mint)
    ensures Holds(Run(actions), mint, CachedBuild(actions, mint))
    decreases |actions|
  {
    if actions != [] {
      hide Step, Holds;
      var before := actions[..|actions| - 1];
      CacheIsLastBuild(before, mint);
      StepHolds(Run(before), actions[|actions| - 1], mint, CachedBuild(before, mint));
    }
  }

  /** In every reachable state, a buy sends a cached transaction exactly if that build is less than 45 seconds old. */
  lemma BuySendsIff(actions: seq<Action>, order: Order, now: int)
    ensures var s, built := Run(actions), CachedBuild(actions, order.mint);
            var next := Step(s, Buy(order, now));
            && (next.sends == s.sends || s.nextId in next.sends)
            && (next.sends != s.sends <==> built.Some? && now - built.value.1 < 45_000)
            && (next.sends != s.sends ==> next.sends[s.nextId].order == order
                                          && next.sends[s.nextId].tx == s.txCache[order.mint])
            && next.builds == s.builds && next.txCache == s.txCache
  {
    hide Run, CachedBuild, Made, PickValid;
    CacheIsLastBuild(actions, order.mint);
    RunIsConsistent(actions);
    if Usable(Run(actions).txCache, order.mint, now) {
      assert Run(actions).nextId !in Run(actions).sends;
    }
  }
}
