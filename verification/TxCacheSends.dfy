/**
  How often a pre-built transaction is sent, over every interleaving.
 */
module TxCacheSends {
  import opened TxCache
  import opened TxCacheReuse

  /** The cached transactions of the sends that succeeded, in the order in which they did. */
  function SentOf(actions: seq<Action>): seq<PreBuilt>
    decreases |actions|
  {
    if actions == [] then []
    else
      var a, before := actions[|actions| - 1], actions[..|actions| - 1];
      SentOf(before)
      + (if a.SendSettled? && a.succeeded && a.id in Run(before).sends then [Run(before).sends[a.id].tx] else [])
  }

  lemma SameSends(s: State, next: State, tx: PreBuilt)
    requires next.sends == s.sends
    ensures SendsOf(next, tx) == SendsOf(s, tx)
  {
  }

  lemma SendsOfAfterDrop(s: State, next: State, id: nat, tx: PreBuilt)
    requires id in s.sends && next.sends == s.sends - {id}
    ensures |SendsOf(next, tx)| == |SendsOf(s, tx)| - (if s.sends[id].tx == tx then 1 else 0)
  {
    hide SendsOf;
    assert s.sends == next.sends[id := s.sends[id]];
    SendsOfAfterPut(next, s, id, s.sends[id], tx);
  }

  /** A settled send leaves the sends; a pick joins them. */
  lemma StepSends(s: State, a: Action, tx: PreBuilt)
    requires Consistent(s)
    ensures var next := Step(s, a);
            |SendsOf(next, tx)| - PickCount(next.picks, tx)
              == |SendsOf(s, tx)| - PickCount(s.picks, tx)
               - (if a.SendSettled? && a.id in s.sends && s.sends[a.id].tx == tx then 1 else 0)
  {
    hide BuildsStarted, ToRefresh, SendsOf, PickCount, PickValid, Made;
    var next := Step(s, a);
    if a.Refresh? {
      BuildsKeep(s, ToRefresh(s.txCache, a.tokens, a.now), a.usdcAmount);
      SameSends(s, next, tx);
    } else if a.Buy? && Usable(s.txCache, a.order.mint, a.now) {
      var picked := s.txCache[a.order.mint];
      PickCountAppend(s.picks, Pick(a.order, picked, a.now), tx);
      assert s.nextId !in s.sends;
      SendsOfAfterPut(s, next, s.nextId, Send(a.order, picked), tx);
    } else if a.SendSettled? && a.id in s.sends {
      SendsOfAfterDrop(s, next, a.id, tx);
    } else {
      SameSends(s, next, tx);
    }
  }

  lemma SentAppend(actions: seq<Action>, tx: PreBuilt)
    requires actions != []
    ensures var a, before := actions[|actions| - 1], actions[..|actions| - 1];
            multiset(SentOf(actions))[tx]
              <= multiset(SentOf(before))[tx]
               + (if a.SendSettled? && a.id in Run(before).sends && Run(before).sends[a.id].tx == tx then 1 else 0)
  {
    hide Run;
    var before := actions[..|actions| - 1];
    assert SentOf(before) + [] == SentOf(before);
  }

  /** A transaction was sent, or is being sent, at most as often as it was picked. */
  lemma {:induction false} SentWithinPicks(actions: seq<Action>, tx: PreBuilt)
    ensures multiset(SentOf(actions))[tx] + |SendsOf(Run(actions), tx)| <= PickCount(Run(actions).picks, tx)
    decreases |actions|
  {
    if actions == [] {
      assert SendsOf(INITIAL, tx) == {};
    } else {
      hide Step, SendsOf, PickCount, Consistent, SentOf;
      var before, a := actions[..|actions| - 1], actions[|actions| - 1];
      SentWithinPicks(before, tx);
      RunIsConsistent(before);
      StepSends(Run(before), a, tx);
      SentAppend(actions, tx);
    }
  }

  /** So a transaction is sent at most as often as sends of its token overlapped. */
  lemma SentWithinPeak(actions: seq<Action>, tx: PreBuilt)
    ensures multiset(SentOf(actions))[tx] <= PeakSends(actions, tx.mint)
  {
    hide SentOf, SendsOf, PeakSends, PickCount;
    SentWithinPicks(actions, tx);
    PicksWithinPeak(actions, tx);
  }

  lemma {:induction false} NothingSent(actions: seq<Action>)
    requires forall a :: a in actions ==> !a.SendSettled?
    ensures SentOf(actions) == []
    decreases |actions|
  {
    if actions != [] {
      NothingSent(actions[..|actions| - 1]);
    }
  }

  lemma OneSendLess(sends: map<nat, Send>, id: nat)
    requires id in sends
    ensures |sends - {id}| == |sends| - 1
  {
    assert sends == (sends - {id})[id := sends[id]];
  }

  lemma OneMoreSent(sent: seq<PreBuilt>, tx: PreBuilt, n: nat)
    ensures sent + [tx] + seq(n, _ => tx) == sent + seq(n + 1, _ => tx)
  {
    assert [tx] + seq(n, _ => tx) == seq(n + 1, _ => tx);
  }

  /** All sends under way succeed. */
  lemma {:induction false} SendAll(before: seq<Action>, send: Send) returns (actions: seq<Action>)
    requires forall id :: id in Run(before).sends ==> Run(before).sends[id] == send
    ensures SentOf(actions) == SentOf(before) + seq(|Run(before).sends|, _ => send.tx)
    decreases |Run(before).sends|
  {
    hide Run;
    var s := Run(before);
    if s.sends == map[] {
      actions := before;
      assert SentOf(before) + [] == SentOf(before);
    } else {
      var id :| id in s.sends;
      var more := before + [SendSettled(id, true)];
      RunAppend(before, SendSettled(id, true));
      assert more[..|more| - 1] == before;
      OneSendLess(s.sends, id);
      actions := SendAll(more, send);
      OneMoreSent(SentOf(before), send.tx, |s.sends| - 1);
    }
  }

  /** The bound is attained: n overlapping buys send one transaction n times, for every n. */
  lemma OverlapSendsEach(order: Order, n: nat) returns (actions: seq<Action>, tx: PreBuilt)
    ensures SentOf(actions) == seq(n, _ => tx)
  {
    hide Run, SentOf, PickCount;
    var before;
    before, tx := OverlapReuses(order, n);
    NothingSent(before);
    actions := SendAll(before, Send(order, tx));
    assert [] + seq(n, _ => tx) == seq(n, _ => tx);
  }
}
