/**
  What the entries of TokenDeltas depend on: which records count, and in which order.
 */
module TokenRecords {
  import opened Wrappers
  import opened TokenDeltas

  /** The records of the user. */
  function Owned(records: seq<Balance>, user: string): seq<Balance>
    decreases |records|
  {
    if records == [] then []
    else
      var last := records[|records| - 1];
      Owned(records[..|records| - 1], user) + (if last.owner == user then [last] else [])
  }

  lemma {:induction false} OwnedConcat(a: seq<Balance>, b: seq<Balance>, user: string)
    ensures Owned(a + b, user) == Owned(a, user) + Owned(b, user)
    decreases |b|
  {
    if b == [] {
      assert a + b == a;
    } else {
      assert (a + b)[..|a + b| - 1] == a + b[..|b| - 1];
      OwnedConcat(a, b[..|b| - 1], user);
    }
  }

  lemma {:induction false} OwnedTell(records: seq<Balance>, user: string, mint: Mint, before: nat)
    ensures var owned := Owned(records, user);
            && Sum(owned, user, mint) == Sum(records, user, mint)
            && Last(owned, user, mint) == Last(records, user, mint)
            && LastDecimals(owned, user, mint, before) == LastDecimals(records, user, mint, before)
            && FirstSeen(owned, user) == FirstSeen(records, user)
    decreases |records|
  {
    if records != [] {
      var init, last := records[..|records| - 1], records[|records| - 1];
      OwnedTell(init, user, mint, before);
      TellAppend(init, last, user, mint, before);
      assert records == init + [last];
      if last.owner == user {
        TellAppend(Owned(init, user), last, user, mint, before);
      } else {
        assert Owned(init, user) + [] == Owned(init, user);
      }
    }
  }

  lemma TellAppend(records: seq<Balance>, b: Balance, user: string, mint: Mint, before: nat)
    ensures var more := records + [b];
            && Sum(more, user, mint) == Sum(records, user, mint) + (if Of(b, user, mint) then b.amount else 0)
            && Last(more, user, mint) == (if Of(b, user, mint) then Some(b) else Last(records, user, mint))
            && LastDecimals(more, user, mint, before)
               == (if Of(b, user, mint) && b.decimals != 0 then b.decimals
                   else LastDecimals(records, user, mint, before))
            && FirstSeen(more, user)
               == (if b.owner == user then WithKey(FirstSeen(records, user), b.mint) else FirstSeen(records, user))
  {
    assert (records + [b])[..|records|] == records;
  }

  lemma {:induction false} SameEntries(mints: seq<Mint>, pre: seq<Balance>, post: seq<Balance>, user: string)
    ensures EntriesFor(mints, Owned(pre, user), Owned(post, user), user) == EntriesFor(mints, pre, post, user)
  {
    hide Last, LastDecimals;
    if mints != [] {
      SameEntries(mints[1..], pre, post, user);
      OwnedTell(pre, user, mints[0], 0);
      OwnedTell(post, user, mints[0], PreDecimals(pre, user, mints[0]));
    }
  }

  /** Records of other owners are of no consequence. */
  lemma OthersAreIrrelevant(pre: seq<Balance>, post: seq<Balance>, user: string)
    ensures Entries(Owned(pre, user), Owned(post, user), user) == Entries(pre, post, user)
  {
    OwnedConcat(pre, post, user);
    OwnedTell(pre + post, user, "", 0);
    SameEntries(FirstSeen(pre + post, user), pre, post, user);
  }

  //
  // Order
  //

  /** The first record of the token. */
  function FirstIndex(records: seq<Balance>, user: string, mint: Mint): (k: nat)
    requires Seen(records, user, mint)
    ensures k < |records| && Of(records[k], user, mint)
    ensures forall i :: 0 <= i < k ==> !Of(records[i], user, mint)
    decreases |records|
  {
    var init := records[..|records| - 1];
    if Seen(init, user, mint) then FirstIndex(init, user, mint)
    else
      UnseenHas(init, user, mint);
      |records| - 1
  }

  lemma {:induction false} UnseenHas(records: seq<Balance>, user: string, mint: Mint)
    ensures Seen(records, user, mint) <==> exists i :: 0 <= i < |records| && Of(records[i], user, mint)
    decreases |records|
  {
    if records != [] {
      var init := records[..|records| - 1];
      UnseenHas(init, user, mint);
      assert forall i :: 0 <= i < |init| ==> init[i] == records[i];
    }
  }

  /** The tokens stand in the order of their first records, each once. */
  lemma {:induction false} SeenInOrder(records: seq<Balance>, user: string)
    ensures forall i :: 0 <= i < |FirstSeen(records, user)| ==> Seen(records, user, FirstSeen(records, user)[i])
    ensures forall i, j :: 0 <= i < j < |FirstSeen(records, user)| ==>
              FirstIndex(records, user, FirstSeen(records, user)[i])
              < FirstIndex(records, user, FirstSeen(records, user)[j])
    ensures forall mint :: Seen(records, user, mint) ==> mint in FirstSeen(records, user)
    decreases |records|
  {
    hide Of;
    if records != [] {
      SeenInOrder(records[..|records| - 1], user);
      OfMeans(records[|records| - 1], user);
    }
  }

  lemma OfMeans(b: Balance, user: string)
    ensures forall mint :: Of(b, user, mint) <==> b.owner == user && b.mint == mint
  {
  }

  //
  // The decimals
  //

  /** The last record of the token that names decimals is this one. */
  predicate NamesLast(records: seq<Balance>, user: string, mint: Mint, k: nat) {
    && k < |records| && Of(records[k], user, mint) && records[k].decimals != 0
    && forall i :: k < i < |records| && Of(records[i], user, mint) ==> records[i].decimals == 0
  }

  /** The decimals are those of the last record that names them, or else those known before. */
  lemma {:induction false} DecimalsAreLastNamed(records: seq<Balance>, user: string, mint: Mint, before: nat)
    ensures var decimals := LastDecimals(records, user, mint, before);
            || (exists k: nat :: NamesLast(records, user, mint, k) && decimals == records[k].decimals)
            || (decimals == before
                && forall i :: 0 <= i < |records| && Of(records[i], user, mint) ==> records[i].decimals == 0)
    decreases |records|
  {
    if records != [] {
      var init := records[..|records| - 1];
      DecimalsAreLastNamed(init, user, mint, before);
      if k: nat :| NamesLast(init, user, mint, k) && LastDecimals(init, user, mint, before) == init[k].decimals {
        if !(Of(records[|init|], user, mint) && records[|init|].decimals != 0) {
          assert NamesLast(records, user, mint, k);
        }
      }
      if Of(records[|init|], user, mint) && records[|init|].decimals != 0 {
        assert NamesLast(records, user, mint, |init|);
      }
    }
  }
}
