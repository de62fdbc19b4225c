/**
  The trade that is reported for a list of balance deltas (src/services/trade-analyzer.ts), in terms of
  the balance records themselves.
 */
module TradeDetection {
  import opened Wrappers
  import opened Decimals
  import opened TokenDeltas
  import Positions

  datatype DetectedTrade = DetectedTrade(
    direction: Positions.Direction, tokenMint: Mint, usdcAmount: real, tokenAmount: nat
  )

  /** The first delta of USDC, or the first of another token. */
  function FindDelta(deltas: seq<Delta>, usdc: bool): Option<Delta> {
    if deltas == [] then None
    else if (deltas[0].mint == USDC_MINT) == usdc then Some(deltas[0])
    else FindDelta(deltas[1..], usdc)
  }

  /** The direction follows the flow of USDC; an unreadable raw amount reports no trade. */
  function TradeOf(deltas: seq<Delta>): Option<DetectedTrade> {
    var usdcDelta :- FindDelta(deltas, true);
    var otherTokenDelta :- FindDelta(deltas, false);
    var tokenDeltaRaw :- ParseInt(otherTokenDelta.deltaRaw);
    Some(DetectedTrade(if usdcDelta.delta > 0.0 then Positions.Sell else Positions.Buy,
                       otherTokenDelta.mint, AbsReal(usdcDelta.delta), Abs(tokenDeltaRaw)))
  }

  //
  // Which deltas are found
  //

  /** The entry passes the filter and is of USDC, or of another token. */
  predicate Candidate(e: Entry, usdc: bool) {
    Kept(ToDelta(e)) && (e.mint == USDC_MINT) == usdc
  }

  ghost predicate FirstCandidate(entries: seq<Entry>, usdc: bool, i: nat) {
    && i < |entries| && Candidate(entries[i], usdc)
    && forall k :: 0 <= k < i ==> !Candidate(entries[k], usdc)
  }

  lemma {:induction false} FindAppend(deltas: seq<Delta>, d: Delta, usdc: bool)
    ensures FindDelta(deltas + [d], usdc)
         == if FindDelta(deltas, usdc).Some? then FindDelta(deltas, usdc)
            else if (d.mint == USDC_MINT) == usdc then Some(d) else None
  {
    if deltas == [] {
      assert ([] + [d])[1..] == [];
    } else {
      assert (deltas + [d])[1..] == deltas[1..] + [d];
      FindAppend(deltas[1..], d, usdc);
    }
  }

  lemma {:induction false} FoundIsFirst(entries: seq<Entry>, usdc: bool)
    ensures var found := FindDelta(KeptDeltas(entries), usdc);
            && (found.Some? ==> exists i: nat :: FirstCandidate(entries, usdc, i) && found.value == ToDelta(entries[i]))
            && (found.None? ==> forall i :: 0 <= i < |entries| ==> !Candidate(entries[i], usdc))
    decreases |entries|
  {
    hide Kept, ToDelta;
    if entries != [] {
      var before, last := entries[..|entries| - 1], entries[|entries| - 1];
      FoundIsFirst(before, usdc);
      var found := FindDelta(KeptDeltas(before), usdc);
      if Kept(ToDelta(last)) {
        FindAppend(KeptDeltas(before), ToDelta(last), usdc);
        KeepsMint(last);
      }
      if found.Some? {
        var i: nat :| FirstCandidate(before, usdc, i) && found.value == ToDelta(before[i]);
        assert FirstCandidate(entries, usdc, i);
      } else if Candidate(last, usdc) {
        assert FirstCandidate(entries, usdc, |before|);
      }
    }
  }

  lemma KeepsMint(e: Entry)
    ensures ToDelta(e).mint == e.mint
  {
  }

  //
  // In terms of the records
  //

  /** The token of the user moved by more than a millionth of it. */
  predicate Moved(pre: seq<Balance>, post: seq<Balance>, user: string, mint: Mint) {
    Abs(RawDelta(pre, post, user, mint)) * 1_000_000 > Pow10(EntryOf(pre, post, user, mint).decimals)
  }

  lemma CandidateIff(e: Entry, usdc: bool)
    ensures Candidate(e, usdc) <==>
            Abs(e.rawDelta) * 1_000_000 > Pow10(e.decimals) && (e.mint == USDC_MINT) == usdc
  {
    hide UiString, DecimalValue, AbsReal, Pow10;
    DeltaSignAndSize(e.rawDelta, e.decimals);
  }

  lemma {:induction false} UnseenSum(records: seq<Balance>, user: string, mint: Mint)
    ensures mint in FirstSeen(records, user) <==> Seen(records, user, mint)
    ensures !Seen(records, user, mint) ==> Sum(records, user, mint) == 0
    decreases |records|
  {
    if records != [] {
      UnseenSum(records[..|records| - 1], user, mint);
    }
  }

  lemma {:induction false} SeenInConcat(a: seq<Balance>, b: seq<Balance>, user: string, mint: Mint)
    ensures Seen(a + b, user, mint) <==> Seen(a, user, mint) || Seen(b, user, mint)
    decreases |b|
  {
    if b == [] {
      assert a + b == a;
    } else {
      assert (a + b)[..|a + b| - 1] == a + b[..|b| - 1];
      SeenInConcat(a, b[..|b| - 1], user, mint);
    }
  }

  /** A token that moved has an entry. */
  lemma MovedIsSeen(pre: seq<Balance>, post: seq<Balance>, user: string, mint: Mint)
    requires Moved(pre, post, user, mint)
    ensures mint in FirstSeen(pre + post, user)
  {
    hide LastDecimals, FirstSeen;
    UnseenSum(pre + post, user, mint);
    UnseenSum(post, user, mint);
    SeenInConcat(pre, post, user, mint);
  }

  /** The reported token is the first that moved, apart from USDC, in the order of the records. */
  ghost predicate FirstMoved(pre: seq<Balance>, post: seq<Balance>, user: string, mint: Mint) {
    var mints := FirstSeen(pre + post, user);
    exists i: nat ::
      && i < |mints| && mints[i] == mint && mint != USDC_MINT && Moved(pre, post, user, mint)
      && forall k :: 0 <= k < i ==> mints[k] == USDC_MINT || !Moved(pre, post, user, mints[k])
  }

  lemma FoundUsdc(pre: seq<Balance>, post: seq<Balance>, user: string)
    ensures var found := FindDelta(KeptDeltas(Entries(pre, post, user)), true);
            && (found.Some? <==> Moved(pre, post, user, USDC_MINT))
            && (found.Some? ==> found.value == ToDelta(EntryOf(pre, post, user, USDC_MINT)))
  {
    hide ToDelta, FirstSeen, EntryOf, Kept, KeptDeltas, FindDelta, Pow10, Candidate;
    var mints, entries := FirstSeen(pre + post, user), Entries(pre, post, user);
    FoundIsFirst(entries, true);
    forall i | 0 <= i < |entries|
      ensures Candidate(entries[i], true) <==> Moved(pre, post, user, mints[i]) && mints[i] == USDC_MINT
    {
      EntryHas(pre, post, user, mints[i]);
      CandidateIff(entries[i], true);
    }
    if Moved(pre, post, user, USDC_MINT) {
      MovedIsSeen(pre, post, user, USDC_MINT);
    }
  }

  lemma EntryHas(pre: seq<Balance>, post: seq<Balance>, user: string, mint: Mint)
    ensures EntryOf(pre, post, user, mint).mint == mint
    ensures EntryOf(pre, post, user, mint).rawDelta == RawDelta(pre, post, user, mint)
  {
  }

  lemma FoundOther(pre: seq<Balance>, post: seq<Balance>, user: string)
    ensures var found := FindDelta(KeptDeltas(Entries(pre, post, user)), false);
            && (found.Some? <==> exists mint :: mint != USDC_MINT && Moved(pre, post, user, mint))
            && (found.Some? ==> FirstMoved(pre, post, user, found.value.mint))
            && (found.Some? ==> found.value == ToDelta(EntryOf(pre, post, user, found.value.mint)))
  {
    hide ToDelta, FirstSeen, EntryOf, Kept, KeptDeltas, FindDelta, Pow10, Candidate, Moved;
    var mints, entries := FirstSeen(pre + post, user), Entries(pre, post, user);
    var found := FindDelta(KeptDeltas(entries), false);
    FoundIsFirst(entries, false);
    forall i | 0 <= i < |entries|
      ensures entries[i].mint == mints[i]
      ensures Candidate(entries[i], false) <==> Moved(pre, post, user, mints[i]) && mints[i] != USDC_MINT
    {
      OtherCandidate(pre, post, user, mints[i]);
    }
    if found.Some? {
      var i: nat :| FirstCandidate(entries, false, i) && found.value == ToDelta(entries[i]);
      KeepsMint(entries[i]);
    } else if mint :| mint != USDC_MINT && Moved(pre, post, user, mint) {
      MovedIsSeen(pre, post, user, mint);
      assert false;
    }
  }

  lemma OtherCandidate(pre: seq<Balance>, post: seq<Balance>, user: string, mint: Mint)
    ensures EntryOf(pre, post, user, mint).mint == mint
    ensures Candidate(EntryOf(pre, post, user, mint), false)
       <==> Moved(pre, post, user, mint) && mint != USDC_MINT
  {
    hide EntryOf, Candidate, Pow10;
    EntryHas(pre, post, user, mint);
    CandidateIff(EntryOf(pre, post, user, mint), false);
  }

  lemma RawIsRead(e: Entry)
    ensures ParseInt(ToDelta(e).deltaRaw) == Some(e.rawDelta)
    ensures ToDelta(e).delta > 0.0 <==> e.rawDelta > 0
    ensures AbsReal(ToDelta(e).delta)
         == Abs(e.rawDelta) as real / Pow10(Scale(e.rawDelta, e.decimals)) as real
  {
    hide UiString, DecimalValue, ParseInt, ToString, AbsReal, Pow10, Scale;
    PrintThenParse(e.rawDelta);
    DeltaSignAndSize(e.rawDelta, e.decimals);
    UiStringScales(e.rawDelta, e.decimals);
    SizeOfQuotient(e.rawDelta, Pow10(Scale(e.rawDelta, e.decimals)));
  }

  /**
    A trade is reported exactly if USDC and another token of the user moved. It is a sell exactly if the
    user's USDC grew; the token is the first that moved, with its raw amount; and the USDC amount is the raw
    amount divided as the decimal string divides it, which is exact whenever USDC shows decimals.
   */
  lemma ReportedTrade(pre: seq<Balance>, post: seq<Balance>, user: string)
    ensures var trade := TradeOf(KeptDeltas(Entries(pre, post, user)));
            var usdc := EntryOf(pre, post, user, USDC_MINT);
            && (trade.Some? <==>
                && Moved(pre, post, user, USDC_MINT)
                && exists mint :: mint != USDC_MINT && Moved(pre, post, user, mint))
            && (trade.Some? ==>
                && (trade.value.direction == Positions.Sell <==> RawDelta(pre, post, user, USDC_MINT) > 0)
                && (trade.value.direction == Positions.Buy <==> RawDelta(pre, post, user, USDC_MINT) < 0)
                && FirstMoved(pre, post, user, trade.value.tokenMint)
                && trade.value.tokenAmount == Abs(RawDelta(pre, post, user, trade.value.tokenMint))
                && trade.value.usdcAmount
                   == Abs(usdc.rawDelta) as real / Pow10(Scale(usdc.rawDelta, usdc.decimals)) as real
                && usdc.rawDelta == RawDelta(pre, post, user, USDC_MINT))
  {
    hide Scale, ToDelta, EntryOf, RawDelta, Entries, KeptDeltas, FindDelta, FirstMoved, Pow10, AbsReal, ParseInt;
    var deltas := KeptDeltas(Entries(pre, post, user));
    FoundUsdc(pre, post, user);
    FoundOther(pre, post, user);
    var usdc := EntryOf(pre, post, user, USDC_MINT);
    RawIsRead(usdc);
    EntryHas(pre, post, user, USDC_MINT);
    var other := FindDelta(deltas, false);
    if other.Some? {
      var e := EntryOf(pre, post, user, other.value.mint);
      RawIsRead(e);
      EntryHas(pre, post, user, other.value.mint);
    }
  }
}
