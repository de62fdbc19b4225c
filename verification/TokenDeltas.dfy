/**
  The trade that a transaction's token balances show (src/services/trade-analyzer.ts).

  Two passes over the balance records fill a map that remembers the order of its keys; each entry is
  then written as a decimal string, read back, and filtered.
 */
module TokenDeltas {
  import opened Wrappers
  import opened Decimals
  import Positions

  type Mint = Positions.Mint

  /** A balance record. The amount is a u64 in the source; its size is of no consequence here. */
  datatype Balance = Balance(owner: string, mint: Mint, amount: nat, decimals: nat)

  datatype Entry = Entry(mint: Mint, rawDelta: int, decimals: nat)

  datatype Delta = Delta(mint: Mint, delta: real, deltaRaw: string, decimals: nat)

  const USDC_MINT: Mint := "EPjFWdd5AufqSSqeM2qN1xzybapC8G4wEGGkZwyTDt1v"

  //
  // A map with its keys in the order in which they were first set
  //

  function Find(entries: seq<Entry>, mint: Mint): Option<Entry> {
    if entries == [] then None
    else if entries[0].mint == mint then Some(entries[0])
    else Find(entries[1..], mint)
  }

  function Put(entries: seq<Entry>, e: Entry): seq<Entry> {
    if entries == [] then [e]
    else if entries[0].mint == e.mint then [e] + entries[1..]
    else [entries[0]] + Put(entries[1..], e)
  }

  function Keys(entries: seq<Entry>): (keys: seq<Mint>)
    ensures |keys| == |entries|
    ensures forall i :: 0 <= i < |keys| ==> keys[i] == entries[i].mint
  {
    if entries == [] then [] else [entries[0].mint] + Keys(entries[1..])
  }

  function WithKey(keys: seq<Mint>, mint: Mint): seq<Mint> {
    if mint in keys then keys else keys + [mint]
  }

  predicate Distinct(keys: seq<Mint>) {
    forall i, j :: 0 <= i < j < |keys| ==> keys[i] != keys[j]
  }

  lemma {:induction false} PutFinds(entries: seq<Entry>, e: Entry, mint: Mint)
    ensures Find(Put(entries, e), mint) == if mint == e.mint then Some(e) else Find(entries, mint)
    ensures Keys(Put(entries, e)) == WithKey(Keys(entries), e.mint)
  {
    if entries != [] && entries[0].mint != e.mint {
      PutFinds(entries[1..], e, mint);
      assert Put(entries, e)[1..] == Put(entries[1..], e);
    } else if entries != [] {
      assert Put(entries, e)[1..] == entries[1..];
    }
  }

  //
  // What the records say about one token of one user
  //

  predicate Of(b: Balance, user: string, mint: Mint) {
    b.owner == user && b.mint == mint
  }

  function Total(records: seq<Balance>, weight: Balance -> nat): nat
    decreases |records|
  {
    if records == [] then 0
    else Total(records[..|records| - 1], weight) + weight(records[|records| - 1])
  }

  function AmountOf(user: string, mint: Mint): Balance -> nat {
    (b: Balance) => if Of(b, user, mint) then b.amount else 0
  }

  function One(user: string, mint: Mint): Balance -> nat {
    (b: Balance) => if Of(b, user, mint) then 1 else 0
  }

  function Sum(records: seq<Balance>, user: string, mint: Mint): nat {
    Total(records, AmountOf(user, mint))
  }

  function Count(records: seq<Balance>, user: string, mint: Mint): nat {
    Total(records, One(user, mint))
  }

  /** The last record of the token, which is the only one that the first pass keeps. */
  function Last(records: seq<Balance>, user: string, mint: Mint): Option<Balance>
    decreases |records|
  {
    if records == [] then None
    else
      var last := records[|records| - 1];
      if Of(last, user, mint) then Some(last) else Last(records[..|records| - 1], user, mint)
  }

  /** The tokens of the user in the order in which they first appear. */
  function FirstSeen(records: seq<Balance>, user: string): seq<Mint>
    decreases |records|
  {
    if records == [] then []
    else
      var last, before := records[|records| - 1], FirstSeen(records[..|records| - 1], user);
      if last.owner == user then WithKey(before, last.mint) else before
  }

  /** The last decimals that are not zero, or else those known before. */
  function LastDecimals(records: seq<Balance>, user: string, mint: Mint, before: nat): nat
    decreases |records|
  {
    if records == [] then before
    else
      var last := records[|records| - 1];
      if Of(last, user, mint) && last.decimals != 0 then last.decimals
      else LastDecimals(records[..|records| - 1], user, mint, before)
  }

  function PreAmount(pre: seq<Balance>, user: string, mint: Mint): nat {
    var last := Last(pre, user, mint);
    if last.Some? then last.value.amount else 0
  }

  function PreDecimals(pre: seq<Balance>, user: string, mint: Mint): nat {
    var last := Last(pre, user, mint);
    if last.Some? then last.value.decimals else 0
  }

  predicate Seen(records: seq<Balance>, user: string, mint: Mint) {
    Last(records, user, mint).Some?
  }

  function RawDelta(pre: seq<Balance>, post: seq<Balance>, user: string, mint: Mint): int {
    Sum(post, user, mint) - PreAmount(pre, user, mint)
  }

  /** The entry of one token after both passes. */
  function EntryOf(pre: seq<Balance>, post: seq<Balance>, user: string, mint: Mint): Entry {
    Entry(mint, RawDelta(pre, post, user, mint), LastDecimals(post, user, mint, PreDecimals(pre, user, mint)))
  }

  function FinalEntry(pre: seq<Balance>, post: seq<Balance>, user: string, mint: Mint): Option<Entry> {
    if Seen(pre, user, mint) || Seen(post, user, mint) then Some(EntryOf(pre, post, user, mint)) else None
  }

  function EntriesFor(mints: seq<Mint>, pre: seq<Balance>, post: seq<Balance>, user: string): (entries: seq<Entry>)
    ensures |entries| == |mints|
    ensures forall i :: 0 <= i < |mints| ==> entries[i] == EntryOf(pre, post, user, mints[i])
  {
    if mints == [] then [] else [EntryOf(pre, post, user, mints[0])] + EntriesFor(mints[1..], pre, post, user)
  }

  /** The whole map: one entry for each token of the user, in the order of first appearance. */
  function Entries(pre: seq<Balance>, post: seq<Balance>, user: string): seq<Entry> {
    EntriesFor(FirstSeen(pre + post, user), pre, post, user)
  }

  /** The map holds this for every token, in the order of first appearance. */
  ghost predicate Holds(entries: seq<Entry>, pre: seq<Balance>, post: seq<Balance>, user: string) {
    && Keys(entries) == FirstSeen(pre + post, user)
    && forall mint :: Find(entries, mint) == FinalEntry(pre, post, user, mint)
  }

  lemma HoldsNothing(user: string)
    ensures Holds([], [], [], user)
  {
  }

  lemma {:induction false} NeverSeen(records: seq<Balance>, user: string, mint: Mint, before: nat)
    ensures !Seen(records, user, mint) ==>
      Sum(records, user, mint) == 0 && LastDecimals(records, user, mint, before) == before
    decreases |records|
  {
    if records != [] {
      NeverSeen(records[..|records| - 1], user, mint, before);
    }
  }

  lemma FirstSeenAppend(records: seq<Balance>, b: Balance, user: string)
    ensures FirstSeen(records + [b], user)
         == if b.owner == user then WithKey(FirstSeen(records, user), b.mint) else FirstSeen(records, user)
  {
    assert (records + [b])[..|records|] == records;
  }

  lemma FinalEntryAfterPre(pre: seq<Balance>, b: Balance, user: string, mint: Mint)
    ensures FinalEntry(pre + [b], [], user, mint)
         == if Of(b, user, mint) then Some(Entry(mint, -(b.amount as int), b.decimals))
            else FinalEntry(pre, [], user, mint)
  {
    assert (pre + [b])[..|pre|] == pre;
  }

  function AfterPost(found: Option<Entry>, b: Balance): Entry {
    var current := if found.Some? then found.value else Entry(b.mint, 0, b.decimals);
    Entry(b.mint, current.rawDelta + b.amount, if b.decimals != 0 then b.decimals else current.decimals)
  }

  lemma FinalEntryAfterPost(pre: seq<Balance>, post: seq<Balance>, b: Balance, user: string, mint: Mint)
    ensures FinalEntry(pre, post + [b], user, mint)
         == if Of(b, user, mint) then Some(AfterPost(FinalEntry(pre, post, user, mint), b))
            else FinalEntry(pre, post, user, mint)
  {
    assert (post + [b])[..|post|] == post;
    NeverSeen(post, user, mint, PreDecimals(pre, user, mint));
  }

  lemma PreRecord(entries: seq<Entry>, pre: seq<Balance>, b: Balance, user: string)
    requires Holds(entries, pre, [], user)
    ensures Holds(if b.owner == user then Put(entries, Entry(b.mint, -(b.amount as int), b.decimals)) else entries,
                  pre + [b], [], user)
  {
    hide Find, Put, FinalEntry, FirstSeen;
    var e := Entry(b.mint, -(b.amount as int), b.decimals);
    assert pre + [] == pre && pre + [b] + [] == pre + [b];
    FirstSeenAppend(pre, b, user);
    forall mint
      ensures FinalEntry(pre + [b], [], user, mint)
           == if b.owner == user then Find(Put(entries, e), mint) else Find(entries, mint)
    {
      FinalEntryAfterPre(pre, b, user, mint);
      PutFinds(entries, e, mint);
    }
    PutFinds(entries, e, b.mint);
  }

  lemma PostRecord(entries: seq<Entry>, pre: seq<Balance>, post: seq<Balance>, b: Balance, user: string)
    requires Holds(entries, pre, post, user)
    ensures Holds(if b.owner == user then Put(entries, AfterPost(Find(entries, b.mint), b)) else entries,
                  pre, post + [b], user)
  {
    hide Find, Put, FinalEntry, FirstSeen, AfterPost;
    var e := AfterPost(Find(entries, b.mint), b);
    assert e.mint == b.mint by {
      AfterPostMint(Find(entries, b.mint), b);
    }
    assert pre + (post + [b]) == pre + post + [b];
    FirstSeenAppend(pre + post, b, user);
    forall mint
      ensures FinalEntry(pre, post + [b], user, mint)
           == if b.owner == user then Find(Put(entries, e), mint) else Find(entries, mint)
    {
      FinalEntryAfterPost(pre, post, b, user, mint);
      PutFinds(entries, e, mint);
    }
    PutFinds(entries, e, b.mint);
  }

  lemma AfterPostMint(found: Option<Entry>, b: Balance)
    ensures AfterPost(found, b).mint == b.mint
  {
  }

  lemma {:induction false} FirstSeenDistinct(records: seq<Balance>, user: string)
    ensures Distinct(FirstSeen(records, user))
    decreases |records|
  {
    if records != [] {
      FirstSeenDistinct(records[..|records| - 1], user);
    }
  }

  lemma {:induction false} FindAt(entries: seq<Entry>, i: nat)
    requires i < |entries| && Distinct(Keys(entries))
    ensures Find(entries, entries[i].mint) == Some(entries[i])
  {
    if i > 0 {
      assert Keys(entries)[0] != Keys(entries)[i];
      assert forall k :: 0 <= k < |entries| - 1 ==> Keys(entries[1..])[k] == Keys(entries)[k + 1];
      FindAt(entries[1..], i - 1);
    }
  }

  lemma HoldsIsEntries(entries: seq<Entry>, pre: seq<Balance>, post: seq<Balance>, user: string)
    requires Holds(entries, pre, post, user)
    ensures entries == Entries(pre, post, user)
  {
    hide Find;
    var mints := FirstSeen(pre + post, user);
    FirstSeenDistinct(pre + post, user);
    forall i | 0 <= i < |entries|
      ensures entries[i] == EntryOf(pre, post, user, mints[i])
    {
      FindAt(entries, i);
      assert Keys(entries)[i] == mints[i];
    }
  }

  //
  // The list of deltas
  //

  /** The number read back from the decimal string. */
  function UiDelta(rawDelta: int, decimals: nat): real {
    var read := DecimalValue(UiString(rawDelta, decimals));
    if read.Some? then read.value else 0.0
  }

  function ToDelta(e: Entry): Delta {
    Delta(e.mint, UiDelta(e.rawDelta, e.decimals), ToString(e.rawDelta), e.decimals)
  }

  predicate Kept(d: Delta) {
    AbsReal(d.delta) > 0.000001
  }

  function KeptDeltas(entries: seq<Entry>): seq<Delta>
    decreases |entries|
  {
    if entries == [] then []
    else
      var d, before := ToDelta(entries[|entries| - 1]), KeptDeltas(entries[..|entries| - 1]);
      if Kept(d) then before + [d] else before
  }

  method ExtractTokenBalanceDeltas(pre: seq<Balance>, post: seq<Balance>, user: string)
    returns (deltas: seq<Delta>)
    ensures deltas == KeptDeltas(Entries(pre, post, user))
  {
    hide Holds, Put, Find;
    var balanceMap: seq<Entry> := [];
    HoldsNothing(user);
    for i := 0 to |pre|
      invariant Holds(balanceMap, pre[..i], [], user)
    {
      var balance := pre[i];
      assert pre[..i + 1] == pre[..i] + [balance];
      PreRecord(balanceMap, pre[..i], balance, user);
      if balance.owner == user {
        balanceMap := Put(balanceMap, Entry(balance.mint, -(balance.amount as int), balance.decimals));
      }
    }
    assert pre[..|pre|] == pre;
    for i := 0 to |post|
      invariant Holds(balanceMap, pre, post[..i], user)
    {
      var balance := post[i];
      assert post[..i + 1] == post[..i] + [balance];
      PostRecord(balanceMap, pre, post[..i], balance, user);
      if balance.owner == user {
        var found := Find(balanceMap, balance.mint);
        var current := if found.Some? then found.value else Entry(balance.mint, 0, balance.decimals);
        balanceMap := Put(balanceMap, Entry(balance.mint, current.rawDelta + balance.amount,
                                            if balance.decimals != 0 then balance.decimals else current.decimals));
      }
    }
    assert post[..|post|] == post;
    deltas := [];
    for i := 0 to |balanceMap|
      invariant deltas == KeptDeltas(balanceMap[..i])
    {
      assert balanceMap[..i + 1][..i] == balanceMap[..i];
      var delta := ToDelta(balanceMap[i]);
      if Kept(delta) {
        deltas := deltas + [delta];
      }
    }
    assert balanceMap[..|balanceMap|] == balanceMap;
    HoldsIsEntries(balanceMap, pre, post, user);
  }

  //
  // When the delta is what the user gained
  //

  /** No record of the first pass is overwritten by a later one, unless it is of an empty account. */
  predicate OverwrittenAreEmpty(pre: seq<Balance>, user: string, mint: Mint) {
    forall i, j :: 0 <= i < j < |pre| && Of(pre[i], user, mint) && Of(pre[j], user, mint) ==> pre[i].amount == 0
  }

  lemma {:induction false} SumIsZeroIff(records: seq<Balance>, user: string, mint: Mint)
    ensures Sum(records, user, mint) == 0
       <==> forall i :: 0 <= i < |records| && Of(records[i], user, mint) ==> records[i].amount == 0
    decreases |records|
  {
    if records != [] {
      var before := records[..|records| - 1];
      SumIsZeroIff(before, user, mint);
      assert forall i :: 0 <= i < |before| ==> before[i] == records[i];
    }
  }

  lemma {:induction false} LastIsSumIff(pre: seq<Balance>, user: string, mint: Mint)
    ensures PreAmount(pre, user, mint) <= Sum(pre, user, mint)
    ensures PreAmount(pre, user, mint) == Sum(pre, user, mint) <==> OverwrittenAreEmpty(pre, user, mint)
    decreases |pre|
  {
    if pre != [] {
      var before, last := pre[..|pre| - 1], pre[|pre| - 1];
      LastIsSumIff(before, user, mint);
      SumIsZeroIff(before, user, mint);
      assert forall i :: 0 <= i < |before| ==> before[i] == pre[i];
      if Of(last, user, mint) {
        assert PreAmount(pre, user, mint) == last.amount;
        assert OverwrittenAreEmpty(pre, user, mint) ==>
          forall i :: 0 <= i < |before| && Of(before[i], user, mint) ==> before[i].amount == 0;
      } else {
        assert PreAmount(pre, user, mint) == PreAmount(before, user, mint);
        assert OverwrittenAreEmpty(pre, user, mint) <==> OverwrittenAreEmpty(before, user, mint);
      }
    }
  }

  /**
    The first pass sets where the second one adds. So the delta is post minus pre exactly if no amount of
    the first pass is overwritten; otherwise it is too large.
   */
  lemma RawDeltaIsGainIff(pre: seq<Balance>, post: seq<Balance>, user: string, mint: Mint)
    ensures RawDelta(pre, post, user, mint) == Sum(post, user, mint) - Sum(pre, user, mint)
       <==> OverwrittenAreEmpty(pre, user, mint)
    ensures RawDelta(pre, post, user, mint) >= Sum(post, user, mint) - Sum(pre, user, mint)
  {
    LastIsSumIff(pre, user, mint);
  }

  /** A user who empties two accounts of one token, with 3 and 4 units, seems to have lost only 4. */
  lemma TwoAccountsEmptied(user: string, mint: Mint, decimals: nat)
    ensures var pre := [Balance(user, mint, 3, decimals), Balance(user, mint, 4, decimals)];
            RawDelta(pre, [], user, mint) == -4 && Sum([], user, mint) - Sum(pre, user, mint) == -7
  {
    var first, second := Balance(user, mint, 3, decimals), Balance(user, mint, 4, decimals);
    assert [first, second][..1] == [first] && [first][..0] == [];
    assert Total([first], AmountOf(user, mint)) == 3;
    assert Total([first, second], AmountOf(user, mint)) == 7;
  }

  //
  // The order of the records
  //

  lemma {:induction false} TotalOfConcat(a: seq<Balance>, b: seq<Balance>, weight: Balance -> nat)
    ensures Total(a + b, weight) == Total(a, weight) + Total(b, weight)
    decreases |b|
  {
    if b == [] {
      assert a + b == a;
    } else {
      assert (a + b)[..|a + b| - 1] == a + b[..|b| - 1];
      TotalOfConcat(a, b[..|b| - 1], weight);
    }
  }

  lemma {:induction false} TotalPermuted(a: seq<Balance>, b: seq<Balance>, weight: Balance -> nat)
    requires multiset(a) == multiset(b)
    ensures Total(a, weight) == Total(b, weight)
    decreases |a|
  {
    if a == [] {
      assert |multiset(b)| == 0;
    } else {
      var last, rest := a[|a| - 1], a[..|a| - 1];
      assert last in multiset(a) && last in multiset(b);
      var k :| 0 <= k < |b| && b[k] == last;
      var without := b[..k] + b[k + 1..];
      RemovedOne(b, k);
      RemovedOne(a, |a| - 1);
      assert a[..|a| - 1] + a[|a| - 1 + 1..] == rest;
      assert multiset(rest) == multiset(a) - multiset{last} == multiset(without);
      TotalPermuted(rest, without, weight);
      TotalWithout(b, k, weight);
    }
  }

  lemma RemovedOne(b: seq<Balance>, k: nat)
    requires k < |b|
    ensures multiset(b) == multiset(b[..k] + b[k + 1..]) + multiset{b[k]}
  {
    assert b == b[..k] + [b[k]] + b[k + 1..];
  }

  lemma TotalWithout(b: seq<Balance>, k: nat, weight: Balance -> nat)
    requires k < |b|
    ensures Total(b, weight) == Total(b[..k] + b[k + 1..], weight) + weight(b[k])
  {
    hide Total;
    var front, x, back := b[..k], b[k], b[k + 1..];
    assert b == front + [x] + back;
    TotalOfConcat(front, back, weight);
    TotalOfConcat(front, [x], weight);
    TotalOfConcat(front + [x], back, weight);
    TotalOfOne(x, weight);
  }

  lemma TotalOfOne(x: Balance, weight: Balance -> nat)
    ensures Total([x], weight) == weight(x)
  {
    assert [x][..0] == [];
  }

  lemma {:induction false} NoneCounted(records: seq<Balance>, user: string, mint: Mint)
    requires Count(records, user, mint) == 0
    ensures Sum(records, user, mint) == 0 && !Seen(records, user, mint)
    decreases |records|
  {
    if records != [] {
      NoneCounted(records[..|records| - 1], user, mint);
    }
  }

  lemma {:induction false} CountedOnce(records: seq<Balance>, user: string, mint: Mint)
    requires Count(records, user, mint) <= 1
    ensures PreAmount(records, user, mint) == Sum(records, user, mint)
    ensures Seen(records, user, mint) <==> Count(records, user, mint) == 1
    decreases |records|
  {
    if records != [] {
      var before := records[..|records| - 1];
      CountedOnce(before, user, mint);
      if Of(records[|records| - 1], user, mint) {
        NoneCounted(before, user, mint);
      }
    }
  }

  lemma {:induction false} SeenIffCounted(records: seq<Balance>, user: string, mint: Mint)
    ensures Seen(records, user, mint) <==> Count(records, user, mint) > 0
    decreases |records|
  {
    if records != [] {
      SeenIffCounted(records[..|records| - 1], user, mint);
    }
  }

  /** Every record of the token shows the same decimals. */
  predicate OneDecimals(records: seq<Balance>, user: string, mint: Mint, decimals: nat) {
    forall b :: b in records && Of(b, user, mint) ==> b.decimals == decimals
  }

  lemma {:induction false} LastDecimalsAre(
    records: seq<Balance>, user: string, mint: Mint, before: nat, decimals: nat
  )
    requires OneDecimals(records, user, mint, decimals)
    requires before == decimals || (before == 0 && Seen(records, user, mint))
    ensures LastDecimals(records, user, mint, before) == decimals
    decreases |records|
  {
    if records != [] {
      var last, rest := records[|records| - 1], records[..|records| - 1];
      assert last in records;
      if Of(last, user, mint) && decimals == 0 {
        assert before == 0;
        LastDecimalsAre(rest, user, mint, before, decimals);
      } else if !Of(last, user, mint) {
        LastDecimalsAre(rest, user, mint, before, decimals);
      }
    }
  }

  lemma {:induction false} LastHas(records: seq<Balance>, user: string, mint: Mint)
    requires Seen(records, user, mint)
    ensures Last(records, user, mint).value in records && Of(Last(records, user, mint).value, user, mint)
    decreases |records|
  {
    if !Of(records[|records| - 1], user, mint) {
      LastHas(records[..|records| - 1], user, mint);
    }
  }

  lemma EntryIs(pre: seq<Balance>, post: seq<Balance>, user: string, mint: Mint, decimals: nat)
    requires Count(pre, user, mint) <= 1 && OneDecimals(pre + post, user, mint, decimals)
    requires Seen(pre, user, mint) || Seen(post, user, mint)
    ensures EntryOf(pre, post, user, mint)
         == Entry(mint, Sum(post, user, mint) - Sum(pre, user, mint), decimals)
  {
    CountedOnce(pre, user, mint);
    if Seen(pre, user, mint) {
      LastHas(pre, user, mint);
    }
    LastDecimalsAre(post, user, mint, PreDecimals(pre, user, mint), decimals);
  }

  /**
    With at most one earlier record of a token, and the same decimals in all of its records, the entry of the
    token does not depend on the order of the records.
   */
  lemma OrderIsIrrelevant(
    pre: seq<Balance>, pre2: seq<Balance>, post: seq<Balance>, post2: seq<Balance>, user: string, mint: Mint,
    decimals: nat
  )
    requires multiset(pre) == multiset(pre2) && multiset(post) == multiset(post2)
    requires Count(pre, user, mint) <= 1 && OneDecimals(pre + post, user, mint, decimals)
    ensures FinalEntry(pre, post, user, mint) == FinalEntry(pre2, post2, user, mint)
    ensures FinalEntry(pre, post, user, mint).Some? ==>
      FinalEntry(pre, post, user, mint).value
        == Entry(mint, Sum(post, user, mint) - Sum(pre, user, mint), decimals)
  {
    TotalPermuted(pre, pre2, AmountOf(user, mint));
    TotalPermuted(post, post2, AmountOf(user, mint));
    TotalPermuted(pre, pre2, One(user, mint));
    TotalPermuted(post, post2, One(user, mint));
    SeenIffCounted(pre, user, mint);
    SeenIffCounted(pre2, user, mint);
    SeenIffCounted(post, user, mint);
    SeenIffCounted(post2, user, mint);
    forall b | b in pre2 + post2 && Of(b, user, mint)
      ensures b.decimals == decimals
    {
      assert b in multiset(pre2) || b in multiset(post2);
      assert b in pre + post;
    }
    if Seen(pre, user, mint) || Seen(post, user, mint) {
      EntryIs(pre, post, user, mint, decimals);
      EntryIs(pre2, post2, user, mint, decimals);
    }
  }
}
