/**
  What is left of a position, told from the sells and buys that made it.
 */
module PositionHistory {
  import opened Positions
  import opened PositionLedger

  //
  // Selling a position off
  //

  /** The cost bases of successive sells of one token, as far as they are accepted. */
  ghost function SoldBasis(positions: Portfolio, mint: Mint, amounts: seq<nat>, signature: string): real
    requires AllPriced(positions)
    decreases |amounts|
  {
    if amounts == [] then 0.0
    else
      SellKeepsPriced(positions, mint, amounts[0], signature);
      (if SellAccepted(positions, mint, amounts[0]) then SaleOf(positions[mint], amounts[0], 0.0).costBasis else 0.0)
      + SoldBasis(AfterSell(positions, mint, amounts[0], signature), mint, amounts[1..], signature)
  }

  /** A sell of more than is held is refused; any other is accepted, and closes the position if nothing is left. */
  lemma SellsWhatIsHeld(positions: Portfolio, mint: Mint, amount: nat, signature: string)
    requires AllPriced(positions) && mint in positions
    ensures var held, after := positions[mint].amount, AfterSell(positions, mint, amount, signature);
            && (SellAccepted(positions, mint, amount) <==> amount <= held)
            && (amount > held ==> after == positions)
            && (amount == held ==> after == positions - {mint})
            && (amount < held ==> mint in after && after[mint].amount == held - amount
                                  && after - {mint} == positions - {mint})
  {
    hide SellShare;
    if amount < positions[mint].amount {
      assert AfterSell(positions, mint, amount, signature) - {mint} == positions - {mint};
    }
  }

  lemma BasisOfSell(p: Position, amount: nat)
    requires Priced(p)
    ensures SaleOf(p, amount, 0.0).costBasis == p.entryPrice * amount as real
  {
    ScaledCost(p.entryPrice, p.amount as real, p.totalCost, amount as real);
  }

  lemma {:induction false} NothingToSellOff(positions: Portfolio, mint: Mint, amounts: seq<nat>, signature: string)
    requires AllPriced(positions) && mint !in positions
    ensures SellEach(positions, mint, amounts, signature) == positions
    ensures SoldBasis(positions, mint, amounts, signature) == 0.0
    decreases |amounts|
  {
    if amounts != [] {
      NothingToSellOff(positions, mint, amounts[1..], signature);
    }
  }

  /** However a sale is split, the cost bases are together the entry price of what was sold. */
  lemma {:induction false} BasisOfSells(positions: Portfolio, mint: Mint, amounts: seq<nat>, signature: string)
    requires AllPriced(positions) && mint in positions && Sum(amounts) <= positions[mint].amount
    ensures SoldBasis(positions, mint, amounts, signature) == positions[mint].entryPrice * Sum(amounts) as real
    ensures Sum(amounts) == positions[mint].amount ==>
              SellEach(positions, mint, amounts, signature) == positions - {mint}
    decreases |amounts|
  {
    hide Priced, SellShare, SaleOf;
    var p := positions[mint];
    assert Priced(p);
    if amounts == [] {
      PricedHolds(p);
    } else {
      SellKeepsPriced(positions, mint, amounts[0], signature);
      var next, rest := AfterSell(positions, mint, amounts[0], signature), Sum(amounts[1..]);
      SellsWhatIsHeld(positions, mint, amounts[0], signature);
      BasisOfSell(p, amounts[0]);
      if amounts[0] == p.amount {
        NothingToSellOff(next, mint, amounts[1..], signature);
      } else {
        BasisOfSells(next, mint, amounts[1..], signature);
        assert next[mint].entryPrice == p.entryPrice;
      }
      assert p.entryPrice * (amounts[0] + rest) as real
          == p.entryPrice * amounts[0] as real + p.entryPrice * rest as real;
    }
  }

  lemma PricedHolds(p: Position)
    requires Priced(p)
    ensures p.amount > 0 && p.entryPrice * p.amount as real == p.totalCost
  {
  }

  /** However all of a position is sold, nothing of it is left, and its whole cost has been taken out. */
  lemma SellingAllCloses(positions: Portfolio, mint: Mint, amounts: seq<nat>, signature: string)
    requires AllPriced(positions) && mint in positions && Sum(amounts) == positions[mint].amount
    ensures SellEach(positions, mint, amounts, signature) == positions - {mint}
    ensures SoldBasis(positions, mint, amounts, signature) == positions[mint].totalCost
  {
    hide Priced, SellEach, SoldBasis;
    assert Priced(positions[mint]);
    PricedHolds(positions[mint]);
    BasisOfSells(positions, mint, amounts, signature);
  }

  //
  // The history of a position
  //

  /** Bought minus sold. */
  function Held(history: seq<Record>): int
    decreases |history|
  {
    if history == [] then 0
    else
      var r := history[|history| - 1];
      Held(history[..|history| - 1]) + (if r.BuyRecord? then r.amount else -r.amount)
  }

  function Signatures(history: seq<Record>): seq<string>
    decreases |history|
  {
    if history == [] then []
    else Signatures(history[..|history| - 1]) + [history[|history| - 1].signature]
  }

  function Buys(history: seq<Record>): nat
    decreases |history|
  {
    if history == [] then 0
    else Buys(history[..|history| - 1]) + (if history[|history| - 1].BuyRecord? then 1 else 0)
  }

  function Sells(history: seq<Record>): nat
    decreases |history|
  {
    if history == [] then 0
    else Sells(history[..|history| - 1]) + (if history[|history| - 1].SellRecord? then 1 else 0)
  }

  /** The records that made the position held now: the accepted ones since it was opened. */
  function History(records: seq<Record>, mint: Mint): seq<Record>
    decreases |records|
  {
    if records == [] then []
    else
      var history, r := History(records[..|records| - 1], mint), records[|records| - 1];
      if r.mint != mint || (r.SellRecord? && r.amount > Held(history)) then history
      else if r.SellRecord? && r.amount == Held(history) then []
      else history + [r]
  }

  lemma HistoryAppend(history: seq<Record>, r: Record)
    ensures Held(history + [r]) == Held(history) + (if r.BuyRecord? then r.amount else -r.amount)
    ensures Signatures(history + [r]) == Signatures(history) + [r.signature]
    ensures Buys(history + [r]) == Buys(history) + (if r.BuyRecord? then 1 else 0)
    ensures Sells(history + [r]) == Sells(history) + (if r.SellRecord? then 1 else 0)
  {
    assert (history + [r])[..|history|] == history;
  }

  predicate Tells(history: seq<Record>, p: Position) {
    && p.amount == Held(history) && p.trades == Signatures(history)
    && p.buyCount == Buys(history) && p.sellCount == Sells(history)
  }

  ghost predicate Told(positions: Portfolio, mint: Mint, history: seq<Record>) {
    if mint in positions then history != [] && Tells(history, positions[mint]) else history == []
  }

  lemma BuyTold(l: Ledger, r: Record, history: seq<Record>)
    requires AllPriced(l.positions) && Positive(r) && r.BuyRecord? && Told(l.positions, r.mint, history)
    ensures Told(Apply(l, r).positions, r.mint, history + [r])
  {
    hide Held, Signatures, Buys, Sells, AllPriced;
    HistoryAppend(history, r);
    BuyKeepsPriced(l.positions, r.mint, r.amount, r.usdc, r.signature);
    if r.mint !in l.positions {
      EmptyHistory();
    }
  }

  lemma EmptyHistory()
    ensures Held([]) == 0 && Signatures([]) == [] && Buys([]) == 0 && Sells([]) == 0
  {
  }

  lemma SellTold(l: Ledger, r: Record, history: seq<Record>)
    requires AllPriced(l.positions) && Positive(r) && r.SellRecord? && Told(l.positions, r.mint, history)
    ensures Told(Apply(l, r).positions, r.mint,
                 if r.amount > Held(history) then history
                 else if r.amount == Held(history) then [] else history + [r])
  {
    hide Held, Signatures, Buys, Sells, Priced, SellShare, SaleOf;
    HistoryAppend(history, r);
    EmptyHistory();
    SellKeepsPriced(l.positions, r.mint, r.amount, r.signature);
  }

  lemma OtherTold(l: Ledger, r: Record, mint: Mint, history: seq<Record>)
    requires AllPriced(l.positions) && Positive(r) && r.mint != mint && Told(l.positions, mint, history)
    ensures Told(Apply(l, r).positions, mint, history)
  {
    hide Tells, Priced, SellShare, SaleOf;
    match r
    case BuyRecord(_, amount, usdc, signature) => BuyKeepsPriced(l.positions, r.mint, amount, usdc, signature);
    case SellRecord(_, amount, _, signature) => SellKeepsPriced(l.positions, r.mint, amount, signature);
  }

  /**
    Over every run of records: a token is held exactly if there are records since it was last sold off, and
    amount, trades and both counts of the position are those of these records.
   */
  lemma {:induction false} PositionIsItsHistory(records: seq<Record>, mint: Mint)
    requires AllPositive(records)
    ensures Told(RunRecords(records).positions, mint, History(records, mint))
    decreases |records|
  {
    hide Apply, Told, Held;
    if records == [] {
      NothingTold(mint);
    } else {
      var before, r := records[..|records| - 1], records[|records| - 1];
      PositionIsItsHistory(before, mint);
      var l, history := RunRecords(before), History(before, mint);
      if r.mint != mint {
        OtherTold(l, r, mint, history);
      } else if r.BuyRecord? {
        BuyTold(l, r, history);
      } else {
        SellTold(l, r, history);
      }
    }
  }

  lemma NothingTold(mint: Mint)
    ensures Told(map[], mint, [])
  {
  }
}
