/**
  Laws of the position accounting over whole runs of buys and sells.
 */
module PositionLedger {
  import opened Positions

  /** A buy is recorded at the price usdc / amount, as the copy engine records it. */
  datatype Record =
    | BuyRecord(mint: Mint, amount: int, usdc: real, signature: string)
    | SellRecord(mint: Mint, amount: int, usdc: real, signature: string)

  /** Bought amounts are positive; a sell may name any amount that is not negative. */
  predicate Positive(r: Record) {
    match r
    case BuyRecord(_, amount, usdc, _) => amount > 0 && usdc > 0.0
    case SellRecord(_, amount, _, _) => amount >= 0
  }

  //
  // Average price
  //

  /** A position holds tokens, cost something, and is priced at its average cost. */
  predicate Priced(p: Position) {
    p.amount > 0 && p.totalCost > 0.0 && p.entryPrice * p.amount as real == p.totalCost
  }

  ghost predicate AllPriced(positions: Portfolio) {
    forall mint :: mint in positions ==> Priced(positions[mint])
  }

  lemma QuotientTimesDivisor(x: real, y: real)
    requires y != 0.0
    ensures x / y * y == x
  {
  }

  lemma PositiveFactor(x: real, y: real)
    requires y > 0.0 && x * y > 0.0
    ensures x > 0.0
  {
  }

  /** Selling the share sold / amount scales amount and cost alike. */
  lemma ScaledCost(price: real, amount: real, cost: real, sold: real)
    requires amount > 0.0 && price * amount == cost
    ensures cost * (sold / amount) == price * sold
    ensures cost * (1.0 - sold / amount) == price * (amount - sold)
  {
    var share := sold / amount;
    QuotientTimesDivisor(sold, amount);
    assert cost * share == price * (share * amount);
    assert cost * (1.0 - share) == cost - cost * share;
  }

  lemma BuyKeepsPriced(positions: Portfolio, mint: Mint, amount: int, usdc: real, signature: string)
    requires AllPriced(positions) && amount > 0 && usdc > 0.0
    ensures mint in positions ==> positions[mint].amount > 0
    ensures AllPriced(AfterBuy(positions, mint, amount, usdc, usdc / amount as real, signature))
  {
    QuotientTimesDivisor(usdc, amount as real);
    if mint in positions {
      var p := positions[mint];
      assert Priced(p);
      QuotientTimesDivisor(p.totalCost + usdc, (p.amount + amount) as real);
    }
  }

  lemma PartialSellKeepsPriced(p: Position, amount: int, signature: string)
    requires Priced(p) && 0 <= amount < p.amount
    ensures Priced(PositionAfterSell(p, amount, signature))
  {
    var rest := (p.amount - amount) as real;
    ScaledCost(p.entryPrice, p.amount as real, p.totalCost, amount as real);
    PositiveFactor(p.entryPrice, p.amount as real);
    PositiveProduct(p.entryPrice, rest);
    assert rest == p.amount as real - amount as real;
  }

  lemma PositiveProduct(x: real, y: real)
    requires x > 0.0 && y > 0.0
    ensures x * y > 0.0
  {
  }

  lemma SellKeepsPriced(positions: Portfolio, mint: Mint, amount: int, signature: string)
    requires AllPriced(positions) && amount >= 0
    ensures mint in positions ==> positions[mint].amount > 0
    ensures AllPriced(AfterSell(positions, mint, amount, signature))
  {
    assert mint in positions ==> Priced(positions[mint]);
    if SellAccepted(positions, mint, amount) && amount < positions[mint].amount {
      PartialSellKeepsPriced(positions[mint], amount, signature);
    }
  }

  //
  // Runs
  //

  /** The portfolio, and the totals over the accepted records. */
  datatype Ledger = Ledger(positions: Portfolio, spent: real, received: real, soldBasis: real, realizedPnl: real)

  ghost function Apply(l: Ledger, r: Record): (next: Ledger)
    requires AllPriced(l.positions) && Positive(r)
    ensures AllPriced(next.positions)
  {
    match r
    case BuyRecord(mint, amount, usdc, signature) =>
      BuyKeepsPriced(l.positions, mint, amount, usdc, signature);
      l.(positions := AfterBuy(l.positions, mint, amount, usdc, usdc / amount as real, signature),
         spent := l.spent + usdc)
    case SellRecord(mint, amount, usdc, signature) =>
      SellKeepsPriced(l.positions, mint, amount, signature);
      if !SellAccepted(l.positions, mint, amount) then l
      else
        var sale := SaleOf(l.positions[mint], amount, usdc);
        Ledger(AfterSell(l.positions, mint, amount, signature), l.spent, l.received + usdc,
               l.soldBasis + sale.costBasis, l.realizedPnl + sale.realizedPnl)
  }

  predicate AllPositive(records: seq<Record>) {
    forall i :: 0 <= i < |records| ==> Positive(records[i])
  }

  ghost function RunRecords(records: seq<Record>): (l: Ledger)
    requires AllPositive(records)
    ensures AllPriced(l.positions)
    decreases |records|
  {
    if records == [] then Ledger(map[], 0.0, 0.0, 0.0, 0.0)
    else Apply(RunRecords(records[..|records| - 1]), records[|records| - 1])
  }

  /** The exit manager's profit of a position. */
  function ProfitPercent(currentPrice: real, entryPrice: real): real
    requires entryPrice != 0.0
  {
    (currentPrice / entryPrice - 1.0) * 100.0
  }

  /** The position manager's unrealized profit and loss of the same position. */
  function UnrealizedPnlPercent(currentPrice: real, amount: real, totalCost: real): real
    requires totalCost != 0.0
  {
    (amount * currentPrice - totalCost) / totalCost * 100.0
  }

  /** In every reachable portfolio the two percentages agree at every price. */
  lemma ProfitFormulasAgree(records: seq<Record>, mint: Mint, currentPrice: real)
    requires AllPositive(records) && mint in RunRecords(records).positions
    ensures var p := RunRecords(records).positions[mint];
            && p.entryPrice > 0.0 && p.totalCost > 0.0
            && ProfitPercent(currentPrice, p.entryPrice)
            == UnrealizedPnlPercent(currentPrice, p.amount as real, p.totalCost)
  {
    hide RunRecords, ProfitPercent, UnrealizedPnlPercent;
    var p := RunRecords(records).positions[mint];
    assert Priced(p);
    PositiveFactor(p.entryPrice, p.amount as real);
    GainOverCost(currentPrice, p.entryPrice, p.amount as real, p.totalCost);
  }

  lemma GainOverCost(current: real, entry: real, amount: real, cost: real)
    requires entry > 0.0 && cost > 0.0 && entry * amount == cost
    ensures ProfitPercent(current, entry) == UnrealizedPnlPercent(current, amount, cost)
  {
    var ratio, gain := current / entry, (amount * current - cost) / cost;
    QuotientTimesDivisor(current, entry);
    QuotientTimesDivisor(amount * current - cost, cost);
    assert amount * current == ratio * (entry * amount);
    assert (ratio - 1.0) * cost == ratio * cost - cost;
    CancelFactor(gain, ratio - 1.0, cost);
  }

  lemma CancelFactor(x: real, y: real, factor: real)
    requires factor != 0.0 && x * factor == y * factor
    ensures x == y
  {
    assert (x - y) * factor == 0.0;
  }

  //
  // Conservation
  //

  lemma BuyAddsExposure(positions: Portfolio, mint: Mint, amount: int, usdc: real, price: real, signature: string)
    requires mint in positions ==> positions[mint].amount + amount != 0
    ensures Exposure(AfterBuy(positions, mint, amount, usdc, price, signature)) == Exposure(positions) + usdc
  {
    ExposureUpdate(positions, mint, AfterBuy(positions, mint, amount, usdc, price, signature)[mint]);
  }

  /** An accepted sell moves exactly its cost basis out of the exposure. */
  lemma SellMovesBasis(positions: Portfolio, mint: Mint, amount: int, usdc: real, signature: string)
    requires SellAccepted(positions, mint, amount) && positions[mint].amount != 0
    ensures Exposure(positions)
         == Exposure(AfterSell(positions, mint, amount, signature)) + SaleOf(positions[mint], amount, usdc).costBasis
  {
    var p := positions[mint];
    var share := SellShare(p, amount);
    assert p.totalCost * share + p.totalCost * (1.0 - share) == p.totalCost;
    if p.amount == amount {
      assert share == 1.0;
      ExposureDelete(positions, mint);
    } else {
      ExposureUpdate(positions, mint, PositionAfterSell(p, amount, signature));
    }
  }

  ghost predicate Balanced(l: Ledger) {
    l.spent == Exposure(l.positions) + l.soldBasis && l.realizedPnl == l.received - l.soldBasis
  }

  lemma ApplyKeepsBalanced(l: Ledger, r: Record)
    requires AllPriced(l.positions) && Positive(r) && Balanced(l)
    ensures Balanced(Apply(l, r))
  {
    hide SaleOf, AfterBuy, AfterSell, Exposure;
    match r
    case BuyRecord(mint, amount, usdc, signature) =>
      BuyKeepsPriced(l.positions, mint, amount, usdc, signature);
      BuyAddsExposure(l.positions, mint, amount, usdc, usdc / amount as real, signature);
    case SellRecord(mint, amount, usdc, signature) =>
      SellKeepsPriced(l.positions, mint, amount, signature);
      if SellAccepted(l.positions, mint, amount) {
        SellMovesBasis(l.positions, mint, amount, usdc, signature);
        SaleSplitsProceeds(l.positions[mint], amount, usdc);
      }
  }

  lemma SaleSplitsProceeds(p: Position, amount: int, usdc: real)
    requires p.amount != 0
    ensures SaleOf(p, amount, usdc).costBasis + SaleOf(p, amount, usdc).realizedPnl == usdc
  {
  }

  /** Money in is money still at cost plus money taken out at cost; profit is what was received beyond it. */
  lemma {:induction false} Conservation(records: seq<Record>)
    requires AllPositive(records)
    ensures var l := RunRecords(records);
            && l.spent == Exposure(l.positions) + l.soldBasis
            && l.realizedPnl == l.received - l.spent + Exposure(l.positions)
    decreases |records|
  {
    hide Apply;
    if records == [] {
    } else {
      Conservation(records[..|records| - 1]);
      ApplyKeepsBalanced(RunRecords(records[..|records| - 1]), records[|records| - 1]);
    }
  }

  //
  // Splitting a sale
  //

  function Sum(amounts: seq<nat>): nat {
    if amounts == [] then 0 else amounts[0] + Sum(amounts[1..])
  }

  /** Successive sells of one token. */
  ghost function SellEach(positions: Portfolio, mint: Mint, amounts: seq<nat>, signature: string): (after: Portfolio)
    requires AllPriced(positions)
    ensures AllPriced(after)
    decreases |amounts|
  {
    if amounts == [] then positions
    else
      SellKeepsPriced(positions, mint, amounts[0], signature);
      SellEach(AfterSell(positions, mint, amounts[0], signature), mint, amounts[1..], signature)
  }

  lemma {:induction false} SellEachAdds(positions: Portfolio, mint: Mint, amounts: seq<nat>, signature: string)
    requires AllPriced(positions) && mint in positions && Sum(amounts) < positions[mint].amount
    ensures var after := SellEach(positions, mint, amounts, signature);
            && mint in after && after - {mint} == positions - {mint}
            && after[mint].amount == positions[mint].amount - Sum(amounts)
            && after[mint].entryPrice == positions[mint].entryPrice
    decreases |amounts|
  {
    hide Priced, SellShare;
    if amounts != [] {
      var next := AfterSell(positions, mint, amounts[0], signature);
      SellKeepsPriced(positions, mint, amounts[0], signature);
      assert next - {mint} == positions - {mint};
      SellEachAdds(next, mint, amounts[1..], signature);
    }
  }

  /** However a partial sale is split, the cost left is the share of the initial cost that was not sold. */
  lemma SplitIndependent(positions: Portfolio, mint: Mint, amounts: seq<nat>, signature: string)
    requires AllPriced(positions) && mint in positions && Sum(amounts) < positions[mint].amount
    ensures var p, after := positions[mint], SellEach(positions, mint, amounts, signature);
            && mint in after && after - {mint} == positions - {mint}
            && after[mint].amount == p.amount - Sum(amounts)
            && after[mint].entryPrice == p.entryPrice
            && after[mint].totalCost == p.totalCost * (after[mint].amount as real / p.amount as real)
  {
    hide SellEach;
    SellEachAdds(positions, mint, amounts, signature);
    var p, last := positions[mint], SellEach(positions, mint, amounts, signature)[mint];
    assert Priced(p) && Priced(last);
    ScaledCost(p.entryPrice, p.amount as real, p.totalCost, last.amount as real);
  }
}
