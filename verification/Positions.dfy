/**
  Open positions and risk limits (src/services/position-manager.ts).

  Token amounts are bigints and stay integers; USDC amounts and prices are doubles and become reals.
 */
module Positions {
  import opened Wrappers

  type Mint = string

  datatype Position = Position(
    amount: int,
    entryPrice: real,
    totalCost: real,
    trades: seq<string>,
    buyCount: nat,
    sellCount: nat
  )

  type Portfolio = map<Mint, Position>

  datatype Direction = Buy | Sell

  datatype RiskLimits = RiskLimits(
    maxPositionSize: real,
    maxTotalExposure: real,
    maxOpenPositions: int,
    minUsdcReserve: real
  )

  datatype Verdict = Allowed | BelowReserve | PositionTooLarge | ExposureTooLarge | TooManyPositions | NothingToSell

  /** What an accepted sell realizes. */
  datatype Sale = Sale(costBasis: real, realizedPnl: real)

  function CostOf(positions: Portfolio, mint: Mint): real {
    if mint in positions then positions[mint].totalCost else 0.0
  }

  /** The sum of the costs of all positions, in whatever order they are added. */
  ghost function Exposure(positions: Portfolio): real
    decreases |positions|
  {
    if positions == map[] then 0.0
    else
      var mint :| mint in positions;
      positions[mint].totalCost + Exposure(positions - {mint})
  }

  lemma {:induction false} ExposureRemove(positions: Portfolio, mint: Mint)
    requires mint in positions
    ensures Exposure(positions) == positions[mint].totalCost + Exposure(positions - {mint})
    decreases |positions|
  {
    var chosen :| chosen in positions
      && Exposure(positions) == positions[chosen].totalCost + Exposure(positions - {chosen});
    if chosen != mint {
      ExposureRemove(positions - {chosen}, mint);
      ExposureRemove(positions - {mint}, chosen);
      assert positions - {chosen} - {mint} == positions - {mint} - {chosen};
    }
  }

  lemma ExposureUpdate(positions: Portfolio, mint: Mint, position: Position)
    ensures Exposure(positions[mint := position]) == Exposure(positions) - CostOf(positions, mint) + position.totalCost
  {
    var updated := positions[mint := position];
    ExposureRemove(updated, mint);
    if mint in positions {
      ExposureRemove(positions, mint);
      assert updated - {mint} == positions - {mint};
    } else {
      assert updated - {mint} == positions;
    }
  }

  lemma ExposureDelete(positions: Portfolio, mint: Mint)
    ensures Exposure(positions - {mint}) == Exposure(positions) - CostOf(positions, mint)
  {
    if mint in positions {
      ExposureRemove(positions, mint);
    } else {
      assert positions - {mint} == positions;
    }
  }

  //
  // The three operations
  //

  /** The checks in the order of the source; the first that fails names the reason. */
  ghost function RiskVerdict(
    positions: Portfolio, limits: RiskLimits, mint: Mint, direction: Direction, amountUsdc: real, balance: real
  ): (verdict: Verdict)
    ensures direction.Buy? ==>
      (verdict.Allowed? <==>
        && limits.minUsdcReserve <= balance - amountUsdc
        && CostOf(positions, mint) + amountUsdc <= limits.maxPositionSize
        && Exposure(positions) + amountUsdc <= limits.maxTotalExposure
        && (mint in positions || |positions| < limits.maxOpenPositions))
    ensures direction.Sell? ==> (verdict.Allowed? <==> mint in positions && positions[mint].amount != 0)
  {
    match direction
    case Buy =>
      if balance - amountUsdc < limits.minUsdcReserve then BelowReserve
      else if CostOf(positions, mint) + amountUsdc > limits.maxPositionSize then PositionTooLarge
      else if Exposure(positions) + amountUsdc > limits.maxTotalExposure then ExposureTooLarge
      else if mint !in positions && |positions| >= limits.maxOpenPositions then TooManyPositions
      else Allowed
    case Sell =>
      if mint !in positions || positions[mint].amount == 0 then NothingToSell else Allowed
  }

  /** The limit that this verdict names is broken by the buy. */
  ghost predicate Broken(
    positions: Portfolio, limits: RiskLimits, mint: Mint, amountUsdc: real, balance: real, verdict: Verdict
  ) {
    match verdict
    case BelowReserve => amountUsdc + limits.minUsdcReserve > balance
    case PositionTooLarge => amountUsdc > limits.maxPositionSize - CostOf(positions, mint)
    case ExposureTooLarge => amountUsdc > limits.maxTotalExposure - Exposure(positions)
    case TooManyPositions => mint !in positions && limits.maxOpenPositions < |positions| + 1
    case _ => false
  }

  /** A refused buy is told the first limit it breaks: reserve, position, exposure, number of positions. */
  lemma FirstBrokenIsNamed(
    positions: Portfolio, limits: RiskLimits, mint: Mint, amountUsdc: real, balance: real, k: nat
  )
    requires k < 4
    ensures var order := [BelowReserve, PositionTooLarge, ExposureTooLarge, TooManyPositions];
            RiskVerdict(positions, limits, mint, Buy, amountUsdc, balance) == order[k]
            <==> Broken(positions, limits, mint, amountUsdc, balance, order[k])
                 && forall i :: 0 <= i < k ==> !Broken(positions, limits, mint, amountUsdc, balance, order[i])
  {
    hide Exposure;
    var order := [BelowReserve, PositionTooLarge, ExposureTooLarge, TooManyPositions];
    assert order[0] == BelowReserve && order[1] == PositionTooLarge && order[2] == ExposureTooLarge;
  }

  function AfterBuy(
    positions: Portfolio, mint: Mint, amount: int, usdc: real, price: real, signature: string
  ): Portfolio
    requires mint in positions ==> positions[mint].amount + amount != 0
  {
    if mint in positions then
      var p := positions[mint];
      var newAmount, newCost := p.amount + amount, p.totalCost + usdc;
      positions[mint := Position(newAmount, newCost / newAmount as real, newCost, p.trades + [signature],
                                 p.buyCount + 1, p.sellCount)]
    else
      positions[mint := Position(amount, price, usdc, [signature], 1, 0)]
  }

  /** The share of a position that a sell takes. */
  function SellShare(p: Position, amount: int): real
    requires p.amount != 0
  {
    amount as real / p.amount as real
  }

  function SaleOf(p: Position, amount: int, usdc: real): Sale
    requires p.amount != 0
  {
    var basis := p.totalCost * SellShare(p, amount);
    Sale(basis, usdc - basis)
  }

  function PositionAfterSell(p: Position, amount: int, signature: string): Position
    requires p.amount != 0
  {
    Position(p.amount - amount, p.entryPrice, p.totalCost * (1.0 - SellShare(p, amount)), p.trades + [signature],
             p.buyCount, p.sellCount + 1)
  }

  /** A sell of an unknown token, or of more than is held, is refused and changes nothing. */
  predicate SellAccepted(positions: Portfolio, mint: Mint, amount: int) {
    mint in positions && amount <= positions[mint].amount
  }

  /** A position is closed when nothing of it is left. */
  function AfterSell(positions: Portfolio, mint: Mint, amount: int, signature: string): Portfolio
    requires mint in positions ==> positions[mint].amount != 0
  {
    if !SellAccepted(positions, mint, amount) then positions
    else if amount == positions[mint].amount then positions - {mint}
    else positions[mint := PositionAfterSell(positions[mint], amount, signature)]
  }

  class PositionManager {
    var positions: Portfolio
    const limits: RiskLimits

    constructor (limits: RiskLimits)
      ensures positions == map[] && this.limits == limits
    {
      positions := map[];
      this.limits := limits;
    }

    method GetTotalExposure() returns (total: real)
      ensures total == Exposure(positions)
    {
      total := 0.0;
      var rest := positions;
      while rest != map[]
        invariant total + Exposure(rest) == Exposure(positions)
        decreases |rest|
      {
        var mint :| mint in rest;
        ExposureRemove(rest, mint);
        total := total + rest[mint].totalCost;
        rest := rest - {mint};
      }
    }

    method CanTrade(mint: Mint, direction: Direction, amountUsdc: real, balance: real) returns (verdict: Verdict)
      ensures verdict == RiskVerdict(positions, limits, mint, direction, amountUsdc, balance)
    {
      var totalExposure := GetTotalExposure();
      if direction.Buy? {
        if balance - amountUsdc < limits.minUsdcReserve {
          return BelowReserve;
        }
        var currentPositionSize := if mint in positions then positions[mint].totalCost else 0.0;
        if currentPositionSize + amountUsdc > limits.maxPositionSize {
          return PositionTooLarge;
        }
        if totalExposure + amountUsdc > limits.maxTotalExposure {
          return ExposureTooLarge;
        }
        if mint !in positions && |positions| >= limits.maxOpenPositions {
          return TooManyPositions;
        }
      } else {
        if mint !in positions || positions[mint].amount == 0 {
          return NothingToSell;
        }
      }
      return Allowed;
    }

    method RecordBuy(mint: Mint, amount: int, usdc: real, price: real, signature: string)
      requires mint in positions ==> positions[mint].amount + amount != 0
      modifies this
      ensures positions == AfterBuy(old(positions), mint, amount, usdc, price, signature)
    {
      if mint in positions {
        var existing := positions[mint];
        var newAmount := existing.amount + amount;
        var newCost := existing.totalCost + usdc;
        existing := existing.(amount := newAmount);
        existing := existing.(totalCost := newCost);
        existing := existing.(entryPrice := newCost / newAmount as real);
        existing := existing.(trades := existing.trades + [signature]);
        existing := existing.(buyCount := existing.buyCount + 1);
        positions := positions[mint := existing];
      } else {
        positions := positions[mint := Position(amount, price, usdc, [signature], 1, 0)];
      }
    }

    method RecordSell(mint: Mint, amount: int, usdc: real, signature: string) returns (sale: Option<Sale>)
      requires mint in positions ==> positions[mint].amount != 0
      modifies this
      ensures positions == AfterSell(old(positions), mint, amount, signature)
      ensures sale.Some? <==> mint in old(positions) && amount <= old(positions)[mint].amount
      ensures mint in positions <==> mint in old(positions) && amount != old(positions)[mint].amount
      ensures sale == if SellAccepted(old(positions), mint, amount)
                      then Some(SaleOf(old(positions)[mint], amount, usdc)) else None
    {
      if mint !in positions {
        return None;
      }
      var position := positions[mint];
      var newAmount := position.amount - amount;
      if newAmount < 0 {
        return None;
      }
      var sellPercent := amount as real / position.amount as real;
      var costBasis := position.totalCost * sellPercent;
      var realizedPnl := usdc - costBasis;

      position := position.(amount := newAmount);
      position := position.(totalCost := position.totalCost * (1.0 - sellPercent));
      position := position.(trades := position.trades + [signature]);
      position := position.(sellCount := position.sellCount + 1);
      if newAmount == 0 {
        positions := positions - {mint};
      } else {
        positions := positions[mint := position];
      }
      assert sellPercent == SellShare(old(positions)[mint], amount);
      assert Sale(costBasis, realizedPnl) == SaleOf(old(positions)[mint], amount, usdc);
      assert position == PositionAfterSell(old(positions)[mint], amount, signature);
      return Some(Sale(costBasis, realizedPnl));
    }
  }
}
