/**
  The unit of prices. The engine records an entry price in USDC for each smallest unit of the token
  (src/services/copy-trade-engine.ts); the price service that the exit manager asks quotes whole tokens
  (src/services/exit-manager.ts).
 */
module PriceUnits {
  import opened Decimals
  import opened Positions
  import opened PositionLedger

  /** The quote for a whole token, when one smallest unit is worth this much. */
  function Quote(unitPrice: real, decimals: nat): real {
    unitPrice * Pow10(decimals) as real
  }

  lemma EqualQuotients(a: real, b: real, divisor: real, q: real)
    requires divisor != 0.0 && a / divisor == q && b / divisor == q
    ensures a == b
  {
    assert a == q * divisor by {
      QuotientTimesDivisor(a, divisor);
    }
    assert b == q * divisor by {
      QuotientTimesDivisor(b, divisor);
    }
  }

  lemma SameQuotientIff(x: real, factor: real, divisor: real)
    requires x > 0.0 && divisor > 0.0
    ensures x * factor / divisor == x / divisor <==> factor == 1.0
  {
    if x * factor / divisor == x / divisor {
      EqualQuotients(x * factor, x, divisor, x / divisor);
      CancelFactor(factor, 1.0, x);
    }
  }

  /** The profit that the exit manager computes from a quote is the true one only for a token without decimals. */
  lemma QuotedProfitIff(unitPrice: real, entryPrice: real, decimals: nat)
    requires unitPrice > 0.0 && entryPrice > 0.0
    ensures ProfitPercent(Quote(unitPrice, decimals), entryPrice) == ProfitPercent(unitPrice, entryPrice)
       <==> decimals == 0
  {
    var power := Pow10(decimals) as real;
    SameQuotientIff(unitPrice, power, entryPrice);
    PowersGrow(decimals);
  }

  /**
    For every position of every run of records: what the exit manager computes from a quote is what the position
    manager computes from the unit price if and only if the token has no decimals.
   */
  lemma ObservedProfitIff(records: seq<Record>, mint: Mint, unitPrice: real, decimals: nat)
    requires AllPositive(records) && mint in RunRecords(records).positions && unitPrice > 0.0
    ensures var p := RunRecords(records).positions[mint];
            && p.entryPrice > 0.0 && p.totalCost > 0.0
            && (ProfitPercent(Quote(unitPrice, decimals), p.entryPrice)
                == UnrealizedPnlPercent(unitPrice, p.amount as real, p.totalCost)
                <==> decimals == 0)
  {
    hide RunRecords, ProfitPercent, UnrealizedPnlPercent, Quote;
    ProfitFormulasAgree(records, mint, unitPrice);
    QuotedProfitIff(unitPrice, RunRecords(records).positions[mint].entryPrice, decimals);
  }

  /** At the entry price itself, a token with 6 decimals seems to have gained 99,999,900 percent. */
  lemma BreakEvenSeems(entryPrice: real)
    requires entryPrice > 0.0
    ensures ProfitPercent(entryPrice, entryPrice) == 0.0
    ensures ProfitPercent(Quote(entryPrice, 6), entryPrice) == 99_999_900.0
  {
    assert Pow10(3) == 1_000;
    assert Pow10(6) == 1_000 * Pow10(3);
    QuotientTimesDivisor(entryPrice * 1_000_000.0, entryPrice);
    CancelFactor(entryPrice * 1_000_000.0 / entryPrice, 1_000_000.0, entryPrice);
    QuotientTimesDivisor(entryPrice, entryPrice);
    CancelFactor(entryPrice / entryPrice, 1.0, entryPrice);
  }
}
