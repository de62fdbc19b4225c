/**
  The cache of pre-built transactions (src/services/jupiter-executor.ts) as a machine of atomic steps.

  Buys, background builds and refreshes overlap freely: a buy looks a transaction up, awaits its
  sending, and only then deletes the token's cache entry. Times and results are inputs.
 */
module TxCache {
  import Positions

  type Mint = Positions.Mint

  const PREBUILT_TX_TTL := 45_000
  const PREBUILT_TX_REFRESH_INTERVAL := 30_000
  const REFRESH_THRESHOLD := 15_000

  /** A signed transaction. Its serial number stands for the identity of the object. */
  datatype PreBuilt = PreBuilt(serial: nat, mint: Mint, usdcAmount: real, createdAt: int, expiresAt: int)

  datatype Order = Order(mint: Mint, usdcAmount: real)

  /** A buy that awaits the sending of a cached transaction. */
  datatype Send = Send(order: Order, tx: PreBuilt)

  /** A buy took this transaction from the cache at this time. */
  datatype Pick = Pick(order: Order, tx: PreBuilt, at: int)

  /** sends: buys under way; builds: transactions being built; picks: the history of the cache's use. */
  datatype State = State(
    txCache: map<Mint, PreBuilt>,
    sends: map<nat, Send>,
    builds: map<nat, Order>,
    nextId: nat,
    nextSerial: nat,
    picks: seq<Pick>,
    sentPreBuilt: nat,
    builtOnDemand: nat
  )

  const INITIAL: State := State(map[], map[], map[], 0, 0, [], 0, 0)

  datatype Action =
    | Buy(order: Order, now: int)
    | SendSettled(id: nat, succeeded: bool)
    | PreBuild(order: Order)
    | BuildSettled(id: nat, now: int, succeeded: bool)
    | Refresh(tokens: seq<Mint>, usdcAmount: real, now: int)

  //
  // The steps
  //

  predicate Usable(txCache: map<Mint, PreBuilt>, mint: Mint, now: int) {
    mint in txCache && now < txCache[mint].expiresAt
  }

  /** A usable transaction is taken whatever amount it was built for. */
  function BuyStep(s: State, order: Order, now: int): State {
    if Usable(s.txCache, order.mint, now) then
      var tx := s.txCache[order.mint];
      s.(sends := s.sends[s.nextId := Send(order, tx)],
         picks := s.picks + [Pick(order, tx, now)],
         nextId := s.nextId + 1)
    else s.(builtOnDemand := s.builtOnDemand + 1)
  }

  function BuildStarted(s: State, order: Order): State {
    s.(builds := s.builds[s.nextId := order], nextId := s.nextId + 1)
  }

  function BuildsStarted(s: State, mints: seq<Mint>, usdcAmount: real): State
    decreases |mints|
  {
    if mints == [] then s
    else BuildsStarted(BuildStarted(s, Order(mints[0], usdcAmount)), mints[1..], usdcAmount)
  }

  /** The token's entry is deleted, whichever transaction it holds by then. */
  function SendSettledStep(s: State, id: nat, succeeded: bool): State
    requires id in s.sends
  {
    var order := s.sends[id].order;
    var settled := s.(txCache := s.txCache - {order.mint}, sends := s.sends - {id});
    if succeeded then BuildStarted(settled, order).(sentPreBuilt := s.sentPreBuilt + 1)
    else settled.(builtOnDemand := s.builtOnDemand + 1)
  }

  function BuildSettledStep(s: State, id: nat, now: int, succeeded: bool): State
    requires id in s.builds
  {
    var order := s.builds[id];
    var settled := s.(builds := s.builds - {id});
    if succeeded then
      var tx := PreBuilt(s.nextSerial, order.mint, order.usdcAmount, now, now + PREBUILT_TX_TTL);
      settled.(txCache := s.txCache[order.mint := tx],
               nextSerial := s.nextSerial + 1)
    else settled
  }

  predicate NeedsRefresh(txCache: map<Mint, PreBuilt>, mint: Mint, now: int) {
    mint !in txCache || txCache[mint].expiresAt - now < REFRESH_THRESHOLD
  }

  /** The tokens to refresh, in the order in which they are allowed. */
  function ToRefresh(txCache: map<Mint, PreBuilt>, tokens: seq<Mint>, now: int): (refresh: seq<Mint>)
    ensures forall mint :: mint in refresh <==> mint in tokens && NeedsRefresh(txCache, mint, now)
    decreases |tokens|
  {
    if tokens == [] then []
    else
      var before, last := ToRefresh(txCache, tokens[..|tokens| - 1], now), tokens[|tokens| - 1];
      assert tokens == tokens[..|tokens| - 1] + [last];
      if NeedsRefresh(txCache, last, now) then before + [last] else before
  }

  predicate Enabled(s: State, a: Action) {
    match a
    case SendSettled(id, _) => id in s.sends
    case BuildSettled(id, _, _) => id in s.builds
    case _ => true
  }

  /** An answer that nothing awaits cannot occur; it leaves the state as it is. */
  function Step(s: State, a: Action): State {
    if !Enabled(s, a) then s
    else
      match a
      case Buy(order, now) => BuyStep(s, order, now)
      case SendSettled(id, succeeded) => SendSettledStep(s, id, succeeded)
      case PreBuild(order) => BuildStarted(s, order)
      case BuildSettled(id, now, succeeded) => BuildSettledStep(s, id, now, succeeded)
      case Refresh(tokens, usdcAmount, now) => BuildsStarted(s, ToRefresh(s.txCache, tokens, now), usdcAmount)
  }

  function Run(actions: seq<Action>): State
    decreases |actions|
  {
    if actions == [] then INITIAL else Step(Run(actions[..|actions| - 1]), actions[|actions| - 1])
  }

  //
  // The object
  //

  class JupiterExecutor {
    const allowedTokens: seq<Mint>
    const tradeAmountUsdc: real
    var txCache: map<Mint, PreBuilt>
    var sends: map<nat, Send>
    var builds: map<nat, Order>
    var nextId: nat
    var nextSerial: nat
    var picks: seq<Pick>
    var sentPreBuilt: nat
    var builtOnDemand: nat

    ghost function Value(): State
      reads this
    {
      State(txCache, sends, builds, nextId, nextSerial, picks, sentPreBuilt, builtOnDemand)
    }

    constructor (allowedTokens: seq<Mint>, tradeAmountUsdc: real)
      ensures Value() == INITIAL
      ensures this.allowedTokens == allowedTokens && this.tradeAmountUsdc == tradeAmountUsdc
    {
      this.allowedTokens, this.tradeAmountUsdc := allowedTokens, tradeAmountUsdc;
      txCache, sends, builds := map[], map[], map[];
      nextId, nextSerial, picks := 0, 0, [];
      sentPreBuilt, builtOnDemand := 0, 0;
    }

    /** buyToken up to its await. */
    method BuyToken(mint: Mint, usdcAmount: real, now: int)
      modifies this
      ensures Value() == Step(old(Value()), Buy(Order(mint, usdcAmount), now))
    {
      if mint in txCache {
        var cached := txCache[mint];
        if now < cached.expiresAt {
          picks := picks + [Pick(Order(mint, usdcAmount), cached, now)];
          sends := sends[nextId := Send(Order(mint, usdcAmount), cached)];
          nextId := nextId + 1;
          return;
        }
      }
      builtOnDemand := builtOnDemand + 1;
    }

    /** buyToken after the sending of a cached transaction has succeeded or thrown. */
    method OnSendSettled(id: nat, succeeded: bool)
      requires id in sends
      modifies this
      ensures Value() == Step(old(Value()), SendSettled(id, succeeded))
    {
      var order := sends[id].order;
      sends := sends - {id};
      txCache := txCache - {order.mint};
      if succeeded {
        PreBuildTransaction(order.mint, order.usdcAmount);
        sentPreBuilt := sentPreBuilt + 1;
      } else {
        builtOnDemand := builtOnDemand + 1;
      }
    }

    /** preBuildTransaction up to its first await. */
    method PreBuildTransaction(mint: Mint, usdcAmount: real)
      modifies this
      ensures Value() == Step(old(Value()), PreBuild(Order(mint, usdcAmount)))
    {
      builds := builds[nextId := Order(mint, usdcAmount)];
      nextId := nextId + 1;
    }

    /** The end of preBuildTransaction: the transaction is signed and stored, or an error was logged. */
    method OnBuildSettled(id: nat, now: int, succeeded: bool)
      requires id in builds
      modifies this
      ensures Value() == Step(old(Value()), BuildSettled(id, now, succeeded))
    {
      var order := builds[id];
      builds := builds - {id};
      if succeeded {
        var tx := PreBuilt(nextSerial, order.mint, order.usdcAmount, now, now + PREBUILT_TX_TTL);
        txCache := txCache[order.mint := tx];
        nextSerial := nextSerial + 1;
      }
    }

    /** Every stale or missing transaction of an allowed token is built anew, in parallel. */
    method RefreshPreBuiltTransactions(now: int)
      modifies this
      ensures Value() == Step(old(Value()), Refresh(allowedTokens, tradeAmountUsdc, now))
    {
      var tokensToRefresh: seq<Mint> := [];
      for i := 0 to |allowedTokens|
        invariant Value() == old(Value())
        invariant tokensToRefresh == ToRefresh(txCache, allowedTokens[..i], now)
      {
        assert allowedTokens[..i + 1][..i] == allowedTokens[..i];
        var mint := allowedTokens[i];
        if mint !in txCache || txCache[mint].expiresAt - now < REFRESH_THRESHOLD {
          tokensToRefresh := tokensToRefresh + [mint];
        }
      }
      assert allowedTokens[..|allowedTokens|] == allowedTokens;
      for i := 0 to |tokensToRefresh|
        invariant BuildsStarted(Value(), tokensToRefresh[i..], tradeAmountUsdc)
               == BuildsStarted(old(Value()), tokensToRefresh, tradeAmountUsdc)
      {
        assert tokensToRefresh[i..][1..] == tokensToRefresh[i + 1..];
        PreBuildTransaction(tokensToRefresh[i], tradeAmountUsdc);
      }
    }
  }
}
