/** Building and submitting one arbitrage bundle (backend/app/arbitrage/live_executor.py). Quotes, balances,
    built transactions and bundle states come from outside and are inputs. */
module LiveExecutor {
  import opened Outcomes
  import opened Integers
  import opened FeeModel

  const LAMPORTS_PER_SOL := 1_000_000_000
  const BUNDLE_BASE_FEE := 2 * BASE_FEE_PER_SIGNATURE

  function Truncate(x: real): int { if x >= 0.0 then x.Floor else -(-x).Floor }

  function Scaled(floor: int, multiplier: real): (tip: real)
    ensures floor >= MIN_JITO_TIP && multiplier >= 0.1 ==> tip >= 100.0
  {
    assert floor >= MIN_JITO_TIP && multiplier >= 0.1 ==> floor as real * multiplier >= 1000.0 * multiplier;
    floor as real * multiplier
  }

  datatype Config = Config(liveEnabled: bool, maxTrade: int, reserve: int, fallbackTip: int, tipMultiplier: real,
                           cacheSeconds: real, priorityCapSetting: int)

  ghost predicate ValidConfig(c: Config) {
    c.fallbackTip >= MIN_JITO_TIP && 0.1 <= c.tipMultiplier <= 3.0 && c.cacheSeconds >= 1.0
  }

  /** The reported floor in whole lamports, at least the minimum tip. */
  ghost predicate IsFloorInLamports(floorSol: real, floor: int) {
    var reported := floorSol * 1_000_000_000.0;
    if reported < 1_000.0 then floor == 1_000 else floor as real <= reported < (floor + 1) as real
  }

  /** The tip is the reported floor in lamports, at least the minimum, times the multiplier, rounded down. */
  ghost predicate IsMarketTip(c: Config, floorSol: real, tip: int) {
    exists floor: int ::
      && IsFloorInLamports(floorSol, floor)
      && tip as real <= floor as real * c.tipMultiplier < (tip + 1) as real
  }

  /** A quote reply: the quoted output and the least output the swap enforces. */
  datatype Reply = Reply(outAmount: int, threshold: int)

  datatype TxState = Missing | TxFailed | TxSucceeded

  datatype Settlement = Settlement(gaveUp: bool, bundleError: bool, confirmed: bool, signatures: seq<string>,
                                   details: map<string, TxState>)

  /** Everything one attempt meets outside; `None` is a failed call. `sellQuote` answers per requested amount. */
  datatype Outside = Outside(
    amountSol: real, balance: Option<int>, buyQuote: Option<Reply>, sellQuote: int -> Option<Reply>,
    now: real, tipFloorSol: Option<real>, tipAccounts: nat,
    buyPriority: Option<nat>, sellEstimate: Option<nat>, sellPriority: Option<nat>,
    buySimulates: bool, sellSimulates: bool, bundleAccepted: bool, settlement: Settlement)

  /** The bundle as sent, with the fees it actually carries. */
  datatype Bundle = Bundle(input: int, balance: int, tokensBought: int, tokensSold: int, output: int, marketTip: int,
                           tip: int, priority: int)

  datatype Refusal =
    Disabled | AmountNotPositive | AmountTooSmall | TradeTooLarge | CallFailed | ReserveTooSmall | QuoteInconsistent
    | RequoteUnprofitable | TipUnaffordable | TipBelowMinimum
    | TipReserveTooSmall | FinalUnprofitable | FinalReserveTooSmall
    | SimulationFailed

  datatype Attempt =
    | NotSent(why: Refusal)
    | Sent(bundle: Bundle, success: bool)

  function InputLamports(amountSol: real): int { Truncate(amountSol * LAMPORTS_PER_SOL as real) }

  /** Whole lamports of an amount of SOL, rounded down. */
  lemma LamportsAreTheLargest(amountSol: real, lamports: int)
    requires amountSol >= 0.0
    ensures lamports <= InputLamports(amountSol) <==> lamports as real <= amountSol * 1_000_000_000.0
  {}

  function PriorityCap(c: Config, budget: int): int {
    Min(Max(1000, Min(c.priorityCapSetting, 1_000_000)), Max(1000, budget / 2))
  }

  /** Positive fields and a threshold within the quote. */
  predicate Usable(q: Option<Reply>) {
    q.Some? && 0 < q.value.threshold <= q.value.outAmount
  }

  ghost predicate SettledCleanly(s: Settlement) {
    && !s.gaveUp && !s.bundleError && s.confirmed && |s.signatures| == 2
    && forall sig <- s.signatures :: sig != "" && sig in s.details && s.details[sig] == TxSucceeded
  }

  /** What holds of every bundle that is sent, with its final fees. */
  ghost predicate Safe(c: Config, b: Bundle) {
    && CalculateProfitability(b.input, b.output, 0, BUNDLE_BASE_FEE, b.priority, b.tip).NetProfit() > 0
    && b.input + 10_000 + b.priority + b.tip < b.output
    && 1_000 <= b.tip <= b.marketTip
    && b.balance >= b.input + b.tip + b.priority + BUNDLE_BASE_FEE + c.reserve
    && 0 < b.input <= c.maxTrade
    && b.tokensBought == b.tokensSold > 0
  }

  /** A sent bundle is safe, carries what was quoted and simulated, and succeeds exactly when it settles cleanly. */
  ghost predicate SentWell(c: Config, o: Outside, r: Attempt)
    requires r.Sent?
  {
    && Safe(c, r.bundle) && o.buySimulates && o.sellSimulates
    && r.bundle.input == InputLamports(o.amountSol) && o.balance == Some(r.bundle.balance)
    && Usable(o.buyQuote) && r.bundle.tokensBought == o.buyQuote.value.threshold
    && Usable(o.sellQuote(r.bundle.tokensSold)) && r.bundle.output == o.sellQuote(r.bundle.tokensSold).value.threshold
    && (r.success <==> SettledCleanly(o.settlement))
    && o.buyPriority.Some? && o.sellEstimate.Some? && o.sellPriority.Some?
    && r.bundle.tip == Min(r.bundle.marketTip, TipRoom(o))
    && r.bundle.priority == o.buyPriority.value + o.sellPriority.value
  }

  predicate PositiveReply(q: Option<Reply>) { q.Some? && q.value.outAmount > 0 && q.value.threshold > 0 }

  /** Trading is on and the amount is one that may be traded. */
  predicate InLimits(c: Config, o: Outside) {
    c.liveEnabled && 0.0 < o.amountSol && 0 < InputLamports(o.amountSol) <= c.maxTrade
  }

  predicate Funded(c: Config, o: Outside) {
    InLimits(c, o) && o.balance.Some? && o.balance.value >= InputLamports(o.amountSol) + c.fallbackTip + c.reserve
  }

  /** Trading is on, the amount is within the limits and every outside call answers. */
  ghost predicate Answers(c: Config, o: Outside) {
    && Funded(c, o) && Usable(o.buyQuote) && Usable(o.sellQuote(o.buyQuote.value.threshold)) && o.tipAccounts > 0
    && o.buyPriority.Some? && o.sellEstimate.Some? && o.sellPriority.Some?
    && o.buySimulates && o.sellSimulates && o.bundleAccepted
  }

  function Gross(o: Outside): int
    requires Usable(o.buyQuote) && Usable(o.sellQuote(o.buyQuote.value.threshold))
  {
    o.sellQuote(o.buyQuote.value.threshold).value.threshold - InputLamports(o.amountSol)
  }

  /** Every leg's priority fee respects the cap it was built with, the planned budget has room for both legs at
      that cap, and the wallet for both legs, tip, base fee and reserve. */
  ghost predicate WithinPlan(c: Config, o: Outside, marketTip: int)
    requires Answers(c, o)
  {
    var budget := MaxAffordablePriorityBudget(Gross(o), 0, BUNDLE_BASE_FEE, marketTip);
    var cap := PriorityCap(c, budget);
    && o.buyPriority.value <= cap && o.sellEstimate.value <= cap && o.sellPriority.value <= cap
    && 2 * cap <= budget
    && o.balance.value >= InputLamports(o.amountSol) + marketTip + 2 * cap + BUNDLE_BASE_FEE + c.reserve
  }

  /** At this total priority fee neither a profit gate nor the wallet stands in the way of the market tip. */
  ghost predicate Fits(c: Config, o: Outside, marketTip: int, priority: int)
    requires Answers(c, o)
  {
    && marketTip <= MaxAffordableJitoTip(Gross(o), 0, BUNDLE_BASE_FEE, priority)
    && 0 < Gross(o) - BUNDLE_BASE_FEE - priority - marketTip
    && o.balance.value >= InputLamports(o.amountSol) + marketTip + priority + BUNDLE_BASE_FEE + c.reserve
  }

  /** Then no gate behind the tip can refuse. */
  lemma PlanPassesTheGates(c: Config, o: Outside, marketTip: int)
    requires marketTip >= MIN_JITO_TIP && Answers(c, o) && WithinPlan(c, o, marketTip)
    ensures Fits(c, o, marketTip, o.buyPriority.value + o.sellEstimate.value)
    ensures Fits(c, o, marketTip, o.buyPriority.value + o.sellPriority.value)
  {
    hide InputLamports;
    assert PriorityCap(c, MaxAffordablePriorityBudget(Gross(o), 0, BUNDLE_BASE_FEE, marketTip)) >= 1000;
  }

  /** At these priority fees no tip from the minimum up leaves a profit. */
  ghost predicate NoTipPays(o: Outside, priority: int) {
    Usable(o.buyQuote) && Usable(o.sellQuote(o.buyQuote.value.threshold)) &&
    forall tip :: tip >= MIN_JITO_TIP ==>
      CalculateProfitability(InputLamports(o.amountSol), o.sellQuote(o.buyQuote.value.threshold).value.threshold, 0,
                             BUNDLE_BASE_FEE, priority, tip).NetProfit() <= 0
  }

  /** The tip that could be paid at the estimated fees, and the tip planned within it. */
  function TipRoom(o: Outside): int
    requires Usable(o.buyQuote) && Usable(o.sellQuote(o.buyQuote.value.threshold))
    requires o.buyPriority.Some? && o.sellEstimate.Some?
  {
    MaxAffordableJitoTip(Gross(o), 0, BUNDLE_BASE_FEE, o.buyPriority.value + o.sellEstimate.value)
  }

  /** Everything in front of the plan is in order. */
  ghost predicate Admitted(c: Config, o: Outside) {
    Funded(c, o) && Usable(o.buyQuote) && Usable(o.sellQuote(o.buyQuote.value.threshold))
  }

  /** So is the plan: a tip between minimum and market is affordable at the estimates, the wallet covers it, and
      the sell is built once more with that tip. */
  ghost predicate Planned(c: Config, o: Outside, marketTip: int)
    requires o.balance.Some? && Usable(o.buyQuote) && Usable(o.sellQuote(o.buyQuote.value.threshold))
  {
    && o.tipAccounts > 0 && o.buyPriority.Some? && o.sellEstimate.Some? && o.sellPriority.Some?
    && var tip := Min(marketTip, TipRoom(o));
       && tip >= MIN_JITO_TIP
       && o.balance.value >= InputLamports(o.amountSol) + tip + o.buyPriority.value + o.sellEstimate.value
                             + BUNDLE_BASE_FEE + c.reserve
  }

  /** The wallet covers everything at the final fees, both legs simulate and the bundle is taken. */
  ghost predicate Sendable(c: Config, o: Outside, marketTip: int)
    requires o.balance.Some? && Usable(o.buyQuote) && Usable(o.sellQuote(o.buyQuote.value.threshold))
    requires o.buyPriority.Some? && o.sellEstimate.Some? && o.sellPriority.Some?
  {
    && o.balance.value >= InputLamports(o.amountSol) + Min(marketTip, TipRoom(o)) + o.buyPriority.value
                          + o.sellPriority.value + BUNDLE_BASE_FEE + c.reserve
    && o.buySimulates && o.sellSimulates && o.bundleAccepted
  }

  /** The rebuilt sell costs more beyond its estimate than the planned tip left room for. */
  ghost predicate Outgrown(o: Outside, marketTip: int)
    requires Usable(o.buyQuote) && Usable(o.sellQuote(o.buyQuote.value.threshold))
    requires o.buyPriority.Some? && o.sellEstimate.Some? && o.sellPriority.Some?
  {
    o.sellPriority.value - o.sellEstimate.value > TipRoom(o) - Min(marketTip, TipRoom(o))
  }

  /** Both legs could be built once without a tip. */
  predicate Built(o: Outside) { o.tipAccounts > 0 && o.buyPriority.Some? && o.sellEstimate.Some? }

  /** What each refusal of an admitted attempt means. */
  ghost predicate PlanRefuses(c: Config, o: Outside, marketTip: int, why: Refusal)
    requires o.balance.Some? && Usable(o.buyQuote) && Usable(o.sellQuote(o.buyQuote.value.threshold))
  {
    if !Built(o) then why == CallFailed else
    var estimate, room := o.buyPriority.value + o.sellEstimate.value, TipRoom(o);
    var needed := InputLamports(o.amountSol) + Min(marketTip, room) + 10_000 + c.reserve;
    if room < 1_000 then why == if Gross(o) <= 10_000 + estimate then RequoteUnprofitable else TipUnaffordable
    else if marketTip < 1_000 then why == TipBelowMinimum
    else if o.balance.value < needed + estimate then why == TipReserveTooSmall
    else if o.sellPriority.None? then why == CallFailed
    else if Outgrown(o, marketTip) then why == FinalUnprofitable
    else if o.balance.value < needed + o.buyPriority.value + o.sellPriority.value then why == FinalReserveTooSmall
    else if !o.buySimulates || !o.sellSimulates then why == SimulationFailed
    else why == CallFailed && !o.bundleAccepted
  }

  /** What each refusal means: the first thing that is not in order. */
  ghost predicate Refuses(c: Config, o: Outside, marketTip: int, why: Refusal) {
    if !c.liveEnabled then why == Disabled
    else if o.amountSol <= 0.0 then why == AmountNotPositive
    else if InputLamports(o.amountSol) <= 0 then why == AmountTooSmall
    else if InputLamports(o.amountSol) > c.maxTrade then why == TradeTooLarge
    else if o.balance.None? then why == CallFailed
    else if !Funded(c, o) then why == ReserveTooSmall
    else if !PositiveReply(o.buyQuote) then why == CallFailed
    else if !Usable(o.buyQuote) then why == QuoteInconsistent
    else if !PositiveReply(o.sellQuote(o.buyQuote.value.threshold)) then why == CallFailed
    else if !Usable(o.sellQuote(o.buyQuote.value.threshold)) then why == QuoteInconsistent
    else PlanRefuses(c, o, marketTip, why)
  }

  /** The final profit gate after a plan: it passes exactly while the rise of the sell's priority fee stays within
      the room above the tip, so a tip clamped to what is affordable tolerates none; and when it refuses, no tip
      at all would have paid exactly when the rise also exceeds the room above the minimum tip. */
  lemma FinalGateIff(c: Config, o: Outside, marketTip: int)
    requires o.balance.Some? && Usable(o.buyQuote) && Usable(o.sellQuote(o.buyQuote.value.threshold))
    requires Planned(c, o, marketTip)
    ensures var tip, priority := Min(marketTip, TipRoom(o)), o.buyPriority.value + o.sellPriority.value;
            var output := o.sellQuote(o.buyQuote.value.threshold).value.threshold;
            var final :=
              CalculateProfitability(InputLamports(o.amountSol), output, 0, BUNDLE_BASE_FEE, priority, tip).NetProfit();
            && (final <= 0 <==> Outgrown(o, marketTip))
            && (NoTipPays(o, priority) <==> o.sellPriority.value - o.sellEstimate.value > TipRoom(o) - MIN_JITO_TIP)
  {
    hide InputLamports;
    var priority := o.buyPriority.value + o.sellPriority.value;
    var output := o.sellQuote(o.buyQuote.value.threshold).value.threshold;
    var least := CalculateProfitability(InputLamports(o.amountSol), output, 0, BUNDLE_BASE_FEE, priority, MIN_JITO_TIP);
    assert NoTipPays(o, priority) ==> least.NetProfit() <= 0;
  }

  lemma NoTipPaysHere(o: Outside, priority: nat)
    requires Usable(o.buyQuote) && Usable(o.sellQuote(o.buyQuote.value.threshold))
    requires var gross := o.sellQuote(o.buyQuote.value.threshold).value.threshold - InputLamports(o.amountSol);
             MaxAffordableJitoTip(gross, 0, BUNDLE_BASE_FEE, priority) < MIN_JITO_TIP
    ensures NoTipPays(o, priority)
  {
    hide InputLamports;
  }

  class Executor {
    const config: Config
    var cachedTip: int
    var cachedAt: real

    constructor (config: Config)
      ensures this.config == config && cachedTip == 0 && cachedAt == 0.0
    {
      this.config, cachedTip, cachedAt := config, 0, 0.0;
    }

    /** The tip of the moment: a cached value while it is recent and worth a tip, else the scaled market floor,
        else the fallback; whatever is returned is what the cache then holds. */
    method DynamicTip(now: real, floorSol: Option<real>) returns (tip: int)
      requires ValidConfig(config)
      modifies this
      ensures cachedTip == tip >= 100
      ensures old(cachedTip) >= MIN_JITO_TIP && now - old(cachedAt) < config.cacheSeconds ==>
                tip == old(cachedTip) && cachedAt == old(cachedAt)
      ensures !(old(cachedTip) >= MIN_JITO_TIP && now - old(cachedAt) < config.cacheSeconds) ==>
                && cachedAt == now
                && (floorSol.None? ==> tip == config.fallbackTip)
                && (floorSol.Some? ==> IsMarketTip(config, floorSol.value, tip))
    {
      if cachedTip >= MIN_JITO_TIP && now - cachedAt < config.cacheSeconds { return cachedTip; }
      match floorSol {
        case Some(raw) =>
          var floor := Max(MIN_JITO_TIP, Truncate(raw * LAMPORTS_PER_SOL as real));
          assert IsFloorInLamports(raw, floor);
          tip := Truncate(Scaled(floor, config.tipMultiplier));
        case None =>
          tip := config.fallbackTip;
      }
      cachedTip, cachedAt := tip, now;
    }

    /** A landed bundle counts only with exactly two signatures whose transactions both succeeded. */
    method ReconcileLandedBundle(s: Settlement) returns (settled: bool)
      requires !s.gaveUp
      ensures settled <==>
                && !s.bundleError && s.confirmed && |s.signatures| == 2
                && forall sig <- s.signatures :: sig != "" && sig in s.details && s.details[sig] == TxSucceeded
      ensures settled <==> SettledCleanly(s)
    {
      if s.bundleError || !s.confirmed || |s.signatures| != 2 { return false; }
      for i := 0 to |s.signatures|
        invariant forall k :: 0 <= k < i ==> s.signatures[k] != ""
      {
        assert s.signatures[i] in s.signatures;
        if s.signatures[i] == "" { return false; }
      }
      for i := 0 to |s.signatures|
        invariant forall k :: 0 <= k < i ==> s.signatures[k] in s.details && s.details[s.signatures[k]] == TxSucceeded
      {
        if s.signatures[i] !in s.details || s.details[s.signatures[i]] != TxSucceeded { return false; }
      }
      settled := true;
    }

    /** A bundle is sent exactly when everything in front of the plan is in order, a plan exists, the rebuilt sell
        has not outgrown the room that the plan left above its tip, and wallet, simulations and relay go along. It
        is then safe at its final fees, and success means two clean transactions. Otherwise the refusal names the
        first thing that was not in order. An attempt whose calls all answer within plan, at a market tip of at
        least the minimum, is always sent, at exactly the market tip. */
    method Execute(o: Outside) returns (r: Attempt)
      requires ValidConfig(config)
      modifies this
      ensures r.Sent? ==> SentWell(config, o, r)
      ensures r == NotSent(Disabled) <==> !config.liveEnabled
      ensures config.liveEnabled ==> (r == NotSent(AmountNotPositive) <==> o.amountSol <= 0.0)
      ensures config.liveEnabled && o.amountSol > 0.0 ==>
                (r == NotSent(TradeTooLarge) <==> InputLamports(o.amountSol) > Max(0, config.maxTrade))
      ensures r == NotSent(RequoteUnprofitable) || r == NotSent(TipUnaffordable) ==>
                o.buyPriority.Some? && o.sellEstimate.Some? && NoTipPays(o, o.buyPriority.value + o.sellEstimate.value)
      ensures r.Sent? <==>
                && Admitted(config, o) && Planned(config, o, cachedTip) && !Outgrown(o, cachedTip)
                && Sendable(config, o, cachedTip)
      ensures r.Sent? ==> r.bundle.marketTip == cachedTip
      ensures r.NotSent? ==> Refuses(config, o, cachedTip, r.why)
      ensures r == NotSent(FinalUnprofitable) <==>
                Admitted(config, o) && Planned(config, o, cachedTip) && Outgrown(o, cachedTip)
      ensures cachedTip >= MIN_JITO_TIP && Answers(config, o) && WithinPlan(config, o, cachedTip) ==>
                r.Sent? && r.bundle.tip == r.bundle.marketTip == cachedTip
    {
      hide NoTipPays, InputLamports, IsMarketTip, SentWell, WithinPlan, Planned, Outgrown, Sendable, PlanRefuses;
      if !config.liveEnabled { return NotSent(Disabled); }
      if o.amountSol <= 0.0 { return NotSent(AmountNotPositive); }
      var input := InputLamports(o.amountSol);
      if input <= 0 { return NotSent(AmountTooSmall); }
      if input > config.maxTrade { return NotSent(TradeTooLarge); }
      if o.balance.None? { return NotSent(CallFailed); }
      if o.balance.value < input + config.fallbackTip + config.reserve { return NotSent(ReserveTooSmall); }

      if o.buyQuote.None? || o.buyQuote.value.outAmount <= 0 || o.buyQuote.value.threshold <= 0 {
        return NotSent(CallFailed);
      }
      var tokens := o.buyQuote.value.threshold;
      if tokens > o.buyQuote.value.outAmount { return NotSent(QuoteInconsistent); }
      var sellQuote := o.sellQuote(tokens);
      if sellQuote.None? || sellQuote.value.outAmount <= 0 || sellQuote.value.threshold <= 0 {
        return NotSent(CallFailed);
      }
      if sellQuote.value.threshold > sellQuote.value.outAmount { return NotSent(QuoteInconsistent); }

      var marketTip := DynamicTip(o.now, o.tipFloorSol);
      r := BuildAndSend(o, input, tokens, sellQuote.value.threshold, marketTip);
    }

    /** From the planned tip to the settled bundle. */
    method BuildAndSend(o: Outside, input: int, tokens: int, output: int, marketTip: int) returns (r: Attempt)
      requires o.balance.Some? && Usable(o.buyQuote) && Usable(o.sellQuote(o.buyQuote.value.threshold))
      requires 0 < input == InputLamports(o.amountSol) <= config.maxTrade
      requires tokens == o.buyQuote.value.threshold && output == o.sellQuote(tokens).value.threshold
      ensures r.Sent? ==> SentWell(config, o, r) && r.bundle.marketTip == marketTip
      ensures r.NotSent? ==> r.why !in {Disabled, AmountNotPositive, TradeTooLarge}
      ensures r.NotSent? ==> PlanRefuses(config, o, marketTip, r.why)
      ensures r == NotSent(RequoteUnprofitable) || r == NotSent(TipUnaffordable) ==>
                o.buyPriority.Some? && o.sellEstimate.Some? && NoTipPays(o, o.buyPriority.value + o.sellEstimate.value)
      ensures r.Sent? <==> Planned(config, o, marketTip) && !Outgrown(o, marketTip) && Sendable(config, o, marketTip)
      ensures r == NotSent(FinalUnprofitable) <==> Planned(config, o, marketTip) && Outgrown(o, marketTip)
      ensures marketTip >= MIN_JITO_TIP && Answers(config, o) && WithinPlan(config, o, marketTip) ==>
                r.Sent? && r.bundle.tip == marketTip
    {
      hide NoTipPays, InputLamports, SettledCleanly, WithinPlan, Safe;
      if marketTip >= MIN_JITO_TIP && Answers(config, o) && WithinPlan(config, o, marketTip) {
        PlanPassesTheGates(config, o, marketTip);
      }
      var balance := o.balance.value;
      var base := CalculateProfitability(input, output, 0, BUNDLE_BASE_FEE, 0, 0);
      if o.tipAccounts == 0 || o.buyPriority.None? || o.sellEstimate.None? { return NotSent(CallFailed); }
      var estimate := o.buyPriority.value + o.sellEstimate.value;
      var maxTip := MaxAffordableJitoTip(base.grossProfit, base.venueCost, base.baseFee, estimate);
      if maxTip < MIN_JITO_TIP {
        NoTipPaysHere(o, estimate);
        return NotSent(if base.grossProfit - base.baseFee - estimate <= 0
                      then RequoteUnprofitable else TipUnaffordable);
      }
      var tip := Min(marketTip, maxTip);
      if tip < MIN_JITO_TIP { return NotSent(TipBelowMinimum); }
      if balance < input + tip + estimate + BUNDLE_BASE_FEE + config.reserve { return NotSent(TipReserveTooSmall); }

      if o.sellPriority.None? { return NotSent(CallFailed); }
      r := CheckAndSend(o, input, tokens, output, marketTip, tip);
    }

    /** From the rebuilt sell to the settled bundle, at a planned tip. */
    method CheckAndSend(o: Outside, input: int, tokens: int, output: int, marketTip: int, tip: int) returns (r: Attempt)
      requires o.balance.Some? && Usable(o.buyQuote) && Usable(o.sellQuote(o.buyQuote.value.threshold))
      requires 0 < input == InputLamports(o.amountSol) <= config.maxTrade
      requires tokens == o.buyQuote.value.threshold && output == o.sellQuote(tokens).value.threshold
      requires Planned(config, o, marketTip) && tip == Min(marketTip, TipRoom(o))
      ensures r.Sent? <==> !Outgrown(o, marketTip) && Sendable(config, o, marketTip)
      ensures r.Sent? ==> SentWell(config, o, r) && r.bundle.marketTip == marketTip
      ensures r == NotSent(FinalUnprofitable) <==> Outgrown(o, marketTip)
      ensures r.NotSent? ==> r.why in {FinalUnprofitable, FinalReserveTooSmall, SimulationFailed, CallFailed}
      ensures r.NotSent? ==> PlanRefuses(config, o, marketTip, r.why)
    {
      hide NoTipPays, InputLamports, SettledCleanly, Outgrown;
      FinalGateIff(config, o, marketTip);
      var balance, priority := o.balance.value, o.buyPriority.value + o.sellPriority.value;
      var final := CalculateProfitability(input, output, 0, BUNDLE_BASE_FEE, priority, tip);
      if final.NetProfit() <= 0 { return NotSent(FinalUnprofitable); }
      if balance < input + tip + priority + BUNDLE_BASE_FEE + config.reserve { return NotSent(FinalReserveTooSmall); }
      r := Submit(o, Bundle(input, balance, tokens, tokens, output, marketTip, tip, priority));
    }

    /** Simulates both legs, sends the bundle and follows it until it has settled. */
    method Submit(o: Outside, bundle: Bundle) returns (r: Attempt)
      ensures r.Sent? <==> o.buySimulates && o.sellSimulates && o.bundleAccepted
      ensures r.Sent? ==> r.bundle == bundle && (r.success <==> SettledCleanly(o.settlement))
      ensures r.NotSent? ==> r.why == if o.buySimulates && o.sellSimulates then CallFailed else SimulationFailed
    {
      if !o.buySimulates || !o.sellSimulates { return NotSent(SimulationFailed); }
      if !o.bundleAccepted { return NotSent(CallFailed); }
      if o.settlement.gaveUp { return Sent(bundle, false); }
      var settled := ReconcileLandedBundle(o.settlement);
      r := Sent(bundle, settled);
    }
  }

  ghost predicate KeepsMarketTip(gross: int, marketTip: int, buy: nat, sell: nat) {
    Min(marketTip, MaxAffordableJitoTip(gross, 0, BUNDLE_BASE_FEE, buy + sell)) == marketTip
  }

  /** The cap of a leg is the largest fee within the setting, a million and half of the budget, but a thousand at
      least. */
  lemma CapIsTheLargest(c: Config, budget: int, fee: int)
    ensures fee <= PriorityCap(c, budget) <==>
              fee <= 1_000 || (fee <= c.priorityCapSetting && fee <= 1_000_000 && 2 * fee <= budget)
  {}

  /** The budget covers both legs at their cap whenever it is at least 2000; and the market tip survives every
      pair of leg fees within the cap exactly when the budget covers both. */
  lemma {:induction false} BudgetKeepsMarketTip(c: Config, gross: int, marketTip: int)
    requires marketTip >= MIN_JITO_TIP
    ensures var budget := MaxAffordablePriorityBudget(gross, 0, BUNDLE_BASE_FEE, marketTip);
            var cap := PriorityCap(c, budget);
            && (budget >= 2_000 ==> 2 * cap <= budget)
            && (2 * cap <= budget <==>
                  forall buy: nat, sell: nat :: buy <= cap && sell <= cap
                    ==> KeepsMarketTip(gross, marketTip, buy, sell))
  {
    var cap := PriorityCap(c, MaxAffordablePriorityBudget(gross, 0, BUNDLE_BASE_FEE, marketTip));
    assert cap >= 1000;
    assert KeepsMarketTip(gross, marketTip, cap, cap) <==> gross - BUNDLE_BASE_FEE - 2 * cap - 1 >= marketTip;
  }
}
