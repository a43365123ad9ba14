/** Execution cost and profit of a two-leg arbitrage in lamports (backend/app/arbitrage/fee_model.py) and the
    discovery verdict built on it (backend/app/arbitrage/engine.py). */
module FeeModel {
  import opened Outcomes
  import opened Integers

  const BASE_FEE_PER_SIGNATURE := 5_000
  const MIN_JITO_TIP := 1_000

  datatype Breakdown = Breakdown(input: int, finalOutput: int, grossProfit: int, venueCost: int, baseFee: int,
                                 priorityFee: int, jitoTip: int)
  {
    function TotalCost(): int { Max(venueCost, 0) + Max(baseFee, 0) + Max(priorityFee, 0) + Max(jitoTip, 0) }

    function NetProfit(): int { grossProfit - TotalCost() }
  }

  function CalculateProfitability(input: int, finalOutput: int, venueCost: int, baseFee: int, priorityFee: int,
                                  jitoTip: int): Breakdown {
    Breakdown(Max(input, 0), Max(finalOutput, 0), finalOutput - input, Max(venueCost, 0), Max(baseFee, 0),
              Max(priorityFee, 0), Max(jitoTip, 0))
  }

  function MaxAffordableJitoTip(gross: int, venueCost: int, baseFee: int, priorityFee: int): int {
    Max(0, gross - Max(venueCost, 0) - Max(baseFee, 0) - Max(priorityFee, 0) - 1)
  }

  function MaxAffordablePriorityBudget(gross: int, venueCost: int, baseFee: int, jitoTip: int): int {
    Max(0, gross - Max(venueCost, 0) - Max(baseFee, 0) - Max(jitoTip, MIN_JITO_TIP) - 1)
  }

  /** The affordable tip is the largest one that leaves a strictly positive net profit. */
  lemma AffordableTipIsTheLargest(input: int, output: int, venueCost: int, baseFee: int, priorityFee: int, tip: int)
    requires tip >= 1
    ensures CalculateProfitability(input, output, venueCost, baseFee, priorityFee, tip).NetProfit() > 0
       <==> tip <= MaxAffordableJitoTip(output - input, venueCost, baseFee, priorityFee)
  {}

  /** The priority budget is the largest total priority fee that leaves room for the tip, or for the minimum tip
      when that is larger. */
  lemma PriorityBudgetIsTheLargest(input: int, output: int, venueCost: int, baseFee: int, tip: int, priorityFee: int)
    requires priorityFee >= 1
    ensures var paid := Max(tip, MIN_JITO_TIP);
            CalculateProfitability(input, output, venueCost, baseFee, priorityFee, paid).NetProfit() > 0
            <==> priorityFee <= MaxAffordablePriorityBudget(output - input, venueCost, baseFee, tip)
  {}

  // ---------- discovery ----------

  datatype Quote = Quote(inputAmount: int, outputAmount: int, minimumOutput: Option<int>, priceImpactBps: real)

  datatype Estimates = Estimates(maxPriceImpactBps: real, baseFee: int, priorityFee: int, jitoTip: int)

  datatype Verdict =
    BuyQuoteZeroOutput | SellQuoteZeroOutput | QuoteSizeMismatch | PriceImpactTooHigh | ThresholdNotMet | ThresholdMet

  datatype Opportunity = Opportunity(verdict: Verdict, input: int, buyOutput: int, finalOutput: int, netProfit: int)

  function ExecutableOutput(q: Quote): int {
    if q.minimumOutput.Some? && q.minimumOutput.value > 0 then q.minimumOutput.value else q.outputAmount
  }

  function FindTwoVenueOpportunity(buy: Quote, sell: Quote, e: Estimates): Opportunity {
    var bought, sold := ExecutableOutput(buy), ExecutableOutput(sell);
    var rejected := (v: Verdict) => Opportunity(v, buy.inputAmount, bought, sold, 0);
    if bought <= 0 then rejected(BuyQuoteZeroOutput)
    else if sold <= 0 then rejected(SellQuoteZeroOutput)
    else if sell.inputAmount != bought then rejected(QuoteSizeMismatch)
    else
      var net := CalculateProfitability(buy.inputAmount, sold, 0, e.baseFee, e.priorityFee, e.jitoTip).NetProfit();
      var impact := if buy.priceImpactBps < sell.priceImpactBps then sell.priceImpactBps else buy.priceImpactBps;
      Opportunity(if impact > e.maxPriceImpactBps then PriceImpactTooHigh
                  else if net > 0 then ThresholdMet else ThresholdNotMet,
                  buy.inputAmount, bought, sold, net)
  }

  /** What a quote can be relied on for: its minimum where it names a positive one, else its estimate. */
  predicate Promises(q: Quote, output: int) {
    || (q.minimumOutput == Some(output) && output > 0)
    || (q.minimumOutput.None? && output == q.outputAmount)
    || (q.minimumOutput.Some? && q.minimumOutput.value <= 0 && output == q.outputAmount)
  }

  function Estimated(e: Estimates): int { Max(e.baseFee, 0) + Max(e.priorityFee, 0) + Max(e.jitoTip, 0) }

  /** Discovery marks a round trip executable exactly when its guaranteed output covers input and estimates with
      something left, on matching sizes and acceptable impact; and when it does, the same quotes at actual
      costs keep a positive net exactly when the costs exceed the estimates by less than discovery's net. */
  lemma DiscoveryVersusFinalGate(buy: Quote, sell: Quote, bought: int, sold: int, e: Estimates,
                                 baseFee: nat, priorityFee: nat, tip: nat)
    requires Promises(buy, bought) && Promises(sell, sold)
    ensures var o := FindTwoVenueOpportunity(buy, sell, e);
            var final := CalculateProfitability(buy.inputAmount, sold, 0, baseFee, priorityFee, tip).NetProfit();
            && (o.verdict.ThresholdMet? <==>
                  && 0 < bought == sell.inputAmount && 0 < sold
                  && buy.priceImpactBps <= e.maxPriceImpactBps && sell.priceImpactBps <= e.maxPriceImpactBps
                  && buy.inputAmount + Estimated(e) < sold)
            && (o.verdict.ThresholdMet? ==>
                  && (final > 0 <==> baseFee + priorityFee + tip - Estimated(e) < o.netProfit)
                  && (baseFee + priorityFee + tip <= Estimated(e) ==> final >= o.netProfit > 0))
  {}
}
