/** Quotes of the Pons bonding curve and the order limits derived from them
    (backend/app/execution/pons_live.py). That the curve contract adds the net input to one reserve and takes
    the output from the other and from what is sellable is an assumption about the contract. */
module PonsCurve {
  import opened Outcomes
  import opened Integers

  const BPS := 10_000
  const MAX_SLIPPAGE_BPS := 3_000

  /** Python's `//`. */
  function FloorDiv(n: int, d: int): int
    requires d != 0
  {
    if d > 0 then n / d else (-n) / (-d)
  }

  /** `None` is a division by zero. */
  function AmountOut(amountIn: int, reserveIn: int, reserveOut: int): Option<int> {
    if reserveIn + amountIn == 0 then None else Some(FloorDiv(amountIn * reserveOut, reserveIn + amountIn))
  }

  /** One reading of the curve contract; every value is an unsigned word. */
  datatype Curve = Curve(quote: nat, token: nat, sellable: nat, feeBps: nat, creatorTaxBps: nat)

  function SnipeBps(c: Curve, current: nat): int {
    Min(current, Max(0, BPS - c.feeBps - c.creatorTaxBps - 100))
  }

  function NetIn(c: Curve, quoteIn: int, snipe: nat): int {
    FloorDiv(quoteIn * (BPS - c.feeBps - c.creatorTaxBps - SnipeBps(c, snipe)), BPS)
  }

  function QuoteBuy(c: Curve, quoteIn: int, snipe: nat): Option<int> {
    match AmountOut(NetIn(c, quoteIn, snipe), c.quote, c.token)
    case None => None
    case Some(tokens) => Some(if c.sellable != 0 && tokens > c.sellable then c.sellable else tokens)
  }

  function AfterFees(c: Curve, gross: int): int { FloorDiv(gross * (BPS - c.feeBps - c.creatorTaxBps), BPS) }

  function QuoteSell(c: Curve, tokensIn: int): Option<int> {
    match AmountOut(tokensIn, c.token, c.quote)
    case None => None
    case Some(gross) => Some(AfterFees(c, gross))
  }

  function ClampSlippage(bps: int): int { Max(0, Min(bps, MAX_SLIPPAGE_BPS)) }

  /** The limit sent with an order, or a refusal when the quote fails or is not positive. */
  function MinOut(expected: Option<int>, slippageBps: int): Result<int> {
    if expected.None? || expected.value <= 0 then Failure
    else Success(FloorDiv(expected.value * (BPS - ClampSlippage(slippageBps)), BPS))
  }

  // ---------- the constant-product step ----------

  /** The swap step on natural numbers, 0 where nothing is defined. */
  function Out(x: nat, reserveIn: nat, reserveOut: nat): (out: nat)
    ensures reserveIn + x > 0 ==> AmountOut(x, reserveIn, reserveOut) == Some(out)
  {
    if reserveIn + x == 0 then 0 else x * reserveOut / (reserveIn + x)
  }

  lemma FloorBounds(n: int, d: int)
    requires d > 0
    ensures n / d * d <= n < n / d * d + d
  {}

  lemma FloorAtLeast(n: int, d: int, q: int)
    requires d > 0 && q * d <= n
    ensures q <= n / d
  {
    FloorBounds(n, d);
    if n / d < q { Scale(n / d + 1, q, d); }
  }

  lemma Scale(x: int, y: int, k: int)
    requires x <= y && 0 <= k
    ensures x * k <= y * k
  {}

  /** A swap never lowers the product of the reserves and never takes the whole output reserve. */
  lemma ProductNeverFalls(x: nat, reserveIn: nat, reserveOut: nat)
    ensures var out := Out(x, reserveIn, reserveOut);
            && out <= reserveOut
            && (reserveIn > 0 && reserveOut > 0 ==> out < reserveOut)
            && reserveIn * reserveOut <= (reserveIn + x) * (reserveOut - out)
  {
    if reserveIn + x > 0 {
      FloorBounds(x * reserveOut, reserveIn + x);
      SwapStep(x, reserveIn, reserveOut, Out(x, reserveIn, reserveOut));
    }
  }

  lemma SwapStep(x: nat, reserveIn: nat, reserveOut: nat, out: nat)
    requires 0 < reserveIn + x && out * (reserveIn + x) <= x * reserveOut
    ensures out <= reserveOut
    ensures reserveIn > 0 && reserveOut > 0 ==> out < reserveOut
    ensures reserveIn * reserveOut <= (reserveIn + x) * (reserveOut - out)
  {}

  /** And it gives out as much as that allows: any amount keeps the product exactly up to the quoted one. */
  lemma OutIsTheLargest(x: nat, reserveIn: nat, reserveOut: nat, out: int)
    requires reserveIn + x > 0
    ensures reserveIn * reserveOut <= (reserveIn + x) * (reserveOut - out) <==> out <= Out(x, reserveIn, reserveOut)
  {
    var d, n := reserveIn + x, x * reserveOut;
    assert d * (reserveOut - out) == reserveIn * reserveOut + n - out * d;
    FloorBounds(n, d);
    if out * d <= n { FloorAtLeast(n, d, out); } else if out <= n / d { Scale(out, n / d, d); }
  }

  /** What a buy keeps of each ten thousand: all but fees and snipe tax, though the snipe tax alone never takes the
      last one percent. */
  function KeptOfBuy(c: Curve, snipe: nat): int {
    var afterFees := BPS - c.feeBps - c.creatorTaxBps;
    Max(afterFees - snipe, Min(100, afterFees))
  }

  /** Both fee steps take no more than their share: a net amount is the largest within it. */
  lemma FeesAreExact(c: Curve, amount: int, snipe: nat, net: int)
    ensures net * BPS <= amount * KeptOfBuy(c, snipe) <==> net <= NetIn(c, amount, snipe)
    ensures net * BPS <= amount * (BPS - c.feeBps - c.creatorTaxBps) <==> net <= AfterFees(c, amount)
  {
    FloorBounds(amount * (BPS - c.feeBps - c.creatorTaxBps - SnipeBps(c, snipe)), BPS);
    FloorBounds(amount * (BPS - c.feeBps - c.creatorTaxBps), BPS);
  }

  /** A quoted buy is the swap of the net input, cut to the sellable amount when that is positive. */
  lemma QuotedTokens(c: Curve, quoteIn: nat, snipe: nat, tokens: nat)
    requires c.feeBps + c.creatorTaxBps <= BPS && c.quote > 0
    ensures var q, net := QuoteBuy(c, quoteIn, snipe), quoteIn * KeptOfBuy(c, snipe) / BPS;
            q.Some? && (tokens <= q.value <==>
                          && c.quote * c.token <= (c.quote + net) * (c.token - tokens)
                          && (c.sellable > 0 ==> tokens <= c.sellable))
  {
    assert NetIn(c, quoteIn, snipe) == quoteIn * KeptOfBuy(c, snipe) / BPS;
    hide NetIn, Out;
    NetBounds(c, quoteIn, snipe);
    OutIsTheLargest(NetIn(c, quoteIn, snipe), c.quote, c.token, tokens);
  }

  lemma OutIsMonotone(x: nat, y: nat, reserveIn: nat, reserveOut: nat)
    requires x <= y
    ensures Out(x, reserveIn, reserveOut) <= Out(y, reserveIn, reserveOut)
  {
    if reserveIn + x > 0 {
      var out := Out(x, reserveIn, reserveOut);
      FloorBounds(x * reserveOut, reserveIn + x);
      ProductNeverFalls(x, reserveIn, reserveOut);
      Scale(out, reserveOut, y - x);
      assert out * (reserveIn + y) == out * (reserveIn + x) + out * (y - x);
      assert x * reserveOut + (y - x) * reserveOut == y * reserveOut;
      FloorAtLeast(y * reserveOut, reserveIn + y, out);
    }
  }

  // ---------- splitting a buy ----------

  function Sum(xs: seq<nat>): nat { if xs == [] then 0 else xs[0] + Sum(xs[1..]) }

  /** Tokens received when the parts are swapped one after the other on the updated reserves. */
  function SplitOut(xs: seq<nat>, reserveIn: nat, reserveOut: nat): (out: nat)
    ensures out <= reserveOut
    ensures reserveIn * reserveOut <= (reserveIn + Sum(xs)) * (reserveOut - out)
    decreases |xs|
  {
    if xs == [] then 0 else
    var first := Out(xs[0], reserveIn, reserveOut);
    ProductNeverFalls(xs[0], reserveIn, reserveOut);
    first + SplitOut(xs[1..], reserveIn + xs[0], reserveOut - first)
  }

  /** However an input is split into consecutive swaps, together they yield at most the single swap. */
  lemma SplitNeverBeatsWhole(xs: seq<nat>, reserveIn: nat, reserveOut: nat)
    requires reserveIn + Sum(xs) > 0
    ensures SplitOut(xs, reserveIn, reserveOut) <= Out(Sum(xs), reserveIn, reserveOut)
  {
    var out, d := SplitOut(xs, reserveIn, reserveOut), reserveIn + Sum(xs);
    FromProduct(reserveIn, reserveOut, Sum(xs), out);
    FloorAtLeast(Sum(xs) * reserveOut, d, out);
  }

  lemma FromProduct(reserveIn: nat, reserveOut: nat, x: nat, out: nat)
    requires reserveIn * reserveOut <= (reserveIn + x) * (reserveOut - out)
    ensures out * (reserveIn + x) <= x * reserveOut
  {}

  lemma NetBounds(c: Curve, quoteIn: nat, snipe: nat)
    requires c.feeBps + c.creatorTaxBps <= BPS
    ensures 0 <= NetIn(c, quoteIn, snipe) <= quoteIn
    ensures NetIn(c, quoteIn, snipe) * BPS <= quoteIn * (BPS - c.feeBps - c.creatorTaxBps - SnipeBps(c, snipe))
  {
    var kept := BPS - c.feeBps - c.creatorTaxBps - SnipeBps(c, snipe);
    FloorBounds(quoteIn * kept, BPS);
    Scale(kept, BPS, quoteIn);
    FloorAtLeast(quoteIn * kept, BPS, 0);
  }

  lemma NetsAdd(c: Curve, x: nat, y: nat, snipe: nat)
    ensures NetIn(c, x, snipe) + NetIn(c, y, snipe) <= NetIn(c, x + y, snipe)
  {}

  /** The curve after a quoted buy: the net input stays, the tokens leave both the reserve and what is sellable. */
  function AfterBuy(c: Curve, quoteIn: nat, snipe: nat): (after: Curve)
    requires c.quote > 0 && c.feeBps + c.creatorTaxBps <= BPS
    ensures after.quote > 0 && after.token <= c.token
    ensures after.feeBps == c.feeBps && after.creatorTaxBps == c.creatorTaxBps
    ensures c.quote * c.token <= (c.quote + NetIn(c, quoteIn, snipe)) * after.token
  {
    BuyFacts(c, quoteIn, snipe);
    var tokens := QuoteBuy(c, quoteIn, snipe).value;
    c.(quote := c.quote + NetIn(c, quoteIn, snipe), token := c.token - tokens, sellable := Max(0, c.sellable - tokens))
  }

  /** Tokens received when `quotes` are spent one buy after the other, each quoted on the curve as it then is. */
  function SplitBuys(c: Curve, quotes: seq<nat>, snipe: nat): (out: nat)
    requires c.quote > 0 && c.feeBps + c.creatorTaxBps <= BPS
    ensures out <= c.token
    decreases |quotes|
  {
    if quotes == [] then 0 else
    var after := AfterBuy(c, quotes[0], snipe);
    c.token - after.token + SplitBuys(after, quotes[1..], snipe)
  }

  /** Some buy takes exactly the last sellable token, and the buys after it, on a curve whose sellable amount is
      zero and therefore no longer a limit, still yield tokens. */
  predicate OutlastsTheClamp(c: Curve, quotes: seq<nat>, snipe: nat)
    requires c.quote > 0 && c.feeBps + c.creatorTaxBps <= BPS
    decreases |quotes|
  {
    quotes != [] &&
    var after := AfterBuy(c, quotes[0], snipe);
    if after.sellable == 0 then SplitBuys(after, quotes[1..], snipe) > 0
    else OutlastsTheClamp(after, quotes[1..], snipe)
  }

  lemma {:induction false} SplitKeepsProduct(c: Curve, quotes: seq<nat>, snipe: nat)
    requires c.quote > 0 && c.feeBps + c.creatorTaxBps <= BPS
    ensures NetIn(c, Sum(quotes), snipe) >= 0
    ensures c.quote * c.token <= (c.quote + NetIn(c, Sum(quotes), snipe)) * (c.token - SplitBuys(c, quotes, snipe))
    decreases |quotes|
  {
    NetBounds(c, Sum(quotes), snipe);
    if quotes == [] {
      assert NetIn(c, 0, snipe) == 0;
    } else {
      var d, rest := AfterBuy(c, quotes[0], snipe), Sum(quotes[1..]);
      SplitKeepsProduct(d, quotes[1..], snipe);
      assert NetIn(d, rest, snipe) == NetIn(c, rest, snipe);
      NetsAdd(c, quotes[0], rest, snipe);
      hide NetIn, AfterBuy;
      Scale(d.quote + NetIn(c, rest, snipe), c.quote + NetIn(c, Sum(quotes), snipe),
            c.token - SplitBuys(c, quotes, snipe));
    }
  }

  lemma {:induction false} SplitAgainstClamp(c: Curve, quotes: seq<nat>, snipe: nat)
    requires c.quote > 0 && c.feeBps + c.creatorTaxBps <= BPS && c.sellable > 0
    ensures SplitBuys(c, quotes, snipe) > c.sellable <==> OutlastsTheClamp(c, quotes, snipe)
    decreases |quotes|
  {
    if quotes != [] {
      var d := AfterBuy(c, quotes[0], snipe);
      if d.sellable > 0 { SplitAgainstClamp(d, quotes[1..], snipe); }
    }
  }

  /** However a buy is split, all fees and the clamp included, the parts never yield more than the curve would give
      for the total; and they yield more than the quote for the total exactly when a part sells out the sellable
      amount and a later one still yields tokens. */
  lemma {:induction false} SplitBuyBeatsWholeIff(c: Curve, quotes: seq<nat>, snipe: nat)
    requires c.quote > 0 && c.feeBps + c.creatorTaxBps <= BPS
    ensures var whole := QuoteBuy(c, Sum(quotes), snipe); var split := SplitBuys(c, quotes, snipe);
            && whole.Some? && 0 <= NetIn(c, Sum(quotes), snipe)
            && split <= Out(NetIn(c, Sum(quotes), snipe), c.quote, c.token)
            && (split > whole.value <==> c.sellable > 0 && OutlastsTheClamp(c, quotes, snipe))
  {
    var net, split := NetIn(c, Sum(quotes), snipe), SplitBuys(c, quotes, snipe);
    SplitKeepsProduct(c, quotes, snipe);
    FromProduct(c.quote, c.token, net, split);
    FloorAtLeast(net * c.token, c.quote + net, split);
    if c.sellable > 0 { SplitAgainstClamp(c, quotes, snipe); }
  }

  /** Such a split: 100 on this curve is quoted at 10 tokens, twice 50 buys 10 and then 22. */
  lemma ExhaustedClampLiftsTheLimit()
    ensures var c := Curve(100, 100, 10, 0, 0);
            QuoteBuy(c, 100, 0) == Some(10) && SplitBuys(c, [50, 50], 0) == 32 && OutlastsTheClamp(c, [50, 50], 0)
  {
    var c := Curve(100, 100, 10, 0, 0);
    assert AfterBuy(c, 50, 0) == c.(quote := 150, token := 90, sellable := 0);
    assert [50, 50][1..] == [50] && [50][1..] == [];
    assert SplitBuys(c.(quote := 150, token := 90, sellable := 0), [50], 0) == 22;
  }

  // ---------- trading there and back ----------

  /** What a buy does to the pool: the product of the reserves does not fall. */
  lemma BuyFacts(c: Curve, quoteIn: nat, snipe: nat)
    requires c.quote > 0 && c.feeBps + c.creatorTaxBps <= BPS
    ensures var net := NetIn(c, quoteIn, snipe); var tokens := QuoteBuy(c, quoteIn, snipe);
            && 0 <= net <= quoteIn && tokens.Some? && 0 <= tokens.value <= c.token
            && (c.token > 0 ==> tokens.value < c.token)
            && (c.sellable > 0 ==> tokens.value <= c.sellable)
            && c.quote * c.token <= (c.quote + net) * (c.token - tokens.value)
  {
    hide NetIn, Out;
    NetBounds(c, quoteIn, snipe);
    var net := NetIn(c, quoteIn, snipe);
    var out := Out(net, c.quote, c.token);
    ProductNeverFalls(net, c.quote, c.token);
    Scale(c.token - out, c.token - QuoteBuy(c, quoteIn, snipe).value, c.quote + net);
  }

  /** What a sale does: the pool pays out a gross amount of which the seller gets the part after fees. */
  lemma SellFacts(c: Curve, tokens: nat)
    requires c.quote > 0 && c.token > 0 && c.feeBps + c.creatorTaxBps <= BPS
    ensures var gross := Out(tokens, c.token, c.quote);
            && QuoteSell(c, tokens) == Some(AfterFees(c, gross)) && 0 <= AfterFees(c, gross) <= gross < c.quote
            && AfterFees(c, gross) * BPS <= gross * (BPS - c.feeBps - c.creatorTaxBps)
            && c.token * c.quote <= (c.token + tokens) * (c.quote - gross)
  {
    hide Out, AfterFees;
    ProductNeverFalls(tokens, c.token, c.quote);
    PaidOutBounds(c, Out(tokens, c.token, c.quote));
  }

  /** A trader's moves; the fees, the snipe tax and the sellable amount may differ at every one. */
  datatype Trade =
    | Buy(quoteIn: nat, feeBps: nat, creatorTaxBps: nat, snipe: nat, sellable: nat)
    | SellBack(tokens: nat, feeBps: nat, creatorTaxBps: nat)

  datatype Market = Market(quote: nat, token: nat, spent: nat, received: nat, held: int)

  predicate Priced(t: Trade) { t.feeBps + t.creatorTaxBps <= BPS }

  function CurveOf(m: Market, t: Trade): Curve {
    Curve(m.quote, m.token, if t.Buy? then t.sellable else 0, t.feeBps, t.creatorTaxBps)
  }

  /** The trader pays and receives what was quoted; the net input stays in the pool and the gross output leaves it. */
  function Execute(m: Market, t: Trade): (after: Market)
    requires m.quote > 0 && m.token > 0 && Priced(t)
    ensures after.quote > 0 && after.token > 0 && m.quote * m.token <= after.quote * after.token
    ensures after.token == m.token + m.held - after.held
    ensures after.quote - m.quote <= (after.spent - m.spent) - (after.received - m.received)
  {
    var c := CurveOf(m, t);
    match t
    case Buy(quoteIn, _, _, snipe, _) =>
      BuyFacts(c, quoteIn, snipe);
      var net, tokens := NetIn(c, quoteIn, snipe), QuoteBuy(c, quoteIn, snipe).value;
      m.(quote := m.quote + net, token := m.token - tokens, spent := m.spent + quoteIn, held := m.held + tokens)
    case SellBack(tokens, _, _) =>
      SellFacts(c, tokens);
      var gross := Out(tokens, m.token, m.quote);
      m.(quote := m.quote - gross, token := m.token + tokens, received := m.received + QuoteSell(c, tokens).value,
         held := m.held - tokens)
  }

  lemma PaidOutBounds(c: Curve, gross: nat)
    requires c.feeBps + c.creatorTaxBps <= BPS
    ensures 0 <= AfterFees(c, gross) <= gross
    ensures AfterFees(c, gross) * BPS <= gross * (BPS - c.feeBps - c.creatorTaxBps)
  {}

  function ExecuteAll(m: Market, ts: seq<Trade>): (after: Market)
    requires m.quote > 0 && m.token > 0 && forall t <- ts :: Priced(t)
    ensures after.quote > 0 && after.token > 0 && m.quote * m.token <= after.quote * after.token
    ensures after.token == m.token + m.held - after.held
    ensures after.quote - m.quote <= (after.spent - m.spent) - (after.received - m.received)
    decreases |ts|
  {
    if ts == [] then m else ExecuteAll(Execute(m, ts[0]), ts[1..])
  }

  /** No sequence of buys and sells, whatever the fees, snipe taxes and clamps met on the way, leaves a trader
      who starts without tokens with more quote than was spent. */
  lemma NoTradeSequenceProfits(quote: nat, token: nat, ts: seq<Trade>)
    requires quote > 0 && token > 0 && forall t <- ts :: Priced(t)
    ensures var end := ExecuteAll(Market(quote, token, 0, 0, 0), ts);
            end.held >= 0 ==> end.received <= end.spent
  {
    var end := ExecuteAll(Market(quote, token, 0, 0, 0), ts);
    if end.held >= 0 { ReserveRecovers(quote, token, end.quote, end.token); }
  }

  lemma ReserveRecovers(quote: nat, token: nat, quote': nat, token': nat)
    requires 0 < token' <= token && quote * token <= quote' * token'
    ensures quote <= quote'
  {}

  /** Buying and selling the tokens straight back loses at least the fees of both legs. */
  lemma RoundTripPaysBothFees(c: Curve, quoteIn: nat, snipe: nat)
    requires c.quote > 0 && c.token > 0 && c.feeBps + c.creatorTaxBps <= BPS
    ensures var tokens := QuoteBuy(c, quoteIn, snipe);
            && tokens.Some? && 0 <= tokens.value < c.token
            && var after := c.(quote := c.quote + NetIn(c, quoteIn, snipe), token := c.token - tokens.value);
               var back := QuoteSell(after, tokens.value);
               && back.Some? && back.value <= quoteIn
               && back.value * BPS <= NetIn(c, quoteIn, snipe) * (BPS - c.feeBps - c.creatorTaxBps)
  {
    hide NetIn, Out, AfterFees, QuoteBuy, QuoteSell;
    BuyFacts(c, quoteIn, snipe);
    var net, tokens := NetIn(c, quoteIn, snipe), QuoteBuy(c, quoteIn, snipe).value;
    var d := c.(quote := c.quote + net, token := c.token - tokens);
    SellFacts(d, tokens);
    var gross := Out(tokens, d.token, d.quote);
    assert d.token + tokens == c.token && d.feeBps == c.feeBps && d.creatorTaxBps == c.creatorTaxBps;
    GrossWithinNet(c.quote, c.token, d.quote, d.token, gross);
    Scale(gross, net, BPS - c.feeBps - c.creatorTaxBps);
  }

  lemma GrossWithinNet(quote: nat, token: nat, q: nat, r: nat, gross: nat)
    requires token > 0 && quote <= q && gross <= q
    requires quote * token <= q * r && r * q <= token * (q - gross)
    ensures gross <= q - quote
  {}

  // ---------- limits ----------

  /** The snipe clamp keeps at least one percent of the input whenever the two fixed fees allow it. */
  lemma SnipeTaxLeavesOnePercent(c: Curve, quoteIn: nat, snipe: nat)
    requires c.feeBps + c.creatorTaxBps <= 9_900
    ensures NetIn(c, quoteIn, snipe) >= quoteIn * 100 / BPS
  {
    var kept := BPS - c.feeBps - c.creatorTaxBps - SnipeBps(c, snipe);
    Scale(100, kept, quoteIn);
    FloorBounds(quoteIn * 100, BPS);
    FloorAtLeast(quoteIn * kept, BPS, quoteIn * 100 / BPS);
  }

  /** An order is refused exactly without a positive quote; else its limit is the largest amount within the quote
      less the slippage, which counts from 0 to 30 percent. */
  lemma LimitIsTheLargest(expected: Option<int>, slippageBps: int, limit: int)
    ensures MinOut(expected, slippageBps).Failure? <==> expected.None? || expected.value <= 0
    ensures MinOut(expected, slippageBps).Success? ==>
              (limit <= MinOut(expected, slippageBps).value <==>
                 limit * BPS <= expected.value * (BPS - (if slippageBps < 0 then 0 else Min(slippageBps, 3_000))))
  {
    if expected.Some? { FloorBounds(expected.value * (BPS - ClampSlippage(slippageBps)), BPS); }
  }

  /** The limit lies between 70 percent of the quote and the quote, and protects nothing exactly when the
      quote is too small for its allowance. */
  lemma MinOutBounds(expected: int, slippageBps: int)
    requires expected > 0
    ensures var m := MinOut(Some(expected), slippageBps);
            && m.Success? && expected * 7_000 / BPS <= m.value <= expected
            && (m.value == 0 <==> expected * (BPS - ClampSlippage(slippageBps)) < BPS)
  {
    var kept := BPS - ClampSlippage(slippageBps);
    FloorBounds(expected * kept, BPS);
    FloorBounds(expected * 7_000, BPS);
    Scale(7_000, kept, expected);
    Scale(kept, BPS, expected);
    FloorAtLeast(expected * kept, BPS, expected * 7_000 / BPS);
  }

  /** Fees above the whole amount normally quote nothing; a quote comes out positive exactly when the negative
      net input outweighs the quote reserve. */
  lemma OverchargedQuotes(c: Curve, quoteIn: nat, snipe: nat)
    requires c.feeBps + c.creatorTaxBps > BPS && quoteIn > 0 && c.token > 0
    ensures MinOut(QuoteBuy(c, quoteIn, snipe), 0).Success? <==> c.quote + NetIn(c, quoteIn, snipe) < 0
  {
    var kept := BPS - c.feeBps - c.creatorTaxBps - SnipeBps(c, snipe);
    var net := NetIn(c, quoteIn, snipe);
    FloorBounds(quoteIn * kept, BPS);
    Scale(kept, -1, quoteIn);
    assert net < 0;
    var d := c.quote + net;
    if d < 0 {
      Scale(-d, -net, c.token);
      Scale(1, c.token, -d);
      FloorAtLeast(-(net * c.token), -d, 1);
    } else if d > 0 {
      FloorBounds(net * c.token, d);
      Scale(net, -1, c.token);
      if net * c.token / d > 0 { Scale(1, net * c.token / d, d); }
    }
  }
}
