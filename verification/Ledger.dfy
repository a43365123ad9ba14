/** The stored accounting state of one position and the two things that change it:
    a confirmed sell and a reconciliation against the wallet balance
    (backend/app/positions/manager.py). Floats are modelled as reals. */
module Ledger {
  import opened Outcomes
  import opened Reals

  datatype Mode = Live | Paper

  datatype Source = SolanaLaunch | Fourmeme | Pons | Doppler

  datatype Status = Open | Closed

  /** What is fixed when the position is opened. */
  datatype Terms = Terms(mode: Mode, source: Source, amountTokens: real, invested: real, entryPrice: real)

  /** What exits and reconciliations write. */
  datatype Book = Book(status: Status, remainingPct: real, basis: real, realized: real, proceeds: real, fees: real)

  /** The confirmed transaction read back from the chain. */
  datatype ChainFill = ChainFill(solReceived: real, solUsd: real, feeSol: real, executionPrice: Option<real>)

  /** A successful sell: the adapter's price and, when available, the chain's numbers. */
  datatype Fill = Fill(price: real, chain: Option<ChainFill>)

  type Balance = x: real | 0.0 <= x

  const RECONCILIATION_TOLERANCE_PCT := 0.5
  const DUST_PCT := 0.01
  const SMALLEST_PCT := 0.000001

  // ---------- selling ----------

  function Sellable(b: Book, requested: real): real {
    Min(Max(0.0, requested), Max(0.0, b.remainingPct))
  }

  /** The part of the investment that a sell of `pct` is charged with. */
  function Portion(t: Terms, b: Book, pct: real): real {
    var left := Max(if b.remainingPct != 0.0 then b.remainingPct else 100.0, SMALLEST_PCT);
    if b.basis > 0.0 then b.basis * (pct / left) else t.invested * (pct / 100.0)
  }

  function ExitPrice(trigger: real, f: Fill): real {
    if f.chain.Some? && f.chain.value.executionPrice.Some? && f.chain.value.executionPrice.value != 0.0
    then f.chain.value.executionPrice.value
    else if f.price != 0.0 then f.price else trigger
  }

  datatype Settlement = Settlement(pnl: real, proceeds: real, fee: real)

  function Settle(t: Terms, portion: real, trigger: real, f: Fill): Settlement {
    if f.chain.Some? && f.chain.value.solUsd > 0.0 then
      var c := f.chain.value;
      Settlement(c.solReceived * c.solUsd - portion - c.feeSol * c.solUsd, c.solReceived * c.solUsd,
                 c.feeSol * c.solUsd)
    else
      var pnl := portion * (ExitPrice(trigger, f) - t.entryPrice) / Max(t.entryPrice, 0.000000000001);
      Settlement(pnl, portion + pnl, 0.0)
  }

  /** The stored book after a confirmed sell of `pct`. */
  function Sell(t: Terms, b: Book, pct: real, trigger: real, f: Fill): Book {
    var portion := Portion(t, b, pct);
    var s := Settle(t, portion, trigger, f);
    var left := Max(0.0, b.remainingPct - pct);
    var closes := left <= DUST_PCT;
    Book(if closes then Closed else b.status,
         if closes then 0.0 else left,
         if closes then 0.0 else Max(0.0, b.basis - portion),
         b.realized + s.pnl, b.proceeds + s.proceeds, b.fees + s.fee)
  }

  // ---------- reconciliation: three copies of one rule ----------

  datatype Verdict = Keep | CloseOut | Reduce(pct: real)

  function AmountAt(original: real, pct: real): real { original * (pct / 100.0) }

  function AmountAtScaled(original: real, pct: real): real { original * pct / 100.0 }

  function ShortfallPct(expected: real, actual: real): real
    requires expected != 0.0
  {
    (expected - actual) / expected * 100.0
  }

  function SharePct(actual: real, original: real): real
    requires original != 0.0
  {
    actual / original * 100.0
  }

  /** The Solana branch of the manager. `None` is any failed wallet or balance lookup. */
  function SolanaVerdict(t: Terms, b: Book, balance: Option<real>): Verdict {
    if t.mode != Live || t.amountTokens <= 0.0 || balance.None? then Keep else
    var actual := balance.value;
    var original := Max(0.0, t.amountTokens);
    var tracked := Max(0.0, b.remainingPct);
    var expected := AmountAt(original, tracked);
    if actual >= expected then Keep
    else if expected > 0.0 && ShortfallPct(expected, actual) < RECONCILIATION_TOLERANCE_PCT then Keep
    else if actual <= 0.0 then CloseOut
    else Reduce(Max(0.0, Min(SharePct(actual, original), tracked)))
  }

  /** The Pons branch: no test of the token amount; a paper position has no wallet to look up. */
  function PonsVerdict(t: Terms, b: Book, balance: Option<real>): Verdict {
    if t.mode != Live || balance.None? then Keep else
    var actual := balance.value;
    var original := Max(0.0, t.amountTokens);
    var tracked := Max(0.0, b.remainingPct);
    var expected := AmountAt(original, tracked);
    if actual >= expected then Keep
    else if expected > 0.0 && ShortfallPct(expected, actual) < RECONCILIATION_TOLERANCE_PCT then Keep
    else if actual <= 0.0 then CloseOut
    else Reduce(Max(0.0, Min(if original != 0.0 then SharePct(actual, original) else 0.0, tracked)))
  }

  /** The Doppler patch: multiplies before it divides. */
  function DopplerVerdict(t: Terms, b: Book, balance: Option<real>): Verdict {
    if t.mode != Live || t.amountTokens <= 0.0 || balance.None? then Keep else
    var actual := balance.value;
    var original := Max(0.0, t.amountTokens);
    var tracked := Max(0.0, b.remainingPct);
    var expected := AmountAtScaled(original, tracked);
    if actual >= expected then Keep
    else if expected > 0.0 && ShortfallPct(expected, actual) < RECONCILIATION_TOLERANCE_PCT then Keep
    else if actual <= 0.0 then CloseOut
    else Reduce(Max(0.0, Min(if original != 0.0 then SharePct(actual, original) else 0.0, tracked)))
  }

  function VerdictFor(t: Terms, b: Book, balance: Option<real>): Verdict {
    match t.source
    case Fourmeme => Keep
    case Pons => PonsVerdict(t, b, balance)
    case Doppler => DopplerVerdict(t, b, balance)
    case SolanaLaunch => SolanaVerdict(t, b, balance)
  }

  function Enact(b: Book, v: Verdict): Book {
    match v
    case Keep => b
    case CloseOut => b.(status := Closed, remainingPct := 0.0)
    case Reduce(pct) => b.(remainingPct := pct)
  }

  function Reconcile(t: Terms, b: Book, balance: Option<real>): Book {
    Enact(b, VerdictFor(t, b, balance))
  }

  /** Doppler and Solana always agree; the Pons copy agrees with them except where a position
      without tokens meets a negative balance, which no ERC-20 contract reports. */
  lemma {:induction false} CopiesAgree(t: Terms, b: Book, balance: Option<real>)
    ensures SolanaVerdict(t, b, balance) == DopplerVerdict(t, b, balance)
    ensures PonsVerdict(t, b, balance) == SolanaVerdict(t, b, balance)
       <==> !(t.mode == Live && t.amountTokens <= 0.0 && balance.Some? && balance.value < 0.0)
  {
    var original, tracked := Max(0.0, t.amountTokens), Max(0.0, b.remainingPct);
    hide AmountAt, AmountAtScaled, ShortfallPct, SharePct;
    TwoWaysToScale(original, tracked);
    TwoWaysToScale(0.0, tracked);
  }

  lemma TwoWaysToScale(original: real, pct: real)
    ensures AmountAt(original, pct) == AmountAtScaled(original, pct)
    ensures original == 0.0 ==> AmountAt(original, pct) == 0.0
  {}

  /** Tokens the book still tracks. */
  function Tracked(t: Terms, b: Book): real { AmountAt(t.amountTokens, b.remainingPct) }

  lemma QuotientTimesDivisor(x: real, y: real)
    requires y != 0.0
    ensures x / y * y == x
  {}

  lemma QuotientBelowOne(x: real, y: real)
    requires 0.0 <= x <= y && 0.0 < y
    ensures 0.0 <= x / y <= 1.0
  {}

  lemma SignOfFactor(x: real, y: real)
    requires 0.0 < y && 0.0 <= x * y
    ensures 0.0 <= x
    ensures 0.0 < x * y ==> 0.0 < x
  {}

  /** The tracked amount never rises; with a balance in hand it ends at most 0.5% of itself above the
      wallet; and a second look at the same balance changes nothing. */
  lemma {:induction false} ReconcileBounds(t: Terms, b: Book, balance: Balance)
    requires t.mode == Live && t.source != Fourmeme
    requires t.amountTokens > 0.0 && b.remainingPct >= 0.0
    ensures var r := Reconcile(t, b, Some(balance));
            && 0.0 <= r.remainingPct <= b.remainingPct
            && Tracked(t, r) - balance <= Tracked(t, r) * 0.005
            && VerdictFor(t, r, Some(balance)) == Keep
            && (r.status != b.status ==> balance == 0.0 && r.remainingPct == 0.0)
            && (balance >= Tracked(t, b) ==> r == b)
  {
    hide SolanaVerdict, PonsVerdict, DopplerVerdict;
    var after := Reconcile(t, b, Some(balance));
    ExactVerdict(t, b, balance);
    ExactVerdict(t, after, balance);
    if balance < Tracked(t, b) {
      match VerdictFor(t, b, Some(balance))
      case Keep => ToleratedGap(Tracked(t, b), balance);
      case CloseOut =>
      case Reduce(pct) => ExactReduction(t, b, balance);
    }
  }

  /** The verdict in terms of the tracked amount. */
  function VerdictByTracked(t: Terms, b: Book, balance: Balance): Verdict
    requires t.amountTokens > 0.0
  {
    if balance >= Tracked(t, b) then Keep
    else if ShortfallPct(Tracked(t, b), balance) < RECONCILIATION_TOLERANCE_PCT then Keep
    else if balance == 0.0 then CloseOut
    else Reduce(SharePct(balance, t.amountTokens))
  }

  lemma ExactVerdict(t: Terms, b: Book, balance: Balance)
    requires t.mode == Live && t.source != Fourmeme
    requires t.amountTokens > 0.0 && b.remainingPct >= 0.0
    ensures VerdictFor(t, b, Some(balance)) == VerdictByTracked(t, b, balance)
  {
    hide SolanaVerdict, PonsVerdict, DopplerVerdict, VerdictByTracked;
    CopiesAgree(t, b, Some(balance));
    ExactSolanaVerdict(t, b, balance);
  }

  lemma ExactSolanaVerdict(t: Terms, b: Book, balance: Balance)
    requires t.mode == Live && t.amountTokens > 0.0 && b.remainingPct >= 0.0
    ensures SolanaVerdict(t, b, Some(balance)) == VerdictByTracked(t, b, balance)
  {}

  lemma ToleratedGap(expected: real, actual: real)
    requires 0.0 < expected && ShortfallPct(expected, actual) < RECONCILIATION_TOLERANCE_PCT
    ensures expected - actual <= expected * (RECONCILIATION_TOLERANCE_PCT / 100.0)
  {}

  lemma ExactReduction(t: Terms, b: Book, balance: Balance)
    requires t.amountTokens > 0.0 && balance < Tracked(t, b)
    ensures 0.0 <= SharePct(balance, t.amountTokens) <= b.remainingPct
    ensures t.amountTokens * (SharePct(balance, t.amountTokens) / 100.0) == balance
  {}

  /** No wallet to ask, no change: paper positions, BNB Chain positions and failed lookups. */
  lemma NoWalletNoChange(t: Terms, b: Book, balance: Option<real>)
    ensures t.mode == Paper || t.source == Fourmeme || balance.None? ==> Reconcile(t, b, balance) == b
  {}

  // ---------- whole runs ----------

  /** What happens to an open book. `Sold` is a confirmed sell of what `requested` allows. */
  datatype Event =
    | Reconciled(balance: Option<Balance>)
    | Sold(requested: real, trigger: real, fill: Fill)

  /** The book together with sums the program never stores: basis charged to sells, basis thrown away
      with the dust at the closing sell, and tokens handed to the adapter. */
  datatype Tally = Tally(book: Book, charged: real, dropped: real, tokensSold: real)

  function Record(t: Terms, y: Tally, e: Event): Tally {
    match e
    case Reconciled(balance) => y.(book := Reconcile(t, y.book, balance))
    case Sold(requested, trigger, fill) =>
      var pct := Sellable(y.book, requested);
      if pct <= 0.0 then y else
      var portion := Portion(t, y.book, pct);
      var after := Sell(t, y.book, pct, trigger, fill);
      Tally(after, y.charged + portion,
            y.dropped + (if after.status == Closed then y.book.basis - portion else 0.0),
            y.tokensSold + AmountAt(t.amountTokens, pct))
  }

  function Replay(t: Terms, y: Tally, es: seq<Event>): Tally
    decreases |es|
  {
    if es == [] then y else Replay(t, Record(t, y, es[0]), es[1..])
  }

  function Fresh(b: Book): Tally { Tally(b, 0.0, 0.0, 0.0) }

  lemma {:induction false} ReplayConcat(t: Terms, y: Tally, xs: seq<Event>, ys: seq<Event>)
    ensures Replay(t, y, xs + ys) == Replay(t, Replay(t, y, xs), ys)
    decreases |xs|
  {
    if xs == [] {
      assert xs + ys == ys;
    } else {
      assert (xs + ys)[1..] == xs[1..] + ys;
      ReplayConcat(t, Record(t, y, xs[0]), xs[1..], ys);
    }
  }

  /** An open position as `create_position` stores it when the buy's cost is known. */
  ghost predicate Opening(t: Terms, b: Book) {
    b.status == Open && 0.0 < b.remainingPct <= 100.0 && b.basis > 0.0 && t.amountTokens >= 0.0
  }

  /** Nothing of the opening basis is lost or counted twice, the profit is exactly what the other
      totals say, and no more tokens were sold than the percentage that left the book. */
  ghost predicate Accounted(t: Terms, start: Book, y: Tally) {
    var b := y.book;
    && y.charged + b.basis + y.dropped == start.basis
    && y.charged >= 0.0 && y.dropped >= 0.0 && b.basis >= 0.0
    && b.realized - start.realized == (b.proceeds - start.proceeds) - y.charged - (b.fees - start.fees)
    && 0.0 <= b.remainingPct <= start.remainingPct
    && (b.status == Open ==> b.remainingPct > 0.0 && b.basis > 0.0)
    && y.tokensSold <= AmountAt(t.amountTokens, start.remainingPct - b.remainingPct)
  }

  /** And a closed row has nothing left. */
  ghost predicate Balanced(t: Terms, start: Book, y: Tally) {
    Accounted(t, start, y) && (y.book.status == Closed ==> y.book.remainingPct == 0.0)
  }

  lemma PortionBounds(t: Terms, b: Book, pct: real)
    requires 0.0 < pct <= b.remainingPct && b.basis > 0.0
    ensures 0.0 <= Portion(t, b, pct) <= b.basis
    ensures pct < b.remainingPct ==> Portion(t, b, pct) < b.basis
    ensures b.remainingPct >= SMALLEST_PCT ==> Portion(t, b, pct) == b.basis * (pct / b.remainingPct)
  {
    var left := if b.remainingPct < SMALLEST_PCT then SMALLEST_PCT else b.remainingPct;
    assert Portion(t, b, pct) == b.basis * (pct / left);
    ProperShare(b.basis, pct, left);
  }

  lemma ProperShare(whole: real, part: real, of: real)
    requires 0.0 < part <= of && 0.0 < whole
    ensures 0.0 <= whole * (part / of) <= whole
    ensures part < of ==> whole * (part / of) < whole
  {
    var share := part / of;
    QuotientBelowOne(part, of);
    QuotientTimesDivisor(part, of);
    assert (1.0 - share) * of == of - part;
    SignOfFactor(1.0 - share, of);
    assert whole * share + whole * (1.0 - share) == whole;
    assert whole * share >= 0.0 && whole * (1.0 - share) >= 0.0;
    assert part < of ==> whole * (1.0 - share) > 0.0;
  }

  lemma AmountsAdd(original: real, x: real, y: real)
    ensures AmountAt(original, x) + AmountAt(original, y) == AmountAt(original, x + y)
  {}

  lemma AmountGrows(original: real, x: real, y: real)
    requires original >= 0.0 && x <= y
    ensures AmountAt(original, x) <= AmountAt(original, y)
  {}

  lemma {:induction false} SellKeepsBalance(t: Terms, start: Book, y: Tally, e: Event)
    requires Opening(t, start) && Balanced(t, start, y) && e.Sold?
    ensures Balanced(t, start, Record(t, y, e))
  {
    var b := y.book;
    var pct := Sellable(b, e.requested);
    if pct > 0.0 {
      PortionBounds(t, b, pct);
      var after := Sell(t, b, pct, e.trigger, e.fill);
      assert after.status == Open ==> pct < b.remainingPct;
      AmountsAdd(t.amountTokens, start.remainingPct - b.remainingPct, pct);
      AmountGrows(t.amountTokens, start.remainingPct - b.remainingPct + pct, start.remainingPct - after.remainingPct);
    }
  }

  lemma {:induction false} ReconcileKeepsBalance(t: Terms, start: Book, y: Tally, e: Event)
    requires Opening(t, start) && Balanced(t, start, y) && e.Reconciled?
    ensures Balanced(t, start, Record(t, y, e))
  {}

  /** Ledger conservation over every run of sells and reconciliations, failed sells being no event. */
  lemma {:induction false} Conservation(t: Terms, start: Book, es: seq<Event>)
    requires Opening(t, start)
    ensures Balanced(t, start, Replay(t, Fresh(start), es))
  {
    ConservationFrom(t, start, Fresh(start), es);
  }

  lemma {:induction false} ConservationFrom(t: Terms, start: Book, y: Tally, es: seq<Event>)
    requires Opening(t, start) && Balanced(t, start, y)
    ensures Balanced(t, start, Replay(t, y, es))
    decreases |es|
  {
    if es != [] {
      if es[0].Sold? { SellKeepsBalance(t, start, y, es[0]); } else { ReconcileKeepsBalance(t, start, y, es[0]); }
      ConservationFrom(t, start, Record(t, y, es[0]), es[1..]);
    }
  }

  function Gain(t: Terms, portion: real, price: real): real {
    portion * (price - t.entryPrice) / Max(t.entryPrice, 0.000000000001)
  }

  lemma GainsAdd(t: Terms, x: real, y: real, price: real)
    ensures Gain(t, x, price) + Gain(t, y, price) == Gain(t, x + y, price)
  {
    var d := Max(t.entryPrice, 0.000000000001);
    assert x * (price - t.entryPrice) + y * (price - t.entryPrice) == (x + y) * (price - t.entryPrice);
  }

  /** From a trillionth up, portion and gain together relate to the portion as the price to the entry price. */
  lemma GainIsProportional(t: Terms, portion: real, price: real)
    requires t.entryPrice >= 0.000000000001
    ensures (portion + Gain(t, portion, price)) * t.entryPrice == portion * price
  {
    QuotientTimesDivisor(portion * (price - t.entryPrice), t.entryPrice);
  }

  /** The chain gives no cash figures, so the sell is settled at a price: the executed one, else the adapter's,
      else the price that triggered the exit. */
  predicate PricedAt(e: Event, price: real) {
    e.Sold? ==>
      var chain := e.fill.chain;
      && (chain.Some? ==> chain.value.solUsd <= 0.0)
      && (if chain.Some? && chain.value.executionPrice.Some? && chain.value.executionPrice.value != 0.0
          then chain.value.executionPrice.value == price
          else if e.fill.price != 0.0 then e.fill.price == price else e.trigger == price)
  }

  /** However a position is sold off at one price, without chain figures, the profit booked is that price's gain
      on the basis charged, the proceeds are the basis charged at that price over the entry price, and no fee is
      booked. */
  lemma {:induction false} OnePriceOneProfit(t: Terms, y: Tally, es: seq<Event>, price: real)
    requires forall e <- es :: PricedAt(e, price)
    ensures var end := Replay(t, y, es); var charged := end.charged - y.charged;
            && end.book.realized - y.book.realized == Gain(t, charged, price)
            && end.book.proceeds - y.book.proceeds == charged + Gain(t, charged, price)
            && (t.entryPrice >= 0.000000000001 ==>
                  (end.book.proceeds - y.book.proceeds) * t.entryPrice == charged * price)
            && end.book.fees == y.book.fees
  {
    hide Gain, PricedAt, Replay;
    GainsOfOnePrice(t, y, es, price);
    if t.entryPrice >= 0.000000000001 { GainIsProportional(t, Replay(t, y, es).charged - y.charged, price); }
  }

  lemma {:induction false} GainsOfOnePrice(t: Terms, y: Tally, es: seq<Event>, price: real)
    requires forall e <- es :: PricedAt(e, price)
    ensures var end := Replay(t, y, es); var charged := end.charged - y.charged;
            && end.book.realized - y.book.realized == Gain(t, charged, price)
            && end.book.proceeds - y.book.proceeds == charged + Gain(t, charged, price)
            && end.book.fees == y.book.fees
    decreases |es|
  {
    hide Gain, Portion, PricedAt;
    GainsAdd(t, 0.0, 0.0, price);
    if es != [] {
      var y' := Record(t, y, es[0]);
      GainsOfOnePrice(t, y', es[1..], price);
      GainsAdd(t, y'.charged - y.charged, Replay(t, y', es[1..]).charged - y'.charged, price);
      ProfitOfOneEvent(t, y, es[0], price);
    }
  }

  lemma ProfitOfOneEvent(t: Terms, y: Tally, e: Event, price: real)
    requires PricedAt(e, price)
    ensures var y' := Record(t, y, e); var charged := y'.charged - y.charged;
            && y'.book.realized - y.book.realized == Gain(t, charged, price)
            && y'.book.proceeds - y.book.proceeds == charged + Gain(t, charged, price)
            && y'.book.fees == y.book.fees
  {
    hide Portion, VerdictFor;
    GainsAdd(t, 0.0, 0.0, price);
  }

  /** The chain's own figures for the sells of a run that sell something: cash received and fees paid, in dollars. */
  function ChainCash(t: Terms, y: Tally, es: seq<Event>): (sums: (real, real))
    requires forall e <- es :: e.Sold? ==> e.fill.chain.Some?
    decreases |es|
  {
    if es == [] then (0.0, 0.0) else
    var rest := ChainCash(t, Record(t, y, es[0]), es[1..]);
    if es[0].Sold? && es[0].requested > 0.0 && y.book.remainingPct > 0.0 then
      var f := es[0].fill.chain.value;
      (rest.0 + f.solReceived * f.solUsd, rest.1 + f.feeSol * f.solUsd)
    else rest
  }

  /** With chain figures the totals are the chain's: proceeds rise by the cash received, fees by the fees paid,
      and the profit is that cash less those fees less the basis charged. */
  lemma {:induction false} ChainFiguresAreBooked(t: Terms, y: Tally, es: seq<Event>)
    requires forall e <- es :: e.Sold? ==> e.fill.chain.Some? && e.fill.chain.value.solUsd > 0.0
    ensures var end, sums := Replay(t, y, es), ChainCash(t, y, es);
            && end.book.proceeds - y.book.proceeds == sums.0
            && end.book.fees - y.book.fees == sums.1
            && end.book.realized - y.book.realized == sums.0 - sums.1 - (end.charged - y.charged)
    decreases |es|
  {
    if es != [] {
      ChainFiguresAreBooked(t, Record(t, y, es[0]), es[1..]);
      hide Portion, VerdictFor;
    }
  }

  /** A buy's fee is stored both inside the opening basis and as the opening fees. So after any run the stored
      profit is the cash flow: proceeds less what the tokens cost less every fee, up to the basis not charged yet. */
  lemma {:induction false} ProfitIsCashFlow(t: Terms, start: Book, cost: real, es: seq<Event>)
    requires Opening(t, start) && start.realized == 0.0 && start.proceeds == 0.0
    requires start.basis == cost + start.fees
    ensures var y := Replay(t, Fresh(start), es);
            y.book.realized == y.book.proceeds - cost - y.book.fees + y.book.basis + y.dropped
  {
    Conservation(t, start, es);
  }

  /** Without a stored basis every sell is charged its share of the stored investment, and none is left over: the
      charges of any run relate to that investment as the tokens sold to all tokens. */
  lemma {:induction false} UnbackedSellsChargeInvestment(t: Terms, y: Tally, es: seq<Event>)
    requires y.book.basis <= 0.0 && t.invested >= 0.0
    ensures var end := Replay(t, y, es);
            && end.book.basis <= 0.0
            && (end.charged - y.charged) * t.amountTokens == t.invested * (end.tokensSold - y.tokensSold)
  {
    hide Replay;
    UnbackedSells(t, y, es);
  }

  lemma {:induction false} UnbackedSells(t: Terms, y: Tally, es: seq<Event>)
    requires y.book.basis <= 0.0 && t.invested >= 0.0
    ensures var end := Replay(t, y, es);
            && end.book.basis <= 0.0
            && Charge(t.amountTokens, end.charged - y.charged) == Charge(t.invested, end.tokensSold - y.tokensSold)
    decreases |es|
  {
    hide Record, Charge;
    ChargesAdd(t.amountTokens, 0.0, 0.0);
    ChargesAdd(t.invested, 0.0, 0.0);
    if es != [] {
      var y' := Record(t, y, es[0]);
      UnbackedSell(t, y, es[0]);
      UnbackedSells(t, y', es[1..]);
      var end := Replay(t, y', es[1..]);
      ChargesAdd(t.amountTokens, y'.charged - y.charged, end.charged - y'.charged);
      ChargesAdd(t.invested, y'.tokensSold - y.tokensSold, end.tokensSold - y'.tokensSold);
    }
  }

  lemma {:induction false} UnbackedSell(t: Terms, y: Tally, e: Event)
    requires y.book.basis <= 0.0 && t.invested >= 0.0
    ensures var y' := Record(t, y, e);
            && y'.book.basis <= 0.0
            && Charge(t.amountTokens, y'.charged - y.charged) == Charge(t.invested, y'.tokensSold - y.tokensSold)
  {
    hide Charge, Settle, AmountAt, VerdictFor;
    ChargesAdd(t.amountTokens, 0.0, 0.0);
    ChargesAdd(t.invested, 0.0, 0.0);
    if e.Sold? && Sellable(y.book, e.requested) > 0.0 {
      var pct, y' := Sellable(y.book, e.requested), Record(t, y, e);
      ShareOfInvestment(t, pct);
      assert y'.charged - y.charged == t.invested * (pct / 100.0);
      assert y'.tokensSold - y.tokensSold == AmountAt(t.amountTokens, pct);
    }
  }

  lemma ShareOfInvestment(t: Terms, pct: real)
    requires t.invested >= 0.0 && pct > 0.0
    ensures t.invested * (pct / 100.0) >= 0.0
    ensures Charge(t.amountTokens, t.invested * (pct / 100.0)) == Charge(t.invested, AmountAt(t.amountTokens, pct))
  {}

  // ---------- basis per percent ----------

  function Density(b: Book): real
    requires b.remainingPct > 0.0
  {
    b.basis / b.remainingPct
  }

  lemma BasisFromDensity(b: Book)
    requires b.remainingPct > 0.0
    ensures b.basis == Charge(Density(b), b.remainingPct)
  {}

  lemma {:induction false} SellAtDensity(t: Terms, b: Book, pct: real, trigger: real, fill: Fill)
    requires 0.0 < pct <= b.remainingPct && b.basis > 0.0 && b.remainingPct >= SMALLEST_PCT
    ensures Portion(t, b, pct) == Density(b) * pct
    ensures var after := Sell(t, b, pct, trigger, fill);
            b.remainingPct - pct > DUST_PCT ==>
              after.remainingPct == b.remainingPct - pct && after.basis > 0.0 && Density(after) == Density(b)
  {}

  /** With reconciliations interleaved, the basis behind each remaining percent never falls. */
  lemma {:induction false} DensityNeverFalls(t: Terms, start: Book, es: seq<Event>)
    requires Opening(t, start)
    ensures var end := Replay(t, Fresh(start), es).book;
            end.status == Open ==> end.remainingPct > 0.0 && Density(end) >= Density(start)
  {
    DensityNeverFallsFrom(t, start, Fresh(start), es);
  }

  lemma {:induction false} DensityNeverFallsFrom(t: Terms, start: Book, y: Tally, es: seq<Event>)
    requires Opening(t, start) && Balanced(t, start, y)
    ensures var end := Replay(t, y, es).book;
            end.status == Open ==> y.book.status == Open && end.remainingPct > 0.0 && Density(end) >= Density(y.book)
    decreases |es|
  {
    if es != [] {
      var y' := Record(t, y, es[0]);
      ConservationFrom(t, start, y, [es[0]]);
      assert [es[0]][1..] == [];
      assert Replay(t, y', []) == y';
      DensityNeverFallsFrom(t, start, y', es[1..]);
      if y'.book.status == Open { DensityStep(t, start, y, es[0]); }
    }
  }

  lemma {:induction false} DensityStep(t: Terms, start: Book, y: Tally, e: Event)
    requires Opening(t, start) && Balanced(t, start, y) && Balanced(t, start, Record(t, y, e))
    requires Record(t, y, e).book.status == Open
    ensures y.book.status == Open && Density(Record(t, y, e).book) >= Density(y.book)
  {
    var b := y.book;
    match e
    case Sold(requested, trigger, fill) =>
      var pct := Sellable(b, requested);
      if pct > 0.0 { SellAtDensity(t, b, pct, trigger, fill); }
    case Reconciled(balance) =>
      ReconcileOnlyLowers(t, b, balance);
      DensityAntitone(b.basis, b.remainingPct, Reconcile(t, b, balance).remainingPct);
  }

  lemma {:induction false} ReconcileOnlyLowers(t: Terms, b: Book, balance: Option<Balance>)
    requires b.remainingPct >= 0.0
    ensures var r := Reconcile(t, b, balance);
            0.0 <= r.remainingPct <= b.remainingPct && r == b.(status := r.status, remainingPct := r.remainingPct)
  {}

  lemma DensityAntitone(basis: real, before: real, after: real)
    requires 0.0 < basis && 0.0 < after <= before
    ensures basis / after >= basis / before
  {}

  function Charge(rate: real, pct: real): real { rate * pct }

  function Total(es: seq<Event>): real {
    if es == [] then 0.0 else (if es[0].Sold? then es[0].requested else 0.0) + Total(es[1..])
  }

  /** `es` only sells, in positive steps, never more than is left, and only its last step may leave dust. */
  ghost predicate Splits(left: real, es: seq<Event>)
    decreases |es|
  {
    es == [] ||
    (&& es[0].Sold? && 0.0 < es[0].requested <= left
     && (|es| > 1 ==> left - es[0].requested > DUST_PCT)
     && Splits(left - es[0].requested, es[1..]))
  }

  lemma {:induction false} SplitCharges(t: Terms, y: Tally, es: seq<Event>, rate: real)
    requires y.book.status == Open && y.book.basis > 0.0 && y.book.remainingPct >= SMALLEST_PCT
    requires y.book.basis == Charge(rate, y.book.remainingPct)
    requires Splits(y.book.remainingPct, es)
    ensures var end := Replay(t, y, es); var left := y.book.remainingPct - Total(es);
            && end.charged == y.charged + Charge(rate, Total(es))
            && (es == [] || end.book.remainingPct == if left <= DUST_PCT then 0.0 else left)
            && (es == [] || end.book.status == if left <= DUST_PCT then Closed else Open)
            && end.book.basis == if end.book.status == Closed then 0.0 else Charge(rate, end.book.remainingPct)
    decreases |es|
  {
    hide Record, Charge;
    ChargesAdd(rate, 0.0, 0.0);
    if es != [] {
      var e := es[0];
      var y' := Record(t, y, e);
      SplitStep(t, y, e, rate);
      if |es| > 1 {
        SplitCharges(t, y', es[1..], rate);
        ChargesAdd(rate, e.requested, Total(es[1..]));
      } else {
        assert es[1..] == [] && Total(es) == e.requested;
      }
    }
  }

  lemma ChargesAdd(rate: real, x: real, y: real)
    ensures Charge(rate, x) + Charge(rate, y) == Charge(rate, x + y)
  {}

  lemma SplitStep(t: Terms, y: Tally, e: Event, rate: real)
    requires y.book.status == Open && y.book.basis > 0.0 && y.book.remainingPct >= SMALLEST_PCT
    requires y.book.basis == Charge(rate, y.book.remainingPct)
    requires e.Sold? && 0.0 < e.requested <= y.book.remainingPct
    ensures var y' := Record(t, y, e); var left := y.book.remainingPct - e.requested;
            && y'.charged == y.charged + Charge(rate, e.requested)
            && y'.book.status == (if left <= DUST_PCT then Closed else Open)
            && y'.book.remainingPct == (if left <= DUST_PCT then 0.0 else left)
            && y'.book.basis == (if left <= DUST_PCT then 0.0 else Charge(rate, left))
            && (left > DUST_PCT ==> y'.book.basis > 0.0)
  {
    var r, pct := y.book.remainingPct, e.requested;
    SellAtDensity(t, y.book, pct, e.trigger, e.fill);
    assert Density(y.book) == rate by { assert rate * r / r == rate; }
    assert rate * r - rate * pct == rate * (r - pct);
    SignOfFactor(rate, r);
    if r - pct > DUST_PCT { assert rate * (r - pct) > 0.0; }
  }

  /** Without external sales, two ways of splitting the same total percentage, at whatever prices, charge
      the same basis and leave the same percentage and, while the position is open, the same basis. */
  lemma {:induction false} AllocationIsPathIndependent(t: Terms, start: Book, xs: seq<Event>, ys: seq<Event>)
    requires Opening(t, start) && start.remainingPct >= SMALLEST_PCT
    requires Splits(start.remainingPct, xs) && Splits(start.remainingPct, ys) && Total(xs) == Total(ys)
    ensures var x, y := Replay(t, Fresh(start), xs), Replay(t, Fresh(start), ys);
            && x.charged == y.charged == Charge(Density(start), Total(xs))
            && x.book.remainingPct == y.book.remainingPct && x.book.status == y.book.status
            && x.book.basis == y.book.basis
  {
    hide Replay, Density, Charge, Record;
    BasisFromDensity(start);
    SplitCharges(t, Fresh(start), xs, Density(start));
    SplitCharges(t, Fresh(start), ys, Density(start));
    TotalIsPositive(start.remainingPct, xs);
    TotalIsPositive(start.remainingPct, ys);
  }

  lemma {:induction false} TotalIsPositive(left: real, es: seq<Event>)
    requires Splits(left, es)
    ensures Total(es) >= 0.0
    ensures es != [] ==> Total(es) > 0.0
    decreases |es|
  {
    if es != [] { TotalIsPositive(left - es[0].requested, es[1..]); }
  }

  /** The basis thrown away at the closing sell is proportional to the dust left behind exactly when the
      position still held a millionth of a percent: below that, the divisor is clamped. */
  lemma {:induction false} DustDropped(t: Terms, b: Book, pct: real)
    requires 0.0 < pct <= b.remainingPct && b.basis > 0.0 && b.remainingPct - pct <= DUST_PCT
    ensures b.basis - Portion(t, b, pct) == b.basis * ((b.remainingPct - pct) / b.remainingPct)
       <==> b.remainingPct >= 0.000001
  {
    var r, left := b.remainingPct, Max(b.remainingPct, SMALLEST_PCT);
    QuotientTimesDivisor(pct, r);
    QuotientTimesDivisor(pct, left);
    QuotientTimesDivisor(r - pct, r);
    var gap := (r - pct) / r - (1.0 - pct / r);
    assert gap * r == (r - pct) / r * r - (r - pct / r * r) == 0.0;
    assert gap == 0.0;
    assert b.basis - b.basis * (pct / left) == b.basis * (1.0 - pct / left);
    if r < left {
      var share := pct / left;
      SignOfFactor(share, left);
      assert (pct / r - share) * r == share * left - share * r == share * (left - r) > 0.0;
      SignOfFactor(pct / r - share, r);
      assert b.basis * (pct / r - share) > 0.0;
    }
  }
}
