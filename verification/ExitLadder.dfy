/** The fixed ladder of exit rules that one monitoring tick walks through
    (backend/app/positions/manager.py, `check_position`), as a decision on the freshly read row. */
module ExitLadder {
  import opened Outcomes
  import opened Reals
  import opened Ledger

  /** The risk settings of backend/app/config/settings.py. */
  datatype Settings = Settings(
    defensiveStopPct: real, defensiveSellPct: real, hardStopPct: real,
    breakevenTrigger: real, breakevenLock: real, profitTrigger: real, profitLock: real,
    strongTrigger: real, strongLock: real, runnerLock: real,
    trailMin: real, trailMid: real, trailStrong: real, trailMax: real)

  const DEFAULTS := Settings(15.0, 80.0, 25.0, 10.0, -2.0, 20.0, 5.0, 40.0, 10.0, 35.0, 15.0, 22.0, 30.0, 12.0)

  const TAKE_PROFIT_GAIN_PCT := 6.0
  const TAKE_PROFIT_SELL_PCT := 100.0

  /** The part of a stored rule that exits read; 0 stands for "not set", which the program treats alike. */
  datatype Rule = Rule(timeExitSeconds: real, volumeDropPct: real)

  /** The fields of a row that a tick updates besides the book. */
  datatype Marks = Marks(peakPrice: real, peakVolume: real, defensiveDone: bool, tpHits: seq<nat>)

  datatype Market = Market(price: real, priceSimulated: bool, volume: real, volumeSimulated: bool, ageSeconds: real)

  datatype Reason =
    TimeBased | DefensiveStop | HardStop | ProfitFloor | Trailing | VolumeDrop | TakeProfit(level: nat) | Manual

  datatype Choice =
    | Hold
    | Exit(pct: real, reason: Reason, reconcileFirst: bool)
    | MarkProfitTaken

  function PnlPct(entry: real, price: real): real {
    if entry <= 0.0 then 0.0 else (price - entry) / entry * 100.0
  }

  /** Peaks move on real observations only. */
  function Observe(m: Marks, k: Market): Marks {
    m.(peakPrice := if k.priceSimulated then m.peakPrice else Max(m.peakPrice, k.price),
       peakVolume := if k.volumeSimulated then m.peakVolume else Max(m.peakVolume, k.volume))
  }

  function FloorPct(c: Settings, peakPnl: real): Option<real> {
    if peakPnl >= 75.0 then Some(c.runnerLock)
    else if peakPnl >= c.strongTrigger then Some(c.strongLock)
    else if peakPnl >= c.profitTrigger then Some(c.profitLock)
    else if peakPnl >= c.breakevenTrigger then Some(c.breakevenLock)
    else None
  }

  function TrailPct(c: Settings, peakPnl: real): Option<real> {
    if peakPnl >= 75.0 then Some(c.trailMax)
    else if peakPnl >= 40.0 then Some(c.trailStrong)
    else if peakPnl >= 20.0 then Some(c.trailMid)
    else if peakPnl >= 10.0 then Some(c.trailMin)
    else None
  }

  function DropPct(peak: real, current: real): real
    requires peak != 0.0
  {
    (peak - current) / peak * 100.0
  }

  predicate FloorFires(c: Settings, t: Terms, peak: real, price: real) {
    var floor := FloorPct(c, PnlPct(t.entryPrice, peak));
    floor.Some? && PnlPct(t.entryPrice, price) <= floor.value
  }

  predicate TrailFires(c: Settings, t: Terms, peak: real, price: real) {
    var trail := TrailPct(c, PnlPct(t.entryPrice, peak));
    trail.Some? && peak > 0.0 && DropPct(peak, price) >= trail.value
  }

  function ProfitChoice(b: Book, m: Marks, pnl: real): Choice {
    if 0 in m.tpHits || pnl < TAKE_PROFIT_GAIN_PCT then Hold
    else if Sellable(b, TAKE_PROFIT_SELL_PCT) <= 0.0 then MarkProfitTaken
    else Exit(Sellable(b, TAKE_PROFIT_SELL_PCT), TakeProfit(1), true)
  }

  /** The choice of one tick; `m` already holds this tick's peaks. */
  function Ladder(c: Settings, r: Rule, t: Terms, b: Book, m: Marks, k: Market): Choice {
    var pnl := PnlPct(t.entryPrice, k.price);
    var all := b.remainingPct;
    if r.timeExitSeconds != 0.0 && k.ageSeconds >= r.timeExitSeconds then Exit(all, TimeBased, false)
    else if k.priceSimulated then Hold
    else if !m.defensiveDone && pnl <= -Abs(c.defensiveStopPct) then Exit(c.defensiveSellPct, DefensiveStop, false)
    else if pnl <= -Abs(c.hardStopPct) then Exit(all, HardStop, false)
    else if FloorFires(c, t, m.peakPrice, k.price) then Exit(all, ProfitFloor, false)
    else if TrailFires(c, t, m.peakPrice, k.price) then Exit(all, Trailing, false)
    else if !k.volumeSimulated && r.volumeDropPct != 0.0 && m.peakVolume > 0.0
         && DropPct(m.peakVolume, k.volume) >= r.volumeDropPct then Exit(all, VolumeDrop, false)
    else ProfitChoice(b, m, pnl)
  }

  // ---------- reason texts ----------

  /** The reason string; `shown` stands for whatever number is formatted into it. */
  function Label(r: Reason, shown: string): string {
    match r
    case TimeBased => "time-based exit"
    case DefensiveStop => "defensive stop -" + shown + "% partial"
    case HardStop => "hard stop -" + shown + "%"
    case ProfitFloor => "adaptive profit floor " + shown + "%"
    case Trailing => "adaptive trailing " + shown + "%"
    case VolumeDrop => "volume drop exit"
    case TakeProfit(_) => "take profit level " + shown
    case Manual => "manual close via /positions"
  }

  /** The test that decides whether a failed sell starts the 60-second pause. */
  predicate ArmsCooldown(text: string) {
    || text in {"time-based exit", "stop loss hit", "trailing stop hit", "volume drop exit", "take profit hit"}
    || "take profit level " <= text
  }

  predicate PausesRetries(r: Reason) { r == TimeBased || r == VolumeDrop || r.TakeProfit? }

  /** Only three of the ladder's reasons start the pause: no stop, floor or trailing exit does. */
  lemma ReasonsThatPause(r: Reason, shown: string)
    ensures ArmsCooldown(Label(r, shown)) <==> PausesRetries(r)
  {
    var text := Label(r, shown);
    match r
    case DefensiveStop => assert text[0] == 'd';
    case HardStop => assert text[0] == 'h';
    case ProfitFloor => assert text[0] == 'a';
    case Trailing => assert text[0] == 'a';
    case Manual => assert text[0] == 'm';
    case TakeProfit(_) => assert text[..18] == "take profit level ";
    case _ =>
  }

  // ---------- the price at which floor and trailing sell everything ----------

  function PriceAt(entry: real, pct: real): real { entry * (1.0 + pct / 100.0) }

  function StopLevel(c: Settings, entry: real, peak: real): Option<real> {
    var floor, trail := FloorPct(c, PnlPct(entry, peak)), TrailPct(c, PnlPct(entry, peak));
    var trailing := trail.Some? && peak > 0.0;
    if floor.Some? && trailing then Some(Max(PriceAt(entry, floor.value), PriceAt(peak, -trail.value)))
    else if floor.Some? then Some(PriceAt(entry, floor.value))
    else if trailing then Some(PriceAt(peak, -trail.value))
    else None
  }

  predicate Reached(price: real, level: Option<real>) { level.Some? && price <= level.value }

  lemma PnlVersusPrice(entry: real, price: real, pct: real)
    requires entry > 0.0
    ensures PnlPct(entry, price) <= pct <==> price <= PriceAt(entry, pct)
    ensures PnlPct(entry, price) >= pct <==> price >= PriceAt(entry, pct)
  {}

  lemma DropVersusPrice(peak: real, price: real, pct: real)
    requires peak > 0.0
    ensures DropPct(peak, price) >= pct <==> price <= PriceAt(peak, -pct)
  {}

  /** A tick that gets past the time exit and both stops attempts a full floor or trailing exit exactly
      when the price is at or below the stop level of the stored peak. */
  lemma StopLevelIsExact(c: Settings, r: Rule, t: Terms, b: Book, m: Marks, k: Market)
    requires t.entryPrice > 0.0 && !k.priceSimulated
    requires !(r.timeExitSeconds != 0.0 && k.ageSeconds >= r.timeExitSeconds)
    requires PnlPct(t.entryPrice, k.price) > -Abs(c.hardStopPct)
    requires m.defensiveDone || PnlPct(t.entryPrice, k.price) > -Abs(c.defensiveStopPct)
    ensures var level := StopLevel(c, t.entryPrice, m.peakPrice);
            var choice := Ladder(c, r, t, b, m, k);
            Reached(k.price, level) <==>
            (choice == Exit(b.remainingPct, ProfitFloor, false) || choice == Exit(b.remainingPct, Trailing, false))
  {
    hide PriceAt, DropPct;
    var peakPnl := PnlPct(t.entryPrice, m.peakPrice);
    var floor, trail := FloorPct(c, peakPnl), TrailPct(c, peakPnl);
    if floor.Some? { PnlVersusPrice(t.entryPrice, k.price, floor.value); }
    if trail.Some? && m.peakPrice > 0.0 { DropVersusPrice(m.peakPrice, k.price, trail.value); }
  }

  ghost predicate AtMost(x: Option<real>, y: Option<real>) {
    x.Some? ==> y.Some? && x.value <= y.value
  }
}
