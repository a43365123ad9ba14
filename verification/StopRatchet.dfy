/** For which settings the combined floor and trailing level of the exit ladder ratchets
    (backend/app/positions/manager.py, backend/app/config/settings.py). */
module StopRatchet {
  import opened Outcomes
  import opened Reals
  import opened Ledger
  import opened ExitLadder
  import opened ExitActions
  import opened ExitRuns

  /** A trailing distance beyond the whole peak is none: no price falls that far. */
  function Active(trail: Option<real>): Option<real> {
    if trail.Some? && trail.value <= 100.0 then trail else None
  }

  function ActiveStopLevel(c: Settings, entry: real, peak: real): Option<real> {
    var floor, trail := FloorPct(c, PnlPct(entry, peak)), Active(TrailPct(c, PnlPct(entry, peak)));
    var trailing := trail.Some? && peak > 0.0;
    if floor.Some? && trailing then Some(Max(PriceAt(entry, floor.value), PriceAt(peak, -trail.value)))
    else if floor.Some? then Some(PriceAt(entry, floor.value))
    else if trailing then Some(PriceAt(peak, -trail.value))
    else None
  }

  predicate TrailsWithinPeak(c: Settings) {
    c.trailMin <= 100.0 && c.trailMid <= 100.0 && c.trailStrong <= 100.0 && c.trailMax <= 100.0
  }

  /** The active level stops exactly the prices that the level of the ladder stops, and is that level when all
      trailing percentages are within 100. */
  lemma {:induction false} ActiveLevelIsExact(c: Settings, entry: real, peak: real, price: real)
    requires 0.0 <= price
    ensures Reached(price, StopLevel(c, entry, peak)) <==> Reached(price, ActiveStopLevel(c, entry, peak))
    ensures TrailsWithinPeak(c) ==> ActiveStopLevel(c, entry, peak) == StopLevel(c, entry, peak)
  {
    var trail := TrailPct(c, PnlPct(entry, peak));
    if trail.Some? && peak > 0.0 && trail.value > 100.0 { BeyondThePeak(peak, trail.value); }
    hide PriceAt, PnlPct;
  }

  lemma BeyondThePeak(peak: real, trail: real)
    requires 0.0 < peak && trail > 100.0
    ensures PriceAt(peak, -trail) < 0.0
  {}

  ghost predicate Ratchets(c: Settings) {
    forall entry, p, q :: 0.0 < entry && p <= q ==> AtMost(ActiveStopLevel(c, entry, p), ActiveStopLevel(c, entry, q))
  }

  /** The gains at which the floor or the trailing distance changes. */
  function Thresholds(c: Settings): seq<real> {
    [c.breakevenTrigger, c.profitTrigger, c.strongTrigger, 10.0, 20.0, 40.0, 75.0]
  }

  /** The floor of peaks just below a gain of `pct`. */
  function FloorBelow(c: Settings, pct: real): Option<real> {
    if pct > 75.0 then Some(c.runnerLock)
    else if pct > c.strongTrigger then Some(c.strongLock)
    else if pct > c.profitTrigger then Some(c.profitLock)
    else if pct > c.breakevenTrigger then Some(c.breakevenLock)
    else None
  }

  function TrailBelow(c: Settings, pct: real): Option<real> {
    Active(if pct > 75.0 then Some(c.trailMax)
           else if pct > 40.0 then Some(c.trailStrong)
           else if pct > 20.0 then Some(c.trailMid)
           else if pct > 10.0 then Some(c.trailMin)
           else None)
  }

  /** The stop level for an entry price of 1 and a peak gain of `pct`. */
  function Level(floor: Option<real>, trail: Option<real>, pct: real): Option<real> {
    var peak := PriceAt(1.0, pct);
    if floor.Some? && trail.Some? then Some(Max(PriceAt(1.0, floor.value), PriceAt(peak, -trail.value)))
    else if floor.Some? then Some(PriceAt(1.0, floor.value))
    else if trail.Some? then Some(PriceAt(peak, -trail.value))
    else None
  }

  function LevelAt(c: Settings, pct: real): Option<real> { Level(FloorPct(c, pct), Active(TrailPct(c, pct)), pct) }

  /** Reaching a threshold must not lower what the stage before it has come to there. */
  ghost predicate HandsOver(c: Settings, pct: real) {
    AtMost(Level(FloorBelow(c, pct), TrailBelow(c, pct), pct), LevelAt(c, pct))
  }

  /** For all settings: the level never falls, for any entry and peaks, exactly
      when it does not fall at the seven thresholds, a test on the settings alone. */
  lemma {:induction false} RatchetsExactlyWhenStagesHandOver(c: Settings)
    ensures Ratchets(c) <==> forall pct <- Thresholds(c) :: HandsOver(c, pct)
  {
    if forall pct <- Thresholds(c) :: HandsOver(c, pct) {
      forall entry, p, q | 0.0 < entry && p <= q
        ensures AtMost(ActiveStopLevel(c, entry, p), ActiveStopLevel(c, entry, q))
      {
        GainGrows(entry, p, q);
        LevelsClimb(c, PnlPct(entry, p), PnlPct(entry, q));
        LevelScales(c, entry, p);
        LevelScales(c, entry, q);
        hide ActiveStopLevel, PnlPct, LevelAt, HandsOver, Thresholds;
        ScaledAtMost(entry, LevelAt(c, PnlPct(entry, p)), LevelAt(c, PnlPct(entry, q)));
      }
    } else {
      var pct :| pct in Thresholds(c) && !HandsOver(c, pct);
      LevelFallsAt(c, pct);
    }
  }

  // ---------- one entry price is enough ----------

  function Times(x: real, y: real): real { x * y }

  function Scaled(entry: real, level: Option<real>): Option<real> {
    if level.Some? then Some(Times(entry, level.value)) else None
  }

  lemma {:induction false} LevelScales(c: Settings, entry: real, peak: real)
    requires 0.0 < entry
    ensures ActiveStopLevel(c, entry, peak) == Scaled(entry, LevelAt(c, PnlPct(entry, peak)))
  {
    var pct := PnlPct(entry, peak);
    var floor, trail := FloorPct(c, pct), Active(TrailPct(c, pct));
    hide PriceAt, PnlPct, Times;
    PnlVersusPrice(entry, peak, pct);
    PnlVersusPrice(entry, peak, 10.0);
    assert peak == PriceAt(entry, pct);
    TenPercentUp(entry);
    PriceScales(entry, if floor.Some? then floor.value else 0.0, pct, if trail.Some? then -trail.value else 0.0);
    if floor.Some? && trail.Some? {
      ScaledMax(entry, PriceAt(1.0, floor.value), PriceAt(PriceAt(1.0, pct), -trail.value));
    }
  }

  lemma TenPercentUp(entry: real)
    requires 0.0 < entry
    ensures PriceAt(entry, 10.0) > 0.0
  {}

  lemma ScaledMax(x: real, y: real, z: real)
    requires 0.0 < x
    ensures Max(Times(x, y), Times(x, z)) == Times(x, Max(y, z))
  {
    if y <= z { Product(x, y, z); } else { Product(x, z, y); }
  }

  lemma PriceScales(entry: real, lock: real, pct: real, trail: real)
    ensures PriceAt(entry, lock) == Times(entry, PriceAt(1.0, lock))
    ensures PriceAt(PriceAt(entry, pct), trail) == Times(entry, PriceAt(PriceAt(1.0, pct), trail))
  {
    var kept, rate := 1.0 + trail / 100.0, 1.0 + pct / 100.0;
    assert PriceAt(PriceAt(entry, pct), trail) == (entry * rate) * kept == entry * (rate * kept);
  }

  lemma Product(x: real, y: real, z: real)
    requires 0.0 < x && y <= z
    ensures Times(x, y) <= Times(x, z)
  {}

  lemma ScaledAtMost(entry: real, x: Option<real>, y: Option<real>)
    requires 0.0 < entry && AtMost(x, y)
    ensures AtMost(Scaled(entry, x), Scaled(entry, y))
  {
    if x.Some? { Product(entry, x.value, y.value); }
  }

  lemma GainGrows(entry: real, p: real, q: real)
    requires 0.0 < entry && p <= q
    ensures PnlPct(entry, p) <= PnlPct(entry, q)
  {
    PnlVersusPrice(entry, p, PnlPct(entry, q));
    PnlVersusPrice(entry, q, PnlPct(entry, q));
  }

  // ---------- climbing from threshold to threshold ----------

  /** Between thresholds floor and trailing distance stay what they are. */
  lemma SameStage(c: Settings, low: real, high: real)
    requires low <= high && forall t <- Thresholds(c) :: !(low < t < high)
    ensures low < high ==> FloorPct(c, low) == FloorBelow(c, high) && Active(TrailPct(c, low)) == TrailBelow(c, high)
    ensures high !in Thresholds(c) ==>
              FloorBelow(c, high) == FloorPct(c, high) && TrailBelow(c, high) == Active(TrailPct(c, high))
  {
    var ts := Thresholds(c);
    assert ts[0] in ts && ts[1] in ts && ts[2] in ts && ts[3] in ts && ts[4] in ts && ts[5] in ts && ts[6] in ts;
  }

  /** Within a stage the level grows with the peak. */
  lemma WithinStage(c: Settings, low: real, high: real)
    requires low <= high
    ensures AtMost(Level(FloorBelow(c, high), TrailBelow(c, high), low),
                   Level(FloorBelow(c, high), TrailBelow(c, high), high))
  {
    var trail := TrailBelow(c, high);
    if trail.Some? { TrailGrows(low, high, trail.value); }
    hide PriceAt;
  }

  lemma KeptShare(peak: real, trail: real, kept: real)
    requires kept == 1.0 - trail / 100.0
    ensures PriceAt(peak, -trail) == Times(kept, peak)
  {}

  lemma NothingKept(p: real, q: real)
    ensures Times(0.0, p) == Times(0.0, q)
  {}

  lemma TrailGrows(low: real, high: real, trail: real)
    requires low <= high && trail <= 100.0
    ensures PriceAt(PriceAt(1.0, low), -trail) <= PriceAt(PriceAt(1.0, high), -trail)
  {
    var p, q, kept := PriceAt(1.0, low), PriceAt(1.0, high), 1.0 - trail / 100.0;
    assert p <= q && 0.0 <= kept;
    KeptShare(p, trail, kept);
    KeptShare(q, trail, kept);
    hide PriceAt, Times;
    if kept > 0.0 { Product(kept, p, q); } else { NothingKept(p, q); }
  }

  /** The first threshold in `low < t <= high`. */
  function Next(ts: seq<real>, low: real, high: real): (next: Option<real>)
    ensures next.Some? ==> next.value in ts && low < next.value <= high && forall t <- ts :: !(low < t < next.value)
    ensures next.None? ==> forall t <- ts :: !(low < t <= high)
  {
    if ts == [] then None else
    assert ts == [ts[0]] + ts[1..];
    var rest := Next(ts[1..], low, high);
    if low < ts[0] <= high && (rest.None? || ts[0] < rest.value) then Some(ts[0]) else rest
  }

  function Between(ts: seq<real>, low: real, high: real): nat {
    if ts == [] then 0 else (if low < ts[0] <= high then 1 else 0) + Between(ts[1..], low, high)
  }

  lemma {:induction false} FewerBetween(ts: seq<real>, low: real, t: real, high: real)
    requires low < t <= high
    ensures Between(ts, t, high) <= Between(ts, low, high)
    ensures t in ts ==> Between(ts, t, high) < Between(ts, low, high)
    decreases |ts|
  {
    if ts != [] {
      FewerBetween(ts[1..], low, t, high);
      assert ts == [ts[0]] + ts[1..];
    }
  }

  lemma {:induction false} LevelsClimb(c: Settings, low: real, high: real)
    requires low <= high
    requires forall pct <- Thresholds(c) :: HandsOver(c, pct)
    ensures AtMost(LevelAt(c, low), LevelAt(c, high))
    decreases Between(Thresholds(c), low, high)
  {
    if low < high {
      var next := Next(Thresholds(c), low, high);
      var t := if next.Some? then next.value else high;
      SameStage(c, low, t);
      WithinStage(c, low, t);
      hide Level, FloorPct, TrailPct, FloorBelow, TrailBelow, Thresholds;
      if next.Some? {
        assert HandsOver(c, t);
        FewerBetween(Thresholds(c), low, t, high);
        LevelsClimb(c, t, high);
      }
    }
  }

  // ---------- a failing threshold ----------

  /** The last threshold below `high`, or any smaller number. */
  function Previous(ts: seq<real>, high: real): (low: real)
    ensures low < high && forall t <- ts :: !(low < t < high)
  {
    if ts == [] then high - 1.0 else
    assert ts == [ts[0]] + ts[1..];
    var rest := Previous(ts[1..], high);
    if rest < ts[0] < high then ts[0] else rest
  }

  /** Without a handover some peak just below the threshold carries a higher level than the threshold itself. */
  lemma {:induction false} LevelFallsAt(c: Settings, pct: real)
    requires pct in Thresholds(c) && !HandsOver(c, pct)
    ensures !Ratchets(c)
  {
    var low := Previous(Thresholds(c), pct);
    var floor, trail := FloorBelow(c, pct), TrailBelow(c, pct);
    var after := LevelAt(c, pct);
    var gain := low;
    if after.Some? && !(floor.Some? && PriceAt(1.0, floor.value) > after.value) {
      gain := GainStillAbove(low, pct, trail.value, after.value);
    }
    SameStage(c, gain, pct);
    assert !AtMost(LevelAt(c, gain), after);
    FallsAtOne(c, gain, pct);
  }

  lemma FallsAtOne(c: Settings, low: real, high: real)
    requires low <= high && !AtMost(LevelAt(c, low), LevelAt(c, high))
    ensures !Ratchets(c)
  {
    var p, q := PriceAt(1.0, low), PriceAt(1.0, high);
    LevelScales(c, 1.0, p);
    LevelScales(c, 1.0, q);
    assert PnlPct(1.0, p) == low && PnlPct(1.0, q) == high;
    hide ActiveStopLevel, LevelAt;
    assert !AtMost(ActiveStopLevel(c, 1.0, p), ActiveStopLevel(c, 1.0, q));
  }

  lemma GainStillAbove(low: real, high: real, trail: real, level: real) returns (gain: real)
    requires low < high && trail <= 100.0 && PriceAt(PriceAt(1.0, high), -trail) > level
    ensures low <= gain < high && PriceAt(PriceAt(1.0, gain), -trail) > level
  {
    var kept := 1.0 - trail / 100.0;
    assert PriceAt(PriceAt(1.0, high), -trail) == PriceAt(1.0, high) * kept;
    var p := PeakStillAbove(PriceAt(1.0, low), PriceAt(1.0, high), kept, level);
    gain := (p - 1.0) * 100.0;
    assert PriceAt(1.0, gain) == p;
    assert PriceAt(p, -trail) == p * kept;
  }

  lemma PeakStillAbove(low: real, high: real, kept: real, level: real) returns (p: real)
    requires low < high && 0.0 <= kept && high * kept > level
    ensures low <= p < high && p * kept > level
  {
    if kept == 0.0 { return low; }
    var least := level / kept;
    QuotientTimesDivisor(level, kept);
    assert (high - least) * kept > 0.0;
    SignOfFactor(high - least, kept);
    p := if least < low then low else (least + high) / 2.0;
    assert (p - least) * kept > 0.0;
  }

  /** The default settings pass the test. */
  lemma DefaultsHandOver()
    ensures TrailsWithinPeak(DEFAULTS) && forall pct <- Thresholds(DEFAULTS) :: HandsOver(DEFAULTS, pct)
  {}

  /** Then between any two moments of any run the price at which floor and trailing close everything never
      loosens. */
  lemma {:induction false} StopNeverLoosens(c: Settings, h: History, actions: seq<Action>)
    requires forall pct <- Thresholds(c) :: HandsOver(c, pct)
    requires h.state.row.terms.entryPrice > 0.0
    ensures var entry, before, after := h.state.row.terms.entryPrice, h.state.row.marks.peakPrice,
                                        Run(c, h, actions).state.row.marks.peakPrice;
            && AtMost(ActiveStopLevel(c, entry, before), ActiveStopLevel(c, entry, after))
            && (TrailsWithinPeak(c) ==> AtMost(StopLevel(c, entry, before), StopLevel(c, entry, after)))
  {
    hide StopLevel, ActiveStopLevel, Run, HandsOver, Thresholds;
    PeakIsHighestRealPrice(c, h, actions);
    HighestDominates(h.state.row.marks.peakPrice, RealPrices(c, h.state, actions));
    RatchetsExactlyWhenStagesHandOver(c);
    ActiveLevelIsExact(c, h.state.row.terms.entryPrice, h.state.row.marks.peakPrice, 0.0);
    ActiveLevelIsExact(c, h.state.row.terms.entryPrice, Run(c, h, actions).state.row.marks.peakPrice, 0.0);
  }
}
