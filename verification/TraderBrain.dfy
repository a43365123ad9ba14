/** The short-lived market memory and entry classifier (backend/app/scanners/trader_brain.py). */
module TraderBrain {
  import opened Outcomes
  import opened Reals

  const MAX_OBSERVATIONS := 64
  const MAX_HISTORY_SECONDS := 180.0
  const MIN_OBSERVATIONS := 3

  /** The fields of a snapshot that decisions read. */
  datatype Observation = Observation(timestamp: real, marketCap: real, pressure: real, ratio: real, velocity: real)

  datatype Phase = WarmingUp | Extended | Reclaim | Pullback | Breakout | Trending | Distribution | Accumulation | Watch

  datatype Verdict = Verdict(phase: Phase, enter: bool)

  function PctChange(earlier: real, later: real): real {
    if earlier <= 0.0 then 0.0 else (later - earlier) / earlier * 100.0
  }

  function Caps(xs: seq<Observation>): seq<real> { seq(|xs|, i requires 0 <= i < |xs| => xs[i].marketCap) }

  function Lowest(xs: seq<real>): (low: real)
    requires xs != []
    ensures low in xs && forall x <- xs :: low <= x
  {
    if |xs| == 1 then xs[0]
    else
      var rest := Lowest(xs[1..]);
      assert xs == [xs[0]] + xs[1..];
      if xs[0] < rest then xs[0] else rest
  }

  function Highest(xs: seq<real>): (high: real)
    requires xs != []
    ensures high in xs && forall x <- xs :: x <= high
  {
    if |xs| == 1 then xs[0]
    else
      var rest := Highest(xs[1..]);
      assert xs == [xs[0]] + xs[1..];
      if xs[0] > rest then xs[0] else rest
  }

  function RangePct(xs: seq<real>): real
    requires xs != []
  {
    if Lowest(xs) <= 0.0 then 0.0 else (Highest(xs) - Lowest(xs)) / Lowest(xs) * 100.0
  }

  function RisingSteps(xs: seq<real>): nat {
    if |xs| < 2 then 0 else (if xs[1] > xs[0] then 1 else 0) + RisingSteps(xs[1..])
  }

  /** Everything `_classify` reads: the window, the peak and the running pullback low. */
  datatype Chart = Chart(window: seq<Observation>, peak: real, pullbackLow: real, pullbackStart: real)

  function Current(c: Chart): Observation
    requires c.window != []
  {
    c.window[|c.window| - 1]
  }

  function FromPeak(c: Chart): real
    requires c.window != []
  {
    PctChange(Max(c.peak, Current(c).marketCap), Current(c).marketCap)
  }

  /** The anti-chase veto. */
  predicate Exhausted(c: Chart)
    requires |c.window| >= MIN_OBSERVATIONS
  {
    var current, previous := Current(c), c.window[|c.window| - 2];
    && PctChange(Lowest(Caps(Tail(c.window, 8))), current.marketCap) >= 25.0
    && PctChange(previous.marketCap, current.marketCap) >= 10.0
    && Abs(FromPeak(c)) <= 8.0
    && (current.pressure < 0.58 || current.pressure - previous.pressure <= -0.08
        || current.ratio - previous.ratio <= -0.50)
  }

  predicate InPullback(c: Chart)
    requires c.window != []
  {
    4.0 <= -FromPeak(c) <= 22.0
  }

  function PriorHigh(c: Chart): real
    requires |c.window| >= MIN_OBSERVATIONS
  {
    Highest(Caps(c.window[..|c.window| - 1]))
  }

  predicate IsBreakout(c: Chart)
    requires |c.window| >= MIN_OBSERVATIONS
  {
    var current, previous := Current(c), c.window[|c.window| - 2];
    && 1.5 <= PctChange(PriorHigh(c), current.marketCap) <= 18.0
    && current.pressure >= 0.60 && current.ratio >= 1.25 && current.velocity >= 0.004
    && PctChange(previous.marketCap, current.marketCap) <= 18.0
  }

  predicate IsMomentum(c: Chart)
    requires |c.window| >= MIN_OBSERVATIONS
  {
    var current, previous := Current(c), c.window[|c.window| - 2];
    && RisingSteps(Caps(Tail(c.window, 4))) >= 2 && current.marketCap > previous.marketCap
    && current.pressure >= 0.60 && current.ratio >= 1.30 && current.velocity >= 0.005
    && PctChange(previous.marketCap, current.marketCap) <= 15.0
    && PctChange(Lowest(Caps(Tail(c.window, 8))), current.marketCap) <= 22.0
    && RangePct(Caps(Tail(c.window, 8))) >= 2.0
    && -FromPeak(c) < 4.0
  }

  predicate IsReclaim(c: Chart, low: real)
    requires |c.window| >= MIN_OBSERVATIONS
  {
    var current := Current(c);
    && PctChange(low, current.marketCap) >= 2.5
    && current.pressure >= 0.58 && current.ratio >= 1.20 && current.velocity >= 0.004
    && (if PriorHigh(c) > 0.0 then current.marketCap / PriorHigh(c) * 100.0 else 0.0) >= 85.0
  }

  /** The chart as `_classify` leaves it: a pullback tracks its low, a breakout forgets it. */
  function Marked(c: Chart): Chart {
    if |c.window| < MIN_OBSERVATIONS || Exhausted(c) then c
    else if InPullback(c) then
      if c.pullbackLow <= 0.0 || Current(c).marketCap < c.pullbackLow
      then c.(pullbackLow := Current(c).marketCap, pullbackStart := Current(c).timestamp) else c
    else if IsBreakout(c) then c.(pullbackLow := 0.0)
    else c
  }

  function Classify(c: Chart): Verdict {
    if |c.window| < MIN_OBSERVATIONS then Verdict(WarmingUp, false)
    else if Exhausted(c) then Verdict(Extended, false)
    else if InPullback(c) then
      if IsReclaim(c, Marked(c).pullbackLow) then Verdict(Reclaim, true) else Verdict(Pullback, false)
    else if IsBreakout(c) then Verdict(Breakout, true)
    else if IsMomentum(c) then Verdict(Trending, true)
    else
      var current, previous, range := Current(c), c.window[|c.window| - 2], RangePct(Caps(Tail(c.window, 8)));
      if current.marketCap > previous.marketCap && current.pressure >= 0.58 && current.ratio >= 1.15 && range <= 22.0
      then Verdict(Trending, false)
      else if Abs(FromPeak(c)) <= 8.0 && (current.pressure < 0.55 || current.ratio < 1.0)
      then Verdict(Distribution, false)
      else if range <= 12.0 && current.pressure >= 0.58 then Verdict(Accumulation, false)
      else Verdict(Watch, false)
  }

  /** Classifying again changes neither the verdict nor the chart, although the first time may have moved the
      pullback fields. */
  lemma {:induction false} ClassifyTwice(c: Chart)
    ensures Marked(Marked(c)) == Marked(c) && Classify(Marked(c)) == Classify(c)
  {
    SameWindowSamePeak(c, Marked(c));
    hide PctChange, RangePct, Lowest, Highest, RisingSteps, Exhausted, InPullback, IsBreakout,
         IsMomentum, IsReclaim, FromPeak, PriorHigh;
  }

  lemma SameWindowSamePeak(c: Chart, d: Chart)
    requires c.window == d.window && c.peak == d.peak
    ensures c.window != [] ==> FromPeak(c) == FromPeak(d) && InPullback(c) == InPullback(d)
    ensures |c.window| >= MIN_OBSERVATIONS ==>
              && Exhausted(c) == Exhausted(d) && IsBreakout(c) == IsBreakout(d) && IsMomentum(c) == IsMomentum(d)
              && PriorHigh(c) == PriorHigh(d) && forall low :: IsReclaim(c, low) == IsReclaim(d, low)
  {
    hide PctChange, RangePct, Lowest, Highest, RisingSteps;
  }

  /** Every entry rests on at least three observations, no exhaustion and a floor under each demand measure. */
  lemma {:induction false} EntryNeedsDemand(c: Chart)
    requires Classify(c).enter
    ensures |c.window| >= MIN_OBSERVATIONS && !Exhausted(c)
    ensures Current(c).pressure >= 0.58 && Current(c).ratio >= 1.20 && Current(c).velocity >= 0.004
    ensures Classify(c).phase != Reclaim ==> PctChange(c.window[|c.window| - 2].marketCap, Current(c).marketCap) <= 18.0
  {
    hide PctChange, RangePct, Lowest, Highest, RisingSteps;
  }

  ghost predicate PositiveCaps(xs: seq<Observation>) { forall x <- xs :: x.marketCap > 0.0 }

  // ---------- entries on a falling snapshot ----------

  lemma PctVersusRatio(earlier: real, later: real, pct: real)
    requires earlier > 0.0
    ensures PctChange(earlier, later) >= pct <==> later >= earlier * (1.0 + pct / 100.0)
    ensures PctChange(earlier, later) <= pct <==> later <= earlier * (1.0 + pct / 100.0)
  {}

  lemma ShareVersusRatio(part: real, whole: real, pct: real)
    requires whole > 0.0
    ensures part / whole * 100.0 >= pct <==> part >= whole * (pct / 100.0)
  {}

  lemma PriorHighIsPriorCap(c: Chart)
    requires |c.window| >= MIN_OBSERVATIONS && forall x <- c.window :: x.marketCap > 0.0
    ensures PriorHigh(c) >= c.window[|c.window| - 2].marketCap > 0.0
  {
    var caps := Caps(c.window[..|c.window| - 1]);
    assert caps[|c.window| - 2] == c.window[|c.window| - 2].marketCap && caps[|c.window| - 2] in caps;
    assert c.window[|c.window| - 2] in c.window;
  }

  /** The band of a pullback and the test of a reclaim as bounds on the cap. */
  lemma PullbackBand(c: Chart)
    requires c.window != [] && Current(c).marketCap > 0.0
    ensures var cap, peak := Current(c).marketCap, Max(c.peak, Current(c).marketCap);
            InPullback(c) <==> peak * 0.78 <= cap <= peak * 0.96
  {
    var cap, peak := Current(c).marketCap, Max(c.peak, Current(c).marketCap);
    PctVersusRatio(peak, cap, -4.0);
    PctVersusRatio(peak, cap, -22.0);
    hide PctChange;
  }

  lemma ReclaimBounds(c: Chart, low: real)
    requires |c.window| >= MIN_OBSERVATIONS && PriorHigh(c) > 0.0 && low > 0.0
    ensures var x := Current(c);
            IsReclaim(c, low) <==>
              && x.pressure >= 0.58 && x.ratio >= 1.20 && x.velocity >= 0.004
              && x.marketCap >= low * 1.025 && x.marketCap >= PriorHigh(c) * 0.85
  {
    ShareVersusRatio(Current(c).marketCap, PriorHigh(c), 85.0);
    PctVersusRatio(low, Current(c).marketCap, 2.5);
    hide PctChange, PriorHigh;
  }

  lemma FallingIsNoRise(c: Chart)
    requires |c.window| >= MIN_OBSERVATIONS && Current(c).marketCap > 0.0
    requires Current(c).marketCap < c.window[|c.window| - 2].marketCap <= PriorHigh(c)
    ensures !Exhausted(c) && !IsBreakout(c) && !IsMomentum(c)
  {
    PctVersusRatio(c.window[|c.window| - 2].marketCap, Current(c).marketCap, 10.0);
    PctVersusRatio(PriorHigh(c), Current(c).marketCap, 1.5);
    hide PctChange, PriorHigh, RangePct, Lowest, Highest, RisingSteps, Caps, Tail;
  }

  /** A snapshot below its predecessor can only be entered as a reclaim, and is exactly when demand meets the
      reclaim floors, the cap is 4 to 22 percent off the peak and within 85 percent of the prior high, and the
      stored pullback low lies at least 2.5 percent deeper: a low that an earlier dip left behind. */
  lemma {:induction false} FallingEntryIff(c: Chart)
    requires |c.window| >= MIN_OBSERVATIONS && forall x <- c.window :: x.marketCap > 0.0
    requires Current(c).marketCap < c.window[|c.window| - 2].marketCap
    ensures var x := Current(c); var peak := Max(c.peak, x.marketCap);
            && (Classify(c).enter ==> Classify(c).phase == Reclaim)
            && (Classify(c).enter <==>
                  && x.pressure >= 0.58 && x.ratio >= 1.20 && x.velocity >= 0.004
                  && peak * 0.78 <= x.marketCap <= peak * 0.96 && x.marketCap >= PriorHigh(c) * 0.85
                  && 0.0 < c.pullbackLow && x.marketCap >= c.pullbackLow * 1.025)
  {
    assert Current(c) in c.window;
    PriorHighIsPriorCap(c);
    FallingIsNoRise(c);
    PullbackBand(c);
    var cap, low := Current(c).marketCap, c.pullbackLow;
    ReclaimBounds(c, if low <= 0.0 || cap < low then cap else low);
    hide PctChange, PriorHigh, RangePct, Exhausted, InPullback, IsReclaim, IsBreakout, IsMomentum, Caps, Tail;
  }

  /** The same chart with a stronger last reading. */
  function Stronger(c: Chart, pressure: real, ratio: real, velocity: real): Chart
    requires c.window != []
  {
    var x := Current(c).(pressure := pressure, ratio := ratio, velocity := velocity);
    c.(window := c.window[|c.window| - 1 := x])
  }

  /** More buying pressure, a better ratio or more velocity never turns an entry into a wait. */
  lemma {:induction false} DemandNeverHurts(c: Chart, pressure: real, ratio: real, velocity: real)
    requires c.window != [] && Classify(c).enter
    requires pressure >= Current(c).pressure && ratio >= Current(c).ratio && velocity >= Current(c).velocity
    ensures Classify(Stronger(c, pressure, ratio, velocity)).enter
  {
    StrongerReadings(c, pressure, ratio, velocity);
    hide PctChange, Lowest, Highest, RisingSteps, RangePct, Caps, Tail, Stronger,
         Exhausted, InPullback, IsBreakout, IsMomentum, IsReclaim;
  }

  /** A stronger last reading leaves everything that is computed from caps as it is. */
  lemma {:induction false} StrongerKeepsCaps(c: Chart, pressure: real, ratio: real, velocity: real)
    requires |c.window| >= MIN_OBSERVATIONS
    ensures var d := Stronger(c, pressure, ratio, velocity);
            && |d.window| == |c.window| && d.peak == c.peak && d.pullbackLow == c.pullbackLow
            && Current(d).marketCap == Current(c).marketCap && FromPeak(d) == FromPeak(c)
            && d.window[|d.window| - 2] == c.window[|c.window| - 2] && PriorHigh(d) == PriorHigh(c)
            && Caps(Tail(d.window, 8)) == Caps(Tail(c.window, 8)) && Caps(Tail(d.window, 4)) == Caps(Tail(c.window, 4))
  {
    var d := Stronger(c, pressure, ratio, velocity);
    hide PctChange, Highest, Caps, Tail;
    assert d.window[..|d.window| - 1] == c.window[..|c.window| - 1];
    SameCaps(c.window, d.window, 8);
    SameCaps(c.window, d.window, 4);
  }

  lemma SameCaps(xs: seq<Observation>, ys: seq<Observation>, n: nat)
    requires |xs| == |ys| && forall i :: 0 <= i < |xs| ==> xs[i].marketCap == ys[i].marketCap
    ensures Caps(Tail(xs, n)) == Caps(Tail(ys, n))
  {}

  lemma {:induction false} StrongerReadings(c: Chart, pressure: real, ratio: real, velocity: real)
    requires |c.window| >= MIN_OBSERVATIONS
    requires pressure >= Current(c).pressure && ratio >= Current(c).ratio && velocity >= Current(c).velocity
    ensures var d := Stronger(c, pressure, ratio, velocity);
            && |d.window| == |c.window| && d.pullbackLow == c.pullbackLow
            && Current(d).marketCap == Current(c).marketCap
            && (Exhausted(d) ==> Exhausted(c)) && InPullback(d) == InPullback(c)
            && (IsBreakout(c) ==> IsBreakout(d)) && (IsMomentum(c) ==> IsMomentum(d))
            && forall low :: IsReclaim(c, low) ==> IsReclaim(d, low)
  {
    hide PctChange, Lowest, Highest, RisingSteps, RangePct, Caps, Tail, PriorHigh, FromPeak;
    StrongerKeepsCaps(c, pressure, ratio, velocity);
  }

  // ---------- the window over all accepted snapshots ----------

  /** The longest suffix of the history that fits the window at time `now`. */
  ghost predicate IsWindow(window: seq<Observation>, history: seq<Observation>, now: real) {
    && Fits(window, history, now)
    && NothingLonger(|window|, history, now)
  }

  ghost predicate Fits(window: seq<Observation>, history: seq<Observation>, now: real) {
    && window == Tail(history, |window|)
    && |window| <= 64 && forall x <- window :: x.timestamp >= now - 180.0
  }

  ghost predicate NothingLonger(m: nat, history: seq<Observation>, now: real) {
    forall n :: m < n <= |history| ==> !Fits(Tail(history, n), history, now)
  }

  ghost predicate Chronological(history: seq<Observation>) {
    forall i, j :: 0 <= i < j < |history| ==> history[i].timestamp <= history[j].timestamp
  }

  /** After one more snapshot nothing longer than the old window plus that snapshot fits. */
  lemma {:induction false} AppendKeepsLongest(window: seq<Observation>, history: seq<Observation>, x: Observation)
    requires Chronological(history + [x])
    requires if history == [] then window == [] else IsWindow(window, history, history[|history| - 1].timestamp)
    ensures window + [x] == Tail(history + [x], |window| + 1)
    ensures NothingLonger(|window| + 1, history + [x], x.timestamp)
  {
    var longer := history + [x];
    forall n | |window| + 1 < n <= |longer|
      ensures !Fits(Tail(longer, n), longer, x.timestamp)
    {
      if Fits(Tail(longer, n), longer, x.timestamp) { ShorterAlsoFits(history, x, n); }
    }
  }

  lemma {:induction false} ShorterAlsoFits(history: seq<Observation>, x: Observation, n: nat)
    requires Chronological(history + [x]) && 1 < n <= |history| + 1
    requires Fits(Tail(history + [x], n), history + [x], x.timestamp)
    ensures Fits(Tail(history, n - 1), history, history[|history| - 1].timestamp)
  {
    var longer, before := history + [x], Tail(history, n - 1);
    assert Tail(longer, n) == before + [x];
    assert longer[|history| - 1] == history[|history| - 1] && longer[|history|] == x;
    assert forall y <- before :: y in Tail(longer, n);
  }

  lemma {:induction false} ChronologicalAppend(history: seq<Observation>, x: Observation)
    requires Chronological(history) && (history != [] ==> history[|history| - 1].timestamp <= x.timestamp)
    ensures Chronological(history + [x])
  {}

  /** The deque's own bound: a window one too long cannot fit. */
  lemma {:induction false} BoundIsRespected(m: nat, history: seq<Observation>, now: real)
    requires NothingLonger(m, history, now) && m <= |history|
    ensures NothingLonger(if m <= MAX_OBSERVATIONS then m else MAX_OBSERVATIONS, history, now)
  {}

  function DroppingStale(xs: seq<Observation>, cutoff: real): seq<Observation> {
    if xs == [] || xs[0].timestamp >= cutoff then xs else DroppingStale(xs[1..], cutoff)
  }

  /** The window after one more snapshot. */
  function Slid(earlier: seq<Observation>, x: Observation): seq<Observation> {
    DroppingStale(Tail(earlier + [x], MAX_OBSERVATIONS), x.timestamp - MAX_HISTORY_SECONDS)
  }

  /** The deque's update: append, let the oldest fall out of a full deque, drop what is too old. */
  method Slide(earlier: seq<Observation>, x: Observation, ghost history: seq<Observation>)
    returns (window: seq<Observation>)
    requires Chronological(history + [x])
    requires if history == [] then earlier == [] else IsWindow(earlier, history, history[|history| - 1].timestamp)
    ensures window == Slid(earlier, x)
    ensures window != [] && IsWindow(window, history + [x], x.timestamp)
  {
    hide Fits;
    ghost var longer := history + [x];
    WindowIsShorter(earlier, history);
    AppendKeepsLongest(earlier, history, x);
    BoundIsRespected(|earlier| + 1, longer, x.timestamp);
    window := Tail(earlier + [x], MAX_OBSERVATIONS);
    while window != [] && window[0].timestamp < x.timestamp - MAX_HISTORY_SECONDS
      invariant DroppingStale(window, x.timestamp - MAX_HISTORY_SECONDS) == Slid(earlier, x)
      invariant window == Tail(longer, |window|) && 0 < |window| <= MAX_OBSERVATIONS && |window| <= |longer|
      invariant NothingLonger(|window|, longer, x.timestamp)
    {
      DropStale(window, longer, x.timestamp);
      window := window[1..];
    }
    RestIsFresh(window, longer, x.timestamp);
  }

  lemma WindowIsShorter(window: seq<Observation>, history: seq<Observation>)
    requires if history == [] then window == [] else IsWindow(window, history, history[|history| - 1].timestamp)
    ensures |window| <= |history|
  {}

  // ---------- the pullback low over all accepted snapshots ----------

  /** The chart with one more snapshot, not yet classified. */
  function Seeing(c: Chart, x: Observation): Chart {
    c.(window := Slid(c.window, x), peak := if x.marketCap >= c.peak then x.marketCap else c.peak)
  }

  /** The chart after all snapshots of a run. */
  function Play(history: seq<Observation>): Chart {
    if history == [] then Chart([], 0.0, 0.0, 0.0)
    else Marked(Seeing(Play(history[..|history| - 1]), history[|history| - 1]))
  }

  /** The verdict on the last snapshot of a run. */
  function LastVerdict(history: seq<Observation>): Verdict
    requires history != []
  {
    Classify(Seeing(Play(history[..|history| - 1]), history[|history| - 1]))
  }

  lemma PlayMore(history: seq<Observation>, x: Observation)
    ensures Play(history + [x]) == Marked(Seeing(Play(history), x))
    ensures LastVerdict(history + [x]) == Classify(Seeing(Play(history), x))
  {
    assert (history + [x])[..|history|] == history;
  }

  /** The snapshots judged to be in a pullback, reclaims included, since the last breakout. */
  function Dips(history: seq<Observation>): seq<Observation> {
    if history == [] || LastVerdict(history).phase == Breakout then []
    else
      var phase := LastVerdict(history).phase;
      Dips(history[..|history| - 1]) + if phase == Pullback || phase == Reclaim then [history[|history| - 1]] else []
  }

  /** `low` is the least cap of `dips`; 0 stands for none. */
  ghost predicate LeastDip(dips: seq<Observation>, low: real) {
    PositiveCaps(dips) && low == if dips == [] then 0.0 else Lowest(Caps(dips))
  }

  /** The low from which a reclaim is measured is, after every run, the least cap of those snapshots. Only a
      breakout forgets it: recovering to the old high does not. */
  lemma {:induction false} PullbackLowIsLeastDip(history: seq<Observation>)
    requires PositiveCaps(history)
    ensures LeastDip(Dips(history), Play(history).pullbackLow)
    decreases |history|
  {
    hide Classify, Marked, LeastDip, Slid, Lowest;
    NoDips();
    if history != [] {
      var before, x := history[..|history| - 1], history[|history| - 1];
      PullbackLowIsLeastDip(before);
      PhaseMarks(Seeing(Play(before), x));
      SlidEndsWith(Play(before).window, x);
      AddDip(Dips(before), Play(before).pullbackLow, x);
    }
  }

  lemma NoDips()
    ensures LeastDip([], 0.0)
  {}

  lemma {:induction false} AddDip(dips: seq<Observation>, low: real, x: Observation)
    requires LeastDip(dips, low) && x.marketCap > 0.0
    ensures LeastDip(dips + [x], if low <= 0.0 || x.marketCap < low then x.marketCap else low)
    ensures dips + [] == dips
  {
    assert Caps(dips + [x]) == Caps(dips) + [x.marketCap];
    LowestOfMore(Caps(dips), x.marketCap);
    if dips != [] { LowestIsPositive(dips); }
    hide Lowest;
  }

  lemma {:induction false} SlidEndsWith(earlier: seq<Observation>, x: Observation)
    ensures var window := Slid(earlier, x); window != [] && window[|window| - 1] == x
  {
    DroppingKeepsLast(Tail(earlier + [x], MAX_OBSERVATIONS), x.timestamp - MAX_HISTORY_SECONDS);
  }

  lemma {:induction false} DroppingKeepsLast(xs: seq<Observation>, cutoff: real)
    requires xs != [] && xs[|xs| - 1].timestamp >= cutoff
    ensures var rest := DroppingStale(xs, cutoff); rest != [] && rest[|rest| - 1] == xs[|xs| - 1]
    decreases |xs|
  {
    if xs[0].timestamp < cutoff { DroppingKeepsLast(xs[1..], cutoff); }
  }

  lemma {:induction false} LowestOfMore(xs: seq<real>, x: real)
    ensures Lowest(xs + [x]) == if xs == [] || x < Lowest(xs) then x else Lowest(xs)
  {
    assert x in xs + [x] && forall y <- xs :: y in xs + [x];
    hide Lowest;
  }

  lemma LowestIsPositive(xs: seq<Observation>)
    requires xs != [] && PositiveCaps(xs)
    ensures Lowest(Caps(xs)) > 0.0
  {
    var low := Lowest(Caps(xs));
    var i :| 0 <= i < |xs| && Caps(xs)[i] == low;
    assert xs[i] in xs;
  }

  /** What the verdict says about the pullback low that it leaves. */
  lemma PhaseMarks(c: Chart)
    ensures var phase, low := Classify(c).phase, Marked(c).pullbackLow;
            && (phase == Breakout ==> low == 0.0)
            && (phase == Pullback || phase == Reclaim ==>
                  var cap := Current(c).marketCap;
                  low == if c.pullbackLow <= 0.0 || cap < c.pullbackLow then cap else c.pullbackLow)
            && (phase != Breakout && phase != Pullback && phase != Reclaim ==> low == c.pullbackLow)
  {
    hide Exhausted, InPullback, IsBreakout, IsMomentum, IsReclaim, RangePct;
  }

  /** So over every run: a snapshot below its predecessor is entered exactly when demand, band and prior high
      allow a reclaim and some dip since the last breakout was at least 2.5 percent deeper, however long ago. */
  lemma {:induction false} FallingEntryNeedsDeeperDip(history: seq<Observation>)
    requires history != [] && PositiveCaps(history)
    requires var c := Seeing(Play(history[..|history| - 1]), history[|history| - 1]);
             |c.window| >= MIN_OBSERVATIONS && Current(c).marketCap < c.window[|c.window| - 2].marketCap
    ensures var before, x := history[..|history| - 1], history[|history| - 1];
            var c := Seeing(Play(before), x); var peak := Max(c.peak, x.marketCap);
            LastVerdict(history).enter <==>
              && x.pressure >= 0.58 && x.ratio >= 1.20 && x.velocity >= 0.004
              && peak * 0.78 <= x.marketCap <= peak * 0.96 && x.marketCap >= PriorHigh(c) * 0.85
              && exists d <- Dips(before) :: x.marketCap >= d.marketCap * 1.025
  {
    hide Classify, Slid, Play, Dips, LeastDip, PriorHigh;
    var before, x := history[..|history| - 1], history[|history| - 1];
    var c := Seeing(Play(before), x);
    SlidEndsWith(Play(before).window, x);
    WindowIsFromHistory(before);
    SlidKeeps(Play(before).window, x);
    FallingEntryIff(c);
    PullbackLowIsLeastDip(before);
    DeeperDip(Dips(before), Play(before).pullbackLow, x.marketCap);
  }

  lemma {:induction false} DeeperDip(dips: seq<Observation>, low: real, cap: real)
    requires LeastDip(dips, low)
    ensures 0.0 < low && cap >= low * 1.025 <==> exists d <- dips :: cap >= d.marketCap * 1.025
  {
    if dips != [] {
      LowestIsPositive(dips);
      var i :| 0 <= i < |dips| && Caps(dips)[i] == low;
      assert dips[i] in dips;
      forall d <- dips ensures low <= d.marketCap {
        var j :| 0 <= j < |dips| && dips[j] == d;
        assert Caps(dips)[j] == d.marketCap && Caps(dips)[j] in Caps(dips);
      }
    }
  }

  lemma {:induction false} SlidKeeps(earlier: seq<Observation>, x: Observation)
    ensures forall y <- Slid(earlier, x) :: y in earlier || y == x
  {
    DroppingKeeps(Tail(earlier + [x], MAX_OBSERVATIONS), x.timestamp - MAX_HISTORY_SECONDS);
  }

  lemma {:induction false} DroppingKeeps(xs: seq<Observation>, cutoff: real)
    ensures forall y <- DroppingStale(xs, cutoff) :: y in xs
    decreases |xs|
  {
    if xs != [] && xs[0].timestamp < cutoff { DroppingKeeps(xs[1..], cutoff); }
  }

  lemma {:induction false} WindowIsFromHistory(history: seq<Observation>)
    ensures forall y <- Play(history).window :: y in history
    decreases |history|
  {
    if history != [] {
      var before, x := history[..|history| - 1], history[|history| - 1];
      WindowIsFromHistory(before);
      SlidKeeps(Play(before).window, x);
      MarkingKeepsWindow(Seeing(Play(before), x));
      assert history == before + [x];
      hide Marked, Slid;
    }
  }

  lemma SlidWhileYoung(earlier: seq<Observation>, x: Observation)
    requires |earlier| < MAX_OBSERVATIONS && (earlier + [x])[0].timestamp >= x.timestamp - MAX_HISTORY_SECONDS
    ensures Slid(earlier, x) == earlier + [x]
  {}

  function Quiet(time: real, cap: real): Observation { Observation(time, cap, 0.5, 1.0, 0.0) }

  /** Such a run: the cap dips from 106 to 94, is back at 106 without a breakout, and is entered as a reclaim while
      it falls by 4.7 percent in one step, because the bounce is still counted from 94. */
  lemma {:induction false} EntryWhileFalling()
    ensures var history := [Quiet(0.0, 106.0), Quiet(1.0, 106.0), Quiet(2.0, 94.0), Quiet(3.0, 106.0),
                            Observation(4.0, 101.0, 0.7, 2.0, 0.01)];
            LastVerdict(history) == Verdict(Reclaim, true)
  {
    hide PctChange, PriorHigh, Slid, Exhausted, IsMomentum, InPullback, RangePct, Play, LastVerdict;
    var a, b, dip, back := Quiet(0.0, 106.0), Quiet(1.0, 106.0), Quiet(2.0, 94.0), Quiet(3.0, 106.0);
    var last := Observation(4.0, 101.0, 0.7, 2.0, 0.01);
    var c2 := Chart([a, b], 106.0, 0.0, 0.0);
    assert Play([a, b]) == c2 by { PlayTwo(a, b); }
    var c3 := Chart([a, b, dip], 106.0, 94.0, 2.0);
    assert Play([a, b, dip]) == c3 by {
      PlayMore([a, b], dip);
      SlidWhileYoung([a, b], dip);
      var seen := Chart([a, b, dip], 106.0, 0.0, 0.0);
      assert [a, b] + [dip] == [a, b, dip] && Seeing(c2, dip) == seen;
      PriorHighIsPriorCap(seen);
      FallingIsNoRise(seen);
      PullbackBand(seen);
    }
    var c4 := Chart([a, b, dip, back], 106.0, 94.0, 2.0);
    assert Play([a, b, dip, back]) == c4 by {
      PlayMore([a, b, dip], back);
      SlidWhileYoung([a, b, dip], back);
      assert [a, b, dip] + [back] == [a, b, dip, back] && Seeing(c3, back) == c4;
      PullbackBand(c4);
    }
    var c5 := Chart([a, b, dip, back, last], 106.0, 94.0, 2.0);
    PlayMore([a, b, dip, back], last);
    SlidWhileYoung([a, b, dip, back], last);
    assert [a, b, dip, back] + [last] == [a, b, dip, back, last] && Seeing(c4, last) == c5;
    PriorHighIsSomeCap(c5);
    FallingEntryIff(c5);
  }

  lemma PlayTwo(a: Observation, b: Observation)
    requires a.marketCap == b.marketCap > 0.0 && a.timestamp <= b.timestamp <= a.timestamp + MAX_HISTORY_SECONDS
    ensures Play([a, b]) == Chart([a, b], a.marketCap, 0.0, 0.0)
  {
    assert [] + [a] == [a] && [a] + [b] == [a, b];
    PlayMore([], a);
    PlayMore([a], b);
    SlidWhileYoung([], a);
    SlidWhileYoung([a], b);
    hide Slid;
  }

  lemma PriorHighIsSomeCap(c: Chart)
    requires |c.window| >= MIN_OBSERVATIONS
    ensures exists x <- c.window[..|c.window| - 1] :: PriorHigh(c) == x.marketCap
  {
    var prior := c.window[..|c.window| - 1];
    var caps := Caps(prior);
    assert PriorHigh(c) in caps;
    var i :| 0 <= i < |caps| && caps[i] == PriorHigh(c);
    assert prior[i] in prior && caps[i] == prior[i].marketCap;
  }

  class BrainState {
    var chart: Chart
    var last: Verdict
    ghost var history: seq<Observation>   // every snapshot ever accepted

    /** The window is the longest allowed suffix of the history, the peak is above all of it, and the last
        verdict still stands; the whole chart is the one these snapshots lead to. */
    ghost predicate Valid()
      reads this
    {
      && Chronological(history) && chart == Play(history)
      && (if history == [] then chart.window == []
          else IsWindow(chart.window, history, history[|history| - 1].timestamp))
      && (forall x <- history :: x.marketCap <= chart.peak)
      && (history != [] ==> chart.window != [] && last == Classify(chart) && Marked(chart) == chart)
    }

    constructor ()
      ensures Valid() && history == []
    {
      chart, last, history := Chart([], 0.0, 0.0, 0.0), Verdict(WarmingUp, false), [];
    }

    method ClassifyState() returns (v: Verdict)
      modifies this`chart
      ensures v == Classify(old(chart)) && chart == Marked(old(chart))
    {
      v := Classify(chart);
      chart := Marked(chart);
    }

    /** A snapshot without price or market cap is not accepted and changes nothing. */
    method Observe(price: real, snapshot: Observation) returns (v: Option<Verdict>)
      requires Valid() && (history != [] ==> history[|history| - 1].timestamp <= snapshot.timestamp)
      modifies this
      ensures Valid()
      ensures price <= 0.0 || snapshot.marketCap <= 0.0 ==> v == None && history == old(history) && chart == old(chart)
      ensures price > 0.0 && snapshot.marketCap > 0.0 ==>
                && history == old(history) + [snapshot] && v == Some(Classify(chart)) && last == v.value
                && v.value == LastVerdict(history)
                && chart.peak == Max(old(chart.peak), snapshot.marketCap)
    {
      hide IsWindow, Classify, Marked, Chronological, Slid, Play, LastVerdict;
      if price <= 0.0 || snapshot.marketCap <= 0.0 { return None; }
      ghost var longer := history + [snapshot];
      ChronologicalAppend(history, snapshot);
      var window := Slide(chart.window, snapshot, history);
      history := longer;
      chart := chart.(window := window,
                     peak := if snapshot.marketCap >= chart.peak then snapshot.marketCap else chart.peak);
      ghost var seen := chart;
      PlayMore(old(history), snapshot);
      var verdict := ClassifyState();
      ClassifyTwice(seen);
      MarkingKeepsWindow(seen);
      last := verdict;
      v := Some(verdict);
    }

    /** Asking for an entry repeats the verdict of the latest accepted snapshot and changes nothing; only
        without one is the given snapshot observed first, and the request fails when that is not accepted. */
    method EvaluateEntry(price: real, snapshot: Observation) returns (v: Option<Verdict>)
      requires Valid() && (history != [] ==> history[|history| - 1].timestamp <= snapshot.timestamp)
      modifies this
      ensures Valid()
      ensures old(history) != [] ==> v == Some(old(last)) && chart == old(chart) && history == old(history)
      ensures old(history) == [] ==> (v.Some? <==> price > 0.0 && snapshot.marketCap > 0.0)
      ensures old(history) == [] && v.Some? ==> history == [snapshot]
      ensures v.Some? ==> v.value == Classify(chart) == last
    {
      hide Classify, Marked, Play, LastVerdict, IsWindow, Chronological;
      if chart.window == [] {
        v := Observe(price, snapshot);
        if v.None? { return; }
      }
      var verdict := ClassifyState();
      v := Some(verdict);
    }
  }

  lemma MarkingKeepsWindow(c: Chart)
    ensures Marked(c).window == c.window && Marked(c).peak == c.peak
  {}

  /** A window whose oldest entry is stale does not fit; the newest entry is never stale. */
  lemma {:induction false} DropStale(window: seq<Observation>, history: seq<Observation>, now: real)
    requires window == Tail(history, |window|) && NothingLonger(|window|, history, now)
    requires 0 < |window| <= |history| && history[|history| - 1].timestamp == now
    requires window[0].timestamp < now - MAX_HISTORY_SECONDS
    ensures window[1..] == Tail(history, |window| - 1) && window[1..] != []
    ensures NothingLonger(|window| - 1, history, now)
  {}

  lemma {:induction false} RestIsFresh(window: seq<Observation>, history: seq<Observation>, now: real)
    requires window == Tail(history, |window|) && NothingLonger(|window|, history, now) && Chronological(history)
    requires 0 < |window| <= MAX_OBSERVATIONS && |window| <= |history| && history[|history| - 1].timestamp == now
    requires window[0].timestamp >= now - MAX_HISTORY_SECONDS
    ensures IsWindow(window, history, now)
  {}
}
