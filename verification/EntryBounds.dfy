/** The entry classifier told by bounds on single caps and readings, without averages, extremes or percentages of
    them (backend/app/scanners/trader_brain.py, `_classify`). */
module EntryBounds {
  import opened Outcomes
  import opened Reals
  import opened TraderBrain

  /** `pct` percent above `cap`, or below it. */
  function Raised(cap: real, pct: real): real { cap * (1.0 + pct / 100.0) }

  /** All readings of the last snapshot reach their floor. */
  predicate Demand(c: Chart, pressure: real, ratio: real, velocity: real)
    requires c.window != []
  {
    Current(c).pressure >= pressure && Current(c).ratio >= ratio && Current(c).velocity >= velocity
  }

  function Top(c: Chart): real
    requires c.window != []
  {
    Max(c.peak, Current(c).marketCap)
  }

  function Prior(c: Chart): seq<Observation>
    requires c.window != []
  {
    c.window[..|c.window| - 1]
  }

  /** Near the peak after 25 percent from a recent low and 10 percent in one step, on weakening flow. */
  ghost predicate Overextended(c: Chart)
    requires |c.window| >= MIN_OBSERVATIONS
  {
    var x, previous := Current(c), c.window[|c.window| - 2];
    && (exists y <- Tail(c.window, 8) :: x.marketCap >= Raised(y.marketCap, 25.0))
    && x.marketCap >= Raised(previous.marketCap, 10.0) && x.marketCap >= Raised(Top(c), -8.0)
    && (x.pressure < 0.58 || x.pressure <= previous.pressure - 0.08 || x.ratio <= previous.ratio - 0.50)
  }

  predicate InBand(c: Chart)
    requires c.window != []
  {
    Raised(Top(c), -22.0) <= Current(c).marketCap <= Raised(Top(c), -4.0)
  }

  /** 2.5 percent above an older pullback low and at most 15 percent below everything before. */
  ghost predicate Reclaims(c: Chart)
    requires |c.window| >= MIN_OBSERVATIONS
  {
    && Demand(c, 0.58, 1.20, 0.004)
    && 0.0 < c.pullbackLow && Current(c).marketCap >= Raised(c.pullbackLow, 2.5)
    && forall y <- Prior(c) :: Current(c).marketCap >= Raised(y.marketCap, -15.0)
  }

  /** 1.5 percent above everything before, but not 18 percent above all of it nor above the last. */
  ghost predicate BreaksOut(c: Chart)
    requires |c.window| >= MIN_OBSERVATIONS
  {
    var x := Current(c);
    && Demand(c, 0.60, 1.25, 0.004)
    && (forall y <- Prior(c) :: x.marketCap >= Raised(y.marketCap, 1.5))
    && (exists y <- Prior(c) :: x.marketCap <= Raised(y.marketCap, 18.0))
    && x.marketCap <= Raised(c.window[|c.window| - 2].marketCap, 18.0)
  }

  /** The `j`th step from the end went up. */
  predicate Rose(c: Chart, j: nat) {
    0 < j < |c.window| && c.window[|c.window| - j].marketCap > c.window[|c.window| - j - 1].marketCap
  }

  /** Some cap lies `pct` percent or more above another. */
  ghost predicate Spreads(xs: seq<Observation>, pct: real) {
    exists y <- xs, z <- xs :: z.marketCap >= Raised(y.marketCap, pct)
  }

  ghost predicate StaysWithin(xs: seq<Observation>, pct: real) {
    forall y <- xs, z <- xs :: z.marketCap <= Raised(y.marketCap, pct)
  }

  /** Up in the last step and in one of the two before, neither flat nor steep, and less than 4 percent from the
      peak. */
  ghost predicate KeepsClimbing(c: Chart)
    requires |c.window| >= MIN_OBSERVATIONS
  {
    var x, recent := Current(c), Tail(c.window, 8);
    && Rose(c, 1) && (Rose(c, 2) || Rose(c, 3)) && Demand(c, 0.60, 1.30, 0.005)
    && x.marketCap <= Raised(c.window[|c.window| - 2].marketCap, 15.0)
    && (forall y <- recent :: x.marketCap <= Raised(y.marketCap, 22.0))
    && Spreads(recent, 2.0)
    && x.marketCap > Raised(Top(c), -4.0)
  }

  /** Fewer than three snapshots never decide anything. */
  lemma WarmsUpIff(c: Chart)
    ensures Classify(c).phase == WarmingUp <==> |c.window| < 3
    ensures |c.window| < 3 ==> !Classify(c).enter
  {
    hide Exhausted, InPullback, IsReclaim, IsBreakout, IsMomentum, RangePct, FromPeak, Marked;
  }

  /** The exact entry rule, for every chart with three snapshots or more: never when overextended; in the pullback
      band only as a reclaim; outside it only as a breakout or on momentum. */
  lemma {:induction false} EntryIff(c: Chart)
    requires |c.window| >= MIN_OBSERVATIONS && PositiveCaps(c.window)
    ensures Classify(c).enter <==>
              !Overextended(c) && if InBand(c) then Reclaims(c) else BreaksOut(c) || KeepsClimbing(c)
    ensures Classify(c).enter ==>
              Classify(c).phase == if InBand(c) then Reclaim else if BreaksOut(c) then Breakout else Trending
  {
    TestsAreBounds(c);
    hide Exhausted, InPullback, IsReclaim, IsBreakout, IsMomentum, RangePct, FromPeak, Overextended, InBand, Reclaims,
         BreaksOut, KeepsClimbing;
  }

  /** And the exact phase in which it waits otherwise. */
  lemma {:induction false} WaitingPhaseIff(c: Chart)
    requires |c.window| >= MIN_OBSERVATIONS && PositiveCaps(c.window) && !Classify(c).enter
    ensures var x, recent, phase := Current(c), Tail(c.window, 8), Classify(c).phase;
            var climbing := Rose(c, 1) && x.pressure >= 0.58 && x.ratio >= 1.15 && StaysWithin(recent, 22.0);
            var fading := x.marketCap >= Raised(Top(c), -8.0) && (x.pressure < 0.55 || x.ratio < 1.0);
            var gathering := StaysWithin(recent, 12.0) && x.pressure >= 0.58;
            && (phase == Extended <==> Overextended(c))
            && (phase == Pullback <==> !Overextended(c) && InBand(c))
            && (phase != Extended && phase != Pullback ==>
                  && (phase == Trending <==> climbing)
                  && (phase == Distribution <==> !climbing && fading)
                  && (phase == Accumulation <==> !climbing && !fading && gathering)
                  && (phase == Watch <==> !climbing && !fading && !gathering))
  {
    TestsAreBounds(c);
    RangeAsSpread(Tail(c.window, 8), 22.0);
    RangeAsSpread(Tail(c.window, 8), 12.0);
    NearPeak(c);
    hide Exhausted, InPullback, IsReclaim, IsBreakout, IsMomentum, RangePct, FromPeak, Overextended, InBand, Reclaims,
         BreaksOut, KeepsClimbing, Spreads, StaysWithin, Raised;
  }

  lemma {:induction false} TestsAreBounds(c: Chart)
    requires |c.window| >= MIN_OBSERVATIONS && PositiveCaps(c.window)
    ensures var cap, low := Current(c).marketCap, c.pullbackLow;
            && (Exhausted(c) <==> Overextended(c)) && (InPullback(c) <==> InBand(c))
            && (IsReclaim(c, if low <= 0.0 || cap < low then cap else low) <==> Reclaims(c))
            && (IsBreakout(c) <==> BreaksOut(c)) && (IsMomentum(c) <==> KeepsClimbing(c))
            && Tail(c.window, 8) != [] && PositiveCaps(Tail(c.window, 8))
  {
    PartsArePositive(c);
    hide Exhausted, InPullback, IsReclaim, IsBreakout, IsMomentum, Overextended, InBand, Reclaims, BreaksOut,
         KeepsClimbing, Tail, PositiveCaps, Prior, Top;
    ExhaustionBounds(c);
    BandBounds(c);
    ReclaimIsBounded(c);
    BreakoutBounds(c);
    MomentumBounds(c);
  }

  // ---------- percentages of extremes as bounds on all or some ----------

  lemma PartsArePositive(c: Chart)
    requires |c.window| >= MIN_OBSERVATIONS && PositiveCaps(c.window)
    ensures Tail(c.window, 8) != [] && PositiveCaps(Tail(c.window, 8))
    ensures Prior(c) != [] && PositiveCaps(Prior(c)) && c.window[|c.window| - 2] in Prior(c)
    ensures Current(c).marketCap > 0.0 && c.window[|c.window| - 2].marketCap > 0.0 && Top(c) > 0.0
  {
    assert Current(c) in c.window && c.window[|c.window| - 2] in c.window;
    assert Prior(c)[|c.window| - 2] == c.window[|c.window| - 2];
  }

  lemma PctAsRaised(earlier: real, later: real, pct: real)
    requires earlier > 0.0
    ensures PctChange(earlier, later) >= pct <==> later >= Raised(earlier, pct)
    ensures PctChange(earlier, later) <= pct <==> later <= Raised(earlier, pct)
  {
    PctVersusRatio(earlier, later, pct);
  }

  lemma RaisedGrows(x: real, y: real, pct: real)
    requires x <= y && pct >= -100.0
    ensures Raised(x, pct) <= Raised(y, pct)
  {
    var f := 1.0 + pct / 100.0;
    assert 0.0 <= (y - x) * f;
    assert (y - x) * f == y * f - x * f;
  }

  lemma {:induction false} ExtremesAreCaps(xs: seq<Observation>)
    requires xs != [] && PositiveCaps(xs)
    ensures var low, high := Lowest(Caps(xs)), Highest(Caps(xs));
            && (exists y <- xs :: y.marketCap == low) && (exists y <- xs :: y.marketCap == high)
            && (forall y <- xs :: 0.0 < low <= y.marketCap <= high)
  {
    hide Lowest, Highest;
    var caps := Caps(xs);
    assert Lowest(caps) in caps && Highest(caps) in caps;
    var i :| 0 <= i < |caps| && caps[i] == Lowest(caps);
    var j :| 0 <= j < |caps| && caps[j] == Highest(caps);
    assert xs[i] in xs && xs[j] in xs && caps[i] == xs[i].marketCap && caps[j] == xs[j].marketCap;
    forall y <- xs ensures Lowest(caps) <= y.marketCap <= Highest(caps) {
      var k :| 0 <= k < |xs| && xs[k] == y;
      assert caps[k] == y.marketCap && caps[k] in caps;
    }
  }

  lemma {:induction false} AgainstExtremes(xs: seq<Observation>, cap: real, pct: real)
    requires xs != [] && PositiveCaps(xs) && pct >= -100.0
    ensures var low, high := Lowest(Caps(xs)), Highest(Caps(xs));
            && (cap >= Raised(low, pct) <==> exists y <- xs :: cap >= Raised(y.marketCap, pct))
            && (cap <= Raised(low, pct) <==> forall y <- xs :: cap <= Raised(y.marketCap, pct))
            && (cap >= Raised(high, pct) <==> forall y <- xs :: cap >= Raised(y.marketCap, pct))
            && (cap <= Raised(high, pct) <==> exists y <- xs :: cap <= Raised(y.marketCap, pct))
  {
    var low, high := Lowest(Caps(xs)), Highest(Caps(xs));
    hide Raised, Lowest, Highest, Caps;
    ExtremesAreCaps(xs);
    forall y <- xs ensures Raised(low, pct) <= Raised(y.marketCap, pct) <= Raised(high, pct) {
      RaisedGrows(low, y.marketCap, pct);
      RaisedGrows(y.marketCap, high, pct);
    }
  }

  lemma {:induction false} RangeAsSpread(xs: seq<Observation>, pct: real)
    requires xs != [] && PositiveCaps(xs) && pct >= 0.0
    ensures RangePct(Caps(xs)) >= pct <==> Spreads(xs, pct)
    ensures RangePct(Caps(xs)) <= pct <==> StaysWithin(xs, pct)
  {
    var low, high := Lowest(Caps(xs)), Highest(Caps(xs));
    hide Raised, Lowest, Highest, Caps, PctChange;
    ExtremesAreCaps(xs);
    RangeIsChange(xs);
    PctAsRaised(low, high, pct);
    forall y <- xs ensures Raised(low, pct) <= Raised(y.marketCap, pct) { RaisedGrows(low, y.marketCap, pct); }
  }

  lemma RangeIsChange(xs: seq<Observation>)
    requires xs != [] && Lowest(Caps(xs)) > 0.0
    ensures RangePct(Caps(xs)) == PctChange(Lowest(Caps(xs)), Highest(Caps(xs)))
  {
    hide Lowest, Highest, Caps;
  }

  // ---------- the five tests ----------

  lemma NearPeak(c: Chart)
    requires c.window != [] && Current(c).marketCap > 0.0
    ensures Abs(FromPeak(c)) <= 8.0 <==> Current(c).marketCap >= Raised(Top(c), -8.0)
  {
    PctAsRaised(Top(c), Current(c).marketCap, -8.0);
    PctAsRaised(Top(c), Current(c).marketCap, 0.0);
    hide PctChange;
  }

  lemma BandBounds(c: Chart)
    requires c.window != [] && Current(c).marketCap > 0.0
    ensures InPullback(c) <==> InBand(c)
    ensures -FromPeak(c) < 4.0 <==> Current(c).marketCap > Raised(Top(c), -4.0)
  {
    PctAsRaised(Top(c), Current(c).marketCap, -4.0);
    PctAsRaised(Top(c), Current(c).marketCap, -22.0);
    hide PctChange, Raised;
  }

  lemma {:induction false} ExhaustionBounds(c: Chart)
    requires |c.window| >= MIN_OBSERVATIONS && PositiveCaps(c.window)
    ensures Exhausted(c) <==> Overextended(c)
  {
    hide PctChange, Raised, Lowest, Caps, Tail, FromPeak;
    var x, recent := Current(c), Tail(c.window, 8);
    PartsArePositive(c);
    NearPeak(c);
    ExtremesAreCaps(recent);
    PctAsRaised(Lowest(Caps(recent)), x.marketCap, 25.0);
    AgainstExtremes(recent, x.marketCap, 25.0);
    PctAsRaised(c.window[|c.window| - 2].marketCap, x.marketCap, 10.0);
  }

  lemma {:induction false} ReclaimIsBounded(c: Chart)
    requires |c.window| >= MIN_OBSERVATIONS && PositiveCaps(c.window)
    ensures var cap, low := Current(c).marketCap, c.pullbackLow;
            IsReclaim(c, if low <= 0.0 || cap < low then cap else low) <==> Reclaims(c)
  {
    hide PctChange, Raised, Highest, Caps;
    var cap, low := Current(c).marketCap, c.pullbackLow;
    PartsArePositive(c);
    ExtremesAreCaps(Prior(c));
    AgainstExtremes(Prior(c), cap, -15.0);
    ShareAsRaised(cap, PriorHigh(c));
    PctAsRaised(cap, cap, 2.5);
    CannotExceedItself(cap, low);
    if low > 0.0 { PctAsRaised(low, cap, 2.5); }
  }

  lemma ShareAsRaised(part: real, whole: real)
    requires whole > 0.0
    ensures part / whole * 100.0 >= 85.0 <==> part >= Raised(whole, -15.0)
  {
    ShareVersusRatio(part, whole, 85.0);
  }

  lemma CannotExceedItself(cap: real, low: real)
    requires cap > 0.0
    ensures cap < Raised(cap, 2.5) && (0.0 < low && cap < low ==> cap < Raised(low, 2.5))
  {}

  lemma {:induction false} BreakoutBounds(c: Chart)
    requires |c.window| >= MIN_OBSERVATIONS && PositiveCaps(c.window)
    ensures IsBreakout(c) <==> BreaksOut(c)
  {
    hide PctChange, Raised, Highest, Caps;
    var cap := Current(c).marketCap;
    PartsArePositive(c);
    ExtremesAreCaps(Prior(c));
    AgainstExtremes(Prior(c), cap, 1.5);
    AgainstExtremes(Prior(c), cap, 18.0);
    PctAsRaised(PriorHigh(c), cap, 1.5);
    PctAsRaised(PriorHigh(c), cap, 18.0);
    PctAsRaised(c.window[|c.window| - 2].marketCap, cap, 18.0);
  }

  lemma {:induction false} MomentumBounds(c: Chart)
    requires |c.window| >= MIN_OBSERVATIONS && PositiveCaps(c.window)
    ensures IsMomentum(c) <==> KeepsClimbing(c)
  {
    hide PctChange, Raised, Lowest, Highest, Caps, Tail, FromPeak, RisingSteps, RangePct, Spreads;
    var cap, recent := Current(c).marketCap, Tail(c.window, 8);
    PartsArePositive(c);
    BandBounds(c);
    ExtremesAreCaps(recent);
    AgainstExtremes(recent, cap, 22.0);
    PctAsRaised(Lowest(Caps(recent)), cap, 22.0);
    PctAsRaised(c.window[|c.window| - 2].marketCap, cap, 15.0);
    RangeAsSpread(recent, 2.0);
    if Rose(c, 1) { TwoRisingSteps(c); }
  }

  lemma {:induction false} TwoRisingSteps(c: Chart)
    requires |c.window| >= MIN_OBSERVATIONS && Rose(c, 1)
    ensures RisingSteps(Caps(Tail(c.window, 4))) >= 2 <==> Rose(c, 2) || Rose(c, 3)
  {
    var n := |c.window|;
    var cap := (j: nat) requires j < n => c.window[n - 1 - j].marketCap;
    hide RisingSteps;
    if n == 3 {
      assert Caps(Tail(c.window, 4)) == [cap(2), cap(1), cap(0)];
      StepsOfThree(cap(2), cap(1), cap(0));
    } else {
      assert Caps(Tail(c.window, 4)) == [cap(3), cap(2), cap(1), cap(0)];
      StepsOfThree(cap(2), cap(1), cap(0));
      assert [cap(3)] + [cap(2), cap(1), cap(0)] == [cap(3), cap(2), cap(1), cap(0)];
      OneMoreStep(cap(3), [cap(2), cap(1), cap(0)]);
    }
  }

  lemma StepsOfThree(x: real, y: real, z: real)
    ensures RisingSteps([x, y, z]) == (if y > x then 1 else 0) + (if z > y then 1 else 0)
  {
    assert [x] + [y, z] == [x, y, z] && [y] + [z] == [y, z];
    OneMoreStep(x, [y, z]);
    OneMoreStep(y, [z]);
  }

  lemma OneMoreStep(x: real, xs: seq<real>)
    requires xs != []
    ensures RisingSteps([x] + xs) == (if xs[0] > x then 1 else 0) + RisingSteps(xs)
  {
    assert ([x] + xs)[1..] == xs;
  }
}
