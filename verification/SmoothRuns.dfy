/** Runs in which every submitted sell succeeds, and for which settings the profit floor and the trailing exit
    are then ever attempted (backend/app/positions/manager.py, `check_position`). */
module SmoothRuns {
  import opened Outcomes
  import opened Reals
  import opened Ledger
  import opened ExitLadder
  import opened ExitActions
  import opened ExitRuns
  import opened StopRatchet

  /** Every submitted sell succeeds, the exit lock is free and reconciliation finds nothing to do. */
  ghost predicate Smooth(s: State, a: Action) {
    var t, b := s.row.terms, s.row.book;
    match a
    case Monitored(i) =>
      !i.busy && i.close.outcome.Filled?
      && VerdictFor(t, b, i.balance) == Keep && VerdictFor(t, b, i.close.balance) == Keep
    case ClosedByHand(i) =>
      !i.busy && i.close.outcome.Filled?
      && VerdictFor(t, b, i.balance) == Keep && VerdictFor(t, b, i.close.balance) == Keep
  }

  ghost predicate SmoothRun(c: Settings, s: State, actions: seq<Action>)
    decreases |actions|
  {
    actions == [] || (Smooth(s, actions[0]) && SmoothRun(c, Act(c, s, actions[0]).state, actions[1..]))
  }

  /** An open position whose peak never reached the take-profit gain. */
  ghost predicate Calm(row: Row) {
    && Sound(row.book) && row.terms.entryPrice > 0.0
    && (row.book.status == Open ==>
          PnlPct(row.terms.entryPrice, row.marks.peakPrice) < TAKE_PROFIT_GAIN_PCT && 0 !in row.marks.tpHits)
  }

  // ---------- the peak stays below the take-profit gain ----------

  /** A tick whose price lifts the peak to the take-profit gain sells all that is left. */
  lemma {:induction false} PeakLadder(c: Settings, r: Rule, t: Terms, b: Book, m: Marks, k: Market)
    requires t.entryPrice > 0.0 && b.status == Open && Sound(b) && 0 !in m.tpHits
    requires PnlPct(t.entryPrice, m.peakPrice) < TAKE_PROFIT_GAIN_PCT
    ensures var m' := Observe(m, k); var x := Ladder(c, r, t, b, m', k);
            && x != MarkProfitTaken
            && (x.Exit? && x.reason.TakeProfit? ==> x.pct == b.remainingPct)
            && (PnlPct(t.entryPrice, m'.peakPrice) >= TAKE_PROFIT_GAIN_PCT ==> x.Exit? && x.pct == b.remainingPct)
  {}

  lemma {:induction false} CalmStep(c: Settings, s: State, a: Action)
    requires Calm(s.row) && Smooth(s, a)
    ensures Calm(Act(c, s, a).state.row)
  {
    hide VerdictFor, Reconcile, CloseRow, PnlPct, Ladder;
    if s.row.book.status == Open {
      var t, b := s.row.terms, s.row.book;
      var balance := if a.Monitored? then a.tick.balance else a.manual.balance;
      ReconcileCases(t, b, balance);
      match a
      case Monitored(i) =>
        PeakLadder(c, i.rule, t, b, s.row.marks, i.market);
        var x := Ladder(c, i.rule, t, b, Observe(s.row.marks, i.market), i.market);
        if x.Exit? { CloseStaysSound(t, b, None, i.busy, x.pct, i.market.price, x.reason, x.reconcileFirst, i.close); }
      case ClosedByHand(i) =>
        CloseStaysSound(t, b, s.retry, i.busy, b.remainingPct, i.price, Manual, true, i.close);
    }
  }

  /** For all settings: in a smooth run no open position ends an action with a stored peak at or above the
      take-profit gain. */
  lemma {:induction false} SmoothRunsStayCalm(c: Settings, h: History, actions: seq<Action>)
    requires Calm(h.state.row) && SmoothRun(c, h.state, actions)
    ensures Calm(Run(c, h, actions).state.row)
    decreases |actions|
  {
    hide Act, Calm, Smooth;
    if actions != [] {
      CalmStep(c, h.state, actions[0]);
      SmoothRunsStayCalm(c, Extend(c, h, actions[0]), actions[1..]);
    }
  }

  // ---------- when floor and trailing are out of reach ----------

  predicate IsFloorOrTrail(r: Reason) { r == ProfitFloor || r == Trailing }

  ghost predicate NoFloorOrTrail(attempts: seq<Attempt>) { forall q <- attempts :: !IsFloorOrTrail(q.reason) }

  /** A price that has just made `pct` the peak gain triggers neither. */
  predicate ClearAtPeak(c: Settings, pct: real) {
    && (FloorPct(c, pct).Some? ==> FloorPct(c, pct).value < pct)
    && (TrailPct(c, pct).Some? ==> TrailPct(c, pct).value > 0.0)
  }

  /** At this gain the hard stop comes first, or no price lies that low. */
  predicate Forestalled(c: Settings, pct: real) { pct <= -Abs(c.hardStopPct) || pct < -100.0 }

  /** With this peak gain no price gets to the floor. */
  predicate ClearBelowPeak(c: Settings, pct: real) {
    FloorPct(c, pct).Some? ==> Forestalled(c, Min(pct, FloorPct(c, pct).value))
  }

  ghost predicate OutOfReach(c: Settings) {
    && (forall pct :: pct >= TAKE_PROFIT_GAIN_PCT ==> ClearAtPeak(c, pct))
    && (forall pct :: pct < TAKE_PROFIT_GAIN_PCT ==> ClearBelowPeak(c, pct))
  }

  ghost predicate NeverAttempted(c: Settings) {
    forall row: Row, actions: seq<Action> ::
      Calm(row) && SmoothRun(c, State(row, None), actions) && NoNegativePrice(actions) ==>
        NoFloorOrTrail(Run(c, Begin(row), actions).attempts)
  }

  /** The exits out of reach are not chosen; beyond a total loss a price may be negative only if the hard stop
      comes before. */
  lemma {:induction false} ClearLadder(c: Settings, r: Rule, t: Terms, b: Book, m: Marks, k: Market)
    requires OutOfReach(c) && t.entryPrice > 0.0 && (k.price >= 0.0 || Abs(c.hardStopPct) <= 100.0)
    requires PnlPct(t.entryPrice, m.peakPrice) < TAKE_PROFIT_GAIN_PCT
    ensures var x := Ladder(c, r, t, b, Observe(m, k), k); x.Exit? ==> !IsFloorOrTrail(x.reason)
  {
    var entry, peak := t.entryPrice, Observe(m, k).peakPrice;
    var pnl, top := PnlPct(entry, k.price), PnlPct(entry, peak);
    if !k.priceSimulated {
      GainGrows(entry, k.price, peak);
      if k.price >= 0.0 { LossIsAtMostTotal(entry, k.price); }
      if top >= TAKE_PROFIT_GAIN_PCT {
        assert ClearAtPeak(c, top) && peak == k.price;
        if peak > 0.0 { NoDropFromItself(peak); }
      } else {
        assert ClearBelowPeak(c, top);
        assert TrailPct(c, top).None?;
      }
    }
    hide PnlPct, DropPct, OutOfReach;
  }

  lemma NoDropFromItself(peak: real)
    requires peak != 0.0
    ensures DropPct(peak, peak) == 0.0
  {}

  lemma {:induction false} ClearStep(c: Settings, s: State, a: Action)
    requires OutOfReach(c) && Calm(s.row) && Smooth(s, a)
    requires NoNegativePrice([a]) || Abs(c.hardStopPct) <= 100.0
    ensures var n := Act(c, s, a); n.attempt.Some? ==> !IsFloorOrTrail(n.attempt.value.reason)
  {
    hide VerdictFor, Reconcile, CloseRow, PnlPct, Ladder, OutOfReach;
    if s.row.book.status == Open {
      var t, b := s.row.terms, s.row.book;
      var balance := if a.Monitored? then a.tick.balance else a.manual.balance;
      ReconcileCases(t, b, balance);
      match a
      case Monitored(i) =>
        assert a in [a];
        ClearLadder(c, i.rule, t, b, s.row.marks, i.market);
        var x := Ladder(c, i.rule, t, b, Observe(s.row.marks, i.market), i.market);
        if x.Exit? { CloseFacts(t, b, None, i.busy, x.pct, i.market.price, x.reason, x.reconcileFirst, i.close); }
      case ClosedByHand(i) =>
        CloseFacts(t, b, s.retry, i.busy, b.remainingPct, i.price, Manual, true, i.close);
    }
  }

  lemma {:induction false} ClearRuns(c: Settings, h: History, actions: seq<Action>)
    requires OutOfReach(c) && Calm(h.state.row) && SmoothRun(c, h.state, actions)
    requires NoNegativePrice(actions) || Abs(c.hardStopPct) <= 100.0
    requires NoFloorOrTrail(h.attempts)
    ensures NoFloorOrTrail(Run(c, h, actions).attempts)
    decreases |actions|
  {
    hide Act, Calm, Smooth, OutOfReach;
    if actions != [] {
      CalmStep(c, h.state, actions[0]);
      ClearStep(c, h.state, actions[0]);
      ClearRuns(c, Extend(c, h, actions[0]), actions[1..]);
    }
  }

  /** For all settings: floor and trailing are never attempted in any smooth run from a calm row exactly when
      they are out of reach. */
  lemma {:induction false} FloorIsNeverAttemptedIff(c: Settings)
    ensures NeverAttempted(c) <==> OutOfReach(c)
  {
    hide Run, Calm, SmoothRun, ClearAtPeak, ClearBelowPeak;
    if OutOfReach(c) {
      forall row: Row, actions: seq<Action>
        | Calm(row) && SmoothRun(c, State(row, None), actions) && NoNegativePrice(actions)
        ensures NoFloorOrTrail(Run(c, Begin(row), actions).attempts)
      {
        ClearRuns(c, Begin(row), actions);
      }
    } else {
      var pct :| if pct >= TAKE_PROFIT_GAIN_PCT then !ClearAtPeak(c, pct) else !ClearBelowPeak(c, pct);
      ReachedInOneTick(c, pct);
    }
  }

  function CalmRow(pct: real): Row {
    Row(Terms(Paper, SolanaLaunch, 100.0, 1.0, 1.0), Book(Open, 100.0, 1.0, 0.0, 0.0, 0.0),
        Marks(PriceAt(1.0, pct), 0.0, true, []))
  }

  /** One tick on a paper row whose defensive sell is behind it. */
  lemma {:induction false} ReachedInOneTick(c: Settings, pct: real)
    requires if pct >= TAKE_PROFIT_GAIN_PCT then !ClearAtPeak(c, pct) else !ClearBelowPeak(c, pct)
    ensures !NeverAttempted(c)
  {
    var above := pct >= TAKE_PROFIT_GAIN_PCT;
    var before := if above then 0.0 else pct;
    var now := if above then pct else Min(pct, FloorPct(c, pct).value);
    var row := CalmRow(before);
    var i := SampleTick(PriceAt(1.0, now), Filled(Fill(1.0, None)));
    var actions := [Monitored(i)];
    assert PnlPct(1.0, PriceAt(1.0, before)) == before && PnlPct(1.0, PriceAt(1.0, now)) == now;
    assert PriceAt(1.0, now) >= 0.0;
    if above && PriceAt(1.0, now) > 0.0 { NoDropFromItself(PriceAt(1.0, now)); }
    var x := Ladder(c, i.rule, row.terms, row.book, Observe(row.marks, i.market), i.market);
    assert x.Exit? && IsFloorOrTrail(x.reason) && x.pct == 100.0;
    assert Calm(row) && Smooth(State(row, None), actions[0]) && actions[1..] == [];
    var n := Act(c, State(row, None), actions[0]);
    assert n.attempt.Some? && IsFloorOrTrail(n.attempt.value.reason);
    RunOne(c, Begin(row), actions[0]);
    assert Run(c, Begin(row), actions).attempts == [n.attempt.value];
    assert n.attempt.value in Run(c, Begin(row), actions).attempts;
    assert SmoothRun(c, State(row, None), actions) && NoNegativePrice(actions);
  }

  // ---------- a test on the settings ----------

  /** What a stage that starts or ends at `pct` must meet. */
  predicate ClearAround(c: Settings, pct: real) {
    && (pct >= TAKE_PROFIT_GAIN_PCT ==> ClearAtPeak(c, pct))
    && (pct <= TAKE_PROFIT_GAIN_PCT && FloorBelow(c, pct).Some? ==>
          Forestalled(c, FloorBelow(c, pct).value) || pct <= -Abs(c.hardStopPct) || pct <= -100.0)
  }

  predicate ClearAtThresholds(c: Settings) {
    ClearAround(c, TAKE_PROFIT_GAIN_PCT) && forall t <- Thresholds(c) :: ClearAround(c, t)
  }

  function Bounds(c: Settings): (ts: seq<real>)
    ensures TAKE_PROFIT_GAIN_PCT in ts && forall t <- Thresholds(c) :: t in ts
    ensures forall t <- ts :: t == TAKE_PROFIT_GAIN_PCT || t in Thresholds(c)
  {
    Thresholds(c) + [TAKE_PROFIT_GAIN_PCT]
  }

  /** Being out of reach is decided at the thresholds and at the take-profit gain. */
  lemma {:induction false} OutOfReachAtThresholds(c: Settings)
    ensures OutOfReach(c) <==> ClearAtThresholds(c)
  {
    hide ClearAtPeak, ClearBelowPeak, ClearAround, Thresholds;
    if ClearAtThresholds(c) {
      forall pct | pct >= TAKE_PROFIT_GAIN_PCT ensures ClearAtPeak(c, pct) { StageIsClearAbove(c, pct); }
      forall pct | pct < TAKE_PROFIT_GAIN_PCT ensures ClearBelowPeak(c, pct) { StageIsClearBelow(c, pct); }
    }
    if OutOfReach(c) {
      AroundIsClear(c, TAKE_PROFIT_GAIN_PCT);
      forall t <- Thresholds(c) ensures ClearAround(c, t) { AroundIsClear(c, t); }
    }
  }

  /** The last bound at or below `pct`, if there is one. */
  function StageStart(ts: seq<real>, pct: real): (start: Option<real>)
    ensures start.Some? ==> start.value in ts && start.value <= pct && forall t <- ts :: !(start.value < t <= pct)
    ensures start.None? ==> forall t <- ts :: t > pct
  {
    if ts == [] then None else
    assert ts == [ts[0]] + ts[1..];
    var rest := StageStart(ts[1..], pct);
    if ts[0] <= pct && (rest.None? || rest.value < ts[0]) then Some(ts[0]) else rest
  }

  lemma {:induction false} StageIsClearAbove(c: Settings, pct: real)
    requires ClearAtThresholds(c) && pct >= TAKE_PROFIT_GAIN_PCT
    ensures ClearAtPeak(c, pct)
  {
    hide Thresholds, FloorPct, TrailPct, FloorBelow, TrailBelow;
    var start := StageStart(Bounds(c), pct).value;
    assert ClearAround(c, start) && start >= TAKE_PROFIT_GAIN_PCT;
    SameStage(c, start, pct);
  }

  lemma {:induction false} StageIsClearBelow(c: Settings, pct: real)
    requires ClearAtThresholds(c) && pct < TAKE_PROFIT_GAIN_PCT
    ensures ClearBelowPeak(c, pct)
  {
    hide Thresholds, FloorPct, TrailPct, FloorBelow, TrailBelow;
    var end := Next(Bounds(c), pct, TAKE_PROFIT_GAIN_PCT).value;
    assert ClearAround(c, end);
    SameStage(c, pct, end);
  }

  lemma {:induction false} AroundIsClear(c: Settings, end: real)
    requires OutOfReach(c)
    ensures ClearAround(c, end)
  {
    hide FloorPct, TrailPct, FloorBelow, TrailBelow;
    if end >= TAKE_PROFIT_GAIN_PCT { assert ClearAtPeak(c, end); }
    if end <= TAKE_PROFIT_GAIN_PCT && end > -Abs(c.hardStopPct) && end > -100.0 {
      var low := Previous(Thresholds(c), end);
      var pct := Max(low, Max((end - Abs(c.hardStopPct)) / 2.0, (end - 100.0) / 2.0));
      SameStage(c, pct, end);
      assert ClearBelowPeak(c, pct);
    }
  }

  /** With the default settings both are out of reach, so floor and trailing are never attempted in a smooth run. */
  lemma {:induction false} SmoothRunsNeverReachTheFloor(h: History, actions: seq<Action>)
    requires Calm(h.state.row) && SmoothRun(DEFAULTS, h.state, actions)
    requires forall q <- h.attempts :: q.reason != ProfitFloor && q.reason != Trailing
    ensures var end := Run(DEFAULTS, h, actions);
            Calm(end.state.row) && forall q <- end.attempts :: q.reason != ProfitFloor && q.reason != Trailing
  {
    assert ClearAtThresholds(DEFAULTS);
    OutOfReachAtThresholds(DEFAULTS);
    SmoothRunsStayCalm(DEFAULTS, h, actions);
    ClearRuns(DEFAULTS, h, actions);
    hide Run, Calm, SmoothRun, OutOfReach;
  }
}
