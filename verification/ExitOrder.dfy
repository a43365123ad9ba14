/** Which exit a tick attempts, told by prices, volumes, ages and one order of precedence
    (backend/app/positions/manager.py, `check_position`), and how long a failed one pauses the rest. */
module ExitOrder {
  import opened Outcomes
  import opened Reals
  import opened Ledger
  import opened ExitLadder
  import opened ExitActions
  import opened ExitRuns

  /** The stages a peak gain can have reached, with what each locks in and how far it lets the price trail. */
  function FloorStages(c: Settings): seq<(real, real)> {
    [(c.breakevenTrigger, c.breakevenLock), (c.profitTrigger, c.profitLock), (c.strongTrigger, c.strongLock),
     (75.0, c.runnerLock)]
  }

  function TrailStages(c: Settings): seq<(real, real)> {
    [(10.0, c.trailMin), (20.0, c.trailMid), (40.0, c.trailStrong), (75.0, c.trailMax)]
  }

  /** `value` belongs to the last stage whose gain was reached. */
  ghost predicate OfLastStage(stages: seq<(real, real)>, gain: real, value: real) {
    exists i :: 0 <= i < |stages| && stages[i].0 <= gain && stages[i].1 == value
                && forall j :: i < j < |stages| ==> gain < stages[j].0
  }

  lemma {:induction false} StagesAreExact(c: Settings, gain: real, value: real)
    ensures FloorPct(c, gain) == Some(value) <==> OfLastStage(FloorStages(c), gain, value)
    ensures TrailPct(c, gain) == Some(value) <==> OfLastStage(TrailStages(c), gain, value)
  {
    FloorsAreExact(c, gain, value);
    TrailsAreExact(c, gain, value);
  }

  lemma FloorsAreExact(c: Settings, gain: real, value: real)
    ensures FloorPct(c, gain) == Some(value) <==> OfLastStage(FloorStages(c), gain, value)
  {
    var s := FloorStages(c);
    assert s[3] == (75.0, c.runnerLock) && s[2] == (c.strongTrigger, c.strongLock);
    assert s[1] == (c.profitTrigger, c.profitLock) && s[0] == (c.breakevenTrigger, c.breakevenLock);
  }

  lemma TrailsAreExact(c: Settings, gain: real, value: real)
    ensures TrailPct(c, gain) == Some(value) <==> OfLastStage(TrailStages(c), gain, value)
  {
    var s := TrailStages(c);
    assert s[3] == (75.0, c.trailMax) && s[2] == (40.0, c.trailStrong);
    assert s[1] == (20.0, c.trailMid) && s[0] == (10.0, c.trailMin);
  }

  /** The exits a tick considers, the most urgent first. */
  function Precedence(): seq<Reason> {
    [TimeBased, DefensiveStop, HardStop, ProfitFloor, Trailing, VolumeDrop, TakeProfit(1)]
  }

  /** What calls for an exit: the age limit, or a real price at or beyond a price that entry, peak and settings
      determine, or a real volume far enough below its peak. Peaks include what this tick sees. */
  ghost predicate CallsFor(c: Settings, r: Rule, entry: real, m: Marks, k: Market, reason: Reason) {
    var peak, volumePeak := Max(m.peakPrice, k.price), Max(m.peakVolume, k.volume);
    match reason
    case TimeBased => r.timeExitSeconds != 0.0 && k.ageSeconds >= r.timeExitSeconds
    case DefensiveStop => !k.priceSimulated && !m.defensiveDone && k.price <= PriceAt(entry, -Abs(c.defensiveStopPct))
    case HardStop => !k.priceSimulated && k.price <= PriceAt(entry, -Abs(c.hardStopPct))
    case ProfitFloor =>
      !k.priceSimulated &&
      exists floor :: OfLastStage(FloorStages(c), PnlPct(entry, peak), floor) && k.price <= PriceAt(entry, floor)
    case Trailing =>
      !k.priceSimulated && peak > 0.0 &&
      exists trail :: OfLastStage(TrailStages(c), PnlPct(entry, peak), trail) && k.price <= PriceAt(peak, -trail)
    case VolumeDrop =>
      && !k.priceSimulated && !k.volumeSimulated && r.volumeDropPct != 0.0 && volumePeak > 0.0
      && k.volume <= PriceAt(volumePeak, -r.volumeDropPct)
    case TakeProfit(level) => !k.priceSimulated && level == 1 && 0 !in m.tpHits && k.price >= PriceAt(entry, 6.0)
    case Manual => false
  }

  /** The reason calls for an exit and no more urgent one does. */
  ghost predicate MostUrgent(c: Settings, r: Rule, entry: real, m: Marks, k: Market, reason: Reason) {
    exists i :: 0 <= i < |Precedence()| && Precedence()[i] == reason && CallsFor(c, r, entry, m, k, reason)
                && forall j :: 0 <= j < i ==> !CallsFor(c, r, entry, m, k, Precedence()[j])
  }

  /** Every cause is the test of the ladder for that reason. */
  lemma {:induction false} PriceCausesAreTests(c: Settings, r: Rule, t: Terms, m: Marks, k: Market)
    requires t.entryPrice > 0.0 && !k.priceSimulated
    ensures var entry := t.entryPrice; var pnl := PnlPct(entry, k.price);
            && (CallsFor(c, r, entry, m, k, DefensiveStop) <==> !m.defensiveDone && pnl <= -Abs(c.defensiveStopPct))
            && (CallsFor(c, r, entry, m, k, HardStop) <==> pnl <= -Abs(c.hardStopPct))
            && (CallsFor(c, r, entry, m, k, TakeProfit(1)) <==> 0 !in m.tpHits && pnl >= TAKE_PROFIT_GAIN_PCT)
            && (!k.volumeSimulated ==>
                  var peak := Max(m.peakVolume, k.volume);
                  CallsFor(c, r, entry, m, k, VolumeDrop) <==>
                    r.volumeDropPct != 0.0 && peak > 0.0 && DropPct(peak, k.volume) >= r.volumeDropPct)
  {
    hide PnlPct, PriceAt, DropPct;
    PnlVersusPrice(t.entryPrice, k.price, -Abs(c.defensiveStopPct));
    PnlVersusPrice(t.entryPrice, k.price, -Abs(c.hardStopPct));
    PnlVersusPrice(t.entryPrice, k.price, 6.0);
    var peak := Max(m.peakVolume, k.volume);
    if peak > 0.0 { DropVersusPrice(peak, k.volume, r.volumeDropPct); }
  }

  lemma {:induction false} StageCausesAreTests(c: Settings, r: Rule, t: Terms, m: Marks, k: Market)
    requires t.entryPrice > 0.0 && !k.priceSimulated
    ensures var entry, peak := t.entryPrice, Max(m.peakPrice, k.price);
            && (CallsFor(c, r, entry, m, k, ProfitFloor) <==> FloorFires(c, t, peak, k.price))
            && (CallsFor(c, r, entry, m, k, Trailing) <==> TrailFires(c, t, peak, k.price))
  {
    hide PnlPct, PriceAt, DropPct, FloorPct, TrailPct, OfLastStage;
    var entry, peak := t.entryPrice, Max(m.peakPrice, k.price);
    var gain := PnlPct(entry, peak);
    forall value: real
      ensures FloorPct(c, gain) == Some(value) <==> OfLastStage(FloorStages(c), gain, value)
      ensures TrailPct(c, gain) == Some(value) <==> OfLastStage(TrailStages(c), gain, value)
    {
      StagesAreExact(c, gain, value);
    }
    var floor, trail := FloorPct(c, gain), TrailPct(c, gain);
    if floor.Some? { PnlVersusPrice(entry, k.price, floor.value); }
    if trail.Some? && peak > 0.0 { DropVersusPrice(peak, k.price, trail.value); }
  }

  lemma {:induction false} UrgencyByCases(c: Settings, r: Rule, entry: real, m: Marks, k: Market, reason: Reason)
    ensures var calls := (q: Reason) => CallsFor(c, r, entry, m, k, q);
            MostUrgent(c, r, entry, m, k, reason) <==>
              && calls(reason)
              && (reason == TimeBased || !calls(TimeBased))
              && (reason == TimeBased || reason == DefensiveStop || !calls(DefensiveStop))
              && (reason == TimeBased || reason == DefensiveStop || reason == HardStop || !calls(HardStop))
              && (reason in {Trailing, VolumeDrop, TakeProfit(1)} ==> !calls(ProfitFloor))
              && (reason in {VolumeDrop, TakeProfit(1)} ==> !calls(Trailing))
              && (reason == TakeProfit(1) ==> !calls(VolumeDrop))
  {
    var p := Precedence();
    assert p[0] == TimeBased && p[1] == DefensiveStop && p[2] == HardStop && p[3] == ProfitFloor;
    assert p[4] == Trailing && p[5] == VolumeDrop && p[6] == TakeProfit(1);
    assert CallsFor(c, r, entry, m, k, reason) ==> reason in p;
    hide CallsFor;
  }

  lemma {:induction false} LadderTakesMostUrgent(c: Settings, r: Rule, t: Terms, b: Book, m: Marks, k: Market,
                                                reason: Reason)
    requires t.entryPrice > 0.0 && 0.0 < b.remainingPct <= 100.0
    ensures var x := Ladder(c, r, t, b, Observe(m, k), k);
            && x != MarkProfitTaken
            && (x.Exit? && x.reason == reason <==> MostUrgent(c, r, t.entryPrice, m, k, reason))
            && (x.Exit? ==> x.pct == if x.reason == DefensiveStop then c.defensiveSellPct else b.remainingPct)
            && (x.Exit? ==> (x.reconcileFirst <==> x.reason.TakeProfit?))
  {
    UrgencyByCases(c, r, t.entryPrice, m, k, reason);
    if !k.priceSimulated {
      PriceCausesAreTests(c, r, t, m, k);
      StageCausesAreTests(c, r, t, m, k);
    }
    hide PnlPct, PriceAt, DropPct, FloorFires, TrailFires, OfLastStage, MostUrgent;
  }

  /** What a tick hands over, for every reason: the most urgent exit, of everything that is left or of the
      defensive part, exactly when the tick reaches the rules, the lock is free, an adapter can be had and, for
      the take-profit level, the second look at the wallet finds something left to sell. */
  lemma {:induction false} MostUrgentExitIsAttempted(c: Settings, s: State, i: TickInput, reason: Reason)
    requires s.row.terms.entryPrice > 0.0 && s.row.book.status == Open && Sound(s.row.book)
    ensures var n := Tick(c, s, i); var t := s.row.terms; var b := Reconcile(t, s.row.book, i.balance);
            && (n.attempt.Some? && n.attempt.value.reason == reason <==>
                  && ReachesRules(s, i) && !i.busy && !i.close.outcome.NoAdapter?
                  && MostUrgent(c, i.rule, t.entryPrice, s.row.marks, i.market, reason)
                  && (reason == DefensiveStop ==> c.defensiveSellPct > 0.0)
                  && (reason.TakeProfit? && t.mode == Live ==> !SoldOutside(t, b, i.close.balance)))
            && (n.attempt.Some? ==>
                  var q := n.attempt.value;
                  && q.before == (if q.reason.TakeProfit? then Reconcile(t, b, i.close.balance) else b)
                  && q.pct == if q.reason == DefensiveStop then Min(c.defensiveSellPct, q.before.remainingPct)
                           else q.before.remainingPct)
  {
    var t, b := s.row.terms, Reconcile(s.row.terms, s.row.book, i.balance);
    ReconcileStaysSound(t, s.row.book, i.balance);
    ReconcileCases(t, s.row.book, i.balance);
    if b.status == Open {
      LadderTakesMostUrgent(c, i.rule, t, b, s.row.marks, i.market, reason);
      var x := Ladder(c, i.rule, t, b, Observe(s.row.marks, i.market), i.market);
      if x.Exit? {
        AttemptIffSellable(t, b, i.busy, x.pct, i.market.price, x.reason, x.reconcileFirst, i.close);
      }
    }
    hide VerdictFor, Reconcile, SoldOutside, CloseRow, Ladder, Observe, MostUrgent;
  }

  lemma {:induction false} AttemptIffSellable(t: Terms, b: Book, busy: bool, requested: real, trigger: real,
                                              reason: Reason, reconcileFirst: bool, i: CloseInput)
    requires b.status == Open && Sound(b)
    ensures var z := CloseRow(t, b, None, busy, requested, trigger, reason, reconcileFirst, i);
            && (z.attempt.Some? <==> !busy && !i.outcome.NoAdapter? && requested > 0.0
                                     && !(t.mode == Live && reconcileFirst && SoldOutside(t, b, i.balance)))
            && (z.attempt.Some? ==>
                  var q := z.attempt.value;
                  && q.reason == reason && q.before == (if reconcileFirst then Reconcile(t, b, i.balance) else b)
                  && q.pct == Min(requested, q.before.remainingPct) && q.before.remainingPct <= b.remainingPct)
  {
    ReconcileStaysSound(t, b, i.balance);
    ReconcileCases(t, b, i.balance);
    hide VerdictFor, Sell;
  }

  /** Nothing is more urgent than the age limit, and it sells at simulated prices too. */
  lemma {:induction false} TimeExitIff(c: Settings, s: State, i: TickInput)
    requires s.row.terms.entryPrice > 0.0 && s.row.book.status == Open && Sound(s.row.book)
    ensures var n := Tick(c, s, i);
            n.attempt.Some? && n.attempt.value.reason == TimeBased <==>
              && ReachesRules(s, i) && !i.busy && !i.close.outcome.NoAdapter?
              && i.rule.timeExitSeconds != 0.0 && i.market.ageSeconds >= i.rule.timeExitSeconds
  {
    MostUrgentExitIsAttempted(c, s, i, TimeBased);
    UrgencyByCases(c, i.rule, s.row.terms.entryPrice, s.row.marks, i.market, TimeBased);
    hide Tick, MostUrgent;
  }

  /** Sold outside means: half a percent or more of the tracked tokens are missing from the wallet, and what is there
      is at most a ten-thousandth of the position. */
  lemma {:induction false} SoldOutsideIff(t: Terms, b: Book, balance: Balance)
    requires t.mode == Live && t.source != Fourmeme && t.amountTokens > 0.0 && b.remainingPct > 0.0 && b.status == Open
    ensures SoldOutside(t, b, Some(balance)) <==>
              Tracked(t, b) - balance >= Tracked(t, b) * 0.005 && balance <= t.amountTokens * 0.0001
  {
    hide VerdictFor, Tracked, ShortfallPct, SharePct;
    ExactVerdict(t, b, balance);
    TrackedIsPositive(t, b);
    MissingShare(Tracked(t, b), balance);
    WalletShare(balance, t.amountTokens);
    var v := VerdictFor(t, b, Some(balance));
    assert v == Keep <==> Tracked(t, b) - balance < Tracked(t, b) * 0.005;
    match v
    case Keep =>
    case CloseOut => assert balance == 0.0;
    case Reduce(pct) => assert Reconcile(t, b, Some(balance)) == b.(remainingPct := SharePct(balance, t.amountTokens));
  }

  lemma TrackedIsPositive(t: Terms, b: Book)
    requires t.amountTokens > 0.0 && b.remainingPct > 0.0
    ensures Tracked(t, b) > 0.0
  {}

  lemma MissingShare(expected: real, actual: real)
    requires expected > 0.0
    ensures ShortfallPct(expected, actual) >= 0.5 <==> expected - actual >= expected * 0.005
  {
    QuotientAtLeast(expected - actual, expected, 0.005);
  }

  lemma WalletShare(actual: real, original: real)
    requires original > 0.0
    ensures SharePct(actual, original) <= 0.01 <==> actual <= original * 0.0001
  {
    QuotientAtLeast(-actual, original, -0.0001);
    QuotientTimesDivisor(actual, original);
    SameQuotient(actual, original);
  }

  lemma QuotientAtLeast(x: real, y: real, bound: real)
    requires y > 0.0
    ensures x / y >= bound <==> x >= y * bound
  {
    var q := x / y;
    QuotientTimesDivisor(x, y);
    assert (q - bound) * y == x - y * bound;
    if x >= y * bound { SignOfFactor(q - bound, y); } else { assert (q - bound) * y < 0.0; }
  }

  lemma SameQuotient(x: real, y: real)
    requires y > 0.0
    ensures -x / y == -(x / y)
  {
    var d := -x / y + x / y;
    QuotientTimesDivisor(x, y);
    QuotientTimesDivisor(-x, y);
    assert d * y == 0.0;
  }

  // ---------- what a tick or a manual close writes ----------

  /** A recorded sell is written on the reconciled row, at the price of the tick. */
  lemma {:induction false} RecordedTickSells(c: Settings, s: State, i: TickInput)
    requires s.row.book.status == Open
    ensures var n := Tick(c, s, i);
            n.attempt.Some? ==>
              var q, o := n.attempt.value, i.close.outcome;
              && (q.recorded <==> o.Filled? || o.FilledThenRaised?) && (q.acknowledged <==> o.Filled?)
              && n.state.row.book ==
                   if q.recorded then Sell(s.row.terms, q.before, q.pct, i.market.price, o.fill) else q.before
  {
    hide Reconcile, SoldOutside, Observe, Ladder, Sellable, VerdictFor, Sell;
  }

  /** A tick that is not paused looks at the wallet; without a sell, that and the take-profit level's second look
      are all it writes to the book. */
  lemma {:induction false} UnsoldTickReconciles(c: Settings, s: State, i: TickInput)
    requires s.row.terms.entryPrice > 0.0 && s.row.book.status == Open && Sound(s.row.book)
    ensures var n := Tick(c, s, i); var t := s.row.terms; var b := Reconcile(t, s.row.book, i.balance);
            n.attempt.None? ==>
              n.state.row.book ==
                if CoolingDown(s.retry, i.now) then s.row.book
                else if ReachesRules(s, i) && !i.busy
                        && MostUrgent(c, i.rule, t.entryPrice, s.row.marks, i.market, TakeProfit(1))
                then Reconcile(t, b, i.close.balance) else b
  {
    var t, b := s.row.terms, Reconcile(s.row.terms, s.row.book, i.balance);
    ReconcileStaysSound(t, s.row.book, i.balance);
    ReconcileCases(t, s.row.book, i.balance);
    ReconcileCases(t, b, i.close.balance);
    if b.status == Open {
      LadderTakesMostUrgent(c, i.rule, t, b, s.row.marks, i.market, TakeProfit(1));
      var x := Ladder(c, i.rule, t, b, Observe(s.row.marks, i.market), i.market);
      if x.Exit? && x.reason.TakeProfit? {
        UrgencyByCases(c, i.rule, t.entryPrice, s.row.marks, i.market, x.reason);
        LadderTakesMostUrgent(c, i.rule, t, b, s.row.marks, i.market, x.reason);
      }
    }
    hide VerdictFor, Reconcile, SoldOutside, Ladder, Observe, MostUrgent, Sell;
  }

  /** The take-profit level is marked exactly when its sell was acknowledged. */
  lemma {:induction false} ProfitMarkIff(c: Settings, s: State, i: TickInput)
    requires s.row.terms.entryPrice > 0.0 && s.row.book.status == Open && Sound(s.row.book)
    ensures var n := Tick(c, s, i); var before, after := s.row.marks.tpHits, n.state.row.marks.tpHits;
            var taken := n.attempt.Some? && n.attempt.value.reason == TakeProfit(1) && n.attempt.value.acknowledged;
            after == before + if taken then [0] else []
  {
    var t, b := s.row.terms, Reconcile(s.row.terms, s.row.book, i.balance);
    ReconcileStaysSound(t, s.row.book, i.balance);
    ReconcileCases(t, s.row.book, i.balance);
    assert s.row.marks.tpHits + [] == s.row.marks.tpHits;
    if b.status == Open {
      var x := Ladder(c, i.rule, t, b, Observe(s.row.marks, i.market), i.market);
      var reason := if x.Exit? then x.reason else Manual;
      LadderTakesMostUrgent(c, i.rule, t, b, s.row.marks, i.market, reason);
      UrgencyByCases(c, i.rule, t.entryPrice, s.row.marks, i.market, reason);
      if x.Exit? {
        CloseFacts(t, b, None, i.busy, x.pct, i.market.price, x.reason, x.reconcileFirst, i.close);
      }
    }
    hide VerdictFor, Reconcile, SoldOutside, Ladder, MostUrgent, CloseRow;
  }

  /** A manual close hands over all that two looks at the wallet leave, exactly when they leave something, the lock
      is free and an adapter can be had; and it ends a pause exactly when its sell was confirmed that far. */
  lemma {:induction false} ManualCloseIff(s: State, i: ManualInput)
    requires s.row.book.status == Open && Sound(s.row.book)
    ensures var n := ManualClose(s, i); var t := s.row.terms;
            var b := Reconcile(t, s.row.book, i.balance); var b' := Reconcile(t, b, i.close.balance);
            && (n.attempt.Some? <==>
                  && !i.busy && !i.close.outcome.NoAdapter?
                  && !(t.mode == Live && (SoldOutside(t, s.row.book, i.balance) || SoldOutside(t, b, i.close.balance))))
            && (n.attempt.Some? ==>
                  var q, o := n.attempt.value, i.close.outcome;
                  && q.reason == Manual && q.before == b' && q.pct == b'.remainingPct
                  && (q.recorded <==> o.Filled? || o.FilledThenRaised?) && (q.acknowledged <==> o.Filled?)
                  && n.state.row.book == (if q.recorded then Sell(t, b', q.pct, i.price, o.fill) else b'))
            && n.state.row.marks == s.row.marks
            && n.state.retry ==
                 if n.attempt.Some? && (n.attempt.value.recorded || i.close.outcome == LostBeforeWrite(true)) then None
                 else s.retry
  {
    var t, b := s.row.terms, Reconcile(s.row.terms, s.row.book, i.balance);
    ReconcileStaysSound(t, s.row.book, i.balance);
    ReconcileCases(t, s.row.book, i.balance);
    if b.status == Open {
      ReconcileStaysSound(t, b, i.close.balance);
      ReconcileCases(t, b, i.close.balance);
    }
    hide VerdictFor, Reconcile, Sell;
  }

  // ---------- the pause after a failed exit ----------

  /** After a refused time, volume or take-profit exit every tick of the next 60 seconds is skipped whole, and
      the pause then leaves no trace. */
  lemma {:induction false} RefusalPausesSixtySeconds(c: Settings, s: State, i: TickInput, j: TickInput)
    requires s.row.book.status == Open
    requires Tick(c, s, i).attempt.Some? && PausesRetries(Tick(c, s, i).attempt.value.reason)
    requires i.close.outcome.Refused?
    ensures var after := Tick(c, s, i).state;
            && (j.now < i.close.now + 60.0 ==> Tick(c, after, j) == Step(after, None, []))
            && (j.now >= i.close.now + 60.0 ==> Tick(c, after, j) == Tick(c, after.(retry := None), j))
  {
    RefusalSetsPause(c, s, i);
    hide Resolve, Reconcile, SoldOutside, Observe;
  }

  lemma {:induction false} RefusalSetsPause(c: Settings, s: State, i: TickInput)
    requires Tick(c, s, i).attempt.Some? && PausesRetries(Tick(c, s, i).attempt.value.reason)
    requires i.close.outcome.Refused?
    ensures Tick(c, s, i).state.retry == Some(i.close.now + 60.0)
  {
    hide Reconcile, SoldOutside, Observe, Ladder, Sellable, VerdictFor;
  }

  /** A tick that ends without one of those refusals leaves no pause, except the one that made it skip. */
  lemma {:induction false} OnlyRefusalsPause(c: Settings, s: State, i: TickInput)
    requires !CoolingDown(s.retry, i.now)
    ensures var n := Tick(c, s, i);
            n.state.retry.Some? ==>
              n.attempt.Some? && PausesRetries(n.attempt.value.reason) && i.close.outcome.Refused?
  {
    hide Reconcile, SoldOutside, Observe, Ladder, Sellable, VerdictFor;
  }

  // ---------- the stored volume peak ----------

  function VolumeSeen(s: State, a: Action): seq<real> {
    if a.Monitored? && ReachesRules(s, a.tick) && !a.tick.market.volumeSimulated then [a.tick.market.volume] else []
  }

  ghost function RealVolumes(c: Settings, s: State, actions: seq<Action>): seq<real>
    decreases |actions|
  {
    if actions == [] then []
    else VolumeSeen(s, actions[0]) + RealVolumes(c, Act(c, s, actions[0]).state, actions[1..])
  }

  lemma {:induction false} VolumePeakStep(c: Settings, s: State, a: Action)
    ensures Act(c, s, a).state.row.marks.peakVolume == Highest(s.row.marks.peakVolume, VolumeSeen(s, a))
    ensures |VolumeSeen(s, a)| <= 1
  {
    hide Reconcile, SoldOutside, Ladder, CloseRow;
  }

  /** After any run the stored volume peak is the greatest of the opening peak and the real volumes of the ticks
      that reached the rules. */
  lemma {:induction false} VolumePeakIsHighestRealVolume(c: Settings, h: History, actions: seq<Action>)
    ensures Run(c, h, actions).state.row.marks.peakVolume ==
            Highest(h.state.row.marks.peakVolume, RealVolumes(c, h.state, actions))
    decreases |actions|
  {
    hide Act, VolumeSeen;
    if actions != [] {
      VolumePeakStep(c, h.state, actions[0]);
      var h' := Extend(c, h, actions[0]);
      VolumePeakIsHighestRealVolume(c, h', actions[1..]);
      var seen := VolumeSeen(h.state, actions[0]);
      var rest := RealVolumes(c, h'.state, actions[1..]);
      if seen == [] { assert seen + rest == rest; } else { assert (seen + rest)[1..] == rest; }
    }
  }
}
