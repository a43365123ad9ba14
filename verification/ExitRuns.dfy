/** What holds over every run of ticks and manual closes of one position. */
module ExitRuns {
  import opened Outcomes
  import opened Reals
  import opened Ledger
  import opened ExitLadder
  import opened ExitActions

  // ---------- the ledger over a run ----------

  ghost function TokensOf(t: Terms, attempts: seq<Attempt>): real
    decreases |attempts|
  {
    if attempts == [] then 0.0
    else TokensOf(t, attempts[..|attempts| - 1]) +
         if attempts[|attempts| - 1].recorded then AmountAt(t.amountTokens, attempts[|attempts| - 1].pct) else 0.0
  }

  /** The stored book and the tokens of the recorded sells are those of replaying the run's ledger events. */
  ghost predicate Explained(t: Terms, start: Book, h: History) {
    && h.state.row.terms == t
    && Replay(t, Fresh(start), h.events).book == h.state.row.book
    && Replay(t, Fresh(start), h.events).tokensSold == TokensOf(t, h.attempts)
  }

  lemma {:induction false} ReplayOne(t: Terms, y: Tally, e: Event)
    ensures Replay(t, y, [e]) == Record(t, y, e)
  {}

  /** The effect of one close on the tally. */
  lemma {:induction false} CloseIsReplayed(t: Terms, y: Tally, retry: Option<real>, busy: bool, requested: real,
                                           trigger: real, reason: Reason, reconcileFirst: bool, i: CloseInput)
    ensures var z := CloseRow(t, y.book, retry, busy, requested, trigger, reason, reconcileFirst, i);
            var end := Replay(t, y, z.events);
            && end.book == z.book
            && end.tokensSold == y.tokensSold +
                 (if z.attempt.Some? && z.attempt.value.recorded
                  then AmountAt(t.amountTokens, z.attempt.value.pct) else 0.0)
  {
    hide Reconcile, Sell, Portion, AmountAt, Sellable, VerdictFor;
    var z := CloseRow(t, y.book, retry, busy, requested, trigger, reason, reconcileFirst, i);
    ReplayOne(t, y, Reconciled(i.balance));
    var looks := t.mode == Live && reconcileFirst;
    var y1 := if looks then Record(t, y, Reconciled(i.balance)) else y;
    if z.attempt.Some? && z.attempt.value.recorded {
      var sold := Sold(requested, trigger, i.outcome.fill);
      ReplayOne(t, y1, sold);
      if looks {
        assert z.events == [Reconciled(i.balance)] + [sold];
        ReplayConcat(t, y, [Reconciled(i.balance)], [sold]);
      }
    }
  }

  lemma {:induction false} ActIsReplayed(c: Settings, s: State, a: Action, y: Tally)
    requires y.book == s.row.book
    ensures var n := Act(c, s, a); var t := s.row.terms; var end := Replay(t, y, n.events);
            && n.state.row.terms == t && end.book == n.state.row.book
            && end.tokensSold == y.tokensSold +
                 (if n.attempt.Some? && n.attempt.value.recorded
                  then AmountAt(t.amountTokens, n.attempt.value.pct) else 0.0)
  {
    hide Reconcile, CloseRow, Ladder, Observe, AmountAt, VerdictFor, Sell, Portion;
    var t := s.row.terms;
    if y.book.status == Open && !(a.Monitored? && CoolingDown(s.retry, a.tick.now)) {
      var n := Act(c, s, a);
      var balance := if a.Monitored? then a.tick.balance else a.manual.balance;
      var e := Reconciled(balance);
      ReplayOne(t, y, e);
      var y1 := if t.mode == Live then Record(t, y, e) else y;
      var seen := if t.mode == Live then [e] else [];
      assert Replay(t, y, seen) == y1;
      if n.events != seen || n.attempt.Some? || n.state.row.book != y1.book {
        if a.Monitored? {
          var i := a.tick;
          var m := Observe(s.row.marks, i.market);
          var x := Ladder(c, i.rule, t, y1.book, m, i.market);
          CloseIsReplayed(t, y1, None, i.busy, x.pct, i.market.price, x.reason, x.reconcileFirst, i.close);
          ReplayConcat(t, y, seen, n.events[|seen|..]);
          assert n.events == seen + n.events[|seen|..];
        } else {
          var i := a.manual;
          CloseIsReplayed(t, y1, s.retry, i.busy, y1.book.remainingPct, i.price, Manual, true, i.close);
          ReplayConcat(t, y, seen, n.events[|seen|..]);
          assert n.events == seen + n.events[|seen|..];
        }
      }
    }
  }

  lemma {:induction false} RunIsExplained(c: Settings, start: Book, h: History, actions: seq<Action>)
    requires Explained(h.state.row.terms, start, h)
    ensures Explained(h.state.row.terms, start, Run(c, h, actions))
    decreases |actions|
  {
    hide Act, AmountAt, Record;
    if actions != [] {
      var t, n := h.state.row.terms, Act(c, h.state, actions[0]);
      var h' := Extend(c, h, actions[0]);
      var y := Replay(t, Fresh(start), h.events);
      ActIsReplayed(c, h.state, actions[0], y);
      ReplayConcat(t, Fresh(start), h.events, n.events);
      if n.attempt.Some? {
        assert h'.attempts[..|h'.attempts| - 1] == h.attempts;
      } else {
        assert h'.attempts == h.attempts;
      }
      RunIsExplained(c, start, h', actions[1..]);
    }
  }

  /** Over every run: basis is conserved, profit is what the totals say, the percentage never rises, a
      closed row is empty, and the recorded sells never hand out more tokens than left the book. */
  lemma {:induction false} RunConserves(c: Settings, row: Row, actions: seq<Action>)
    requires Opening(row.terms, row.book)
    ensures var h := Run(c, Begin(row), actions); var y := Replay(row.terms, Fresh(row.book), h.events);
            && h.state.row.terms == row.terms && y.book == h.state.row.book
            && Balanced(row.terms, row.book, y)
            && TokensOf(row.terms, h.attempts)
               <= AmountAt(row.terms.amountTokens, row.book.remainingPct - y.book.remainingPct)
            && TokensOf(row.terms, h.attempts) <= row.terms.amountTokens
  {
    hide Run, Replay, Balanced, AmountAt;
    BeginIsExplained(row);
    RunIsExplained(c, row.book, Begin(row), actions);
    var h := Run(c, Begin(row), actions);
    Conservation(row.terms, row.book, h.events);
    TokensStayWithin(row.terms, row.book, Replay(row.terms, Fresh(row.book), h.events));
  }

  lemma BeginIsExplained(row: Row)
    ensures Explained(row.terms, row.book, Begin(row))
  {}

  lemma TokensStayWithin(t: Terms, start: Book, y: Tally)
    requires Opening(t, start) && Balanced(t, start, y)
    ensures y.tokensSold <= AmountAt(t.amountTokens, start.remainingPct - y.book.remainingPct) <= t.amountTokens
  {
    AmountGrows(t.amountTokens, start.remainingPct - y.book.remainingPct, 100.0);
  }

  // ---------- one action ----------

  lemma CloseFacts(t: Terms, b: Book, retry: Option<real>, busy: bool, requested: real, trigger: real,
                   reason: Reason, reconcileFirst: bool, i: CloseInput)
    ensures var z := CloseRow(t, b, retry, busy, requested, trigger, reason, reconcileFirst, i);
            && (z.attempt.None? ==> z.status != SoldIt)
            && (z.attempt.Some? ==>
                  var q := z.attempt.value;
                  && !busy && q.reason == reason && q.pct == Sellable(q.before, requested) > 0.0
                  && q.before == b.(status := q.before.status, remainingPct := q.before.remainingPct)
                  && (!q.recorded ==> z.book == q.before)
                  && (q.acknowledged ==> q.recorded) && (q.acknowledged <==> z.status == SoldIt)
                  && (q.recorded && !q.acknowledged ==> i.outcome.FilledThenRaised?))
  {
    hide VerdictFor, Sell, Sellable;
  }

  lemma LadderFacts(c: Settings, r: Rule, t: Terms, b: Book, m: Marks, k: Market)
    ensures var x := Ladder(c, r, t, b, m, k);
            x.Exit? ==>
              && (x.reason == HardStop ==> PnlPct(t.entryPrice, k.price) <= -Abs(c.hardStopPct)
                                           && (m.defensiveDone || Abs(c.hardStopPct) < Abs(c.defensiveStopPct)))
              && (x.reason == DefensiveStop ==> !m.defensiveDone && x.pct == c.defensiveSellPct)
  {}

  function OutcomeOf(a: Action): SellOutcome {
    if a.Monitored? then a.tick.close.outcome else a.manual.close.outcome
  }

  /** What any action does besides the ledger: how its sell was sized, which reasons are possible in which
      state, and when the defensive flag moves. */
  lemma {:induction false} AttemptFacts(c: Settings, s: State, a: Action)
    ensures var n := Act(c, s, a); var before, after := s.row, n.state.row;
            && (n.attempt.None? ==> after.marks.defensiveDone == before.marks.defensiveDone)
            && (n.attempt.Some? ==>
                  var q := n.attempt.value;
                  && before.book.status == Open && 0.0 < q.pct <= q.before.remainingPct
                  && q.before == before.book.(status := q.before.status, remainingPct := q.before.remainingPct)
                  && (!q.recorded ==> after.book == q.before)
                  && (q.acknowledged ==> q.recorded)
                  && (q.recorded && !q.acknowledged ==> OutcomeOf(a).FilledThenRaised?)
                  && (q.reason == HardStop ==>
                        && a.Monitored? && PnlPct(before.terms.entryPrice, a.tick.market.price) <= -Abs(c.hardStopPct)
                        && (before.marks.defensiveDone || Abs(c.hardStopPct) < Abs(c.defensiveStopPct)))
                  && (q.reason == DefensiveStop ==>
                        && !before.marks.defensiveDone
                        && q.pct == Min(Max(0.0, c.defensiveSellPct), Max(0.0, q.before.remainingPct)))
                  && after.marks.defensiveDone ==
                    (before.marks.defensiveDone || (q.reason == DefensiveStop && q.acknowledged)))
  {
    hide VerdictFor, Reconcile, CloseRow, Ladder;
    if s.row.book.status == Open {
      var t, b := s.row.terms, s.row.book;
      var balance := if a.Monitored? then a.tick.balance else a.manual.balance;
      var b1 := if t.mode == Live then Reconcile(t, b, balance) else b;
      ReconcileKeepsTotals(t, b, balance);
      match a
      case Monitored(i) =>
        var m := Observe(s.row.marks, i.market);
        LadderFacts(c, i.rule, t, b1, m, i.market);
        var x := Ladder(c, i.rule, t, b1, m, i.market);
        if x.Exit? {
          CloseFacts(t, b1, None, i.busy, x.pct, i.market.price, x.reason, x.reconcileFirst, i.close);
        }
      case ClosedByHand(i) =>
        CloseFacts(t, b1, s.retry, i.busy, b1.remainingPct, i.price, Manual, true, i.close);
    }
  }

  lemma ReconcileKeepsTotals(t: Terms, b: Book, balance: Option<real>)
    ensures var r := Reconcile(t, b, balance); r == b.(status := r.status, remainingPct := r.remainingPct)
  {}

  /** A tick hands over at most one sell (an `Option`), none while exits are paused or trading is switched
      off, and on a simulated price none but the time exit; a busy exit lock stops every sell. */
  lemma {:induction false} TickRestraint(c: Settings, s: State, i: TickInput)
    ensures var n := Tick(c, s, i);
            n.attempt.Some? ==>
              && !CoolingDown(s.retry, i.now) && i.tradingEnabled && !i.busy
              && (i.market.priceSimulated ==> n.attempt.value.reason == TimeBased)
    ensures CoolingDown(s.retry, i.now) ==> Tick(c, s, i).state == s
    ensures i.market.priceSimulated ==> Tick(c, s, i).state.row.marks.peakPrice == s.row.marks.peakPrice
  {
    hide VerdictFor, Sell, FloorFires, TrailFires, PnlPct, DropPct;
  }

  /** A sell that was not recorded leaves percentage, basis, totals and status as they were, except for a
      lower percentage or an external close that the reconciliation just before it wrote. */
  lemma {:induction false} FailedSellsChangeNothing(c: Settings, s: State, a: Action)
    requires s.row.book.remainingPct >= 0.0
    ensures var n := Act(c, s, a); var b, b' := s.row.book, n.state.row.book;
            !(n.attempt.Some? && n.attempt.value.recorded) ==>
              b' == b.(status := b'.status, remainingPct := b'.remainingPct) && b'.remainingPct <= b.remainingPct
    ensures s.row.terms.mode == Paper ==>
            var n := Act(c, s, a); !(n.attempt.Some? && n.attempt.value.recorded) ==> n.state.row.book == s.row.book
  {
    hide Reconcile, VerdictFor, SoldOutside, Sell, Ladder, Observe;
    if s.row.book.status == Open {
      var t, b := s.row.terms, s.row.book;
      var balance := if a.Monitored? then a.tick.balance else a.manual.balance;
      var closing := if a.Monitored? then a.tick.close.balance else a.manual.close.balance;
      ReconcileOnlyLowers(t, b, balance);
      ReconcileOnlyLowers(t, b, closing);
      ReconcileOnlyLowers(t, Reconcile(t, b, balance), closing);
    }
  }

  lemma {:induction false} AttemptsArePositive(c: Settings, h: History, actions: seq<Action>)
    requires forall q <- h.attempts :: q.pct > 0.0
    ensures forall q <- Run(c, h, actions).attempts :: q.pct > 0.0
    decreases |actions|
  {
    hide Act;
    if actions != [] {
      AttemptFacts(c, h.state, actions[0]);
      AttemptsArePositive(c, Extend(c, h, actions[0]), actions[1..]);
    }
  }

  /** The tick gets as far as the exit rules. */
  predicate ReachesRules(s: State, i: TickInput) {
    && s.row.book.status == Open && !CoolingDown(s.retry, i.now)
    && !(s.row.terms.mode == Live && SoldOutside(s.row.terms, s.row.book, i.balance))
    && i.tradingEnabled && i.tokenKnown
  }

  /** What makes a sell due: the age limit, at any price; and at a real price a loss at the hard stop, the stop
      level reached, a real volume that has dropped far enough from its peak, or the take-profit gain not yet
      taken. */
  ghost predicate ExitIsDue(c: Settings, r: Rule, entry: real, m: Marks, k: Market) {
    || (r.timeExitSeconds != 0.0 && k.ageSeconds >= r.timeExitSeconds)
    || (!k.priceSimulated &&
          (|| PnlPct(entry, k.price) <= -Abs(c.hardStopPct)
           || Reached(k.price, StopLevel(c, entry, m.peakPrice))
           || (!k.volumeSimulated && r.volumeDropPct != 0.0 && m.peakVolume > 0.0
               && k.volume <= PriceAt(m.peakVolume, -r.volumeDropPct))
           || (PnlPct(entry, k.price) >= TAKE_PROFIT_GAIN_PCT && 0 !in m.tpHits)))
  }

  /** A due sell is chosen by the ladder, for everything that is left unless it is the defensive part. */
  lemma {:induction false} DueExitIsChosen(c: Settings, r: Rule, t: Terms, b: Book, m: Marks, k: Market)
    requires t.entryPrice > 0.0 && b.status == Open && Sound(b) && c.defensiveSellPct > 0.0
    requires ExitIsDue(c, r, t.entryPrice, m, k)
    ensures var x := Ladder(c, r, t, b, m, k);
            x.Exit? && x.pct > 0.0 && (x.reason == DefensiveStop || x.pct == b.remainingPct)
  {
    hide PnlPct, StopLevel, FloorFires, TrailFires, DropPct, PriceAt;
    if m.peakVolume > 0.0 { DropVersusPrice(m.peakVolume, k.volume, r.volumeDropPct); }
    if !k.priceSimulated && PnlPct(t.entryPrice, k.price) > -Abs(c.hardStopPct)
       && (m.defensiveDone || PnlPct(t.entryPrice, k.price) > -Abs(c.defensiveStopPct))
       && !(r.timeExitSeconds != 0.0 && k.ageSeconds >= r.timeExitSeconds)
    {
      StopLevelIsExact(c, r, t, b, m, k);
    }
  }

  /** And a close under a free lock, with an adapter and nothing sold outside, hands it over. */
  lemma CloseHandsOver(t: Terms, b: Book, retry: Option<real>, requested: real, trigger: real, reason: Reason,
                       reconcileFirst: bool, i: CloseInput)
    requires requested > 0.0 && b.remainingPct > 0.0 && !i.outcome.NoAdapter?
    requires reconcileFirst ==> VerdictFor(t, b, i.balance) == Keep
    ensures var z := CloseRow(t, b, retry, false, requested, trigger, reason, reconcileFirst, i);
            && z.attempt.Some? && z.attempt.value.reason == reason && z.attempt.value.before == b
            && z.attempt.value.pct == Min(requested, b.remainingPct)
  {
    hide VerdictFor, Sell;
  }

  /** A tick that reaches the rules while a sell is due hands one over, of everything that is left unless it is
      the defensive part, whenever the lock is free and an adapter can be had. */
  lemma {:induction false} DueExitsAreAttempted(c: Settings, s: State, i: TickInput)
    requires ReachesRules(s, i) && s.row.terms.entryPrice > 0.0 && Sound(s.row.book)
    requires c.defensiveSellPct > 0.0 && !i.busy && !i.close.outcome.NoAdapter?
    requires var t, b := s.row.terms, Reconcile(s.row.terms, s.row.book, i.balance);
             var x := Ladder(c, i.rule, t, b, Observe(s.row.marks, i.market), i.market);
             x.Exit? && x.reconcileFirst ==> VerdictFor(t, b, i.close.balance) == Keep
    requires ExitIsDue(c, i.rule, s.row.terms.entryPrice, Observe(s.row.marks, i.market), i.market)
    ensures var n := Tick(c, s, i);
            && n.attempt.Some?
            && (n.attempt.value.reason == DefensiveStop || n.attempt.value.pct == n.attempt.value.before.remainingPct)
  {
    hide PnlPct, StopLevel, Ladder, CloseRow, VerdictFor, Reconcile, SoldOutside, Observe;
    var t, b, m := s.row.terms, Reconcile(s.row.terms, s.row.book, i.balance), Observe(s.row.marks, i.market);
    ReconcileStaysSound(t, s.row.book, i.balance);
    ReconcileCases(t, s.row.book, i.balance);
    DueExitIsChosen(c, i.rule, t, b, m, i.market);
    var x := Ladder(c, i.rule, t, b, m, i.market);
    CloseHandsOver(t, b, None, x.pct, i.market.price, x.reason, x.reconcileFirst, i.close);
  }

  // ---------- stop ordering ----------

  ghost predicate IsDefensive(q: Attempt) { q.reason == DefensiveStop && q.acknowledged }

  ghost predicate StopsInOrder(h: History) {
    && (h.state.row.marks.defensiveDone ==> exists j :: 0 <= j < |h.attempts| && IsDefensive(h.attempts[j]))
    && (forall i :: 0 <= i < |h.attempts| && h.attempts[i].reason == HardStop ==>
          exists j :: 0 <= j < i && IsDefensive(h.attempts[j]))
  }

  ghost predicate NoNegativePrice(actions: seq<Action>) {
    forall a <- actions :: a.Monitored? ==> a.tick.market.price >= 0.0
  }

  ghost predicate OrderedInEveryRun(c: Settings) {
    forall row: Row, actions: seq<Action> ::
      !row.marks.defensiveDone && NoNegativePrice(actions) ==> StopsInOrder(Run(c, Begin(row), actions))
  }

  /** In every run each hard-stop sell handed over comes after a defensive sell whose success was noted, exactly
      when the hard stop is set at least as far down as the defensive one or beyond a total loss. */
  lemma {:induction false} HardStopNeedsDefensive(c: Settings)
    ensures OrderedInEveryRun(c) <==> Abs(c.defensiveStopPct) <= Abs(c.hardStopPct) || Abs(c.hardStopPct) > 100.0
  {
    hide StopsInOrder, Run;
    if Abs(c.defensiveStopPct) <= Abs(c.hardStopPct) || Abs(c.hardStopPct) > 100.0 {
      forall row: Row, actions: seq<Action> | !row.marks.defensiveDone && NoNegativePrice(actions)
        ensures StopsInOrder(Run(c, Begin(row), actions))
      {
        assert StopsInOrder(Begin(row)) by { NoAttemptsInOrder(row); }
        StopsStayInOrder(c, Begin(row), actions);
      }
    } else {
      var fill := Fill(1.0, None);
      var actions := [Monitored(SampleTick(1.0 - Abs(c.hardStopPct) / 100.0, Filled(fill)))];
      NearerHardStopComesFirst(c, fill);
      FirstHardStopIsOutOfOrder(Run(c, Begin(SampleRow()), actions));
      assert !SampleRow().marks.defensiveDone && NoNegativePrice(actions);
    }
  }

  lemma NoAttemptsInOrder(row: Row)
    requires !row.marks.defensiveDone
    ensures StopsInOrder(Begin(row))
  {}

  lemma FirstHardStopIsOutOfOrder(h: History)
    requires |h.attempts| > 0 && h.attempts[0].reason == HardStop
    ensures !StopsInOrder(h)
  {}

  lemma LossIsAtMostTotal(entry: real, price: real)
    requires price >= 0.0
    ensures PnlPct(entry, price) >= -100.0
  {
    if entry > 0.0 { PnlVersusPrice(entry, price, -100.0); }
  }

  lemma {:induction false} StopsStayInOrder(c: Settings, h: History, actions: seq<Action>)
    requires Abs(c.defensiveStopPct) <= Abs(c.hardStopPct) || Abs(c.hardStopPct) > 100.0
    requires StopsInOrder(h) && NoNegativePrice(actions)
    ensures StopsInOrder(Run(c, h, actions))
    decreases |actions|
  {
    hide Act, PnlPct;
    if actions != [] {
      var h' := Extend(c, h, actions[0]);
      AttemptFacts(c, h.state, actions[0]);
      var n := Act(c, h.state, actions[0]);
      if n.attempt.Some? {
        if actions[0].Monitored? { LossIsAtMostTotal(h.state.row.terms.entryPrice, actions[0].tick.market.price); }
        assert h'.attempts == h.attempts + [n.attempt.value];
        assert forall j :: 0 <= j < |h.attempts| ==> h'.attempts[j] == h.attempts[j];
        if IsDefensive(n.attempt.value) { assert IsDefensive(h'.attempts[|h.attempts|]); }
      } else {
        assert h'.attempts == h.attempts;
      }
      StopsStayInOrder(c, h', actions[1..]);
    }
  }

  // ---------- how often the defensive stop sells ----------

  ghost predicate RecordedDefensive(q: Attempt) { q.reason == DefensiveStop && q.recorded }

  ghost predicate UnnoticedDefensive(q: Attempt) { RecordedDefensive(q) && !q.acknowledged }

  ghost function Count(attempts: seq<Attempt>, p: Attempt -> bool): nat
    decreases |attempts|
  {
    if attempts == [] then 0
    else Count(attempts[..|attempts| - 1], p) + if p(attempts[|attempts| - 1]) then 1 else 0
  }

  ghost predicate DefensiveSellsAddUp(h: History) {
    Count(h.attempts, RecordedDefensive) ==
    Count(h.attempts, UnnoticedDefensive) + if h.state.row.marks.defensiveDone then 1 else 0
  }

  /** For all settings and runs: the defensive sells that the row recorded are the one that was noted, if any,
      and those whose caller met an exception behind the row update. So at most one is recorded exactly when
      at most one is unnoticed and none was noted besides; without such an exception there is never a second. */
  lemma {:induction false} DefensiveSellsCounted(c: Settings, row: Row, actions: seq<Action>)
    requires !row.marks.defensiveDone
    ensures var h := Run(c, Begin(row), actions); var unnoticed := Count(h.attempts, UnnoticedDefensive);
            && DefensiveSellsAddUp(h)
            && (Count(h.attempts, RecordedDefensive) <= 1 <==>
                  unnoticed == 0 || (unnoticed == 1 && !h.state.row.marks.defensiveDone))
            && ((forall a <- actions :: !OutcomeOf(a).FilledThenRaised?) ==> unnoticed == 0)
  {
    DefensiveSellsCountedFrom(c, Begin(row), actions);
  }

  lemma {:induction false} DefensiveSellsCountedFrom(c: Settings, h: History, actions: seq<Action>)
    requires DefensiveSellsAddUp(h)
    ensures var end := Run(c, h, actions);
            && DefensiveSellsAddUp(end)
            && ((forall a <- actions :: !OutcomeOf(a).FilledThenRaised?) ==>
                  Count(end.attempts, UnnoticedDefensive) == Count(h.attempts, UnnoticedDefensive))
    decreases |actions|
  {
    hide Act;
    if actions != [] {
      var h' := Extend(c, h, actions[0]);
      AttemptFacts(c, h.state, actions[0]);
      var n := Act(c, h.state, actions[0]);
      if n.attempt.Some? {
        assert h'.attempts == h.attempts + [n.attempt.value];
        assert h'.attempts[..|h.attempts|] == h.attempts;
      } else {
        assert h'.attempts == h.attempts;
      }
      DefensiveSellsCountedFrom(c, h', actions[1..]);
    }
  }

  /** The ordering needs that condition: with a nearer hard stop, a fresh position is hard-stopped first. */
  lemma {:induction false} NearerHardStopComesFirst(c: Settings, fill: Fill)
    requires Abs(c.hardStopPct) < Abs(c.defensiveStopPct) && Abs(c.hardStopPct) <= 100.0
    ensures var tick := SampleTick(1.0 - Abs(c.hardStopPct) / 100.0, Filled(fill));
            var h := Run(c, Begin(SampleRow()), [Monitored(tick)]);
            |h.attempts| == 1 && h.attempts[0].reason == HardStop
  {
    var price := 1.0 - Abs(c.hardStopPct) / 100.0;
    var row := SampleRow();
    var i := SampleTick(price, Filled(fill));
    PnlVersusPrice(1.0, price, -Abs(c.hardStopPct));
    PnlVersusPrice(1.0, price, -Abs(c.defensiveStopPct));
    assert !(PnlPct(1.0, price) <= -Abs(c.defensiveStopPct));
    assert Ladder(c, i.rule, row.terms, row.book, Observe(row.marks, i.market), i.market) ==
        Exit(100.0, HardStop, false);
    var h := Run(c, Begin(row), [Monitored(i)]);
    FirstActions(c, Begin(row), Monitored(i), Monitored(i));
  }

  /** And it does happen: a sell that is recorded but whose caller gets an exception leaves the defensive flag
      down, so the next tick sells defensively once more. */
  lemma {:induction false} DefensiveRepeatsAfterError(fill: Fill)
    ensures var i := Monitored(SampleTick(0.8, FilledThenRaised(fill)));
            var h := Run(DEFAULTS, Begin(SampleRow()), [i, i]);
            && |h.attempts| == 2 && (forall q <- h.attempts :: q.reason == DefensiveStop && q.recorded)
  {
    var row := SampleRow();
    var i := SampleTick(0.8, FilledThenRaised(fill));
    PnlVersusPrice(1.0, 0.8, -15.0);
    var h1 := Extend(DEFAULTS, Begin(row), Monitored(i));
    assert h1.state.row.book.remainingPct == 20.0 && h1.state.row.book.status == Open;
    assert h1.state.retry == None && !h1.state.row.marks.defensiveDone;
    var h2 := Extend(DEFAULTS, h1, Monitored(i));
    FirstActions(DEFAULTS, Begin(row), Monitored(i), Monitored(i));
  }

  lemma RunOne(c: Settings, h: History, a: Action)
    ensures Run(c, h, [a]) == Extend(c, h, a)
  {}

  lemma FirstActions(c: Settings, h: History, a: Action, b: Action)
    ensures Run(c, h, [a]) == Extend(c, h, a)
    ensures Run(c, h, [a, b]) == Extend(c, Extend(c, h, a), b)
  {
    hide Extend;
    RunOne(c, h, a);
    RunOne(c, Extend(c, h, a), b);
    assert [a, b][1..] == [b];
  }

  function SampleRow(): Row {
    Row(Terms(Paper, SolanaLaunch, 100.0, 1.0, 1.0), Book(Open, 100.0, 1.0, 0.0, 0.0, 0.0), Marks(1.0, 0.0, false, []))
  }

  function SampleTick(price: real, outcome: SellOutcome): TickInput {
    TickInput(0.0, None, true, true, Market(price, false, 0.0, true, 0.0), Rule(0.0, 0.0), false,
              CloseInput(None, outcome, 0.0))
  }

  // ---------- the stored peak ----------

  /** The tick gets as far as the peak update, with a real price. */
  predicate SeesRealPrice(s: State, a: Action) {
    a.Monitored? && ReachesRules(s, a.tick) && !a.tick.market.priceSimulated
  }

  function PriceSeen(s: State, a: Action): seq<real> {
    if SeesRealPrice(s, a) then [a.tick.market.price] else []
  }

  ghost function RealPrices(c: Settings, s: State, actions: seq<Action>): seq<real>
    decreases |actions|
  {
    if actions == [] then []
    else PriceSeen(s, actions[0]) +
         RealPrices(c, Act(c, s, actions[0]).state, actions[1..])
  }

  ghost function Highest(start: real, prices: seq<real>): real
    decreases |prices|
  {
    if prices == [] then start else Highest(Max(start, prices[0]), prices[1..])
  }

  lemma {:induction false} PeakStep(c: Settings, s: State, a: Action)
    ensures var after := Act(c, s, a).state.row;
            after.terms == s.row.terms &&
            after.marks.peakPrice == Highest(s.row.marks.peakPrice, PriceSeen(s, a))
            && |PriceSeen(s, a)| <= 1
  {}

  /** After any run the stored peak is the greatest of the opening peak and the real prices of the ticks
      that reached the update: it never falls, dominates each of them, and moves on nothing else. */
  lemma {:induction false} PeakIsHighestRealPrice(c: Settings, h: History, actions: seq<Action>)
    ensures var end := Run(c, h, actions).state.row;
            end.terms == h.state.row.terms &&
            end.marks.peakPrice == Highest(h.state.row.marks.peakPrice, RealPrices(c, h.state, actions))
    decreases |actions|
  {
    hide Act, PriceSeen;
    if actions != [] {
      var p := h.state.row.marks.peakPrice;
      PeakStep(c, h.state, actions[0]);
      var h' := Extend(c, h, actions[0]);
      PeakIsHighestRealPrice(c, h', actions[1..]);
      var seen := PriceSeen(h.state, actions[0]);
      var rest := RealPrices(c, h'.state, actions[1..]);
      if seen == [] { assert seen + rest == rest; } else { assert (seen + rest)[1..] == rest; }
    }
  }

  lemma {:induction false} HighestDominates(start: real, prices: seq<real>)
    ensures Highest(start, prices) >= start
    ensures forall p <- prices :: Highest(start, prices) >= p
    decreases |prices|
  {
    if prices != [] {
      HighestDominates(Max(start, prices[0]), prices[1..]);
      assert prices == [prices[0]] + prices[1..];
    }
  }

  // ---------- take profit ----------

  ghost predicate Sound(b: Book) {
    if b.status == Open then 0.0 < b.remainingPct <= 100.0 else b.remainingPct == 0.0
  }

  lemma {:induction false} ReconcileStaysSound(t: Terms, b: Book, balance: Option<Balance>)
    requires b.status == Open && Sound(b)
    ensures var r := Reconcile(t, b, balance); Sound(r) && r.remainingPct <= b.remainingPct
  {}

  /** A close keeps the book sound, and a recorded sell of all that is left closes it. */
  lemma {:induction false} CloseStaysSound(t: Terms, b: Book, retry: Option<real>, busy: bool,
                                           requested: real, trigger: real,
                                           reason: Reason, reconcileFirst: bool, i: CloseInput)
    requires b.status == Open && Sound(b)
    ensures var z := CloseRow(t, b, retry, busy, requested, trigger, reason, reconcileFirst, i);
            && Sound(z.book)
            && (requested >= b.remainingPct && z.status == SoldIt ==> z.book.status == Closed)
            && (!busy && i.outcome.Filled? && requested > 0.0 && VerdictFor(t, b, i.balance) == Keep
                ==> z.status == SoldIt)
  {
    hide VerdictFor;
    ReconcileStaysSound(t, b, i.balance);
  }

  ghost predicate ProfitMarkedWhenEmpty(row: Row) {
    Sound(row.book) && (0 in row.marks.tpHits ==> row.book.remainingPct == 0.0)
  }

  lemma {:induction false} ProfitMarkStep(c: Settings, s: State, a: Action)
    requires ProfitMarkedWhenEmpty(s.row)
    ensures ProfitMarkedWhenEmpty(Act(c, s, a).state.row)
  {
    hide VerdictFor, Reconcile, SoldOutside, CloseRow, PnlPct, FloorFires, TrailFires, DropPct;
    if s.row.book.status == Open {
      var t, b := s.row.terms, s.row.book;
      var balance := if a.Monitored? then a.tick.balance else a.manual.balance;
      ReconcileStaysSound(t, b, balance);
      ReconcileCases(t, b, balance);
      var b1 := Reconcile(t, b, balance);
      if b1.status == Open {
        match a
        case Monitored(i) =>
          var m := Observe(s.row.marks, i.market);
          var x := Ladder(c, i.rule, t, b1, m, i.market);
          if x.Exit? {
            CloseStaysSound(t, b1, None, i.busy, x.pct, i.market.price, x.reason, x.reconcileFirst, i.close);
          }
        case ClosedByHand(i) =>
          CloseStaysSound(t, b1, s.retry, i.busy, b1.remainingPct, i.price, Manual, true, i.close);
      }
    }
  }

  lemma ReconcileCases(t: Terms, b: Book, balance: Option<real>)
    ensures t.mode == Paper ==> Reconcile(t, b, balance) == b
    ensures VerdictFor(t, b, balance) == Keep ==> Reconcile(t, b, balance) == b && !SoldOutside(t, b, balance)
    ensures b.status == Open && !SoldOutside(t, b, balance) ==> Reconcile(t, b, balance).status == Open
    ensures VerdictFor(t, b, balance) == CloseOut ==> Reconcile(t, b, balance).status == Closed
    ensures !VerdictFor(t, b, balance).CloseOut? ==> Reconcile(t, b, balance).status == b.status
  {}

  /** In every run the take-profit level is recorded only on an emptied position. */
  lemma {:induction false} ProfitIsMarkedWhenEmpty(c: Settings, h: History, actions: seq<Action>)
    requires ProfitMarkedWhenEmpty(h.state.row)
    ensures ProfitMarkedWhenEmpty(Run(c, h, actions).state.row)
    decreases |actions|
  {
    hide Act, ProfitMarkedWhenEmpty;
    if actions != [] {
      ProfitMarkStep(c, h.state, actions[0]);
      ProfitIsMarkedWhenEmpty(c, Extend(c, h, actions[0]), actions[1..]);
    }
  }
}
