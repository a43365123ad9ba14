/** The manager object itself: the exit lock, the retry pauses and the stored rows it updates in place
    (backend/app/positions/manager.py). Each method is proved to do exactly what ExitActions says. */
module PositionManager {
  import opened Outcomes
  import opened Reals
  import opened Ledger
  import opened ExitLadder
  import opened ExitActions

  function RetryOf(pauses: map<int, real>, id: int): Option<real> {
    if id in pauses then Some(pauses[id]) else None
  }

  function WithRetry(pauses: map<int, real>, id: int, retry: Option<real>): map<int, real> {
    if retry.Some? then pauses[id := retry.value] else pauses - {id}
  }

  class Manager {
    const settings: Settings
    var exitInProgress: set<int>
    var exitRetryAfter: map<int, real>
    var rows: map<int, Row>

    constructor (settings: Settings, rows: map<int, Row>)
      ensures this.settings == settings && this.rows == rows && exitInProgress == {} && exitRetryAfter == map[]
    {
      this.settings, this.rows := settings, rows;
      exitInProgress, exitRetryAfter := {}, map[];
    }

    method TryBeginExit(id: int) returns (won: bool)
      modifies this`exitInProgress
      ensures won <==> id !in old(exitInProgress)
      ensures exitInProgress == old(exitInProgress) + {id}
    {
      if id in exitInProgress { return false; }
      exitInProgress := exitInProgress + {id};
      won := true;
    }

    method FinishExit(id: int)
      modifies this`exitInProgress
      ensures exitInProgress == old(exitInProgress) - {id}
    {
      exitInProgress := exitInProgress - {id};
    }

    method AutomatedExitOnCooldown(id: int, now: real) returns (paused: bool)
      modifies this`exitRetryAfter
      ensures paused <==> CoolingDown(RetryOf(old(exitRetryAfter), id), now)
      ensures exitRetryAfter == if paused then old(exitRetryAfter) else old(exitRetryAfter) - {id}
    {
      if id !in exitRetryAfter {
        assert exitRetryAfter == exitRetryAfter - {id};
        return false;
      }
      if now >= exitRetryAfter[id] {
        exitRetryAfter := exitRetryAfter - {id};
        return false;
      }
      paused := true;
    }

    method ReconcileLivePosition(id: int, balance: Option<Balance>) returns (changed: bool)
      requires id in rows
      modifies this`rows
      ensures var row := old(rows)[id];
              && rows == old(rows)[id := row.(book := Reconcile(row.terms, row.book, balance))]
              && (changed <==> VerdictFor(row.terms, row.book, balance) != Keep)
    {
      var row := rows[id];
      var terms, book := row.terms, row.book;
      assert rows == rows[id := row.(book := book)];
      if terms.source == Fourmeme || terms.mode != Live || balance.None? { return false; }
      if terms.source != Pons && terms.amountTokens <= 0.0 { return false; }
      var actual := balance.value;
      var original := Max(0.0, terms.amountTokens);
      var tracked := Max(0.0, book.remainingPct);
      var expected := if terms.source == Doppler then AmountAtScaled(original, tracked)
                      else AmountAt(original, tracked);
      if actual >= expected { return false; }
      if expected > 0.0 && ShortfallPct(expected, actual) < RECONCILIATION_TOLERANCE_PCT { return false; }
      if actual <= 0.0 {
        rows := rows[id := row.(book := book.(status := Closed, remainingPct := 0.0))];
        return true;
      }
      var pct := Max(0.0, Min(if original != 0.0 then SharePct(actual, original) else 0.0, tracked));
      rows := rows[id := row.(book := book.(remainingPct := pct))];
      changed := true;
    }

    /** The test that follows every reconciliation. */
    method FindsNothingLeft(id: int, balance: Option<Balance>) returns (gone: bool)
      requires id in rows
      modifies this`rows
      ensures var row := old(rows)[id];
              && rows == old(rows)[id := row.(book := Reconcile(row.terms, row.book, balance))]
              && (gone <==> SoldOutside(row.terms, row.book, balance))
    {
      hide VerdictFor, Reconcile;
      var changed := ReconcileLivePosition(id, balance);
      gone := changed && (rows[id].book.status == Closed || rows[id].book.remainingPct <= DUST_PCT);
    }

    /** The writes after a confirmed sell. */
    method RecordSell(id: int, pct: real, trigger: real, fill: Fill)
      requires id in rows
      modifies this`rows, this`exitRetryAfter
      ensures var row := old(rows)[id];
              rows == old(rows)[id := row.(book := Sell(row.terms, row.book, pct, trigger, fill))]
      ensures exitRetryAfter == old(exitRetryAfter) - {id}
    {
      hide Portion, Settle;
      exitRetryAfter := exitRetryAfter - {id};
      var row := rows[id];
      var book := row.book;
      var portion := Portion(row.terms, book, pct);
      var settled := Settle(row.terms, portion, trigger, fill);
      var left := Max(0.0, book.remainingPct - pct);
      var basisLeft := Max(0.0, book.basis - portion);
      book := book.(realized := book.realized + settled.pnl, proceeds := book.proceeds + settled.proceeds,
                    fees := book.fees + settled.fee);
      if left <= DUST_PCT {
        book := book.(status := Closed, remainingPct := 0.0, basis := 0.0);
      } else {
        book := book.(remainingPct := left, basis := basisLeft);
      }
      rows := rows[id := row.(book := book)];
    }

    /** What runs between taking and releasing the exit lock. */
    method SellHoldingLock(id: int, requested: real, trigger: real, reason: Reason, reconcileFirst: bool, i: CloseInput)
      returns (status: CloseStatus, attempt: Option<Attempt>)
      requires id in rows && id in exitInProgress
      modifies this`rows, this`exitRetryAfter
      ensures var row := old(rows)[id];
              var z := CloseRow(row.terms, row.book, RetryOf(old(exitRetryAfter), id), false,
                                requested, trigger, reason, reconcileFirst, i);
              && rows == old(rows)[id := row.(book := z.book)]
              && exitRetryAfter == WithRetry(old(exitRetryAfter), id, z.retry)
              && status == z.status && attempt == z.attempt
      ensures status == SoldIt <==> attempt.Some? && attempt.value.acknowledged
    {
      hide VerdictFor, Reconcile, Sell, SoldOutside, Sellable;
      ghost var pauses := exitRetryAfter;
      assert pauses == WithRetry(pauses, id, RetryOf(pauses, id));
      status, attempt := NotSold, None;
      if rows[id].terms.mode == Live && reconcileFirst {
        var gone := FindsNothingLeft(id, i.balance);
        if gone { return; }
      }
      var row := rows[id];
      var terms, book := row.terms, row.book;
      var pct := Sellable(book, requested);
      if pct <= 0.0 { return; }
      match i.outcome {
        case NoAdapter =>
          status := Raised;
        case LostBeforeWrite(pauseEnded) =>
          if pauseEnded { exitRetryAfter := exitRetryAfter - {id}; }
          status, attempt := Raised, Some(Attempt(reason, pct, book, false, false));
        case Refused =>
          attempt := Some(Attempt(reason, pct, book, false, false));
          if PausesRetries(reason) { exitRetryAfter := exitRetryAfter[id := i.now + 60.0]; }
        case _ =>
          RecordSell(id, pct, trigger, i.outcome.fill);
          status := if i.outcome.Filled? then SoldIt else Raised;
          attempt := Some(Attempt(reason, pct, row.book, true, i.outcome.Filled?));
      }
    }

    /** Only the exit that took the lock releases it, on every path, exceptions included; one that finds
        the lock taken changes nothing. */
    method ClosePosition(id: int, requested: real, trigger: real, reason: Reason, reconcileFirst: bool, i: CloseInput)
      returns (status: CloseStatus, attempt: Option<Attempt>)
      requires id in rows
      modifies this
      ensures exitInProgress == old(exitInProgress)
      ensures var row := old(rows)[id];
              var z := CloseRow(row.terms, row.book, RetryOf(old(exitRetryAfter), id), id in old(exitInProgress),
                                requested, trigger, reason, reconcileFirst, i);
              && rows == old(rows)[id := row.(book := z.book)]
              && exitRetryAfter == WithRetry(old(exitRetryAfter), id, z.retry)
              && status == z.status && attempt == z.attempt
      ensures status == SoldIt <==> attempt.Some? && attempt.value.acknowledged
    {
      hide VerdictFor, Reconcile, Sell, Sellable, SoldOutside;
      var won := TryBeginExit(id);
      if !won {
        assert rows == rows[id := rows[id].(book := rows[id].book)];
        assert exitRetryAfter == WithRetry(exitRetryAfter, id, RetryOf(exitRetryAfter, id));
        return NotSold, None;
      }
      status, attempt := SellHoldingLock(id, requested, trigger, reason, reconcileFirst, i);
      FinishExit(id);
    }

    /** One tick on a freshly read open row. `i.busy` must say whether another exit holds the lock. */
    method CheckPosition(id: int, i: TickInput) returns (attempt: Option<Attempt>)
      requires id in rows && rows[id].book.status == Open && i.busy == (id in exitInProgress)
      modifies this
      ensures exitInProgress == old(exitInProgress)
      ensures var n := Tick(settings, State(old(rows)[id], RetryOf(old(exitRetryAfter), id)), i);
              && rows == old(rows)[id := n.state.row]
              && exitRetryAfter == WithRetry(old(exitRetryAfter), id, n.state.retry)
              && attempt == n.attempt
    {
      hide VerdictFor, Reconcile, Resolve, SoldOutside, Observe;
      ghost var pauses := exitRetryAfter;
      attempt := None;
      var paused := AutomatedExitOnCooldown(id, i.now);
      if paused {
        assert exitRetryAfter == WithRetry(pauses, id, RetryOf(pauses, id));
        assert rows == rows[id := rows[id]];
        return;
      }
      if rows[id].terms.mode == Live {
        var gone := FindsNothingLeft(id, i.balance);
        if gone { return; }
      }
      assert rows == old(rows)[id := rows[id]];
      if !i.tradingEnabled || !i.tokenKnown { return; }

      RecordPeaks(id, i.market);
      attempt := EvaluateExits(id, i);
    }

    /** Peaks move on real observations only. */
    method RecordPeaks(id: int, market: Market)
      requires id in rows
      modifies this`rows
      ensures var row := old(rows)[id]; rows == old(rows)[id := row.(marks := Observe(row.marks, market))]
    {
      var marks := rows[id].marks;
      if !market.priceSimulated { marks := marks.(peakPrice := Max(marks.peakPrice, market.price)); }
      if !market.volumeSimulated { marks := marks.(peakVolume := Max(marks.peakVolume, market.volume)); }
      rows := rows[id := rows[id].(marks := marks)];
    }

    /** The exit rules in their fixed order; at most one of them gets to sell. */
    method EvaluateExits(id: int, i: TickInput) returns (attempt: Option<Attempt>)
      requires id in rows && id !in exitRetryAfter && i.busy == (id in exitInProgress)
      modifies this
      ensures exitInProgress == old(exitInProgress)
      ensures var n := Resolve(settings, old(rows)[id], i);
              && rows == old(rows)[id := n.state.row]
              && exitRetryAfter == WithRetry(old(exitRetryAfter), id, n.state.retry)
              && attempt == n.attempt
    {
      hide CloseRow, PnlPct, DropPct, FloorPct, TrailPct, Observe, Abs, ProfitChoice;
      attempt := None;
      assert rows == rows[id := rows[id]] && exitRetryAfter == exitRetryAfter - {id};
      var market, terms, marks := i.market, rows[id].terms, rows[id].marks;
      var pnl := PnlPct(terms.entryPrice, market.price);
      var all := rows[id].book.remainingPct;
      if i.rule.timeExitSeconds != 0.0 && market.ageSeconds >= i.rule.timeExitSeconds {
        var _, q := ClosePosition(id, all, market.price, TimeBased, false, i.close);
        return q;
      }
      if market.priceSimulated { return; }
      if !marks.defensiveDone && pnl <= -Abs(settings.defensiveStopPct) {
        var status, q := ClosePosition(id, settings.defensiveSellPct, market.price, DefensiveStop, false, i.close);
        if status == SoldIt { rows := rows[id := rows[id].(marks := marks.(defensiveDone := true))]; }
        return q;
      }
      if pnl <= -Abs(settings.hardStopPct) {
        var _, q := ClosePosition(id, all, market.price, HardStop, false, i.close);
        return q;
      }
      var peakPnl := PnlPct(terms.entryPrice, marks.peakPrice);
      var floor := FloorPct(settings, peakPnl);
      if floor.Some? && pnl <= floor.value {
        var _, q := ClosePosition(id, all, market.price, ProfitFloor, false, i.close);
        return q;
      }
      var trail := TrailPct(settings, peakPnl);
      if trail.Some? && marks.peakPrice > 0.0 && DropPct(marks.peakPrice, market.price) >= trail.value {
        var _, q := ClosePosition(id, all, market.price, Trailing, false, i.close);
        return q;
      }
      if !market.volumeSimulated && i.rule.volumeDropPct != 0.0 && marks.peakVolume > 0.0
         && DropPct(marks.peakVolume, market.volume) >= i.rule.volumeDropPct {
        var _, q := ClosePosition(id, all, market.price, VolumeDrop, false, i.close);
        return q;
      }
      attempt := TakeProfitLevel(id, pnl, i);
    }

    /** The one take-profit level, after all other rules. */
    method TakeProfitLevel(id: int, pnl: real, i: TickInput) returns (attempt: Option<Attempt>)
      requires id in rows && id !in exitRetryAfter && i.busy == (id in exitInProgress)
      modifies this
      ensures exitInProgress == old(exitInProgress)
      ensures var row := old(rows)[id]; var n := CarryOut(row, ProfitChoice(row.book, row.marks, pnl), i);
              && rows == old(rows)[id := n.state.row]
              && exitRetryAfter == WithRetry(old(exitRetryAfter), id, n.state.retry)
              && attempt == n.attempt
    {
      hide CloseRow, Sellable;
      attempt := None;
      assert rows == rows[id := rows[id]] && exitRetryAfter == exitRetryAfter - {id};
      var market, marks := i.market, rows[id].marks;
      if 0 in marks.tpHits || pnl < TAKE_PROFIT_GAIN_PCT { return; }
      var pct := Sellable(rows[id].book, TAKE_PROFIT_SELL_PCT);
      if pct <= 0.0 {
        rows := rows[id := rows[id].(marks := marks.(tpHits := marks.tpHits + [0]))];
        return;
      }
      var status, q := ClosePosition(id, pct, market.price, TakeProfit(1), true, i.close);
      if status == SoldIt { rows := rows[id := rows[id].(marks := marks.(tpHits := marks.tpHits + [0]))]; }
      return q;
    }

    /** A manual close looks the position up among the open rows first. */
    method ClosePositionManually(id: int, i: ManualInput) returns (done: bool, attempt: Option<Attempt>)
      requires i.busy == (id in exitInProgress)
      modifies this
      ensures exitInProgress == old(exitInProgress)
      ensures !(id in old(rows) && old(rows)[id].book.status == Open) ==>
                !done && attempt == None && rows == old(rows) && exitRetryAfter == old(exitRetryAfter)
      ensures id in old(rows) && old(rows)[id].book.status == Open ==>
                var n := ManualClose(State(old(rows)[id], RetryOf(old(exitRetryAfter), id)), i);
                && rows == old(rows)[id := n.state.row]
                && exitRetryAfter == WithRetry(old(exitRetryAfter), id, n.state.retry)
                && attempt == n.attempt && (done <==> attempt.Some? && attempt.value.acknowledged)
    {
      hide VerdictFor, Reconcile, CloseRow, SoldOutside;
      if id !in rows || rows[id].book.status != Open { return false, None; }
      ghost var pauses := exitRetryAfter;
      assert pauses == WithRetry(pauses, id, RetryOf(pauses, id));
      if rows[id].terms.mode == Live {
        var gone := FindsNothingLeft(id, i.balance);
        if gone { return false, None; }
      }
      var status;
      status, attempt := ClosePosition(id, rows[id].book.remainingPct, i.price, Manual, true, i.close);
      done := status == SoldIt;
    }
  }
}
