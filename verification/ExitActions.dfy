/** One monitoring tick and one manual close as functions of the stored row, and what they do to it
    (backend/app/positions/manager.py, `_close_position`, `check_position`, `close_position_manually`).
    Everything the program awaits from outside is an input. */
module ExitActions {
  import opened Outcomes
  import opened Reals
  import opened Ledger
  import opened ExitLadder

  datatype Row = Row(terms: Terms, book: Book, marks: Marks)

  /** How handing a sell to the adapter ends: no adapter could be had (an exception); the sell was refused,
      failed or timed out; an exception escaped before the row was written, `pauseEnded` saying whether the
      confirmed sell had already ended the pause; the sell was recorded; or it was recorded and an exception
      escaped afterwards. */
  datatype SellOutcome =
    | NoAdapter
    | Refused
    | LostBeforeWrite(pauseEnded: bool)
    | Filled(fill: Fill)
    | FilledThenRaised(fill: Fill)

  datatype CloseInput = CloseInput(balance: Option<Balance>, outcome: SellOutcome, now: real)

  datatype CloseStatus = SoldIt | NotSold | Raised

  /** A sell that reached the adapter: the book it was sized on, whether the row recorded it, and whether
      the caller was told so. */
  datatype Attempt = Attempt(reason: Reason, pct: real, before: Book, recorded: bool, acknowledged: bool)

  /** Reconciliation changed the row and left nothing worth selling. */
  predicate SoldOutside(t: Terms, b: Book, balance: Option<real>) {
    VerdictFor(t, b, balance) != Keep &&
    (Reconcile(t, b, balance).status == Closed || Reconcile(t, b, balance).remainingPct <= DUST_PCT)
  }

  /** `retry` is the end of the pause after a failed automated exit. */
  datatype Closing = Closing(book: Book, retry: Option<real>, status: CloseStatus,
                             attempt: Option<Attempt>, events: seq<Event>)

  function CloseRow(t: Terms, b: Book, retry: Option<real>, busy: bool, requested: real, trigger: real,
                    reason: Reason, reconcileFirst: bool, i: CloseInput): Closing
  {
    if busy then Closing(b, retry, NotSold, None, []) else
    var looks := t.mode == Live && reconcileFirst;
    var b1 := if looks then Reconcile(t, b, i.balance) else b;
    var seen := if looks then [Reconciled(i.balance)] else [];
    if looks && SoldOutside(t, b, i.balance) then Closing(b1, retry, NotSold, None, seen) else
    var pct := Sellable(b1, requested);
    if pct <= 0.0 then Closing(b1, retry, NotSold, None, seen) else
    match i.outcome
    case NoAdapter => Closing(b1, retry, Raised, None, seen)
    case Refused =>
      Closing(b1, if PausesRetries(reason) then Some(i.now + 60.0) else retry, NotSold,
              Some(Attempt(reason, pct, b1, false, false)), seen)
    case LostBeforeWrite(pauseEnded) =>
      Closing(b1, if pauseEnded then None else retry, Raised, Some(Attempt(reason, pct, b1, false, false)), seen)
    case Filled(f) =>
      Closing(Sell(t, b1, pct, trigger, f), None, SoldIt, Some(Attempt(reason, pct, b1, true, true)),
              seen + [Sold(requested, trigger, f)])
    case FilledThenRaised(f) =>
      Closing(Sell(t, b1, pct, trigger, f), None, Raised, Some(Attempt(reason, pct, b1, true, false)),
              seen + [Sold(requested, trigger, f)])
  }

  datatype State = State(row: Row, retry: Option<real>)

  datatype TickInput = TickInput(now: real, balance: Option<Balance>, tradingEnabled: bool, tokenKnown: bool,
                                 market: Market, rule: Rule, busy: bool, close: CloseInput)

  datatype ManualInput = ManualInput(balance: Option<Balance>, price: real, busy: bool, close: CloseInput)

  datatype Step = Step(state: State, attempt: Option<Attempt>, events: seq<Event>)

  predicate CoolingDown(retry: Option<real>, now: real) { retry.Some? && now < retry.value }

  /** What the tick writes to the marks after the close returned. */
  function Acknowledge(m: Marks, reason: Reason, status: CloseStatus): Marks {
    if status != SoldIt then m
    else if reason == DefensiveStop then m.(defensiveDone := true)
    else if reason.TakeProfit? && 0 !in m.tpHits then m.(tpHits := m.tpHits + [0])
    else m
  }

  /** The tick from the exit ladder on: the row already holds this tick's peaks. */
  function Resolve(c: Settings, row: Row, i: TickInput): Step {
    CarryOut(row, Ladder(c, i.rule, row.terms, row.book, row.marks, i.market), i)
  }

  function CarryOut(row: Row, choice: Choice, i: TickInput): Step {
    match choice
    case Hold => Step(State(row, None), None, [])
    case MarkProfitTaken => Step(State(row.(marks := row.marks.(tpHits := row.marks.tpHits + [0])), None), None, [])
    case Exit(pct, reason, reconcileFirst) =>
      var z := CloseRow(row.terms, row.book, None, i.busy, pct, i.market.price, reason, reconcileFirst, i.close);
      Step(State(Row(row.terms, z.book, Acknowledge(row.marks, reason, z.status)), z.retry), z.attempt, z.events)
  }

  function Tick(c: Settings, s: State, i: TickInput): Step {
    if CoolingDown(s.retry, i.now) then Step(s, None, []) else
    var t, b := s.row.terms, s.row.book;
    var b1 := if t.mode == Live then Reconcile(t, b, i.balance) else b;
    var seen := if t.mode == Live then [Reconciled(i.balance)] else [];
    var s1 := State(s.row.(book := b1), None);
    if t.mode == Live && SoldOutside(t, b, i.balance) then Step(s1, None, seen)
    else if !i.tradingEnabled || !i.tokenKnown then Step(s1, None, seen)
    else
      var n := Resolve(c, Row(t, b1, Observe(s.row.marks, i.market)), i);
      n.(events := seen + n.events)
  }

  function ManualClose(s: State, i: ManualInput): Step {
    var t, b := s.row.terms, s.row.book;
    var b1 := if t.mode == Live then Reconcile(t, b, i.balance) else b;
    var seen := if t.mode == Live then [Reconciled(i.balance)] else [];
    if t.mode == Live && SoldOutside(t, b, i.balance) then Step(s.(row := s.row.(book := b1)), None, seen) else
    var z := CloseRow(t, b1, s.retry, i.busy, b1.remainingPct, i.price, Manual, true, i.close);
    Step(State(s.row.(book := z.book), z.retry), z.attempt, seen + z.events)
  }

  datatype Action = Monitored(tick: TickInput) | ClosedByHand(manual: ManualInput)

  /** Actions only ever fetch open rows. */
  function Act(c: Settings, s: State, a: Action): Step {
    if s.row.book.status == Closed then Step(s, None, [])
    else match a
      case Monitored(i) => Tick(c, s, i)
      case ClosedByHand(i) => ManualClose(s, i)
  }

  /** A whole run: the last state, every sell that reached an adapter, and the ledger events. */
  datatype History = History(state: State, attempts: seq<Attempt>, events: seq<Event>)

  function Extend(c: Settings, h: History, a: Action): History {
    var n := Act(c, h.state, a);
    History(n.state, h.attempts + (if n.attempt.Some? then [n.attempt.value] else []), h.events + n.events)
  }

  function Run(c: Settings, h: History, actions: seq<Action>): History
    decreases |actions|
  {
    if actions == [] then h else Run(c, Extend(c, h, actions[0]), actions[1..])
  }

  function Begin(row: Row): History { History(State(row, None), [], []) }
}
