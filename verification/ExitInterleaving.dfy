/** Monitoring ticks and manual closes as tasks that interleave at every await
    (backend/app/positions/manager.py, `_try_begin_exit` to the `finally` of `_close_position`). Each task works
    on its own fetched copy of the row; the writes go to the stored row. */
module ExitInterleaving {
  import opened Outcomes
  import opened Reals
  import opened Ledger

  datatype Phase =
    | Idle
    | Fetched(copy: Book)
    | Holding(copy: Book)
    | InFlight(copy: Book, requested: real)
    | Leaving
    | Finished

  datatype Task = Task(id: int, phase: Phase) {
    predicate Inside() { phase.Holding? || phase.InFlight? || phase.Leaving? }
  }

  /** `tallies[id].book` is the stored row; the sums beside it are only observed, never read. */
  datatype World = World(tallies: map<int, Tally>, lock: set<int>, tasks: seq<Task>)

  datatype Move =
    | Fetch(k: nat, id: int)
    | Look(k: nat, balance: Option<Balance>)                 // reconcile, before or under the lock
    | GiveUp(k: nat)                                        // a return or an exception without the lock
    | TryLock(k: nat)
    | Submit(k: nat, requested: real)                       // hand a sell to the adapter
    | Abort(k: nat)                                         // any return or exception under the lock
    | Commit(k: nat, trigger: real, fill: Fill)             // write a confirmed sell
    | Release(k: nat)                                       // the `finally`

  /** A partial sell does not write the status column. */
  function Stored(row: Book, sold: Book): Book {
    if sold.status == Closed then sold else sold.(status := row.status)
  }

  function Committed(t: Terms, y: Tally, copy: Book, requested: real, trigger: real, fill: Fill): Tally {
    var pct := Sellable(copy, requested);
    var portion := Portion(t, copy, pct);
    var sold := Sell(t, copy, pct, trigger, fill);
    Tally(Stored(y.book, sold), y.charged + portion,
          y.dropped + (if sold.status == Closed then copy.basis - portion else 0.0),
          y.tokensSold + AmountAt(t.amountTokens, pct))
  }

  predicate Enabled(w: World, m: Move) {
    && m.k < |w.tasks|
    && var task := w.tasks[m.k];
       match m
       case Fetch(_, id) =>
         (task.phase.Idle? || task.phase.Finished?) && id in w.tallies && w.tallies[id].book.status == Open
       case Look(_, _) =>
         (task.phase.Fetched? || task.phase.Holding?) && task.id in w.tallies && task.phase.copy.status == Open
       case GiveUp(_) => task.phase.Fetched?
       case TryLock(_) => task.phase.Fetched? && task.phase.copy.status == Open
       case Submit(_, requested) =>
         task.phase.Holding? && task.phase.copy.status == Open && Sellable(task.phase.copy, requested) > 0.0
       case Abort(_) => task.phase.Holding? || task.phase.InFlight?
       case Commit(_, _, _) => task.phase.InFlight? && task.id in w.tallies
       case Release(_) => task.phase.Leaving?
  }

  function At(w: World, k: nat, phase: Phase): World
    requires k < |w.tasks|
  {
    w.(tasks := w.tasks[k := w.tasks[k].(phase := phase)])
  }

  /** One atomic stretch of one task between two awaits; a move that is not possible changes nothing. */
  function Do(terms: map<int, Terms>, w: World, m: Move): World {
    if !Enabled(w, m) then w else
    var task := w.tasks[m.k];
    match m
    case Fetch(k, id) => w.(tasks := w.tasks[k := Task(id, Fetched(w.tallies[id].book))])
    case Look(k, balance) =>
      if task.id !in terms then w else
      var v := VerdictFor(terms[task.id], task.phase.copy, balance);
      var seen := Enact(task.phase.copy, v);
      var w1 := At(w, k, if task.phase.Fetched? then Fetched(seen) else Holding(seen));
      var y := w.tallies[task.id];
      w1.(tallies := w.tallies[task.id := y.(book := Enact(y.book, v))])
    case GiveUp(k) => At(w, k, Finished)
    case TryLock(k) =>
      if task.id in w.lock then At(w, k, Finished)
      else At(w, k, Holding(task.phase.copy)).(lock := w.lock + {task.id})
    case Submit(k, requested) => At(w, k, InFlight(task.phase.copy, requested))
    case Abort(k) => At(w, k, Leaving)
    case Commit(k, trigger, fill) =>
      if task.id !in terms then w else
      var y := Committed(terms[task.id], w.tallies[task.id], task.phase.copy, task.phase.requested, trigger, fill);
      At(w, k, Leaving).(tallies := w.tallies[task.id := y])
    case Release(k) => At(w, k, Finished).(lock := w.lock - {task.id})
  }

  function DoAll(terms: map<int, Terms>, w: World, ms: seq<Move>): World
    decreases |ms|
  {
    if ms == [] then w else DoAll(terms, Do(terms, w, ms[0]), ms[1..])
  }

  ghost predicate Start(w: World) {
    w.lock == {} && forall k :: 0 <= k < |w.tasks| ==> w.tasks[k].phase.Idle? || w.tasks[k].phase.Finished?
  }

  // ---------- mutual exclusion over every interleaving ----------

  ghost predicate Exclusive(w: World) {
    && (forall k :: 0 <= k < |w.tasks| && w.tasks[k].Inside() ==> w.tasks[k].id in w.lock)
    && (forall id :: id in w.lock ==> exists k :: 0 <= k < |w.tasks| && w.tasks[k].Inside() && w.tasks[k].id == id)
    && (forall j, k :: 0 <= j < k < |w.tasks| && w.tasks[j].Inside() && w.tasks[k].Inside()
          ==> w.tasks[j].id != w.tasks[k].id)
  }

  /** What a move by task `k` may do to the lock. */
  ghost predicate LockStep(w: World, w': World, k: nat) {
    && k < |w.tasks| == |w'.tasks| && w'.tasks == w.tasks[k := w'.tasks[k]]
    && var before, after := w.tasks[k], w'.tasks[k];
       || (w'.lock == w.lock && before.Inside() == after.Inside() && (before.Inside() ==> after.id == before.id))
       || (!before.Inside() && after.Inside() && after.id !in w.lock && w'.lock == w.lock + {after.id})
       || (before.Inside() && !after.Inside() && w'.lock == w.lock - {before.id})
  }

  lemma {:induction false} LockStepKeepsExclusion(w: World, w': World, k: nat)
    requires Exclusive(w) && LockStep(w, w', k)
    ensures Exclusive(w')
  {
    forall id | id in w'.lock
      ensures exists j :: 0 <= j < |w'.tasks| && w'.tasks[j].Inside() && w'.tasks[j].id == id
    {
      if id in w.lock {
        var j :| 0 <= j < |w.tasks| && w.tasks[j].Inside() && w.tasks[j].id == id;
        assert w'.tasks[j].Inside() && w'.tasks[j].id == id;
      } else {
        assert w'.tasks[k].Inside() && w'.tasks[k].id == id;
      }
    }
  }

  lemma {:induction false} MoveKeepsExclusion(terms: map<int, Terms>, w: World, m: Move)
    requires Exclusive(w)
    ensures Exclusive(Do(terms, w, m))
  {
    hide Exclusive, VerdictFor, Enact, Committed, Sellable;
    if Do(terms, w, m) != w {
      assert LockStep(w, Do(terms, w, m), m.k);
      LockStepKeepsExclusion(w, Do(terms, w, m), m.k);
    }
  }

  /** Whatever the interleaving: at most one task per position is between taking and releasing the lock, so
      at most one sell per position is in flight; the lock set holds exactly the positions with such a task,
      so a task that leaves, by whatever path, leaves the position unlocked. */
  lemma {:induction false} MutualExclusion(terms: map<int, Terms>, w: World, ms: seq<Move>)
    requires Exclusive(w)
    ensures Exclusive(DoAll(terms, w, ms))
    decreases |ms|
  {
    hide Exclusive, Do;
    if ms != [] {
      MoveKeepsExclusion(terms, w, ms[0]);
      MutualExclusion(terms, Do(terms, w, ms[0]), ms[1..]);
    }
  }

  lemma StartIsExclusive(w: World)
    requires Start(w)
    ensures Exclusive(w)
  {}

  /** A position leaves the lock set only by the release of the one task that holds it; a task that found
      the lock taken touches neither the lock nor any row. */
  lemma OnlyTheHolderReleases(terms: map<int, Terms>, w: World, m: Move, id: int)
    requires Exclusive(w) && id in w.lock
    ensures id !in Do(terms, w, m).lock ==> m.Release? && w.tasks[m.k].Inside() && w.tasks[m.k].id == id
    ensures m.TryLock? && Enabled(w, m) && w.tasks[m.k].id == id ==>
              && Do(terms, w, m).lock == w.lock && Do(terms, w, m).tallies == w.tallies
              && Do(terms, w, m).tasks[m.k].phase == Finished
  {
    hide VerdictFor, Enact, Committed, Sellable;
  }

  /** And the holder can always leave: from wherever it is under the lock, giving up or writing and then the
      `finally` free the position, whatever the others do in between. */
  lemma {:induction false} HolderLeaves(terms: map<int, Terms>, w: World, k: nat)
    requires k < |w.tasks| && w.tasks[k].Inside()
    ensures var id := w.tasks[k].id; var given := Do(terms, w, Abort(k));
            && given.tasks[k].phase.Leaving? && given.tasks[k].id == id && given.lock == w.lock
            && Do(terms, given, Release(k)).lock == w.lock - {id}
            && Do(terms, given, Release(k)).tasks[k].phase.Finished?
    ensures w.tasks[k].phase.InFlight? && w.tasks[k].id in w.tallies && w.tasks[k].id in terms ==>
            forall trigger, fill :: Do(terms, w, Commit(k, trigger, fill)).tasks[k].phase.Leaving?
  {
    hide Committed;
  }

  // ---------- when one write-back keeps the ledger ----------

  function Booked(y: Tally): real { y.charged + y.book.basis + y.dropped }

  /** A write-back conserves the basis exactly when the copy it was computed from holds the stored basis. */
  lemma {:induction false} CommitConservesIffFresh(t: Terms, y: Tally, copy: Book, requested: real, trigger: real,
                                                   fill: Fill)
    requires copy.status == Open && copy.basis > 0.0 && Sellable(copy, requested) > 0.0
    ensures Booked(Committed(t, y, copy, requested, trigger, fill)) == Booked(y) <==> copy.basis == y.book.basis
  {
    PortionBounds(t, copy, Sellable(copy, requested));
    hide Portion, Settle;
  }

  /** Where every percent gone was a token sold, a write-back sells more than leaves the row exactly when a
      closing sell asks for more than the row holds, or a partial one counts from a percentage above the row's. */
  lemma {:induction false} CommitKeepsTokensIff(t: Terms, start: Book, y: Tally, copy: Book, requested: real,
                                                trigger: real, fill: Fill)
    requires t.amountTokens > 0.0 && Sellable(copy, requested) > 0.0
    requires y.tokensSold == AmountAt(t.amountTokens, start.remainingPct - y.book.remainingPct)
    ensures var y' := Committed(t, y, copy, requested, trigger, fill); var pct := Sellable(copy, requested);
            y'.tokensSold <= AmountAt(t.amountTokens, start.remainingPct - y'.book.remainingPct) <==>
            if copy.remainingPct - pct <= DUST_PCT then pct <= y.book.remainingPct
            else copy.remainingPct <= y.book.remainingPct
  {
    var pct := Sellable(copy, requested);
    var y' := Committed(t, y, copy, requested, trigger, fill);
    AmountsAdd(t.amountTokens, start.remainingPct - y.book.remainingPct, pct);
    AmountsCompare(t.amountTokens, start.remainingPct - y.book.remainingPct + pct,
                   start.remainingPct - y'.book.remainingPct);
    hide Portion, Settle, AmountAt;
  }

  lemma AmountsCompare(original: real, x: real, y: real)
    requires original > 0.0
    ensures AmountAt(original, x) <= AmountAt(original, y) <==> x <= y
  {}

  // ---------- when the basis survives interleaving ----------

  /** Open rows and open copies carry a basis, and submitted sells sell something. */
  ghost predicate Backed(w: World) {
    && (forall id :: id in w.tallies && w.tallies[id].book.status == Open ==> w.tallies[id].book.basis > 0.0)
    && (forall k :: 0 <= k < |w.tasks| ==> BackedTask(w.tasks[k]))
  }

  ghost predicate BackedTask(task: Task) {
    var p := task.phase;
    && ((p.Fetched? || p.Holding? || p.InFlight?) && p.copy.status == Open ==> p.copy.basis > 0.0)
    && (p.InFlight? ==> p.copy.status == Open && Sellable(p.copy, p.requested) > 0.0)
  }

  ghost predicate AllBooked(opening: map<int, Book>, w: World) {
    forall id :: id in w.tallies ==> id in opening && Booked(w.tallies[id]) == opening[id].basis
  }

  ghost predicate WritesFresh(terms: map<int, Terms>, w: World, m: Move) {
    m.Commit? && Enabled(w, m) && w.tasks[m.k].id in terms ==>
      w.tasks[m.k].phase.copy.basis == w.tallies[w.tasks[m.k].id].book.basis
  }

  ghost predicate AlwaysBooked(terms: map<int, Terms>, opening: map<int, Book>, w: World, ms: seq<Move>)
    decreases |ms|
  {
    AllBooked(opening, w) && (ms == [] || AlwaysBooked(terms, opening, Do(terms, w, ms[0]), ms[1..]))
  }

  ghost predicate AlwaysWritesFresh(terms: map<int, Terms>, w: World, ms: seq<Move>)
    decreases |ms|
  {
    ms == [] || (WritesFresh(terms, w, ms[0]) && AlwaysWritesFresh(terms, Do(terms, w, ms[0]), ms[1..]))
  }

  lemma {:induction false} BackedCommit(t: Terms, y: Tally, copy: Book, requested: real, trigger: real, fill: Fill)
    requires copy.status == Open && copy.basis > 0.0 && Sellable(copy, requested) > 0.0
    ensures var y' := Committed(t, y, copy, requested, trigger, fill);
            y'.book.status == Open ==> y'.book.basis > 0.0
  {
    PortionBounds(t, copy, Sellable(copy, requested));
    hide Portion, Settle;
  }

  lemma {:induction false} MoveKeepsBacked(terms: map<int, Terms>, w: World, m: Move)
    requires Backed(w)
    ensures Backed(Do(terms, w, m))
  {
    if Enabled(w, m) {
      var task := w.tasks[m.k];
      assert BackedTask(task);
      if m.Commit? && task.id in terms {
        BackedCommit(terms[task.id], w.tallies[task.id], task.phase.copy, task.phase.requested, m.trigger, m.fill);
      }
      hide VerdictFor, Committed, Sellable;
    }
  }

  /** One move keeps every position's basis exactly when it is no write-back from a copy with another basis. */
  lemma {:induction false} MoveKeepsBookedIff(terms: map<int, Terms>, opening: map<int, Book>, w: World, m: Move)
    requires Backed(w) && AllBooked(opening, w)
    ensures AllBooked(opening, Do(terms, w, m)) <==> WritesFresh(terms, w, m)
  {
    if Enabled(w, m) {
      var task := w.tasks[m.k];
      assert BackedTask(task);
      if m.Commit? && task.id in terms {
        CommitConservesIffFresh(terms[task.id], w.tallies[task.id], task.phase.copy, task.phase.requested, m.trigger,
                                m.fill);
        assert Do(terms, w, m).tallies.Keys == w.tallies.Keys;
        assert task.id in Do(terms, w, m).tallies;
      }
      hide VerdictFor, Committed, Sellable;
    }
  }

  /** Over every interleaving, with no discipline at all: the basis charged, left and dropped adds up to the
      opening basis of every position throughout exactly when every sell is written from a copy that holds the
      stored basis. */
  lemma {:induction false} BasisSurvivesIff(terms: map<int, Terms>, opening: map<int, Book>, w: World, ms: seq<Move>)
    requires Backed(w) && AllBooked(opening, w)
    ensures AlwaysBooked(terms, opening, w, ms) <==> AlwaysWritesFresh(terms, w, ms)
    decreases |ms|
  {
    hide Backed, AllBooked, WritesFresh, Do;
    if ms != [] {
      MoveKeepsBacked(terms, w, ms[0]);
      MoveKeepsBookedIff(terms, opening, w, ms[0]);
      var w' := Do(terms, w, ms[0]);
      if AllBooked(opening, w') { BasisSurvivesIff(terms, opening, w', ms[1..]); }
    }
  }

  // ---------- when the whole ledger survives ----------

  /** A sell is written only from a copy on which no other sell has been written since; and a reconciliation with
      an older copy does not raise the stored percentage. */
  ghost predicate Disciplined(terms: map<int, Terms>, w: World, m: Move) {
    Enabled(w, m) && w.tasks[m.k].id in w.tallies && w.tasks[m.k].id in terms ==>
      var task := w.tasks[m.k]; var row := w.tallies[task.id].book;
      && (m.Commit? ==> task.phase.copy.basis == row.basis)
      && (m.Look? && task.phase.copy.basis != row.basis ==>
            var v := VerdictFor(terms[task.id], task.phase.copy, m.balance);
            v.Reduce? ==> v.pct <= row.remainingPct)
  }

  ghost predicate DisciplinedRun(terms: map<int, Terms>, w: World, ms: seq<Move>)
    decreases |ms|
  {
    ms == [] || (Disciplined(terms, w, ms[0]) && DisciplinedRun(terms, Do(terms, w, ms[0]), ms[1..]))
  }

  /** How a copy relates to the stored row: a sell written meanwhile shows in the basis; without one the
      totals are the row's and the copy's percentage covers all that was sold, however often others have
      reconciled the row since. */
  ghost predicate Traces(t: Terms, start: Book, y: Tally, copy: Book) {
    && copy.basis >= y.book.basis && copy.basis > 0.0
    && 0.0 <= copy.remainingPct <= start.remainingPct && (copy.status == Open ==> copy.remainingPct > 0.0)
    && (copy.basis == y.book.basis ==>
          && copy == y.book.(status := copy.status, remainingPct := copy.remainingPct)
          && y.tokensSold <= AmountAt(t.amountTokens, start.remainingPct - copy.remainingPct))
  }

  ghost predicate InStep(terms: map<int, Terms>, opening: map<int, Book>, w: World, task: Task) {
    var p := task.phase;
    p.Fetched? || p.Holding? || p.InFlight? ==>
      && task.id in terms && task.id in opening && task.id in w.tallies
      && Traces(terms[task.id], opening[task.id], w.tallies[task.id], p.copy)
      && (p.InFlight? ==> p.copy.status == Open && Sellable(p.copy, p.requested) > 0.0)
  }

  ghost predicate Consistent(terms: map<int, Terms>, opening: map<int, Book>, w: World) {
    && Exclusive(w)
    && w.tallies.Keys == terms.Keys == opening.Keys
    && (forall id :: id in terms ==>
          Opening(terms[id], opening[id]) && Accounted(terms[id], opening[id], w.tallies[id]))
    && (forall k :: 0 <= k < |w.tasks| ==> InStep(terms, opening, w, w.tasks[k]))
  }

  /** The row as the holder of an unsold copy sees it is in balance. */
  lemma SeenThroughCopy(t: Terms, start: Book, y: Tally, copy: Book)
    requires Accounted(t, start, y) && Traces(t, start, y, copy) && copy.basis == y.book.basis && copy.status == Open
    ensures Balanced(t, start, y.(book := copy))
  {}

  lemma {:induction false} CommitIsRecordOnCopy(t: Terms, y: Tally, copy: Book, requested: real, trigger: real,
                                               fill: Fill)
    requires copy.status == Open && Sellable(copy, requested) > 0.0
    ensures var y' := Committed(t, y, copy, requested, trigger, fill);
            var r := Record(t, y.(book := copy), Sold(requested, trigger, fill));
            y' == r.(book := r.book.(status := if r.book.status == Closed then Closed else y.book.status))
  {}

  lemma {:induction false} CommitStaysAccounted(t: Terms, start: Book, y: Tally, copy: Book, requested: real,
                                                trigger: real, fill: Fill)
    requires Opening(t, start) && Accounted(t, start, y) && Traces(t, start, y, copy)
    requires copy.basis == y.book.basis && copy.status == Open && Sellable(copy, requested) > 0.0
    ensures var y' := Committed(t, y, copy, requested, trigger, fill);
            Accounted(t, start, y') && y'.book.basis < y.book.basis
  {
    var e := Sold(requested, trigger, fill);
    SeenThroughCopy(t, start, y, copy);
    SellKeepsBalance(t, start, y.(book := copy), e);
    CommitIsRecordOnCopy(t, y, copy, requested, trigger, fill);
    PortionBounds(t, copy, Sellable(copy, requested));
    PortionIsPositive(t, copy, Sellable(copy, requested));
    hide Portion, Settle, Opening;
  }

  lemma PortionIsPositive(t: Terms, b: Book, pct: real)
    requires 0.0 < pct && b.basis > 0.0
    ensures Portion(t, b, pct) > 0.0
  {
    var left := Max(if b.remainingPct != 0.0 then b.remainingPct else 100.0, SMALLEST_PCT);
    QuotientTimesDivisor(pct, left);
    SignOfFactor(pct / left, left);
  }

  lemma ReductionLeavesSome(t: Terms, b: Book, balance: Option<Balance>)
    requires t.amountTokens >= 0.0 && b.remainingPct > 0.0
    ensures var v := VerdictFor(t, b, balance); v.Reduce? ==> 0.0 < v.pct <= b.remainingPct
  {}

  lemma {:induction false} LookStaysAccounted(t: Terms, start: Book, y: Tally, copy: Book, balance: Option<Balance>)
    requires Opening(t, start) && Accounted(t, start, y) && Traces(t, start, y, copy) && copy.status == Open
    requires copy.basis != y.book.basis ==>
               var v := VerdictFor(t, copy, balance); v.Reduce? ==> v.pct <= y.book.remainingPct
    ensures var v := VerdictFor(t, copy, balance); var y' := y.(book := Enact(y.book, v));
            && Accounted(t, start, y') && Traces(t, start, y', Enact(copy, v))
            && y'.book == y.book.(status := y'.book.status, remainingPct := y'.book.remainingPct)
  {
    var v := VerdictFor(t, copy, balance);
    ReductionLeavesSome(t, copy, balance);
    hide VerdictFor;
    var covered := if copy.basis == y.book.basis then copy.remainingPct else y.book.remainingPct;
    if v.Reduce? {
      AmountGrows(t.amountTokens, start.remainingPct - covered, start.remainingPct - v.pct);
    } else if v.CloseOut? {
      AmountGrows(t.amountTokens, start.remainingPct - covered, start.remainingPct);
    }
  }

  /** The only two changes of a row: its status and percentage, or a lower basis. */
  ghost predicate RowStep(y: Tally, y': Tally) {
    || y'.book.basis < y.book.basis
    || y' == y.(book := y.book.(status := y'.book.status, remainingPct := y'.book.remainingPct))
  }

  lemma {:induction false} OtherCopiesSurvive(t: Terms, start: Book, y: Tally, y': Tally, copy: Book)
    requires Traces(t, start, y, copy) && RowStep(y, y')
    ensures Traces(t, start, y', copy)
  {}

  /** The mover's row stays in balance, and the mover stays in step with it. */
  lemma {:induction false} MoverStaysConsistent(terms: map<int, Terms>, opening: map<int, Book>, w: World, m: Move)
    requires Consistent(terms, opening, w) && Disciplined(terms, w, m) && Enabled(w, m)
    ensures var w' := Do(terms, w, m); var id := w.tasks[m.k].id;
            && |w'.tasks| == |w.tasks| && w'.tasks == w.tasks[m.k := w'.tasks[m.k]]
            && InStep(terms, opening, w', w'.tasks[m.k])
            && (w'.tallies == w.tallies ||
                (&& id in terms && w'.tallies == w.tallies[id := w'.tallies[id]]
                 && Accounted(terms[id], opening[id], w'.tallies[id])
                 && RowStep(w.tallies[id], w'.tallies[id])))
  {
    var task := w.tasks[m.k];
    assert InStep(terms, opening, w, task);
    if m.Commit? {
      CommitStaysAccounted(terms[task.id], opening[task.id], w.tallies[task.id], task.phase.copy, task.phase.requested,
                           m.trigger, m.fill);
    } else if m.Look? {
      LookStaysAccounted(terms[task.id], opening[task.id], w.tallies[task.id], task.phase.copy, m.balance);
    } else if m.Fetch? {
      assert Accounted(terms[m.id], opening[m.id], w.tallies[m.id]);
    }
    hide VerdictFor, Enact, Committed, Sellable, Accounted, Opening, Exclusive;
  }

  lemma {:induction false} MoveKeepsConsistency(terms: map<int, Terms>, opening: map<int, Book>, w: World, m: Move)
    requires Consistent(terms, opening, w) && Disciplined(terms, w, m)
    ensures Consistent(terms, opening, Do(terms, w, m))
  {
    MoveKeepsExclusion(terms, w, m);
    if Enabled(w, m) {
      MoverStaysConsistent(terms, opening, w, m);
      var w' := Do(terms, w, m);
      forall j | 0 <= j < |w.tasks| && j != m.k ensures InStep(terms, opening, w', w'.tasks[j]) {
        OthersStayInStep(terms, opening, w, w', m.k, j);
      }
      hide Do, Accounted, Opening, Sellable, Exclusive, InStep;
    }
  }

  lemma {:induction false} OthersStayInStep(terms: map<int, Terms>, opening: map<int, Book>, w: World, w': World,
                                            k: nat, j: nat)
    requires k < |w.tasks| == |w'.tasks| && j < |w.tasks| && j != k && w'.tasks == w.tasks[k := w'.tasks[k]]
    requires InStep(terms, opening, w, w.tasks[j])
    requires var id := w.tasks[k].id;
             w'.tallies == w.tallies ||
             (&& id in terms && id in w.tallies && id in w'.tallies && w'.tallies == w.tallies[id := w'.tallies[id]]
              && RowStep(w.tallies[id], w'.tallies[id]))
    ensures InStep(terms, opening, w', w'.tasks[j])
  {
    var task := w.tasks[j];
    if task.id == w.tasks[k].id && w'.tallies != w.tallies
       && (task.phase.Fetched? || task.phase.Holding? || task.phase.InFlight?)
    {
      OtherCopiesSurvive(terms[task.id], opening[task.id], w.tallies[task.id], w'.tallies[task.id], task.phase.copy);
    }
    hide Traces, RowStep, Sellable;
  }

  lemma StartIsConsistent(terms: map<int, Terms>, opening: map<int, Book>, w: World)
    requires Start(w) && w.tallies.Keys == terms.Keys == opening.Keys
    requires forall id :: id in terms ==> Opening(terms[id], opening[id]) && w.tallies[id] == Fresh(opening[id])
    ensures Consistent(terms, opening, w) && Backed(w) && AllBooked(opening, w)
  {
    StartIsExclusive(w);
    hide Exclusive;
  }

  /** Over every such interleaving basis, profit, percentage and tokens of every position stay accounted for,
      although rows are reconciled by others while a sell is in flight. */
  lemma {:induction false} InterleavedLedgersBalance(terms: map<int, Terms>, opening: map<int, Book>, w: World,
                                                     ms: seq<Move>)
    requires Consistent(terms, opening, w) && DisciplinedRun(terms, w, ms)
    ensures Consistent(terms, opening, DoAll(terms, w, ms))
    decreases |ms|
  {
    hide Consistent, Do, Disciplined;
    if ms != [] {
      MoveKeepsConsistency(terms, opening, w, ms[0]);
      InterleavedLedgersBalance(terms, opening, Do(terms, w, ms[0]), ms[1..]);
    }
  }

  // ---------- closed rows ----------

  ghost predicate ClosedMeansEmpty(w: World) {
    forall id :: id in w.tallies && w.tallies[id].book.status == Closed ==> w.tallies[id].book.remainingPct == 0.0
  }

  /** The write-back of a partial sell, or of a reduction, to a row that someone has closed meanwhile. */
  ghost predicate WritesToClosedRow(terms: map<int, Terms>, w: World, m: Move) {
    && Enabled(w, m) && (m.Commit? || m.Look?)
    && var task := w.tasks[m.k]; var copy := task.phase.copy;
       && w.tallies[task.id].book.status == Closed && task.id in terms
       && if m.Commit? then copy.remainingPct - Sellable(copy, task.phase.requested) > DUST_PCT
          else VerdictFor(terms[task.id], copy, m.balance).Reduce?
  }

  lemma {:induction false} ClosedRowsStayEmptyOneMove(terms: map<int, Terms>, opening: map<int, Book>,
                                                      w: World, m: Move)
    requires Consistent(terms, opening, w) && Disciplined(terms, w, m) && ClosedMeansEmpty(w)
    ensures ClosedMeansEmpty(Do(terms, w, m)) <==> !WritesToClosedRow(terms, w, m)
  {
    if Enabled(w, m) && (m.Commit? || m.Look?) {
      var task := w.tasks[m.k];
      assert InStep(terms, opening, w, task);
      var t, start, y, copy := terms[task.id], opening[task.id], w.tallies[task.id], task.phase.copy;
      if m.Look? { ReductionLeavesSome(t, copy, m.balance); }
      hide VerdictFor, Accounted, Opening, Exclusive, InStep, Traces, Portion, Settle, Disciplined;
      OneRowDecides(w, Do(terms, w, m), task.id);
    }
  }

  lemma OneRowDecides(w: World, w': World, id: int)
    requires ClosedMeansEmpty(w) && id in w.tallies && id in w'.tallies && w'.tallies == w.tallies[id := w'.tallies[id]]
    ensures ClosedMeansEmpty(w') <==> (w'.tallies[id].book.status == Closed ==> w'.tallies[id].book.remainingPct == 0.0)
  {}

  ghost predicate AlwaysClosedMeansEmpty(terms: map<int, Terms>, w: World, ms: seq<Move>)
    decreases |ms|
  {
    ClosedMeansEmpty(w) && (ms == [] || AlwaysClosedMeansEmpty(terms, Do(terms, w, ms[0]), ms[1..]))
  }

  ghost predicate NoWriteToClosedRow(terms: map<int, Terms>, w: World, ms: seq<Move>)
    decreases |ms|
  {
    ms == [] || (!WritesToClosedRow(terms, w, ms[0]) && NoWriteToClosedRow(terms, Do(terms, w, ms[0]), ms[1..]))
  }

  /** The remaining clause of `Balanced`: throughout such a run closed rows are empty exactly when nobody writes
      a remaining percentage to a row that was closed after its copy was fetched. A partial sell writes
      percentage and basis but no status. */
  lemma {:induction false} ClosedRowsStayEmptyIff(terms: map<int, Terms>, opening: map<int, Book>,
                                                w: World, ms: seq<Move>)
    requires Consistent(terms, opening, w) && DisciplinedRun(terms, w, ms) && ClosedMeansEmpty(w)
    ensures AlwaysClosedMeansEmpty(terms, w, ms) <==> NoWriteToClosedRow(terms, w, ms)
    decreases |ms|
  {
    hide Consistent, Do, Disciplined, ClosedMeansEmpty, WritesToClosedRow;
    if ms != [] {
      MoveKeepsConsistency(terms, opening, w, ms[0]);
      ClosedRowsStayEmptyOneMove(terms, opening, w, ms[0]);
      if !WritesToClosedRow(terms, w, ms[0]) { ClosedRowsStayEmptyIff(terms, opening, Do(terms, w, ms[0]), ms[1..]); }
    }
  }

  // ---------- two runs of one tick and one manual close ----------

  function TwoTasks(b: Book): World { World(map[0 := Fresh(b)], {}, [Task(0, Idle), Task(0, Idle)]) }

  function SubmitMoves(k: nat, requested: real): seq<Move> { [Fetch(k, 0), TryLock(k), Submit(k, requested)] }

  function CloseAndCommitMoves(trigger: real, fill: Fill): seq<Move> {
    [Fetch(1, 0), Look(1, Some(0.0)), Commit(0, trigger, fill)]
  }

  function SellMoves(k: nat, requested: real, trigger: real, fill: Fill): seq<Move> {
    [TryLock(k), Submit(k, requested), Commit(k, trigger, fill), Release(k)]
  }

  /** Nothing stops such a write: while the partial sell of a tick is in flight, a manual close finds the wallet
      empty and closes the row; the sell then leaves its remaining percentage in the closed row. */
  lemma CloseDuringSellLeavesLeftover(t: Terms, b: Book, requested: real, trigger: real, fill: Fill)
    requires t.mode == Live && t.source != Fourmeme && t.amountTokens > 0.0 && b.status == Open
    requires 0.0 < requested && b.remainingPct - requested > DUST_PCT
    ensures var moves := SubmitMoves(0, requested) + CloseAndCommitMoves(trigger, fill);
            var end := DoAll(map[0 := t], TwoTasks(b), moves);
            && Start(TwoTasks(b)) && DisciplinedRun(map[0 := t], TwoTasks(b), moves) && 0 in end.tallies
            && end.tallies[0].book.status == Closed && end.tallies[0].book.remainingPct == b.remainingPct - requested
  {
    var terms := map[0 := t];
    var w3 := SubmitAlone(terms, TwoTasks(b), 0, requested);
    var end := CloseBehindSell(terms, w3, trigger, fill);
    DoAllConcat(terms, TwoTasks(b), SubmitMoves(0, requested), CloseAndCommitMoves(trigger, fill));
    PartialCommitToClosedRow(t, b, requested, trigger, fill);
    hide Do, DoAll, DisciplinedRun, VerdictFor, Committed, SubmitMoves, CloseAndCommitMoves;
  }

  lemma PartialCommitToClosedRow(t: Terms, copy: Book, requested: real, trigger: real, fill: Fill)
    requires 0.0 < requested && copy.remainingPct - requested > DUST_PCT
    ensures var y := Committed(t, Fresh(copy.(status := Closed, remainingPct := 0.0)), copy, requested, trigger, fill);
            y.book.status == Closed && y.book.remainingPct == copy.remainingPct - requested
  {
    hide Portion, Settle;
  }

  /** Without the discipline the lock alone does not help: in paper mode, which never reconciles, a manual close
      that fetched the row before a tick's partial sell asks for all of its stale copy. Together they hand over
      everything once and the tick's part once more, and the row is closed. */
  lemma StaleCopiesOversell(t: Terms, b: Book, requested: real, trigger: real, fill: Fill)
    requires t.mode == Paper && b.status == Open && 0.0 < requested < b.remainingPct
    ensures var fetches := [Fetch(0, 0), Fetch(1, 0)];
            var end := DoAll(map[0 := t], TwoTasks(b), fetches + SellMoves(0, requested, trigger, fill)
                                                       + SellMoves(1, b.remainingPct, trigger, fill));
            && Start(TwoTasks(b)) && 0 in end.tallies && end.tallies[0].book.status == Closed
            && end.tallies[0].tokensSold
               == AmountAt(t.amountTokens, b.remainingPct) + AmountAt(t.amountTokens, requested)
  {
    hide Portion, Settle, AmountAt, DoAll, SellMoves;
    var terms, w := map[0 := t], TwoTasks(b);
    var fetches := [Fetch(0, 0), Fetch(1, 0)];
    var sell0, sell1 := SellMoves(0, requested, trigger, fill), SellMoves(1, b.remainingPct, trigger, fill);
    var w1 := w.(tasks := [Task(0, Fetched(b)), Task(0, Idle)]);
    var w2 := w.(tasks := [Task(0, Fetched(b)), Task(0, Fetched(b))]);
    assert Do(terms, w, Fetch(0, 0)) == w1;
    assert Do(terms, w1, Fetch(1, 0)) == w2;
    DoNext(terms, w1, fetches, 1);
    DoNext(terms, w, fetches, 0);
    DoAllConcat(terms, w, fetches + sell0, sell1);
    DoAllConcat(terms, w, fetches, sell0);
    hide Do;
    var w3 := SellAlone(terms, w2, 0, requested, trigger, fill);
    var w4 := SellAlone(terms, w3, 1, b.remainingPct, trigger, fill);
    var y1 := Committed(t, Fresh(b), b, requested, trigger, fill);
    assert w4.tallies[0] == Committed(t, y1, b, b.remainingPct, trigger, fill);
  }

  lemma {:induction false} DoAllConcat(terms: map<int, Terms>, w: World, xs: seq<Move>, ys: seq<Move>)
    ensures var w' := DoAll(terms, w, xs);
            && DoAll(terms, w, xs + ys) == DoAll(terms, w', ys)
            && (DisciplinedRun(terms, w, xs + ys) <==> DisciplinedRun(terms, w, xs) && DisciplinedRun(terms, w', ys))
    decreases |xs|
  {
    hide Do, Disciplined;
    if xs == [] {
      assert xs + ys == ys;
    } else {
      assert (xs + ys)[1..] == xs[1..] + ys;
      assert (xs + ys)[0] == xs[0];
      DoAllConcat(terms, Do(terms, w, xs[0]), xs[1..], ys);
    }
  }

  lemma DoNext(terms: map<int, Terms>, w: World, ms: seq<Move>, i: nat)
    requires i < |ms|
    ensures var w' := Do(terms, w, ms[i]);
            && DoAll(terms, w, ms[i..]) == DoAll(terms, w', ms[i + 1..])
            && (DisciplinedRun(terms, w, ms[i..]) <==>
                  Disciplined(terms, w, ms[i]) && DisciplinedRun(terms, w', ms[i + 1..]))
            && (i + 1 == |ms| ==>
                  && DoAll(terms, w, ms[i..]) == w'
                  && (DisciplinedRun(terms, w, ms[i..]) <==> Disciplined(terms, w, ms[i])))
            && ms[0..] == ms
  {
    hide Do, Disciplined;
    assert ms[i..][0] == ms[i] && ms[i..][1..] == ms[i + 1..];
  }

  /** A second task fetches the row and closes it from the wallet before the first one's sell is written. */
  lemma CloseBehindSell(terms: map<int, Terms>, w: World, trigger: real, fill: Fill) returns (end: World)
    requires |w.tasks| == 2 && w.tasks[0].phase.InFlight? && w.tasks[0].id == 0 && w.tasks[1] == Task(0, Idle)
    requires 0 in terms && 0 in w.tallies && w.tallies[0].book.status == Open && w.tallies[0].book.remainingPct > 0.0
    requires w.tasks[0].phase.copy.basis == w.tallies[0].book.basis
    requires terms[0].mode == Live && terms[0].source != Fourmeme && terms[0].amountTokens > 0.0
    ensures end == DoAll(terms, w, CloseAndCommitMoves(trigger, fill))
    ensures DisciplinedRun(terms, w, CloseAndCommitMoves(trigger, fill)) && 0 in end.tallies
    ensures var y, p := w.tallies[0], w.tasks[0].phase;
            end.tallies[0] == Committed(terms[0], y.(book := y.book.(status := Closed, remainingPct := 0.0)), p.copy,
                                        p.requested, trigger, fill)
  {
    var moves := CloseAndCommitMoves(trigger, fill);
    var w1 := Do(terms, w, moves[0]);
    var w2 := Do(terms, w1, moves[1]);
    end := Do(terms, w2, moves[2]);
    DoNext(terms, w2, moves, 2);
    DoNext(terms, w1, moves, 1);
    DoNext(terms, w, moves, 0);
    EmptyWalletCloses(terms[0], w.tallies[0].book);
    hide VerdictFor, Committed, Sellable, DoAll, DisciplinedRun;
  }

  lemma EmptyWalletCloses(t: Terms, b: Book)
    requires t.mode == Live && t.source != Fourmeme && t.amountTokens > 0.0 && b.remainingPct > 0.0
    ensures VerdictFor(t, b, Some(0.0)) == CloseOut
  {
    ExactVerdict(t, b, 0.0);
    QuotientTimesDivisor(Tracked(t, b), Tracked(t, b));
  }

  /** One task fetches the row, takes the free lock and submits a sell while nobody else moves. */
  lemma SubmitAlone(terms: map<int, Terms>, w: World, k: nat, requested: real) returns (end: World)
    requires k < |w.tasks| && w.tasks[k].phase.Idle? && 0 !in w.lock
    requires 0 in w.tallies && w.tallies[0].book.status == Open && Sellable(w.tallies[0].book, requested) > 0.0
    ensures end == DoAll(terms, w, SubmitMoves(k, requested)) && DisciplinedRun(terms, w, SubmitMoves(k, requested))
    ensures end == World(w.tallies, w.lock + {0}, w.tasks[k := Task(0, InFlight(w.tallies[0].book, requested))])
  {
    var moves := SubmitMoves(k, requested);
    var w1 := Do(terms, w, moves[0]);
    var w2 := Do(terms, w1, moves[1]);
    end := Do(terms, w2, moves[2]);
    DoNext(terms, w2, moves, 2);
    DoNext(terms, w1, moves, 1);
    DoNext(terms, w, moves, 0);
    hide Sellable, DoAll, DisciplinedRun;
  }

  /** One task runs its sell from lock to release while nobody else moves. */
  lemma SellAlone(terms: map<int, Terms>, w: World, k: nat, requested: real, trigger: real, fill: Fill)
    returns (end: World)
    requires k < |w.tasks| && w.tasks[k].phase.Fetched? && w.lock == {}
    requires w.tasks[k].id in terms && w.tasks[k].id in w.tallies
    requires w.tasks[k].phase.copy.status == Open && Sellable(w.tasks[k].phase.copy, requested) > 0.0
    ensures end == DoAll(terms, w, SellMoves(k, requested, trigger, fill))
    ensures var id := w.tasks[k].id;
            var sold := Committed(terms[id], w.tallies[id], w.tasks[k].phase.copy, requested, trigger, fill);
            end == World(w.tallies[id := sold], {}, w.tasks[k := Task(id, Finished)])
  {
    var moves := SellMoves(k, requested, trigger, fill);
    var w1 := Do(terms, w, moves[0]);
    var w2 := Do(terms, w1, moves[1]);
    var w3 := Do(terms, w2, moves[2]);
    end := Do(terms, w3, moves[3]);
    DoNext(terms, w3, moves, 3);
    DoNext(terms, w2, moves, 2);
    DoNext(terms, w1, moves, 1);
    DoNext(terms, w, moves, 0);
    hide Committed, Sellable, DoAll, DisciplinedRun;
  }
}
