/** The sell retry machine of the Pump.fun adapter (backend/app/execution/pumpfun_live.py). */
module PumpFunSell {
  import opened Outcomes
  import opened Integers
  import Ledger
  import ExitLadder
  import ExitActions
  import ExitRuns

  const MAX_ATTEMPTS := 3

  // ---------- slippage ----------

  function SlippageForAttempt(baseBps: int, attempt: nat): int {
    var base := Max(0, baseBps);
    if attempt == 0 then base
    else if attempt == 1 then Min(Max(base, 1) * 5 / 2, 1000)
    else Min(Max(base, 1) * 10 / 3, 1500)
  }

  /** The first attempt allows the base; the first retry as much as is within two and a half times the base and 10
      percent, later ones within ten thirds and 15 percent, a base of zero counting as one. */
  lemma SlippageIsTheLargest(base: nat, attempt: nat, slippage: int)
    ensures slippage <= SlippageForAttempt(base, attempt) <==>
              if attempt == 0 then slippage <= base
              else if attempt == 1 then slippage <= 1000 && 2 * slippage <= 5 * Max(base, 1)
              else slippage <= 1500 && 3 * slippage <= 10 * Max(base, 1)
  {}

  /** Widened slippage never passes the greater of the base and 15 percent, and no retry narrows it exactly for a
      base of at most 10 percent: above that the first retry does. */
  lemma SlippageSchedule(base: nat)
    ensures forall attempt: nat :: SlippageForAttempt(base, attempt) <= Max(base, 1500)
    ensures (forall i: nat, j: nat :: i <= j ==> SlippageForAttempt(base, i) <= SlippageForAttempt(base, j))
            <==> base <= 1000
  {
    assert SlippageForAttempt(base, 0) <= SlippageForAttempt(base, 1) <==> base <= 1000;
  }

  predicate Protected(reason: string) { reason in {"stop loss hit", "trailing stop hit"} }

  /** None of the reasons the position manager gives is on the protected list, so every one of its exits,
      stops included, may widen its slippage on retries. */
  lemma NoManagerExitIsProtected(r: ExitLadder.Reason, shown: string)
    ensures !Protected(ExitLadder.Label(r, shown))
  {
    var text := ExitLadder.Label(r, shown);
    match r
    case TimeBased => assert text[1] == 'i';
    case DefensiveStop => assert text[0] == 'd';
    case HardStop => assert text[0] == 'h';
    case ProfitFloor => assert text[0] == 'a';
    case Trailing => assert text[0] == 'a';
    case VolumeDrop => assert text[0] == 'v';
    case TakeProfit(_) => assert text[1] == 'a';
    case Manual => assert text[0] == 'm';
  }

  // ---------- raw amounts ----------

  function Pow10(n: nat): (p: nat)
    ensures p > 0
  {
    if n == 0 then 1 else 10 * Pow10(n - 1)
  }

  function RawUnits(tokens: real, decimals: nat): real { tokens * Pow10(decimals) as real }

  function TokenAmountToRaw(tokens: real, decimals: int): Result<nat> {
    if tokens <= 0.0 || decimals < 0 || decimals > 18 then Failure
    else
      var raw := RawUnits(tokens, decimals).Floor;
      if raw <= 0 then Failure else Success(raw)
  }

  /** The powers are those of ten. */
  lemma {:induction false} PowersOfTen(m: nat, n: nat)
    ensures Pow10(1) == 10 && Pow10(m + n) == Pow10(m) * Pow10(n)
  {
    if m > 0 {
      PowersOfTen(m - 1, n);
      assert Pow10(m + n) == 10 * Pow10(m - 1 + n);
    }
  }

  /** The raw amount is the largest whole number of base units within the tokens; the sell is refused exactly when
      that is none, or the decimals are not 0 to 18. */
  lemma RawIsTheLargest(tokens: real, decimals: int, raw: nat)
    ensures TokenAmountToRaw(tokens, decimals).Success? <==>
              0 <= decimals <= 18 && tokens > 0.0 && tokens * Pow10(decimals) as real >= 1.0
    ensures var r := TokenAmountToRaw(tokens, decimals);
            r.Success? ==> (raw <= r.value <==> raw as real <= tokens * Pow10(decimals) as real)
  {
    hide Pow10;
    if 0 <= decimals { RawWithinUnits(tokens, decimals, raw); }
  }

  lemma RawWithinUnits(tokens: real, decimals: nat, raw: nat)
    ensures var r, units := TokenAmountToRaw(tokens, decimals), RawUnits(tokens, decimals);
            && (r.Success? <==> decimals <= 18 && tokens > 0.0 && units >= 1.0)
            && (r.Success? ==> (raw <= r.value <==> raw as real <= units))
  {
    hide RawUnits;
    FloorIsTheLargest(RawUnits(tokens, decimals), raw);
    FloorIsTheLargest(RawUnits(tokens, decimals), 1);
  }

  lemma FloorIsTheLargest(x: real, n: int)
    ensures n <= x.Floor <==> n as real <= x
  {}

  // ---------- the retry loop ----------

  /** What an exception's text tells the adapter; one text may match several lists. */
  datatype SellError = Known(tooLittleSol: bool, curveGone: bool, staleBlockhash: bool) | Unexpected

  datatype Probe = Answer(migrated: bool) | ProbeRaises(error: SellError)

  datatype Sending = Confirmed | SendRaises(error: SellError)

  datatype Response = Response(probe: Probe, sending: Sending)

  datatype Path = BondingCurve | Jupiter

  /** One transaction the adapter set out to build. */
  datatype Built = Built(path: Path, raw: nat, slippage: int, forced: bool, confirmed: bool)

  /** An error that the loop answers with another attempt. */
  predicate Retries(e: SellError, attempt: nat, forced: bool) {
    attempt < MAX_ATTEMPTS - 1 && e.Known? && (e.tooLittleSol || (!forced && e.curveGone) || e.staleBlockhash)
  }

  /** One pass of the loop: what it built, whether another pass follows, and on which path. */
  datatype Pass = Pass(built: seq<Built>, again: bool, forced: bool)

  function OnePass(raw: nat, slippage: int, r: Response, attempt: nat, forced: bool): Pass {
    var unreachable := !forced && r.probe.ProbeRaises?;
    var path := if forced || (r.probe.Answer? && r.probe.migrated) then Jupiter else BondingCurve;
    var built := if unreachable then [] else [Built(path, raw, slippage, forced, r.sending.Confirmed?)];
    if !unreachable && r.sending.Confirmed? then Pass(built, false, forced) else
    var error := if unreachable then r.probe.error else r.sending.error;
    var again := Retries(error, attempt, forced);
    Pass(built, again, forced || (again && !error.tooLittleSol && error.curveGone))
  }

  function SlippageFor(base: int, reason: string, attempt: nat): int {
    if Protected(reason) then base else SlippageForAttempt(base, attempt)
  }

  /** The transactions of one sell from `attempt` on, in the order they are built. */
  function Attempts(raw: nat, base: int, reason: string,
                    outside: nat -> Response, attempt: nat, forced: bool): seq<Built>
    decreases MAX_ATTEMPTS - attempt
  {
    if attempt >= MAX_ATTEMPTS then [] else
    var pass := OnePass(raw, SlippageFor(base, reason, attempt), outside(attempt), attempt, forced);
    pass.built + if pass.again then Attempts(raw, base, reason, outside, attempt + 1, pass.forced) else []
  }

  function AllAttempts(raw: nat, base: int, reason: string, outside: nat -> Response): seq<Built> {
    Attempts(raw, base, reason, outside, 0, false)
  }

  predicate Delivered(built: seq<Built>) { built != [] && built[|built| - 1].confirmed }

  method TryOnce(raw: nat, slippage: int, response: Response, attempt: nat, forceJupiter: bool)
    returns (built: seq<Built>, again: bool, forced: bool)
    ensures Pass(built, again, forced) == OnePass(raw, slippage, response, attempt, forceJupiter)
  {
    built, again, forced := [], false, forceJupiter;
    var error;
    if !forceJupiter && response.probe.ProbeRaises? {
      error := response.probe.error;
    } else {
      var path := if forceJupiter || response.probe.migrated then Jupiter else BondingCurve;
      built := [Built(path, raw, slippage, forceJupiter, response.sending.Confirmed?)];
      if response.sending.Confirmed? { return; }
      error := response.sending.error;
    }
    if attempt < MAX_ATTEMPTS - 1 && error.Known? && error.tooLittleSol { again := true; return; }
    if !forceJupiter && attempt < MAX_ATTEMPTS - 1 && error.Known? && error.curveGone {
      again, forced := true, true;
      return;
    }
    again := attempt < MAX_ATTEMPTS - 1 && error.Known? && error.staleBlockhash;
  }

  lemma StartOfAttempts(raw: nat, base: int, reason: string, outside: nat -> Response, attempt: nat, forced: bool)
    requires attempt == 0 && !forced
    ensures AllAttempts(raw, base, reason, outside) == Attempts(raw, base, reason, outside, attempt, forced)
  {}

  lemma AttemptsUnfold(raw: nat, base: int, reason: string, outside: nat -> Response, attempt: nat, forced: bool)
    requires attempt < MAX_ATTEMPTS
    ensures var pass := OnePass(raw, SlippageFor(base, reason, attempt), outside(attempt), attempt, forced);
            Attempts(raw, base, reason, outside, attempt, forced) ==
            pass.built + if pass.again then Attempts(raw, base, reason, outside, attempt + 1, pass.forced) else []
  {}

  lemma AttemptsEnd(raw: nat, base: int, reason: string, outside: nat -> Response, attempt: nat, forced: bool)
    ensures attempt >= MAX_ATTEMPTS ==> Attempts(raw, base, reason, outside, attempt, forced) == []
  {}

  lemma PassFacts(raw: nat, slippage: int, r: Response, attempt: nat, forced: bool)
    ensures var pass := OnePass(raw, slippage, r, attempt, forced);
            && |pass.built| <= 1 && (forced ==> pass.forced)
            && (pass.again ==> attempt < MAX_ATTEMPTS - 1 && !Delivered(pass.built))
            && (forall b <- pass.built ::
                  b.raw == raw && b.slippage == slippage && b.forced == forced && (forced ==> b.path == Jupiter))
  {}

  method Sell(tokens: real, sellPct: real, decimals: int, baseSlippage: int, reason: string, outside: nat -> Response)
    returns (success: bool, built: seq<Built>)
    ensures var raw := TokenAmountToRaw(tokens, decimals);
            built == if tokens <= 0.0 || sellPct <= 0.0 || sellPct > 100.0 || raw.Failure? then []
                     else AllAttempts(raw.value, baseSlippage, reason, outside)
    ensures success <==> Delivered(built)
  {
    hide SlippageFor, TokenAmountToRaw, OnePass, Attempts, AllAttempts;
    success, built := false, [];
    if tokens <= 0.0 || sellPct <= 0.0 || sellPct > 100.0 { return; }
    var amount := TokenAmountToRaw(tokens, decimals);
    if amount.Failure? { return; }
    var raw := amount.value;
    var forceJupiter := false;
    StartOfAttempts(raw, baseSlippage, reason, outside, 0, forceJupiter);
    for attempt := 0 to MAX_ATTEMPTS
      invariant !success && !Delivered(built)
      invariant built + Attempts(raw, baseSlippage, reason, outside, attempt, forceJupiter)
             == AllAttempts(raw, baseSlippage, reason, outside)
    {
      AttemptsUnfold(raw, baseSlippage, reason, outside, attempt, forceJupiter);
      var part, again, forced := TryOnce(raw, SlippageFor(baseSlippage, reason, attempt),
                                          outside(attempt), attempt, forceJupiter);
      ghost var rest := if again then Attempts(raw, baseSlippage, reason, outside, attempt + 1, forced) else [];
      assert built + (part + rest) == (built + part) + rest;
      built := built + part;
      PassFacts(raw, SlippageFor(baseSlippage, reason, attempt), outside(attempt), attempt, forceJupiter);
      if !again { return Delivered(part), built; }
      forceJupiter := forced;
    }
    AttemptsEnd(raw, baseSlippage, reason, outside, MAX_ATTEMPTS, forceJupiter);
  }

  /** Whatever happens outside: at most three transactions, all for one raw amount, at most one confirmed and
      that the last; protected exits never leave their slippage and others stay within the greater of the base
      and 15 percent; and once the Jupiter path is forced it is never left. */
  lemma {:induction false} AttemptsAreBounded(raw: nat, base: int, reason: string, outside: nat -> Response,
                                              attempt: nat, forced: bool)
    ensures var built := Attempts(raw, base, reason, outside, attempt, forced);
            && |built| <= (if attempt < MAX_ATTEMPTS then MAX_ATTEMPTS - attempt else 0)
            && (forall b <- built :: b.raw == raw && (b.forced ==> b.path == Jupiter) && (forced ==> b.forced)
                  && (if Protected(reason) then b.slippage == base else b.slippage <= Max(base, 1500)))
            && (forall i :: 0 <= i < |built| - 1 ==> !built[i].confirmed)
            && (forall i, j :: 0 <= i < j < |built| && built[i].forced ==> built[j].forced)
    decreases MAX_ATTEMPTS - attempt
  {
    if attempt < MAX_ATTEMPTS {
      AttemptsUnfold(raw, base, reason, outside, attempt, forced);
      PassFacts(raw, SlippageFor(base, reason, attempt), outside(attempt), attempt, forced);
      var pass := OnePass(raw, SlippageFor(base, reason, attempt), outside(attempt), attempt, forced);
      SlippageStaysWithin(base, reason, attempt);
      hide SlippageFor, Protected, OnePass, Attempts;
      if pass.again { AttemptsAreBounded(raw, base, reason, outside, attempt + 1, pass.forced); }
    }
  }

  lemma SlippageStaysWithin(base: int, reason: string, attempt: nat)
    ensures if Protected(reason) then SlippageFor(base, reason, attempt) == base
            else SlippageFor(base, reason, attempt) <= Max(base, 1500)
  {}

  /** A transaction is built again only after an error on one of the lists: an unexpected one ends the sell. */
  lemma UnexpectedErrorsEndTheSell(raw: nat, base: int, reason: string,
                                  outside: nat -> Response, attempt: nat, forced: bool)
    requires attempt < MAX_ATTEMPTS && (forced || outside(attempt).probe.Answer?)
    requires outside(attempt).sending == SendRaises(Unexpected)
    ensures var built := Attempts(raw, base, reason, outside, attempt, forced); |built| == 1 && !Delivered(built)
  {}

  /** The attempt reaches a path and its transaction confirms. */
  predicate GoesThrough(r: Response, forced: bool) { (forced || r.probe.Answer?) && r.sending.Confirmed? }

  /** The error that ended an attempt which did not go through. */
  function FailureOf(r: Response, forced: bool): SellError
    requires !GoesThrough(r, forced)
  {
    if !forced && r.probe.ProbeRaises? then r.probe.error else r.sending.error
  }

  predicate IsRetried(r: Response, attempt: nat, forced: bool) {
    !GoesThrough(r, forced) && attempt < 2
    && var e := FailureOf(r, forced);
       e.Known? && (e.tooLittleSol || e.staleBlockhash || (e.curveGone && !forced))
  }

  /** Whether Jupiter is forced at attempt `k`: from the first error on that the curve has gone, unless the same
      error also reads as too little output. */
  function ForcedAt(outside: nat -> Response, attempt: nat, forced: bool, k: nat): bool
    decreases k
  {
    if k <= attempt then forced else
    var before := ForcedAt(outside, attempt, forced, k - 1);
    before || (IsRetried(outside(k - 1), k - 1, before)
               && !FailureOf(outside(k - 1), before).tooLittleSol && FailureOf(outside(k - 1), before).curveGone)
  }

  lemma {:induction false} ForcedFromNext(outside: nat -> Response, attempt: nat, forced: bool, k: nat)
    requires attempt < k
    ensures ForcedAt(outside, attempt, forced, k) ==
            ForcedAt(outside, attempt + 1, ForcedAt(outside, attempt, forced, attempt + 1), k)
    decreases k
  {
    if attempt + 1 < k { ForcedFromNext(outside, attempt, forced, k - 1); }
  }

  ghost predicate Arrives(outside: nat -> Response, attempt: nat, forced: bool, k: nat) {
    && GoesThrough(outside(k), ForcedAt(outside, attempt, forced, k))
    && forall a :: attempt <= a < k ==> IsRetried(outside(a), a, ForcedAt(outside, attempt, forced, a))
  }

  lemma {:induction false} ArrivesFromNext(outside: nat -> Response, attempt: nat, forced: bool, k: nat)
    requires attempt < k
    ensures Arrives(outside, attempt, forced, k) <==>
              && IsRetried(outside(attempt), attempt, forced)
              && Arrives(outside, attempt + 1, ForcedAt(outside, attempt, forced, attempt + 1), k)
  {
    forall a | attempt < a <= k
      ensures ForcedAt(outside, attempt, forced, a) ==
              ForcedAt(outside, attempt + 1, ForcedAt(outside, attempt, forced, attempt + 1), a)
    {
      ForcedFromNext(outside, attempt, forced, a);
    }
    hide IsRetried, GoesThrough;
  }

  lemma ArrivesAtOnce(outside: nat -> Response, attempt: nat, forced: bool)
    ensures ForcedAt(outside, attempt, forced, attempt) == forced
    ensures Arrives(outside, attempt, forced, attempt) <==> GoesThrough(outside(attempt), forced)
  {}

  ghost predicate ArrivesInTime(outside: nat -> Response, attempt: nat, forced: bool) {
    exists k :: attempt <= k < 3 && Arrives(outside, attempt, forced, k)
  }

  lemma {:induction false} ArrivesNowOrLater(outside: nat -> Response, attempt: nat, forced: bool)
    requires attempt < MAX_ATTEMPTS
    ensures var r, next := outside(attempt), ForcedAt(outside, attempt, forced, attempt + 1);
            ArrivesInTime(outside, attempt, forced) <==>
            GoesThrough(r, forced) || (IsRetried(r, attempt, forced) && ArrivesInTime(outside, attempt + 1, next))
  {
    var after, next := attempt + 1, ForcedAt(outside, attempt, forced, attempt + 1);
    ArrivesAtOnce(outside, attempt, forced);
    forall k: nat | attempt < k
      ensures Arrives(outside, attempt, forced, k) <==>
                IsRetried(outside(attempt), attempt, forced) && Arrives(outside, after, next, k)
    {
      ArrivesFromNext(outside, attempt, forced, k);
    }
    hide Arrives, IsRetried, GoesThrough, ForcedAt;
    if ArrivesInTime(outside, after, next) && IsRetried(outside(attempt), attempt, forced) {
      var k: nat :| after <= k < MAX_ATTEMPTS && Arrives(outside, after, next, k);
      assert Arrives(outside, attempt, forced, k);
    }
  }

  lemma PassDecides(raw: nat, slippage: int, outside: nat -> Response, attempt: nat, forced: bool)
    ensures var pass := OnePass(raw, slippage, outside(attempt), attempt, forced);
            && (pass.again <==> IsRetried(outside(attempt), attempt, forced))
            && (Delivered(pass.built) <==> GoesThrough(outside(attempt), forced))
            && (pass.again ==> !Delivered(pass.built) && pass.forced == ForcedAt(outside, attempt, forced, attempt + 1))
  {
    ArrivesAtOnce(outside, attempt, forced);
  }

  /** For every behaviour of the outside: a sell is delivered exactly when some attempt within the limit goes
      through and each one before it failed, in the probe or in the sending, with an error that is retried. */
  lemma {:induction false} RetriesDeliver(raw: nat, base: int, reason: string, outside: nat -> Response, attempt: nat,
                                          forced: bool)
    ensures Delivered(Attempts(raw, base, reason, outside, attempt, forced)) <==>
            ArrivesInTime(outside, attempt, forced)
    decreases MAX_ATTEMPTS - attempt
  {
    hide SlippageFor, OnePass, Attempts, Arrives, IsRetried, ForcedAt, GoesThrough;
    AttemptsEnd(raw, base, reason, outside, attempt, forced);
    if attempt < MAX_ATTEMPTS {
      var pass := OnePass(raw, SlippageFor(base, reason, attempt), outside(attempt), attempt, forced);
      AttemptsUnfold(raw, base, reason, outside, attempt, forced);
      PassDecides(raw, SlippageFor(base, reason, attempt), outside, attempt, forced);
      ArrivesNowOrLater(outside, attempt, forced);
      if pass.again { RetriesDeliver(raw, base, reason, outside, attempt + 1, pass.forced); }
    }
  }

  /** When every probe answers, each attempt up to the one that goes through builds a transaction, on the path
      forced by then. */
  lemma {:induction false} EachAttemptBuilds(raw: nat, base: int, reason: string, outside: nat -> Response,
                                             attempt: nat, k: nat, forced: bool)
    requires attempt <= k < MAX_ATTEMPTS && Arrives(outside, attempt, forced, k)
    requires forall a: nat :: attempt <= a <= k ==> outside(a).probe.Answer?
    ensures var built := Attempts(raw, base, reason, outside, attempt, forced);
            && Delivered(built) && |built| == k - attempt + 1
            && forall i :: 0 <= i < |built| ==> built[i].forced == ForcedAt(outside, attempt, forced, attempt + i)
    decreases k - attempt
  {
    hide SlippageFor, OnePass, Attempts, Arrives, IsRetried, ForcedAt, GoesThrough;
    var slippage, next := SlippageFor(base, reason, attempt), ForcedAt(outside, attempt, forced, attempt + 1);
    var pass := OnePass(raw, slippage, outside(attempt), attempt, forced);
    AttemptsUnfold(raw, base, reason, outside, attempt, forced);
    PassDecides(raw, slippage, outside, attempt, forced);
    OneBuilt(raw, slippage, outside(attempt), attempt, forced);
    ArrivesAtOnce(outside, attempt, forced);
    if attempt < k {
      ArrivesFromNext(outside, attempt, forced, k);
      var after := attempt + 1;
      EachAttemptBuilds(raw, base, reason, outside, after, k, next);
      forall a: nat | attempt < a <= k
        ensures ForcedAt(outside, attempt, forced, a) == ForcedAt(outside, after, next, a)
      {
        ForcedFromNext(outside, attempt, forced, a);
      }
    }
  }

  /** Whether delivered or not: when every probe answers, the `i`th transaction is the `i`th attempt's. It goes
      through Jupiter exactly when that is forced by then or the probe found the token migrated. */
  lemma {:induction false} PathFollowsProbe(raw: nat, base: int, reason: string, outside: nat -> Response, attempt: nat,
                                            forced: bool)
    requires forall a: nat :: attempt <= a < MAX_ATTEMPTS ==> outside(a).probe.Answer?
    ensures var built := Attempts(raw, base, reason, outside, attempt, forced);
            forall i :: 0 <= i < |built| ==>
              && attempt + i < MAX_ATTEMPTS && built[i].forced == ForcedAt(outside, attempt, forced, attempt + i)
              && (built[i].path == Jupiter <==> built[i].forced || outside(attempt + i).probe.migrated)
              && built[i].slippage == (if reason == "stop loss hit" || reason == "trailing stop hit" then base
                                       else SlippageForAttempt(base, attempt + i))
              && (built[i].confirmed <==> outside(attempt + i).sending.Confirmed?)
    decreases MAX_ATTEMPTS - attempt
  {
    hide SlippageFor, OnePass, Attempts, Arrives, IsRetried, ForcedAt, GoesThrough;
    AttemptsEnd(raw, base, reason, outside, attempt, forced);
    if attempt < MAX_ATTEMPTS {
      var slippage, after, next := SlippageFor(base, reason, attempt), attempt + 1,
                                   ForcedAt(outside, attempt, forced, attempt + 1);
      var pass := OnePass(raw, slippage, outside(attempt), attempt, forced);
      AttemptsUnfold(raw, base, reason, outside, attempt, forced);
      PassDecides(raw, slippage, outside, attempt, forced);
      OneBuilt(raw, slippage, outside(attempt), attempt, forced);
      ArrivesAtOnce(outside, attempt, forced);
      SlippageByReason(base, reason, attempt);
      if pass.again {
        PathFollowsProbe(raw, base, reason, outside, after, next);
        forall a: nat | attempt < a <= MAX_ATTEMPTS
          ensures ForcedAt(outside, attempt, forced, a) == ForcedAt(outside, after, next, a)
        {
          ForcedFromNext(outside, attempt, forced, a);
        }
        var built, rest := Attempts(raw, base, reason, outside, attempt, forced),
                           Attempts(raw, base, reason, outside, after, next);
        AttemptsWithin(raw, base, reason, outside, after, next);
        assert forall i :: 0 < i < |built| ==> built[i] == rest[i - 1] && attempt + i == after + (i - 1);
      }
    }
  }

  lemma SlippageByReason(base: int, reason: string, attempt: nat)
    ensures SlippageFor(base, reason, attempt) ==
            if reason == "stop loss hit" || reason == "trailing stop hit" then base
            else SlippageForAttempt(base, attempt)
  {}

  lemma AttemptsWithin(raw: nat, base: int, reason: string, outside: nat -> Response, attempt: nat, forced: bool)
    requires attempt <= MAX_ATTEMPTS
    ensures |Attempts(raw, base, reason, outside, attempt, forced)| <= MAX_ATTEMPTS - attempt
  {
    AttemptsAreBounded(raw, base, reason, outside, attempt, forced);
  }

  lemma OneBuilt(raw: nat, slippage: int, r: Response, attempt: nat, forced: bool)
    requires r.probe.Answer?
    ensures var built := OnePass(raw, slippage, r, attempt, forced).built;
            && |built| == 1 && built[0].forced == forced && built[0].slippage == slippage
            && (built[0].path == Jupiter <==> forced || r.probe.migrated)
            && (built[0].confirmed <==> r.sending.Confirmed?)
  {}

  // ---------- raw amounts over a position's life ----------

  /** Raw units sold by the recorded sells of a run, each floored on its own. */
  ghost function RawOf(t: Ledger.Terms, attempts: seq<ExitActions.Attempt>, decimals: nat): int
    decreases |attempts|
  {
    if attempts == [] then 0
    else
      var q := attempts[|attempts| - 1];
      var raw := TokenAmountToRaw(Ledger.AmountAt(t.amountTokens, q.pct), decimals);
      RawOf(t, attempts[..|attempts| - 1], decimals) + if q.recorded && raw.Success? then raw.value else 0
  }

  lemma {:induction false} RawBelowTokens(t: Ledger.Terms, attempts: seq<ExitActions.Attempt>, decimals: nat)
    requires decimals <= 18 && t.amountTokens >= 0.0
    requires forall q <- attempts :: q.recorded ==> q.pct >= 0.0
    ensures RawOf(t, attempts, decimals) as real <= RawUnits(ExitRuns.TokensOf(t, attempts), decimals)
    decreases |attempts|
  {
    hide RawUnits, TokenAmountToRaw, Ledger.AmountAt;
    RawGrows(0.0, 0.0, decimals);
    if attempts != [] {
      var q := attempts[|attempts| - 1];
      var before := attempts[..|attempts| - 1];
      RawBelowTokens(t, before, decimals);
      if q.recorded {
        var y := Ledger.AmountAt(t.amountTokens, q.pct);
        Ledger.AmountGrows(t.amountTokens, 0.0, q.pct);
        ZeroAmount(t.amountTokens);
        RawGrows(ExitRuns.TokensOf(t, before), y, decimals);
        RawGrows(0.0, y, decimals);
      }
    }
  }

  lemma ZeroAmount(original: real)
    ensures Ledger.AmountAt(original, 0.0) == 0.0
  {}

  /** Over every run of a position, the raw units of all its recorded sells together never exceed the position,
      although each sell is floored separately. */
  lemma {:induction false} RawUnitsStayWithinPosition(c: ExitLadder.Settings, row: ExitActions.Row,
                                                      actions: seq<ExitActions.Action>, decimals: nat)
    requires Ledger.Opening(row.terms, row.book) && decimals <= 18
    ensures RawOf(row.terms, ExitActions.Run(c, ExitActions.Begin(row), actions).attempts, decimals) as real
         <= RawUnits(row.terms.amountTokens, decimals)
  {
    hide RawUnits;
    var h := ExitActions.Run(c, ExitActions.Begin(row), actions);
    ExitRuns.RunConserves(c, row, actions);
    ExitRuns.AttemptsArePositive(c, ExitActions.Begin(row), actions);
    RawBelowTokens(row.terms, h.attempts, decimals);
    RawGrows(ExitRuns.TokensOf(row.terms, h.attempts), row.terms.amountTokens, decimals);
  }

  /** Raw units add up, start at zero and grow; a floored amount stays below its units. */
  lemma RawGrows(x: real, y: real, decimals: nat)
    ensures RawUnits(0.0, decimals) == 0.0
    ensures RawUnits(x, decimals) + RawUnits(y, decimals) == RawUnits(x + y, decimals)
    ensures x <= y ==> RawUnits(x, decimals) <= RawUnits(y, decimals)
    ensures var raw := TokenAmountToRaw(y, decimals); raw.Success? ==> raw.value as real <= RawUnits(y, decimals)
  {}
}
