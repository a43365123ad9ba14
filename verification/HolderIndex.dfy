/** The incremental holder and volume index of Pons tokens (backend/app/connectors/pons.py,
    `_update_holder_snapshot`). Transfers from and to the zero address are mints and burns, as in the section
    "Events" of ERC-20 (EIP-20). Addresses are taken to be in lower case already. */
module HolderIndex {
  import opened Outcomes
  import opened LogReaders

  type Address = string

  const ZERO: Address := "0x0000000000000000000000000000000000000000"
  const RETRY_SECONDS := 2.0

  datatype Transfer = Transfer(from: Address, to: Address, value: nat)

  type Balances = map<Address, int>

  function Get(b: Balances, a: Address): int { if a in b then b[a] else 0 }

  /** One transfer applied to the balances. */
  function Post(b: Balances, t: Transfer): Balances {
    var debited := if t.from != ZERO then b[t.from := Get(b, t.from) - t.value] else b;
    if t.to != ZERO then debited[t.to := Get(debited, t.to) + t.value] else debited
  }

  function Replay(b: Balances, ts: seq<Transfer>): Balances
    decreases |ts|
  {
    if ts == [] then b else Post(Replay(b, ts[..|ts| - 1]), ts[|ts| - 1])
  }

  function Volume(quotes: seq<nat>): nat
    decreases |quotes|
  {
    if quotes == [] then 0 else Volume(quotes[..|quotes| - 1]) + quotes[|quotes| - 1]
  }

  lemma {:induction false} ReplayConcat(b: Balances, xs: seq<Transfer>, ys: seq<Transfer>)
    ensures Replay(b, xs + ys) == Replay(Replay(b, xs), ys)
    decreases |ys|
  {
    if ys == [] {
      assert xs + ys == xs;
    } else {
      assert (xs + ys)[..|xs + ys| - 1] == xs + ys[..|ys| - 1];
      ReplayConcat(b, xs, ys[..|ys| - 1]);
    }
  }

  lemma VolumeOfOne(quote: nat)
    ensures Volume([quote]) == quote
  {}

  lemma {:induction false} VolumeConcat(xs: seq<nat>, ys: seq<nat>)
    ensures Volume(xs + ys) == Volume(xs) + Volume(ys)
    decreases |ys|
  {
    if ys == [] {
      assert xs + ys == xs;
    } else {
      assert (xs + ys)[..|xs + ys| - 1] == xs + ys[..|ys| - 1];
      VolumeConcat(xs, ys[..|ys| - 1]);
    }
  }

  // ---------- what a replay means ----------

  function Received(a: Address, ts: seq<Transfer>): nat
    decreases |ts|
  {
    if ts == [] then 0
    else Received(a, ts[..|ts| - 1]) + if ts[|ts| - 1].to == a then ts[|ts| - 1].value else 0
  }

  function Sent(a: Address, ts: seq<Transfer>): nat
    decreases |ts|
  {
    if ts == [] then 0
    else Sent(a, ts[..|ts| - 1]) + if ts[|ts| - 1].from == a then ts[|ts| - 1].value else 0
  }

  /** A holder's balance is what it received less what it sent, transfers to oneself included; the zero
      address never enters the index. */
  lemma {:induction false} BalanceIsReceivedLessSent(ts: seq<Transfer>, a: Address)
    requires a != ZERO
    ensures Get(Replay(map[], ts), a) == Received(a, ts) - Sent(a, ts)
    ensures ZERO !in Replay(map[], ts)
    decreases |ts|
  {
    if ts != [] { BalanceIsReceivedLessSent(ts[..|ts| - 1], a); }
  }

  ghost function Sum(b: Balances): int
    decreases |b|
  {
    if b == map[] then 0 else var a :| a in b; b[a] + Sum(b - {a})
  }

  lemma {:induction false} SumRemove(b: Balances, a: Address)
    requires a in b
    ensures Sum(b) == b[a] + Sum(b - {a})
    decreases |b|
  {
    var c :| c in b && Sum(b) == b[c] + Sum(b - {c});
    if c != a {
      SumRemove(b - {c}, a);
      SumRemove(b - {a}, c);
      assert (b - {c}) - {a} == (b - {a}) - {c};
    }
  }

  lemma {:induction false} SumUpdate(b: Balances, a: Address, v: int)
    ensures Sum(b[a := v]) == Sum(b) - Get(b, a) + v
  {
    SumRemove(b[a := v], a);
    assert b[a := v] - {a} == b - {a};
    if a in b { SumRemove(b, a); } else { assert b - {a} == b; }
  }

  /** All balances together are the minted amount less the burned amount. */
  lemma {:induction false} SupplyIsMintedLessBurned(ts: seq<Transfer>)
    ensures Sum(Replay(map[], ts)) == Sent(ZERO, ts) - Received(ZERO, ts)
    decreases |ts|
  {
    if ts != [] {
      hide Post;
      SupplyIsMintedLessBurned(ts[..|ts| - 1]);
      PostSum(Replay(map[], ts[..|ts| - 1]), ts[|ts| - 1]);
    }
  }

  lemma {:induction false} PostSum(b: Balances, t: Transfer)
    ensures Sum(Post(b, t)) == Sum(b) + (if t.from == ZERO then t.value else 0) - (if t.to == ZERO then t.value else 0)
  {
    hide Sum;
    var debited := if t.from != ZERO then b[t.from := Get(b, t.from) - t.value] else b;
    SumUpdate(b, t.from, Get(b, t.from) - t.value);
    SumUpdate(debited, t.to, Get(debited, t.to) + t.value);
  }

  // ---------- the index object ----------

  datatype Snapshot = Snapshot(launchBlock: nat, lastBlock: int, balances: Balances, volume: nat,
                               ready: bool, nextRetry: real)

  /** The snapshot is what one replay of the whole range since launch would give. */
  ghost predicate Complete(s: Snapshot, launch: nat, transfers: nat -> seq<Transfer>, buys: nat -> seq<nat>) {
    && s.launchBlock == launch && launch - 1 <= s.lastBlock
    && s.balances == Replay(map[], LogsBetween(transfers, launch, s.lastBlock))
    && s.volume == Volume(LogsBetween(buys, launch, s.lastBlock))
  }

  function NewSnapshot(launch: nat): Snapshot { Snapshot(launch, launch - 1, map[], 0, false, 0.0) }

  lemma NewIsComplete(launch: nat, transfers: nat -> seq<Transfer>, buys: nat -> seq<nat>)
    ensures Complete(NewSnapshot(launch), launch, transfers, buys)
  {}

  class Index {
    var states: map<Address, Snapshot>

    constructor ()
      ensures states == map[]
    {
      states := map[];
    }

    method Store(token: Address, s: Snapshot)
      modifies this
      ensures states == old(states)[token := s]
      ensures states - {token} == old(states) - {token}
    {
      states := states[token := s];
    }

    /** Whatever the two log queries do, a complete snapshot stays complete; it advances to `latest` only when
        both succeeded, and a failure changes nothing but the time of the next try. */
    method UpdateHolderSnapshot(token: Address, launch: nat, latest: nat, now: real,
                                transfers: EventSource<Transfer>, buys: EventSource<nat>) returns (s: Snapshot)
      requires token in states ==> Complete(states[token], launch, transfers.chain, buys.chain)
      modifies this, transfers, buys
      ensures token in states && s == states[token] && states - {token} == old(states) - {token}
      ensures Complete(s, launch, transfers.chain, buys.chain)
      ensures var before := if token in old(states) then old(states)[token] else NewSnapshot(launch);
              if now < before.nextRetry then s == before
              else if before.lastBlock >= latest then s == before.(ready := true)
              else
                || (s.lastBlock == latest && s.ready && s.nextRetry == 0.0)
                || (&& s == before.(nextRetry := now + 2.0)
                    && (transfers.StuckWithin(before.lastBlock + 1, latest)
                        || buys.StuckWithin(before.lastBlock + 1, latest)))
    {
      hide Replay, Volume, LogsBetween;
      NewIsComplete(launch, transfers.chain, buys.chain);
      s := if token in states then states[token] else NewSnapshot(launch);
      s := s.(launchBlock := launch);
      Store(token, s);
      if now < s.nextRetry { return; }

      var start := if launch < s.lastBlock + 1 then s.lastBlock + 1 else launch;
      if start > latest {
        s := s.(ready := true);
        Store(token, s);
        return;
      }

      var transferLogs := GetLogsChunked(transfers, start, latest, PONS_CHUNK, PONS_CHUNK);
      if transferLogs.Success? {
        var buyLogs := GetLogsChunked(buys, start, latest, PONS_CHUNK, PONS_CHUNK);
        if buyLogs.Success? {
          var balances := ReplayInto(s.balances, transferLogs.value);
          var volume := s.volume + Volume(buyLogs.value);
          ExtendRange(launch, s.lastBlock, latest, transfers.chain, buys.chain);
          s := s.(balances := balances, volume := volume, lastBlock := latest, ready := true, nextRetry := 0.0);
          Store(token, s);
          return;
        }
      }
      s := s.(nextRetry := now + RETRY_SECONDS);
      Store(token, s);
    }
  }

  /** The loop over the fetched transfers, on a copy of the balances. */
  method ReplayInto(start: Balances, logs: seq<Transfer>) returns (balances: Balances)
    ensures balances == Replay(start, logs)
  {
    hide Replay;
    balances := start;
    ReplayEnds(start, logs);
    for i := 0 to |logs|
      invariant balances == Replay(start, logs[..i])
    {
      var t := logs[i];
      ReplayNext(start, logs, i);
      if t.from != ZERO { balances := balances[t.from := Get(balances, t.from) - t.value]; }
      if t.to != ZERO { balances := balances[t.to := Get(balances, t.to) + t.value]; }
    }
  }

  lemma ReplayNext(start: Balances, logs: seq<Transfer>, i: nat)
    requires i < |logs|
    ensures Replay(start, logs[..i + 1]) == Post(Replay(start, logs[..i]), logs[i])
  {
    assert logs[..i + 1][..i] == logs[..i];
  }

  lemma ReplayEnds(start: Balances, logs: seq<Transfer>)
    ensures Replay(start, logs[..0]) == start
    ensures logs[..|logs|] == logs
  {}

  lemma {:induction false} ExtendRange(launch: nat, last: int, latest: nat, transfers: nat -> seq<Transfer>,
                                       buys: nat -> seq<nat>)
    requires launch - 1 <= last < latest
    ensures Replay(map[], LogsBetween(transfers, launch, latest)) ==
            Replay(Replay(map[], LogsBetween(transfers, launch, last)), LogsBetween(transfers, last + 1, latest))
    ensures Volume(LogsBetween(buys, launch, latest)) ==
            Volume(LogsBetween(buys, launch, last)) + Volume(LogsBetween(buys, last + 1, latest))
  {
    LogsSplit(transfers, launch, last + 1, latest);
    LogsSplit(buys, launch, last + 1, latest);
    ReplayConcat(map[], LogsBetween(transfers, launch, last), LogsBetween(transfers, last + 1, latest));
    VolumeConcat(LogsBetween(buys, launch, last), LogsBetween(buys, last + 1, latest));
  }
}
