/** The two readers of event logs over a block range: shrinking chunks (backend/app/connectors/pons.py) and
    bisecting recursion (backend/app/connectors/doppler.py). A query answers completely or fails; which queries
    fail is an arbitrary pattern. */
module LogReaders {
  import opened Outcomes

  const ATTEMPTS := 3
  const DOPPLER_CHUNK := 100
  const PONS_CHUNK := 50

  /** The logs of the blocks `start..end`, in order; empty when the range is. */
  function LogsBetween<L>(chain: nat -> seq<L>, start: nat, end: int): seq<L>
    decreases end - start
  {
    if start > end then [] else chain(start) + LogsBetween(chain, start + 1, end)
  }

  lemma {:induction false} LogsSplit<L>(chain: nat -> seq<L>, start: nat, mid: nat, end: int)
    requires start <= mid <= end + 1
    ensures LogsBetween(chain, start, end) == LogsBetween(chain, start, mid - 1) + LogsBetween(chain, mid, end)
    decreases mid - start
  {
    if start < mid {
      LogsSplit(chain, start + 1, mid, end);
    }
  }

  class EventSource<L> {
    const chain: nat -> seq<L>
    const fails: nat -> bool
    var queries: nat
    ghost var asked: seq<(nat, int)>  // the ranges of all queries, in order

    constructor (chain: nat -> seq<L>, fails: nat -> bool)
      ensures this.chain == chain && this.fails == fails && queries == 0 && asked == []
    {
      this.chain, this.fails, queries, asked := chain, fails, 0, [];
    }

    method GetLogs(start: nat, end: int) returns (r: Result<seq<L>>)
      modifies this
      ensures queries == old(queries) + 1 && asked == old(asked) + [(start, end)]
      ensures r == if fails(old(queries)) then Failure else Success(LogsBetween(chain, start, end))
    {
      r := if fails(queries) then Failure else Success(LogsBetween(chain, start, end));
      queries := queries + 1;
      asked := asked + [(start, end)];
    }

    /** The last `n` queries all failed. */
    ghost predicate JustFailed(n: nat)
      reads this`queries
    {
      queries >= n && forall k :: queries - n <= k < queries ==> fails(k)
    }

    /** The last `n` queries all asked for this range. */
    ghost predicate JustAsked(n: nat, start: nat, end: int)
      reads this`asked
    {
      |asked| >= n && forall k :: |asked| - n <= k < |asked| ==> asked[k] == (start, end)
    }

    /** Three queries in a row failed, all of them for one block of the range. */
    ghost predicate StuckWithin(start: nat, end: int)
      reads this
    {
      JustFailed(3) && exists block: nat :: start <= block <= end && JustAsked(3, block, block)
    }

    /** The retry loop both readers share. */
    method GetWithRetries(start: nat, end: int) returns (r: Result<seq<L>>)
      modifies this
      ensures old(queries) < queries <= old(queries) + ATTEMPTS
      ensures r.Success? ==> r.value == LogsBetween(chain, start, end)
      ensures r.Failure? ==> JustFailed(ATTEMPTS) && JustAsked(ATTEMPTS, start, end)
    {
      r := Failure;
      for attempt := 0 to ATTEMPTS
        invariant queries == old(queries) + attempt
        invariant r.Failure? && JustFailed(attempt) && JustAsked(attempt, start, end)
      {
        r := GetLogs(start, end);
        if r.Success? { return; }
      }
    }
  }

  function Blocks(start: nat, end: int): nat { if start > end then 0 else end - start + 1 }

  /** Shrinking chunks: the range comes back complete, once and in order, or a single block failed three
      times in a row; and the number of queries is bounded. */
  method GetLogsChunked<L>(source: EventSource<L>, start: nat, end: int, initialChunk: int, maxChunk: int)
    returns (r: Result<seq<L>>)
    modifies source
    ensures r.Success? ==> r.value == LogsBetween(source.chain, start, end)
    ensures r.Failure? ==> source.StuckWithin(start, end)
    ensures source.queries <= old(source.queries) + ATTEMPTS * (Blocks(start, end) + FirstChunk(initialChunk, maxChunk))
  {
    var logs: seq<L> := [];
    var cursor := start;
    var chunk := FirstChunk(initialChunk, maxChunk);
    while cursor <= end
      invariant start <= cursor && (cursor <= end + 1 || cursor == start)
      invariant 1 <= chunk <= FirstChunk(initialChunk, maxChunk)
      invariant logs == LogsBetween(source.chain, start, cursor - 1)
      invariant source.queries + ATTEMPTS * (Blocks(cursor, end) + chunk)
             <= old(source.queries) + ATTEMPTS * (Blocks(start, end) + FirstChunk(initialChunk, maxChunk))
      decreases end - cursor, chunk
    {
      var chunkEnd := if cursor + chunk - 1 < end then cursor + chunk - 1 else end;
      var part := source.GetWithRetries(cursor, chunkEnd);
      match part {
        case Success(found) =>
          LogsSplit(source.chain, start, cursor, chunkEnd);
          logs := logs + found;
          cursor := chunkEnd + 1;
        case Failure =>
          if chunk == 1 { return Failure; }
          chunk := if chunk / 2 > 1 then chunk / 2 else 1;
      }
    }
    r := Success(logs);
  }

  function FirstChunk(initialChunk: int, maxChunk: int): (c: nat)
    ensures c >= 1
  {
    var least := if initialChunk < maxChunk then initialChunk else maxChunk;
    if least < 1 then 1 else least
  }

  function BisectBudget(blocks: nat): nat { if blocks == 0 then 0 else ATTEMPTS * (2 * blocks - 1) }

  /** Bisecting recursion: same promise; a failed chunk is read again in two halves. */
  method BisectLogs<L>(source: EventSource<L>, start: nat, end: int) returns (r: Result<seq<L>>)
    modifies source
    ensures r.Success? ==> r.value == LogsBetween(source.chain, start, end)
    ensures r.Failure? ==> source.StuckWithin(start, end)
    ensures source.queries <= old(source.queries) + BisectBudget(Blocks(start, end))
    decreases Blocks(start, end)
  {
    var out: seq<L> := [];
    var cursor := start;
    while cursor <= end
      invariant start <= cursor && (cursor <= end + 1 || cursor == start)
      invariant out == LogsBetween(source.chain, start, cursor - 1)
      invariant source.queries + BisectBudget(Blocks(cursor, end))
             <= old(source.queries) + BisectBudget(Blocks(start, end))
    {
      var chunkEnd := if cursor + DOPPLER_CHUNK - 1 < end then cursor + DOPPLER_CHUNK - 1 else end;
      var part := source.GetWithRetries(cursor, chunkEnd);
      match part {
        case Success(found) =>
          LogsSplit(source.chain, start, cursor, chunkEnd);
          out := out + found;
          cursor := chunkEnd + 1;
        case Failure =>
          if chunkEnd == cursor { return Failure; }
          var half := (chunkEnd - cursor + 1) / 2;
          var first := BisectLogs(source, cursor, cursor + half - 1);
          if first.Failure? { return Failure; }
          LogsSplit(source.chain, start, cursor, cursor + half - 1);
          out := out + first.value;
          cursor := cursor + half;
      }
    }
    r := Success(out);
  }
}
