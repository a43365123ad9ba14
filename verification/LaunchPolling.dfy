/** Which blocks the launch pollers hand out over a run: Doppler (backend/app/connectors/doppler.py) and
    Pons (backend/app/connectors/pons.py). The chain head an RPC node reports may go up or down. */
module LaunchPolling {
  import opened Outcomes
  import opened Integers
  import opened LogReaders

  datatype Window = Window(start: nat, end: nat)

  /** How a poll ends: with launches; with the exception of a log read; or, when the watermark has already
      moved, with the exception of decoding one of the logs, which drops all the others as well. */
  datatype Outcome<+L> = Delivered(launches: seq<L>) | ReadFailed | DecodingFailed

  function Kept<L>(logs: seq<L>, wanted: L -> bool): seq<L> {
    if logs == [] then []
    else
      var last := logs[|logs| - 1];
      Kept(logs[..|logs| - 1], wanted) + if wanted(last) then [last] else []
  }

  predicate AllDecode<L>(logs: seq<L>, decodes: L -> bool) {
    forall i :: 0 <= i < |logs| ==> decodes(logs[i])
  }

  function Decoded<L>(logs: seq<L>, wanted: L -> bool, decodes: L -> bool): Outcome<L> {
    if AllDecode(logs, decodes) then Delivered(Kept(logs, wanted)) else DecodingFailed
  }

  /** The loop that turns fetched logs into launches. */
  method Decode<L>(logs: seq<L>, wanted: L -> bool, decodes: L -> bool) returns (r: Outcome<L>)
    ensures r == Decoded(logs, wanted, decodes)
  {
    var launches: seq<L> := [];
    for i := 0 to |logs|
      invariant launches == Kept(logs[..i], wanted) && AllDecode(logs[..i], decodes)
    {
      if !decodes(logs[i]) { return DecodingFailed; }
      assert logs[..i + 1][..i] == logs[..i];
      if wanted(logs[i]) { launches := launches + [logs[i]]; }
    }
    assert logs[..|logs|] == logs;
    r := Delivered(launches);
  }

  /** One poll: the head seen, and whether reading the logs fails. */
  datatype Poll = Poll(latest: nat, readFails: bool)

  /** The first block a Doppler poll asks for; a watermark or configured block of 0 counts as unset. */
  function DopplerStart(watermark: nat, configured: nat, latest: nat, maxBlocks: nat): nat {
    var start := if watermark != 0 then watermark else if configured != 0 then configured else Max(0, latest - 10);
    if latest - start > maxBlocks then latest - maxBlocks else start
  }

  /** The blocks a poll delivers, if it delivers any. */
  function DopplerWindow(watermark: nat, configured: nat, p: Poll, maxBlocks: nat): Option<Window> {
    var start := DopplerStart(watermark, configured, p.latest, maxBlocks);
    if start > p.latest || p.readFails then None else Some(Window(start, p.latest))
  }

  function After(watermark: nat, w: Option<Window>): nat { if w.Some? then w.value.end + 1 else watermark }

  class DopplerClient {
    var watermark: nat

    constructor ()
      ensures watermark == 0
    {
      watermark := 0;
    }

    /** A failed log read moves nothing. A successful one steps past its window and delivers the window's launches
        of the wanted initializer, unless one of its logs cannot be decoded. */
    method PollNewLaunches<L>(source: EventSource<L>, latest: nat, configured: nat, maxBlocks: nat,
                              wanted: L -> bool, decodes: L -> bool)
      returns (r: Outcome<L>)
      modifies this, source
      ensures var w := DopplerWindow(old(watermark), configured, Poll(latest, r.ReadFailed?), maxBlocks);
              && watermark == After(old(watermark), w)
              && (w.Some? ==> r == Decoded(LogsBetween(source.chain, w.value.start, w.value.end), wanted, decodes))
              && (w.None? && !r.ReadFailed? ==> r == Delivered([]))
      ensures r.ReadFailed? ==> source.StuckWithin(DopplerStart(old(watermark), configured, latest, maxBlocks), latest)
    {
      var start := if watermark != 0 then watermark else if configured != 0 then configured else Max(0, latest - 10);
      if latest - start > maxBlocks { start := latest - maxBlocks; }
      if start > latest { return Delivered([]); }
      var logs := BisectLogs(source, start, latest);
      if logs.Failure? { return ReadFailed; }
      watermark := latest + 1;
      r := Decode(logs.value, wanted, decodes);
    }
  }

  // ---------- runs of Doppler polls ----------

  function Windows(watermark: nat, configured: nat, maxBlocks: nat, polls: seq<Poll>): seq<Window>
    decreases |polls|
  {
    if polls == [] then [] else
    var w := DopplerWindow(watermark, configured, polls[0], maxBlocks);
    (if w.Some? then [w.value] else []) + Windows(After(watermark, w), configured, maxBlocks, polls[1..])
  }

  /** From block `from` on, in increasing order, without overlap, each of `maxBlocks` + 1 blocks at most. */
  ghost predicate Increasing(from: nat, maxBlocks: nat, ws: seq<Window>) {
    && (forall i :: 0 <= i < |ws| ==> from <= ws[i].start <= ws[i].end <= ws[i].start + maxBlocks)
    && (forall i, j :: 0 <= i < j < |ws| ==> ws[i].end < ws[j].start)
  }

  /** No block is handed out twice, whatever heads the nodes report and whichever reads fail. */
  lemma {:induction false} WindowsNeverOverlap(watermark: nat, configured: nat, maxBlocks: nat, polls: seq<Poll>)
    ensures Increasing(watermark, maxBlocks, Windows(watermark, configured, maxBlocks, polls))
    decreases |polls|
  {
    hide Increasing;
    NoWindows(watermark, maxBlocks);
    if polls != [] {
      var w := DopplerWindow(watermark, configured, polls[0], maxBlocks);
      var rest := Windows(After(watermark, w), configured, maxBlocks, polls[1..]);
      WindowsNeverOverlap(After(watermark, w), configured, maxBlocks, polls[1..]);
      if w.Some? { AddFirst(watermark, maxBlocks, w.value, rest); } else { assert [] + rest == rest; }
    }
  }

  lemma NoWindows(from: nat, maxBlocks: nat)
    ensures Increasing(from, maxBlocks, [])
  {}

  lemma AddFirst(from: nat, maxBlocks: nat, w: Window, rest: seq<Window>)
    requires from <= w.start <= w.end <= w.start + maxBlocks && Increasing(w.end + 1, maxBlocks, rest)
    ensures Increasing(from, maxBlocks, [w] + rest)
  {}

  /** Without a watermark the first poll starts at the configured block or, without one, ten blocks behind the head,
      but never more than the maximum behind it. */
  lemma FirstDopplerWindow(configured: nat, latest: nat, maxBlocks: nat)
    ensures configured > 0 ==> DopplerStart(0, configured, latest, maxBlocks) == Max(configured, latest - maxBlocks)
    ensures configured == 0 ==> DopplerStart(0, configured, latest, maxBlocks) == Max(0, latest - Min(10, maxBlocks))
  {}

  function Reached(watermark: nat, configured: nat, maxBlocks: nat, polls: seq<Poll>): nat
    decreases |polls|
  {
    if polls == [] then watermark
    else Reached(After(watermark, DopplerWindow(watermark, configured, polls[0], maxBlocks)),
                 configured, maxBlocks, polls[1..])
  }

  function Covered(ws: seq<Window>): int {
    if ws == [] then 0 else ws[0].end - ws[0].start + 1 + Covered(ws[1..])
  }

  /** By how much the successful polls found the head more than `maxBlocks` ahead of the watermark. */
  function ExcessLag(watermark: nat, configured: nat, maxBlocks: nat, polls: seq<Poll>): nat
    decreases |polls|
  {
    if polls == [] then 0 else
    var w := DopplerWindow(watermark, configured, polls[0], maxBlocks);
    (if w.Some? then Max(0, polls[0].latest - watermark - maxBlocks) else 0)
    + ExcessLag(After(watermark, w), configured, maxBlocks, polls[1..])
  }

  /** Over every run the watermark moves by the blocks read plus exactly the excess lag: no other block is skipped. */
  lemma {:induction false} GapOnlyFromLag(watermark: nat, configured: nat, maxBlocks: nat, polls: seq<Poll>)
    requires watermark > 0
    ensures Reached(watermark, configured, maxBlocks, polls) ==
            watermark + Covered(Windows(watermark, configured, maxBlocks, polls))
            + ExcessLag(watermark, configured, maxBlocks, polls)
    decreases |polls|
  {
    if polls != [] {
      var w := DopplerWindow(watermark, configured, polls[0], maxBlocks);
      GapOnlyFromLag(After(watermark, w), configured, maxBlocks, polls[1..]);
      var rest := Windows(After(watermark, w), configured, maxBlocks, polls[1..]);
      if w.Some? { assert ([w.value] + rest)[1..] == rest; } else { assert [] + rest == rest; }
    }
  }

  function LaunchesOf<L>(r: Outcome<L>): seq<L> { if r.Delivered? then r.launches else [] }

  /** What the callers of the polls receive, all deliveries together. */
  function Handed<L>(chain: nat -> seq<L>, wanted: L -> bool, decodes: L -> bool, ws: seq<Window>): seq<L>
    decreases |ws|
  {
    if ws == [] then [] else
    LaunchesOf(Decoded(LogsBetween(chain, ws[0].start, ws[0].end), wanted, decodes))
    + Handed(chain, wanted, decodes, ws[1..])
  }

  /** No launch lies in a gap or in a window with a log that cannot be decoded. */
  ghost predicate NoLaunchLost<L>(chain: nat -> seq<L>, wanted: L -> bool, decodes: L -> bool,
                                  watermark: nat, configured: nat, maxBlocks: nat, polls: seq<Poll>)
    decreases |polls|
  {
    polls == [] ||
    (var w := DopplerWindow(watermark, configured, polls[0], maxBlocks);
     && (w.Some? ==>
           var logs := LogsBetween(chain, w.value.start, w.value.end);
           && Kept(LogsBetween(chain, watermark, w.value.start - 1), wanted) == []
           && (AllDecode(logs, decodes) || Kept(logs, wanted) == []))
     && NoLaunchLost(chain, wanted, decodes, After(watermark, w), configured, maxBlocks, polls[1..]))
  }

  lemma NoBlocks<L>(chain: nat -> seq<L>, watermark: nat, wanted: L -> bool)
    ensures Kept(LogsBetween(chain, watermark, watermark - 1), wanted) == []
  {}

  lemma WindowFacts(watermark: nat, configured: nat, maxBlocks: nat, p: Poll)
    requires watermark > 0
    ensures var w := DopplerWindow(watermark, configured, p, maxBlocks);
            && (w.None? ==> After(watermark, w) == watermark)
            && (w.Some? ==> watermark <= w.value.start <= w.value.end && After(watermark, w) == w.value.end + 1)
  {}

  /** Over every run, whatever the heads and failures: the callers receive each wanted launch from the watermark
      on exactly once and in order, precisely when no launch is lost to a gap or to an undecodable neighbour. */
  lemma {:induction false} NothingIsMissed<L>(chain: nat -> seq<L>, wanted: L -> bool, decodes: L -> bool,
                                              watermark: nat, configured: nat, maxBlocks: nat, polls: seq<Poll>)
    requires watermark > 0
    ensures var reached := Reached(watermark, configured, maxBlocks, polls);
            var handed := Handed(chain, wanted, decodes, Windows(watermark, configured, maxBlocks, polls));
            var all := Kept(LogsBetween(chain, watermark, reached - 1), wanted);
            && watermark <= reached && |handed| <= |all|
            && (handed == all <==> |handed| == |all|)
            && (handed == all <==> NoLaunchLost(chain, wanted, decodes, watermark, configured, maxBlocks, polls))
    decreases |polls|
  {
    hide LogsBetween, Kept, Decoded, AllDecode, After, DopplerWindow;
    WindowFacts(watermark, configured, maxBlocks, if polls == [] then Poll(0, true) else polls[0]);
    if polls == [] {
      NoBlocks(chain, watermark, wanted);
    } else {
      var w := DopplerWindow(watermark, configured, polls[0], maxBlocks);
      var next := After(watermark, w);
      NothingIsMissed(chain, wanted, decodes, next, configured, maxBlocks, polls[1..]);
      var rest := Windows(next, configured, maxBlocks, polls[1..]);
      var reached := Reached(next, configured, maxBlocks, polls[1..]);
      if w.Some? {
        assert ([w.value] + rest)[1..] == rest;
        var gap := LogsBetween(chain, watermark, w.value.start - 1);
        var logs := LogsBetween(chain, w.value.start, w.value.end);
        var later := LogsBetween(chain, next, reached - 1);
        LogsSplit(chain, watermark, w.value.start, reached - 1);
        LogsSplit(chain, w.value.start, next, reached - 1);
        OneWindow(gap, logs, later, Handed(chain, wanted, decodes, rest), wanted, decodes);
      } else {
        assert Windows(watermark, configured, maxBlocks, polls) == rest;
      }
    }
  }

  /** One window behind a gap, followed by blocks of which `handed` was delivered. */
  lemma OneWindow<L>(gap: seq<L>, logs: seq<L>, later: seq<L>, handed: seq<L>, wanted: L -> bool, decodes: L -> bool)
    requires |handed| <= |Kept(later, wanted)|
    requires handed == Kept(later, wanted) <==> |handed| == |Kept(later, wanted)|
    ensures var out := LaunchesOf(Decoded(logs, wanted, decodes)) + handed;
            var all := Kept(gap + (logs + later), wanted);
            && |out| <= |all| && (out == all <==> |out| == |all|)
            && (out == all <==> Kept(gap, wanted) == [] && (AllDecode(logs, decodes) || Kept(logs, wanted) == [])
                                && handed == Kept(later, wanted))
  {
    KeptConcat(gap, logs + later, wanted);
    KeptConcat(logs, later, wanted);
    hide Kept, AllDecode;
  }

  lemma {:induction false} KeptConcat<L>(xs: seq<L>, ys: seq<L>, wanted: L -> bool)
    ensures Kept(xs + ys, wanted) == Kept(xs, wanted) + Kept(ys, wanted)
    decreases |ys|
  {
    if ys == [] {
      assert xs + ys == xs;
    } else {
      assert (xs + ys)[..|xs + ys| - 1] == xs + ys[..|ys| - 1];
      KeptConcat(xs, ys[..|ys| - 1], wanted);
    }
  }

  // ---------- Pons ----------

  function PonsStart(watermark: nat, fromBlock: nat, latest: nat, maxBlocks: nat): nat {
    var wanted := if watermark != 0 then watermark else if fromBlock != 0 then fromBlock else Max(0, latest - 2);
    var start := Min(wanted, latest);
    if latest - start > maxBlocks then latest - maxBlocks else start
  }

  lemma {:induction false} AllKept<L>(logs: seq<L>, wanted: L -> bool)
    requires forall i :: 0 <= i < |logs| ==> wanted(logs[i])
    ensures Kept(logs, wanted) == logs
    decreases |logs|
  {
    if logs != [] { AllKept(logs[..|logs| - 1], wanted); }
  }

  class PonsClient {
    var watermark: nat
    var initialized: bool

    constructor ()
      ensures watermark == 0 && !initialized
    {
      watermark, initialized := 0, false;
    }

    /** The first successful poll only sets the watermark; every later one steps past its range and delivers it
        all, unless one of its logs cannot be decoded. */
    method PollNewLaunches<L>(source: EventSource<L>, latest: nat, fromBlock: nat, maxBlocks: nat, decodes: L -> bool)
      returns (r: Outcome<L>)
      modifies this, source
      ensures r.ReadFailed? ==> watermark == old(watermark) && initialized == old(initialized)
      ensures !r.ReadFailed? ==>
                && watermark == latest + 1 && initialized
                && var start := PonsStart(old(watermark), fromBlock, latest, maxBlocks);
                   var logs := LogsBetween(source.chain, start, latest);
                   r == if !old(initialized) then Delivered([])
                        else if AllDecode(logs, decodes) then Delivered(logs) else DecodingFailed
    {
      hide LogsBetween, Kept, AllDecode;
      var start := if watermark != 0 then watermark else if fromBlock != 0 then fromBlock else Max(0, latest - 2);
      start := Min(start, latest);
      if latest - start > maxBlocks { start := latest - maxBlocks; }
      if start > latest { return Delivered([]); }
      var entries := GetLogsChunked(source, start, latest, 10, 25);
      if entries.Failure? { return ReadFailed; }
      watermark := latest + 1;
      if !initialized {
        initialized := true;
        return Delivered([]);
      }
      var any := (log: L) => true;
      AllKept(entries.value, any);
      r := Decode(entries.value, any, decodes);
    }
  }

  /** Likewise, two blocks behind the head, and never beyond it; the first poll delivers nothing of that window. */
  lemma FirstPonsWindow(fromBlock: nat, latest: nat, maxBlocks: nat)
    ensures fromBlock > 0 ==>
              PonsStart(0, fromBlock, latest, maxBlocks) == Max(Min(fromBlock, latest), latest - maxBlocks)
    ensures fromBlock == 0 ==> PonsStart(0, fromBlock, latest, maxBlocks) == Max(0, latest - Min(2, maxBlocks))
  {}

  /** Unlike Doppler's, a Pons poll asks for blocks it has already stepped past exactly when the head has not
      moved beyond the watermark; it then reads the head block again. */
  lemma PonsRereadsExactlyWithoutProgress(watermark: nat, fromBlock: nat, latest: nat, maxBlocks: nat)
    requires watermark > 0
    ensures var start := PonsStart(watermark, fromBlock, latest, maxBlocks);
            && (start < watermark <==> latest < watermark)
            && (latest < watermark ==> start == latest)
            && (latest >= watermark ==> start == DopplerStart(watermark, fromBlock, latest, maxBlocks))
  {}
}
