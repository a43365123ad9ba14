/** The bounded launch queues and the signature memory of the scanners
    (backend/app/scanners/pumpfun_resource_guard.py, backend/app/scanners/preconf_fastpath.py). */
module BoundedMemory {
  import opened Outcomes

  ghost predicate Distinct<T>(xs: seq<T>) {
    forall i, j :: 0 <= i < j < |xs| ==> xs[i] != xs[j]
  }

  function Without<T(==)>(xs: seq<T>, x: T): seq<T> {
    if xs == [] then [] else if xs[0] == x then xs[1..] else [xs[0]] + Without(xs[1..], x)
  }

  lemma {:induction false} WithoutDistinct<T>(xs: seq<T>, x: T)
    requires Distinct(xs)
    ensures Distinct(Without(xs, x))
    ensures forall y :: y in Without(xs, x) <==> y in xs && y != x
  {
    if xs != [] {
      assert forall i :: 0 <= i < |xs[1..]| ==> xs[1..][i] == xs[i + 1];
      assert xs == [xs[0]] + xs[1..];
      WithoutDistinct(xs[1..], x);
      assert xs[0] !in xs[1..];
      var rest := Without(xs[1..], x);
      if xs[0] != x {
        assert forall i :: 1 <= i < |rest| + 1 ==> ([xs[0]] + rest)[i] == rest[i - 1] && rest[i - 1] in rest;
      }
    }
  }

  /** A launch event; `None` is an event without a usable mint. */
  datatype Event = Event(mint: Option<string>, payload: int)

  ghost predicate MintsDistinct(buffer: seq<Event>) {
    forall i, j :: 0 <= i < j < |buffer| && buffer[i].mint.Some? ==> buffer[i].mint != buffer[j].mint
  }

  ghost predicate Queued(buffer: seq<Event>, mint: string) {
    exists i :: 0 <= i < |buffer| && buffer[i].mint == Some(mint)
  }

  /** The bounded queue that keeps one pending event per mint and drops the oldest when full. */
  class MintDedupQueue {
    const maxsize: int
    var buffer: seq<Event>
    var pendingMints: seq<string>    // the ordered index
    ghost var accepted: seq<Event>   // every event that entered
    ghost var gone: seq<Event>       // every event that left, taken or dropped

    /** The index holds exactly the mints in the buffer, each once, and what entered is what left followed by
        what is still queued: nothing is lost, repeated or overtaken. */
    ghost predicate Valid()
      reads this
    {
      && Distinct(pendingMints) && MintsDistinct(buffer)
      && (forall m :: m in pendingMints <==> Queued(buffer, m))
      && accepted == gone + buffer
      && (maxsize > 0 ==> |buffer| <= maxsize)
    }

    predicate Full()
      reads this
    {
      maxsize > 0 && |buffer| >= maxsize
    }

    constructor (maxsize: int)
      ensures Valid() && this.maxsize == maxsize && buffer == [] && accepted == []
    {
      this.maxsize, buffer, pendingMints, accepted, gone := maxsize, [], [], [], [];
    }

    /** `None` is the queue-empty exception. */
    method GetNowait() returns (e: Option<Event>)
      requires Valid()
      modifies this
      ensures Valid() && accepted == old(accepted)
      ensures old(buffer) == [] ==> e == None && buffer == []
      ensures old(buffer) != [] ==> e == Some(old(buffer)[0]) && buffer == old(buffer)[1..]
    {
      if buffer == [] { return None; }
      var first := buffer[0];
      DequeueKeepsMints(buffer);
      buffer, gone := buffer[1..], gone + [first];
      if first.mint.Some? {
        WithoutDistinct(pendingMints, first.mint.value);
        pendingMints := Without(pendingMints, first.mint.value);
      }
      e := Some(first);
    }

    /** An event whose mint is already queued changes nothing; any other is queued last, and only when the
        queue is full does exactly the oldest event go. */
    method PutNowait(e: Event)
      requires Valid()
      modifies this
      ensures Valid()
      ensures e.mint.Some? && Queued(old(buffer), e.mint.value) ==> buffer == old(buffer) && accepted == old(accepted)
      ensures !(e.mint.Some? && Queued(old(buffer), e.mint.value)) ==>
                && accepted == old(accepted) + [e]
                && buffer == (if old(Full()) then old(buffer)[1..] else old(buffer)) + [e]
    {
      if e.mint.Some? && e.mint.value in pendingMints {
        WithoutDistinct(pendingMints, e.mint.value);
        pendingMints := Without(pendingMints, e.mint.value) + [e.mint.value];
        return;
      }
      if Full() {
        DequeueKeepsMints(buffer);
        var _ := GetNowait();
      }
      EnqueueKeepsMints(buffer, e);
      buffer, accepted := buffer + [e], accepted + [e];
      if e.mint.Some? { pendingMints := pendingMints + [e.mint.value]; }
    }
  }

  lemma DequeueKeepsMints(buffer: seq<Event>)
    requires buffer != [] && MintsDistinct(buffer)
    ensures MintsDistinct(buffer[1..])
    ensures forall m :: Queued(buffer[1..], m) <==> Queued(buffer, m) && buffer[0].mint != Some(m)
  {}

  lemma EnqueueKeepsMints(buffer: seq<Event>, e: Event)
    requires MintsDistinct(buffer) && !(e.mint.Some? && Queued(buffer, e.mint.value))
    ensures MintsDistinct(buffer + [e])
    ensures forall m :: Queued(buffer + [e], m) <==> Queued(buffer, m) || e.mint == Some(m)
  {
    var longer := buffer + [e];
    forall m | Queued(buffer, m) || e.mint == Some(m) ensures Queued(longer, m) {
      if Queued(buffer, m) {
        var i :| 0 <= i < |buffer| && buffer[i].mint == Some(m);
        assert longer[i].mint == Some(m);
      } else {
        assert longer[|buffer|].mint == Some(m);
      }
    }
  }

  const SEEN_LIMIT := 10_000

  /** The memory of handled signatures: a bounded deque and a set beside it. */
  class SignatureMemory {
    var seen: seq<string>
    var seenSet: set<string>
    ghost var accepted: seq<string>

    ghost predicate Valid()
      reads this
    {
      seen == Tail(accepted, SEEN_LIMIT) && Distinct(seen) && seenSet == set s | s in seen
    }

    constructor ()
      ensures Valid() && accepted == []
    {
      seen, seenSet, accepted := [], {}, [];
    }

    /** Refused exactly when it is among the last 10000 accepted signatures. */
    method Remember(signature: string) returns (isNew: bool)
      requires Valid()
      modifies this
      ensures Valid()
      ensures isNew <==> signature !in Tail(old(accepted), 10_000)
      ensures accepted == if isNew then old(accepted) + [signature] else old(accepted)
    {
      if signature in seenSet { return false; }
      if |seen| >= SEEN_LIMIT {
        var oldest := seen[0];
        assert forall s :: s in seen[1..] <==> s in seen && s != oldest;
        seen, seenSet := seen[1..], seenSet - {oldest};
      }
      seen, seenSet := seen + [signature], seenSet + {signature};
      accepted := accepted + [signature];
      isNew := true;
    }
  }

  /** The plain bounded queues of the fast path: a full queue drops its oldest item for the new one. */
  class FastQueue<T> {
    const maxsize: nat
    var buffer: seq<T>

    constructor (maxsize: nat)
      ensures this.maxsize == maxsize && buffer == []
    {
      this.maxsize, buffer := maxsize, [];
    }

    method PutNowait(item: T) returns (ok: bool)
      modifies this
      ensures ok <==> maxsize == 0 || |old(buffer)| < maxsize
      ensures buffer == if ok then old(buffer) + [item] else old(buffer)
    {
      ok := maxsize == 0 || |buffer| < maxsize;
      if ok { buffer := buffer + [item]; }
    }

    method QueueNowait(item: T)
      requires maxsize > 0 ==> |buffer| <= maxsize
      modifies this
      ensures maxsize > 0 ==> |buffer| <= maxsize
      ensures buffer == if maxsize == 0 then old(buffer) + [item] else Tail(old(buffer) + [item], maxsize)
    {
      var ok := PutNowait(item);
      if !ok {
        buffer := buffer[1..];
        ok := PutNowait(item);
      }
    }
  }
}
