/** How the writer thread empties the queue: one FMQ-sized chunk of the front entry per round. */
module Draining {
  import opened SensorTypes
  import opened EventQueue
  import opened EventQueueSafety

  // ---------- Chunks ----------

  /** An entry cut into pieces of `capacity` events, the last of them perhaps shorter. */
  function Chunks(events: seq<Event>, capacity: nat): seq<seq<Event>>
    requires capacity > 0
    decreases |events|
  {
    if events == [] then []
    else if |events| <= capacity then [events]
    else [events[..capacity]] + Chunks(events[capacity..], capacity)
  }

  function Concat(chunks: seq<seq<Event>>): seq<Event> {
    if chunks == [] then [] else chunks[0] + Concat(chunks[1..])
  }

  lemma DivStep(n: nat, capacity: nat)
    requires capacity > 0
    ensures (n + capacity) / capacity == n / capacity + 1
  {
    var q := n / capacity;
    assert (q + 1) * capacity == q * capacity + capacity;
    QuotientIsUnique(n + capacity, capacity, q + 1);
  }

  lemma QuotientIsUnique(n: nat, capacity: nat, q: nat)
    requires capacity > 0 && q * capacity <= n < q * capacity + capacity
    ensures n / capacity == q
  {
    var p := n / capacity;
    assert p * capacity <= n < p * capacity + capacity;
    assert p < q ==> (p + 1) * capacity <= q * capacity;
    assert q < p ==> (q + 1) * capacity <= p * capacity;
  }

  lemma DivOne(n: nat, capacity: nat)
    requires capacity <= n < 2 * capacity
    ensures n / capacity == 1
  {
    DivStep(n - capacity, capacity);
    DivZero(n - capacity, capacity);
  }

  lemma DivZero(n: nat, capacity: nat)
    requires n < capacity
    ensures n / capacity == 0
  {
  }

  /** `n / capacity`, rounded up. */
  function CeilDiv(n: nat, capacity: nat): nat
    requires capacity > 0
  {
    (n + capacity - 1) / capacity
  }

  /** Chunking loses nothing, repeats nothing and keeps the order; no chunk is empty or larger than the FMQ, and
      there are as few of them as possible. */
  lemma {:induction false} ChunksAreExact(events: seq<Event>, capacity: nat)
    requires capacity > 0
    ensures Concat(Chunks(events, capacity)) == events
    ensures forall i :: 0 <= i < |Chunks(events, capacity)| ==> 0 < |Chunks(events, capacity)[i]| <= capacity
    ensures |Chunks(events, capacity)| == CeilDiv(|events|, capacity)
    decreases |events|
  {
    if events == [] {
      DivZero(capacity - 1, capacity);
    } else if |events| <= capacity {
      DivOne(|events| + capacity - 1, capacity);
      assert Concat([events]) == events + Concat([]);
    } else {
      var rest := Chunks(events[capacity..], capacity);
      ChunksAreExact(events[capacity..], capacity);
      assert ([events[..capacity]] + rest)[1..] == rest;
      assert events == events[..capacity] + events[capacity..];
      DivStep(|events| - 1, capacity);
    }
  }

  // ---------- Rounds of the writer thread ----------

  function AllChunks(pending: seq<Entry>, capacity: nat): seq<seq<Event>>
    requires capacity > 0
  {
    if pending == [] then [] else Chunks(pending[0].events, capacity) + AllChunks(pending[1..], capacity)
  }

  predicate Ready(c: Limits, q: Queue) {
    Inv(c, q) && q.phase.Idle? && c.capacity > 0
  }

  /** The slice that the next round offers to `writeBlocking`. */
  function Offer(c: Limits, q: Queue): seq<Event> {
    Take(Front(q), Min(|Front(q)|, c.capacity))
  }

  /** One round of `handlePendingWrites`, with the outcome of its blocking write. */
  function Round(c: Limits, q: Queue, ok: bool): (r: Queue)
    requires Ready(c, q) && q.pending != []
    ensures Ready(c, r)
  {
    WriteBeginKeepsInv(c, q);
    WriteDoneKeepsInv(c, WriteBegin(c, q), ok);
    WriteEndKeepsInv(c, WriteDone(WriteBegin(c, q), ok));
    WriteEnd(c, WriteDone(WriteBegin(c, q), ok))
  }

  lemma AllChunksOfCons(front: Entry, rest: seq<Entry>, capacity: nat)
    requires capacity > 0
    ensures AllChunks([front] + rest, capacity) == Chunks(front.events, capacity) + AllChunks(rest, capacity)
  {
    assert ([front] + rest)[1..] == rest;
  }

  /** Popping takes the first remaining chunk off the queue, and leaves the others. */
  lemma PopTakesOneChunk(c: Limits, q: Queue)
    requires SizeInv(c, q) && PhaseInv(c, q) && q.phase.Written? && c.capacity > 0
    ensures AllChunks(q.pending, c.capacity)
         == [Take(Front(q), q.phase.n)] + AllChunks(WriteEnd(c, q).pending, c.capacity)
  {
    var front, rest := q.pending[0], q.pending[1..];
    var pending := WriteEnd(c, q).pending;
    if |front.events| > c.capacity {
      var tail := front.(events := front.events[c.capacity..]);
      assert pending == [tail] + rest;
      AllChunksOfCons(tail, rest, c.capacity);
      assert Chunks(front.events, c.capacity) == [Take(Front(q), q.phase.n)] + Chunks(tail.events, c.capacity);
    } else {
      assert pending == rest && front.events != [];
      assert Take(Front(q), q.phase.n) == front.events;
    }
  }

  /** A round offers the first remaining chunk and leaves the others, whether the write succeeds or times out. */
  lemma RoundTakesOneChunk(c: Limits, q: Queue, ok: bool)
    requires Ready(c, q) && q.pending != []
    ensures AllChunks(q.pending, c.capacity) == [Offer(c, q)] + AllChunks(Round(c, q, ok).pending, c.capacity)
  {
    WriteBeginKeepsInv(c, q);
    WriteDoneKeepsInv(c, WriteBegin(c, q), ok);
    PopTakesOneChunk(c, WriteDone(WriteBegin(c, q), ok));
  }

  /** The queue after at most `|outcomes|` rounds, and the slices those rounds offered. */
  function Drain(c: Limits, q: Queue, outcomes: seq<bool>): (Queue, seq<seq<Event>>)
    requires Ready(c, q)
    decreases |outcomes|
  {
    if outcomes == [] || q.pending == [] then (q, [])
    else
      var (last, offers) := Drain(c, Round(c, q, outcomes[0]), outcomes[1..]);
      (last, [Offer(c, q)] + offers)
  }

  lemma EntriesHaveChunks(pending: seq<Entry>, capacity: nat)
    requires capacity > 0 && forall i :: 0 <= i < |pending| ==> pending[i].events != []
    ensures |AllChunks(pending, capacity)| == 0 <==> pending == []
  {
    if pending != [] {
      assert pending[0].events != [];
    }
  }

  lemma DrainStep(c: Limits, q: Queue, outcomes: seq<bool>)
    requires Ready(c, q) && outcomes != [] && q.pending != []
    ensures var (last, offers) := Drain(c, Round(c, q, outcomes[0]), outcomes[1..]);
      Drain(c, q, outcomes) == (last, [Offer(c, q)] + offers)
  {
  }

  lemma {:induction false} DrainKeepsReady(c: Limits, q: Queue, outcomes: seq<bool>)
    requires Ready(c, q)
    ensures Ready(c, Drain(c, q, outcomes).0)
    decreases |outcomes|
  {
    if outcomes == [] || q.pending == [] {
    } else {
      DrainKeepsReady(c, Round(c, q, outcomes[0]), outcomes[1..]);
    }
  }

  lemma SlicesOfRest(chunks: seq<seq<Event>>, n: nat)
    requires 0 < n <= |chunks|
    ensures chunks[..n] == [chunks[0]] + chunks[1..][..n - 1]
    ensures chunks[n..] == chunks[1..][n - 1..]
  {
  }

  /** The chunks that a round leaves. */
  lemma ChunksAfterRound(c: Limits, q: Queue, ok: bool, chunks: seq<seq<Event>>)
    requires Ready(c, q) && chunks == AllChunks(q.pending, c.capacity) && chunks != []
    ensures q.pending != [] && Offer(c, q) == chunks[0]
    ensures AllChunks(Round(c, q, ok).pending, c.capacity) == chunks[1..]
  {
    RoundTakesOneChunk(c, q, ok);
  }

  lemma {:induction false} DrainOffersChunks(c: Limits, q: Queue, outcomes: seq<bool>, chunks: seq<seq<Event>>)
    requires Ready(c, q) && chunks == AllChunks(q.pending, c.capacity) && |outcomes| <= |chunks|
    ensures Drain(c, q, outcomes).1 == chunks[..|outcomes|]
    ensures AllChunks(Drain(c, q, outcomes).0.pending, c.capacity) == chunks[|outcomes|..]
    decreases |outcomes|
  {
    if outcomes == [] {
    } else {
      ChunksAfterRound(c, q, outcomes[0], chunks);
      DrainOffersChunks(c, Round(c, q, outcomes[0]), outcomes[1..], chunks[1..]);
      DrainStep(c, q, outcomes);
      SlicesOfRest(chunks, |outcomes|);
    }
  }

  /** Draining is exact and ends: with no further posts, `k` rounds hand the FMQ the first `k` chunks in order,
      and the queue is empty exactly when all of its chunks have been offered. */
  lemma DrainIsExact(c: Limits, q: Queue, outcomes: seq<bool>)
    requires Ready(c, q)
    requires |outcomes| <= |AllChunks(q.pending, c.capacity)|
    ensures var (last, offers) := Drain(c, q, outcomes);
      && offers == AllChunks(q.pending, c.capacity)[..|outcomes|]
      && AllChunks(last.pending, c.capacity) == AllChunks(q.pending, c.capacity)[|outcomes|..]
      && (last.pending == [] <==> |outcomes| == |AllChunks(q.pending, c.capacity)|)
  {
    DrainOffersChunks(c, q, outcomes, AllChunks(q.pending, c.capacity));
    DrainKeepsReady(c, q, outcomes);
    EntriesHaveChunks(Drain(c, q, outcomes).0.pending, c.capacity);
  }

  function RoundsNeeded(pending: seq<Entry>, capacity: nat): nat
    requires capacity > 0
  {
    if pending == [] then 0 else CeilDiv(|pending[0].events|, capacity) + RoundsNeeded(pending[1..], capacity)
  }

  /** The number of rounds is the sum over the entries of `ceil(n / capacity)`. */
  lemma {:induction false} RoundsAreCeilings(pending: seq<Entry>, capacity: nat)
    requires capacity > 0
    ensures |AllChunks(pending, capacity)| == RoundsNeeded(pending, capacity)
  {
    if pending == [] {
    } else {
      ChunksAreExact(pending[0].events, capacity);
      RoundsAreCeilings(pending[1..], capacity);
    }
  }

  /** The queue empties after that many rounds, whatever the outcomes of the writes. */
  lemma DrainEmpties(c: Limits, q: Queue, outcomes: seq<bool>)
    requires Ready(c, q) && |outcomes| == RoundsNeeded(q.pending, c.capacity)
    ensures var (last, offers) := Drain(c, q, outcomes);
      last.pending == [] && last.sizePending == 0 && offers == AllChunks(q.pending, c.capacity)
  {
    RoundsAreCeilings(q.pending, c.capacity);
    DrainIsExact(c, q, outcomes);
    DrainKeepsReady(c, q, outcomes);
  }
}
