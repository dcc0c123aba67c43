/** What the writer thread gives back when its blocking writes fail, against what those writes drop. */
module FailedWrites {
  import opened SensorTypes
  import opened EventQueue
  import opened WakeLedger
  import opened ProxyMachine

  /** The batch count that goes with a post is the one `processEvents` computes. */
  predicate Honest(c: Config, steps: seq<Step>) {
    forall i :: 0 <= i < |steps| && steps[i].PostEvents? ==>
      steps[i].wakeups == WakeCount(c.wakeHandles, steps[i].events)
  }

  // ---------- Where a pending entry comes from ----------

  /** The entry holds the last events of the batch, and the wake-up count of the whole batch. */
  predicate IsRestOf(c: Config, entry: Entry, batch: seq<Event>) {
    && |entry.events| <= |batch|
    && entry.events == batch[|batch| - |entry.events|..]
    && entry.wakeups == WakeCount(c.wakeHandles, batch)
  }

  /** The events of the batch that were written directly or offered in earlier chunks. */
  function Gone(entry: Entry, batch: seq<Event>): seq<Event>
    requires |entry.events| <= |batch|
  {
    batch[..|batch| - |entry.events|]
  }

  predicate IsOrigin(c: Config, entry: Entry, step: Step) {
    step.PostEvents? && IsRestOf(c, entry, step.events)
  }

  predicate IsTraced(c: Config, entry: Entry, steps: seq<Step>) {
    exists i :: 0 <= i < |steps| && IsOrigin(c, entry, steps[i])
  }

  predicate AllTraced(c: Config, pending: seq<Entry>, steps: seq<Step>) {
    forall j :: 0 <= j < |pending| ==> IsTraced(c, pending[j], steps)
  }

  lemma TracedLater(c: Config, pending: seq<Entry>, past: seq<Step>, step: Step)
    requires AllTraced(c, pending, past)
    ensures AllTraced(c, pending, past + [step])
  {
    forall j | 0 <= j < |pending|
      ensures IsTraced(c, pending[j], past + [step])
    {
      var i :| 0 <= i < |past| && IsOrigin(c, pending[j], past[i]);
      assert (past + [step])[i] == past[i];
    }
  }

  lemma ChunkIsTraced(c: Config, entry: Entry, steps: seq<Step>, n: nat)
    requires IsTraced(c, entry, steps) && n <= |entry.events|
    ensures IsTraced(c, entry.(events := entry.events[n..]), steps)
  {
    var i :| 0 <= i < |steps| && IsOrigin(c, entry, steps[i]);
    var batch := steps[i].events;
    assert entry.events[n..] == batch[|batch| - (|entry.events| - n)..];
    assert IsOrigin(c, entry.(events := entry.events[n..]), steps[i]);
  }

  lemma StepKeepsTraced(c: Config, p: Proxy, past: seq<Step>, step: Step)
    requires Enabled(c, p, step) && AllTraced(c, p.queue.pending, past) && Honest(c, [step])
    ensures AllTraced(c, QueueAfter(c, p, step).pending, past + [step])
  {
    TracedLater(c, p.queue.pending, past, step);
    assert [step][0] == step == (past + [step])[|past|];
    match step
    case PostEvents(events, wakeups, _, available, writeOk, _) =>
      assert IsOrigin(c, Entry(events[DirectCount(p.queue, events, available, writeOk)..], wakeups), step);
    case WriterEnd =>
      if |Front(p.queue)| > c.limits.capacity {
        ChunkIsTraced(c, p.queue.pending[0], past + [step], c.limits.capacity);
      }
    case _ =>
  }

  lemma {:induction false} RunKeepsTraced(c: Config, p: Proxy, past: seq<Step>, steps: seq<Step>)
    requires IsRun(c, p, steps) && AllTraced(c, p.queue.pending, past) && Honest(c, steps)
    ensures AllTraced(c, Last(c, p, steps).queue.pending, past + steps)
    decreases |steps|
  {
    if steps == [] {
      assert past + steps == past;
    } else {
      assert Honest(c, [steps[0]]);
      StepKeepsTraced(c, p, past, steps[0]);
      assert forall i :: 0 <= i < |steps| - 1 ==> steps[1..][i] == steps[i + 1];
      RunKeepsTraced(c, Next(c, p, steps[0]), past + [steps[0]], steps[1..]);
      assert (past + [steps[0]]) + steps[1..] == past + steps;
    }
  }

  // ---------- One failed write ----------

  /** The wake-up events that are dropped with the next chunk when its write fails. */
  function DroppedWith(c: Config, entry: Entry): nat {
    WakeCount(c.wakeHandles, entry.events[..Min(|entry.events|, c.limits.capacity)])
  }

  /** What a failed write asks for beyond what it drops: nothing while more chunks follow; with the last chunk, the
      wake-up events of the batch that were gone before. */
  lemma RestReleases(c: Config, entry: Entry, batch: seq<Event>)
    requires IsRestOf(c, entry, batch)
    ensures ReleaseAsked(c, entry) == DroppedWith(c, entry)
      + if |entry.events| > c.limits.capacity then 0 else WakeCount(c.wakeHandles, Gone(entry, batch))
  {
    WakeCountSplit(c.wakeHandles, batch, |batch| - |entry.events|);
    if |entry.events| > c.limits.capacity {
      WakeCountSplit(c.wakeHandles, entry.events, c.limits.capacity);
    } else {
      assert entry.events[..|entry.events|] == entry.events;
    }
  }

  /** In every run, the entry whose write fails is the rest of a batch that the run has posted, and whichever batch that
      is, the proxy asks for at least as many references as wake-up events are dropped with the chunk. It asks for
      exactly that many if and only if more chunks follow or no wake-up event of the batch was gone before; in the last
      chunk the excess is the number of those. */
  lemma FailedWriteReleases(c: Config, p: Proxy, steps: seq<Step>)
    requires Initial(p) && IsRun(c, p, steps) && Honest(c, steps)
    requires Enabled(c, Last(c, p, steps), WriterDone(false))
    ensures var entry := Last(c, p, steps).queue.pending[0];
      && IsTraced(c, entry, steps)
      && ReleaseAsked(c, entry) >= DroppedWith(c, entry)
      && forall i :: 0 <= i < |steps| && IsOrigin(c, entry, steps[i]) ==>
           var gone := WakeCount(c.wakeHandles, Gone(entry, steps[i].events));
           && (ReleaseAsked(c, entry) == DroppedWith(c, entry) <==> |entry.events| > c.limits.capacity || gone == 0)
           && (|entry.events| <= c.limits.capacity ==> ReleaseAsked(c, entry) == DroppedWith(c, entry) + gone)
  {
    RunKeepsTraced(c, p, [], steps);
    assert [] + steps == steps;
    var entry := Last(c, p, steps).queue.pending[0];
    assert IsTraced(c, entry, steps);
    forall i | 0 <= i < |steps| && IsOrigin(c, entry, steps[i])
      ensures ReleaseAsked(c, entry) == DroppedWith(c, entry)
        + if |entry.events| > c.limits.capacity then 0 else WakeCount(c.wakeHandles, Gone(entry, steps[i].events))
    {
      RestReleases(c, entry, steps[i].events);
    }
  }

  /** A batch that is queued whole and fits in one chunk gives back exactly its own count when its write fails. */
  lemma WholeBatchReleasesExactly(c: Config, p: Proxy, steps: seq<Step>, i: nat)
    requires Initial(p) && IsRun(c, p, steps) && Honest(c, steps)
    requires Enabled(c, Last(c, p, steps), WriterDone(false))
    requires i < |steps| && IsOrigin(c, Last(c, p, steps).queue.pending[0], steps[i])
    requires |Last(c, p, steps).queue.pending[0].events| == |steps[i].events| <= c.limits.capacity
    ensures var entry := Last(c, p, steps).queue.pending[0];
      ReleaseAsked(c, entry) == DroppedWith(c, entry) == steps[i].wakeups
  {
    var entry, batch := Last(c, p, steps).queue.pending[0], steps[i].events;
    RestReleases(c, entry, batch);
    assert Gone(entry, batch) == [] && entry.events[..|batch|] == batch;
  }

  // ---------- All writes of an entry ----------

  /** What is asked for when every chunk of an entry fails. */
  function AskedInAll(c: Config, entry: Entry): nat
    requires c.limits.capacity > 0
    decreases |entry.events|
  {
    if |entry.events| > c.limits.capacity
    then ReleaseAsked(c, entry) + AskedInAll(c, entry.(events := entry.events[c.limits.capacity..]))
    else ReleaseAsked(c, entry)
  }

  /** The events of all chunks but the last. */
  function EarlierChunks(events: seq<Event>, capacity: nat): seq<Event>
    requires capacity > 0
    decreases |events|
  {
    if |events| > capacity then events[..capacity] + EarlierChunks(events[capacity..], capacity) else []
  }

  /** The last chunk is charged with the count of the whole batch, so an entry all of whose chunks fail gives back
      the batch's count and, on top of it, the wake-up events of the earlier chunks a second time. */
  lemma {:induction false} FailedEntryOverReleases(c: Config, entry: Entry)
    requires c.limits.capacity > 0
    requires entry.wakeups >= WakeCount(c.wakeHandles, entry.events)
    ensures AskedInAll(c, entry)
         == entry.wakeups + WakeCount(c.wakeHandles, EarlierChunks(entry.events, c.limits.capacity))
    decreases |entry.events|
  {
    var n := c.limits.capacity;
    if |entry.events| <= n {
    } else {
      var head, tail := entry.events[..n], entry.events[n..];
      WakeCountSplit(c.wakeHandles, entry.events, n);
      FailedEntryOverReleases(c, entry.(events := tail));
      WakeCountConcat(c.wakeHandles, head, EarlierChunks(tail, n));
    }
  }

  // ---------- All failed writes of a run ----------

  /** What the settlements among some wake-lock operations ask for. */
  function Settled(effects: seq<WakeStep>): nat {
    if effects == [] then 0 else (if effects[0].Settle? then effects[0].n else 0) + Settled(effects[1..])
  }

  /** What a step of the writer thread asks for. */
  function Asked(c: Config, p: Proxy, step: Step): nat
    requires Enabled(c, p, step)
  {
    if step.WriterDone? then Settled(WakeEffects(c, p, step)) else 0
  }

  function AskedInRun(c: Config, p: Proxy, steps: seq<Step>): nat
    requires IsRun(c, p, steps)
    decreases |steps|
  {
    if steps == [] then 0 else Asked(c, p, steps[0]) + AskedInRun(c, Next(c, p, steps[0]), steps[1..])
  }

  function TotalAsked(c: Config, pending: seq<Entry>): nat
    requires c.limits.capacity > 0
  {
    if pending == [] then 0 else AskedInAll(c, pending[0]) + TotalAsked(c, pending[1..])
  }

  lemma {:induction false} TotalAskedConcat(c: Config, a: seq<Entry>, b: seq<Entry>)
    requires c.limits.capacity > 0
    ensures TotalAsked(c, a + b) == TotalAsked(c, a) + TotalAsked(c, b)
  {
    if a == [] {
      assert a + b == b;
    } else {
      assert (a + b)[1..] == a[1..] + b;
      TotalAskedConcat(c, a[1..], b);
    }
  }

  /** The entries whose writes are still to come: the writer thread may be back from a write and not yet have popped. */
  function Unwritten(c: Config, q: Queue): seq<Entry> {
    if q.phase.Written? && q.pending != [] then WriteEnd(c.limits, q).pending else q.pending
  }

  /** No pending write succeeds, and nothing is cleared. */
  predicate FailsOnly(step: Step) {
    step != WriterDone(true) && !step.Initialize?
  }

  lemma SettledOne(effect: WakeStep)
    ensures Settled([effect]) == if effect.Settle? then effect.n else 0
  {
    assert [effect][1..] == [];
  }

  lemma AskedByFailure(c: Config, p: Proxy)
    requires Enabled(c, p, WriterDone(false))
    ensures Asked(c, p, WriterDone(false)) == ReleaseAsked(c, p.queue.pending[0])
  {
    var settle := Settle(ReleaseAsked(c, p.queue.pending[0]));
    assert WakeEffects(c, p, WriterDone(false)) == [settle];
    SettledOne(settle);
  }

  lemma UnwrittenAfterPost(c: Config, p: Proxy, step: Step)
    requires Enabled(c, p, step) && step.PostEvents? && PhaseInv(c.limits, p.queue)
    ensures Unwritten(c, QueueAfter(c, p, step)) == Unwritten(c, p.queue) + QueuedBy(c, p, step)
  {
  }

  lemma UnwrittenAfterFailure(c: Config, p: Proxy)
    requires Enabled(c, p, WriterDone(false)) && c.limits.capacity > 0
    ensures ReleaseAsked(c, p.queue.pending[0]) + TotalAsked(c, Unwritten(c, QueueAfter(c, p, WriterDone(false))))
         == TotalAsked(c, Unwritten(c, p.queue))
  {
    var front, rest := p.queue.pending[0], p.queue.pending[1..];
    if |front.events| > c.limits.capacity {
      var tail := front.(events := front.events[c.limits.capacity..]);
      assert ([tail] + rest)[1..] == rest;
    }
  }

  /** While every pending write fails, what has been asked for and what is still to be asked for stay in balance. */
  lemma StepAsks(c: Config, p: Proxy, step: Step)
    requires Enabled(c, p, step) && PhaseInv(c.limits, p.queue) && FailsOnly(step) && c.limits.capacity > 0
    ensures Asked(c, p, step) + TotalAsked(c, Unwritten(c, QueueAfter(c, p, step)))
         == TotalAsked(c, Unwritten(c, p.queue)) + TotalAsked(c, QueuedBy(c, p, step))
  {
    match step
    case PostEvents(_, _, _, _, _, _) =>
      UnwrittenAfterPost(c, p, step);
      TotalAskedConcat(c, Unwritten(c, p.queue), QueuedBy(c, p, step));
    case WriterDone(_) =>
      AskedByFailure(c, p);
      UnwrittenAfterFailure(c, p);
    case _ =>
  }

  lemma {:induction false} FailingRunAsks(c: Config, p: Proxy, steps: seq<Step>)
    requires IsRun(c, p, steps) && Inv(c.limits, p.queue) && c.limits.capacity > 0
    requires forall i :: 0 <= i < |steps| ==> FailsOnly(steps[i])
    ensures AskedInRun(c, p, steps) + TotalAsked(c, Unwritten(c, Last(c, p, steps).queue))
         == TotalAsked(c, Unwritten(c, p.queue)) + TotalAsked(c, QueuedInRun(c, p, steps))
    decreases |steps|
  {
    if steps == [] {
    } else {
      var p' := Next(c, p, steps[0]);
      StepKeepsQueueInv(c, p, steps[0]);
      StepAsks(c, p, steps[0]);
      FailingRunAsks(c, p', steps[1..]);
      TotalAskedConcat(c, QueuedBy(c, p, steps[0]), QueuedInRun(c, p', steps[1..]));
    }
  }

  /** The counts of some entries, and the wake-up events of their earlier chunks once more. */
  function CountsAndEarlierChunks(c: Config, entries: seq<Entry>): nat
    requires c.limits.capacity > 0
  {
    if entries == [] then 0
    else
      var earlier := EarlierChunks(entries[0].events, c.limits.capacity);
      entries[0].wakeups + WakeCount(c.wakeHandles, earlier) + CountsAndEarlierChunks(c, entries[1..])
  }

  predicate Covered(c: Config, entries: seq<Entry>) {
    forall i :: 0 <= i < |entries| ==> entries[i].wakeups >= WakeCount(c.wakeHandles, entries[i].events)
  }

  lemma {:induction false} TotalAskedCounts(c: Config, entries: seq<Entry>)
    requires c.limits.capacity > 0 && Covered(c, entries)
    ensures TotalAsked(c, entries) == CountsAndEarlierChunks(c, entries)
  {
    if entries == [] {
    } else {
      FailedEntryOverReleases(c, entries[0]);
      TotalAskedCounts(c, entries[1..]);
    }
  }

  lemma {:induction false} QueuedEntriesAreCovered(c: Config, p: Proxy, steps: seq<Step>)
    requires IsRun(c, p, steps) && Honest(c, steps)
    ensures Covered(c, QueuedInRun(c, p, steps))
    decreases |steps|
  {
    if steps == [] {
    } else {
      assert forall i :: 0 <= i < |steps| - 1 ==> steps[1..][i] == steps[i + 1];
      QueuedEntriesAreCovered(c, Next(c, p, steps[0]), steps[1..]);
      if steps[0].PostEvents? {
        var direct := DirectCount(p.queue, steps[0].events, steps[0].available, steps[0].writeOk);
        WakeCountSplit(c.wakeHandles, steps[0].events, direct);
      }
    }
  }

  /** In every run in which every pending write has failed and the queue has run empty, however posts, acknowledgements
      and tokens came in between, the writer thread has asked for the counts of all the entries that were queued and,
      on top of that, for the wake-up events of all their chunks but the last. */
  lemma FailedRunOverReleases(c: Config, p: Proxy, steps: seq<Step>)
    requires Initial(p) && IsRun(c, p, steps) && Honest(c, steps) && c.limits.capacity > 0
    requires forall i :: 0 <= i < |steps| ==> FailsOnly(steps[i])
    requires Last(c, p, steps).queue.pending == []
    ensures AskedInRun(c, p, steps) == CountsAndEarlierChunks(c, QueuedInRun(c, p, steps))
  {
    FailingRunAsks(c, p, steps);
    QueuedEntriesAreCovered(c, p, steps);
    TotalAskedCounts(c, QueuedInRun(c, p, steps));
  }
}
