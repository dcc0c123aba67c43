/** Draining in whole runs of the proxy, whatever posts, acknowledgements and timeouts come in between. */
module RunDraining {
  import opened SensorTypes
  import opened EventQueue
  import opened Draining
  import opened ProxyMachine

  /** The slice that a step of the writer thread takes off the queue, after it has been offered to the FMQ. */
  function TakenBy(c: Config, p: Proxy, step: Step): seq<seq<Event>>
    requires Enabled(c, p, step)
  {
    if step.WriterEnd? then [Take(Front(p.queue), p.queue.phase.n)] else []
  }

  function TakenInRun(c: Config, p: Proxy, steps: seq<Step>): seq<seq<Event>>
    requires IsRun(c, p, steps)
    decreases |steps|
  {
    if steps == [] then [] else TakenBy(c, p, steps[0]) + TakenInRun(c, Next(c, p, steps[0]), steps[1..])
  }

  /** How often the writer thread gets to the end of a round. */
  function Rounds(steps: seq<Step>): nat {
    if steps == [] then 0 else (if steps[0].WriterEnd? then 1 else 0) + Rounds(steps[1..])
  }

  lemma {:induction false} AllChunksConcat(a: seq<Entry>, b: seq<Entry>, capacity: nat)
    requires capacity > 0
    ensures AllChunks(a + b, capacity) == AllChunks(a, capacity) + AllChunks(b, capacity)
  {
    if a == [] {
      assert a + b == b;
    } else {
      assert (a + b)[1..] == a[1..] + b;
      AllChunksConcat(a[1..], b, capacity);
    }
  }

  lemma StepTakesChunks(c: Config, p: Proxy, step: Step)
    requires Enabled(c, p, step) && Inv(c.limits, p.queue) && !step.Initialize? && c.limits.capacity > 0
    ensures TakenBy(c, p, step) + AllChunks(QueueAfter(c, p, step).pending, c.limits.capacity)
         == AllChunks(p.queue.pending, c.limits.capacity) + AllChunks(QueuedBy(c, p, step), c.limits.capacity)
  {
    match step
    case PostEvents(_, _, _, _, _, _) =>
      AllChunksConcat(p.queue.pending, QueuedBy(c, p, step), c.limits.capacity);
      assert QueueAfter(c, p, step).pending == p.queue.pending + QueuedBy(c, p, step);
    case WriterEnd => PopTakesOneChunk(c.limits, p.queue);
    case _ =>
  }

  lemma MoveAcross(taken: seq<seq<Event>>, more: seq<seq<Event>>, left: seq<seq<Event>>, rest: seq<seq<Event>>,
                   first: seq<seq<Event>>, new1: seq<seq<Event>>, new2: seq<seq<Event>>)
    requires taken + rest == first + new1 && more + left == rest + new2
    ensures (taken + more) + left == first + (new1 + new2)
  {
    assert (taken + more) + left == taken + (more + left);
    assert taken + (rest + new2) == (taken + rest) + new2;
    assert (first + new1) + new2 == first + (new1 + new2);
  }

  /** In every run without a re-initialise, from any state, the slices that the writer thread has taken off the queue,
      followed by the chunks of what is pending, are the chunks of what was pending and of what has been queued since,
      in order; no chunk is taken twice or left out, whether its write succeeded or not. */
  lemma {:induction false} RunTakesChunks(c: Config, p: Proxy, steps: seq<Step>)
    requires IsRun(c, p, steps) && Inv(c.limits, p.queue) && c.limits.capacity > 0
    requires forall i :: 0 <= i < |steps| ==> !steps[i].Initialize?
    ensures TakenInRun(c, p, steps) + AllChunks(Last(c, p, steps).queue.pending, c.limits.capacity)
         == AllChunks(p.queue.pending, c.limits.capacity) + AllChunks(QueuedInRun(c, p, steps), c.limits.capacity)
    decreases |steps|
  {
    if steps == [] {
    } else {
      var p', n := Next(c, p, steps[0]), c.limits.capacity;
      StepKeepsQueueInv(c, p, steps[0]);
      StepTakesChunks(c, p, steps[0]);
      RunTakesChunks(c, p', steps[1..]);
      AllChunksConcat(QueuedBy(c, p, steps[0]), QueuedInRun(c, p', steps[1..]), n);
      MoveAcross(TakenBy(c, p, steps[0]), TakenInRun(c, p', steps[1..]),
                 AllChunks(Last(c, p, steps).queue.pending, n), AllChunks(p'.queue.pending, n),
                 AllChunks(p.queue.pending, n), AllChunks(QueuedBy(c, p, steps[0]), n),
                 AllChunks(QueuedInRun(c, p', steps[1..]), n));
    }
  }

  lemma {:induction false} TakenAreRounds(c: Config, p: Proxy, steps: seq<Step>)
    requires IsRun(c, p, steps)
    ensures |TakenInRun(c, p, steps)| == Rounds(steps)
    decreases |steps|
  {
    if steps == [] {
    } else {
      TakenAreRounds(c, Next(c, p, steps[0]), steps[1..]);
    }
  }

  /** Draining ends. In every run without a re-initialise, from any state, the writer thread goes through no more rounds
      than the entries need that were pending or have been queued since, each of them its length over the capacity of
      the FMQ, rounded up; and the queue is empty exactly when it has gone through that many. */
  lemma RunEmptiesQueue(c: Config, p: Proxy, steps: seq<Step>)
    requires IsRun(c, p, steps) && Inv(c.limits, p.queue) && c.limits.capacity > 0
    requires forall i :: 0 <= i < |steps| ==> !steps[i].Initialize?
    ensures var needed := RoundsNeeded(p.queue.pending, c.limits.capacity)
        + RoundsNeeded(QueuedInRun(c, p, steps), c.limits.capacity);
      && Rounds(steps) <= needed
      && (Last(c, p, steps).queue.pending == [] <==> Rounds(steps) == needed)
  {
    var last := Last(c, p, steps).queue;
    RunTakesChunks(c, p, steps);
    TakenAreRounds(c, p, steps);
    RunKeepsQueueInv(c, p, steps);
    RoundsAreCeilings(p.queue.pending, c.limits.capacity);
    RoundsAreCeilings(QueuedInRun(c, p, steps), c.limits.capacity);
    EntriesHaveChunks(last.pending, c.limits.capacity);
  }
}
