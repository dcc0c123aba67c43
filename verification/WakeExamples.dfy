/** Runs in which the wake lock is let go too early. */
module WakeExamples {
  import opened SensorTypes
  import opened EventQueue
  import opened EventQueueSafety
  import opened WakeLock
  import opened WakeLedger
  import opened ProxyMachine
  import opened FailedWrites

  // ---------- Released under a live scoped wakelock ----------

  /** An FMQ of one event, and one wake-up sensor. */
  function SmallConfig(event: Event): Config {
    Config(Limits(10, 1), {event.sensorHandle}, 0)
  }

  lemma CountTwo(event: Event)
    ensures WakeCount({event.sensorHandle}, [event]) == 1 && WakeCount({event.sensorHandle}, [event, event]) == 2
  {
    assert [event][1..] == [] && [event, event][1..] == [event];
  }

  const FAILED_ROUND: seq<Step> := [WriterBegin, WriterDone(false)]

  /** One round of the writer thread whose write fails, up to the point where it takes the lock back. */
  lemma FailedRound(c: Config, p: Proxy)
    requires p.queue.phase.Idle? && p.queue.pending != [] && p.holder.wake.running
    ensures IsRun(c, p, FAILED_ROUND)
    ensures Last(c, p, FAILED_ROUND) == Proxy(WriteDone(WriteBegin(c.limits, p.queue), false),
                                              Apply(p.holder, Settle(ReleaseAsked(c, p.queue.pending[0]))))
  {
    var q := Next(c, p, WriterBegin);
    ApplyOne(p.holder, Settle(ReleaseAsked(c, p.queue.pending[0])));
    StepIsRun(c, p, WriterBegin);
    StepIsRun(c, q, WriterDone(false));
    RunConcat(c, p, [WriterBegin], [WriterDone(false)]);
    assert [WriterBegin] + [WriterDone(false)] == FAILED_ROUND;
  }

  /** Both chunks of a batch of two wake-up events fail, with `behind` queued behind it: one reference is given back for
      the first and two for the second. */
  lemma TwoFailedRounds(event: Event, p: Proxy, behind: seq<Entry>)
    requires p.queue.phase.Idle? && p.queue.pending == [Entry([event, event], 2)] + behind && p.holder.wake.running
    ensures var c, steps := SmallConfig(event), FAILED_ROUND + [WriterEnd] + FAILED_ROUND;
      && IsRun(c, p, steps)
      && Last(c, p, steps).holder == Apply(Apply(p.holder, Settle(1)), Settle(2))
      && Last(c, p, steps).queue.pending == [Entry([event], 2)] + behind
      && Last(c, p, steps).queue.phase == Written(1)
  {
    var c, entry := SmallConfig(event), Entry([event, event], 2);
    CountTwo(event);
    assert entry.events[..1] == entry.events[1..] == [event];
    assert ReleaseAsked(c, entry) == 1 && ReleaseAsked(c, Entry([event], 2)) == 2;
    FailedRound(c, p);
    var p1 := Last(c, p, FAILED_ROUND);
    StepIsRun(c, p1, WriterEnd);
    RunConcat(c, p, FAILED_ROUND, [WriterEnd]);
    var p2 := Next(c, p1, WriterEnd);
    assert p2.queue.pending == [Entry([event], 2)] + behind;
    FailedRound(c, p2);
    RunConcat(c, p, FAILED_ROUND + [WriterEnd], FAILED_ROUND);
  }

  /** Taking a scoped wakelock and posting two wake-up events into a full FMQ. */
  function FirstPosts(event: Event): seq<Step> {
    [TakeWakelock(7, 1), PostEvents([event, event], 2, 7, 0, true, 1)]
  }

  lemma AfterFirstPosts(event: Event)
    ensures var c := SmallConfig(event);
      && Initial(FRESH_PROXY) && IsRun(c, FRESH_PROXY, FirstPosts(event))
      && var p := Last(c, FRESH_PROXY, FirstPosts(event));
         && p.queue.phase.Idle? && p.queue.pending == [Entry([event, event], 2)] && p.queue.sizePending == 2
         && p.holder == Holder(Wake(true, 3, 1, 0, [Acquire]), map[7 := 1], 1)
  {
    var c := SmallConfig(event);
    var take, post := FirstPosts(event)[0], FirstPosts(event)[1];
    StepIsRun(c, FRESH_PROXY, take);
    var p := Next(c, FRESH_PROXY, take);
    ApplyOne(FRESH_PROXY.holder, TakeToken(7, 1));
    assert p.holder == Holder(Wake(true, 1, 1, 0, [Acquire]), map[7 := 1], 1);
    StepIsRun(c, p, post);
    ApplyOne(p.holder, Lock(7, 2, 1));
    assert [event, event][0..] == [event, event];
    RunConcat(c, FRESH_PROXY, [take], [post]);
    assert [take] + [post] == FirstPosts(event);
  }

  /** With two wake-up events, an FMQ of one, and both writes failing, the writer thread gives back three references;
      the wake lock is released although a scoped wakelock is still held. */
  lemma OverReleaseExample(event: Event)
    ensures var c := SmallConfig(event);
      var steps := FirstPosts(event) + (FAILED_ROUND + [WriterEnd] + FAILED_ROUND);
      && Initial(FRESH_PROXY) && IsRun(c, FRESH_PROXY, steps) && Honest(c, steps)
      && var h := Last(c, FRESH_PROXY, steps).holder;
         && h.tokens == map[7 := 1] && SeemRecent(h) == {7}
         && h.wake.refCount == 0 && h.wake.actions == [Acquire, Release]
  {
    var c, first := SmallConfig(event), FirstPosts(event);
    AfterFirstPosts(event);
    var p := Last(c, FRESH_PROXY, first);
    assert p.queue.pending == [Entry([event, event], 2)] + [];
    TwoFailedRounds(event, p, []);
    RunConcat(c, FRESH_PROXY, first, FAILED_ROUND + [WriterEnd] + FAILED_ROUND);
    CountTwo(event);
  }

  // ---------- Released while an event waits ----------

  /** Posting one more wake-up event behind them, and dropping the scoped wakelock. */
  function SecondPosts(event: Event): seq<Step> {
    [PostEvents([event], 1, 7, 0, true, 1), DropWakelock(7)]
  }

  lemma AfterSecondPosts(event: Event, p: Proxy)
    requires p.queue.phase.Idle? && p.queue.pending == [Entry([event, event], 2)] && p.queue.sizePending == 2
    requires p.holder == Holder(Wake(true, 3, 1, 0, [Acquire]), map[7 := 1], 1)
    ensures var c := SmallConfig(event);
      && IsRun(c, p, SecondPosts(event))
      && var p' := Last(c, p, SecondPosts(event));
         && p'.queue.phase.Idle? && p'.queue.pending == [Entry([event, event], 2)] + [Entry([event], 1)]
         && p'.holder == Holder(Wake(true, 3, 1, 0, [Acquire]), map[], 1)
  {
    var c, post, drop := SmallConfig(event), SecondPosts(event)[0], SecondPosts(event)[1];
    var p' := Next(c, p, post);
    assert [event][0..] == [event];
    ApplyOne(p.holder, Lock(7, 1, 1));
    StepIsRun(c, p, post);
    ApplyOne(p'.holder, DropToken(7));
    StepIsRun(c, p', drop);
    RunConcat(c, p, [post], [drop]);
    assert [post] + [drop] == SecondPosts(event);
  }

  lemma FlattenTwo(a: Entry, b: Entry)
    ensures Flatten([a] + [b]) == a.events + b.events
  {
    FlattenAppend([], b);
    FlattenAppend([a], b);
    assert [a][1..] == [];
  }

  /** The condition on failed writes is needed. Two batches are queued, both chunks of the first fail, and the third
      reference given back was that of the second batch: the wake lock is released while its wake-up event waits. */
  lemma ReleasedWhileQueued(event: Event)
    ensures var c := SmallConfig(event);
      var steps := FirstPosts(event) + SecondPosts(event) + (FAILED_ROUND + [WriterEnd] + FAILED_ROUND);
      && Initial(FRESH_PROXY) && IsRun(c, FRESH_PROXY, steps) && Honest(c, steps)
      && var p := Last(c, FRESH_PROXY, steps);
         && Remaining(p.queue) == [event] && WakeCount(c.wakeHandles, [event]) == 1
         && p.holder.wake.refCount == 0 && p.holder.wake.actions == [Acquire, Release]
  {
    var c, first, second := SmallConfig(event), FirstPosts(event), SecondPosts(event);
    CountTwo(event);
    AfterFirstPosts(event);
    var p := Last(c, FRESH_PROXY, first);
    AfterSecondPosts(event, p);
    RunConcat(c, FRESH_PROXY, first, second);
    TwoFailedRounds(event, Last(c, p, second), [Entry([event], 1)]);
    RunConcat(c, FRESH_PROXY, first + second, FAILED_ROUND + [WriterEnd] + FAILED_ROUND);
    FlattenTwo(Entry([event], 2), Entry([event], 1));
  }

  /** Taking a scoped wakelock, posting one wake-up event with it, and dropping it. */
  function PostOne(event: Event, id: nat, available: nat, now: int): seq<Step> {
    [TakeWakelock(id, now), PostEvents([event], 1, id, available, true, now), DropWakelock(id)]
  }

  /** The event goes to the FMQ when there is room, and is queued otherwise; one reference is left. */
  lemma AfterPostOne(event: Event, p: Proxy, id: nat, available: nat, now: int)
    requires p.queue.phase.Idle? && p.queue.pending == [] && p.queue.sizePending == 0
    requires p.holder.tokens == map[] && p.holder.wake.running && p.holder.wake.refCount == 0
    requires p.holder.wake.resetTime <= now
    ensures var c, w := SmallConfig(event), p.holder.wake;
      && IsRun(c, p, PostOne(event, id, available, now))
      && var p' := Last(c, p, PostOne(event, id, available, now));
         && p'.queue.phase.Idle? && p'.queue.pending == (if available > 0 then [] else [Entry([event], 1)])
         && p'.queue.sizePending == |p'.queue.pending|
         && p'.holder == Holder(Wake(true, 1, now, w.resetTime, w.actions + [Acquire]), map[], now)
  {
    var c, steps := SmallConfig(event), PostOne(event, id, available, now);
    var p1 := Next(c, p, steps[0]);
    var p2 := Next(c, p1, steps[1]);
    ApplyOne(p.holder, TakeToken(id, now));
    ApplyOne(p1.holder, Lock(id, 1, now));
    ApplyOne(p2.holder, DropToken(id));
    assert [event][0..] == [event] && [event][1..] == [];
    StepIsRun(c, p, steps[0]);
    StepIsRun(c, p1, steps[1]);
    StepIsRun(c, p2, steps[2]);
    RunConcat(c, p, [steps[0]], [steps[1]]);
    RunConcat(c, p, [steps[0]] + [steps[1]], [steps[2]]);
    assert [steps[0]] + [steps[1]] + [steps[2]] == steps;
  }

  /** One event is delivered, a timeout resets the wake lock, and a second event is queued. */
  function PostsAroundTimeout(event: Event): seq<Step> {
    PostOne(event, 7, 1, 1) + [WakeTimeout(10)] + PostOne(event, 8, 0, 11)
  }

  lemma AfterPostsAroundTimeout(event: Event)
    ensures var c := SmallConfig(event);
      && Initial(FRESH_PROXY) && IsRun(c, FRESH_PROXY, PostsAroundTimeout(event))
      && var p := Last(c, FRESH_PROXY, PostsAroundTimeout(event));
         && p.queue.phase.Idle? && p.queue.pending == [Entry([event], 1)]
         && p.holder == Holder(Wake(true, 1, 11, 10, [Acquire, Release, Acquire]), map[], 11)
  {
    var c, first, second := SmallConfig(event), PostOne(event, 7, 1, 1), PostOne(event, 8, 0, 11);
    AfterPostOne(event, FRESH_PROXY, 7, 1, 1);
    var p := Last(c, FRESH_PROXY, first);
    ApplyOne(p.holder, ResetAll(10));
    StepIsRun(c, p, WakeTimeout(10));
    RunConcat(c, FRESH_PROXY, first, [WakeTimeout(10)]);
    var p' := Next(c, p, WakeTimeout(10));
    AfterPostOne(event, p', 8, 0, 11);
    RunConcat(c, FRESH_PROXY, first + [WakeTimeout(10)], second);
  }

  lemma FlattenOne(entry: Entry)
    ensures Flatten([entry]) == entry.events
  {
    assert [entry][1..] == [];
  }

  /** An acknowledgement that comes late: when the first event is acknowledged after the timeout, the wake lock is
      released while the second event waits. */
  lemma LateAcknowledgement(event: Event)
    ensures var c := SmallConfig(event);
      var steps := PostsAroundTimeout(event) + [Acknowledge(1)];
      && Initial(FRESH_PROXY) && IsRun(c, FRESH_PROXY, steps) && Honest(c, steps)
      && var p := Last(c, FRESH_PROXY, steps);
         && Remaining(p.queue) == [event] && WakeCount(c.wakeHandles, [event]) == 1
         && p.holder.wake.refCount == 0 && p.holder.wake.actions == [Acquire, Release, Acquire, Release]
  {
    var c, posts := SmallConfig(event), PostsAroundTimeout(event);
    CountTwo(event);
    AfterPostsAroundTimeout(event);
    var p := Last(c, FRESH_PROXY, posts);
    ApplyOne(p.holder, Settle(1));
    StepIsRun(c, p, Acknowledge(1));
    RunConcat(c, FRESH_PROXY, posts, [Acknowledge(1)]);
    FlattenOne(Entry([event], 1));
  }
}
