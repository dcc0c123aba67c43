/** The whole proxy as one state machine: the event queue, the wake lock, and the threads that share them.
    A run is any sequence of enabled steps, so every interleaving of posters, the writer thread, the wake-lock
    thread, stop and re-initialise is a run. */
module ProxyMachine {
  import opened SensorTypes
  import opened EventQueue
  import opened EventQueueSafety
  import opened WakeLock
  import opened WakeLedger
  import Handles

  /** `wakeHandles` are the handles whose sensors carry the wake-up flag. */
  datatype Config = Config(limits: Limits, wakeHandles: set<Handles.Handle>, wakeTimeout: int)

  datatype Proxy = Proxy(queue: Queue, holder: Holder)

  datatype Step =
    | PostEvents(events: seq<Event>, wakeups: nat, token: nat, available: nat, writeOk: bool, now: int)
    | WriterBegin
    | WriterDone(ok: bool)
    | WriterEnd
    | Acknowledge(n: nat)
    | WakeTimeout(now: int)
    | WakeThreadExit(now: int)
    | TakeWakelock(id: nat, now: int)
    | DropWakelock(id: nat)
    | StopRequest
    | Initialize(now: int)

  predicate Enabled(c: Config, p: Proxy, step: Step) {
    match step
    case WriterBegin => p.queue.phase.Idle? && p.holder.wake.running && p.queue.pending != []
    case WriterDone(_) => p.queue.phase.Writing? && p.queue.pending != []
    case WriterEnd => p.queue.phase.Written? && p.queue.pending != []
    case WakeTimeout(now) => p.holder.wake.refCount > 0 && DidTimeout(p.holder.wake, now, c.wakeTimeout)
    case WakeThreadExit(_) => !p.holder.wake.running
    case Initialize(_) => !p.holder.wake.running && p.queue.phase.Idle?
    case _ => true
  }

  /** How many references the writer thread gives back when its blocking write of the front entry fails. */
  function ReleaseAsked(c: Config, entry: Entry): nat {
    if entry.wakeups == 0 then 0
    else if |entry.events| > c.limits.capacity then WakeCount(c.wakeHandles, entry.events[..c.limits.capacity])
    else entry.wakeups
  }

  function QueueAfter(c: Config, p: Proxy, step: Step): Queue
    requires Enabled(c, p, step)
  {
    match step
    case PostEvents(events, wakeups, _, available, writeOk, _) =>
      Post(c.limits, p.queue, events, wakeups, available, writeOk)
    case WriterBegin => WriteBegin(c.limits, p.queue)
    case WriterDone(ok) => WriteDone(p.queue, ok)
    case WriterEnd => WriteEnd(c.limits, p.queue)
    case Initialize(_) => Clear(p.queue)
    case _ => p.queue
  }

  /** What a step does to the wake lock. */
  function WakeEffects(c: Config, p: Proxy, step: Step): seq<WakeStep>
    requires Enabled(c, p, step)
  {
    match step
    case PostEvents(_, wakeups, token, _, _, now) => [Lock(token, wakeups, now)]
    case WriterDone(ok) => if ok then [] else [Settle(ReleaseAsked(c, p.queue.pending[0]))]
    case Acknowledge(n) => [Settle(n)]
    case WakeTimeout(now) => [ResetAll(now)]
    case WakeThreadExit(now) => [ResetAll(now)]
    case TakeWakelock(id, now) => [TakeToken(id, now)]
    case DropWakelock(id) => [DropToken(id)]
    case StopRequest => [Stop]
    case Initialize(now) => [ResetAll(now), Start]
    case _ => []
  }

  function Next(c: Config, p: Proxy, step: Step): Proxy
    requires Enabled(c, p, step)
  {
    Proxy(QueueAfter(c, p, step), ApplyAll(p.holder, WakeEffects(c, p, step)))
  }

  predicate IsRun(c: Config, p: Proxy, steps: seq<Step>)
    decreases |steps|
  {
    steps == [] || (Enabled(c, p, steps[0]) && IsRun(c, Next(c, p, steps[0]), steps[1..]))
  }

  function Last(c: Config, p: Proxy, steps: seq<Step>): Proxy
    requires IsRun(c, p, steps)
    decreases |steps|
  {
    if steps == [] then p else Last(c, Next(c, p, steps[0]), steps[1..])
  }

  lemma StepIsRun(c: Config, p: Proxy, step: Step)
    requires Enabled(c, p, step)
    ensures IsRun(c, p, [step]) && Last(c, p, [step]) == Next(c, p, step)
  {
    assert [step][1..] == [];
  }

  lemma {:induction false} RunConcat(c: Config, p: Proxy, a: seq<Step>, b: seq<Step>)
    requires IsRun(c, p, a) && IsRun(c, Last(c, p, a), b)
    ensures IsRun(c, p, a + b) && Last(c, p, a + b) == Last(c, Last(c, p, a), b)
    decreases |a|
  {
    if a == [] {
      assert a + b == b;
    } else {
      assert (a + b)[0] == a[0] && (a + b)[1..] == a[1..] + b;
      RunConcat(c, Next(c, p, a[0]), a[1..], b);
    }
  }

  /** Every wake-lock operation of a run, in order. */
  function Effects(c: Config, p: Proxy, steps: seq<Step>): seq<WakeStep>
    requires IsRun(c, p, steps)
    decreases |steps|
  {
    if steps == [] then []
    else WakeEffects(c, p, steps[0]) + Effects(c, Next(c, p, steps[0]), steps[1..])
  }

  /** The threads have just been started for the first time. */
  predicate Initial(p: Proxy) {
    && p.queue == EMPTY_QUEUE
    && p.holder.tokens == map[] && 0 <= p.holder.wake.resetTime <= p.holder.clock
    && p.holder.wake.refCount == 0 && p.holder.wake.actions == []
  }

  /** One such state. */
  const FRESH_PROXY := Proxy(EMPTY_QUEUE, Holder(Wake(true, 0, 0, 0, []), map[], 0))

  // ---------- The queue over whole runs ----------

  lemma StepKeepsQueueInv(c: Config, p: Proxy, step: Step)
    requires Enabled(c, p, step) && Inv(c.limits, p.queue)
    ensures Inv(c.limits, QueueAfter(c, p, step))
  {
    match step
    case PostEvents(events, wakeups, _, available, writeOk, _) =>
      PostKeepsInv(c.limits, p.queue, events, wakeups, available, writeOk);
    case WriterBegin => WriteBeginKeepsInv(c.limits, p.queue);
    case WriterDone(ok) => WriteDoneKeepsInv(c.limits, p.queue, ok);
    case WriterEnd => WriteEndKeepsInv(c.limits, p.queue);
    case Initialize(_) => ClearKeepsInv(c.limits, p.queue);
    case _ =>
  }

  lemma {:induction false} RunKeepsQueueInv(c: Config, p: Proxy, steps: seq<Step>)
    requires IsRun(c, p, steps) && Inv(c.limits, p.queue)
    ensures Inv(c.limits, Last(c, p, steps).queue)
    decreases |steps|
  {
    if steps == [] {
    } else {
      StepKeepsQueueInv(c, p, steps[0]);
      RunKeepsQueueInv(c, Next(c, p, steps[0]), steps[1..]);
    }
  }

  /** First in, first out, in every interleaving. */
  lemma RunIsFifo(c: Config, p: Proxy, steps: seq<Step>)
    requires Initial(p) && IsRun(c, p, steps)
    ensures var q := Last(c, p, steps).queue;
      && q.fmq + Remaining(q) == Select(q.log, {Delivered, Queued})
      && Posted(q.log) == AllPosted(steps)
  {
    RunKeepsQueueInv(c, p, steps);
    FirstInFirstOut(c.limits, Last(c, p, steps).queue);
    RunRecordsPosts(c, p, steps);
  }

  function PostedBy(step: Step): seq<Event> {
    if step.PostEvents? then step.events else []
  }

  /** The batches of a run, joined in order. */
  function AllPosted(steps: seq<Step>): seq<Event> {
    if steps == [] then [] else PostedBy(steps[0]) + AllPosted(steps[1..])
  }

  /** No step but a post changes which events the log holds, and no step reorders them. */
  lemma StepRecordsPosts(c: Config, p: Proxy, step: Step)
    requires Enabled(c, p, step)
    ensures Posted(QueueAfter(c, p, step).log) == Posted(p.queue.log) + PostedBy(step)
  {
    match step
    case PostEvents(events, wakeups, _, available, writeOk, _) =>
      PostRecordsBatch(c.limits, p.queue, events, wakeups, available, writeOk);
    case WriterDone(ok) => MarkKeepsEvents(p.queue.log, p.queue.phase.n, if ok then Delivered else Failed);
    case Initialize(_) => MarkKeepsEvents(p.queue.log, |p.queue.log|, Cleared);
    case _ =>
  }

  lemma {:induction false} RunRecordsPosts(c: Config, p: Proxy, steps: seq<Step>)
    requires IsRun(c, p, steps)
    ensures Posted(Last(c, p, steps).queue.log) == Posted(p.queue.log) + AllPosted(steps)
    decreases |steps|
  {
    if steps == [] {
    } else {
      StepRecordsPosts(c, p, steps[0]);
      RunRecordsPosts(c, Next(c, p, steps[0]), steps[1..]);
      ConcatAssociates(Posted(p.queue.log), PostedBy(steps[0]), AllPosted(steps[1..]));
    }
  }

  lemma ConcatAssociates(a: seq<Event>, b: seq<Event>, c: seq<Event>)
    ensures (a + b) + c == a + (b + c)
  {
  }

  /** The fate that a step may give to a queued event. */
  function FateGivenBy(step: Step): Fate {
    match step
    case WriterDone(ok) => if ok then Delivered else Failed
    case Initialize(_) => Cleared
    case _ => Queued
  }

  /** An event's fate is settled at most once: a queued event is delivered by a successful pending write, fails with a
      failed one, or is cleared by a re-initialise, and nothing else ever changes. A batch overflows only in part,
      at its end, and only when the rest of it does not fit behind what is pending. */
  lemma StepFates(c: Config, p: Proxy, step: Step)
    requires Enabled(c, p, step)
    ensures var log, log' := p.queue.log, QueueAfter(c, p, step).log;
      && |log| <= |log'|
      && (forall i :: 0 <= i < |log| ==>
            log'[i] == log[i] || (log[i].fate == Queued && log'[i] == Slot(log[i].event, FateGivenBy(step))))
      && (forall i :: |log| <= i < |log'| ==>
            && step.PostEvents?
            && (log'[i].fate == Overflowed ==>
                  && i >= |log| + DirectCount(p.queue, step.events, step.available, step.writeOk)
                  && p.queue.sizePending + |log'| - |log|
                       - DirectCount(p.queue, step.events, step.available, step.writeOk) > c.limits.maxPending))
  {
    match step
    case PostEvents(events, wakeups, _, available, writeOk, _) =>
      PostLog(c.limits, p.queue, events, wakeups, available, writeOk);
    case WriterDone(ok) => MarkChanges(p.queue.log, p.queue.phase.n, FateGivenBy(step));
    case Initialize(_) => MarkChanges(p.queue.log, |p.queue.log|, FateGivenBy(step));
    case _ =>
  }

  /** A post that writes to the FMQ itself. */
  predicate WritesDirectly(p: Proxy, step: Step) {
    step.PostEvents? && DirectCount(p.queue, step.events, step.available, step.writeOk) > 0
  }

  /** The FMQ never has two writers: while the writer thread is inside `writeBlocking`, or back from it and not
      yet holding the lock, no post writes directly and the thread has an entry to come back to. */
  lemma SingleWriter(c: Config, p: Proxy, steps: seq<Step>, step: Step)
    requires Initial(p) && IsRun(c, p, steps)
    ensures var s := Last(c, p, steps);
      s.queue.phase != Idle ==>
        && !WritesDirectly(s, step) && !Enabled(c, s, WriterBegin) && !Enabled(c, s, Initialize(0))
        && s.queue.pending != [] && s.queue.phase.n == Min(|Front(s.queue)|, c.limits.capacity)
  {
    RunKeepsQueueInv(c, p, steps);
  }

  /** The largest size the queue has in any state of a run. */
  function PeakSize(c: Config, p: Proxy, steps: seq<Step>): nat
    requires IsRun(c, p, steps)
    decreases |steps|
  {
    if steps == [] then p.queue.sizePending
    else Max(p.queue.sizePending, PeakSize(c, Next(c, p, steps[0]), steps[1..]))
  }

  /** The size counter is the number of pending events and stays within the limit; the "most observed" counter is
      the lifetime maximum, across re-initialisation too. */
  lemma RunSizes(c: Config, p: Proxy, steps: seq<Step>)
    requires Initial(p) && IsRun(c, p, steps)
    ensures var q := Last(c, p, steps).queue;
      && q.sizePending == TotalSize(q.pending) == |Flatten(q.pending)| <= c.limits.maxPending
      && (forall i :: 0 <= i < |q.pending| ==> q.pending[i].events != [])
      && q.mostObserved == PeakSize(c, p, steps)
  {
    RunKeepsQueueInv(c, p, steps);
    FlattenLength(Last(c, p, steps).queue.pending);
    RunTracksPeak(c, p, steps);
  }

  lemma {:induction false} RunTracksPeak(c: Config, p: Proxy, steps: seq<Step>)
    requires IsRun(c, p, steps) && Inv(c.limits, p.queue)
    ensures Last(c, p, steps).queue.mostObserved == Max(p.queue.mostObserved, PeakSize(c, p, steps))
    decreases |steps|
  {
    if steps == [] {
    } else {
      StepKeepsQueueInv(c, p, steps[0]);
      if steps[0].WriterEnd? {
        WriteEndKeepsInv(c.limits, p.queue);
      }
      RunTracksPeak(c, Next(c, p, steps[0]), steps[1..]);
    }
  }

  // ---------- What a run queues ----------

  /** The entry that a post puts into the queue, if it does. */
  function QueuedBy(c: Config, p: Proxy, step: Step): seq<Entry> {
    if step.PostEvents? then
      var left := step.events[DirectCount(p.queue, step.events, step.available, step.writeOk)..];
      if FitsBehind(c.limits, p.queue, left) then [Entry(left, step.wakeups)] else []
    else []
  }

  function QueuedInRun(c: Config, p: Proxy, steps: seq<Step>): seq<Entry>
    requires IsRun(c, p, steps)
    decreases |steps|
  {
    if steps == [] then [] else QueuedBy(c, p, steps[0]) + QueuedInRun(c, Next(c, p, steps[0]), steps[1..])
  }

  // ---------- The wake lock over whole runs ----------

  lemma {:induction false} ApplyConcat(h: Holder, a: seq<WakeStep>, b: seq<WakeStep>)
    ensures ApplyAll(h, a + b) == ApplyAll(ApplyAll(h, a), b)
    decreases |a|
  {
    if a == [] {
      assert a + b == b;
    } else {
      assert (a + b)[1..] == a[1..] + b;
      ApplyConcat(Apply(h, a[0]), a[1..], b);
    }
  }

  lemma {:induction false} RecordConcat(l: Ledger, a: seq<WakeStep>, b: seq<WakeStep>)
    ensures RecordAll(l, a + b) == RecordAll(RecordAll(l, a), b)
    decreases |a|
  {
    if a == [] {
      assert a + b == b;
    } else {
      assert (a + b)[1..] == a[1..] + b;
      RecordConcat(Record(l, a[0]), a[1..], b);
    }
  }

  /** The holder at the end of a run is the result of the run's wake-lock operations. */
  lemma {:induction false} RunAppliesEffects(c: Config, p: Proxy, steps: seq<Step>)
    requires IsRun(c, p, steps)
    ensures Last(c, p, steps).holder == ApplyAll(p.holder, Effects(c, p, steps))
    decreases |steps|
  {
    if steps == [] {
    } else {
      RunAppliesEffects(c, Next(c, p, steps[0]), steps[1..]);
      ApplyConcat(p.holder, WakeEffects(c, p, steps[0]), Effects(c, Next(c, p, steps[0]), steps[1..]));
    }
  }

  /** The callback's contract, on the posts of a run: a live scoped wakelock comes with a wake-up event. */
  predicate Contract(c: Config, p: Proxy, steps: seq<Step>)
    requires IsRun(c, p, steps)
    decreases |steps|
  {
    steps == [] || (
      && (steps[0].PostEvents? && steps[0].token in p.holder.tokens ==> steps[0].wakeups > 0)
      && Contract(c, Next(c, p, steps[0]), steps[1..]))
  }

  lemma {:induction false} ContractMeansNoEmptyLock(c: Config, p: Proxy, steps: seq<Step>)
    requires IsRun(c, p, steps) && Contract(c, p, steps)
    ensures NeverEmptyLock(p.holder, Effects(c, p, steps))
    decreases |steps|
  {
    if steps == [] {
    } else {
      var first, rest := WakeEffects(c, p, steps[0]), Effects(c, Next(c, p, steps[0]), steps[1..]);
      ContractMeansNoEmptyLock(c, Next(c, p, steps[0]), steps[1..]);
      NoEmptyLockConcat(p.holder, first, rest);
    }
  }

  lemma {:induction false} NoEmptyLockConcat(h: Holder, a: seq<WakeStep>, b: seq<WakeStep>)
    requires NeverEmptyLock(h, a) && NeverEmptyLock(ApplyAll(h, a), b)
    ensures NeverEmptyLock(h, a + b)
    decreases |a|
  {
    if a == [] {
      assert a + b == b;
    } else {
      assert (a + b)[1..] == a[1..] + b;
      NoEmptyLockConcat(Apply(h, a[0]), a[1..], b);
    }
  }

  /** In every state of every run that keeps the contract, the kernel lock is held iff the count is positive, and
      the acquire and release calls have taken turns: through posts, acknowledgements, timeouts, stale releases,
      failed writes, stop and re-initialise. */
  lemma RunHoldsIffReferenced(c: Config, p: Proxy, steps: seq<Step>)
    requires Initial(p) && IsRun(c, p, steps) && Contract(c, p, steps)
    ensures HeldInv(Last(c, p, steps).holder.wake)
    ensures AlwaysHeld(p.holder, Effects(c, p, steps))
  {
    RunAppliesEffects(c, p, steps);
    ContractMeansNoEmptyLock(c, p, steps);
    RunIsHeld(p.holder, Effects(c, p, steps));
  }

  function NewLedger(p: Proxy): Ledger {
    Ledger(p.holder.wake.running, {}, {}, 0)
  }

  /** Over every run with a forward clock the device is kept awake for no more than what is referenced. The
      count is exact in every state of the run precisely when no settlement overdraws. */
  lemma RunAccounts(c: Config, p: Proxy, steps: seq<Step>)
    requires Initial(p) && IsRun(c, p, steps) && AllTimely(p.holder, Effects(c, p, steps))
    ensures var effects := Effects(c, p, steps);
      && Bounded(Last(c, p, steps).holder, RecordAll(NewLedger(p), effects))
      && (AlwaysExact(p.holder, NewLedger(p), effects) <==> NeverOverdraws(NewLedger(p), effects))
      && (NeverOverdraws(NewLedger(p), effects) ==> Exact(Last(c, p, steps).holder, RecordAll(NewLedger(p), effects)))
  {
    var effects := Effects(c, p, steps);
    RunAppliesEffects(c, p, steps);
    RunKeepsClockAndBound(p.holder, NewLedger(p), effects);
    RunIsExact(p.holder, NewLedger(p), effects);
  }

  /** A timeout while the threads run gives every reference back and makes every live token stale; an acknowledgement
      gives back what it says, as far as there is something; a restart keeps the count. */
  lemma WakeThreadSteps(c: Config, p: Proxy, step: Step)
    requires Enabled(c, p, step) && ClockInv(p.holder)
    ensures var w, w' := p.holder.wake, Next(c, p, step).holder.wake;
      && (step.WakeTimeout? && w.running ==> w'.refCount == 0 && w'.resetTime == step.now)
      && (step.WakeTimeout? && w.running && AfterEveryToken(p.holder, step.now) ==>
            SeemRecent(Next(c, p, step).holder) == {})
      && (step.Acknowledge? && w.running ==> w'.refCount == if step.n <= w.refCount then w.refCount - step.n else 0)
      && (step.Initialize? ==> w'.running && w'.refCount == w.refCount && w'.resetTime == step.now)
      && (!step.StopRequest? && !step.Initialize? ==> w'.running == w.running)
  {
    var effects := WakeEffects(c, p, step);
    if step.Initialize? {
      assert effects[1..] == [Start];
      ApplyOne(Apply(p.holder, effects[0]), Start);
    } else if effects != [] {
      ApplyOne(p.holder, effects[0]);
      assert effects == [effects[0]];
    }
  }

  lemma ApplyOne(h: Holder, step: WakeStep)
    ensures ApplyAll(h, [step]) == Apply(h, step)
  {
    assert [step][1..] == [];
  }

  /** A wake-lock timeout fires only when nobody has locked the wake lock for longer than the limit. */
  lemma TimeoutFiresOnlyWhenIdle(c: Config, p: Proxy, steps: seq<Step>, now: int)
    requires IsRun(c, p, steps) && Enabled(c, Last(c, p, steps), WakeTimeout(now))
    ensures now - LastLock(p.holder, Effects(c, p, steps), p.holder.wake.timeoutStart) > c.wakeTimeout
  {
    RunAppliesEffects(c, p, steps);
    TimeoutMeansIdle(p.holder, Effects(c, p, steps), now, c.wakeTimeout);
  }
}
