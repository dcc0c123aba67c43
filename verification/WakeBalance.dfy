/** What the wake lock is held for. The references that no token gives back are compared with what has become of the
    wake-up events: those still queued, those handed over and not yet acknowledged, and those that overflowed, whose
    references stay until a timeout. */
module WakeBalance {
  import opened SensorTypes
  import opened EventQueue
  import opened EventQueueSafety
  import opened WakeLock
  import opened WakeLedger
  import opened ProxyMachine
  import opened FailedWrites

  /** How many wake-up events have the given fate. */
  function WakeupsWith(c: Config, q: Queue, fate: Fate): nat {
    WakeCount(c.wakeHandles, Select(q.log, {fate}))
  }

  /** The wake-up events whose references only an acknowledgement or a timeout gives back, and those still queued. */
  function Outstanding(c: Config, q: Queue): nat {
    WakeupsWith(c, q, Queued) + WakeupsWith(c, q, Delivered) + WakeupsWith(c, q, Overflowed)
  }

  // ---------- One step ----------

  function Acked(step: Step): nat {
    if step.Acknowledge? then step.n else 0
  }

  function PostedWakeups(step: Step): nat {
    if step.PostEvents? then step.wakeups else 0
  }

  /** The wake-up events that a step drops with a failed chunk. */
  function Dropped(c: Config, p: Proxy, step: Step): nat
    requires Enabled(c, p, step)
  {
    if step == WriterDone(false) then DroppedWith(c, p.queue.pending[0]) else 0
  }

  /** The threads go on running and there is no timeout. */
  predicate Steady(step: Step) {
    !step.StopRequest? && !step.Initialize? && !step.WakeTimeout? && !step.WakeThreadExit?
  }

  /** What the callback computes and asserts: the count is that of the batch, and a batch comes with a locked wakelock
      exactly when it has a wake-up event. */
  predicate Keeps(c: Config, p: Proxy, step: Step) {
    step.PostEvents? ==>
      && step.wakeups == WakeCount(c.wakeHandles, step.events)
      && (step.token in p.holder.tokens <==> step.wakeups > 0)
  }

  /** The clock runs forward, a token is new when it is taken. */
  predicate IsTimely(c: Config, p: Proxy, step: Step)
    requires Enabled(c, p, step)
  {
    AllTimely(p.holder, WakeEffects(c, p, step))
  }

  /** How far an operation asks for more than there is: a settlement beyond the whole count, or a newer token that is
      dropped when the count is zero already. */
  function Shortfall(h: Holder, effect: WakeStep): nat {
    match effect
    case Settle(n) => if n > h.wake.refCount then n - h.wake.refCount else 0
    case DropToken(id) => if id in SeemRecent(h) && h.wake.refCount == 0 then 1 else 0
    case _ => 0
  }

  /** The references that the live newer tokens do not account for. */
  function Untokened(h: Holder): int {
    h.wake.refCount - |SeemRecent(h)|
  }

  lemma TakingCounts(h: Holder, id: nat, now: int)
    requires h.wake.running && ClockInv(h) && Timely(h, TakeToken(id, now))
    ensures Untokened(Apply(h, TakeToken(id, now))) == Untokened(h)
  {
    assert SeemRecent(Apply(h, TakeToken(id, now))) == SeemRecent(h) + {id};
    assert id !in SeemRecent(h);
  }

  lemma DroppingCounts(h: Holder, id: nat)
    requires h.wake.running && ClockInv(h)
    ensures Untokened(Apply(h, DropToken(id))) == Untokened(h) + Shortfall(h, DropToken(id))
  {
    if id in h.tokens {
      assert SeemRecent(Apply(h, DropToken(id))) == SeemRecent(h) - {id};
      RemoveOne(SeemRecent(h), id);
    }
  }

  lemma SettlingCounts(h: Holder, n: nat)
    requires h.wake.running && ClockInv(h)
    ensures Untokened(Apply(h, Settle(n))) == Untokened(h) - n + Shortfall(h, Settle(n))
  {
    assert SeemRecent(Apply(h, Settle(n))) == SeemRecent(h);
  }

  lemma LockingCounts(h: Holder, token: nat, delta: nat, now: int)
    requires h.wake.running
    ensures Untokened(Apply(h, Lock(token, delta, now))) == Untokened(h) + if token in h.tokens then delta else 0
  {
    assert SeemRecent(Apply(h, Lock(token, delta, now))) == SeemRecent(h);
  }

  /** While the threads run, taking and dropping tokens changes count and tokens alike, a lock adds its wake-up events,
      and a settlement takes off what it asks for, but for the shortfall. */
  lemma EffectCounts(h: Holder, effect: WakeStep)
    requires h.wake.running && ClockInv(h) && Timely(h, effect)
    requires effect.Lock? || effect.Settle? || effect.TakeToken? || effect.DropToken?
    ensures Untokened(Apply(h, effect)) == Untokened(h) + Shortfall(h, effect)
      + (if effect.Lock? && effect.token in h.tokens then effect.delta else 0)
      - (if effect.Settle? then effect.n else 0)
    ensures Apply(h, effect).wake.running
  {
    match effect
    case Lock(token, delta, now) => LockingCounts(h, token, delta, now);
    case Settle(n) => SettlingCounts(h, n);
    case TakeToken(id, now) => TakingCounts(h, id, now);
    case DropToken(id) => DroppingCounts(h, id);
  }

  function StepShortfall(c: Config, p: Proxy, step: Step): nat
    requires Enabled(c, p, step)
  {
    var effects := WakeEffects(c, p, step);
    if effects == [] then 0 else Shortfall(p.holder, effects[0])
  }

  /** A step clamps when it asks for more references than the count holds, or drops a newer token at count zero. */
  predicate Clamps(c: Config, p: Proxy, step: Step)
    requires Enabled(c, p, step)
  {
    || Acked(step) + Asked(c, p, step) > p.holder.wake.refCount
    || (step.DropWakelock? && step.id in SeemRecent(p.holder) && p.holder.wake.refCount == 0)
  }

  /** A post adds its wake-up events to the count, and settlements take off what they ask for, but for a clamp. */
  lemma StepCounts(c: Config, p: Proxy, step: Step)
    requires Enabled(c, p, step) && Steady(step) && Keeps(c, p, step) && IsTimely(c, p, step)
    requires p.holder.wake.running && ClockInv(p.holder)
    ensures var h' := Next(c, p, step).holder;
      && Untokened(h') == Untokened(p.holder) + PostedWakeups(step) - Acked(step) - Asked(c, p, step)
           + StepShortfall(c, p, step)
      && h'.wake.running && ClockInv(h')
    ensures StepShortfall(c, p, step) > 0 <==> Clamps(c, p, step)
  {
    var effects := WakeEffects(c, p, step);
    if effects != [] {
      assert effects == [effects[0]];
      ApplyOne(p.holder, effects[0]);
      SettledOne(effects[0]);
      EffectCounts(p.holder, effects[0]);
      StepKeepsClock(p.holder, effects[0]);
    }
  }

  /** The part of a posted batch that is given a fate. */
  function PartWith(c: Config, p: Proxy, step: Step, fate: Fate): seq<Event>
    requires step.PostEvents?
  {
    var direct := DirectCount(p.queue, step.events, step.available, step.writeOk);
    var tail := if FitsBehind(c.limits, p.queue, step.events[direct..]) then Queued else Overflowed;
    if fate == Delivered then step.events[..direct] else if fate == tail then step.events[direct..] else []
  }

  lemma PostAdds(c: Config, p: Proxy, step: Step, fate: Fate)
    requires Enabled(c, p, step) && step.PostEvents?
    ensures Select(QueueAfter(c, p, step).log, {fate}) == Select(p.queue.log, {fate}) + PartWith(c, p, step, fate)
  {
    PostSelects(c.limits, p.queue, step.events, step.wakeups, step.available, step.writeOk, {fate});
  }

  lemma PostCounts(c: Config, p: Proxy, step: Step, fate: Fate)
    requires Enabled(c, p, step) && step.PostEvents?
    ensures WakeupsWith(c, QueueAfter(c, p, step), fate)
         == WakeupsWith(c, p.queue, fate) + WakeCount(c.wakeHandles, PartWith(c, p, step, fate))
  {
    PostAdds(c, p, step, fate);
    WakeCountConcat(c.wakeHandles, Select(p.queue.log, {fate}), PartWith(c, p, step, fate));
  }

  lemma PostOutstanding(c: Config, p: Proxy, step: Step)
    requires Enabled(c, p, step) && step.PostEvents?
    ensures Outstanding(c, QueueAfter(c, p, step)) == Outstanding(c, p.queue) + WakeCount(c.wakeHandles, step.events)
  {
    WakeCountSplit(c.wakeHandles, step.events, DirectCount(p.queue, step.events, step.available, step.writeOk));
    PostCounts(c, p, step, Queued);
    PostCounts(c, p, step, Overflowed);
    PostCounts(c, p, step, Delivered);
  }

  lemma WriteOutstanding(c: Config, p: Proxy, step: Step)
    requires Enabled(c, p, step) && step.WriterDone? && Inv(c.limits, p.queue)
    ensures var q' := QueueAfter(c, p, step);
      && Outstanding(c, q') + Dropped(c, p, step) == Outstanding(c, p.queue)
      && Dropped(c, p, step) <= WakeupsWith(c, p.queue, Queued)
  {
    var log, n := p.queue.log, p.queue.phase.n;
    var queued, fate := Select(log, {Queued}), if step.ok then Delivered else Failed;
    FrontIsWithin(p.queue);
    assert Take(Front(p.queue), n) == queued[..n];
    WakeCountSplit(c.wakeHandles, queued, n);
    MarkTakesQueued(log, n, fate);
    MarkLeavesOthers(log, n, fate, {Overflowed});
    if step.ok {
      MarkDelivers(log, n);
      WakeCountConcat(c.wakeHandles, Select(log, {Delivered}), queued[..n]);
    } else {
      MarkLeavesOthers(log, n, fate, {Delivered});
    }
  }

  /** The outstanding wake-up events: a post adds its own, and a failed write takes off those it drops. */
  lemma StepOutstanding(c: Config, p: Proxy, step: Step)
    requires Enabled(c, p, step) && Steady(step) && Keeps(c, p, step) && Inv(c.limits, p.queue)
    ensures Outstanding(c, QueueAfter(c, p, step)) + Dropped(c, p, step)
         == Outstanding(c, p.queue) + PostedWakeups(step)
  {
    match step
    case PostEvents(_, _, _, _, _, _) => PostOutstanding(c, p, step);
    case WriterDone(_) => WriteOutstanding(c, p, step);
    case _ =>
  }

  // ---------- Whole runs ----------

  /** A run between two resets: the threads run, the clock goes forward, and the callback keeps its contract. What the
      framework acknowledges, and which writes fail, is arbitrary. */
  predicate Undisturbed(c: Config, p: Proxy, steps: seq<Step>)
    requires IsRun(c, p, steps)
    decreases |steps|
  {
    steps == [] || (
      && Steady(steps[0]) && Keeps(c, p, steps[0]) && IsTimely(c, p, steps[0])
      && Undisturbed(c, Next(c, p, steps[0]), steps[1..]))
  }

  predicate NeverClamps(c: Config, p: Proxy, steps: seq<Step>)
    requires IsRun(c, p, steps)
    decreases |steps|
  {
    steps == [] || (!Clamps(c, p, steps[0]) && NeverClamps(c, Next(c, p, steps[0]), steps[1..]))
  }

  function AckedInRun(steps: seq<Step>): nat {
    if steps == [] then 0 else Acked(steps[0]) + AckedInRun(steps[1..])
  }

  function PostedInRun(steps: seq<Step>): nat {
    if steps == [] then 0 else PostedWakeups(steps[0]) + PostedInRun(steps[1..])
  }

  function DroppedInRun(c: Config, p: Proxy, steps: seq<Step>): nat
    requires IsRun(c, p, steps)
    decreases |steps|
  {
    if steps == [] then 0 else Dropped(c, p, steps[0]) + DroppedInRun(c, Next(c, p, steps[0]), steps[1..])
  }

  function ShortfallInRun(c: Config, p: Proxy, steps: seq<Step>): nat
    requires IsRun(c, p, steps)
    decreases |steps|
  {
    if steps == [] then 0
    else StepShortfall(c, p, steps[0]) + ShortfallInRun(c, Next(c, p, steps[0]), steps[1..])
  }

  /** The queue of any state of a run, and a wake lock whose threads run. */
  ghost predicate Sound(c: Config, p: Proxy) {
    Inv(c.limits, p.queue) && ClockInv(p.holder) && p.holder.wake.running
  }

  lemma {:induction false} CountFollowsPosts(c: Config, p: Proxy, steps: seq<Step>)
    requires IsRun(c, p, steps) && Sound(c, p) && Undisturbed(c, p, steps)
    ensures Untokened(Last(c, p, steps).holder) == Untokened(p.holder) + PostedInRun(steps) - AckedInRun(steps)
      - AskedInRun(c, p, steps) + ShortfallInRun(c, p, steps)
    ensures ShortfallInRun(c, p, steps) == 0 <==> NeverClamps(c, p, steps)
    decreases |steps|
  {
    if steps == [] {
    } else {
      StepKeepsQueueInv(c, p, steps[0]);
      StepCounts(c, p, steps[0]);
      CountFollowsPosts(c, Next(c, p, steps[0]), steps[1..]);
    }
  }

  lemma {:induction false} OutstandingFollowsPosts(c: Config, p: Proxy, steps: seq<Step>)
    requires IsRun(c, p, steps) && Sound(c, p) && Undisturbed(c, p, steps)
    ensures Outstanding(c, Last(c, p, steps).queue) + DroppedInRun(c, p, steps)
         == Outstanding(c, p.queue) + PostedInRun(steps)
    decreases |steps|
  {
    if steps == [] {
    } else {
      StepKeepsQueueInv(c, p, steps[0]);
      StepCounts(c, p, steps[0]);
      StepOutstanding(c, p, steps[0]);
      OutstandingFollowsPosts(c, Next(c, p, steps[0]), steps[1..]);
    }
  }

  /** What the wake lock is held for: the live newer tokens, and the outstanding wake-up events. */
  function References(c: Config, p: Proxy): nat {
    |SeemRecent(p.holder)| + Outstanding(c, p.queue)
  }

  /** What the count would be at the end of a run if it never hit zero too early: the references that have been added,
      less what was acknowledged and what failed writes asked for beyond what they dropped. */
  function Balance(c: Config, p: Proxy, steps: seq<Step>): int
    requires IsRun(c, p, steps)
  {
    p.holder.wake.refCount + (References(c, Last(c, p, steps)) - References(c, p))
      - AckedInRun(steps) - (AskedInRun(c, p, steps) - DroppedInRun(c, p, steps))
  }

  /** Over every run between two resets, from any state, such as a reset, the reference count is at least the balance of
      its totals. It is equal to it if and only if no step clamps, and the difference is the sum of what clamps cut
      off. */
  lemma CountFollowsEvents(c: Config, p: Proxy, steps: seq<Step>)
    requires IsRun(c, p, steps) && Sound(c, p) && Undisturbed(c, p, steps)
    ensures var count, balance := Last(c, p, steps).holder.wake.refCount, Balance(c, p, steps);
      && count >= balance
      && count == balance + ShortfallInRun(c, p, steps)
      && (count == balance <==> NeverClamps(c, p, steps))
  {
    CountFollowsPosts(c, p, steps);
    OutstandingFollowsPosts(c, p, steps);
  }

  lemma {:induction false} UndisturbedKeepsContract(c: Config, p: Proxy, steps: seq<Step>)
    requires IsRun(c, p, steps) && Undisturbed(c, p, steps)
    ensures Contract(c, p, steps)
    decreases |steps|
  {
    if steps == [] {
    } else {
      UndisturbedKeepsContract(c, Next(c, p, steps[0]), steps[1..]);
    }
  }

  lemma HeldAtEnd(c: Config, p: Proxy, steps: seq<Step>)
    requires IsRun(c, p, steps) && Undisturbed(c, p, steps) && HeldInv(p.holder.wake)
    ensures HeldInv(Last(c, p, steps).holder.wake)
  {
    UndisturbedKeepsContract(c, p, steps);
    ContractMeansNoEmptyLock(c, p, steps);
    RunIsHeld(p.holder, Effects(c, p, steps));
    RunAppliesEffects(c, p, steps);
  }

  /** When the wake lock is let go. A positive balance keeps it held. It is released at the end of a run exactly when
      the balance and what clamps cut off add up to nothing; without a clamp, exactly when the balance is zero. */
  lemma ReleasedIff(c: Config, p: Proxy, steps: seq<Step>)
    requires IsRun(c, p, steps) && Sound(c, p) && Undisturbed(c, p, steps) && HeldInv(p.holder.wake)
    ensures var held := Held(Last(c, p, steps).holder.wake.actions);
      && (Balance(c, p, steps) > 0 ==> held)
      && (!held <==> Balance(c, p, steps) + ShortfallInRun(c, p, steps) == 0)
      && (NeverClamps(c, p, steps) ==> (!held <==> Balance(c, p, steps) == 0))
  {
    CountFollowsEvents(c, p, steps);
    HeldAtEnd(c, p, steps);
  }

  // ---------- Held while an event waits ----------

  /** What the wake lock is for. From the start up to a timeout the references cover the newer tokens and the wake-up
      events that are queued, overflowed, or delivered and not acknowledged, less the excess of failed writes. The
      device stays awake while a wake-up event is queued, as long as what has been acknowledged and the excess do not
      reach beyond the tokens, the delivered and the overflowed events. */
  lemma AwakeWhileQueued(c: Config, p: Proxy, steps: seq<Step>)
    requires Initial(p) && p.holder.wake.running && IsRun(c, p, steps) && Undisturbed(c, p, steps)
    ensures var p' := Last(c, p, steps);
      var excess := AskedInRun(c, p, steps) - DroppedInRun(c, p, steps);
      var others := |SeemRecent(p'.holder)| + WakeupsWith(c, p'.queue, Overflowed)
        + (WakeupsWith(c, p'.queue, Delivered) - AckedInRun(steps)) - excess;
      && p'.holder.wake.refCount >= WakeupsWith(c, p'.queue, Queued) + others
      && (p'.holder.wake.refCount == WakeupsWith(c, p'.queue, Queued) + others <==> NeverClamps(c, p, steps))
      && (others >= 0 && WakeCount(c.wakeHandles, Remaining(p'.queue)) > 0 ==> Held(p'.holder.wake.actions))
  {
    CountFollowsEvents(c, p, steps);
    ReleasedIff(c, p, steps);
    RunKeepsQueueInv(c, p, steps);
  }

  /** After a timeout nothing is referenced any more, whatever is queued. From then on the device is awake as long as
      the newer tokens and the wake-up events posted since are more than what is acknowledged and asked for; an
      acknowledgement has no time, so one of an event from before the timeout counts against the newer events. */
  lemma AwakeAfterTimeout(c: Config, p: Proxy, now: int, steps: seq<Step>)
    requires Sound(c, p) && HeldInv(p.holder.wake)
    requires Enabled(c, p, WakeTimeout(now)) && IsTimely(c, p, WakeTimeout(now))
    requires var r := Next(c, p, WakeTimeout(now)); IsRun(c, r, steps) && Undisturbed(c, r, steps)
    ensures var r := Next(c, p, WakeTimeout(now));
      var p' := Last(c, r, steps);
      var newer := |SeemRecent(p'.holder)| + PostedInRun(steps);
      && !Held(r.holder.wake.actions) && Outstanding(c, r.queue) == Outstanding(c, p.queue)
      && (newer > AckedInRun(steps) + AskedInRun(c, r, steps) ==> Held(p'.holder.wake.actions))
      && (NeverClamps(c, r, steps) ==>
            (Held(p'.holder.wake.actions) <==> newer > AckedInRun(steps) + AskedInRun(c, r, steps)))
  {
    var r := Next(c, p, WakeTimeout(now));
    ApplyOne(p.holder, ResetAll(now));
    StepKeepsClock(p.holder, ResetAll(now));
    StepKeepsHeld(p.holder, ResetAll(now));
    assert SeemRecent(r.holder) == {};
    CountFollowsPosts(c, r, steps);
    HeldAtEnd(c, r, steps);
  }

  // ---------- Runs that never clamp ----------

  /** What has been delivered stays delivered. */
  lemma StepDelivers(c: Config, p: Proxy, step: Step)
    requires Enabled(c, p, step) && Steady(step) && Inv(c.limits, p.queue)
    ensures WakeupsWith(c, QueueAfter(c, p, step), Delivered) >= WakeupsWith(c, p.queue, Delivered)
  {
    match step
    case PostEvents(_, _, _, _, _, _) => PostCounts(c, p, step, Delivered);
    case WriterDone(ok) =>
      var log, n := p.queue.log, p.queue.phase.n;
      FrontIsWithin(p.queue);
      if ok {
        MarkDelivers(log, n);
        WakeCountConcat(c.wakeHandles, Select(log, {Delivered}), Select(log, {Queued})[..n]);
      } else {
        MarkLeavesOthers(log, n, Failed, {Delivered});
      }
    case _ =>
  }

  /** A step with which the framework acknowledges no more wake-up events than have been delivered and not acknowledged
      before, and no failed write asks for more than it drops. */
  predicate IsHonest(c: Config, p: Proxy, acked: nat, step: Step)
    requires Enabled(c, p, step)
  {
    Asked(c, p, step) == Dropped(c, p, step) && acked + Acked(step) <= WakeupsWith(c, p.queue, Delivered)
  }

  predicate AllHonest(c: Config, p: Proxy, acked: nat, steps: seq<Step>)
    requires IsRun(c, p, steps)
    decreases |steps|
  {
    steps == [] || (
      && IsHonest(c, p, acked, steps[0])
      && AllHonest(c, Next(c, p, steps[0]), acked + Acked(steps[0]), steps[1..]))
  }

  lemma HonestStep(c: Config, p: Proxy, acked: nat, step: Step)
    requires Enabled(c, p, step) && Sound(c, p) && Steady(step) && Keeps(c, p, step) && IsTimely(c, p, step)
    requires p.holder.wake.refCount + acked == References(c, p) && acked <= WakeupsWith(c, p.queue, Delivered)
    requires IsHonest(c, p, acked, step)
    ensures var p' := Next(c, p, step);
      && !Clamps(c, p, step) && p'.holder.wake.refCount + acked + Acked(step) == References(c, p')
      && acked + Acked(step) <= WakeupsWith(c, p'.queue, Delivered)
  {
    StepCounts(c, p, step);
    StepOutstanding(c, p, step);
    StepDelivers(c, p, step);
    if step.WriterDone? {
      WriteOutstanding(c, p, step);
    }
    if step.DropWakelock? && step.id in SeemRecent(p.holder) {
      RemoveOne(SeemRecent(p.holder), step.id);
    }
  }

  /** If the framework and the failed writes are honest at every step, no step clamps and the totals are honest, too. */
  lemma {:induction false} HonestNeverClamps(c: Config, p: Proxy, acked: nat, steps: seq<Step>)
    requires IsRun(c, p, steps) && Sound(c, p) && Undisturbed(c, p, steps) && AllHonest(c, p, acked, steps)
    requires p.holder.wake.refCount + acked == References(c, p) && acked <= WakeupsWith(c, p.queue, Delivered)
    ensures NeverClamps(c, p, steps) && AskedInRun(c, p, steps) == DroppedInRun(c, p, steps)
    ensures acked + AckedInRun(steps) <= WakeupsWith(c, Last(c, p, steps).queue, Delivered)
    decreases |steps|
  {
    if steps == [] {
    } else {
      StepKeepsQueueInv(c, p, steps[0]);
      StepCounts(c, p, steps[0]);
      HonestStep(c, p, acked, steps[0]);
      HonestNeverClamps(c, Next(c, p, steps[0]), acked + Acked(steps[0]), steps[1..]);
    }
  }
}
