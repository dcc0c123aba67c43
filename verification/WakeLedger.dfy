/** What the reference count is for. The proxy compares time stamps to decide whether a scoped wakelock is from
    before the last reset; the ledger here keeps the answer itself, as a set of tokens and a number, and never
    looks at a clock. The lemmas say when the two agree. */
module WakeLedger {
  import opened WakeLock

  /** A live locked `ScopedWakelock` is an entry of `tokens`: its identity and its creation time.
      `clock` is the latest time anybody has read. */
  datatype Holder = Holder(wake: Wake, tokens: map<nat, int>, clock: int)

  datatype WakeStep =
    | Lock(token: nat, delta: nat, now: int)  // a post that carries a scoped wakelock
    | Settle(n: nat)                          // an acknowledgement, or the release after a failed pending write
    | TakeToken(id: nat, now: int)
    | DropToken(id: nat)
    | ResetAll(now: int)
    | Stop
    | Start

  function Apply(h: Holder, step: WakeStep): Holder {
    match step
    case Lock(token, delta, now) =>
      if token in h.tokens then h.(wake := Increment(h.wake, delta, now), clock := now) else h
    case Settle(n) => h.(wake := Decrement(h.wake, n, NO_START))
    case TakeToken(id, now) =>
      if h.wake.running then Holder(Increment(h.wake, 1, now), h.tokens[id := now], now) else h
    case DropToken(id) =>
      if id in h.tokens then Holder(Decrement(h.wake, 1, h.tokens[id]), h.tokens - {id}, h.clock) else h
    case ResetAll(now) => h.(wake := Reset(h.wake, now), clock := now)
    case Stop => h.(wake := h.wake.(running := false))
    case Start => h.(wake := h.wake.(running := true))
  }

  /** `recent`: the live tokens taken since the last reset. `owed`: the references that no token will give back,
      only an acknowledgement, a failed write or a timeout. */
  datatype Ledger = Ledger(running: bool, live: set<nat>, recent: set<nat>, owed: nat)

  function Record(l: Ledger, step: WakeStep): Ledger {
    match step
    case Lock(token, delta, _) => if l.running && token in l.live then l.(owed := l.owed + delta) else l
    case Settle(n) => if l.running then l.(owed := if n < l.owed then l.owed - n else 0) else l
    case TakeToken(id, _) => if l.running then l.(live := l.live + {id}, recent := l.recent + {id}) else l
    case DropToken(id) =>
      l.(live := l.live - {id}, recent := l.recent - {id},
         owed := if !l.running && id in l.recent then l.owed + 1 else l.owed)
    case ResetAll(_) => l.(recent := {}, owed := if l.running then 0 else l.owed + |l.recent|)
    case Stop => l.(running := false)
    case Start => l.(running := true)
  }

  /** A token is new when it is taken, and time does not run backwards; a reset reads a time strictly after the
      creation of every live token. */
  predicate Timely(h: Holder, step: WakeStep) {
    match step
    case Lock(_, _, now) => h.clock <= now
    case TakeToken(id, now) => id !in h.tokens && h.clock <= now
    case ResetAll(now) => h.clock <= now && AfterEveryToken(h, now)
    case _ => true
  }

  predicate AfterEveryToken(h: Holder, now: int) {
    forall id :: id in h.tokens ==> h.tokens[id] < now
  }

  predicate ClockInv(h: Holder) {
    && h.wake.resetTime <= h.clock && 0 <= h.clock
    && forall id :: id in h.tokens ==> 0 <= h.tokens[id] <= h.clock
  }

  /** The tokens the proxy's time comparison takes for new ones. */
  function SeemRecent(h: Holder): set<nat> {
    set id | id in h.tokens && h.tokens[id] >= h.wake.resetTime
  }

  predicate SameTokens(h: Holder, l: Ledger) {
    l.running == h.wake.running && l.live == h.tokens.Keys && l.recent == SeemRecent(h)
  }

  /** The count is exactly what is still referenced. */
  predicate Exact(h: Holder, l: Ledger) {
    SameTokens(h, l) && h.wake.refCount == |l.recent| + l.owed
  }

  /** The device is never kept awake for more than what is still referenced. */
  predicate Bounded(h: Holder, l: Ledger) {
    SameTokens(h, l) && h.wake.refCount <= |l.recent| + l.owed
  }

  /** A settlement that asks for more than is owed while a new token is live. */
  predicate Overdraws(l: Ledger, step: WakeStep) {
    step.Settle? && l.running && step.n > l.owed && l.recent != {}
  }

  lemma StepKeepsClock(h: Holder, step: WakeStep)
    requires ClockInv(h) && Timely(h, step)
    ensures ClockInv(Apply(h, step))
  {
  }

  lemma StepKeepsTokens(h: Holder, l: Ledger, step: WakeStep)
    requires ClockInv(h) && SameTokens(h, l) && Timely(h, step)
    ensures SameTokens(Apply(h, step), Record(l, step))
  {
    var h', l' := Apply(h, step), Record(l, step);
    match step
    case TakeToken(id, now) =>
      if h.wake.running {
        assert SeemRecent(h') == SeemRecent(h) + {id};
      }
    case DropToken(id) =>
      assert SeemRecent(h') == SeemRecent(h) - {id};
    case _ =>
  }

  /** The reset condition cannot be weakened: a token as young as the reset would go on counting as new. */
  lemma ResetNeedsStrictClock(h: Holder, l: Ledger, now: int)
    requires ClockInv(h) && SameTokens(h, l) && h.clock <= now
    ensures SameTokens(Apply(h, ResetAll(now)), Record(l, ResetAll(now))) <==> AfterEveryToken(h, now)
  {
    var h' := Apply(h, ResetAll(now));
    if !AfterEveryToken(h, now) {
      var id :| id in h.tokens && h.tokens[id] >= now;
      assert id in SeemRecent(h');
    }
  }

  lemma RemoveOne(s: set<nat>, id: nat)
    ensures |s - {id}| == if id in s then |s| - 1 else |s|
  {
    if id !in s {
      assert s - {id} == s;
    }
  }

  lemma StepKeepsBound(h: Holder, l: Ledger, step: WakeStep)
    requires ClockInv(h) && Bounded(h, l) && Timely(h, step)
    ensures Bounded(Apply(h, step), Record(l, step))
  {
    StepKeepsTokens(h, l, step);
    match step
    case DropToken(id) => RemoveOne(l.recent, id);
    case _ =>
  }

  /** The accounting stays exact precisely when the step does not overdraw. */
  lemma StepKeepsExact(h: Holder, l: Ledger, step: WakeStep)
    requires ClockInv(h) && Exact(h, l) && Timely(h, step)
    ensures Exact(Apply(h, step), Record(l, step)) <==> !Overdraws(l, step)
  {
    StepKeepsTokens(h, l, step);
    if step.DropToken? {
      RemoveOne(l.recent, step.id);
      if step.id in l.recent {
        assert l.recent != {};
      }
    }
    if step.Settle? {
      assert l.recent != {} <==> |l.recent| > 0;
    }
  }

  /** Dropping a token from before the last reset cancels nothing; dropping a newer one takes back one reference. */
  lemma DropTokenEffect(h: Holder, l: Ledger, id: nat)
    requires ClockInv(h) && SameTokens(h, l) && id in l.live && h.wake.running
    ensures id !in l.recent ==> Apply(h, DropToken(id)).wake == h.wake
    ensures id in l.recent && h.wake.refCount > 0 ==> Apply(h, DropToken(id)).wake.refCount == h.wake.refCount - 1
  {
  }

  /** "Held iff the count is positive" survives a step unless it is a lock that brings no wake-up event while
      nothing is referenced. */
  predicate EmptyLock(h: Holder, step: WakeStep) {
    step.Lock? && step.token in h.tokens && h.wake.running && h.wake.refCount == 0 && step.delta == 0
  }

  lemma StepKeepsHeld(h: Holder, step: WakeStep)
    requires HeldInv(h.wake)
    ensures HeldInv(Apply(h, step).wake) <==> !EmptyLock(h, step)
  {
    match step
    case Lock(token, delta, now) =>
      IncrementKeepsHeld(h.wake, delta, now);
    case Settle(n) =>
      DecrementKeepsHeld(h.wake, n, NO_START);
    case TakeToken(id, now) =>
      IncrementKeepsHeld(h.wake, 1, now);
    case DropToken(id) =>
      if id in h.tokens {
        DecrementKeepsHeld(h.wake, 1, h.tokens[id]);
      }
    case ResetAll(now) =>
      ResetKeepsHeld(h.wake, now);
    case Stop =>
    case Start =>
  }

  // ---------- Whole runs ----------

  function ApplyAll(h: Holder, steps: seq<WakeStep>): Holder
    decreases |steps|
  {
    if steps == [] then h else ApplyAll(Apply(h, steps[0]), steps[1..])
  }

  function RecordAll(l: Ledger, steps: seq<WakeStep>): Ledger
    decreases |steps|
  {
    if steps == [] then l else RecordAll(Record(l, steps[0]), steps[1..])
  }

  predicate AllTimely(h: Holder, steps: seq<WakeStep>)
    decreases |steps|
  {
    steps == [] || (Timely(h, steps[0]) && AllTimely(Apply(h, steps[0]), steps[1..]))
  }

  predicate NeverOverdraws(l: Ledger, steps: seq<WakeStep>)
    decreases |steps|
  {
    steps == [] || (!Overdraws(l, steps[0]) && NeverOverdraws(Record(l, steps[0]), steps[1..]))
  }

  predicate NeverEmptyLock(h: Holder, steps: seq<WakeStep>)
    decreases |steps|
  {
    steps == [] || (!EmptyLock(h, steps[0]) && NeverEmptyLock(Apply(h, steps[0]), steps[1..]))
  }

  lemma {:induction false} RunKeepsClockAndBound(h: Holder, l: Ledger, steps: seq<WakeStep>)
    requires ClockInv(h) && Bounded(h, l) && AllTimely(h, steps)
    ensures ClockInv(ApplyAll(h, steps)) && Bounded(ApplyAll(h, steps), RecordAll(l, steps))
    decreases |steps|
  {
    if steps == [] {
    } else {
      StepKeepsClock(h, steps[0]);
      StepKeepsBound(h, l, steps[0]);
      RunKeepsClockAndBound(Apply(h, steps[0]), Record(l, steps[0]), steps[1..]);
    }
  }

  /** The accounting is exact in every state of a run. */
  predicate AlwaysExact(h: Holder, l: Ledger, steps: seq<WakeStep>)
    decreases |steps|
  {
    Exact(h, l) && (steps == [] || AlwaysExact(Apply(h, steps[0]), Record(l, steps[0]), steps[1..]))
  }

  predicate AlwaysHeld(h: Holder, steps: seq<WakeStep>)
    decreases |steps|
  {
    HeldInv(h.wake) && (steps == [] || AlwaysHeld(Apply(h, steps[0]), steps[1..]))
  }

  /** From an exact state, a run stays exact throughout precisely when none of its settlements overdraws. */
  lemma {:induction false} RunIsExact(h: Holder, l: Ledger, steps: seq<WakeStep>)
    requires ClockInv(h) && Exact(h, l) && AllTimely(h, steps)
    ensures AlwaysExact(h, l, steps) <==> NeverOverdraws(l, steps)
    ensures NeverOverdraws(l, steps) ==> Exact(ApplyAll(h, steps), RecordAll(l, steps))
    decreases |steps|
  {
    if steps == [] {
    } else {
      StepKeepsClock(h, steps[0]);
      StepKeepsExact(h, l, steps[0]);
      if !Overdraws(l, steps[0]) {
        RunIsExact(Apply(h, steps[0]), Record(l, steps[0]), steps[1..]);
      }
    }
  }

  /** The kernel lock is held iff the count is positive, with acquire and release taking turns, in every state of
      a run precisely when the run has no lock that brings no wake-up event while nothing is referenced. */
  lemma {:induction false} RunIsHeld(h: Holder, steps: seq<WakeStep>)
    requires HeldInv(h.wake)
    ensures AlwaysHeld(h, steps) <==> NeverEmptyLock(h, steps)
    ensures NeverEmptyLock(h, steps) ==> HeldInv(ApplyAll(h, steps).wake)
    decreases |steps|
  {
    if steps == [] {
    } else {
      StepKeepsHeld(h, steps[0]);
      if !EmptyLock(h, steps[0]) {
        RunIsHeld(Apply(h, steps[0]), steps[1..]);
      }
    }
  }

  /** The time of the last step that locked the wake lock, or `since` when there was none. */
  function LastLock(h: Holder, steps: seq<WakeStep>, since: int): int
    decreases |steps|
  {
    if steps == [] then since
    else LastLock(Apply(h, steps[0]), steps[1..],
      match steps[0]
      case Lock(token, _, now) => if h.wake.running && token in h.tokens then now else since
      case TakeToken(_, now) => if h.wake.running then now else since
      case _ => since)
  }

  /** A timeout means that nobody has locked the wake lock for longer than the limit. */
  lemma {:induction false} TimeoutMeansIdle(h: Holder, steps: seq<WakeStep>, now: int, limit: int)
    ensures DidTimeout(ApplyAll(h, steps).wake, now, limit)
       <==> now - LastLock(h, steps, h.wake.timeoutStart) > limit
    decreases |steps|
  {
    if steps == [] {
    } else {
      TimeoutMeansIdle(Apply(h, steps[0]), steps[1..], now, limit);
    }
  }

  // ---------- Where the code falls short ----------

  /** A token and a reset at the same nanosecond: dropping the token cancels a reference posted after the reset. */
  lemma EqualTimesCancelNewer()
    ensures var h0 := Holder(Wake(true, 0, 0, 0, []), map[], 0);
      var h1 := Apply(Apply(h0, TakeToken(1, 5)), ResetAll(5));
      var h2 := Apply(Apply(Apply(h1, TakeToken(2, 6)), Lock(2, 1, 6)), DropToken(2));
      h2.wake.refCount == 1 && Apply(h2, DropToken(1)).wake.refCount == 0
    ensures var h0 := Holder(Wake(true, 0, 0, 0, []), map[], 0);
      !Timely(Apply(h0, TakeToken(1, 5)), ResetAll(5))
  {
    var h1 := Apply(Holder(Wake(true, 0, 0, 0, []), map[], 0), TakeToken(1, 5));
    assert 1 in h1.tokens && h1.tokens[1] == 5;
  }

  /** Stopping and starting again carries the count over: the resets in between move the time, not the count. */
  lemma RestartCarriesCount(h: Holder, stopped: int, started: int)
    ensures var h' := Apply(Apply(Apply(Apply(h, Stop), ResetAll(stopped)), ResetAll(started)), Start);
      h'.wake == h.wake.(running := true, resetTime := started) && h'.tokens == h.tokens
  {
  }
}
