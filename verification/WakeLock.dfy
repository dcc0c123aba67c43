/** The shared, reference-counted wake lock as pure steps, each taken under `mWakelockMutex`. */
module WakeLock {

  /** The calls to `acquire_wake_lock` and `release_wake_lock`. */
  datatype Action = Acquire | Release

  /** `running` is `mThreadsRun`; `actions` is history. */
  datatype Wake = Wake(running: bool, refCount: nat, timeoutStart: int, resetTime: int, actions: seq<Action>)

  /** The default argument that stands for "the time of the last reset". */
  const NO_START := -1

  function Increment(w: Wake, delta: nat, now: int): Wake {
    if !w.running then w
    else w.(actions := if w.refCount == 0 then w.actions + [Acquire] else w.actions,
            timeoutStart := now,
            refCount := w.refCount + delta)
  }

  function Decrement(w: Wake, delta: nat, timeoutStart: int): Wake {
    var start := if timeoutStart == NO_START then w.resetTime else timeoutStart;
    if !w.running || w.refCount == 0 || start < w.resetTime then w
    else
      var left := if delta < w.refCount then w.refCount - delta else 0;
      w.(refCount := left, actions := if left == 0 then w.actions + [Release] else w.actions)
  }

  /** While the threads are stopped this moves the reset time and leaves the count alone. */
  function Reset(w: Wake, now: int): Wake {
    Decrement(w, w.refCount, NO_START).(resetTime := now)
  }

  predicate DidTimeout(w: Wake, now: int, limit: int) {
    now - w.timeoutStart > limit
  }

  // ---------- The kernel's view ----------

  /** Acquire and release take turns, and the first call is an acquire. */
  predicate Alternates(actions: seq<Action>) {
    forall i :: 0 <= i < |actions| ==> actions[i] == if i % 2 == 0 then Acquire else Release
  }

  predicate Held(actions: seq<Action>) {
    actions != [] && actions[|actions| - 1] == Acquire
  }

  predicate HeldInv(w: Wake) {
    Alternates(w.actions) && (Held(w.actions) <==> w.refCount > 0)
  }

  /** An increment keeps "held iff the count is positive" unless it adds nothing to a zero count. */
  lemma IncrementKeepsHeld(w: Wake, delta: nat, now: int)
    requires HeldInv(w)
    ensures HeldInv(Increment(w, delta, now)) <==> !(w.running && w.refCount == 0 && delta == 0)
  {
    var w' := Increment(w, delta, now);
    if w.running && w.refCount == 0 {
      assert |w.actions| % 2 == 0;
      assert Held(w'.actions);
    }
  }

  lemma DecrementKeepsHeld(w: Wake, delta: nat, timeoutStart: int)
    requires HeldInv(w)
    ensures HeldInv(Decrement(w, delta, timeoutStart))
  {
    var w' := Decrement(w, delta, timeoutStart);
    if w'.actions != w.actions {
      assert |w.actions| % 2 == 1;
      assert !Held(w'.actions);
    }
  }

  lemma ResetKeepsHeld(w: Wake, now: int)
    requires HeldInv(w)
    ensures HeldInv(Reset(w, now))
    ensures Reset(w, now).refCount == if w.running then 0 else w.refCount
  {
    DecrementKeepsHeld(w, w.refCount, NO_START);
  }
}
