/** The pending-write queue in front of the event FMQ, as pure steps.
    Each step is what one thread does while it holds `mEventQueueWriteMutex`, or the blocking write that the
    writer thread does without it. `fmq` and `log` are history: every event handed to the FMQ with success, and
    every event ever posted with what has become of it. */
module EventQueue {
  import opened SensorTypes

  datatype Limits = Limits(maxPending: nat, capacity: nat)

  /** One element of `mPendingWriteEventsQueue`. */
  datatype Entry = Entry(events: seq<Event>, wakeups: nat)

  /** Where the writer thread is: holding the lock, inside `writeBlocking`, or back from it and waiting for the lock. */
  datatype Phase = Idle | Writing(n: nat) | Written(n: nat)

  datatype Fate = Delivered | Queued | Overflowed | Failed | Cleared

  datatype Slot = Slot(event: Event, fate: Fate)

  datatype Queue = Queue(
    pending: seq<Entry>, sizePending: nat, mostObserved: nat, phase: Phase, fmq: seq<Event>, log: seq<Slot>)

  const EMPTY_QUEUE := Queue([], 0, 0, Idle, [], [])

  function Min(a: nat, b: nat): nat { if a <= b then a else b }

  function Max(a: nat, b: nat): nat { if a <= b then b else a }

  function Take(events: seq<Event>, n: nat): seq<Event> { events[..Min(n, |events|)] }

  function Drop(events: seq<Event>, n: nat): seq<Event> { events[Min(n, |events|)..] }

  /** Subtraction on a 64-bit `size_t`. */
  function SizeMinus(a: nat, b: nat): nat {
    if b <= a then a - b else (a - b) % 0x1_0000_0000_0000_0000
  }

  /** The events at the front of the queue; `[]` when the queue is empty. */
  function Front(q: Queue): seq<Event> {
    if q.pending == [] then [] else q.pending[0].events
  }

  // ---------- The history ----------

  function Slots(events: seq<Event>, fate: Fate): seq<Slot> {
    seq(|events|, i requires 0 <= i < |events| => Slot(events[i], fate))
  }

  /** The events of a log, in the order they were posted, whose fate is one of `fates`. */
  function Select(log: seq<Slot>, fates: set<Fate>): seq<Event> {
    if log == [] then []
    else if log[0].fate in fates then [log[0].event] + Select(log[1..], fates)
    else Select(log[1..], fates)
  }

  /** Every event ever posted, in order. */
  function Posted(log: seq<Slot>): seq<Event> {
    seq(|log|, i requires 0 <= i < |log| => log[i].event)
  }

  /** Gives the first `n` queued slots the fate `fate`. */
  function Mark(log: seq<Slot>, n: nat, fate: Fate): seq<Slot> {
    if log == [] || n == 0 then log
    else if log[0].fate == Queued then [log[0].(fate := fate)] + Mark(log[1..], n - 1, fate)
    else [log[0]] + Mark(log[1..], n, fate)
  }

  // ---------- The steps ----------

  /** How many events `postEventsToMessageQueue` writes to the FMQ itself. */
  function DirectCount(q: Queue, events: seq<Event>, available: nat, writeOk: bool): nat {
    if q.pending == [] && writeOk then Min(|events|, available) else 0
  }

  predicate FitsBehind(c: Limits, q: Queue, left: seq<Event>) {
    left != [] && q.sizePending + |left| <= c.maxPending
  }

  function Post(c: Limits, q: Queue, events: seq<Event>, wakeups: nat, available: nat, writeOk: bool): Queue {
    var direct := DirectCount(q, events, available, writeOk);
    var left := events[direct..];
    var written := q.(fmq := q.fmq + events[..direct], log := q.log + Slots(events[..direct], Delivered));
    if FitsBehind(c, q, left) then
      written.(pending := q.pending + [Entry(left, wakeups)],
               sizePending := q.sizePending + |left|,
               mostObserved := Max(q.mostObserved, q.sizePending + |left|),
               log := written.log + Slots(left, Queued))
    else
      written.(log := written.log + Slots(left, Overflowed))
  }

  function WriteBegin(c: Limits, q: Queue): Queue {
    q.(phase := Writing(Min(|Front(q)|, c.capacity)))
  }

  function WriteDone(q: Queue, ok: bool): Queue
    requires q.phase.Writing?
  {
    var n := q.phase.n;
    if ok then
      q.(phase := Written(n), fmq := q.fmq + Take(Front(q), n), log := Mark(q.log, n, Delivered))
    else
      q.(phase := Written(n), log := Mark(q.log, n, Failed))
  }

  function WriteEnd(c: Limits, q: Queue): Queue
    requires q.phase.Written?
    requires q.pending != []
  {
    var front := q.pending[0];
    q.(phase := Idle,
       sizePending := SizeMinus(q.sizePending, q.phase.n),
       pending := if |front.events| > c.capacity
                  then [front.(events := front.events[c.capacity..])] + q.pending[1..]
                  else q.pending[1..])
  }

  /** What `initializeCommon` does to the queue once the writer thread has been joined. */
  function Clear(q: Queue): Queue {
    q.(pending := [], sizePending := 0, log := Mark(q.log, |q.log|, Cleared))
  }

  // ---------- Invariants ----------

  function TotalSize(pending: seq<Entry>): nat {
    if pending == [] then 0 else |pending[0].events| + TotalSize(pending[1..])
  }

  function Flatten(pending: seq<Entry>): seq<Event> {
    if pending == [] then [] else pending[0].events + Flatten(pending[1..])
  }

  /** The pending events that have not been offered to the FMQ yet: while the writer is back from its blocking
      write but has not popped, the slice it offered is still at the front of the queue. */
  function Remaining(q: Queue): seq<Event> {
    if q.phase.Written? then Drop(Flatten(q.pending), q.phase.n) else Flatten(q.pending)
  }

  /** Nothing posted after a queued event has been delivered, has failed, or has been cleared. */
  predicate Ordered(log: seq<Slot>) {
    log == [] || (if log[0].fate == Queued then Waiting(log) else Ordered(log[1..]))
  }

  predicate Waiting(log: seq<Slot>) {
    forall i :: 0 <= i < |log| ==> log[i].fate == Queued || log[i].fate == Overflowed
  }

  predicate SizeInv(c: Limits, q: Queue) {
    && q.sizePending == TotalSize(q.pending) <= c.maxPending
    && q.sizePending <= q.mostObserved <= c.maxPending
    && forall i :: 0 <= i < |q.pending| ==> q.pending[i].events != []
  }

  predicate PhaseInv(c: Limits, q: Queue) {
    q.phase != Idle ==> q.pending != [] && q.phase.n == Min(|Front(q)|, c.capacity)
  }

  predicate HistoryInv(q: Queue) {
    && q.fmq == Select(q.log, {Delivered})
    && Remaining(q) == Select(q.log, {Queued})
    && Ordered(q.log)
  }

  predicate Inv(c: Limits, q: Queue) {
    SizeInv(c, q) && PhaseInv(c, q) && HistoryInv(q)
  }

  // ---------- Lemmas about the history ----------

  lemma SelectCons(slot: Slot, log: seq<Slot>, fates: set<Fate>)
    ensures Select([slot] + log, fates)
      == if slot.fate in fates then [slot.event] + Select(log, fates) else Select(log, fates)
  {
    assert ([slot] + log)[1..] == log;
  }

  lemma {:induction false} SelectConcat(a: seq<Slot>, b: seq<Slot>, fates: set<Fate>)
    ensures Select(a + b, fates) == Select(a, fates) + Select(b, fates)
  {
    if a == [] {
      assert a + b == b;
    } else {
      SelectConcat(a[1..], b, fates);
      SelectCons(a[0], a[1..] + b, fates);
      assert a + b == [a[0]] + (a[1..] + b);
    }
  }

  lemma {:induction false} SelectSlots(events: seq<Event>, fate: Fate, fates: set<Fate>)
    ensures Select(Slots(events, fate), fates) == if fate in fates then events else []
  {
    if events == [] {
    } else {
      assert Slots(events, fate)[1..] == Slots(events[1..], fate);
      SelectSlots(events[1..], fate, fates);
      assert events == [events[0]] + events[1..];
    }
  }

  lemma DropCons(event: Event, events: seq<Event>, n: nat)
    requires 0 < n <= |events| + 1
    ensures ([event] + events)[n..] == events[n - 1..]
    ensures ([event] + events)[..n] == [event] + events[..n - 1]
  {
  }

  /** Marking one slot at a time: the first slot, and the rest with one mark fewer if the first took one. */
  lemma MarkStep(log: seq<Slot>, n: nat, fate: Fate)
    requires log != [] && n > 0
    ensures log[0].fate == Queued ==>
      Mark(log, n, fate) == [Slot(log[0].event, fate)] + Mark(log[1..], n - 1, fate)
    ensures log[0].fate != Queued ==> Mark(log, n, fate) == [log[0]] + Mark(log[1..], n, fate)
  {
  }

  /** Marking takes the marked events off the front of the queued ones. */
  lemma {:induction false} MarkTakesQueued(log: seq<Slot>, n: nat, fate: Fate)
    requires fate != Queued && n <= |Select(log, {Queued})|
    ensures Select(Mark(log, n, fate), {Queued}) == Select(log, {Queued})[n..]
  {
    if n == 0 {
    } else if log[0].fate == Queued {
      var rest := Select(log[1..], {Queued});
      assert Select(log, {Queued}) == [log[0].event] + rest;
      MarkStep(log, n, fate);
      SelectCons(Slot(log[0].event, fate), Mark(log[1..], n - 1, fate), {Queued});
      DropCons(log[0].event, rest, n);
      assert Select(Mark(log, n, fate), {Queued}) == Select(Mark(log[1..], n - 1, fate), {Queued});
      MarkTakesQueued(log[1..], n - 1, fate);
    } else {
      MarkStep(log, n, fate);
      SelectCons(log[0], Mark(log[1..], n, fate), {Queued});
      MarkTakesQueued(log[1..], n, fate);
    }
  }

  lemma {:induction false} WaitingIsOrdered(log: seq<Slot>)
    requires Waiting(log)
    ensures Ordered(log)
    ensures Select(log, {Delivered}) == []
  {
    if log == [] {
    } else {
      assert Waiting(log[1..]);
      WaitingIsOrdered(log[1..]);
    }
  }

  lemma {:induction false} MarkDeliversWaiting(log: seq<Slot>, n: nat)
    requires Waiting(log) && n <= |Select(log, {Queued})|
    ensures Select(Mark(log, n, Delivered), {Delivered}) == Select(log, {Queued})[..n]
  {
    if log == [] || n == 0 {
      WaitingIsOrdered(log);
    } else {
      assert Waiting(log[1..]);
      MarkStep(log, n, Delivered);
      var rest := Select(log[1..], {Queued});
      if log[0].fate == Queued {
        MarkDeliversWaiting(log[1..], n - 1);
        SelectCons(Slot(log[0].event, Delivered), Mark(log[1..], n - 1, Delivered), {Delivered});
        DropCons(log[0].event, rest, n);
      } else {
        MarkDeliversWaiting(log[1..], n);
        SelectCons(log[0], Mark(log[1..], n, Delivered), {Delivered});
      }
    }
  }

  lemma ConsConcat(event: Event, a: seq<Event>, b: seq<Event>)
    ensures [event] + (a + b) == ([event] + a) + b
  {
  }

  /** Because no settled slot follows a queued one, delivering the oldest queued events extends the delivered
      sequence at its end. */
  lemma {:induction false} MarkDelivers(log: seq<Slot>, n: nat)
    requires Ordered(log) && n <= |Select(log, {Queued})|
    ensures Select(Mark(log, n, Delivered), {Delivered}) == Select(log, {Delivered}) + Select(log, {Queued})[..n]
  {
    if log == [] || n == 0 {
    } else if log[0].fate == Queued {
      WaitingIsOrdered(log);
      MarkDeliversWaiting(log, n);
    } else {
      MarkDelivers(log[1..], n);
      MarkStep(log, n, Delivered);
      SelectCons(log[0], Mark(log[1..], n, Delivered), {Delivered});
      ConsConcat(log[0].event, Select(log[1..], {Delivered}), Select(log[1..], {Queued})[..n]);
    }
  }

  lemma {:induction false} MarkLeavesOthers(log: seq<Slot>, n: nat, fate: Fate, fates: set<Fate>)
    requires fate !in fates && Queued !in fates
    ensures Select(Mark(log, n, fate), fates) == Select(log, fates)
  {
    if log == [] || n == 0 {
    } else {
      MarkStep(log, n, fate);
      if log[0].fate == Queued {
        MarkLeavesOthers(log[1..], n - 1, fate, fates);
        SelectCons(Slot(log[0].event, fate), Mark(log[1..], n - 1, fate), fates);
      } else {
        MarkLeavesOthers(log[1..], n, fate, fates);
        SelectCons(log[0], Mark(log[1..], n, fate), fates);
      }
    }
  }

  lemma {:induction false} MarkKeepsOrder(log: seq<Slot>, n: nat, fate: Fate)
    requires Ordered(log) && fate != Queued
    ensures Ordered(Mark(log, n, fate))
  {
    if log == [] || n == 0 {
    } else {
      MarkStep(log, n, fate);
      if log[0].fate == Queued {
        assert Waiting(log[1..]);
        WaitingIsOrdered(log[1..]);
        MarkKeepsOrder(log[1..], n - 1, fate);
        OrderedCons(Slot(log[0].event, fate), Mark(log[1..], n - 1, fate));
      } else {
        MarkKeepsOrder(log[1..], n, fate);
        OrderedCons(log[0], Mark(log[1..], n, fate));
      }
    }
  }

  lemma OrderedCons(slot: Slot, log: seq<Slot>)
    requires slot.fate != Queued && Ordered(log)
    ensures Ordered([slot] + log)
  {
    assert ([slot] + log)[1..] == log;
  }

  lemma PostedCons(slot: Slot, log: seq<Slot>)
    ensures Posted([slot] + log) == [slot.event] + Posted(log)
  {
  }

  /** Marking changes no event and moves none. */
  lemma {:induction false} MarkKeepsEvents(log: seq<Slot>, n: nat, fate: Fate)
    ensures Posted(Mark(log, n, fate)) == Posted(log)
  {
    if log == [] || n == 0 {
    } else {
      var m := if log[0].fate == Queued then n - 1 else n;
      var first := if log[0].fate == Queued then Slot(log[0].event, fate) else log[0];
      MarkStep(log, n, fate);
      MarkKeepsEvents(log[1..], m, fate);
      PostedCons(first, Mark(log[1..], m, fate));
      PostedCons(log[0], log[1..]);
      assert log == [log[0]] + log[1..];
    }
  }

  /** Marking gives a queued slot the new fate, or leaves it; every other slot it leaves. */
  lemma {:induction false} MarkChanges(log: seq<Slot>, n: nat, fate: Fate)
    ensures |Mark(log, n, fate)| == |log|
    ensures forall i :: 0 <= i < |log| ==>
      Mark(log, n, fate)[i] == log[i] || (log[i].fate == Queued && Mark(log, n, fate)[i] == Slot(log[i].event, fate))
  {
    if log == [] || n == 0 {
    } else {
      var m := if log[0].fate == Queued then n - 1 else n;
      MarkStep(log, n, fate);
      MarkChanges(log[1..], m, fate);
      forall i | 0 < i < |log|
        ensures log[i] == log[1..][i - 1] && Mark(log, n, fate)[i] == Mark(log[1..], m, fate)[i - 1]
      {
      }
    }
  }

  lemma {:induction false} OrderedAppend(log: seq<Slot>, more: seq<Slot>)
    requires Ordered(log) && Waiting(more)
    ensures Ordered(log + more)
  {
    if log == [] {
      assert log + more == more;
      WaitingIsOrdered(more);
    } else if log[0].fate == Queued {
      assert Waiting(log + more);
    } else {
      OrderedAppend(log[1..], more);
      OrderedCons(log[0], log[1..] + more);
      assert log + more == [log[0]] + (log[1..] + more);
    }
  }

  lemma {:induction false} OrderedAppendSettled(log: seq<Slot>, more: seq<Slot>)
    requires Select(log, {Queued}) == [] && Ordered(more)
    ensures Ordered(log + more)
  {
    if log == [] {
      assert log + more == more;
    } else {
      OrderedAppendSettled(log[1..], more);
      OrderedCons(log[0], log[1..] + more);
      assert log + more == [log[0]] + (log[1..] + more);
    }
  }

  lemma {:induction false} OnlyQueuedWait(log: seq<Slot>)
    requires Waiting(log)
    ensures Select(log, {Delivered, Queued}) == Select(log, {Queued})
  {
    if log == [] {
    } else {
      assert Waiting(log[1..]);
      OnlyQueuedWait(log[1..]);
    }
  }

  /** In an ordered log the delivered events followed by the queued ones are the survivors in posting order. */
  lemma {:induction false} DeliveredThenQueued(log: seq<Slot>)
    requires Ordered(log)
    ensures Select(log, {Delivered}) + Select(log, {Queued}) == Select(log, {Delivered, Queued})
  {
    if log == [] {
    } else if log[0].fate == Queued {
      WaitingIsOrdered(log);
      OnlyQueuedWait(log);
    } else {
      DeliveredThenQueued(log[1..]);
      ConsConcat(log[0].event, Select(log[1..], {Delivered}), Select(log[1..], {Queued}));
    }
  }
}
