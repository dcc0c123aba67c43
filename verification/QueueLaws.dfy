/** What each step of the queue does to its fields, for every queue and every batch. */
module QueueLaws {
  import Handles
  import opened SensorTypes
  import opened EventQueue

  /** `n` is the smaller of `a` and `b`. */
  predicate IsSmaller(n: nat, a: nat, b: nat) {
    n <= a && n <= b && (n == a || n == b)
  }

  /** How many events of a batch a post hands to the FMQ: with nothing pending and a write that succeeds, as many as
      there is room for; otherwise none. */
  predicate GoesDirectly(q: Queue, events: seq<Event>, available: nat, writeOk: bool, n: nat) {
    if q.pending == [] && writeOk then IsSmaller(n, |events|, available) else n == 0
  }

  /** While the FMQ has room and nothing is pending, no event of a batch is queued or dropped. The rest of a batch is
      queued whole, with the count of the whole batch, when it fits behind what is pending, and dropped whole otherwise;
      and a post touches nothing else. */
  lemma PostOutcome(c: Limits, q: Queue, events: seq<Event>, wakeups: nat, available: nat, writeOk: bool, n: nat)
    requires GoesDirectly(q, events, available, writeOk, n)
    ensures var q' := Post(c, q, events, wakeups, available, writeOk);
      var queued := n < |events| && q.sizePending + |events| - n <= c.maxPending;
      && q'.fmq == q.fmq + events[..n] && q'.phase == q.phase
      && q'.pending == (if queued then q.pending + [Entry(events[n..], wakeups)] else q.pending)
      && q'.sizePending == q.sizePending + (if queued then |events| - n else 0)
      && q'.mostObserved == (if queued && q'.sizePending > q.mostObserved then q'.sizePending else q.mostObserved)
      && |q'.log| == |q.log| + |events|
      && (forall i :: 0 <= i < |q.log| ==> q'.log[i] == q.log[i])
      && (forall i :: 0 <= i < |events| ==>
            q'.log[|q.log| + i] == Slot(events[i], if i < n then Delivered else if queued then Queued else Overflowed))
  {
    assert DirectCount(q, events, available, writeOk) == n;
  }

  /** A round of the writer thread offers the first events of the front entry, as many as the FMQ holds. If the write
      succeeds they are in the FMQ; in any case they are gone from the queue, and the rest of the entry keeps its place
      and its count. */
  lemma RoundOutcome(c: Limits, q: Queue, ok: bool, n: nat)
    requires q.phase.Idle? && q.pending != [] && IsSmaller(n, |q.pending[0].events|, c.capacity)
    requires n <= q.sizePending
    ensures var front := q.pending[0];
      var q' := WriteEnd(c, WriteDone(WriteBegin(c, q), ok));
      && q'.fmq == (if ok then q.fmq + front.events[..n] else q.fmq)
      && q'.pending == (if n < |front.events| then [Entry(front.events[n..], front.wakeups)] else []) + q.pending[1..]
      && q'.sizePending == q.sizePending - n && q'.mostObserved == q.mostObserved && q'.phase == Idle
  {
    assert Min(|Front(q)|, c.capacity) == n;
  }

  /** While the blocking write is under way nothing but the outcome changes: the entry it works on stays queued,
      whole. */
  lemma WriteOutcome(c: Limits, q: Queue, ok: bool, n: nat)
    requires q.phase.Idle? && q.pending != [] && IsSmaller(n, |q.pending[0].events|, c.capacity)
    ensures WriteBegin(c, q) == q.(phase := Writing(n))
    ensures var q' := WriteDone(WriteBegin(c, q), ok);
      && q'.fmq == (if ok then q.fmq + q.pending[0].events[..n] else q.fmq) && q'.phase == Written(n)
      && q'.pending == q.pending && q'.sizePending == q.sizePending && q'.mostObserved == q.mostObserved
  {
    assert Min(|Front(q)|, c.capacity) == n;
  }

  /** Clearing leaves no event pending, and no event that is still waiting for its fate; the FMQ and the lifetime
      maximum it leaves alone. */
  lemma ClearOutcome(q: Queue)
    ensures var q' := Clear(q);
      && q'.pending == [] && q'.sizePending == 0
      && q'.fmq == q.fmq && q'.mostObserved == q.mostObserved && q'.phase == q.phase
      && |q'.log| == |q.log|
      && forall i :: 0 <= i < |q.log| ==>
           q'.log[i] == Slot(q.log[i].event, if q.log[i].fate == Queued then Cleared else q.log[i].fate)
  {
    MarksAll(q.log, |q.log|, Cleared);
  }

  lemma {:induction false} MarksAll(log: seq<Slot>, n: nat, fate: Fate)
    requires n >= |log|
    ensures |Mark(log, n, fate)| == |log|
    ensures forall i :: 0 <= i < |log| ==>
      Mark(log, n, fate)[i] == Slot(log[i].event, if log[i].fate == Queued then fate else log[i].fate)
  {
    if log == [] {
    } else {
      var m := if log[0].fate == Queued then n - 1 else n;
      MarkStep(log, n, fate);
      MarksAll(log[1..], m, fate);
      forall i | 0 < i < |log|
        ensures log[i] == log[1..][i - 1] && Mark(log, n, fate)[i] == Mark(log[1..], m, fate)[i - 1]
      {
      }
    }
  }

  /** A failed or successful write settles the oldest queued events, and no others. */
  lemma {:induction false} MarkSettlesOldest(log: seq<Slot>, n: nat, fate: Fate, i: nat)
    requires i < |log| && fate != Queued
    ensures |Mark(log, n, fate)| == |log|
    ensures Mark(log, n, fate)[i] == Slot(log[i].event,
      if log[i].fate == Queued && |Select(log[..i], {Queued})| < n then fate else log[i].fate)
  {
    MarkChanges(log, n, fate);
    if n == 0 {
    } else {
      var m := if log[0].fate == Queued then n - 1 else n;
      MarkStep(log, n, fate);
      if i > 0 {
        MarkSettlesOldest(log[1..], m, fate, i - 1);
        assert log[..i] == [log[0]] + log[1..][..i - 1];
        SelectCons(log[0], log[1..][..i - 1], {Queued});
        assert log[i] == log[1..][i - 1] && Mark(log, n, fate)[i] == Mark(log[1..], m, fate)[i - 1];
      } else {
        assert log[..0] == [];
      }
    }
  }

  /** The wake-up count is the number of events whose handle is a wake-up handle. */
  lemma {:induction false} WakeCountIsCardinality(wake: set<Handles.Handle>, events: seq<Event>)
    ensures WakeCount(wake, events) == |set i | 0 <= i < |events| && events[i].sensorHandle in wake|
  {
    var n := |events| - 1;
    if events == [] {
    } else {
      WakeCountLast(wake, events, n);
      WakeCountIsCardinality(wake, events[..n]);
      var before := set i | 0 <= i < n && events[i].sensorHandle in wake;
      assert (set i | 0 <= i < |events[..n]| && events[..n][i].sensorHandle in wake) == before;
      assert events[..n + 1] == events;
      assert (set i | 0 <= i < |events| && events[i].sensorHandle in wake)
          == before + if events[n].sensorHandle in wake then {n} else {};
    }
  }

  /** A sensor wakes the device when bit 0 of its flags is set. */
  lemma WakeHandlesByFlag(sensors: SensorTable, h: Handles.Handle)
    ensures h in WakeHandles(sensors) <==> h in sensors && 0 in sensors[h].flags
  {
  }
}
