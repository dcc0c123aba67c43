/** Every step of the pending-write queue keeps its invariants. */
module EventQueueSafety {
  import opened SensorTypes
  import opened EventQueue

  lemma {:induction false} TotalSizeConcat(a: seq<Entry>, b: seq<Entry>)
    ensures TotalSize(a + b) == TotalSize(a) + TotalSize(b)
    ensures Flatten(a + b) == Flatten(a) + Flatten(b)
  {
    if a == [] {
      assert a + b == b;
    } else {
      assert (a + b)[1..] == a[1..] + b;
      TotalSizeConcat(a[1..], b);
    }
  }

  /** `mSizePendingWriteEventsQueue` counts exactly the events a flattened queue holds. */
  lemma {:induction false} FlattenLength(pending: seq<Entry>)
    ensures |Flatten(pending)| == TotalSize(pending)
  {
    if pending == [] {
    } else {
      FlattenLength(pending[1..]);
    }
  }

  /** The log of a post, whatever part of the batch is written directly. */
  lemma PostLog(c: Limits, q: Queue, events: seq<Event>, wakeups: nat, available: nat, writeOk: bool)
    ensures var q' := Post(c, q, events, wakeups, available, writeOk);
      var direct := DirectCount(q, events, available, writeOk);
      var tail := if FitsBehind(c, q, events[direct..]) then Queued else Overflowed;
      q'.log == q.log + (Slots(events[..direct], Delivered) + Slots(events[direct..], tail))
  {
  }

  /** Posting records the whole batch, in order, after everything posted before. */
  lemma PostRecordsBatch(c: Limits, q: Queue, events: seq<Event>, wakeups: nat, available: nat, writeOk: bool)
    ensures Posted(Post(c, q, events, wakeups, available, writeOk).log) == Posted(q.log) + events
  {
    PostLog(c, q, events, wakeups, available, writeOk);
  }

  /** What a post adds to the part of the log that has one of the given fates. */
  lemma PostSelects(c: Limits, q: Queue, events: seq<Event>, wakeups: nat, available: nat, writeOk: bool,
                    fates: set<Fate>)
    ensures var q' := Post(c, q, events, wakeups, available, writeOk);
      var direct := DirectCount(q, events, available, writeOk);
      var tail := if FitsBehind(c, q, events[direct..]) then Queued else Overflowed;
      Select(q'.log, fates) == Select(q.log, fates)
        + ((if Delivered in fates then events[..direct] else []) + (if tail in fates then events[direct..] else []))
  {
    var direct := DirectCount(q, events, available, writeOk);
    var tail := if FitsBehind(c, q, events[direct..]) then Queued else Overflowed;
    var head, rest := Slots(events[..direct], Delivered), Slots(events[direct..], tail);
    PostLog(c, q, events, wakeups, available, writeOk);
    SelectConcat(q.log, head + rest, fates);
    SelectConcat(head, rest, fates);
    SelectSlots(events[..direct], Delivered, fates);
    SelectSlots(events[direct..], tail, fates);
  }

  lemma PostKeepsOrder(c: Limits, q: Queue, events: seq<Event>, wakeups: nat, available: nat, writeOk: bool)
    requires Inv(c, q)
    ensures Ordered(Post(c, q, events, wakeups, available, writeOk).log)
  {
    var direct := DirectCount(q, events, available, writeOk);
    var tail := if FitsBehind(c, q, events[direct..]) then Queued else Overflowed;
    var head, rest := Slots(events[..direct], Delivered), Slots(events[direct..], tail);
    PostLog(c, q, events, wakeups, available, writeOk);
    if direct == 0 {
      assert head + rest == rest;
      OrderedAppend(q.log, rest);
    } else {
      WaitingIsOrdered(rest);
      DeliveredPrefix(events[..direct], rest);
      OrderedAppendSettled(q.log, head + rest);
    }
  }

  lemma PostAppendsRemaining(c: Limits, q: Queue, events: seq<Event>, wakeups: nat, available: nat, writeOk: bool)
    requires Inv(c, q)
    ensures var left := events[DirectCount(q, events, available, writeOk)..];
      Remaining(Post(c, q, events, wakeups, available, writeOk))
        == Remaining(q) + (if FitsBehind(c, q, left) then left else [])
  {
    var left := events[DirectCount(q, events, available, writeOk)..];
    var q' := Post(c, q, events, wakeups, available, writeOk);
    if FitsBehind(c, q, left) {
      FlattenAppend(q.pending, Entry(left, wakeups));
      assert Flatten(q'.pending) == Flatten(q.pending) + left;
      if q.phase.Written? {
        FrontIsWithin(q);
      }
    } else {
      assert q'.pending == q.pending;
    }
  }

  lemma FlattenAppend(pending: seq<Entry>, entry: Entry)
    ensures Flatten(pending + [entry]) == Flatten(pending) + entry.events
  {
    TotalSizeConcat(pending, [entry]);
    assert Flatten([entry]) == entry.events + Flatten([entry][1..]);
  }

  lemma PostKeepsHistory(c: Limits, q: Queue, events: seq<Event>, wakeups: nat, available: nat, writeOk: bool)
    requires Inv(c, q)
    ensures HistoryInv(Post(c, q, events, wakeups, available, writeOk))
  {
    PostKeepsOrder(c, q, events, wakeups, available, writeOk);
    PostAppendsRemaining(c, q, events, wakeups, available, writeOk);
    PostSelects(c, q, events, wakeups, available, writeOk, {Delivered});
    PostSelects(c, q, events, wakeups, available, writeOk, {Queued});
  }

  lemma FrontIsWithin(q: Queue)
    requires q.pending != []
    ensures |Front(q)| <= |Flatten(q.pending)|
    ensures forall n :: 0 <= n <= |Front(q)| ==> Flatten(q.pending)[..n] == Front(q)[..n]
  {
  }

  lemma {:induction false} DeliveredPrefix(events: seq<Event>, more: seq<Slot>)
    requires Ordered(more)
    ensures Ordered(Slots(events, Delivered) + more)
  {
    if events == [] {
      assert Slots(events, Delivered) + more == more;
    } else {
      assert (Slots(events, Delivered) + more)[1..] == Slots(events[1..], Delivered) + more;
      DeliveredPrefix(events[1..], more);
    }
  }

  lemma PostKeepsInv(c: Limits, q: Queue, events: seq<Event>, wakeups: nat, available: nat, writeOk: bool)
    requires Inv(c, q)
    ensures Inv(c, Post(c, q, events, wakeups, available, writeOk))
  {
    PostKeepsHistory(c, q, events, wakeups, available, writeOk);
    var left := events[DirectCount(q, events, available, writeOk)..];
    TotalSizeConcat(q.pending, [Entry(left, wakeups)]);
  }

  lemma WriteBeginKeepsInv(c: Limits, q: Queue)
    requires Inv(c, q) && q.phase.Idle? && q.pending != []
    ensures Inv(c, WriteBegin(c, q))
  {
  }

  lemma WriteDoneKeepsInv(c: Limits, q: Queue, ok: bool)
    requires Inv(c, q) && q.phase.Writing?
    ensures Inv(c, WriteDone(q, ok))
  {
    var n := q.phase.n;
    var fate := if ok then Delivered else Failed;
    FrontIsWithin(q);
    MarkTakesQueued(q.log, n, fate);
    MarkKeepsOrder(q.log, n, fate);
    if ok {
      MarkDelivers(q.log, n);
    } else {
      MarkLeavesOthers(q.log, n, fate, {Delivered});
    }
  }

  lemma WriteEndKeepsInv(c: Limits, q: Queue)
    requires Inv(c, q) && q.phase.Written?
    ensures Inv(c, WriteEnd(c, q))
    // the subtraction at the pop never wraps around
    ensures q.phase.n <= q.sizePending
  {
    var q' := WriteEnd(c, q);
    assert Flatten(q.pending) == Front(q) + Flatten(q.pending[1..]);
    if |Front(q)| > c.capacity {
      assert q'.pending[1..] == q.pending[1..];
    }
    assert Flatten(q'.pending) == Drop(Flatten(q.pending), q.phase.n);
  }

  lemma ClearKeepsInv(c: Limits, q: Queue)
    requires Inv(c, q) && q.phase.Idle?
    ensures Inv(c, Clear(q))
  {
    SelectBound(q.log, {Queued});
    MarkAll(q.log, Cleared);
    MarkKeepsOrder(q.log, |q.log|, Cleared);
    MarkLeavesOthers(q.log, |q.log|, Cleared, {Delivered});
  }

  lemma {:induction false} SelectBound(log: seq<Slot>, fates: set<Fate>)
    ensures |Select(log, fates)| <= |log|
  {
    if log == [] {
    } else {
      SelectBound(log[1..], fates);
    }
  }

  lemma {:induction false} MarkAll(log: seq<Slot>, fate: Fate)
    requires fate != Queued
    ensures forall n :: n >= |log| ==> Select(Mark(log, n, fate), {Queued}) == []
  {
    if log == [] {
    } else {
      MarkAll(log[1..], fate);
      forall n | n >= |log|
        ensures Select(Mark(log, n, fate), {Queued}) == []
      {
        assert Mark(log, n, fate)[1..] == Mark(log[1..], if log[0].fate == Queued then n - 1 else n, fate);
      }
    }
  }

  /** Events reach the FMQ in the order they were posted: the events written so far, followed by those not yet
      offered, are the posted sequence with only the dropped and cleared slices taken out. */
  lemma FirstInFirstOut(c: Limits, q: Queue)
    requires Inv(c, q)
    ensures q.fmq + Remaining(q) == Select(q.log, {Delivered, Queued})
  {
    DeliveredThenQueued(q.log);
  }
}
