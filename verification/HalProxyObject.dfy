/** The proxy object. Every method is one stretch of code that runs without giving up its lock; its contract says
    what it does to the queue, the wake lock, the sensors or the modes in terms of the steps defined beside them. */
module HalProxyObject {
  import opened Handles
  import opened SensorTypes
  import opened Wrappers
  import opened EventQueue
  import opened EventQueueSafety
  import opened WakeLock
  import opened Registration
  import opened DynamicSensors
  import opened OperationModes
  import ProxyMachine

  /** A scoped wakelock that its owner has not dropped. */
  datatype ScopedWakelock = ScopedWakelock(locked: bool, createdAt: int)

  /** What `HalProxyCallbackBase::processEvents` does to one event. */
  function TagEvent(event: Event, subHalIndex: nat): Event {
    event.(sensorHandle := SetSubHalIndex(event.sensorHandle, subHalIndex),
           dynamicHandle := if event.kind == DynamicSensorMeta
                            then SetSubHalIndex(event.dynamicHandle, subHalIndex) else event.dynamicHandle)
  }

  function TagEvents(events: seq<Event>, subHalIndex: nat): seq<Event> {
    seq(|events|, i requires 0 <= i < |events| => TagEvent(events[i], subHalIndex))
  }

  /** An event of a sub-HAL is tagged with the key under which `initializeSensorList` loads the sensor. */
  lemma EventsCarryLoadedKeys(lists: seq<seq<SensorInfo>>, i: nat, j: nat, event: Event)
    requires |lists| <= 128 && i < |lists| && j < |lists[i]|
    requires SubHalIndexIsClear(event.sensorHandle) && lists[i][j].sensorHandle == event.sensorHandle
    ensures TagEvent(event, i).sensorHandle in LoadLists(lists).sensors
    ensures RouteOf(|lists|, TagEvent(event, i).sensorHandle) == Some((i, event.sensorHandle))
  {
    EverySensorHasItsOwnKey(lists, i, j, i, j);
    RoutingRoundTrip(event.sensorHandle, i);
  }

  class HalProxy {
    const limits: Limits
    const wakelockTimeout: int

    // Guarded by the event queue mutex; `phase` stands for the writer thread's local variables.
    var pendingWriteEventsQueue: seq<Entry>
    var sizePendingWriteEventsQueue: nat
    var mostEventsObservedPendingWriteEventsQueue: nat
    var phase: Phase
    ghost var fmq: seq<Event>
    ghost var log: seq<Slot>

    // Guarded by the wake-lock mutex.
    var threadsRun: bool
    var wakelockRefCount: nat
    var wakelockTimeoutStartTime: int
    var wakelockTimeoutResetTime: int
    ghost var actions: seq<Action>

    var subHalCount: nat
    var sensors: SensorTable
    var directChannelSubHal: Option<nat>
    var dynamicSensors: SensorTable
    var currentOperationMode: Mode
    // the mode each sub-HAL is in; it is the sub-HALs' own state
    var subHalModes: seq<Mode>

    ghost function Queue(): EventQueue.Queue
      reads this
    {
      EventQueue.Queue(pendingWriteEventsQueue, sizePendingWriteEventsQueue,
                       mostEventsObservedPendingWriteEventsQueue, phase, fmq, log)
    }

    ghost function Wake(): WakeLock.Wake
      reads this
    {
      WakeLock.Wake(threadsRun, wakelockRefCount, wakelockTimeoutStartTime, wakelockTimeoutResetTime, actions)
    }

    ghost predicate Valid()
      reads this
    {
      Inv(limits, Queue()) && |subHalModes| == subHalCount
    }

    constructor (limits: Limits, wakelockTimeout: int, now: int)
      ensures Valid() && Queue() == EMPTY_QUEUE && Wake() == WakeLock.Wake(false, 0, now, now, [])
      ensures this.limits == limits && this.wakelockTimeout == wakelockTimeout
      ensures sensors == dynamicSensors == map[] && directChannelSubHal == None && subHalCount == 0
      ensures currentOperationMode == Normal
    {
      this.limits, this.wakelockTimeout := limits, wakelockTimeout;
      pendingWriteEventsQueue, sizePendingWriteEventsQueue, mostEventsObservedPendingWriteEventsQueue := [], 0, 0;
      phase, fmq, log := Idle, [], [];
      threadsRun, wakelockRefCount, actions := false, 0, [];
      wakelockTimeoutStartTime, wakelockTimeoutResetTime := now, now;
      subHalCount, sensors, dynamicSensors, directChannelSubHal := 0, map[], map[], None;
      currentOperationMode, subHalModes := Normal, [];
    }

    // ---------- The wake lock ----------

    method IncrementRefCountAndMaybeAcquireWakelock(delta: nat, now: int) returns (locked: bool, timeoutStart: int)
      modifies `wakelockRefCount, `wakelockTimeoutStartTime, `actions
      ensures Wake() == Increment(old(Wake()), delta, now)
      ensures locked == old(threadsRun) && (locked ==> timeoutStart == now)
    {
      if !threadsRun {
        return false, NO_START;
      }
      if wakelockRefCount == 0 {
        actions := actions + [Acquire];
      }
      wakelockTimeoutStartTime := now;
      wakelockRefCount := wakelockRefCount + delta;
      return true, wakelockTimeoutStartTime;
    }

    method DecrementRefCountAndMaybeReleaseWakelock(delta: nat, timeoutStart: int)
      modifies `wakelockRefCount, `actions
      ensures Wake() == Decrement(old(Wake()), delta, timeoutStart)
    {
      if !threadsRun {
        return;
      }
      var start := timeoutStart;
      if start == NO_START {
        start := wakelockTimeoutResetTime;
      }
      if wakelockRefCount == 0 || start < wakelockTimeoutResetTime {
        return;
      }
      wakelockRefCount := wakelockRefCount - Min(wakelockRefCount, delta);
      if wakelockRefCount == 0 {
        actions := actions + [Release];
      }
    }

    method ResetSharedWakelock(now: int)
      modifies `wakelockRefCount, `wakelockTimeoutResetTime, `actions
      ensures Wake() == Reset(old(Wake()), now)
    {
      DecrementRefCountAndMaybeReleaseWakelock(wakelockRefCount, NO_START);
      wakelockTimeoutResetTime := now;
    }

    method SharedWakelockDidTimeout(now: int) returns (didTimeout: bool, timeLeft: int)
      ensures didTimeout == DidTimeout(Wake(), now, wakelockTimeout)
      ensures !didTimeout ==> 0 <= timeLeft && timeLeft == wakelockTimeoutStartTime + wakelockTimeout - now
    {
      var duration := now - wakelockTimeoutStartTime;
      didTimeout, timeLeft := duration > wakelockTimeout, 0;
      if !didTimeout {
        timeLeft := wakelockTimeout - duration;
      }
    }

    /** The wake-lock thread up to the point where it blocks on the wake-lock queue. */
    method HandleWakelocksBeforeRead(now: int, later: int) returns (timedOut: bool)
      modifies `wakelockRefCount, `wakelockTimeoutResetTime, `actions
      ensures timedOut == DidTimeout(old(Wake()), now, wakelockTimeout)
      ensures Wake() == if timedOut then Reset(old(Wake()), later) else old(Wake())
    {
      var timeLeft;
      timedOut, timeLeft := SharedWakelockDidTimeout(now);
      if timedOut {
        ResetSharedWakelock(later);
      }
    }

    /** The wake-lock thread after its read: the framework says how many wake-up events it has handled. */
    method HandleWakelocksAfterRead(success: bool, numWakeLocksProcessed: nat)
      modifies `wakelockRefCount, `actions
      ensures Wake() == if success then Decrement(old(Wake()), numWakeLocksProcessed, NO_START) else old(Wake())
    {
      if success {
        DecrementRefCountAndMaybeReleaseWakelock(numWakeLocksProcessed, NO_START);
      }
    }

    method CreateScopedWakelock(lock: bool, now: int) returns (wakelock: ScopedWakelock)
      modifies `wakelockRefCount, `wakelockTimeoutStartTime, `actions
      ensures Wake() == if lock then Increment(old(Wake()), 1, now) else old(Wake())
      ensures wakelock.locked == (lock && old(threadsRun)) && (wakelock.locked ==> wakelock.createdAt == now)
    {
      wakelock := ScopedWakelock(false, NO_START);
      if lock {
        var locked, createdAt := IncrementRefCountAndMaybeAcquireWakelock(1, now);
        wakelock := ScopedWakelock(locked, createdAt);
      }
    }

    method DropScopedWakelock(wakelock: ScopedWakelock)
      modifies `wakelockRefCount, `actions
      ensures Wake() == if wakelock.locked then Decrement(old(Wake()), 1, wakelock.createdAt) else old(Wake())
    {
      if wakelock.locked {
        DecrementRefCountAndMaybeReleaseWakelock(1, wakelock.createdAt);
      }
    }

    // ---------- Posting ----------

    /** `mSensors[handle]`, which adds a default sensor for a handle it does not know. */
    method SensorAt(handle: Handle) returns (sensor: SensorInfo)
      modifies `sensors
      ensures sensors == WithLookup(old(sensors), handle) && sensor == sensors[handle]
    {
      if handle !in sensors {
        sensors := sensors[handle := DEFAULT_SENSOR];
      }
      sensor := sensors[handle];
    }

    method CountNumWakeupEvents(events: seq<Event>, n: nat) returns (numWakeupEvents: nat)
      requires n <= |events|
      modifies `sensors
      ensures numWakeupEvents == WakeCount(WakeHandles(old(sensors)), events[..n])
      ensures sensors == WithLookups(old(sensors), events[..n])
    {
      numWakeupEvents := 0;
      for i := 0 to n
        invariant numWakeupEvents == WakeCount(WakeHandles(old(sensors)), events[..i])
        invariant sensors == WithLookups(old(sensors), events[..i])
      {
        LookupsKeepWakeHandles(old(sensors), events[..i]);
        WakeCountLast(WakeHandles(old(sensors)), events, i);
        assert events[..i + 1][..i] == events[..i];
        var sensor := SensorAt(events[i].sensorHandle);
        if WAKE_UP in sensor.flags {
          assert events[i].sensorHandle in WakeHandles(old(sensors));
          numWakeupEvents := numWakeupEvents + 1;
        } else {
          assert events[i].sensorHandle !in WakeHandles(old(sensors));
        }
      }
    }

    method ProcessEvents(events: seq<Event>, subHalIndex: nat) returns (eventsOut: seq<Event>, numWakeupEvents: nat)
      modifies `sensors
      ensures eventsOut == TagEvents(events, subHalIndex)
      ensures numWakeupEvents == WakeCount(WakeHandles(old(sensors)), eventsOut)
      ensures sensors == WithLookups(old(sensors), eventsOut)
    {
      eventsOut, numWakeupEvents := [], 0;
      for i := 0 to |events|
        invariant eventsOut == TagEvents(events, subHalIndex)[..i]
        invariant numWakeupEvents == WakeCount(WakeHandles(old(sensors)), eventsOut)
        invariant sensors == WithLookups(old(sensors), eventsOut)
      {
        var event := events[i].(sensorHandle := SetSubHalIndex(events[i].sensorHandle, subHalIndex));
        if event.kind == DynamicSensorMeta {
          event := event.(dynamicHandle := SetSubHalIndex(event.dynamicHandle, subHalIndex));
        }
        LookupsKeepWakeHandles(old(sensors), eventsOut);
        WakeCountLast(WakeHandles(old(sensors)), eventsOut + [event], i);
        assert (eventsOut + [event])[..i] == eventsOut && (eventsOut + [event])[..i + 1] == eventsOut + [event];
        eventsOut := eventsOut + [event];
        var sensor := SensorAt(event.sensorHandle);
        if WAKE_UP in sensor.flags {
          assert event.sensorHandle in WakeHandles(old(sensors));
          numWakeupEvents := numWakeupEvents + 1;
        } else {
          assert event.sensorHandle !in WakeHandles(old(sensors));
        }
      }
    }

    /** The part of a post that touches the queue. `available` is what the FMQ says it can take, `writeOk` whether it
        then takes it. */
    method WriteOrQueue(events: seq<Event>, numWakeupEvents: nat, available: nat, writeOk: bool)
      modifies `pendingWriteEventsQueue, `sizePendingWriteEventsQueue, `mostEventsObservedPendingWriteEventsQueue,
        `fmq, `log
      ensures Queue() == Post(limits, old(Queue()), events, numWakeupEvents, available, writeOk)
    {
      var numToWrite := 0;
      if pendingWriteEventsQueue == [] {
        numToWrite := Min(|events|, available);
        if numToWrite > 0 {
          if writeOk {
            fmq := fmq + events[..numToWrite];
          } else {
            numToWrite := 0;
          }
        }
      }
      assert numToWrite == DirectCount(old(Queue()), events, available, writeOk);
      log := log + Slots(events[..numToWrite], Delivered);
      var numLeft := |events| - numToWrite;
      if numToWrite < |events| && sizePendingWriteEventsQueue + numLeft <= limits.maxPending {
        var eventsLeft := events[numToWrite..];
        pendingWriteEventsQueue := pendingWriteEventsQueue + [Entry(eventsLeft, numWakeupEvents)];
        sizePendingWriteEventsQueue := sizePendingWriteEventsQueue + numLeft;
        mostEventsObservedPendingWriteEventsQueue :=
          Max(mostEventsObservedPendingWriteEventsQueue, sizePendingWriteEventsQueue);
        log := log + Slots(eventsLeft, Queued);
      } else {
        log := log + Slots(events[numToWrite..], Overflowed);
      }
    }

    method PostEventsToMessageQueue(events: seq<Event>, numWakeupEvents: nat, wakelock: ScopedWakelock,
                                    available: nat, writeOk: bool, now: int)
      requires Valid()
      modifies `pendingWriteEventsQueue, `sizePendingWriteEventsQueue, `mostEventsObservedPendingWriteEventsQueue,
        `fmq, `log, `wakelockRefCount, `wakelockTimeoutStartTime, `actions
      ensures Queue() == Post(limits, old(Queue()), events, numWakeupEvents, available, writeOk)
      ensures Wake() == if wakelock.locked then Increment(old(Wake()), numWakeupEvents, now) else old(Wake())
      ensures Valid()
    {
      PostKeepsInv(limits, Queue(), events, numWakeupEvents, available, writeOk);
      if wakelock.locked {
        var _, _ := IncrementRefCountAndMaybeAcquireWakelock(numWakeupEvents, now);
      }
      WriteOrQueue(events, numWakeupEvents, available, writeOk);
    }

    /** The callback's `postEvents`. The wake-up count that goes into the queue is the count of the tagged batch. */
    method PostEvents(events: seq<Event>, subHalIndex: nat, wakelock: ScopedWakelock,
                      available: nat, writeOk: bool, now: int)
      requires Valid()
      modifies `pendingWriteEventsQueue, `sizePendingWriteEventsQueue, `mostEventsObservedPendingWriteEventsQueue,
        `fmq, `log, `wakelockRefCount, `wakelockTimeoutStartTime, `actions, `sensors
      ensures var posts := events != [] && old(threadsRun);
        var tagged := TagEvents(events, subHalIndex);
        var count := WakeCount(WakeHandles(old(sensors)), tagged);
        && Queue() == (if posts then Post(limits, old(Queue()), tagged, count, available, writeOk) else old(Queue()))
        && Wake() == (if posts && wakelock.locked then Increment(old(Wake()), count, now) else old(Wake()))
        && sensors == (if posts then WithLookups(old(sensors), tagged) else old(sensors))
        && WakeHandles(sensors) == WakeHandles(old(sensors))
      ensures Valid()
    {
      if events == [] || !threadsRun {
        return;
      }
      LookupsKeepWakeHandles(sensors, TagEvents(events, subHalIndex));
      var processedEvents, numWakeupEvents := ProcessEvents(events, subHalIndex);
      PostEventsToMessageQueue(processedEvents, numWakeupEvents, wakelock, available, writeOk, now);
    }

    // ---------- The writer thread ----------

    /** From taking the front entry to giving up the lock. */
    method HandlePendingWritesBegin()
      requires Valid() && threadsRun && phase.Idle? && pendingWriteEventsQueue != []
      modifies `phase
      ensures Queue() == WriteBegin(limits, old(Queue()))
      ensures Valid()
    {
      WriteBeginKeepsInv(limits, Queue());
      phase := Writing(Min(|pendingWriteEventsQueue[0].events|, limits.capacity));
    }

    /** What a failed write of the front entry gives back. */
    method GiveBackDropped(front: Entry)
      modifies `sensors, `wakelockRefCount, `actions
      ensures var c := ProxyMachine.Config(limits, WakeHandles(old(sensors)), wakelockTimeout);
        Wake() == Decrement(old(Wake()), ProxyMachine.ReleaseAsked(c, front), NO_START)
      ensures WakeHandles(sensors) == WakeHandles(old(sensors))
    {
      if front.wakeups > 0 {
        if |front.events| > limits.capacity {
          LookupsKeepWakeHandles(sensors, front.events[..limits.capacity]);
          var count := CountNumWakeupEvents(front.events, limits.capacity);
          DecrementRefCountAndMaybeReleaseWakelock(count, NO_START);
        } else {
          DecrementRefCountAndMaybeReleaseWakelock(front.wakeups, NO_START);
        }
      }
    }

    /** The outcome of the blocking write, which is acted on without the queue's lock. */
    method HandlePendingWritesDone(ok: bool)
      requires Valid() && phase.Writing?
      modifies `phase, `fmq, `log, `sensors, `wakelockRefCount, `actions
      ensures Queue() == WriteDone(old(Queue()), ok) && Valid()
      ensures var c := ProxyMachine.Config(limits, WakeHandles(old(sensors)), wakelockTimeout);
        Wake() == if ok then old(Wake())
          else Decrement(old(Wake()), ProxyMachine.ReleaseAsked(c, pendingWriteEventsQueue[0]), NO_START)
      ensures WakeHandles(sensors) == WakeHandles(old(sensors))
    {
      WriteDoneKeepsInv(limits, Queue(), ok);
      var front := pendingWriteEventsQueue[0];
      if ok {
        fmq := fmq + front.events[..phase.n];
        log := Mark(log, phase.n, Delivered);
      } else {
        log := Mark(log, phase.n, Failed);
        GiveBackDropped(front);
      }
      phase := Written(phase.n);
    }

    /** From taking the lock back to the end of the round. The subtraction needs no wrap-around. */
    method HandlePendingWritesEnd()
      requires Valid() && phase.Written?
      modifies `phase, `pendingWriteEventsQueue, `sizePendingWriteEventsQueue
      ensures Queue() == WriteEnd(limits, old(Queue())) && Valid()
    {
      WriteEndKeepsInv(limits, Queue());
      var front := pendingWriteEventsQueue[0];
      sizePendingWriteEventsQueue := sizePendingWriteEventsQueue - phase.n;
      if |front.events| > limits.capacity {
        pendingWriteEventsQueue :=
          [front.(events := front.events[limits.capacity..])] + pendingWriteEventsQueue[1..];
      } else {
        pendingWriteEventsQueue := pendingWriteEventsQueue[1..];
      }
      phase := Idle;
    }

    // ---------- Stopping and starting ----------

    method StopThreads()
      modifies `threadsRun
      ensures Wake() == old(Wake()).(running := false)
    {
      threadsRun := false;
    }

    /** From the point where both threads have been joined, so that the writer thread is idle. `initialized` are the
        modes that the sub-HALs' own `initialize` leaves them in. */
    method InitializeCommon(now: int, initialized: seq<Mode>)
      requires Valid() && phase.Idle? && |initialized| == subHalCount
      modifies `pendingWriteEventsQueue, `sizePendingWriteEventsQueue, `log, `threadsRun, `wakelockRefCount,
        `wakelockTimeoutResetTime, `actions, `dynamicSensors, `subHalModes, `currentOperationMode
      ensures Queue() == Clear(old(Queue()))
      ensures Wake() == Reset(old(Wake()).(running := false), now).(running := true)
      ensures dynamicSensors == map[] && currentOperationMode == Normal && subHalModes == initialized
      ensures Valid()
    {
      ClearKeepsInv(limits, Queue());
      StopThreads();
      ResetSharedWakelock(now);
      pendingWriteEventsQueue, sizePendingWriteEventsQueue := [], 0;
      log := Mark(log, |log|, Cleared);
      dynamicSensors := map[];
      threadsRun := true;
      subHalModes := initialized;
      currentOperationMode := Normal;
    }

    // ---------- Sensors ----------

    method SetDirectChannelFlags(sensor: SensorInfo, subHalIndex: nat) returns (r: SensorInfo)
      modifies `directChannelSubHal
      ensures directChannelSubHal == OwnerAfter(old(directChannelSubHal), subHalIndex, sensor)
      ensures r == sensor.(flags := FlagsAfter(old(directChannelSubHal), subHalIndex, sensor))
    {
      r := sensor;
      var supports := sensor.flags * (MASK_DIRECT_REPORT + MASK_DIRECT_CHANNEL) != {};
      if directChannelSubHal == None && supports {
        directChannelSubHal := Some(subHalIndex);
      } else if directChannelSubHal != None && directChannelSubHal != Some(subHalIndex) {
        r := sensor.(flags := sensor.flags - (MASK_DIRECT_REPORT + MASK_DIRECT_CHANNEL));
      }
    }

    /** The sub-HALs that have been found report their sensors. A sub-HAL is in normal mode until told otherwise. */
    method InitializeSensorList(lists: seq<seq<SensorInfo>>)
      requires Valid() && sensors == map[] && directChannelSubHal == None
      modifies `sensors, `directChannelSubHal, `subHalCount, `subHalModes
      ensures Registry(sensors, directChannelSubHal) == LoadLists(lists) && subHalCount == |lists|
      ensures |subHalModes| == |lists| && Agree(subHalModes, Normal)
      ensures Valid()
    {
      for subHalIndex := 0 to |lists|
        invariant Registry(sensors, directChannelSubHal) == LoadLists(lists[..subHalIndex])
      {
        var list := lists[subHalIndex];
        for j := 0 to |list|
          invariant Registry(sensors, directChannelSubHal)
                 == LoadList(LoadLists(lists[..subHalIndex]), list[..j], subHalIndex)
        {
          var sensor := list[j];
          assert list[..j + 1][..j] == list[..j];
          if SubHalIndexIsClear(sensor.sensorHandle) {
            sensor := sensor.(sensorHandle := SetSubHalIndex(sensor.sensorHandle, subHalIndex));
            sensor := SetDirectChannelFlags(sensor, subHalIndex);
            if sensor.typeAsString == "android.sensor.wise_light" {
              sensor := sensor.(kind := Light, typeAsString := "");
            }
            sensors := sensors[sensor.sensorHandle := sensor];
          }
        }
        assert list[..|list|] == list;
        assert lists[..subHalIndex + 1][..subHalIndex] == lists[..subHalIndex];
      }
      assert lists[..|lists|] == lists;
      subHalCount, subHalModes := |lists|, seq(|lists|, _ => Normal);
    }

    /** The check and the translation that precede every call into a sub-HAL. */
    method Route(handle: Handle) returns (target: Option<(nat, Handle)>)
      ensures target == RouteOf(subHalCount, handle)
    {
      if !(ExtractSubHalIndex(handle) < subHalCount) {
        return None;
      }
      target := Some((ExtractSubHalIndex(handle), ClearSubHalIndex(handle)));
    }

    method OnDynamicSensorsConnected(added: seq<SensorInfo>, subHalIndex: nat) returns (told: seq<SensorInfo>)
      modifies `dynamicSensors
      ensures (dynamicSensors, told) == Connect(old(dynamicSensors), added, subHalIndex)
    {
      told := [];
      for i := 0 to |added|
        invariant (dynamicSensors, told) == Connect(old(dynamicSensors), added[..i], subHalIndex)
      {
        var sensor := added[i];
        assert added[..i + 1][..i] == added[..i];
        if SubHalIndexIsClear(sensor.sensorHandle) {
          sensor := sensor.(sensorHandle := SetSubHalIndex(sensor.sensorHandle, subHalIndex));
          dynamicSensors := dynamicSensors[sensor.sensorHandle := sensor];
          told := told + [sensor];
        }
      }
      assert added[..|added|] == added;
    }

    method OnDynamicSensorsDisconnected(removed: seq<Handle>, subHalIndex: nat) returns (told: seq<Handle>)
      modifies `dynamicSensors
      ensures (dynamicSensors, told) == Disconnect(old(dynamicSensors), removed, subHalIndex)
    {
      told := [];
      for i := 0 to |removed|
        invariant (dynamicSensors, told) == Disconnect(old(dynamicSensors), removed[..i], subHalIndex)
      {
        var handle := removed[i];
        assert removed[..i + 1][..i] == removed[..i];
        if SubHalIndexIsClear(handle) {
          handle := SetSubHalIndex(handle, subHalIndex);
          if handle in dynamicSensors {
            dynamicSensors := dynamicSensors - {handle};
            told := told + [handle];
          }
        }
      }
      assert removed[..|removed|] == removed;
    }

    // ---------- Operation mode ----------

    /** `replies` and `undo` are the sub-HALs' answers to the first and to the second round of calls. */
    method SetOperationMode(mode: Mode, replies: seq<Reply>, undo: seq<Reply>) returns (ok: bool)
      requires Valid() && |replies| == |undo| == subHalCount
      modifies `subHalModes, `currentOperationMode
      ensures Valid()
      ensures subHalModes == ModesAfter(old(subHalModes), replies, undo)
      ensures currentOperationMode == CurrentAfter(old(currentOperationMode), mode, replies)
      ensures ok <==> forall i :: 0 <= i < |replies| ==> replies[i].ok
    {
      ok := true;
      var n := |subHalModes|;
      var subHalIndex := 0;
      while subHalIndex < n
        invariant 0 <= subHalIndex <= n == |subHalModes| && ok
        invariant currentOperationMode == old(currentOperationMode)
        invariant forall i :: 0 <= i < subHalIndex ==> replies[i].ok && subHalModes[i] == replies[i].mode
        invariant forall i :: subHalIndex <= i < n ==> subHalModes[i] == old(subHalModes)[i]
      {
        subHalModes := subHalModes[subHalIndex := replies[subHalIndex].mode];
        ok := replies[subHalIndex].ok;
        if !ok {
          break;
        }
        subHalIndex := subHalIndex + 1;
      }
      if !ok {
        for i := 0 to subHalIndex
          invariant |subHalModes| == n && currentOperationMode == old(currentOperationMode)
          invariant forall j :: 0 <= j < i ==> subHalModes[j] == undo[j].mode
          invariant forall j :: i <= j <= subHalIndex ==> subHalModes[j] == replies[j].mode
          invariant forall j :: subHalIndex < j < n ==> subHalModes[j] == old(subHalModes)[j]
        {
          subHalModes := subHalModes[i := undo[i].mode];
        }
      } else {
        currentOperationMode := mode;
      }
      assert FirstRefusal(replies, n) == subHalIndex;
    }
  }
}
