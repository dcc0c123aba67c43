/** The events and sensor descriptions that sub-HALs hand to the proxy. */
module SensorTypes {
  import opened Handles

  /** A flag word, as the set of the positions of its one bits. */
  type Flags = set<nat>

  // Bits of `V1_0::SensorFlagBits`, from the android.hardware.sensors@1.0 interface: WAKE_UP is 0x1,
  // MASK_DIRECT_REPORT is 0x380 and MASK_DIRECT_CHANNEL is 0xC00.
  const WAKE_UP: nat := 0
  const MASK_DIRECT_REPORT: Flags := {7, 8, 9}
  const MASK_DIRECT_CHANNEL: Flags := {10, 11}

  datatype SensorType = Light | HingeAngle | DynamicSensorMeta | OtherType(code: int)

  datatype SensorInfo = SensorInfo(
    sensorHandle: Handle, flags: Flags, kind: SensorType, typeAsString: string, name: string)

  /** `dynamicHandle` is the handle inside the union of an event; it means something only when the type is
      `DynamicSensorMeta`. */
  datatype Event = Event(sensorHandle: Handle, kind: SensorType, dynamicHandle: Handle, payload: int)

  type SensorTable = map<Handle, SensorInfo>

  /** What `mSensors[handle]` inserts and returns for a handle that was never loaded. */
  const DEFAULT_SENSOR := SensorInfo(Handle(0, 0), {}, OtherType(0), "", "")

  /** The handles that the table marks as waking the device. */
  function WakeHandles(sensors: SensorTable): set<Handle> {
    set h | h in sensors && WAKE_UP in sensors[h].flags
  }

  /** `mSensors` after its `operator[]` has been asked for a handle. */
  function WithLookup(sensors: SensorTable, handle: Handle): SensorTable {
    if handle in sensors then sensors else sensors[handle := DEFAULT_SENSOR]
  }

  function WithLookups(sensors: SensorTable, events: seq<Event>): SensorTable {
    if events == [] then sensors
    else WithLookup(WithLookups(sensors, events[..|events| - 1]), events[|events| - 1].sensorHandle)
  }

  /** Looking handles up may add sensors, but none that wakes the device, and changes no sensor. */
  lemma {:induction false} LookupsKeepWakeHandles(sensors: SensorTable, events: seq<Event>)
    ensures WakeHandles(WithLookups(sensors, events)) == WakeHandles(sensors)
    ensures forall h :: h in sensors ==>
      h in WithLookups(sensors, events) && WithLookups(sensors, events)[h] == sensors[h]
  {
    if events == [] {
    } else {
      LookupsKeepWakeHandles(sensors, events[..|events| - 1]);
    }
  }

  /** The number of events that come from a wake-up sensor. */
  function WakeCount(wake: set<Handle>, events: seq<Event>): nat {
    if events == [] then 0
    else (if events[0].sensorHandle in wake then 1 else 0) + WakeCount(wake, events[1..])
  }

  lemma {:induction false} WakeCountConcat(wake: set<Handle>, a: seq<Event>, b: seq<Event>)
    ensures WakeCount(wake, a + b) == WakeCount(wake, a) + WakeCount(wake, b)
  {
    if a == [] {
      assert a + b == b;
    } else {
      assert (a + b)[1..] == a[1..] + b;
      WakeCountConcat(wake, a[1..], b);
    }
  }

  lemma WakeCountLast(wake: set<Handle>, events: seq<Event>, n: nat)
    requires n < |events|
    ensures WakeCount(wake, events[..n + 1])
         == WakeCount(wake, events[..n]) + if events[n].sensorHandle in wake then 1 else 0
  {
    assert events[..n + 1] == events[..n] + [events[n]];
    WakeCountConcat(wake, events[..n], [events[n]]);
    assert [events[n]][1..] == [];
  }

  /** The count of a batch is the count of any prefix plus the count of what follows it. */
  lemma WakeCountSplit(wake: set<Handle>, events: seq<Event>, n: nat)
    requires n <= |events|
    ensures WakeCount(wake, events) == WakeCount(wake, events[..n]) + WakeCount(wake, events[n..])
  {
    assert events == events[..n] + events[n..];
    WakeCountConcat(wake, events[..n], events[n..]);
  }
}
