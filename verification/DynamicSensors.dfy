/** Sensors that come and go: what `mDynamicSensors` holds and what the framework is told. */
module DynamicSensors {
  import opened Handles
  import opened SensorTypes

  /** A call of `onDynamicSensorsConnected` or `onDynamicSensorsDisconnected`, in lock order. */
  datatype Call =
    | Connected(sensors: seq<SensorInfo>, index: nat)
    | Disconnected(handles: seq<Handle>, index: nat)

  // ---------- The callbacks ----------

  function Tagged(sensor: SensorInfo, index: nat): SensorInfo {
    sensor.(sensorHandle := SetSubHalIndex(sensor.sensorHandle, index))
  }

  /** The map after `onDynamicSensorsConnected`, and the sensors the framework is told about. */
  function Connect(table: SensorTable, sensors: seq<SensorInfo>, index: nat): (SensorTable, seq<SensorInfo>) {
    if sensors == [] then (table, [])
    else
      var (before, told) := Connect(table, sensors[..|sensors| - 1], index);
      var sensor := sensors[|sensors| - 1];
      if !SubHalIndexIsClear(sensor.sensorHandle) then (before, told)
      else (before[Tagged(sensor, index).sensorHandle := Tagged(sensor, index)], told + [Tagged(sensor, index)])
  }

  /** The map after `onDynamicSensorsDisconnected`, and the handles the framework is told about. */
  function Disconnect(table: SensorTable, handles: seq<Handle>, index: nat): (SensorTable, seq<Handle>) {
    if handles == [] then (table, [])
    else
      var (before, told) := Disconnect(table, handles[..|handles| - 1], index);
      var handle := handles[|handles| - 1];
      var key := SetSubHalIndex(handle, index);
      if SubHalIndexIsClear(handle) && key in before then (before - {key}, told + [key]) else (before, told)
  }

  function AfterCall(table: SensorTable, call: Call): SensorTable {
    match call
    case Connected(sensors, index) => Connect(table, sensors, index).0
    case Disconnected(handles, index) => Disconnect(table, handles, index).0
  }

  function AfterCalls(calls: seq<Call>): SensorTable {
    if calls == [] then map[] else AfterCall(AfterCalls(calls[..|calls| - 1]), calls[|calls| - 1])
  }

  // ---------- An independent account: the last report about each handle ----------

  /** What a call last says about a key: nothing, that it is gone, or that it is there as the given sensor. */
  datatype Word = Silent | Gone | There(sensor: SensorInfo)

  function LastConnect(sensors: seq<SensorInfo>, index: nat, key: Handle): Word {
    if sensors == [] then Silent
    else
      var sensor := sensors[|sensors| - 1];
      if SubHalIndexIsClear(sensor.sensorHandle) && SetSubHalIndex(sensor.sensorHandle, index) == key
      then There(Tagged(sensor, index))
      else LastConnect(sensors[..|sensors| - 1], index, key)
  }

  predicate Mentions(handles: seq<Handle>, index: nat, key: Handle) {
    exists j :: 0 <= j < |handles| && SubHalIndexIsClear(handles[j]) && SetSubHalIndex(handles[j], index) == key
  }

  function WordOf(call: Call, key: Handle): Word {
    match call
    case Connected(sensors, index) => LastConnect(sensors, index, key)
    case Disconnected(handles, index) => if Mentions(handles, index, key) then Gone else Silent
  }

  function LastWord(calls: seq<Call>, key: Handle): Word {
    if calls == [] then Silent
    else if WordOf(calls[|calls| - 1], key) != Silent then WordOf(calls[|calls| - 1], key)
    else LastWord(calls[..|calls| - 1], key)
  }

  lemma {:induction false} ConnectFollowsWords(table: SensorTable, sensors: seq<SensorInfo>, index: nat, key: Handle)
    ensures var after := Connect(table, sensors, index).0;
      match LastConnect(sensors, index, key)
      case There(sensor) => key in after && after[key] == sensor
      case _ => (key in after <==> key in table) && (key in table ==> after[key] == table[key])
  {
    if sensors == [] {
    } else {
      ConnectFollowsWords(table, sensors[..|sensors| - 1], index, key);
    }
  }

  lemma MentionsLast(handles: seq<Handle>, index: nat, key: Handle)
    requires handles != []
    ensures var last := handles[|handles| - 1];
      Mentions(handles, index, key) <==>
        (|| Mentions(handles[..|handles| - 1], index, key)
         || (SubHalIndexIsClear(last) && SetSubHalIndex(last, index) == key))
  {
    var n := |handles| - 1;
    if Mentions(handles, index, key) {
      var j :| 0 <= j < |handles| && SubHalIndexIsClear(handles[j]) && SetSubHalIndex(handles[j], index) == key;
      assert j < n ==> handles[..n][j] == handles[j];
    }
    if Mentions(handles[..n], index, key) {
      var j :| 0 <= j < n && SubHalIndexIsClear(handles[..n][j]) && SetSubHalIndex(handles[..n][j], index) == key;
      assert handles[j] == handles[..n][j];
    }
  }

  /** A disconnect removes the keys it mentions. It reports exactly those of them that were connected. */
  lemma {:induction false} DisconnectIsExact(table: SensorTable, handles: seq<Handle>, index: nat, key: Handle)
    ensures var (after, told) := Disconnect(table, handles, index);
      && (key in after <==> key in table && !Mentions(handles, index, key))
      && (key in after ==> after[key] == table[key])
      && (key in told <==> key in table && Mentions(handles, index, key))
  {
    if handles == [] {
    } else {
      DisconnectIsExact(table, handles[..|handles| - 1], index, key);
      MentionsLast(handles, index, key);
    }
  }

  /** A handle that is listed twice is reported once. */
  lemma {:induction false} DisconnectReportsOnce(table: SensorTable, handles: seq<Handle>, index: nat)
    ensures var told := Disconnect(table, handles, index).1;
      forall i, j :: 0 <= i < j < |told| ==> told[i] != told[j]
  {
    if handles == [] {
    } else {
      var n := |handles| - 1;
      DisconnectReportsOnce(table, handles[..n], index);
      DisconnectIsExact(table, handles[..n], index, SetSubHalIndex(handles[n], index));
    }
  }

  function WellFormed(sensors: seq<SensorInfo>): seq<SensorInfo> {
    if sensors == [] then []
    else
      var last := sensors[|sensors| - 1];
      WellFormed(sensors[..|sensors| - 1]) + (if SubHalIndexIsClear(last.sensorHandle) then [last] else [])
  }

  /** The framework is told of every well-formed connected sensor, tagged and in order. */
  lemma {:induction false} ConnectReportsAll(table: SensorTable, sensors: seq<SensorInfo>, index: nat)
    ensures var told, all := Connect(table, sensors, index).1, WellFormed(sensors);
      |told| == |all| && forall j :: 0 <= j < |told| ==> told[j] == Tagged(all[j], index)
  {
    if sensors == [] {
    } else {
      ConnectReportsAll(table, sensors[..|sensors| - 1], index);
    }
  }

  /** Over any sequence of calls, the map holds exactly the keys whose last report was "connected", each with the
      sensor of that report. */
  lemma {:induction false} MapIsLastWord(calls: seq<Call>, key: Handle)
    ensures match LastWord(calls, key)
      case There(sensor) => key in AfterCalls(calls) && AfterCalls(calls)[key] == sensor
      case _ => key !in AfterCalls(calls)
  {
    if calls == [] {
    } else {
      var n := |calls| - 1;
      MapIsLastWord(calls[..n], key);
      match calls[n]
      case Connected(sensors, index) =>
        ConnectFollowsWords(AfterCalls(calls[..n]), sensors, index, key);
        LastConnectIsNeverGone(sensors, index, key);
      case Disconnected(handles, index) =>
        DisconnectIsExact(AfterCalls(calls[..n]), handles, index, key);
    }
  }

  lemma {:induction false} LastConnectIsNeverGone(sensors: seq<SensorInfo>, index: nat, key: Handle)
    ensures LastConnect(sensors, index, key) != Gone
    ensures LastConnect(sensors, index, key) != Silent ==> key.top == index % 256
  {
    if sensors == [] {
    } else {
      LastConnectIsNeverGone(sensors[..|sensors| - 1], index, key);
      if SubHalIndexIsClear(sensors[|sensors| - 1].sensorHandle) {
        TaggedHandle(sensors[|sensors| - 1].sensorHandle, index);
      }
    }
  }

  /** A sub-HAL can neither add, nor change, nor remove a key whose top byte is not its own index modulo 256. */
  lemma CallsAreIsolated(table: SensorTable, call: Call, key: Handle)
    requires key.top != call.index % 256
    ensures key in AfterCall(table, call) <==> key in table
    ensures key in table ==> AfterCall(table, call)[key] == table[key]
  {
    match call
    case Connected(sensors, index) =>
      ConnectFollowsWords(table, sensors, index, key);
      LastConnectIsNeverGone(sensors, index, key);
    case Disconnected(handles, index) =>
      DisconnectIsExact(table, handles, index, key);
      if Mentions(handles, index, key) {
        var j :| 0 <= j < |handles| && SubHalIndexIsClear(handles[j]) && SetSubHalIndex(handles[j], index) == key;
        TaggedHandle(handles[j], index);
      }
  }
}
