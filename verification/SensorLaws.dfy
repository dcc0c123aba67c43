/** What becomes of handles, sensors and events, field by field and bit by bit. */
module SensorLaws {
  import opened Handles
  import opened SensorTypes
  import opened Wrappers
  import opened Registration
  import opened DynamicSensors
  import opened HalProxyObject

  // ---------- Handles ----------

  function Bit(n: nat, i: nat): bool {
    if i == 0 then n % 2 == 1 else Bit(n / 2, i - 1)
  }

  /** Each of the lowest bits is set when it is set on either side; the bits above are gone. */
  lemma {:induction false} OrIsBitwise(a: nat, b: nat, n: nat, i: nat)
    ensures Bit(Or(a, b, n), i) <==> i < n && (Bit(a, i) || Bit(b, i))
  {
    if n == 0 {
      NoBits(i);
    } else if i > 0 {
      OrIsBitwise(a / 2, b / 2, n - 1, i - 1);
    }
  }

  lemma {:induction false} NoBits(i: nat)
    ensures !Bit(0, i)
  {
    if i == 0 {
    } else {
      NoBits(i - 1);
    }
  }

  /** Tagging sets bits of the top byte and no others. */
  lemma TagIsBitwise(handle: Handle, subHalIndex: nat, i: nat)
    requires i < 8
    ensures SetSubHalIndex(handle, subHalIndex).low == handle.low
    ensures Bit(SetSubHalIndex(handle, subHalIndex).top, i) <==> Bit(handle.top, i) || Bit(subHalIndex % 256, i)
  {
    OrIsBitwise(handle.top, subHalIndex % 256, 8, i);
  }

  /** A handle is routed to the sub-HAL of its top byte, with the top byte cleared, when there is such a sub-HAL. A
      handle whose top byte is 128 or more is negative, and goes nowhere however many sub-HALs there are. */
  lemma RouteIs(subHalCount: nat, handle: Handle)
    requires subHalCount < 0x8000_0000_0000_0000
    ensures RouteOf(subHalCount, handle)
      == if handle.top < 128 && handle.top < subHalCount then Some((handle.top, Handle(0, handle.low))) else None
  {
  }

  // ---------- Static sensors ----------

  /** Bits 7 to 9 are direct report levels, 10 and 11 direct channel types. */
  predicate IsDirectBit(b: nat) {
    7 <= b <= 11
  }

  /** How a sensor is published: under its new handle, with its direct bits or without them, and as a light sensor if it
      is the vendor's; its name is its own. */
  ghost predicate IsPublished(sensor: SensorInfo, own: SensorInfo, handle: Handle, keepsDirect: bool) {
    && sensor.sensorHandle == handle && sensor.name == own.name
    && (forall b: nat :: b in sensor.flags <==> b in own.flags && (keepsDirect || !IsDirectBit(b)))
    && (if own.typeAsString == "android.sensor.wise_light" then sensor.kind == Light && sensor.typeAsString == ""
        else sensor.kind == own.kind && sensor.typeAsString == own.typeAsString)
  }

  lemma PublishedIs(r: Report, owner: Option<nat>)
    requires r.sensor.sensorHandle.top == 0 && r.index < 256
    ensures var handle := Handle(r.index, r.sensor.sensorHandle.low);
      IsPublished(Published(r, owner), r.sensor, handle, owner == Some(r.index))
  {
    TaggedHandle(r.sensor.sensorHandle, r.index);
    SmallModulus(r.index);
    assert forall b: nat :: b in DIRECT_MASK <==> IsDirectBit(b);
  }

  lemma {:induction false} LatestInLists(lists: seq<seq<SensorInfo>>, i: nat, j: nat)
    requires |lists| <= 256 && i < |lists| && j < |lists[i]| && lists[i][j].sensorHandle.top == 0
    requires forall k :: j < k < |lists[i]| ==> lists[i][k].sensorHandle != lists[i][j].sensorHandle
    ensures LatestFor(AllReports(lists), Handle(i, lists[i][j].sensorHandle.low)) == Some(Report(i, lists[i][j]))
  {
    var n := |lists| - 1;
    var key := Handle(i, lists[i][j].sensorHandle.low);
    if i == n {
      LatestInList(AllReports(lists[..n]), lists[n], n, j);
    } else {
      LatestInLists(lists[..n], i, j);
      LatestElsewhere(AllReports(lists[..n]), lists[n], n, key);
    }
  }

  lemma ReportsLast(before: seq<Report>, list: seq<SensorInfo>, index: nat)
    requires list != []
    ensures var all, n := before + Reports(list, index), |list| - 1;
      all[|all| - 1] == Report(index, list[n]) && all[..|all| - 1] == before + Reports(list[..n], index)
  {
  }

  lemma {:induction false} LatestInList(before: seq<Report>, list: seq<SensorInfo>, index: nat, j: nat)
    requires index < 256 && j < |list| && list[j].sensorHandle.top == 0
    requires forall k :: j < k < |list| ==> list[k].sensorHandle != list[j].sensorHandle
    ensures LatestFor(before + Reports(list, index), Handle(index, list[j].sensorHandle.low))
         == Some(Report(index, list[j]))
  {
    var n := |list| - 1;
    ReportsLast(before, list, index);
    SmallModulus(index);
    TaggedHandle(list[j].sensorHandle, index);
    if j == n {
    } else {
      LatestInList(before, list[..n], index, j);
      if list[n].sensorHandle.top == 0 {
        TaggedHandle(list[n].sensorHandle, index);
      }
    }
  }

  lemma {:induction false} LatestElsewhere(before: seq<Report>, list: seq<SensorInfo>, index: nat, key: Handle)
    requires index < 256 && key.top != index
    ensures LatestFor(before + Reports(list, index), key) == LatestFor(before, key)
  {
    if list == [] {
      assert before + Reports(list, index) == before;
    } else {
      var n := |list| - 1;
      ReportsLast(before, list, index);
      SmallModulus(index);
      LatestElsewhere(before, list[..n], index, key);
      if list[n].sensorHandle.top == 0 {
        TaggedHandle(list[n].sensorHandle, index);
      }
    }
  }

  /** With at most 256 sub-HALs, the last sensor that a sub-HAL lists under a handle of its own is loaded under that
      handle with the sub-HAL's index on top, and keeps its direct bits only if the sub-HAL owns direct channels. */
  lemma LoadedSensorIs(lists: seq<seq<SensorInfo>>, i: nat, j: nat)
    requires |lists| <= 256 && i < |lists| && j < |lists[i]| && lists[i][j].sensorHandle.top == 0
    requires forall k :: j < k < |lists[i]| ==> lists[i][k].sensorHandle != lists[i][j].sensorHandle
    ensures var reg, key := LoadLists(lists), Handle(i, lists[i][j].sensorHandle.low);
      key in reg.sensors && IsPublished(reg.sensors[key], lists[i][j], key, reg.owner == Some(i))
  {
    var key := Handle(i, lists[i][j].sensorHandle.low);
    LoadListsDescribes(lists);
    LatestInLists(lists, i, j);
    assert LatestFor(AllReports(lists), key) == Some(Report(i, lists[i][j]));
    PublishedIs(Report(i, lists[i][j]), LoadLists(lists).owner);
  }

  // ---------- Dynamic sensors ----------

  /** A sensor that a sub-HAL connects is there afterwards, unchanged but for the index on top of its handle, when it is
      the last with its handle. */
  lemma {:induction false} ConnectedSensorIs(table: SensorTable, sensors: seq<SensorInfo>, index: nat, j: nat)
    requires index < 256 && j < |sensors| && sensors[j].sensorHandle.top == 0
    requires forall k :: j < k < |sensors| ==> sensors[k].sensorHandle != sensors[j].sensorHandle
    ensures var key, after := Handle(index, sensors[j].sensorHandle.low), Connect(table, sensors, index).0;
      key in after && after[key] == sensors[j].(sensorHandle := key)
  {
    var n := |sensors| - 1;
    SmallModulus(index);
    TaggedHandle(sensors[j].sensorHandle, index);
    if j == n {
    } else {
      ConnectedSensorIs(table, sensors[..n], index, j);
      if sensors[n].sensorHandle.top == 0 {
        TaggedHandle(sensors[n].sensorHandle, index);
      }
    }
  }

  /** A handle that a sub-HAL disconnects is gone afterwards. */
  lemma DisconnectedHandleIsGone(table: SensorTable, handles: seq<Handle>, index: nat, j: nat)
    requires index < 256 && j < |handles| && handles[j].top == 0
    ensures var key := Handle(index, handles[j].low);
      key !in Disconnect(table, handles, index).0 && (key in table <==> key in Disconnect(table, handles, index).1)
  {
    var key := Handle(index, handles[j].low);
    SmallModulus(index);
    TaggedHandle(handles[j], index);
    DisconnectIsExact(table, handles, index, key);
    assert SubHalIndexIsClear(handles[j]) && SetSubHalIndex(handles[j], index) == key;
  }

  // ---------- Events ----------

  /** An event gets the sub-HAL's index on top of its handle, and an event about a dynamic sensor on top of the handle
      inside it too; nothing else of it changes. */
  lemma TaggedEventIs(event: Event, index: nat)
    requires index < 256 && event.sensorHandle.top == 0
    requires event.kind == DynamicSensorMeta ==> event.dynamicHandle.top == 0
    ensures TagEvent(event, index) == Event(Handle(index, event.sensorHandle.low), event.kind,
      if event.kind == DynamicSensorMeta then Handle(index, event.dynamicHandle.low) else event.dynamicHandle,
      event.payload)
  {
    SmallModulus(index);
    TaggedHandle(event.sensorHandle, index);
    if event.kind == DynamicSensorMeta {
      TaggedHandle(event.dynamicHandle, index);
    }
  }
}
