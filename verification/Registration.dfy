/** Loading the static sensors: which handle each sensor gets, and which single sub-HAL keeps direct channels. */
module Registration {
  import opened Handles
  import opened SensorTypes
  import opened Wrappers

  /** `mSensors` and the index of `mDirectChannelSubHal`. */
  datatype Registry = Registry(sensors: SensorTable, owner: Option<nat>)

  const EMPTY_REGISTRY := Registry(map[], None)

  /** A sensor together with the index of the sub-HAL that reports it. */
  datatype Report = Report(index: nat, sensor: SensorInfo)

  const DIRECT_MASK: Flags := MASK_DIRECT_REPORT + MASK_DIRECT_CHANNEL

  predicate SupportsDirect(sensor: SensorInfo) {
    sensor.flags * DIRECT_MASK != {}
  }

  function OwnerAfter(owner: Option<nat>, index: nat, sensor: SensorInfo): Option<nat> {
    if owner == None && SupportsDirect(sensor) then Some(index) else owner
  }

  function FlagsAfter(owner: Option<nat>, index: nat, sensor: SensorInfo): Flags {
    if owner != None && owner != Some(index) then sensor.flags - DIRECT_MASK else sensor.flags
  }

  /** The name of the vendor's light sensor is replaced by the standard type. */
  function Renamed(sensor: SensorInfo): SensorInfo {
    if sensor.typeAsString == "android.sensor.wise_light"
    then sensor.(kind := Light, typeAsString := "") else sensor
  }

  function LoadOne(reg: Registry, r: Report): Registry {
    if !SubHalIndexIsClear(r.sensor.sensorHandle) then reg
    else
      var key := SetSubHalIndex(r.sensor.sensorHandle, r.index);
      var tagged := r.sensor.(sensorHandle := key, flags := FlagsAfter(reg.owner, r.index, r.sensor));
      Registry(reg.sensors[key := Renamed(tagged)], OwnerAfter(reg.owner, r.index, r.sensor))
  }

  function LoadList(reg: Registry, list: seq<SensorInfo>, index: nat): Registry {
    if list == [] then reg
    else LoadOne(LoadList(reg, list[..|list| - 1], index), Report(index, list[|list| - 1]))
  }

  /** What `initializeSensorList` makes of the lists of all sub-HALs. */
  function LoadLists(lists: seq<seq<SensorInfo>>): Registry {
    if lists == [] then EMPTY_REGISTRY
    else LoadList(LoadLists(lists[..|lists| - 1]), lists[|lists| - 1], |lists| - 1)
  }

  // ---------- An independent account: all reports in one line ----------

  function Reports(list: seq<SensorInfo>, index: nat): seq<Report> {
    seq(|list|, j requires 0 <= j < |list| => Report(index, list[j]))
  }

  function AllReports(lists: seq<seq<SensorInfo>>): seq<Report> {
    if lists == [] then []
    else AllReports(lists[..|lists| - 1]) + Reports(lists[|lists| - 1], |lists| - 1)
  }

  function Key(r: Report): Handle {
    SetSubHalIndex(r.sensor.sensorHandle, r.index)
  }

  predicate WellFormed(r: Report) {
    SubHalIndexIsClear(r.sensor.sensorHandle)
  }

  /** The last well-formed report for a key. */
  function LatestFor(reports: seq<Report>, key: Handle): Option<Report> {
    if reports == [] then None
    else
      var r := reports[|reports| - 1];
      if WellFormed(r) && Key(r) == key then Some(r) else LatestFor(reports[..|reports| - 1], key)
  }

  /** The sub-HAL of the first well-formed report of a sensor that supports direct channels. */
  function FirstSupporting(reports: seq<Report>): Option<nat> {
    if reports == [] then None
    else
      var before := FirstSupporting(reports[..|reports| - 1]);
      var r := reports[|reports| - 1];
      if before == None && WellFormed(r) && SupportsDirect(r.sensor) then Some(r.index) else before
  }

  /** How a report is published once it is known which sub-HAL owns direct channels. */
  function Published(r: Report, owner: Option<nat>): SensorInfo {
    Renamed(r.sensor.(
      sensorHandle := Key(r),
      flags := if owner == Some(r.index) then r.sensor.flags else r.sensor.flags - DIRECT_MASK))
  }

  lemma ClearedBits(flags: Flags)
    ensures (flags - DIRECT_MASK) * DIRECT_MASK == {}
    ensures (flags - DIRECT_MASK) - DIRECT_MASK == flags - DIRECT_MASK
    ensures flags * DIRECT_MASK == {} ==> flags - DIRECT_MASK == flags
  {
    if flags * DIRECT_MASK == {} {
      assert forall b :: b in flags && b in DIRECT_MASK ==> b in flags * DIRECT_MASK;
    }
  }

  ghost predicate Describes(reg: Registry, reports: seq<Report>) {
    && reg.owner == FirstSupporting(reports)
    && forall key :: match LatestFor(reports, key)
        case None => key !in reg.sensors
        case Some(r) => key in reg.sensors && reg.sensors[key] == Published(r, reg.owner)
  }

  lemma LatestIsReported(reports: seq<Report>, key: Handle)
    ensures LatestFor(reports, key).Some? ==>
      var r := LatestFor(reports, key).value; r in reports && WellFormed(r) && Key(r) == key
  {
  }

  lemma {:induction false} NoSupporterMeansUnsupported(reports: seq<Report>, r: Report)
    requires FirstSupporting(reports) == None && r in reports && WellFormed(r)
    ensures !SupportsDirect(r.sensor)
  {
    if r == reports[|reports| - 1] {
    } else {
      assert r in reports[..|reports| - 1];
      NoSupporterMeansUnsupported(reports[..|reports| - 1], r);
    }
  }

  /** A sensor without direct flags is published the same whoever owns direct channels. */
  lemma UnsupportedIsPublishedAlike(r: Report, a: Option<nat>, b: Option<nat>)
    requires !SupportsDirect(r.sensor)
    ensures Published(r, a) == Published(r, b)
  {
    ClearedBits(r.sensor.flags);
  }

  lemma LoadOnePublishes(owner: Option<nat>, r: Report)
    ensures Renamed(r.sensor.(sensorHandle := Key(r), flags := FlagsAfter(owner, r.index, r.sensor)))
         == Published(r, OwnerAfter(owner, r.index, r.sensor))
  {
    ClearedBits(r.sensor.flags);
  }

  lemma LoadOneDescribes(reg: Registry, reports: seq<Report>, r: Report)
    requires Describes(reg, reports)
    ensures Describes(LoadOne(reg, r), reports + [r])
  {
    var all := reports + [r];
    var reg' := LoadOne(reg, r);
    assert all[..|all| - 1] == reports;
    LoadOnePublishes(reg.owner, r);
    forall key
      ensures match LatestFor(all, key)
        case None => key !in reg'.sensors
        case Some(s) => key in reg'.sensors && reg'.sensors[key] == Published(s, reg'.owner)
    {
      LatestIsReported(reports, key);
      var latest := LatestFor(reports, key);
      if latest.Some? && reg.owner == None {
        NoSupporterMeansUnsupported(reports, latest.value);
        UnsupportedIsPublishedAlike(latest.value, reg.owner, reg'.owner);
      }
    }
  }

  lemma {:induction false} LoadListDescribes(reg: Registry, reports: seq<Report>, list: seq<SensorInfo>, index: nat)
    requires Describes(reg, reports)
    ensures Describes(LoadList(reg, list, index), reports + Reports(list, index))
  {
    if list == [] {
      assert reports + Reports(list, index) == reports;
    } else {
      var n := |list| - 1;
      LoadListDescribes(reg, reports, list[..n], index);
      LoadOneDescribes(LoadList(reg, list[..n], index), reports + Reports(list[..n], index), Report(index, list[n]));
      assert reports + Reports(list, index) == reports + Reports(list[..n], index) + [Report(index, list[n])];
    }
  }

  /** Every key holds the last well-formed report for it, published for the first supporting sub-HAL. */
  lemma {:induction false} LoadListsDescribes(lists: seq<seq<SensorInfo>>)
    ensures Describes(LoadLists(lists), AllReports(lists))
  {
    if lists == [] {
    } else {
      var n := |lists| - 1;
      LoadListsDescribes(lists[..n]);
      LoadListDescribes(LoadLists(lists[..n]), AllReports(lists[..n]), lists[n], n);
    }
  }

  // ---------- Direct channels ----------

  predicate ListSupports(list: seq<SensorInfo>) {
    exists j :: 0 <= j < |list| && SubHalIndexIsClear(list[j].sensorHandle) && SupportsDirect(list[j])
  }

  lemma {:induction false} FirstSupportingConcat(a: seq<Report>, list: seq<SensorInfo>, index: nat)
    ensures FirstSupporting(a + Reports(list, index))
      == if FirstSupporting(a) == None && ListSupports(list) then Some(index) else FirstSupporting(a)
  {
    if list == [] {
      assert a + Reports(list, index) == a;
    } else {
      var n := |list| - 1;
      FirstSupportingConcat(a, list[..n], index);
      var all := a + Reports(list, index);
      assert all[..|all| - 1] == a + Reports(list[..n], index);
      assert all[|all| - 1] == Report(index, list[n]);
      assert ListSupports(list) <==>
        (ListSupports(list[..n]) || (SubHalIndexIsClear(list[n].sensorHandle) && SupportsDirect(list[n]))) by {
        if ListSupports(list[..n]) {
          var j :| 0 <= j < n && SubHalIndexIsClear(list[..n][j].sensorHandle) && SupportsDirect(list[..n][j]);
          assert list[j] == list[..n][j];
        }
        if ListSupports(list) {
          var j :| 0 <= j < |list| && SubHalIndexIsClear(list[j].sensorHandle) && SupportsDirect(list[j]);
          assert j < n ==> list[..n][j] == list[j];
        }
      }
    }
  }

  /** The owner of direct channels is the lowest-index sub-HAL that reports a well-formed supporting sensor. */
  lemma {:induction false} OwnerIsLowest(lists: seq<seq<SensorInfo>>)
    ensures match LoadLists(lists).owner
      case None => forall i :: 0 <= i < |lists| ==> !ListSupports(lists[i])
      case Some(o) => o < |lists| && ListSupports(lists[o]) && forall i :: 0 <= i < o ==> !ListSupports(lists[i])
  {
    LoadListsDescribes(lists);
    if lists == [] {
    } else {
      var n := |lists| - 1;
      OwnerIsLowest(lists[..n]);
      LoadListsDescribes(lists[..n]);
      FirstSupportingConcat(AllReports(lists[..n]), lists[n], n);
    }
  }

  /** Every sensor that still carries a direct flag belongs to the owner, and no other flag bit has changed. */
  lemma OneDirectChannelOwner(lists: seq<seq<SensorInfo>>, key: Handle)
    requires key in LoadLists(lists).sensors
    ensures var reg := LoadLists(lists);
      var latest := LatestFor(AllReports(lists), key);
      && latest.Some?
      && reg.sensors[key].flags - DIRECT_MASK == latest.value.sensor.flags - DIRECT_MASK
      && (reg.owner == Some(latest.value.index) ==> reg.sensors[key].flags == latest.value.sensor.flags)
      && (SupportsDirect(reg.sensors[key]) ==> reg.owner == Some(latest.value.index))
  {
    LoadListsDescribes(lists);
    PublishedFlags(LatestFor(AllReports(lists), key).value, LoadLists(lists).owner);
  }

  lemma PublishedFlags(r: Report, owner: Option<nat>)
    ensures Published(r, owner).flags == if owner == Some(r.index) then r.sensor.flags else r.sensor.flags - DIRECT_MASK
    ensures Published(r, owner).flags - DIRECT_MASK == r.sensor.flags - DIRECT_MASK
    ensures owner != Some(r.index) ==> !SupportsDirect(Published(r, owner))
  {
    ClearedBits(r.sensor.flags);
  }

  // ---------- Routing ----------

  lemma {:induction false} ReportsComeFromLists(lists: seq<seq<SensorInfo>>, r: Report)
    requires r in AllReports(lists)
    ensures r.index < |lists| && r.sensor in lists[r.index]
  {
    var n := |lists| - 1;
    if r !in AllReports(lists[..n]) {
      assert r in Reports(lists[n], n);
    } else {
      ReportsComeFromLists(lists[..n], r);
    }
  }

  lemma {:induction false} ListsAreReported(lists: seq<seq<SensorInfo>>, i: nat, j: nat)
    requires i < |lists| && j < |lists[i]|
    ensures Report(i, lists[i][j]) in AllReports(lists)
  {
    var n := |lists| - 1;
    if i < n {
      ListsAreReported(lists[..n], i, j);
      assert lists[..n][i] == lists[i];
    } else {
      assert Reports(lists[n], n)[j] == Report(i, lists[i][j]);
    }
  }

  lemma {:induction false} ReportedKeyIsFound(reports: seq<Report>, r: Report)
    requires r in reports && WellFormed(r)
    ensures LatestFor(reports, Key(r)).Some?
  {
    var last := reports[|reports| - 1];
    if WellFormed(last) && Key(last) == Key(r) {
    } else {
      assert r in reports[..|reports| - 1];
      ReportedKeyIsFound(reports[..|reports| - 1], r);
    }
  }

  /** Where `activate`, `batch`, `flush` and `injectSensorData` send a handle: a sub-HAL and its own handle, or
      nowhere. */
  function RouteOf(subHalCount: nat, handle: Handle): Option<(nat, Handle)> {
    if ExtractSubHalIndex(handle) < subHalCount
    then Some((ExtractSubHalIndex(handle), ClearSubHalIndex(handle))) else None
  }

  /** `sensor` is how sub-HAL `i`'s own sensor `h` is published. */
  predicate PublishedFor(lists: seq<seq<SensorInfo>>, i: nat, h: Handle, sensor: SensorInfo) {
    && i < |lists|
    && exists j :: 0 <= j < |lists[i]| && lists[i][j].sensorHandle == h
         && sensor == Published(Report(i, lists[i][j]), LoadLists(lists).owner)
  }

  /** Routing round trip: with at most 128 sub-HALs, every loaded key is routed to the sub-HAL that reported it, with
      the handle that it reported. */
  lemma LoadedKeysRouteBack(lists: seq<seq<SensorInfo>>, key: Handle)
    requires |lists| <= 128 && key in LoadLists(lists).sensors
    ensures match RouteOf(|lists|, key)
      case None => false
      case Some(target) =>
        && SubHalIndexIsClear(target.1) && key == SetSubHalIndex(target.1, target.0)
        && PublishedFor(lists, target.0, target.1, LoadLists(lists).sensors[key])
  {
    LoadListsDescribes(lists);
    LatestIsReported(AllReports(lists), key);
    var r := LatestFor(AllReports(lists), key).value;
    ReportsComeFromLists(lists, r);
    RoutingRoundTrip(r.sensor.sensorHandle, r.index);
    var j :| 0 <= j < |lists[r.index]| && lists[r.index][j] == r.sensor;
    assert r == Report(r.index, lists[r.index][j]);
  }

  lemma SmallTagsCollide(h: Handle, i: nat, k: Handle, j: nat)
    requires SubHalIndexIsClear(h) && SubHalIndexIsClear(k) && i < 256 && j < 256
    ensures SetSubHalIndex(h, i) == SetSubHalIndex(k, j) <==> i == j && h == k
  {
    TaggedHandlesCollide(h, i, k, j);
    SmallModulus(i);
    SmallModulus(j);
  }

  lemma SmallModulus(i: nat)
    requires i < 256
    ensures i % 256 == i
  {
  }

  /** Every well-formed sensor of every list has a key, and with at most 256 sub-HALs no two sub-HALs share one. */
  lemma EverySensorHasItsOwnKey(lists: seq<seq<SensorInfo>>, i: nat, j: nat, i2: nat, j2: nat)
    requires |lists| <= 256 && i < |lists| && j < |lists[i]| && i2 < |lists| && j2 < |lists[i2]|
    requires SubHalIndexIsClear(lists[i][j].sensorHandle) && SubHalIndexIsClear(lists[i2][j2].sensorHandle)
    ensures SetSubHalIndex(lists[i][j].sensorHandle, i) in LoadLists(lists).sensors
    ensures SetSubHalIndex(lists[i][j].sensorHandle, i) == SetSubHalIndex(lists[i2][j2].sensorHandle, i2)
       <==> i == i2 && lists[i][j].sensorHandle == lists[i2][j2].sensorHandle
  {
    LoadListsDescribes(lists);
    ListsAreReported(lists, i, j);
    ReportedKeyIsFound(AllReports(lists), Report(i, lists[i][j]));
    SmallTagsCollide(lists[i][j].sensorHandle, i, lists[i2][j2].sensorHandle, i2);
  }
}
