/** Mirroring an edge's saved device profiles into the cloud (`edge_sync_inventory`): devices and
    points that the complete snapshot lacks are retired, the others are created or updated. */
module Inventory {
  import opened Wrappers

  // ---- The snapshot ----

  datatype PointKey = PointKey(objectType: string, objectInstance: nat, property: string)

  datatype LastKnown = LastKnown(rawValue: Option<string>, displayValue: Option<string>,
    activePriority: Option<int>, priorityArray: Option<string>, sourceTimestamp: Option<int>)

  datatype PointIn = PointIn(key: PointKey, name: Option<string>, lastKnown: Option<LastKnown>)

  /** `vendor`, `network` and `mac` are `None` unless the metadata has a value of the right type. */
  datatype DeviceIn = DeviceIn(profile: string, instance: nat, name: Option<string>, vendor: Option<string>,
    network: Option<int>, mac: Option<string>, updatedAt: Option<int>, points: seq<PointIn>)

  ghost predicate UniquePoints(points: seq<PointIn>) {
    forall i, j | 0 <= i < j < |points| :: points[i].key != points[j].key
  }

  /** What request validation accepts. */
  ghost predicate ValidSnapshot(snapshot: seq<DeviceIn>) {
    && (forall i, j | 0 <= i < j < |snapshot| :: snapshot[i].profile != snapshot[j].profile)
    && (forall i | 0 <= i < |snapshot| :: UniquePoints(snapshot[i].points))
  }

  function Find(snapshot: seq<DeviceIn>, profile: string): (r: Option<DeviceIn>)
    ensures r.Some? ==> r.value in snapshot && r.value.profile == profile
    ensures r.None? ==> forall i | 0 <= i < |snapshot| :: snapshot[i].profile != profile
  {
    if snapshot == [] then None
    else
      var last := |snapshot| - 1;
      if snapshot[last].profile == profile then Some(snapshot[last]) else Find(snapshot[..last], profile)
  }

  function FindPoint(points: seq<PointIn>, key: PointKey): (r: Option<PointIn>)
    ensures r.Some? ==> r.value in points && r.value.key == key
    ensures r.None? ==> forall i | 0 <= i < |points| :: points[i].key != key
  {
    if points == [] then None
    else
      var last := |points| - 1;
      if points[last].key == key then Some(points[last]) else FindPoint(points[..last], key)
  }

  function KeysOf(points: seq<PointIn>): set<PointKey> {
    set p | p in points :: p.key
  }

  lemma {:induction false} FindIsUnique(snapshot: seq<DeviceIn>, k: nat)
    requires ValidSnapshot(snapshot) && k < |snapshot|
    ensures Find(snapshot, snapshot[k].profile) == Some(snapshot[k])
    ensures Find(snapshot[..k], snapshot[k].profile) == None
  {
    var profile := snapshot[k].profile;
    assert Find(snapshot, profile).Some?;
  }

  lemma FindPointIsUnique(points: seq<PointIn>, k: nat)
    requires UniquePoints(points) && k < |points|
    ensures FindPoint(points, points[k].key) == Some(points[k])
    ensures FindPoint(points[..k], points[k].key) == None
  {
    assert FindPoint(points, points[k].key).Some?;
  }

  // ---- The tables ----

  datatype PointRow = PointRow(deviceInstance: nat, name: Option<string>, role: Option<string>, enabled: bool,
    lifecycle: string, retiredAt: Option<int>, lastSeenAt: Option<int>, updatedAt: int, value: Option<string>,
    activePriority: Option<int>, priorityArray: Option<string>, latestReadAt: Option<int>)

  /** A device with its points, which are unique by key. */
  datatype DeviceRow = DeviceRow(gateway: string, profile: Option<string>, instance: nat, name: Option<string>,
    vendor: Option<string>, network: Option<int>, mac: Option<string>, enabled: bool, lifecycle: string,
    retiredAt: Option<int>, firstSeenAt: Option<int>, lastSeenAt: Option<int>, discoveredAt: Option<int>,
    updatedAt: int, points: map<PointKey, PointRow>)

  datatype Counts = Counts(createdDevices: nat, updatedDevices: nat, retiredDevices: nat,
    createdPoints: nat, updatedPoints: nat, retiredPoints: nat)

  predicate IsMirror(row: DeviceRow, gateway: string) {
    row.gateway == gateway && row.profile.Some?
  }

  /** The unique index on gateway and profile. */
  ghost predicate UniqueProfiles(devices: seq<DeviceRow>) {
    forall i, j | 0 <= i < j < |devices| && devices[i].profile.Some? ::
      devices[i].gateway != devices[j].gateway || devices[i].profile != devices[j].profile
  }

  // ---- What is to become of one point and one device, field by field ----

  /** A point that is retired keeps everything else; one that was off already is not touched. */
  ghost predicate PointIsRetired(was: PointRow, row: PointRow, now: int) {
    && row.deviceInstance == was.deviceInstance && row.name == was.name && row.role == was.role
    && row.lastSeenAt == was.lastSeenAt && row.value == was.value && row.activePriority == was.activePriority
    && row.priorityArray == was.priorityArray && row.latestReadAt == was.latestReadAt && !row.enabled
    && (was.enabled ==> row.lifecycle == "retired" && row.retiredAt == Some(now) && row.updatedAt == now)
    && (!was.enabled ==> row == was)
  }

  /** The raw value, else the displayed one, else the old one; the rest of the reading is replaced as
      soon as the snapshot has any. */
  ghost predicate ReadingIs(was: Option<PointRow>, row: PointRow, known: Option<LastKnown>) {
    match known
    case None => KeepsReading(was, row) && KeepsValue(was, row)
    case Some(k) =>
      && row.activePriority == k.activePriority && row.priorityArray == k.priorityArray && row.latestReadAt == k.sourceTimestamp
      && (k.rawValue.Some? ==> row.value == k.rawValue)
      && (k.rawValue.None? && k.displayValue.Some? ==> row.value == k.displayValue)
      && (k.rawValue.None? && k.displayValue.None? ==> KeepsValue(was, row))
  }

  ghost predicate KeepsValue(was: Option<PointRow>, row: PointRow) {
    if was.Some? then row.value == was.value.value else row.value == None
  }

  ghost predicate KeepsReading(was: Option<PointRow>, row: PointRow) {
    if was.Some? then
      row.activePriority == was.value.activePriority && row.priorityArray == was.value.priorityArray && row.latestReadAt == was.value.latestReadAt
    else row.activePriority == None && row.priorityArray == None && row.latestReadAt == None
  }

  /** A point of the snapshot is active and keeps its role; a created one has none. */
  ghost predicate PointIsMirrored(was: Option<PointRow>, row: PointRow, item: PointIn, instance: nat, now: int) {
    && row.enabled && row.lifecycle == "active" && row.retiredAt == None && row.lastSeenAt == Some(now) && row.updatedAt == now
    && row.deviceInstance == instance && row.name == item.name
    && (if was.Some? then row.role == was.value.role else row.role == None)
    && ReadingIs(was, row, item.lastKnown)
  }

  ghost function Before(points: map<PointKey, PointRow>, key: PointKey): (was: Option<PointRow>)
    ensures key in points ==> was == Some(points[key])
    ensures key !in points ==> was == None
  {
    if key in points then Some(points[key]) else None
  }

  /** The snapshot's points, and the stored ones that it lacks. */
  ghost predicate PointsAreSynced(was: map<PointKey, PointRow>, points: map<PointKey, PointRow>, items: seq<PointIn>, instance: nat, now: int) {
    && (forall item | item in items :: item.key in points && PointIsMirrored(Before(was, item.key), points[item.key], item, instance, now))
    && (forall key | key in points :: key in was || exists item :: item in items && item.key == key)
    && (forall key | key in was && (forall item | item in items :: item.key != key) :: key in points && PointIsRetired(was[key], points[key], now))
  }

  /** The value of the snapshot if it has one, and otherwise the old one. */
  ghost predicate GivenOrKept<T>(given: Option<T>, was: Option<T>, value: Option<T>) {
    if given.Some? then value == given else value == was
  }

  /** What a mirrored device takes from the snapshot and what it keeps. */
  ghost predicate DeviceIsMirrored(was: DeviceRow, row: DeviceRow, item: DeviceIn, now: int) {
    && row.gateway == was.gateway && row.profile == was.profile && row.firstSeenAt == was.firstSeenAt
    && row.instance == item.instance && row.name == item.name
    && GivenOrKept(item.vendor, was.vendor, row.vendor) && GivenOrKept(item.network, was.network, row.network)
    && GivenOrKept(item.mac, was.mac, row.mac) && GivenOrKept(item.updatedAt, Some(now), row.discoveredAt)
    && row.enabled && row.lifecycle == "active" && row.retiredAt == None && row.lastSeenAt == Some(now) && row.updatedAt == now
    && PointsAreSynced(was.points, row.points, item.points, item.instance, now)
  }

  /** A created device is mirrored like one of which nothing is known yet. */
  ghost predicate IsUnknown(row: DeviceRow, gateway: string, profile: string, now: int) {
    && row.gateway == gateway && row.profile == Some(profile) && row.firstSeenAt == Some(now)
    && row.vendor == None && row.network == None && row.mac == None && row.points == map[]
  }

  ghost predicate DeviceIsCreated(row: DeviceRow, gateway: string, item: DeviceIn, now: int) {
    exists was :: IsUnknown(was, gateway, item.profile, now) && DeviceIsMirrored(was, row, item, now)
  }

  /** A device that the snapshot lacks is retired with its points, unless it is off already. */
  ghost predicate DeviceIsRetired(was: DeviceRow, row: DeviceRow, now: int) {
    && row.gateway == was.gateway && row.profile == was.profile && row.instance == was.instance && row.name == was.name
    && row.vendor == was.vendor && row.network == was.network && row.mac == was.mac && row.firstSeenAt == was.firstSeenAt
    && row.lastSeenAt == was.lastSeenAt && row.discoveredAt == was.discoveredAt && !row.enabled
    && (was.enabled ==>
          && row.lifecycle == "retired" && row.retiredAt == Some(now) && row.updatedAt == now
          && row.points.Keys == was.points.Keys && forall key | key in was.points :: PointIsRetired(was.points[key], row.points[key], now))
    && (!was.enabled ==> row == was)
  }

  /** The whole table: what is not mirrored from this gateway is not touched, and what is follows the
      snapshot. New rows are those of snapshot devices that had none. */
  ghost predicate TableIsSynced(before: seq<DeviceRow>, after: seq<DeviceRow>, gateway: string, snapshot: seq<DeviceIn>, now: int) {
    && |before| <= |after|
    && (forall j | 0 <= j < |before| :: RowFollows(before[j], after[j], gateway, snapshot, now))
    && (forall j | |before| <= j < |after| :: IsCreated(before, after[j], gateway, snapshot, now))
    && (forall item | item in snapshot :: exists row :: row in after && row.gateway == gateway && row.profile == Some(item.profile))
  }

  ghost predicate RowFollows(was: DeviceRow, row: DeviceRow, gateway: string, snapshot: seq<DeviceIn>, now: int) {
    if was.gateway != gateway || was.profile.None? then row == was
    else
      && (forall item | item in snapshot && item.profile == was.profile.value :: DeviceIsMirrored(was, row, item, now))
      && ((forall item | item in snapshot :: item.profile != was.profile.value) ==> DeviceIsRetired(was, row, now))
  }

  ghost predicate IsCreated(before: seq<DeviceRow>, row: DeviceRow, gateway: string, snapshot: seq<DeviceIn>, now: int) {
    && (forall was | was in before && was.gateway == gateway :: was.profile != row.profile)
    && exists item :: item in snapshot && DeviceIsCreated(row, gateway, item, now)
  }

  // ---- One point and one device ----

  function RetirePoint(row: PointRow, now: int): (after: PointRow)
    ensures PointIsRetired(row, after, now)
  {
    if row.enabled then row.(enabled := false, lifecycle := "retired", retiredAt := Some(now), updatedAt := now)
    else row
  }

  function BlankPoint(now: int): PointRow {
    PointRow(0, None, None, true, "active", None, None, now, None, None, None, None)
  }

  function OrElse<T>(first: Option<T>, second: Option<T>): Option<T> {
    if first.Some? then first else second
  }

  function WithLastKnown(row: PointRow, known: LastKnown): PointRow {
    row.(value := OrElse(OrElse(known.rawValue, known.displayValue), row.value),
         activePriority := known.activePriority, priorityArray := known.priorityArray,
         latestReadAt := known.sourceTimestamp)
  }

  function MirrorPoint(row: PointRow, item: PointIn, deviceInstance: nat, now: int): (after: PointRow)
    ensures PointIsMirrored(Some(row), after, item, deviceInstance, now)
  {
    var active := row.(deviceInstance := deviceInstance, name := item.name, enabled := true, lifecycle := "active",
      retiredAt := None, lastSeenAt := Some(now), updatedAt := now);
    if item.lastKnown.Some? then WithLastKnown(active, item.lastKnown.value) else active
  }

  function RetiredPoints(points: map<PointKey, PointRow>, keep: set<PointKey>, now: int): map<PointKey, PointRow> {
    map key | key in points :: if key in keep then points[key] else RetirePoint(points[key], now)
  }

  function PointOrBlank(points: map<PointKey, PointRow>, key: PointKey, now: int): PointRow {
    if key in points then points[key] else BlankPoint(now)
  }

  function MirroredPoint(points: map<PointKey, PointRow>, items: seq<PointIn>, key: PointKey, instance: nat, now: int): PointRow
    requires key in points || FindPoint(items, key).Some?
  {
    match FindPoint(items, key)
    case Some(item) => MirrorPoint(PointOrBlank(points, key, now), item, instance, now)
    case None => points[key]
  }

  function MirroredPoints(points: map<PointKey, PointRow>, items: seq<PointIn>, instance: nat, now: int): map<PointKey, PointRow> {
    map key | key in points.Keys + KeysOf(items) :: MirroredPoint(points, items, key, instance, now)
  }

  function SyncedPoints(points: map<PointKey, PointRow>, item: DeviceIn, now: int): map<PointKey, PointRow> {
    MirroredPoints(RetiredPoints(points, KeysOf(item.points), now), item.points, item.instance, now)
  }

  function RetireDevice(row: DeviceRow, now: int): (after: DeviceRow)
    ensures DeviceIsRetired(row, after, now)
  {
    if row.enabled
    then row.(enabled := false, lifecycle := "retired", retiredAt := Some(now), updatedAt := now,
              points := RetiredPoints(row.points, {}, now))
    else row
  }

  function BlankDevice(gateway: string, profile: string, now: int): DeviceRow {
    DeviceRow(gateway, Some(profile), 0, None, None, None, None, true, "active", None, Some(now), None, None, now, map[])
  }

  /** The fields of the device itself. */
  function MirrorFields(row: DeviceRow, item: DeviceIn, now: int): DeviceRow {
    row.(instance := item.instance, name := item.name, vendor := OrElse(item.vendor, row.vendor),
         network := OrElse(item.network, row.network), mac := OrElse(item.mac, row.mac),
         enabled := true, lifecycle := "active", retiredAt := None, lastSeenAt := Some(now),
         discoveredAt := OrElse(item.updatedAt, Some(now)), updatedAt := now)
  }

  function MirrorDevice(row: DeviceRow, item: DeviceIn, now: int): DeviceRow {
    MirrorFields(row, item, now).(points := SyncedPoints(row.points, item, now))
  }

  // ---- The whole table ----

  /** A row after the retiring loop and the first items of the snapshot. */
  function SyncedRow(row: DeviceRow, gateway: string, snapshot: seq<DeviceIn>, done: nat, now: int): DeviceRow
    requires done <= |snapshot|
  {
    if !IsMirror(row, gateway) then row
    else
      match Find(snapshot[..done], row.profile.value)
      case Some(item) => MirrorDevice(row, item, now)
      case None => if Find(snapshot, row.profile.value).None? then RetireDevice(row, now) else row
  }

  ghost function Profiles(devices: seq<DeviceRow>, gateway: string): set<string> {
    set row | row in devices && IsMirror(row, gateway) :: row.profile.value
  }

  function NewRows(snapshot: seq<DeviceIn>, known: set<string>, gateway: string, now: int): seq<DeviceRow> {
    if snapshot == [] then []
    else
      var last := |snapshot| - 1;
      var item := snapshot[last];
      NewRows(snapshot[..last], known, gateway, now) +
        if item.profile in known then [] else [MirrorDevice(BlankDevice(gateway, item.profile, now), item, now)]
  }

  ghost predicate PartlySynced(before: seq<DeviceRow>, after: seq<DeviceRow>, gateway: string, snapshot: seq<DeviceIn>, done: nat, now: int)
    requires done <= |snapshot|
  {
    && |before| <= |after|
    && (forall j | 0 <= j < |before| :: after[j] == SyncedRow(before[j], gateway, snapshot, done, now))
    && after[|before|..] == NewRows(snapshot[..done], Profiles(before, gateway), gateway, now)
  }

  ghost predicate Synced(before: seq<DeviceRow>, after: seq<DeviceRow>, gateway: string, snapshot: seq<DeviceIn>, now: int) {
    PartlySynced(before, after, gateway, snapshot, |snapshot|, now)
  }

  // ---- What the counters count ----

  ghost function LostPoints(before: map<PointKey, PointRow>, after: map<PointKey, PointRow>): set<PointKey> {
    set key | key in before && key in after && before[key].enabled && !after[key].enabled
  }

  ghost function PointsLost(before: seq<DeviceRow>, after: seq<DeviceRow>): nat
    requires |before| <= |after|
  {
    if before == [] then 0
    else
      var last := |before| - 1;
      PointsLost(before[..last], after[..last]) + |LostPoints(before[last].points, after[last].points)|
  }

  ghost function DevicesLost(before: seq<DeviceRow>, after: seq<DeviceRow>): nat
    requires |before| <= |after|
  {
    if before == [] then 0
    else
      var last := |before| - 1;
      DevicesLost(before[..last], after[..last]) + if before[last].enabled && !after[last].enabled then 1 else 0
  }

  ghost function StoredPoints(devices: seq<DeviceRow>): nat {
    if devices == [] then 0
    else StoredPoints(devices[..|devices| - 1]) + |devices[|devices| - 1].points|
  }

  ghost function SnapshotPoints(snapshot: seq<DeviceIn>): nat {
    if snapshot == [] then 0
    else SnapshotPoints(snapshot[..|snapshot| - 1]) + |snapshot[|snapshot| - 1].points|
  }

  /** Every snapshot item is counted once, every new row once, and every row switched off once. */
  ghost predicate Accounted(before: seq<DeviceRow>, after: seq<DeviceRow>, snapshot: seq<DeviceIn>, counts: Counts) {
    && counts.createdDevices + counts.updatedDevices == |snapshot|
    && |before| <= |after|
    && counts.createdDevices == |after| - |before|
    && counts.createdPoints + counts.updatedPoints == SnapshotPoints(snapshot)
    && StoredPoints(after) == StoredPoints(before) + counts.createdPoints
    && counts.retiredDevices == DevicesLost(before, after)
    && counts.retiredPoints == PointsLost(before, after)
  }

  lemma {:induction false} LostAtOne(before: seq<DeviceRow>, after: seq<DeviceRow>, i: nat, row: DeviceRow)
    requires i < |before| <= |after| && before[i] == after[i]
    ensures PointsLost(before, after[i := row]) == PointsLost(before, after) + |LostPoints(before[i].points, row.points)|
    ensures DevicesLost(before, after[i := row]) == DevicesLost(before, after) + if before[i].enabled && !row.enabled then 1 else 0
  {
    var last := |before| - 1;
    var changed := after[i := row];
    if i == last {
      assert changed[..last] == after[..last];
      assert LostPoints(before[i].points, after[i].points) == {};
    } else {
      LostAtOne(before[..last], after[..last], i, row);
      assert changed[..last] == after[..last][i := row];
    }
  }

  lemma {:induction false} LostIgnoresNewRows(before: seq<DeviceRow>, after: seq<DeviceRow>, rows: seq<DeviceRow>)
    requires |before| <= |after|
    ensures PointsLost(before, after + rows) == PointsLost(before, after)
    ensures DevicesLost(before, after + rows) == DevicesLost(before, after)
  {
    if before != [] {
      var last := |before| - 1;
      LostIgnoresNewRows(before[..last], after, rows);
      assert (after + rows)[..last] == after[..last];
      LostIgnoresNewRows(before[..last], after[..last], after[last..]);
      assert after[..last] + after[last..] == after;
    }
  }

  lemma {:induction false} StoredPointsAtOne(devices: seq<DeviceRow>, i: nat, row: DeviceRow)
    requires i < |devices|
    ensures StoredPoints(devices[i := row]) == StoredPoints(devices) - |devices[i].points| + |row.points|
  {
    var last := |devices| - 1;
    if i == last {
      assert devices[i := row][..last] == devices[..last];
    } else {
      StoredPointsAtOne(devices[..last], i, row);
      assert devices[i := row][..last] == devices[..last][i := row];
    }
  }

  // ---- The loops ----

  lemma RetiredNext(points: map<PointKey, PointRow>, spared: set<PointKey>, key: PointKey, now: int)
    requires key in spared && key in points
    ensures RetiredPoints(points, spared, now)[key] == points[key]
    ensures RetiredPoints(points, spared - {key}, now) == RetiredPoints(points, spared, now)[key := RetirePoint(points[key], now)]
  {
  }

  lemma LostNext(points: map<PointKey, PointRow>, after: map<PointKey, PointRow>, key: PointKey, row: PointRow)
    requires key in points && key in after && after[key] == points[key]
    ensures |LostPoints(points, after[key := row])| == |LostPoints(points, after)| + if points[key].enabled && !row.enabled then 1 else 0
  {
    var lost := LostPoints(points, after);
    assert key !in lost;
    assert LostPoints(points, after[key := row]) == if points[key].enabled && !row.enabled then lost + {key} else lost;
  }

  /** Retires the enabled points whose key is not kept. */
  method RetireMissing(points: map<PointKey, PointRow>, keep: set<PointKey>, now: int)
    returns (after: map<PointKey, PointRow>, retired: nat)
    ensures after == RetiredPoints(points, keep, now)
    ensures retired == |LostPoints(points, after)|
    ensures after.Keys == points.Keys
    ensures forall key | key in points :: if key in keep then after[key] == points[key] else PointIsRetired(points[key], after[key], now)
  {
    after, retired := points, 0;
    var todo := points.Keys;
    while todo != {}
      invariant todo <= points.Keys
      invariant after == RetiredPoints(points, keep + todo, now)
      invariant retired == |LostPoints(points, after)|
      decreases todo
    {
      var key :| key in todo;
      if key !in keep {
        RetiredNext(points, keep + todo, key, now);
        assert (keep + todo) - {key} == keep + (todo - {key});
        LostNext(points, after, key, RetirePoint(points[key], now));
        if points[key].enabled {
          after := after[key := RetirePoint(points[key], now)];
          retired := retired + 1;
        } else {
          assert after[key := points[key]] == after;
        }
      } else {
        assert keep + todo == keep + (todo - {key});
      }
      todo := todo - {key};
    }
    assert keep + todo == keep;
  }

  lemma KeysNext(items: seq<PointIn>, k: nat)
    requires k < |items|
    ensures KeysOf(items[..k + 1]) == KeysOf(items[..k]) + {items[k].key}
  {
    assert items[..k + 1] == items[..k] + [items[k]];
  }

  lemma FindPointNext(items: seq<PointIn>, k: nat, key: PointKey)
    requires UniquePoints(items) && k < |items|
    ensures FindPoint(items[..k + 1], key) == if key == items[k].key then Some(items[k]) else FindPoint(items[..k], key)
    ensures key == items[k].key ==> FindPoint(items[..k], key) == None
  {
    assert items[..k + 1][..k] == items[..k];
    FindPointIsUnique(items, k);
  }

  lemma FindPointNextForAll(items: seq<PointIn>, k: nat)
    requires UniquePoints(items) && k < |items|
    ensures FindPoint(items[..k], items[k].key) == None
    ensures forall key ::
      FindPoint(items[..k + 1], key) == if key == items[k].key then Some(items[k]) else FindPoint(items[..k], key)
  {
    forall key
      ensures FindPoint(items[..k + 1], key) == if key == items[k].key then Some(items[k]) else FindPoint(items[..k], key)
    {
      FindPointNext(items, k, key);
    }
    FindPointNext(items, k, items[k].key);
  }

  lemma MirroredNext(points: map<PointKey, PointRow>, items: seq<PointIn>, k: nat, instance: nat, now: int)
    requires UniquePoints(items) && k < |items|
    ensures items[k].key in MirroredPoints(points, items[..k], instance, now) <==> items[k].key in points
    ensures MirroredPoints(points, items[..k + 1], instance, now) == MirroredPoints(points, items[..k], instance, now)[
      items[k].key := MirrorPoint(PointOrBlank(points, items[k].key, now), items[k], instance, now)]
  {
    KeysNext(items, k);
    FindPointNextForAll(items, k);
  }

  method MirrorItems(points: map<PointKey, PointRow>, items: seq<PointIn>, instance: nat, now: int)
    returns (after: map<PointKey, PointRow>, created: nat, updated: nat)
    requires UniquePoints(items)
    ensures after == MirroredPoints(points, items, instance, now)
    ensures created + updated == |items| && |after| == |points| + created
    ensures forall item | item in items :: item.key in after && PointIsMirrored(Before(points, item.key), after[item.key], item, instance, now)
    ensures forall key | key in points && (forall item | item in items :: item.key != key) :: key in after && after[key] == points[key]
    ensures forall key | key in after :: key in points || exists item :: item in items && item.key == key
  {
    after, created, updated := points, 0, 0;
    for k := 0 to |items|
      invariant after == MirroredPoints(points, items[..k], instance, now)
      invariant created + updated == k && |after| == |points| + created
    {
      MirroredNext(points, items, k, instance, now);
      var item := items[k];
      var row;
      if item.key in points {
        row := points[item.key];
        updated := updated + 1;
      } else {
        row := BlankPoint(now);
        created := created + 1;
      }
      after := after[item.key := MirrorPoint(row, item, instance, now)];
    }
    assert items[..|items|] == items;
    MirroredTells(points, items, instance, now);
  }

  lemma MirroredTells(points: map<PointKey, PointRow>, items: seq<PointIn>, instance: nat, now: int)
    requires UniquePoints(items)
    ensures var after := MirroredPoints(points, items, instance, now);
      && (forall item | item in items :: item.key in after && PointIsMirrored(Before(points, item.key), after[item.key], item, instance, now))
      && (forall key | key in points && (forall item | item in items :: item.key != key) :: key in after && after[key] == points[key])
      && (forall key | key in after :: key in points || exists item :: item in items && item.key == key)
  {
    var after := MirroredPoints(points, items, instance, now);
    forall item | item in items
      ensures item.key in after && PointIsMirrored(Before(points, item.key), after[item.key], item, instance, now)
    {
      var k :| 0 <= k < |items| && items[k] == item;
      FindPointIsUnique(items, k);
    }
  }

  lemma SyncedTells(points: map<PointKey, PointRow>, item: DeviceIn, now: int)
    requires UniquePoints(item.points)
    ensures PointsAreSynced(points, SyncedPoints(points, item, now), item.points, item.instance, now)
  {
    var keep := KeysOf(item.points);
    var retired := RetiredPoints(points, keep, now);
    MirroredTells(retired, item.points, item.instance, now);
    forall p | p in item.points
      ensures Before(retired, p.key) == Before(points, p.key)
    {
      assert p.key in keep;
    }
    forall key | key in points && (forall p | p in item.points :: p.key != key)
      ensures key in retired && PointIsRetired(points[key], retired[key], now)
    {
      assert key !in keep;
    }
  }

  lemma MirroringLosesNone(points: map<PointKey, PointRow>, item: DeviceIn, now: int)
    ensures LostPoints(points, SyncedPoints(points, item, now)) == LostPoints(points, RetiredPoints(points, KeysOf(item.points), now))
  {
    var retired, after := RetiredPoints(points, KeysOf(item.points), now), SyncedPoints(points, item, now);
    forall key | key in points
      ensures after[key].enabled <==> if key in KeysOf(item.points) then true else retired[key].enabled
    {
      assert key in KeysOf(item.points) <==> FindPoint(item.points, key).Some?;
    }
  }

  method SyncPoints(points: map<PointKey, PointRow>, item: DeviceIn, now: int)
    returns (after: map<PointKey, PointRow>, created: nat, updated: nat, retired: nat)
    requires UniquePoints(item.points)
    ensures after == SyncedPoints(points, item, now)
    ensures created + updated == |item.points| && |after| == |points| + created
    ensures retired == |LostPoints(points, after)|
    ensures PointsAreSynced(points, after, item.points, item.instance, now)
  {
    after, retired := RetireMissing(points, KeysOf(item.points), now);
    assert after.Keys == points.Keys;
    assert |after| == |after.Keys| && |points| == |points.Keys|;
    after, created, updated := MirrorItems(after, item.points, item.instance, now);
    MirroringLosesNone(points, item, now);
    SyncedTells(points, item, now);
  }

  // ---- The endpoint ----

  /** Where the mirrored devices of the gateway are, by profile. */
  ghost predicate Indexes(mirrored: map<string, nat>, devices: seq<DeviceRow>, gateway: string) {
    && (forall p | p in mirrored :: mirrored[p] < |devices| && IsMirror(devices[mirrored[p]], gateway) && devices[mirrored[p]].profile.value == p)
    && (forall j | 0 <= j < |devices| && IsMirror(devices[j], gateway) :: devices[j].profile.value in mirrored)
  }

  ghost predicate PartlyAccounted(before: seq<DeviceRow>, after: seq<DeviceRow>, snapshot: seq<DeviceIn>, done: nat, counts: Counts)
    requires done <= |snapshot|
  {
    Accounted(before, after, snapshot[..done], counts)
  }

  lemma FindNext(snapshot: seq<DeviceIn>, k: nat, profile: string)
    requires ValidSnapshot(snapshot) && k < |snapshot|
    ensures Find(snapshot[..k + 1], profile) == if profile == snapshot[k].profile then Some(snapshot[k]) else Find(snapshot[..k], profile)
    ensures profile == snapshot[k].profile ==> Find(snapshot[..k], profile) == None && Find(snapshot, profile) == Some(snapshot[k])
  {
    assert snapshot[..k + 1][..k] == snapshot[..k];
    FindIsUnique(snapshot, k);
  }

  /** The next item of the snapshot mirrors the row at `j`, which no loop has touched. */
  lemma UpdateRow(before: seq<DeviceRow>, devices: seq<DeviceRow>, gateway: string, snapshot: seq<DeviceIn>, k: nat, now: int, j: nat)
    requires ValidSnapshot(snapshot) && UniqueProfiles(before) && k < |snapshot| && j < |before|
    requires PartlySynced(before, devices, gateway, snapshot, k, now)
    requires IsMirror(before[j], gateway) && before[j].profile.value == snapshot[k].profile
    ensures devices[j] == before[j]
    ensures PartlySynced(before, devices[j := MirrorDevice(before[j], snapshot[k], now)], gateway, snapshot, k + 1, now)
  {
    FindNext(snapshot, k, snapshot[k].profile);
    assert devices[j] == SyncedRow(before[j], gateway, snapshot, k, now);
    var after := devices[j := MirrorDevice(before[j], snapshot[k], now)];
    forall i | 0 <= i < |before|
      ensures after[i] == SyncedRow(before[i], gateway, snapshot, k + 1, now)
    {
      if IsMirror(before[i], gateway) {
        FindNext(snapshot, k, before[i].profile.value);
      }
      assert devices[i] == SyncedRow(before[i], gateway, snapshot, k, now);
    }
    assert snapshot[..k + 1][..k] == snapshot[..k];
    assert before[j] in before && snapshot[k].profile in Profiles(before, gateway);
    assert after[|before|..] == devices[|before|..];
  }

  lemma AppendRow(before: seq<DeviceRow>, devices: seq<DeviceRow>, gateway: string, snapshot: seq<DeviceIn>, k: nat, now: int)
    requires ValidSnapshot(snapshot) && k < |snapshot|
    requires PartlySynced(before, devices, gateway, snapshot, k, now)
    requires snapshot[k].profile !in Profiles(before, gateway)
    ensures PartlySynced(before, devices + [MirrorDevice(BlankDevice(gateway, snapshot[k].profile, now), snapshot[k], now)], gateway, snapshot, k + 1, now)
  {
    var row := MirrorDevice(BlankDevice(gateway, snapshot[k].profile, now), snapshot[k], now);
    var after := devices + [row];
    forall i | 0 <= i < |before|
      ensures after[i] == SyncedRow(before[i], gateway, snapshot, k + 1, now)
    {
      if IsMirror(before[i], gateway) {
        assert before[i].profile.value in Profiles(before, gateway);
        FindNext(snapshot, k, before[i].profile.value);
      }
      assert devices[i] == SyncedRow(before[i], gateway, snapshot, k, now);
    }
    assert snapshot[..k + 1][..k] == snapshot[..k];
    assert after[|before|..] == devices[|before|..] + [row];
  }

  function RetiredIfAbsent(row: DeviceRow, gateway: string, snapshot: seq<DeviceIn>, now: int): DeviceRow {
    if IsMirror(row, gateway) && Find(snapshot, row.profile.value).None? then RetireDevice(row, now) else row
  }

  ghost predicate AbsentRetired(before: seq<DeviceRow>, after: seq<DeviceRow>, gateway: string, snapshot: seq<DeviceIn>, now: int) {
    |after| == |before| && forall i | 0 <= i < |before| :: after[i] == RetiredIfAbsent(before[i], gateway, snapshot, now)
  }

  /** A mirrored device of the gateway is retired exactly if the snapshot lacks it. */
  ghost predicate OnlyAbsentRetired(before: seq<DeviceRow>, after: seq<DeviceRow>, gateway: string, snapshot: seq<DeviceIn>, now: int) {
    && |after| == |before|
    && forall j | 0 <= j < |before| ::
         if before[j].gateway == gateway && before[j].profile.Some? && forall item | item in snapshot :: item.profile != before[j].profile.value
         then DeviceIsRetired(before[j], after[j], now) else after[j] == before[j]
  }

  lemma AbsentTells(before: seq<DeviceRow>, after: seq<DeviceRow>, gateway: string, snapshot: seq<DeviceIn>, now: int)
    requires AbsentRetired(before, after, gateway, snapshot, now)
    ensures OnlyAbsentRetired(before, after, gateway, snapshot, now)
  {
    forall j | 0 <= j < |before|
      ensures if before[j].gateway == gateway && before[j].profile.Some? && forall item | item in snapshot :: item.profile != before[j].profile.value
              then DeviceIsRetired(before[j], after[j], now) else after[j] == before[j]
    {
      assert after[j] == RetiredIfAbsent(before[j], gateway, snapshot, now);
    }
  }

  lemma RetiringComesFirst(before: seq<DeviceRow>, after: seq<DeviceRow>, gateway: string, snapshot: seq<DeviceIn>, now: int)
    requires AbsentRetired(before, after, gateway, snapshot, now)
    ensures PartlySynced(before, after, gateway, snapshot, 0, now)
  {
    assert snapshot[..0] == [];
  }

  lemma CountRetired(before: seq<DeviceRow>, devices: seq<DeviceRow>, j: nat, row: DeviceRow)
    requires j < |before| <= |devices| && devices[j] == before[j]
    requires before[j].enabled && !row.enabled && row.points.Keys == before[j].points.Keys
    ensures StoredPoints(devices[j := row]) == StoredPoints(devices)
    ensures DevicesLost(before, devices[j := row]) == DevicesLost(before, devices) + 1
    ensures PointsLost(before, devices[j := row]) == PointsLost(before, devices) + |LostPoints(before[j].points, row.points)|
  {
    LostAtOne(before, devices, j, row);
    StoredPointsAtOne(devices, j, row);
    assert |row.points| == |row.points.Keys| && |before[j].points| == |before[j].points.Keys|;
  }

  /** The first loop after `j` rows, with what it has retired. */
  ghost predicate RetiredSoFar(before: seq<DeviceRow>, devices: seq<DeviceRow>, gateway: string, snapshot: seq<DeviceIn>, now: int,
    j: nat, lostDevices: nat, lostPoints: nat)
  {
    && |devices| == |before|
    && (forall i | j <= i < |before| :: devices[i] == before[i])
    && (forall i | 0 <= i < |before| && i < j :: devices[i] == RetiredIfAbsent(before[i], gateway, snapshot, now))
    && lostDevices == DevicesLost(before, devices) && lostPoints == PointsLost(before, devices)
    && StoredPoints(devices) == StoredPoints(before)
  }

  lemma RetiresNext(before: seq<DeviceRow>, devices: seq<DeviceRow>, gateway: string, snapshot: seq<DeviceIn>, now: int,
    j: nat, lostDevices: nat, lostPoints: nat, row: DeviceRow)
    requires RetiredSoFar(before, devices, gateway, snapshot, now, j, lostDevices, lostPoints) && j < |before|
    requires before[j].enabled && row == RetireDevice(before[j], now) == RetiredIfAbsent(before[j], gateway, snapshot, now)
    ensures RetiredSoFar(before, devices[j := row], gateway, snapshot, now, j + 1, lostDevices + 1,
                         lostPoints + |LostPoints(before[j].points, row.points)|)
  {
    CountRetired(before, devices, j, row);
  }

  function Plus(counts: Counts, devices: (nat, nat), points: (nat, nat, nat)): Counts {
    counts.(createdDevices := counts.createdDevices + devices.0, updatedDevices := counts.updatedDevices + devices.1,
            createdPoints := counts.createdPoints + points.0, updatedPoints := counts.updatedPoints + points.1,
            retiredPoints := counts.retiredPoints + points.2)
  }

  lemma CountUpdated(before: seq<DeviceRow>, devices: seq<DeviceRow>, snapshot: seq<DeviceIn>, k: nat, counts: Counts,
    j: nat, row: DeviceRow, created: nat, updated: nat)
    requires k < |snapshot| && PartlyAccounted(before, devices, snapshot, k, counts)
    requires j < |before| && devices[j] == before[j] && row.enabled
    requires created + updated == |snapshot[k].points| && |row.points| == |before[j].points| + created
    ensures PartlyAccounted(before, devices[j := row], snapshot, k + 1,
      Plus(counts, (0, 1), (created, updated, |LostPoints(before[j].points, row.points)|)))
  {
    assert snapshot[..k + 1][..k] == snapshot[..k];
    LostAtOne(before, devices, j, row);
    StoredPointsAtOne(devices, j, row);
  }

  lemma CountCreated(before: seq<DeviceRow>, devices: seq<DeviceRow>, snapshot: seq<DeviceIn>, k: nat, counts: Counts,
    row: DeviceRow, created: nat, updated: nat)
    requires k < |snapshot| && PartlyAccounted(before, devices, snapshot, k, counts)
    requires created + updated == |snapshot[k].points| && |row.points| == created
    ensures PartlyAccounted(before, devices + [row], snapshot, k + 1, Plus(counts, (1, 0), (created, updated, 0)))
  {
    assert snapshot[..k + 1][..k] == snapshot[..k];
    LostIgnoresNewRows(before, devices, [row]);
    assert (devices + [row])[..|devices|] == devices;
  }

  class EdgeInventory {
    var devices: seq<DeviceRow>

    constructor (devices: seq<DeviceRow>)
      ensures this.devices == devices
    {
      this.devices := devices;
    }

    method IndexMirrored(gateway: string) returns (mirrored: map<string, nat>)
      ensures Indexes(mirrored, devices, gateway)
    {
      mirrored := map[];
      for j := 0 to |devices|
        invariant Indexes(mirrored, devices[..j], gateway)
      {
        if IsMirror(devices[j], gateway) {
          mirrored := mirrored[devices[j].profile.value := j];
        }
      }
      assert devices[..|devices|] == devices;
    }

    /** The first loop: retires the mirrored devices that the snapshot lacks, with their points. */
    method RetireAbsent(gateway: string, snapshot: seq<DeviceIn>, now: int) returns (counts: Counts)
      modifies this
      ensures AbsentRetired(old(devices), devices, gateway, snapshot, now)
      ensures OnlyAbsentRetired(old(devices), devices, gateway, snapshot, now)
      ensures counts == Counts(0, 0, DevicesLost(old(devices), devices), 0, 0, PointsLost(old(devices), devices))
      ensures StoredPoints(devices) == StoredPoints(old(devices))
    {
      var retiredDevices, retiredPoints := 0, 0;
      ghost var before := devices;
      NothingLost(before);
      for j := 0 to |devices|
        invariant RetiredSoFar(before, devices, gateway, snapshot, now, j, retiredDevices, retiredPoints)
      {
        var row := devices[j];
        if IsMirror(row, gateway) && Find(snapshot, row.profile.value).None? && row.enabled {
          var retiredRow, retired := RetireWithPoints(row, now);
          RetiresNext(before, devices, gateway, snapshot, now, j, retiredDevices, retiredPoints, retiredRow);
          devices := devices[j := retiredRow];
          retiredDevices, retiredPoints := retiredDevices + 1, retiredPoints + retired;
        }
      }
      counts := Counts(0, 0, retiredDevices, 0, 0, retiredPoints);
      AbsentTells(before, devices, gateway, snapshot, now);
    }

    static method RetireWithPoints(row: DeviceRow, now: int) returns (after: DeviceRow, retired: nat)
      requires row.enabled
      ensures after == RetireDevice(row, now) && retired == |LostPoints(row.points, after.points)|
    {
      after := row.(enabled := false, lifecycle := "retired", retiredAt := Some(now), updatedAt := now);
      var points;
      points, retired := RetireMissing(row.points, {}, now);
      after := after.(points := points);
    }

    /** The second loop: creates or updates the device of every snapshot item. */
    method MirrorAll(gateway: string, snapshot: seq<DeviceIn>, now: int, mirrored: map<string, nat>, retired: Counts, ghost before: seq<DeviceRow>)
      returns (counts: Counts)
      requires ValidSnapshot(snapshot) && UniqueProfiles(before) && Indexes(mirrored, before, gateway)
      requires PartlySynced(before, devices, gateway, snapshot, 0, now)
      requires PartlyAccounted(before, devices, snapshot, 0, retired)
      modifies this
      ensures PartlySynced(before, devices, gateway, snapshot, |snapshot|, now)
      ensures PartlyAccounted(before, devices, snapshot, |snapshot|, counts)
    {
      counts := retired;
      for k := 0 to |snapshot|
        invariant PartlySynced(before, devices, gateway, snapshot, k, now)
        invariant PartlyAccounted(before, devices, snapshot, k, counts)
      {
        var item := snapshot[k];
        if item.profile in mirrored {
          var j := mirrored[item.profile];
          UpdateRow(before, devices, gateway, snapshot, k, now, j);
          var row := MirrorFields(devices[j], item, now);
          var points, created, updated, lost := SyncPoints(devices[j].points, item, now);
          row := row.(points := points);
          CountUpdated(before, devices, snapshot, k, counts, j, row, created, updated);
          devices := devices[j := row];
          counts := Plus(counts, (0, 1), (created, updated, lost));
        } else {
          assert item.profile !in Profiles(before, gateway);
          AppendRow(before, devices, gateway, snapshot, k, now);
          var row := MirrorFields(BlankDevice(gateway, item.profile, now), item, now);
          var points, created, updated, lost := SyncPoints(map[], item, now);
          row := row.(points := points);
          CountCreated(before, devices, snapshot, k, counts, row, created, updated);
          devices := devices + [row];
          counts := Plus(counts, (1, 0), (created, updated, lost));
        }
      }
    }

    method EdgeSyncInventory(gateway: string, snapshot: seq<DeviceIn>, now: int) returns (counts: Counts)
      requires ValidSnapshot(snapshot) && UniqueProfiles(devices)
      modifies this
      ensures Synced(old(devices), devices, gateway, snapshot, now)
      ensures TableIsSynced(old(devices), devices, gateway, snapshot, now)
      ensures Accounted(old(devices), devices, snapshot, counts)
    {
      var mirrored := IndexMirrored(gateway);
      counts := RetireAbsent(gateway, snapshot, now);
      RetiringComesFirst(old(devices), devices, gateway, snapshot, now);
      assert snapshot[..0] == [];
      counts := MirrorAll(gateway, snapshot, now, mirrored, counts, old(devices));
      assert snapshot[..|snapshot|] == snapshot;
      TableTells(old(devices), devices, gateway, snapshot, now);
    }
  }

  lemma {:induction false} NothingLost(devices: seq<DeviceRow>)
    ensures PointsLost(devices, devices) == 0 && DevicesLost(devices, devices) == 0
  {
    if devices != [] {
      NothingLost(devices[..|devices| - 1]);
      assert LostPoints(devices[|devices| - 1].points, devices[|devices| - 1].points) == {};
    }
  }

  // ---- What one synchronisation achieves ----

  ghost function EnabledProfiles(devices: seq<DeviceRow>, gateway: string): set<string> {
    set row | row in devices && IsMirror(row, gateway) && row.enabled :: row.profile.value
  }

  function SnapshotProfiles(snapshot: seq<DeviceIn>): set<string> {
    set item | item in snapshot :: item.profile
  }

  ghost function EnabledPoints(points: map<PointKey, PointRow>): set<PointKey> {
    set key | key in points && points[key].enabled
  }

  /** The row shows the device of the snapshot, with exactly its points enabled. */
  ghost predicate Shows(row: DeviceRow, item: DeviceIn) {
    && row.enabled && row.instance == item.instance && row.name == item.name
    && EnabledPoints(row.points) == KeysOf(item.points)
    && forall p | p in item.points ::
         p.key in row.points && row.points[p.key].name == p.name && row.points[p.key].deviceInstance == item.instance
  }

  lemma SyncedPointsAt(points: map<PointKey, PointRow>, item: DeviceIn, now: int, key: PointKey)
    requires key in points || key in KeysOf(item.points)
    ensures var after := SyncedPoints(points, item, now);
      && key in after
      && after[key] == match FindPoint(item.points, key)
                       case Some(p) => MirrorPoint(PointOrBlank(points, key, now), p, item.instance, now)
                       case None => RetirePoint(points[key], now)
    ensures FindPoint(item.points, key).Some? <==> key in KeysOf(item.points)
  {
  }

  lemma MirroredShows(row: DeviceRow, item: DeviceIn, now: int)
    requires UniquePoints(item.points)
    ensures Shows(MirrorDevice(row, item, now), item)
  {
    var after := SyncedPoints(row.points, item, now);
    forall key | key in after
      ensures after[key].enabled <==> key in KeysOf(item.points)
    {
      SyncedPointsAt(row.points, item, now, key);
    }
    forall p | p in item.points
      ensures p.key in after && after[p.key].name == p.name && after[p.key].deviceInstance == item.instance
    {
      var k :| 0 <= k < |item.points| && item.points[k] == p;
      assert p.key in KeysOf(item.points);
      FindPointIsUnique(item.points, k);
      SyncedPointsAt(row.points, item, now, p.key);
    }
  }

  lemma ValidPrefix(snapshot: seq<DeviceIn>)
    requires ValidSnapshot(snapshot) && snapshot != []
    ensures ValidSnapshot(snapshot[..|snapshot| - 1])
    ensures forall p | p != snapshot[|snapshot| - 1].profile :: Find(snapshot, p) == Find(snapshot[..|snapshot| - 1], p)
  {
  }

  ghost predicate IsNewRow(row: DeviceRow, snapshot: seq<DeviceIn>, known: set<string>, gateway: string, now: int) {
    && IsMirror(row, gateway) && row.profile.value !in known && Find(snapshot, row.profile.value).Some?
    && row == MirrorDevice(BlankDevice(gateway, row.profile.value, now), Find(snapshot, row.profile.value).value, now)
  }

  lemma AddRow(rows: seq<DeviceRow>, row: DeviceRow, gateway: string)
    requires UniqueProfiles(rows) && IsMirror(row, gateway)
    requires forall r | r in rows :: r.profile != row.profile
    ensures UniqueProfiles(rows + [row])
    ensures Profiles(rows + [row], gateway) == Profiles(rows, gateway) + {row.profile.value}
  {
    forall r | r in rows + [row] && IsMirror(r, gateway)
      ensures r.profile.value in Profiles(rows, gateway) + {row.profile.value}
    {
      assert r in rows || r == row;
    }
  }

  lemma NewRowsOfPrefix(row: DeviceRow, snapshot: seq<DeviceIn>, known: set<string>, gateway: string, now: int)
    requires ValidSnapshot(snapshot) && snapshot != []
    requires IsNewRow(row, snapshot[..|snapshot| - 1], known, gateway, now)
    ensures IsNewRow(row, snapshot, known, gateway, now) && row.profile.value != snapshot[|snapshot| - 1].profile
  {
    ValidPrefix(snapshot);
  }

  lemma {:induction false} NewRowsAreNew(snapshot: seq<DeviceIn>, known: set<string>, gateway: string, now: int)
    requires ValidSnapshot(snapshot)
    ensures forall row | row in NewRows(snapshot, known, gateway, now) :: IsNewRow(row, snapshot, known, gateway, now)
  {
    if snapshot != [] {
      var last := |snapshot| - 1;
      var rows := NewRows(snapshot[..last], known, gateway, now);
      NewRowsAreNew(snapshot[..last], known, gateway, now);
      forall row | row in NewRows(snapshot, known, gateway, now)
        ensures IsNewRow(row, snapshot, known, gateway, now)
      {
        if row in rows {
          NewRowsOfPrefix(row, snapshot, known, gateway, now);
        }
      }
    }
  }

  lemma {:induction false} NewRowsAreTheUnknown(snapshot: seq<DeviceIn>, known: set<string>, gateway: string, now: int)
    requires ValidSnapshot(snapshot)
    ensures UniqueProfiles(NewRows(snapshot, known, gateway, now))
    ensures Profiles(NewRows(snapshot, known, gateway, now), gateway) == SnapshotProfiles(snapshot) - known
  {
    if snapshot != [] {
      var last := |snapshot| - 1;
      var item, rows := snapshot[last], NewRows(snapshot[..last], known, gateway, now);
      NewRowsAreTheUnknown(snapshot[..last], known, gateway, now);
      NewRowsAreNew(snapshot[..last], known, gateway, now);
      forall row | row in rows
        ensures row.profile != Some(item.profile)
      {
        NewRowsOfPrefix(row, snapshot, known, gateway, now);
      }
      ProfilesOfNext(snapshot);
      if item.profile !in known {
        AddRow(rows, MirrorDevice(BlankDevice(gateway, item.profile, now), item, now), gateway);
      } else {
        assert NewRows(snapshot, known, gateway, now) == rows;
      }
    }
  }

  lemma ProfilesOfNext(snapshot: seq<DeviceIn>)
    requires snapshot != []
    ensures SnapshotProfiles(snapshot) == SnapshotProfiles(snapshot[..|snapshot| - 1]) + {snapshot[|snapshot| - 1].profile}
  {
    assert snapshot == snapshot[..|snapshot| - 1] + [snapshot[|snapshot| - 1]];
  }

  /** After one synchronisation the enabled mirrored profiles are the snapshot's, each of them shows
      its snapshot device, and every other device is as it was. */
  lemma SyncMirrorsTheSnapshot(before: seq<DeviceRow>, after: seq<DeviceRow>, gateway: string, snapshot: seq<DeviceIn>, now: int)
    requires ValidSnapshot(snapshot) && UniqueProfiles(before) && Synced(before, after, gateway, snapshot, now)
    ensures UniqueProfiles(after)
    ensures EnabledProfiles(after, gateway) == SnapshotProfiles(snapshot)
    ensures forall row, item | row in after && item in snapshot && IsMirror(row, gateway) && row.profile == Some(item.profile) :: Shows(row, item)
    ensures forall j | 0 <= j < |before| && !IsMirror(before[j], gateway) :: after[j] == before[j]
    ensures forall j | |before| <= j < |after| :: IsMirror(after[j], gateway)
  {
    var known := Profiles(before, gateway);
    assert snapshot[..|snapshot|] == snapshot;
    NewRowsAreNew(snapshot, known, gateway, now);
    NewRowsAreTheUnknown(snapshot, known, gateway, now);
    var rows := NewRows(snapshot, known, gateway, now);
    assert after == after[..|before|] + rows;
    forall j | 0 <= j < |after|
      ensures RowIsSynced(before, after[j], j, gateway, snapshot)
    {
      if j < |before| {
        RowAfterSync(before[j], gateway, snapshot, now);
        assert after[j] == SyncedRow(before[j], gateway, snapshot, |snapshot|, now);
        if IsMirror(before[j], gateway) {
          assert before[j] in before;
        }
      } else {
        var row := rows[j - |before|];
        assert IsNewRow(row, snapshot, known, gateway, now);
        var item := Find(snapshot, row.profile.value).value;
        MirroredShows(BlankDevice(gateway, row.profile.value, now), item, now);
        assert after[j] == row;
      }
    }
    SyncedTable(before, after, gateway, snapshot, rows);
  }

  lemma MirrorTells(row: DeviceRow, item: DeviceIn, now: int)
    requires UniquePoints(item.points)
    ensures DeviceIsMirrored(row, MirrorDevice(row, item, now), item, now)
  {
    SyncedTells(row.points, item, now);
  }

  lemma FindIsTheOne(snapshot: seq<DeviceIn>, item: DeviceIn)
    requires ValidSnapshot(snapshot) && item in snapshot
    ensures Find(snapshot, item.profile) == Some(item) && UniquePoints(item.points)
  {
    var k :| 0 <= k < |snapshot| && snapshot[k] == item;
    FindIsUnique(snapshot, k);
  }

  lemma RowTells(row: DeviceRow, gateway: string, snapshot: seq<DeviceIn>, now: int)
    requires ValidSnapshot(snapshot)
    ensures RowFollows(row, SyncedRow(row, gateway, snapshot, |snapshot|, now), gateway, snapshot, now)
  {
    RowAfterSync(row, gateway, snapshot, now);
    assert snapshot[..|snapshot|] == snapshot;
    forall item | item in snapshot && row.profile == Some(item.profile)
      ensures DeviceIsMirrored(row, MirrorDevice(row, item, now), item, now) && Find(snapshot, item.profile) == Some(item)
    {
      FindIsTheOne(snapshot, item);
      MirrorTells(row, item, now);
    }
  }

  lemma NewRowTells(before: seq<DeviceRow>, row: DeviceRow, gateway: string, snapshot: seq<DeviceIn>, now: int)
    requires ValidSnapshot(snapshot) && IsNewRow(row, snapshot, Profiles(before, gateway), gateway, now)
    ensures IsCreated(before, row, gateway, snapshot, now)
  {
    var item := Find(snapshot, row.profile.value).value;
    var blank := BlankDevice(gateway, row.profile.value, now);
    FindIsTheOne(snapshot, item);
    MirrorTells(blank, item, now);
    assert IsUnknown(blank, gateway, item.profile, now);
    forall was | was in before && was.gateway == gateway
      ensures was.profile != row.profile
    {
      assert was.profile.Some? ==> was.profile.value in Profiles(before, gateway);
    }
  }

  /** The whole synchronisation, in the rows' own fields. */
  lemma TableTells(before: seq<DeviceRow>, after: seq<DeviceRow>, gateway: string, snapshot: seq<DeviceIn>, now: int)
    requires ValidSnapshot(snapshot) && UniqueProfiles(before) && Synced(before, after, gateway, snapshot, now)
    ensures TableIsSynced(before, after, gateway, snapshot, now)
  {
    assert snapshot[..|snapshot|] == snapshot;
    forall j | 0 <= j < |before|
      ensures RowFollows(before[j], after[j], gateway, snapshot, now)
    {
      RowTells(before[j], gateway, snapshot, now);
    }
    NewRowsAreNew(snapshot, Profiles(before, gateway), gateway, now);
    forall j | |before| <= j < |after|
      ensures IsCreated(before, after[j], gateway, snapshot, now)
    {
      assert after[|before|..][j - |before|] == after[j];
      NewRowTells(before, after[j], gateway, snapshot, now);
    }
    SyncMirrorsTheSnapshot(before, after, gateway, snapshot, now);
    forall item | item in snapshot
      ensures exists row :: row in after && row.gateway == gateway && row.profile == Some(item.profile)
    {
      assert item.profile in SnapshotProfiles(snapshot) && item.profile in EnabledProfiles(after, gateway);
    }
  }

  /** What holds of each row of the result: the old row's identity, or a profile that had no row. */
  ghost predicate RowIsSynced(before: seq<DeviceRow>, row: DeviceRow, j: nat, gateway: string, snapshot: seq<DeviceIn>) {
    && (j < |before| ==> row.gateway == before[j].gateway && row.profile == before[j].profile)
    && (j >= |before| ==> IsMirror(row, gateway) && row.profile.value !in Profiles(before, gateway))
    && (IsMirror(row, gateway) ==>
          match Find(snapshot, row.profile.value)
          case Some(item) => Shows(row, item)
          case None => !row.enabled)
  }

  lemma RowAfterSync(row: DeviceRow, gateway: string, snapshot: seq<DeviceIn>, now: int)
    requires ValidSnapshot(snapshot)
    ensures var after := SyncedRow(row, gateway, snapshot, |snapshot|, now);
      && after.gateway == row.gateway && after.profile == row.profile
      && (IsMirror(row, gateway) ==>
            match Find(snapshot, row.profile.value)
            case Some(item) => after == MirrorDevice(row, item, now) && Shows(after, item)
            case None => after == RetireDevice(row, now) && !after.enabled)
  {
    assert snapshot[..|snapshot|] == snapshot;
    if IsMirror(row, gateway) && Find(snapshot, row.profile.value).Some? {
      var item := Find(snapshot, row.profile.value).value;
      MirroredShows(row, item, now);
    }
  }

  lemma SyncedTable(before: seq<DeviceRow>, after: seq<DeviceRow>, gateway: string, snapshot: seq<DeviceIn>, rows: seq<DeviceRow>)
    requires ValidSnapshot(snapshot) && UniqueProfiles(before) && UniqueProfiles(rows)
    requires |before| <= |after| && after[|before|..] == rows
    requires Profiles(rows, gateway) == SnapshotProfiles(snapshot) - Profiles(before, gateway)
    requires forall j | 0 <= j < |after| :: RowIsSynced(before, after[j], j, gateway, snapshot)
    ensures UniqueProfiles(after)
    ensures EnabledProfiles(after, gateway) == SnapshotProfiles(snapshot)
    ensures forall row, item | row in after && item in snapshot && IsMirror(row, gateway) && row.profile == Some(item.profile) :: Shows(row, item)
  {
    var n := |before|;
    forall i, j | 0 <= i < j < |after| && after[i].profile.Some?
      ensures after[i].gateway != after[j].gateway || after[i].profile != after[j].profile
    {
      assert RowIsSynced(before, after[i], i, gateway, snapshot) && RowIsSynced(before, after[j], j, gateway, snapshot);
      if i >= n {
        assert after[i] == rows[i - n] && after[j] == rows[j - n];
      } else if j >= n {
        assert before[i] in before;
      }
    }
    forall row, item | row in after && item in snapshot && IsMirror(row, gateway) && row.profile == Some(item.profile)
      ensures Shows(row, item)
    {
      var j :| 0 <= j < |after| && after[j] == row;
      var k :| 0 <= k < |snapshot| && snapshot[k] == item;
      assert RowIsSynced(before, after[j], j, gateway, snapshot);
      FindIsUnique(snapshot, k);
    }
    forall p | p in SnapshotProfiles(snapshot)
      ensures p in EnabledProfiles(after, gateway)
    {
      var item :| item in snapshot && item.profile == p;
      var row := RowWith(before, after, gateway, p, rows);
      assert Shows(row, item);
    }
    forall row | row in after && IsMirror(row, gateway) && row.enabled
      ensures row.profile.value in SnapshotProfiles(snapshot)
    {
      var j :| 0 <= j < |after| && after[j] == row;
      assert RowIsSynced(before, after[j], j, gateway, snapshot);
    }
  }

  lemma RowWith(before: seq<DeviceRow>, after: seq<DeviceRow>, gateway: string, profile: string, rows: seq<DeviceRow>) returns (row: DeviceRow)
    requires |before| <= |after| && after[|before|..] == rows
    requires forall j | 0 <= j < |before| :: after[j].gateway == before[j].gateway && after[j].profile == before[j].profile
    requires profile in Profiles(before, gateway) + Profiles(rows, gateway)
    ensures row in after && IsMirror(row, gateway) && row.profile == Some(profile)
  {
    if profile in Profiles(before, gateway) {
      var r :| r in before && IsMirror(r, gateway) && r.profile.value == profile;
      var j :| 0 <= j < |before| && before[j] == r;
      row := after[j];
    } else {
      var r :| r in rows && IsMirror(r, gateway) && r.profile.value == profile;
      row := r;
      assert row in after[|before|..];
    }
  }

  // ---- The same snapshot again ----

  lemma MirrorPointTwice(row: PointRow, item: PointIn, instance: nat, now: int)
    ensures MirrorPoint(MirrorPoint(row, item, instance, now), item, instance, now) == MirrorPoint(row, item, instance, now)
  {
  }

  lemma SyncPointsTwice(points: map<PointKey, PointRow>, item: DeviceIn, now: int)
    ensures SyncedPoints(SyncedPoints(points, item, now), item, now) == SyncedPoints(points, item, now)
  {
    var once := SyncedPoints(points, item, now);
    var twice := SyncedPoints(once, item, now);
    forall key | key in once
      ensures key in twice && twice[key] == once[key]
    {
      SyncedPointsAt(points, item, now, key);
      SyncedPointsAt(once, item, now, key);
      var found := FindPoint(item.points, key);
      if found.Some? {
        MirrorPointTwice(PointOrBlank(points, key, now), found.value, item.instance, now);
      }
    }
    assert twice.Keys == once.Keys;
  }

  lemma MirrorTwice(row: DeviceRow, item: DeviceIn, now: int)
    ensures MirrorDevice(MirrorDevice(row, item, now), item, now) == MirrorDevice(row, item, now)
  {
    SyncPointsTwice(row.points, item, now);
  }

  /** A row that has been synchronised with the snapshot. */
  ghost predicate Settled(row: DeviceRow, gateway: string, snapshot: seq<DeviceIn>, now: int) {
    IsMirror(row, gateway) ==>
      match Find(snapshot, row.profile.value)
      case Some(item) => MirrorDevice(row, item, now) == row && Shows(row, item)
      case None => !row.enabled
  }

  lemma SyncSettles(before: seq<DeviceRow>, after: seq<DeviceRow>, gateway: string, snapshot: seq<DeviceIn>, now: int, j: nat)
    requires ValidSnapshot(snapshot) && Synced(before, after, gateway, snapshot, now) && j < |after|
    ensures Settled(after[j], gateway, snapshot, now)
  {
    assert snapshot[..|snapshot|] == snapshot;
    if j < |before| {
      assert after[j] == SyncedRow(before[j], gateway, snapshot, |snapshot|, now);
      RowAfterSync(before[j], gateway, snapshot, now);
      if IsMirror(before[j], gateway) && Find(snapshot, before[j].profile.value).Some? {
        MirrorTwice(before[j], Find(snapshot, before[j].profile.value).value, now);
      }
    } else {
      var known := Profiles(before, gateway);
      NewRowsAreNew(snapshot, known, gateway, now);
      var row := after[|before|..][j - |before|];
      assert IsNewRow(row, snapshot, known, gateway, now);
      var item := Find(snapshot, row.profile.value).value;
      MirrorTwice(BlankDevice(gateway, row.profile.value, now), item, now);
      MirroredShows(BlankDevice(gateway, row.profile.value, now), item, now);
    }
  }

  lemma SettledStays(row: DeviceRow, gateway: string, snapshot: seq<DeviceIn>, now: int, later: int)
    requires ValidSnapshot(snapshot) && Settled(row, gateway, snapshot, now)
    ensures var again := SyncedRow(row, gateway, snapshot, |snapshot|, later);
      && again.enabled == row.enabled && again.points.Keys == row.points.Keys
      && LostPoints(row.points, again.points) == {}
      && (later == now ==> again == row)
  {
    RowAfterSync(row, gateway, snapshot, later);
    if IsMirror(row, gateway) && Find(snapshot, row.profile.value).Some? {
      var item := Find(snapshot, row.profile.value).value;
      var again := MirrorDevice(row, item, later);
      assert KeysOf(item.points) <= row.points.Keys by {
        assert EnabledPoints(row.points) <= row.points.Keys;
      }
      forall key | key in row.points && row.points[key].enabled
        ensures again.points[key].enabled
      {
        assert key in EnabledPoints(row.points) && key in EnabledPoints(again.points);
      }
    }
  }

  lemma {:induction false} NothingLostBetween(before: seq<DeviceRow>, after: seq<DeviceRow>)
    requires |before| == |after|
    requires forall j | 0 <= j < |before| :: after[j].enabled == before[j].enabled && LostPoints(before[j].points, after[j].points) == {}
    requires forall j | 0 <= j < |before| :: after[j].points.Keys == before[j].points.Keys
    ensures PointsLost(before, after) == 0 && DevicesLost(before, after) == 0 && StoredPoints(after) == StoredPoints(before)
  {
    if before != [] {
      var last := |before| - 1;
      NothingLostBetween(before[..last], after[..last]);
      assert after[last].points.Keys == before[last].points.Keys;
      assert |after[last].points| == |after[last].points.Keys| && |before[last].points| == |before[last].points.Keys|;
    }
  }

  lemma {:induction false} NoNewRows(snapshot: seq<DeviceIn>, known: set<string>, gateway: string, now: int)
    requires SnapshotProfiles(snapshot) <= known
    ensures NewRows(snapshot, known, gateway, now) == []
  {
    if snapshot != [] {
      ProfilesOfNext(snapshot);
      NoNewRows(snapshot[..|snapshot| - 1], known, gateway, now);
    }
  }

  /** The same snapshot again creates and retires nothing, at any later time; at the same time it
      changes nothing at all. */
  lemma {:induction false} SecondSyncChangesNothing(before: seq<DeviceRow>, after: seq<DeviceRow>, again: seq<DeviceRow>, gateway: string,
    snapshot: seq<DeviceIn>, now: int, later: int, counts: Counts)
    requires ValidSnapshot(snapshot) && UniqueProfiles(before)
    requires Synced(before, after, gateway, snapshot, now) && Synced(after, again, gateway, snapshot, later)
    requires Accounted(after, again, snapshot, counts)
    ensures counts == Counts(0, |snapshot|, 0, 0, SnapshotPoints(snapshot), 0)
    ensures later == now ==> again == after
  {
    var known := Profiles(after, gateway);
    SyncMirrorsTheSnapshot(before, after, gateway, snapshot, now);
    assert SnapshotProfiles(snapshot) <= known;
    assert snapshot[..|snapshot|] == snapshot;
    NoNewRows(snapshot, known, gateway, later);
    assert |again[|after|..]| == 0;
    forall j | 0 <= j < |after|
      ensures again[j].enabled == after[j].enabled && again[j].points.Keys == after[j].points.Keys
      ensures LostPoints(after[j].points, again[j].points) == {}
      ensures later == now ==> again[j] == after[j]
    {
      SyncSettles(before, after, gateway, snapshot, now, j);
      SettledStays(after[j], gateway, snapshot, now, later);
      assert again[j] == SyncedRow(after[j], gateway, snapshot, |snapshot|, later);
    }
    NothingLostBetween(after, again);
  }
}
