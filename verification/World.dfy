/** The latest measurement of each source. The engine updates a `World` in place;
    its value at any moment is a `WorldView`, on which decisions and snapshots rest. */
module Worlds {
  import opened Units

  /** A device id, as its rank among the configured serials: only its order
      and its identity are ever used. */
  type DeviceId = int

  datatype Weekday = Mon | Tue | Wed | Thu | Fri | Sat | Sun

  datatype Clock = Clock(now: Timestamp, dayOrdinal: U32, weekday: Weekday)

  datatype BatteryState = BatteryState(
    soc: Soc,
    maxDischarge: U32,
    maxCharge: U32,
    currentPower: Watts,  // above zero: discharging
    calibrating: bool,
    limitReached: bool,
    fault: bool)

  datatype ChargerState = ChargerState(power: U32)

  datatype Measurement = Battery(battery: BatteryState) | Charger(charger: ChargerState)

  datatype Phases = Phases(a: real, b: real, c: real)

  /** Positive imports, negative exports. */
  datatype MeterReading = MeterReading(total: real, phases: Phases)

  const NO_READING := MeterReading(0.0, Phases(0.0, 0.0, 0.0))

  datatype WorldView = WorldView(
    grid: MeterReading,
    solar: real,
    devices: map<DeviceId, Measurement>,
    meterAt: Option<Timestamp>,
    sampledAt: map<DeviceId, Timestamp>)
  {
    /** The keys holding a battery. */
    function BatteryIds(): set<DeviceId> { set id | id in devices && devices[id].Battery? }

    /** Every battery, in id order. */
    function Batteries(): seq<DeviceId> { Ascending(BatteryIds()) }

    /** The lowest-id battery, the one a setpoint is sized on. */
    function Primary(): Option<BatteryState>
    {
      if BatteryIds() == {} then None
      else
        AscendingIsSorted(BatteryIds());
        Some(devices[Batteries()[0]].battery)
    }

    function FlowOf(ids: seq<DeviceId>): Watts
      requires forall id | id in ids :: id in BatteryIds()
    {
      if ids == [] then 0
      else
        var last := ids[|ids| - 1];
        assert last in ids;
        assert last in BatteryIds();
        Add(FlowOf(ids[..|ids| - 1]), devices[last].battery.currentPower)
    }

    /** Every battery's flow, folded in id order with the saturating sum. */
    function BatteryFlow(): Watts
    {
      AscendingIsSorted(BatteryIds());
      FlowOf(Batteries())
    }

    /** The meter's total with every battery's flow added back. */
    function UnderlyingGrid(): real { grid.total + BatteryFlow() as real }

    function ChargerIds(): set<DeviceId>
    {
      set id | id in devices && devices[id].Charger? && id in sampledAt
    }

    /** The first charger with a sample time, and that time. */
    function TheCharger(): Option<(ChargerState, Timestamp)>
    {
      if ChargerIds() == {} then None
      else
        AscendingIsSorted(ChargerIds());
        var id := Ascending(ChargerIds())[0];
        Some((devices[id].charger, sampledAt[id]))
    }

    function WithMeter(at: Option<Timestamp>, reading: MeterReading, production: real): WorldView
    {
      this.(grid := reading, solar := production, meterAt := at)
    }

    function WithDevice(id: DeviceId, at: Timestamp, measurement: Measurement): WorldView
    {
      this.(devices := devices[id := measurement], sampledAt := sampledAt[id := at])
    }
  }

  const EMPTY_WORLD := WorldView(NO_READING, 0.0, map[], None, map[])

  // --- Ids in order ---

  ghost predicate StrictlyAscending(s: seq<int>)
  {
    forall i, j | 0 <= i < j < |s| :: s[i] < s[j]
  }

  lemma Inhabited(s: set<int>)
    ensures s == {} || exists x :: x in s
  {
    if forall x :: x !in s { assert s == {}; }
  }

  lemma {:induction false} LeastExists(s: set<int>)
    requires s != {}
    ensures exists x :: x in s && forall y | y in s :: x <= y
    decreases |s|
  {
    Inhabited(s);
    var x :| x in s;
    var rest := s - {x};
    if rest == {} {
      assert forall y | y in s :: y == x || y in rest;
    } else {
      LeastExists(rest);
      var least :| least in rest && forall y | y in rest :: least <= y;
      var m := Min(x, least);
      assert forall y | y in s :: y == x || y in rest;
      assert m in s && forall y | y in s :: m <= y;
    }
  }

  function Least(s: set<int>): (least: int)
    requires s != {}
    ensures least in s && forall y | y in s :: least <= y
  {
    LeastExists(s);
    var least :| least in s && forall y | y in s :: least <= y;
    least
  }

  /** A set of ids in ascending order, as a `BTreeMap` iterates its keys. */
  function Ascending(s: set<int>): seq<int>
    decreases |s|
  {
    if s == {} then [] else [Least(s)] + Ascending(s - {Least(s)})
  }

  lemma {:induction false} AscendingIsSorted(s: set<int>)
    ensures StrictlyAscending(Ascending(s))
    ensures forall x :: x in Ascending(s) <==> x in s
    ensures |Ascending(s)| == |s|
    ensures s != {} ==> Ascending(s)[0] == Least(s)
    decreases |s|
  {
    if s != {} {
      var least, rest := Least(s), s - {Least(s)};
      AscendingIsSorted(rest);
      SortedWithLeast(s, least, rest, Ascending(rest));
    }
  }

  lemma SortedWithLeast(s: set<int>, least: int, rest: set<int>, tail: seq<int>)
    requires least in s && (forall y | y in s :: least <= y) && rest == s - {least}
    requires StrictlyAscending(tail) && |tail| == |rest| && forall x :: x in tail <==> x in rest
    ensures StrictlyAscending([least] + tail) && |[least] + tail| == |s|
    ensures forall x :: x in [least] + tail <==> x in s
  {
    var all := [least] + tail;
    forall i, j | 0 <= i < j < |all| ensures all[i] < all[j] {
      assert all[j] == tail[j - 1];
      assert tail[j - 1] in rest;
    }
    assert s == rest + {least};
  }

  // --- What the projection says ---

  /** The battery decisions are sized on is the one no other battery is listed before. */
  lemma PrimaryIsTheFirst(w: WorldView, id: DeviceId)
    requires id in w.devices && w.devices[id].Battery?
    requires forall other | other in w.devices && w.devices[other].Battery? :: id <= other
    ensures w.Primary() == Some(w.devices[id].battery)
  {
    AscendingIsSorted(w.BatteryIds());
    assert id in w.BatteryIds();
  }

  lemma NoBatteryNoPrimary(w: WorldView)
    ensures w.Primary().None? <==> forall id | id in w.devices :: !w.devices[id].Battery?
  {
    if w.BatteryIds() == {} {
      forall id | id in w.devices ensures !w.devices[id].Battery? { assert id !in w.BatteryIds(); }
    } else {
      Inhabited(w.BatteryIds());
    }
  }

  /** The charger guard reads the first charger whose sample has a time. */
  lemma ChargerIsTheFirst(w: WorldView, id: DeviceId)
    requires id in w.devices && w.devices[id].Charger? && id in w.sampledAt
    requires forall other | other in w.devices && w.devices[other].Charger? && other in w.sampledAt :: id <= other
    ensures w.TheCharger() == Some((w.devices[id].charger, w.sampledAt[id]))
  {
    AscendingIsSorted(w.ChargerIds());
    assert id in w.ChargerIds();
  }

  lemma NoTimedCharger(w: WorldView)
    ensures w.TheCharger().None? <==> forall id | id in w.devices && w.devices[id].Charger? :: id !in w.sampledAt
  {
    if w.ChargerIds() == {} {
      forall id | id in w.devices && w.devices[id].Charger? ensures id !in w.sampledAt { assert id !in w.ChargerIds(); }
    } else {
      Inhabited(w.ChargerIds());
    }
  }

  /** The batteries' flows added up, and their sizes. */
  ghost function TotalFlow(w: WorldView, ids: set<DeviceId>): int
    requires ids <= w.BatteryIds()
    decreases |ids|
  {
    if ids == {} then 0
    else
      var id := Least(ids);
      w.devices[id].battery.currentPower + TotalFlow(w, ids - {id})
  }

  ghost function TotalSize(w: WorldView, ids: set<DeviceId>): nat
    requires ids <= w.BatteryIds()
    decreases |ids|
  {
    if ids == {} then 0
    else
      var id := Least(ids);
      Abs(w.devices[id].battery.currentPower) + TotalSize(w, ids - {id})
  }

  lemma {:induction false} FlowOfPrepended(w: WorldView, first: DeviceId, rest: seq<DeviceId>, room: nat)
    requires first in w.BatteryIds() && forall id | id in rest :: id in w.BatteryIds()
    requires Abs(w.FlowOf(rest)) <= room && SizeOf(w, rest) <= room
    requires room + Abs(w.devices[first].battery.currentPower) <= I32_MAX
    ensures w.FlowOf([first] + rest) == w.devices[first].battery.currentPower + w.FlowOf(rest)
  {
    var all := [first] + rest;
    if rest == [] {
      assert all[..0] == [];
      assert w.FlowOf([]) == 0;
    } else {
      var n := |rest| - 1;
      assert all[..|all| - 1] == [first] + rest[..n];
      FlowIsBounded(w, rest[..n]);
      FlowOfPrepended(w, first, rest[..n], room);
      FlowIsBounded(w, rest);
    }
  }

  function SizeOf(w: WorldView, ids: seq<DeviceId>): nat
    requires forall id | id in ids :: id in w.BatteryIds()
  {
    if ids == [] then 0
    else
      var last := ids[|ids| - 1];
      assert last in ids;
      assert last in w.BatteryIds();
      SizeOf(w, ids[..|ids| - 1]) + Abs(w.devices[last].battery.currentPower)
  }

  lemma {:induction false} FlowIsBounded(w: WorldView, ids: seq<DeviceId>)
    requires forall id | id in ids :: id in w.BatteryIds()
    ensures SizeOf(w, ids) <= I32_MAX ==> Abs(w.FlowOf(ids)) <= SizeOf(w, ids)
  {
    if ids != [] { FlowIsBounded(w, ids[..|ids| - 1]); }
  }

  lemma {:induction false} SizePrepended(w: WorldView, first: DeviceId, rest: seq<DeviceId>)
    requires first in w.BatteryIds() && forall id | id in rest :: id in w.BatteryIds()
    ensures SizeOf(w, [first] + rest) == Abs(w.devices[first].battery.currentPower) + SizeOf(w, rest)
  {
    var all := [first] + rest;
    if rest == [] {
      assert all[..0] == [] && SizeOf(w, []) == 0;
    } else {
      assert all[..|all| - 1] == [first] + rest[..|rest| - 1];
      SizePrepended(w, first, rest[..|rest| - 1]);
    }
  }

  lemma {:induction false} FlowOfAscending(w: WorldView, ids: set<DeviceId>)
    requires ids <= w.BatteryIds() && TotalSize(w, ids) <= I32_MAX
    ensures (forall id | id in Ascending(ids) :: id in w.BatteryIds())
            && SizeOf(w, Ascending(ids)) == TotalSize(w, ids)
            && w.FlowOf(Ascending(ids)) == TotalFlow(w, ids)
    decreases |ids|
  {
    AscendingIsSorted(ids);
    if ids != {} {
      var first := Least(ids);
      var others := ids - {first};
      FlowOfAscending(w, others);
      AscendingIsSorted(others);
      SizePrepended(w, first, Ascending(others));
      FlowIsBounded(w, Ascending(others));
      FlowOfPrepended(w, first, Ascending(others), TotalSize(w, others));
    }
  }

  /** The correction decisions are taken on is every battery's flow, added up. */
  lemma UnderlyingGridCountsEveryBattery(w: WorldView)
    requires TotalSize(w, w.BatteryIds()) <= I32_MAX
    ensures w.UnderlyingGrid() == w.grid.total + TotalFlow(w, w.BatteryIds()) as real
  {
    FlowOfAscending(w, w.BatteryIds());
  }

  // --- The projection, updated in place ---

  class World {
    var grid: MeterReading
    var solar: real
    var devices: map<DeviceId, Measurement>
    var meterAt: Option<Timestamp>
    var sampledAt: map<DeviceId, Timestamp>

    function View(): WorldView
      reads this
    {
      WorldView(grid, solar, devices, meterAt, sampledAt)
    }

    constructor ()
      ensures View() == EMPTY_WORLD
    {
      grid, solar, devices, meterAt, sampledAt := NO_READING, 0.0, map[], None, map[];
    }

    method ObserveMeter(at: Option<Timestamp>, reading: MeterReading, production: real)
      modifies this
      ensures View() == old(View()).WithMeter(at, reading, production)
    {
      grid := reading;
      solar := production;
      meterAt := at;
    }

    method ObserveDevice(id: DeviceId, at: Timestamp, measurement: Measurement)
      modifies this
      ensures View() == old(View()).WithDevice(id, at, measurement)
    {
      sampledAt := sampledAt[id := at];
      devices := devices[id := measurement];
    }

    method Restore(view: WorldView)
      modifies this
      ensures View() == view
    {
      grid, solar, devices := view.grid, view.solar, view.devices;
      meterAt, sampledAt := view.meterAt, view.sampledAt;
    }
  }
}
