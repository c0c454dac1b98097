/** What one tick makes of the samples it took: which of them the world and the
    ceilings end up holding, and on what a decision is then made. */
module RunLaws {
  import opened Units
  import opened Worlds
  import opened Controllers
  import opened Allocation
  import opened Engines
  import opened Scan
  import opened Run
  import C = Ceilings
  import F = FailsafeRuns

  // --- The fold over the devices ---

  /** Take `i` gave the device's last fresh reading. */
  ghost predicate LastFresh(taken: seq<Taken<BatteryReading>>, id: DeviceId, i: nat)
  {
    && i < |taken| && taken[i].id == id && taken[i].delivery.Fresh?
    && forall j | i < j < |taken| :: !(taken[j].id == id && taken[j].delivery.Fresh?)
  }

  predicate AnyFresh(taken: seq<Taken<BatteryReading>>, id: DeviceId)
  {
    exists j | 0 <= j < |taken| :: taken[j].id == id && taken[j].delivery.Fresh?
  }

  lemma AnyFreshGrows(taken: seq<Taken<BatteryReading>>, id: DeviceId)
    requires taken != []
    ensures
      var last := taken[|taken| - 1];
      AnyFresh(taken, id) <==> AnyFresh(taken[..|taken| - 1], id) || (last.id == id && last.delivery.Fresh?)
  {
    var init := taken[..|taken| - 1];
    if j :| 0 <= j < |init| && init[j].id == id && init[j].delivery.Fresh? { assert taken[j] == init[j]; }
    if j :| 0 <= j < |init| && taken[j].id == id && taken[j].delivery.Fresh? { assert taken[j] == init[j]; }
  }

  /** The world holds the device's last fresh reading, with the time it was sampled. */
  ghost predicate Holds(w: WorldView, id: DeviceId, t: Taken<BatteryReading>)
    requires t.delivery.Fresh?
  {
    && id in w.devices && w.devices[id] == Battery(t.delivery.reading.state)
    && id in w.sampledAt && w.sampledAt[id] == t.delivery.at.now
  }

  ghost predicate SameDevice(v: WorldView, w: WorldView, id: DeviceId)
  {
    && (id in v.devices <==> id in w.devices) && (id in v.devices ==> v.devices[id] == w.devices[id])
    && (id in v.sampledAt <==> id in w.sampledAt) && (id in v.sampledAt ==> v.sampledAt[id] == w.sampledAt[id])
  }

  /** Every fresh reading enters the world, with a report of the device's own limit or
      without: each device ends on its last one, a device without one stays as it was,
      and nothing but devices changes. */
  lemma {:induction false} FoldHoldsTheReadings(s: EngineState, taken: seq<Taken<BatteryReading>>)
    ensures
      var s1 := FoldReadings(s, taken);
      && s1.controller == s.controller && s1.timedOut == s.timedOut
      && s1.world.grid == s.world.grid && s1.world.solar == s.world.solar && s1.world.meterAt == s.world.meterAt
      && (forall id, i: nat | LastFresh(taken, id, i) :: Holds(s1.world, id, taken[i]))
      && (forall id | !AnyFresh(taken, id) :: SameDevice(s.world, s1.world, id))
  {
    if taken != [] {
      var n := |taken| - 1;
      var init, last := taken[..n], taken[n];
      FoldHoldsTheReadings(s, init);
      var before, after := FoldReadings(s, init), FoldReadings(s, taken);
      forall id, i: nat | LastFresh(taken, id, i) ensures Holds(after.world, id, taken[i]) {
        if i < n {
          assert LastFresh(init, id, i);
          assert !(taken[n].id == id && taken[n].delivery.Fresh?);
        }
      }
      forall id | !AnyFresh(taken, id) ensures SameDevice(s.world, after.world, id) {
        AnyFreshGrows(taken, id);
      }
    }
  }

  /** Take `i` gave the device's last report of the limit it holds itself. */
  ghost predicate LastReport(taken: seq<Taken<BatteryReading>>, id: DeviceId, i: nat)
  {
    && i < |taken| && taken[i].id == id && Reports(taken[i])
    && forall j | i < j < |taken| :: !(taken[j].id == id && Reports(taken[j]))
  }

  predicate Reports(t: Taken<BatteryReading>) { t.delivery.Fresh? && t.delivery.reading.socSet.Some? }

  predicate AnyReport(taken: seq<Taken<BatteryReading>>, id: DeviceId)
  {
    exists j | 0 <= j < |taken| :: taken[j].id == id && Reports(taken[j])
  }

  lemma AnyReportGrows(taken: seq<Taken<BatteryReading>>, id: DeviceId)
    requires taken != []
    ensures
      var last := taken[|taken| - 1];
      AnyReport(taken, id) <==> AnyReport(taken[..|taken| - 1], id) || (last.id == id && Reports(last))
  {
    var init := taken[..|taken| - 1];
    if j :| 0 <= j < |init| && init[j].id == id && Reports(init[j]) { assert taken[j] == init[j]; }
    if j :| 0 <= j < |init| && taken[j].id == id && Reports(taken[j]) { assert taken[j] == init[j]; }
  }

  /** Each ceiling learns the last limit its device reported, and nothing else. */
  lemma {:induction false} FoldNotesTheReports(ceilings: map<DeviceId, C.Ceiling>, taken: seq<Taken<BatteryReading>>)
    ensures
      var after := FoldReports(ceilings, taken);
      && after.Keys == ceilings.Keys
      && (forall id | id in ceilings :: after[id].held == ceilings[id].held)
      && (forall id, i: nat | id in ceilings && LastReport(taken, id, i) ::
            after[id].reported == taken[i].delivery.reading.socSet)
      && (forall id | id in ceilings && !AnyReport(taken, id) :: after[id] == ceilings[id])
  {
    if taken != [] {
      var n := |taken| - 1;
      var init := taken[..n];
      FoldNotesTheReports(ceilings, init);
      var after := FoldReports(ceilings, taken);
      forall id, i: nat | id in ceilings && LastReport(taken, id, i)
        ensures after[id].reported == taken[i].delivery.reading.socSet
      {
        if i < n {
          assert LastReport(init, id, i);
          assert !(taken[n].id == id && Reports(taken[n]));
        }
      }
      forall id | id in ceilings && !AnyReport(taken, id) ensures after[id] == ceilings[id] {
        AnyReportGrows(taken, id);
      }
    }
  }

  /** A fresh charger sample enters the world under its own id and its sample time; any
      other changes nothing. */
  lemma ChargerEntersTheWorld(s: EngineState, charger: Option<Taken<ChargerState>>)
    ensures
      var s1 := FoldCharger(s, charger);
      && s1.controller == s.controller && s1.timedOut == s.timedOut
      && s1.world.grid == s.world.grid && s1.world.solar == s.world.solar && s1.world.meterAt == s.world.meterAt
      && (charger.None? || !charger.value.delivery.Fresh? ==> s1 == s)
      && (charger.Some? && charger.value.delivery.Fresh? ==>
            var c := charger.value;
            && s1.world.devices == s.world.devices[c.id := Charger(c.delivery.reading)]
            && s1.world.sampledAt == s.world.sampledAt[c.id := c.delivery.at.now])
  {
  }

  // --- What a decision is made on ---

  /** One slot a device, and the charger under an id of its own. */
  predicate OneSlotEach(i: Inputs)
  {
    && (forall a, b | 0 <= a < b < |i.devices| :: i.devices[a].id != i.devices[b].id)
    && (i.charger.Some? ==> forall k | 0 <= k < |i.devices| :: i.devices[k].id != i.charger.value.id)
  }

  /** The meter's own sample, every battery's own sample, and the charger's if fresh. */
  ghost predicate MadeOfThisTick(i: Inputs, sampledAt: Clock, m: MeterSample, w: WorldView)
  {
    && w.grid == m.grid && w.solar == m.solar && w.meterAt == Some(sampledAt.now)
    && (forall k | 0 <= k < |i.devices| ::
          i.devices[k].delivery.Fresh? && Holds(w, i.devices[k].id, i.devices[k]))
    && (i.charger.Some? && i.charger.value.delivery.Fresh? ==>
          && i.charger.value.id in w.devices
          && w.devices[i.charger.value.id] == Charger(i.charger.value.delivery.reading))
  }

  lemma SamplesInTheWorld(t: Session, p: Plant, i: Inputs, sampledAt: Clock, m: MeterSample)
    requires Judge(FleetOf(i.devices), i.meter) == DecideOn(sampledAt, m) && OneSlotEach(i)
    ensures
      var w := FoldReadings(FoldCharger(p.engine, i.charger), i.devices).world;
      MadeOfThisTick(i, sampledAt, m, w.WithMeter(Some(sampledAt.now), m.grid, m.solar))
  {
    var s0 := FoldCharger(p.engine, i.charger);
    VerdictMeaning(i.devices, i.meter);
    ChargerEntersTheWorld(p.engine, i.charger);
    FoldHoldsTheReadings(s0, i.devices);
    var w := FoldReadings(s0, i.devices).world;
    forall k | 0 <= k < |i.devices|
      ensures i.devices[k].delivery.Fresh? && Holds(w, i.devices[k].id, i.devices[k])
    {
      assert LastFresh(i.devices, i.devices[k].id, k);
    }
    if i.charger.Some? && i.charger.value.delivery.Fresh? {
      var id := i.charger.value.id;
      assert !AnyFresh(i.devices, id);
      assert SameDevice(s0.world, w, id);
    }
  }

  /** A tick that decides does so at its own instant on a world made of its own
      samples, with the controller's history, and attempts what that comes to. */
  lemma TickDecidesOnItsSamples(t: Session, registered: set<DeviceId>, p: Plant, i: Inputs,
                                sampledAt: Clock, m: MeterSample) returns (w: WorldView)
    requires Judge(FleetOf(i.devices), i.meter) == DecideOn(sampledAt, m) && OneSlotEach(i)
    ensures MadeOfThisTick(i, sampledAt, m, w)
    ensures
      var (controller, d) := Decide(t, p.engine.controller, w, i.at);
      Ticked(t, registered, p, i) ==
      Plant(EngineState(w, controller, false),
            Attempt(p.log, registered, if d.Some? then Allocate(d.value, w) else []))
  {
    hide Decide, Allocate, Attempt, MadeOfThisTick;
    var folded := FoldReadings(FoldCharger(p.engine, i.charger), i.devices);
    FoldHoldsTheReadings(FoldCharger(p.engine, i.charger), i.devices);
    ChargerEntersTheWorld(p.engine, i.charger);
    w := folded.world.WithMeter(Some(sampledAt.now), m.grid, m.solar);
    SamplesInTheWorld(t, p, i, sampledAt, m);
  }

  /** So the battery a setpoint is sized on is the lowest-id one as its own sample of
      this tick showed it, when the world's batteries are those sampled. */
  lemma SizedOnItsOwnSample(i: Inputs, sampledAt: Clock, m: MeterSample, w: WorldView, k: nat)
    requires MadeOfThisTick(i, sampledAt, m, w) && k < |i.devices|
    requires forall id | id in w.devices && w.devices[id].Battery? ::
               exists n | 0 <= n < |i.devices| :: i.devices[n].id == id
    requires forall n | 0 <= n < |i.devices| :: i.devices[k].id <= i.devices[n].id
    ensures w.Primary() == Some(i.devices[k].delivery.reading.state)
  {
    PrimaryIsTheFirst(w, i.devices[k].id);
  }

  /** A tick that neither stands down nor decides commands nothing and only folds. */
  lemma SkippedTickOnlyFolds(t: Session, registered: set<DeviceId>, p: Plant, i: Inputs)
    requires Judge(FleetOf(i.devices), i.meter).Skip?
    ensures
      var after := Ticked(t, registered, p, i);
      && after.log == p.log && after.engine.controller == p.engine.controller
      && after.engine.timedOut == p.engine.timedOut && after.engine.world.grid == p.engine.world.grid
      && (forall id, k: nat | LastFresh(i.devices, id, k) :: Holds(after.engine.world, id, i.devices[k]))
  {
    ChargerEntersTheWorld(p.engine, i.charger);
    FoldHoldsTheReadings(FoldCharger(p.engine, i.charger), i.devices);
  }

  /** A stand-down sends idle, and nothing else, to every battery in the world; while
      the outage lasts it does so again to each that is not down itself. */
  lemma StandDownReaches(t: Session, s: EngineState, at: Clock, down: seq<DeviceId>)
    ensures
      var sent := StandDownDirectives(StepOf(t, s, MqttTimeout(at)).1, down);
      && (forall d | d in sent :: d.command == SetIdle)
      && (forall id :: Directive(id, SetIdle) in sent <==>
            id in s.world.devices && s.world.devices[id].Battery? && (!s.timedOut || id !in down))
  {
    var step := StepOf(t, s, MqttTimeout(at)).1;
    IdleIsBroadcast(FAILSAFE, s.world);
    F.ExceptIsASublist(step.directives, down);
    assert forall id :: id in s.world.BatteryIds() <==> id in s.world.devices && s.world.devices[id].Battery?;
  }
}
