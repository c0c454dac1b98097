/** One tick of the coordinator loop: what it folds, when it stands the fleet
    down, and what it commands, over readings already taken from the inbox. */
module Run {
  import opened Units
  import opened Worlds
  import opened Controllers
  import opened Allocation
  import opened Engines
  import opened Scan
  import C = Ceilings

  datatype BatteryReading = BatteryReading(state: BatteryState, socSet: Option<Soc>)

  datatype MeterSample = MeterSample(grid: MeterReading, solar: real)

  /** What one device slot gave this tick. */
  datatype Taken<+T> = Taken(id: DeviceId, delivery: Delivery<T>)

  datatype Fleet =
    | Complete
    | Waiting
    | Silent(down: seq<DeviceId>)

  datatype Verdict<+M> =
    | StandDown(down: seq<DeviceId>)
    | DecideOn(sampledAt: Clock, reading: M)
    | Skip

  function DownIds<T>(taken: seq<Taken<T>>): seq<DeviceId>
  {
    if taken == [] then []
    else
      var last := taken[|taken| - 1];
      DownIds(taken[..|taken| - 1]) + (if last.delivery.Down? then [last.id] else [])
  }

  function FleetOf<T>(taken: seq<Taken<T>>): Fleet
  {
    if DownIds(taken) != [] then Silent(DownIds(taken))
    else if exists i | 0 <= i < |taken| :: taken[i].delivery.Quiet? then Waiting
    else Complete
  }

  /** The tick's choice, made on the fleet and the meter. */
  function Judge<M>(fleet: Fleet, meter: Delivery<M>): Verdict<M>
  {
    match (fleet, meter)
    case (Silent(down), _) => StandDown(down)
    case (_, Down(_)) => StandDown([])
    case (Complete, Fresh(at, reading)) => DecideOn(at, reading)
    case (Complete, Quiet) => Skip
    case (Waiting, Fresh(_, _)) => Skip
    case (Waiting, Quiet) => Skip
  }

  /** Stand down exactly when some source is down; decide exactly when every one
      is fresh. */
  lemma {:induction false} VerdictMeaning<T, M>(taken: seq<Taken<T>>, meter: Delivery<M>)
    ensures
      var verdict := Judge(FleetOf(taken), meter);
      && (verdict.StandDown? <==> meter.Down? || exists i | 0 <= i < |taken| :: taken[i].delivery.Down?)
      && (verdict.DecideOn? <==> meter.Fresh? && forall i | 0 <= i < |taken| :: taken[i].delivery.Fresh?)
      && (verdict.DecideOn? ==> meter == Fresh(verdict.sampledAt, verdict.reading))
      && (verdict.StandDown? ==> forall id :: id in verdict.down <==>
            exists i | 0 <= i < |taken| :: taken[i].id == id && taken[i].delivery.Down?)
  {
    DownIdsMeaning(taken);
    if DownIds(taken) != [] {
      var id := DownIds(taken)[0];
      assert id in DownIds(taken);
    }
    if i :| 0 <= i < |taken| && taken[i].delivery.Down? {
      assert taken[i].id in DownIds(taken);
    }
  }

  lemma {:induction false} DownIdsMeaning<T>(taken: seq<Taken<T>>)
    ensures forall id :: id in DownIds(taken) <==>
              exists i | 0 <= i < |taken| :: taken[i].id == id && taken[i].delivery.Down?
  {
    if taken != [] {
      var n := |taken| - 1;
      DownIdsMeaning(taken[..n]);
      forall id ensures id in DownIds(taken) <==>
                        exists i | 0 <= i < |taken| :: taken[i].id == id && taken[i].delivery.Down?
      {
        if i :| 0 <= i < |taken| && taken[i].id == id && taken[i].delivery.Down? {
          if i < n { assert taken[..n][i] == taken[i]; }
        }
        if id in DownIds(taken[..n]) {
          var i :| 0 <= i < n && taken[..n][i].id == id && taken[..n][i].delivery.Down?;
          assert taken[i] == taken[..n][i];
        }
      }
    }
  }

  // --- Folding the readings in ---

  function FoldReadings(s: EngineState, taken: seq<Taken<BatteryReading>>): EngineState
  {
    if taken == [] then s
    else
      var before := FoldReadings(s, taken[..|taken| - 1]);
      var last := taken[|taken| - 1];
      if last.delivery.Fresh?
      then before.(world := before.world.WithDevice(last.id, last.delivery.at.now, Battery(last.delivery.reading.state)))
      else before
  }

  function FoldReports(ceilings: map<DeviceId, C.Ceiling>, taken: seq<Taken<BatteryReading>>): map<DeviceId, C.Ceiling>
  {
    if taken == [] then ceilings
    else
      var before := FoldReports(ceilings, taken[..|taken| - 1]);
      var last := taken[|taken| - 1];
      if last.delivery.Fresh? && last.delivery.reading.socSet.Some?
      then C.Observed(before, last.id, last.delivery.reading.socSet.value) else before
  }

  /** The charger's sample only ever enters the world: it never gates the round. */
  function FoldCharger(s: EngineState, charger: Option<Taken<ChargerState>>): EngineState
  {
    match charger
    case Some(Taken(id, Fresh(at, reading))) => s.(world := s.world.WithDevice(id, at.now, Charger(reading)))
    case _ => s
  }

  /** Remembers between ticks that the charger was already found down. */
  class ChargerTick {
    var silent: bool

    constructor () ensures !silent { silent := false; }

    method Fold(engine: Engine, charger: Option<Taken<ChargerState>>) returns (announce: bool)
      modifies this, engine, engine.controller, engine.world
      ensures engine.View() == FoldCharger(old(engine.View()), charger)
      ensures silent == match charger
                        case Some(Taken(_, Fresh(_, _))) => false
                        case Some(Taken(_, Down(_))) => true
                        case _ => old(silent)
      ensures announce <==> charger.Some? && charger.value.delivery.Down? && !old(silent)
    {
      announce := false;
      match charger
      case Some(Taken(id, Fresh(at, reading))) =>
        silent := false;
        var _ := engine.Handle(DeviceUpdate(at, id, Charger(reading)));
      case Some(Taken(id, Down(_))) =>
        announce := !silent;
        silent := true;
      case Some(Taken(_, Quiet)) =>
      case None =>
    }
  }

  method FoldDevices(engine: Engine, ceilings: C.CeilingSync, taken: seq<Taken<BatteryReading>>) returns (fleet: Fleet)
    modifies engine, engine.controller, engine.world, ceilings
    ensures engine.View() == FoldReadings(old(engine.View()), taken)
    ensures ceilings.ceilings == FoldReports(old(ceilings.ceilings), taken)
    ensures fleet == FleetOf(taken)
  {
    fleet := Complete;
    var silent := [];
    for i := 0 to |taken|
      invariant engine.View() == FoldReadings(old(engine.View()), taken[..i])
      invariant ceilings.ceilings == FoldReports(old(ceilings.ceilings), taken[..i])
      invariant silent == DownIds(taken[..i])
      invariant fleet == if exists j | 0 <= j < i :: taken[j].delivery.Quiet? then Waiting else Complete
    {
      PrefixGrows(taken, i);
      var id := taken[i].id;
      match taken[i].delivery {
        case Quiet => fleet := Waiting;
        case Down(_) => silent := silent + [id];
        case Fresh(at, reading) =>
          if reading.socSet.Some? {
            ceilings.Observe(id, reading.socSet.value);
          }
          var _ := engine.Handle(DeviceUpdate(at, id, Battery(reading.state)));
      }
    }
    assert taken[..|taken|] == taken;
    if silent != [] {
      fleet := Silent(silent);
    }
  }

  // --- Commanding ---

  /** A new outage sends everything; a continuing one leaves out the devices that
      are down themselves. */
  function StandDownDirectives(step: Step, down: seq<DeviceId>): seq<Directive>
  {
    if step.status.Some? then step.directives else Except(step.directives, down)
  }

  function Except(directives: seq<Directive>, down: seq<DeviceId>): seq<Directive>
  {
    if directives == [] then []
    else
      var last := directives[|directives| - 1];
      Except(directives[..|directives| - 1], down) + (if last.device in down then [] else [last])
  }

  method KeepUp(directives: seq<Directive>, down: seq<DeviceId>) returns (kept: seq<Directive>)
    ensures kept == Except(directives, down)
  {
    kept := [];
    for i := 0 to |directives|
      invariant kept == Except(directives[..i], down)
    {
      PrefixGrows(directives, i);
      if directives[i].device !in down {
        kept := kept + [directives[i]];
      }
    }
    assert directives[..|directives|] == directives;
  }

  /** The engine and what was last attempted on each device. */
  datatype Plant = Plant(engine: EngineState, log: map<DeviceId, Command>)

  function StoodDown(t: Session, registered: set<DeviceId>, p: Plant, at: Clock, down: seq<DeviceId>): Plant
  {
    var (engine, step) := StepOf(t, p.engine, MqttTimeout(at));
    Plant(engine, Attempt(p.log, registered, StandDownDirectives(step, down)))
  }

  function DecidedOn(t: Session, registered: set<DeviceId>, p: Plant, at: Clock, sampledAt: Clock, m: MeterSample): Plant
  {
    var (engine, step) := StepOf(t, p.engine, Meter(at, Some(sampledAt.now), m.grid, m.solar));
    Plant(engine, Attempt(p.log, registered, step.directives))
  }

  /** Everything one tick was given. */
  datatype Inputs = Inputs(
    at: Clock,
    charger: Option<Taken<ChargerState>>,
    devices: seq<Taken<BatteryReading>>,
    meter: Delivery<MeterSample>)

  function Ticked(t: Session, registered: set<DeviceId>, p: Plant, i: Inputs): Plant
  {
    var folded := p.(engine := FoldReadings(FoldCharger(p.engine, i.charger), i.devices));
    match Judge(FleetOf(i.devices), i.meter)
    case StandDown(down) => StoodDown(t, registered, folded, i.at, down)
    case DecideOn(sampledAt, m) => DecidedOn(t, registered, folded, i.at, sampledAt, m)
    case Skip => folded
  }

  class Coordinator {
    const engine: Engine
    const devices: Devices
    const ceilings: C.CeilingSync
    const charger: ChargerTick
    var round: Round

    constructor (engine: Engine, devices: Devices, ceilings: C.CeilingSync, charger: ChargerTick)
      ensures this.engine == engine && this.devices == devices
      ensures this.ceilings == ceilings && this.charger == charger && round == 1
    {
      this.engine, this.devices, this.ceilings, this.charger := engine, devices, ceilings, charger;
      round := 1;
    }

    function View(): Plant
      reads this, engine, engine.controller, engine.world, devices
    {
      Plant(engine.View(), devices.log)
    }

    /** `writes` says which devices take the command; nothing here waits on it. */
    method StandFleetDown(at: Clock, down: seq<DeviceId>, writes: DeviceId -> bool)
      modifies engine, engine.controller, engine.world, devices
      ensures View() == StoodDown(engine.controller.tuning, devices.registered, old(View()), at, down)
    {
      var step := engine.Handle(MqttTimeout(at));
      var directives := step.directives;
      if step.status.None? {
        directives := KeepUp(step.directives, down);
      }
      var _ := devices.Actuate(
        directives, seq(|directives|, k requires 0 <= k < |directives| => writes(directives[k].device)));
    }

    method DecideTick(at: Clock, sampledAt: Clock, m: MeterSample, writes: DeviceId -> bool)
      modifies engine, engine.controller, engine.world, devices
      ensures View() == DecidedOn(engine.controller.tuning, devices.registered, old(View()), at, sampledAt, m)
    {
      var step := engine.Handle(Meter(at, Some(sampledAt.now), m.grid, m.solar));
      if step.decision.Some? {
        var directives := step.directives;
        var _ := devices.Actuate(
          directives, seq(|directives|, k requires 0 <= k < |directives| => writes(directives[k].device)));
      }
    }

    /** One tick, from the samples it took to the round it asks for. */
    method Tick(i: Inputs, writes: DeviceId -> bool, lands: set<DeviceId>)
      modifies this, engine, engine.controller, engine.world, devices, ceilings, charger
      ensures View() == Ticked(engine.controller.tuning, devices.registered, old(View()), i)
      ensures ceilings.ceilings ==
              C.Synced(FoldReports(old(ceilings.ceilings), i.devices), devices.registered, lands,
                       EffectiveMaxSoc(engine.controller.tuning, i.at.weekday), i.at.now)
      ensures round == old(round) + 1
    {
      var _ := charger.Fold(engine, i.charger);
      var fleet := FoldDevices(engine, ceilings, i.devices);
      match Judge(fleet, i.meter) {
        case StandDown(down) => StandFleetDown(i.at, down, writes);
        case DecideOn(sampledAt, m) => DecideTick(i.at, sampledAt, m, writes);
        case Skip =>
      }
      ceilings.Sync(devices.registered, lands, EffectiveMaxSoc(engine.controller.tuning, i.at.weekday), i.at.now);
      round := round + 1;
    }
  }
}
