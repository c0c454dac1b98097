/** The failsafe over whole runs of ticks: while the latch is set, no battery is
    left on anything but an idle command. */
module FailsafeRuns {
  import opened Units
  import opened Worlds
  import opened Controllers
  import opened Allocation
  import opened Engines
  import opened Scan
  import opened Run

  /** One reading per registered battery and a charger keyed apart from them,
      which configuration guarantees. */
  predicate WellFormed(registered: set<DeviceId>, i: Inputs)
  {
    && (forall k | 0 <= k < |i.devices| :: i.devices[k].id in registered)
    && (i.charger.Some? ==> i.charger.value.id !in registered)
  }

  ghost predicate Inv(registered: set<DeviceId>, p: Plant)
  {
    && p.log.Keys <= registered
    && p.log.Keys <= p.engine.world.BatteryIds()
    && (p.engine.timedOut ==> forall id | id in p.log :: p.log[id] == SetIdle)
  }

  lemma WithDeviceKeepsBatteries(w: WorldView, id: DeviceId, at: Timestamp, m: Measurement, ids: set<DeviceId>)
    requires ids <= w.BatteryIds() && (m.Battery? || id !in ids)
    ensures ids <= w.WithDevice(id, at, m).BatteryIds()
  {
  }

  /** Folding samples in neither forgets a battery nor touches the latch. */
  lemma {:induction false} FoldKeepsBatteries(s: EngineState, taken: seq<Taken<BatteryReading>>, ids: set<DeviceId>)
    requires ids <= s.world.BatteryIds()
    ensures ids <= FoldReadings(s, taken).world.BatteryIds()
    ensures FoldReadings(s, taken).timedOut == s.timedOut && FoldReadings(s, taken).controller == s.controller
  {
    if taken != [] {
      var last := taken[|taken| - 1];
      var before := FoldReadings(s, taken[..|taken| - 1]);
      FoldKeepsBatteries(s, taken[..|taken| - 1], ids);
      if last.delivery.Fresh? {
        WithDeviceKeepsBatteries(before.world, last.id, last.delivery.at.now, Battery(last.delivery.reading.state), ids);
      }
    }
  }

  lemma {:induction false} ExceptIsASublist(directives: seq<Directive>, down: seq<DeviceId>)
    ensures forall d :: d in Except(directives, down) <==> d in directives && d.device !in down
  {
    if directives != [] {
      ExceptIsASublist(directives[..|directives| - 1], down);
      assert directives == directives[..|directives| - 1] + [directives[|directives| - 1]];
    }
  }

  /** Standing down sets the latch and leaves every battery ever commanded on
      idle: the first tick reaches all of them, later ones add nothing else. */
  lemma StandDownKeepsInv(t: Session, registered: set<DeviceId>, p: Plant, at: Clock, down: seq<DeviceId>)
    requires Inv(registered, p)
    ensures Inv(registered, StoodDown(t, registered, p, at, down))
    ensures StoodDown(t, registered, p, at, down).engine.timedOut
    ensures !p.engine.timedOut ==> forall id | id in p.engine.world.BatteryIds() && id in registered ::
              id in StoodDown(t, registered, p, at, down).log
  {
    var step := StepTimeout(p.engine).1;
    var w := p.engine.world;
    IdleIsBroadcast(FAILSAFE, w);
    ExceptIsASublist(step.directives, down);
    var sent := StandDownDirectives(step, down);
    CommandsAreOldOrListed(p.log, registered, sent);
    var log := Attempt(p.log, registered, sent);
    forall id | id in log ensures id in registered && id in w.BatteryIds() && log[id] == SetIdle {
      if id in p.log && !p.engine.timedOut {
        assert Directive(id, SetIdle) in sent;
      }
      if Directive(id, log[id]) in sent {
        assert Directive(id, log[id]) in step.directives;
        assert log[id] == SetIdle;
      }
      if id !in p.log {
        var d :| d in sent && d.device == id;
        assert d == Directive(id, SetIdle);
      }
    }
    forall id | id in w.BatteryIds() && id in registered && !p.engine.timedOut ensures id in log {
      assert Directive(id, SetIdle) in sent;
    }
  }

  lemma AttemptsStayWithin(log: map<DeviceId, Command>, registered: set<DeviceId>, directives: seq<Directive>,
                           ids: set<DeviceId>)
    requires log.Keys <= registered && log.Keys <= ids
    requires forall d | d in directives :: d.device in ids
    ensures Attempt(log, registered, directives).Keys <= registered
    ensures Attempt(log, registered, directives).Keys <= ids
  {
    CommandsAreOldOrListed(log, registered, directives);
  }

  lemma MeterStepShape(t: Session, s: EngineState, e: Event)
    requires e.Meter?
    ensures
      var (s1, step) := StepOf(t, s, e);
      && s1.world.devices == s.world.devices && s1.world.BatteryIds() == s.world.BatteryIds() && !s1.timedOut
      && forall d | d in step.directives :: d.device in s1.world.BatteryIds()
  {
    var (s1, step) := StepOf(t, s, e);
    StepIsWellAddressed(t, s, e);
    forall d | d in step.directives ensures d.device in s1.world.BatteryIds() {
      DirectiveIsForABattery(t, s1.world, e.at, step, d);
    }
  }

  lemma DecisionKeepsInv(t: Session, registered: set<DeviceId>, p: Plant, at: Clock, sampledAt: Clock, m: MeterSample)
    requires Inv(registered, p)
    ensures Inv(registered, DecidedOn(t, registered, p, at, sampledAt, m))
    ensures !DecidedOn(t, registered, p, at, sampledAt, m).engine.timedOut
  {
    var e := Meter(at, Some(sampledAt.now), m.grid, m.solar);
    var (engine, step) := StepOf(t, p.engine, e);
    MeterStepShape(t, p.engine, e);
    AttemptsStayWithin(p.log, registered, step.directives, p.engine.world.BatteryIds());
  }

  lemma DirectiveIsForABattery(t: Session, w: WorldView, clock: Clock, step: Step, d: Directive)
    requires WellAddressed(t, w, clock, step) && d in step.directives
    ensures d.device in w.BatteryIds()
  {
    if step.decision.Some? && !Active(step.decision.value.mode) {
      assert d == Directive(d.device, CommandOf(step.decision.value));
    }
  }

  lemma TickKeepsInv(t: Session, registered: set<DeviceId>, p: Plant, i: Inputs)
    requires Inv(registered, p) && WellFormed(registered, i)
    ensures Inv(registered, Ticked(t, registered, p, i))
  {
    var ids := p.log.Keys;
    var s0 := FoldCharger(p.engine, i.charger);
    if i.charger.Some? && i.charger.value.delivery.Fresh? {
      var c := i.charger.value;
      WithDeviceKeepsBatteries(p.engine.world, c.id, c.delivery.at.now, Charger(c.delivery.reading), ids);
    }
    FoldKeepsBatteries(s0, i.devices, ids);
    var folded := p.(engine := FoldReadings(s0, i.devices));
    assert Inv(registered, folded);
    match Judge(FleetOf(i.devices), i.meter)
    case StandDown(down) => StandDownKeepsInv(t, registered, folded, i.at, down);
    case DecideOn(sampledAt, m) => DecisionKeepsInv(t, registered, folded, i.at, sampledAt, m);
    case Skip =>
  }

  /** The plant after a run of ticks from a cold start, any battery seeded. */
  function RunTicks(t: Session, registered: set<DeviceId>, start: EngineState, ticks: seq<Inputs>): Plant
  {
    if ticks == [] then Plant(start, map[])
    else Ticked(t, registered, RunTicks(t, registered, start, ticks[..|ticks| - 1]), ticks[|ticks| - 1])
  }

  /** After any run of ticks, whichever sources fell silent and in whatever
      order: while the latch is set, the last command attempted on every battery
      ever commanded is idle. */
  lemma {:induction false} LatchedMeansIdle(t: Session, registered: set<DeviceId>, start: EngineState, ticks: seq<Inputs>)
    requires !start.timedOut && forall i | i in ticks :: WellFormed(registered, i)
    ensures Inv(registered, RunTicks(t, registered, start, ticks))
    ensures
      var p := RunTicks(t, registered, start, ticks);
      p.engine.timedOut ==> forall id | id in p.log :: p.log[id] == SetIdle
  {
    if ticks != [] {
      var n := |ticks| - 1;
      LatchedMeansIdle(t, registered, start, ticks[..n]);
      assert WellFormed(registered, ticks[n]);
      TickKeepsInv(t, registered, RunTicks(t, registered, start, ticks[..n]), ticks[n]);
    }
  }

  /** A tick sets the latch exactly when it stands the fleet down and clears it
      exactly when it decides; a quiet round leaves it as it was. */
  lemma LatchFollowsVerdict(t: Session, registered: set<DeviceId>, p: Plant, i: Inputs)
    ensures
      var after := Ticked(t, registered, p, i).engine.timedOut;
      match Judge(FleetOf(i.devices), i.meter)
      case StandDown(_) => after
      case DecideOn(_, _) => !after
      case Skip => after == p.engine.timedOut
  {
    FoldKeepsBatteries(FoldCharger(p.engine, i.charger), i.devices, {});
  }

  /** Of the ticks that did anything, the last one stood the fleet down. */
  predicate StandingDown(ticks: seq<Inputs>)
  {
    ticks != []
    && var last := ticks[|ticks| - 1];
       match Judge(FleetOf(last.devices), last.meter)
       case StandDown(_) => true
       case DecideOn(_, _) => false
       case Skip => StandingDown(ticks[..|ticks| - 1])
  }

  /** From a stand-down until the next decision, over whatever quiet rounds lie
      between, the latch is set and no battery is left on anything but idle; after a
      decision, and before the first stand-down, the latch is clear. */
  lemma {:induction false} IdleFromStandDownToDecision(t: Session, registered: set<DeviceId>, start: EngineState,
                                                       ticks: seq<Inputs>)
    requires !start.timedOut && forall i | i in ticks :: WellFormed(registered, i)
    ensures
      var p := RunTicks(t, registered, start, ticks);
      && (p.engine.timedOut <==> StandingDown(ticks))
      && (StandingDown(ticks) ==> forall id | id in p.log :: p.log[id] == SetIdle)
  {
    LatchedMeansIdle(t, registered, start, ticks);
    if ticks != [] {
      var n := |ticks| - 1;
      IdleFromStandDownToDecision(t, registered, start, ticks[..n]);
      LatchFollowsVerdict(t, registered, RunTicks(t, registered, start, ticks[..n]), ticks[n]);
    }
  }
}
