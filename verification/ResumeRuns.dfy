/** Two whole engine runs in which the estimate left standing by an idle carries the
    next setpoint past its goal. The tuning slews at most 400 W a decision; the goal
    each time is 95 W, and the battery does exactly what it is told. */
module ResumeRuns {
  import opened Units
  import opened Worlds
  import opened Controllers
  import opened Allocation
  import opened Engines
  import opened ClosedLoop
  import opened ControllerRuns

  const NOON := Clock(0, 100, Wed)

  const FAULTED := HEALTHY.(fault := true)

  const COLD := EngineState(EMPTY_WORLD, FreshState(TUNING, NOON), false)

  const HUNDRED_WATTS := Loop(TUNING, HEALTHY, 100, Discharge)

  function Report(b: BatteryState): Event { DeviceUpdate(NOON, 0, Battery(b)) }

  function Reading(grid: real): Event { Meter(NOON, None, MeterReading(grid, NO_READING.phases), 0.0) }

  /** An engine that has seen one battery and one reading. */
  function Seen(grid: real, b: BatteryState, s: ControllerState, latched: bool): EngineState
  {
    EngineState(OneBattery(grid, b), s, latched)
  }

  lemma Reports(grid: real, was: BatteryState, s: ControllerState, latched: bool, b: BatteryState)
    ensures StepOf(TUNING, Seen(grid, was, s, latched), Report(b)) == (Seen(grid, b, s, latched), Step([], None, None))
  {
    assert OneBattery(grid, was).WithDevice(0, NOON.now, Battery(b)) == OneBattery(grid, b) by {
      assert map[0 := Battery(was)][0 := Battery(b)] == map[0 := Battery(b)];
      assert map[0 := 0][0 := 0] == map[0 := 0];
    }
  }

  lemma FirstReport(b: BatteryState)
    ensures StepOf(TUNING, COLD, Report(b)) == (Seen(0.0, b, COLD.controller, false), Step([], None, None))
  {
  }

  lemma Reads(was: real, b: BatteryState, s: ControllerState, latched: bool, grid: real)
    ensures
      var (s1, d) := Decide(TUNING, s, OneBattery(grid, b), NOON);
      var (e1, step) := StepOf(TUNING, Seen(was, b, s, latched), Reading(grid));
      e1 == Seen(grid, b, s1, false) && step.decision == d
  {
    assert OneBattery(was, b).WithMeter(None, MeterReading(grid, NO_READING.phases), 0.0) == OneBattery(grid, b);
    hide Decide;
  }

  /** The next decision into a 100 W load with the battery at rest and the estimate
      at 300 W: ramped from another mode, and not in the same one. */
  lemma ResumesPastTheGoal(s: ControllerState)
    requires s.lastMode == Idle || (s.lastMode == Discharge && !s.rampPending)
    requires s.lastActive == Some(Discharge) && s.commanded == 300 && s.lastDecision == NOON.now
    ensures
      var d := Decide(TUNING, s, OneBattery(100.0, HEALTHY), NOON).1;
      d.Some? && d.value.mode == Discharge && d.value.power == if s.lastMode == Idle then 296 else 395
    ensures HUNDRED_WATTS.Tuned() && HUNDRED_WATTS.Goal() == 95
  {
    hide DecideAt, Loop.Asked, Loop.Tuned, Loop.Goal;
    var l := HUNDRED_WATTS;
    OneBatteryView(100.0, HEALTHY);
    AskedInLoop();
    FirstDecision(l, s, 0, NOON);
  }

  lemma AskedInLoop()
    ensures HUNDRED_WATTS.Tuned() && HUNDRED_WATTS.Goal() == 95 && HUNDRED_WATTS.Asked(300, 0) == 395
    ensures HUNDRED_WATTS.Reporting(0) == HEALTHY && HUNDRED_WATTS.WorldAt(0) == OneBattery(100.0, HEALTHY)
  {
    assert HUNDRED_WATTS.Move(0) == 95;
  }

  lemma DischargeBegins() returns (s: ControllerState)
    ensures Fold(TUNING, COLD, [Report(HEALTHY), Reading(405.0)]).0 == Seen(405.0, HEALTHY, s, false)
    ensures DischargingAt300(s) && s.lastDecision == NOON.now
  {
    FoldLast(TUNING, COLD, [], Report(HEALTHY));
    FoldLast(TUNING, COLD, [Report(HEALTHY)], Reading(405.0));
    assert [] + [Report(HEALTHY)] == [Report(HEALTHY)];
    assert [Report(HEALTHY)] + [Reading(405.0)] == [Report(HEALTHY), Reading(405.0)];
    FirstReport(HEALTHY);
    Reads(0.0, HEALTHY, COLD.controller, false, 405.0);
    ImportStartsDischarge(NOON);
    hide StepOf, Decide;
    s := Decide(TUNING, COLD.controller, OneBattery(405.0, HEALTHY), NOON).0;
  }

  /** The last step of a run decides to discharge at this power. */
  ghost predicate EndsDischargingAt(events: seq<Event>, power: Setpoint)
  {
    var steps := Fold(TUNING, COLD, events).1;
    && steps != [] && steps[|steps| - 1].decision.Some?
    && steps[|steps| - 1].decision.value.mode == Discharge && steps[|steps| - 1].decision.value.power == power
  }

  /** A cold start, discharge at 300 W, a fault idle, the fault gone: the entry that
      follows commands 296 W for a goal of 95 W. */
  lemma FaultEntryCrosses()
    ensures HUNDRED_WATTS.Tuned() && HUNDRED_WATTS.Goal() == 95
    ensures EndsDischargingAt([Report(HEALTHY), Reading(405.0), Report(FAULTED), Reading(405.0),
                               Report(HEALTHY), Reading(100.0)], 296)
  {
    var e2, e3 := [Report(HEALTHY), Reading(405.0)], [Report(HEALTHY), Reading(405.0), Report(FAULTED)];
    var e4, e5 := e3 + [Reading(405.0)], e3 + [Reading(405.0), Report(HEALTHY)];
    var s := DischargeBegins();
    FoldLast(TUNING, COLD, e2, Report(FAULTED));
    assert e2 + [Report(FAULTED)] == e3;
    FoldLast(TUNING, COLD, e3, Reading(405.0));
    FoldLast(TUNING, COLD, e4, Report(HEALTHY));
    assert e4 + [Report(HEALTHY)] == e5;
    FoldLast(TUNING, COLD, e5, Reading(100.0));
    assert e5 + [Reading(100.0)] == [Report(HEALTHY), Reading(405.0), Report(FAULTED), Reading(405.0),
                                     Report(HEALTHY), Reading(100.0)];
    Reports(405.0, HEALTHY, s, false, FAULTED);
    Reads(405.0, FAULTED, s, false, 405.0);
    FaultKeepsCommanded(s, NOON);
    var s1 := Decide(TUNING, s, OneBattery(405.0, FAULTED), NOON).0;
    Reports(405.0, FAULTED, s1, false, HEALTHY);
    Reads(405.0, HEALTHY, s1, false, 100.0);
    ResumesPastTheGoal(s1);
    hide StepOf, Decide, Fold;
  }

  lemma TimesOut(grid: real, b: BatteryState, s: ControllerState)
    ensures StepOf(TUNING, Seen(grid, b, s, false), MqttTimeout(NOON)).0 == Seen(grid, b, s, true)
  {
    hide Allocate;
  }

  /** A cold start, discharge at 300 W, the failsafe, every source back: the resumed
      discharge commands 395 W for a goal of 95 W. */
  lemma FailsafeResumeCrosses()
    ensures HUNDRED_WATTS.Tuned() && HUNDRED_WATTS.Goal() == 95
    ensures EndsDischargingAt([Report(HEALTHY), Reading(405.0), MqttTimeout(NOON), Report(HEALTHY), Reading(100.0)], 395)
  {
    var e2, e3 := [Report(HEALTHY), Reading(405.0)], [Report(HEALTHY), Reading(405.0), MqttTimeout(NOON)];
    var e4 := e3 + [Report(HEALTHY)];
    var s := DischargeBegins();
    FoldLast(TUNING, COLD, e2, MqttTimeout(NOON));
    assert e2 + [MqttTimeout(NOON)] == e3;
    FoldLast(TUNING, COLD, e3, Report(HEALTHY));
    FoldLast(TUNING, COLD, e4, Reading(100.0));
    assert e4 + [Reading(100.0)] == [Report(HEALTHY), Reading(405.0), MqttTimeout(NOON), Report(HEALTHY), Reading(100.0)];
    TimesOut(405.0, HEALTHY, s);
    Reports(405.0, HEALTHY, s, true, HEALTHY);
    Reads(405.0, HEALTHY, s, true, 100.0);
    ResumesPastTheGoal(s);
    hide StepOf, Decide, Fold;
  }
}
