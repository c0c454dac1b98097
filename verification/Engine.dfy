/** Events in, directives out: the state one event leaves behind for the next, and
    the latch that is set while the fleet is stood down. */
module Engines {
  import opened Units
  import opened Worlds
  import opened Controllers
  import opened Allocation
  import R = ControllerRuns

  datatype Event =
    | Meter(at: Clock, sampledAt: Option<Timestamp>, grid: MeterReading, solar: real)
    | DeviceUpdate(at: Clock, id: DeviceId, measurement: Measurement)
    | MqttTimeout(at: Clock)

  datatype Status = TimedOut | Operational

  datatype Step = Step(directives: seq<Directive>, decision: Option<Decision>, status: Option<Status>)

  /** What a snapshot holds: all a resumed fold needs besides its tuning. */
  datatype EngineState = EngineState(world: WorldView, controller: ControllerState, timedOut: bool)

  const FAILSAFE := Decision(Idle, 0, Failsafe, 0.0)

  function StepMeter(t: Session, s: EngineState, e: Event): (EngineState, Step)
    requires e.Meter?
  {
    var w := s.world.WithMeter(e.sampledAt, e.grid, e.solar);
    var (c, d) := Decide(t, s.controller, w, e.at);
    (EngineState(w, c, false),
     Step(if d.Some? then Allocate(d.value, w) else [], d, if s.timedOut then Some(Operational) else None))
  }

  function StepTimeout(s: EngineState): (EngineState, Step)
  {
    (s.(timedOut := true),
     Step(Allocate(FAILSAFE, s.world), Some(FAILSAFE), if s.timedOut then None else Some(TimedOut)))
  }

  function StepOf(t: Session, s: EngineState, e: Event): (EngineState, Step)
  {
    match e
    case Meter(_, _, _, _) => StepMeter(t, s, e)
    case DeviceUpdate(at, id, m) => (s.(world := s.world.WithDevice(id, at.now, m)), Step([], None, None))
    case MqttTimeout(_) => StepTimeout(s)
  }

  /** The fold over a recorded stream: final state and one step per event. */
  function Fold(t: Session, s: EngineState, events: seq<Event>): (EngineState, seq<Step>)
  {
    if events == [] then (s, [])
    else
      var (before, steps) := Fold(t, s, events[..|events| - 1]);
      var (after, step) := StepOf(t, before, events[|events| - 1]);
      (after, steps + [step])
  }

  // --- The object ---

  class Engine {
    const controller: Controller
    const world: World
    var timedOut: bool

    function View(): EngineState
      reads this, controller, world
    {
      EngineState(world.View(), controller.state, timedOut)
    }

    constructor (controller: Controller, world: World)
      ensures this.controller == controller && this.world == world && !timedOut
    {
      this.controller := controller;
      this.world := world;
      timedOut := false;
    }

    method Restore(saved: EngineState)
      modifies this, controller, world
      ensures View() == saved
    {
      world.Restore(saved.world);
      controller.Restore(saved.controller);
      timedOut := saved.timedOut;
    }

    method Handle(e: Event) returns (step: Step)
      modifies this, controller, world
      ensures (View(), step) == StepOf(controller.tuning, old(View()), e)
    {
      match e
      case Meter(_, _, _, _) =>
        step := HandleMeter(e);
      case DeviceUpdate(at, id, measurement) =>
        world.ObserveDevice(id, at.now, measurement);
        step := Step([], None, None);
      case MqttTimeout(_) =>
        step := HandleTimeout();
    }

    method HandleMeter(e: Event) returns (step: Step)
      requires e.Meter?
      modifies this, controller, world
      ensures (View(), step) == StepMeter(controller.tuning, old(View()), e)
    {
      var status := None;
      if timedOut {
        timedOut := false;
        status := Some(Operational);
      }
      world.ObserveMeter(e.sampledAt, e.grid, e.solar);
      var decision := controller.TakeDecision(world.View(), e.at);
      var directives := [];
      if decision.Some? {
        directives := Allocate(decision.value, world.View());
      }
      step := Step(directives, decision, status);
    }

    method HandleTimeout() returns (step: Step)
      modifies this
      ensures (View(), step) == StepTimeout(old(View()))
    {
      var firstTick := !timedOut;
      timedOut := true;
      var directives := Allocate(FAILSAFE, world.View());
      step := Step(directives, Some(FAILSAFE), if firstTick then Some(TimedOut) else None);
    }

    /** A whole recording, event by event. */
    method Replay(events: seq<Event>) returns (steps: seq<Step>)
      modifies this, controller, world
      ensures (View(), steps) == Fold(controller.tuning, old(View()), events)
    {
      steps := [];
      for i := 0 to |events|
        invariant (View(), steps) == Fold(controller.tuning, old(View()), events[..i])
      {
        var step := Handle(events[i]);
        steps := steps + [step];
        assert events[..i + 1][..i] == events[..i];
      }
      assert events[..|events|] == events;
    }
  }

  // --- Resume ---

  /** Splitting a stream anywhere and resuming from the state at the split gives
      the steps and the final state of the unbroken fold. */
  lemma {:induction false} SplitFold(t: Session, s: EngineState, first: seq<Event>, rest: seq<Event>)
    ensures
      var (mid, before) := Fold(t, s, first);
      var (end, after) := Fold(t, mid, rest);
      Fold(t, s, first + rest) == (end, before + after)
  {
    hide StepOf;
    if rest == [] {
      assert first + rest == first;
      assert Fold(t, s, first).1 + [] == Fold(t, s, first).1;
    } else {
      var n := |rest| - 1;
      SplitFold(t, s, first, rest[..n]);
      var all := first + rest;
      assert all[..|all| - 1] == first + rest[..n] && all[|all| - 1] == rest[n];
      var (mid, before) := Fold(t, s, first);
      var (last, after) := Fold(t, mid, rest[..n]);
      var step := StepOf(t, last, rest[n]).1;
      assert before + after + [step] == before + (after + [step]);
    }
  }

  /** Two engines with one tuning: the second, restored to the first's state, takes
      over in the middle of a stream unnoticed. */
  method Resume(original: Engine, replacement: Engine, first: seq<Event>, rest: seq<Event>)
    returns (before: seq<Step>, after: seq<Step>)
    requires original.controller.tuning == replacement.controller.tuning
    requires original != replacement && original.world != replacement.world
             && original.controller != replacement.controller
    modifies original, original.controller, original.world
    modifies replacement, replacement.controller, replacement.world
    ensures (replacement.View(), before + after)
            == Fold(original.controller.tuning, old(original.View()), first + rest)
  {
    before := original.Replay(first);
    replacement.Restore(original.View());
    after := replacement.Replay(rest);
    SplitFold(original.controller.tuning, old(original.View()), first, rest);
  }

  // --- Statuses ---

  function Statuses(steps: seq<Step>): seq<Status>
  {
    if steps == [] then []
    else
      var last := steps[|steps| - 1].status;
      Statuses(steps[..|steps| - 1]) + (if last.Some? then [last.value] else [])
  }

  ghost predicate Alternates(statuses: seq<Status>)
  {
    forall i | 0 <= i < |statuses| :: statuses[i] == if i % 2 == 0 then TimedOut else Operational
  }

  lemma StatusFollowsLatch(t: Session, s: EngineState, e: Event)
    ensures
      var (s1, step) := StepOf(t, s, e);
      && (step.status.None? <==> s1.timedOut == s.timedOut)
      && (step.status.Some? ==> step.status.value == if s1.timedOut then TimedOut else Operational)
  {
  }

  /** From an unlatched engine the reported statuses alternate strictly, starting
      with the timeout, and the latch is set exactly after an odd number. */
  lemma {:induction false} StatusesAlternate(t: Session, s: EngineState, events: seq<Event>)
    requires !s.timedOut
    ensures
      var (end, steps) := Fold(t, s, events);
      Alternates(Statuses(steps)) && (end.timedOut <==> |Statuses(steps)| % 2 == 1)
  {
    if events != [] {
      var n := |events| - 1;
      StatusesAlternate(t, s, events[..n]);
      var (before, steps) := Fold(t, s, events[..n]);
      var (after, step) := StepOf(t, before, events[n]);
      StatusFollowsLatch(t, before, events[n]);
      AppendStatus(steps, step);
      OneMore(Statuses(steps), step.status, before.timedOut, after.timedOut);
    }
  }

  lemma OneMore(statuses: seq<Status>, status: Option<Status>, was: bool, latched: bool)
    requires Alternates(statuses) && (was <==> |statuses| % 2 == 1)
    requires status.None? <==> latched == was
    requires status.Some? ==> status.value == if latched then TimedOut else Operational
    ensures
      var longer := statuses + (if status.Some? then [status.value] else []);
      Alternates(longer) && (latched <==> |longer| % 2 == 1)
  {
  }

  lemma AppendStatus(steps: seq<Step>, step: Step)
    ensures Statuses(steps + [step]) == Statuses(steps) + (if step.status.Some? then [step.status.value] else [])
  {
    assert (steps + [step])[..|steps|] == steps;
  }

  // --- Who is commanded, and how much ---

  /** No decision commands nothing. A sized decision goes to the lowest-id
      battery alone, the one that sized it, within its cap, and only while it is
      healthy and inside its SOC limit for that direction; any other decision
      goes to every battery once, in id order. */
  ghost predicate WellAddressed(t: Session, w: WorldView, clock: Clock, step: Step)
  {
    match step.decision
    case None => step.directives == []
    case Some(d) =>
      if Active(d.mode)
      then |step.directives| == 1 && step.directives[0].command == CommandOf(d)
           && SizedForPrimary(t, w, clock, step.directives[0])
      else Broadcast(w, CommandOf(d), step.directives)
  }

  ghost predicate SizedForPrimary(t: Session, w: WorldView, clock: Clock, d: Directive)
  {
    && w.BatteryIds() != {} && d.device == Least(w.BatteryIds())
    && w.Primary() == Some(w.devices[d.device].battery)
    && Suits(t, w.Primary().value, clock, d.command)
  }

  /** A healthy battery takes this much power in this direction today. */
  predicate Suits(t: Session, b: BatteryState, clock: Clock, c: Command)
  {
    match c
    case SetCharge(watts) => Fit(b) && watts <= Bound(b.maxCharge)
                             && b.soc < EffectiveMaxSoc(t, clock.weekday) && !b.limitReached
    case SetDischarge(watts) => Fit(b) && watts <= Bound(b.maxDischarge) && b.soc > t.minSoc
    case _ => false
  }

  ghost predicate Broadcast(w: WorldView, c: Command, directives: seq<Directive>)
  {
    && |directives| == |w.BatteryIds()|
    && (forall d | d in directives :: d.command == c)
    && (forall id :: id in w.BatteryIds() <==> Directive(id, c) in directives)
    && (forall i, j | 0 <= i < j < |directives| :: directives[i].device < directives[j].device)
  }

  lemma IdleIsBroadcast(d: Decision, w: WorldView)
    requires !Active(d.mode)
    ensures Broadcast(w, CommandOf(d), Allocate(d, w))
  {
    var c := CommandOf(d);
    var ids := w.Batteries();
    AscendingIsSorted(w.BatteryIds());
    forall id ensures id in w.BatteryIds() <==> Directive(id, c) in Allocate(d, w) {
      if id in ids {
        var i :| 0 <= i < |ids| && ids[i] == id;
        assert Allocate(d, w)[i] == Directive(id, c);
      }
    }
  }

  /** An active decision is for a healthy primary inside its limit, within cap. */
  lemma ActiveDecisionFitsPrimary(t: Session, s: ControllerState, w: WorldView, clock: Clock)
    ensures
      var d := Decide(t, s, w, clock).1;
      d.Some? && Active(d.value.mode) ==>
        w.Primary().Some? && Suits(t, w.Primary().value, clock, CommandOf(d.value))
  {
  }

  /** Every step of any engine, from any state: its directives are well addressed in
      the world they were decided in, and a sized one is there only because the
      load, the solar and the car in that world allow it. */
  lemma StepIsWellAddressed(t: Session, s: EngineState, e: Event)
    ensures
      var (s1, step) := StepOf(t, s, e);
      && WellAddressed(t, s1.world, e.at, step)
      && (e.Meter? && step.decision.Some? ==> R.Warranted(t, s.controller, s1.world, e.at, step.decision.value))
  {
    var (s1, step) := StepOf(t, s, e);
    R.ActiveIsWarranted(t, s.controller, s1.world, e.at);
    hide R.Warranted;
    if step.decision.Some? {
      var d := step.decision.value;
      if Active(d.mode) {
        assert e.Meter?;
        ActiveDecisionFitsPrimary(t, s.controller, s1.world, e.at);
        AscendingIsSorted(s1.world.BatteryIds());
        assert step.directives == [Directive(Least(s1.world.BatteryIds()), CommandOf(d))];
      } else {
        IdleIsBroadcast(d, s1.world);
      }
    }
  }

  // --- What an idle leaves in the estimate ---

  /** Whatever event idles the fleet, the controller's running estimate is zero
      afterwards exactly when a meter reading was decided on with a fit battery, or
      it was zero before. The failsafe never clears it. */
  lemma IdleStepClearsCommanded(t: Session, s: EngineState, e: Event)
    ensures
      var (s1, step) := StepOf(t, s, e);
      step.decision.Some? && !Active(step.decision.value.mode) ==>
        (s1.controller.commanded == 0 <==>
          (e.Meter? && s.world.Primary().Some? && Fit(s.world.Primary().value)) || s.controller.commanded == 0)
  {
    hide Decide;
    if e.Meter? {
      var w := s.world.WithMeter(e.sampledAt, e.grid, e.solar);
      assert w.BatteryIds() == s.world.BatteryIds();
      R.IdleClearsCommandedIfFit(t, s.controller, w, e.at);
      DecidingNeedsABattery(t, s.controller, w, e.at);
    }
  }

  lemma DecidingNeedsABattery(t: Session, s: ControllerState, w: WorldView, clock: Clock)
    ensures Decide(t, s, w, clock).1.Some? ==> w.Primary().Some?
  {
    hide DecideAt;
  }

  lemma FoldOfThree(t: Session, s: EngineState, a: Event, b: Event, c: Event)
    ensures
      var (s1, step1) := StepOf(t, s, a);
      var (s2, step2) := StepOf(t, s1, b);
      var (s3, step3) := StepOf(t, s2, c);
      Fold(t, s, [a, b, c]) == (s3, [step1, step2, step3])
  {
    hide StepOf;
    var (s1, step1) := StepOf(t, s, a);
    var (s2, step2) := StepOf(t, s1, b);
    var (s3, step3) := StepOf(t, s2, c);
    FoldLast(t, s, [], a);
    assert [] + [a] == [a] && [] + [step1] == [step1];
    FoldLast(t, s, [a], b);
    assert [a] + [b] == [a, b] && [step1] + [step2] == [step1, step2];
    FoldLast(t, s, [a, b], c);
    assert [a, b] + [c] == [a, b, c] && [step1, step2] + [step3] == [step1, step2, step3];
  }

  lemma FoldLast(t: Session, s: EngineState, init: seq<Event>, last: Event)
    ensures
      var (before, steps) := Fold(t, s, init);
      var (after, step) := StepOf(t, before, last);
      Fold(t, s, init + [last]) == (after, steps + [step])
  {
    assert (init + [last])[..|init|] == init;
  }

  /** A cold start, one battery report, a 405 W import, then silence: the failsafe
      idles the battery and the estimate stays at 300 W. */
  lemma FailsafeKeepsCommanded()
    ensures
      var clock := Clock(0, 100, Wed);
      var cold := EngineState(EMPTY_WORLD, FreshState(R.TUNING, clock), false);
      var report := DeviceUpdate(clock, 0, Battery(R.HEALTHY));
      var reading := Meter(clock, None, MeterReading(405.0, NO_READING.phases), 0.0);
      var (end, steps) := Fold(R.TUNING, cold, [report, reading, MqttTimeout(clock)]);
      && |steps| == 3
      && steps[1].decision.Some? && steps[1].decision.value.mode == Discharge
      && steps[2].decision == Some(FAILSAFE) && steps[2].directives == [Directive(0, SetIdle)]
      && end.controller.commanded == 300
  {
    hide Decide, Allocate;
    var clock := Clock(0, 100, Wed);
    var cold := EngineState(EMPTY_WORLD, FreshState(R.TUNING, clock), false);
    var report := DeviceUpdate(clock, 0, Battery(R.HEALTHY));
    var reading := Meter(clock, None, MeterReading(405.0, NO_READING.phases), 0.0);
    FoldOfThree(R.TUNING, cold, report, reading, MqttTimeout(clock));
    var s1 := StepOf(R.TUNING, cold, report).0;
    var w := R.OneBattery(405.0, R.HEALTHY);
    assert s1.world.WithMeter(None, MeterReading(405.0, NO_READING.phases), 0.0) == w;
    R.ImportStartsDischarge(clock);
    OneBatteryIdles(405.0, R.HEALTHY);
  }

  lemma OneBatteryIdles(grid: real, b: BatteryState)
    ensures Allocate(FAILSAFE, R.OneBattery(grid, b)) == [Directive(0, SetIdle)]
  {
    var w := R.OneBattery(grid, b);
    AscendingIsSorted(w.BatteryIds());
    assert w.BatteryIds() == {0};
    assert w.Batteries() == [0];
  }
}
