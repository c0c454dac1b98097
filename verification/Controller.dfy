/** From a view of the world to a decision: mode rules, control law, guards. The
    functions say what one decision computes; `Controller` is the object that takes
    it, updating its history field by field. */
module Controllers {
  import opened Units
  import opened Worlds

  datatype Mode = Charge | Discharge | Idle | Standby

  predicate Active(mode: Mode) { mode == Charge || mode == Discharge }

  /** The tuning. Durations are milliseconds. */
  datatype Session = Session(
    chargeMargin: U32,
    dischargeMargin: U32,
    chargeDeadband: U32,
    dischargeDeadband: U32,
    gain: Gain,
    slew: U32,
    chargeStart: real,
    dischargeStart: real,
    minModeDuration: nat,
    minDecisionInterval: nat,
    idleTimeout: nat,
    minIdleBeforeDischarge: nat,
    cycleLimit: U32,              // 0 turns the limit off
    minSoc: Soc,
    maxSoc: Soc,
    balanceDay: Option<Weekday>,
    solarBlock: real,             // 0 turns the guard off
    carBlock: U32,                // 0 turns the guard off
    blindWindow: nat)

  datatype ControllerState = ControllerState(
    lastMode: Mode,
    lastActive: Option<Mode>,
    lastModeChange: Timestamp,
    lastDecision: Timestamp,
    lastIdleStart: Option<Timestamp>,
    transitions: nat,
    suppressions: nat,
    resetDay: U32,
    rampPending: bool,
    commanded: Watts)

  /** Why a decision came out as it did: the data behind the journalled text. */
  datatype Reason =
    | Calibrating
    | Faulted
    | CycleLimit
    | Cooldown
    | HeldForCar(draw: U32)
    | StandbyTimeout
    | Rules(ramped: bool)
    | Failsafe

  datatype Decision = Decision(mode: Mode, power: Setpoint, reason: Reason, grid: real)

  datatype Target = Target(mode: Mode, heldForCar: Option<U32>)

  function FreshState(t: Session, clock: Clock): ControllerState
  {
    ControllerState(
      Idle, None,
      Since(clock.now, ElapsedOf(t.minModeDuration)),
      Since(clock.now, ElapsedOf(t.minDecisionInterval)),
      Some(clock.now), 0, 0, clock.dayOrdinal, false, 0)
  }

  /** Neither of the two states in which the battery is idled past the guards. */
  predicate Fit(b: BatteryState) { !b.calibrating && !b.fault }

  // --- The mode rules ---

  function EffectiveMaxSoc(t: Session, day: Weekday): Soc
  {
    if t.balanceDay == Some(day) then 100 else t.maxSoc
  }

  predicate DischargeWanted(t: Session, s: ControllerState, w: WorldView, b: BatteryState)
  {
    var threshold := if s.lastMode == Discharge then 0.0 else t.dischargeStart;
    b.soc > t.minSoc && w.UnderlyingGrid() > threshold
  }

  /** What the car draws, when that is recent and large enough to hold discharge. */
  function CarCharging(t: Session, w: WorldView, now: Timestamp): Option<U32>
  {
    if t.carBlock == 0 then None
    else match w.TheCharger()
      case None => None
      case Some((charger, at)) =>
        if Since(now, at) <= ElapsedOf(t.blindWindow) && charger.power >= t.carBlock
        then Some(charger.power) else None
  }

  predicate IdleLongEnough(t: Session, s: ControllerState, now: Timestamp)
  {
    s.lastMode == Discharge
    || s.lastActive != Some(Charge)
    || (s.lastIdleStart.Some? && Since(now, s.lastIdleStart.value) >= ElapsedOf(t.minIdleBeforeDischarge))
  }

  predicate ChargeWanted(t: Session, s: ControllerState, w: WorldView, b: BatteryState, clock: Clock)
  {
    var threshold := if s.lastMode == Charge then 0.0 else t.chargeStart;
    b.soc < EffectiveMaxSoc(t, clock.weekday) && !b.limitReached && w.UnderlyingGrid() < threshold
  }

  predicate SolarBelowBlock(t: Session, w: WorldView)
  {
    t.solarBlock == 0.0 || w.solar < t.solarBlock
  }

  function TargetMode(t: Session, s: ControllerState, w: WorldView, b: BatteryState, clock: Clock): Mode
  {
    if ChargeWanted(t, s, w, b, clock) then Charge
    else if IdleLongEnough(t, s, clock.now) && SolarBelowBlock(t, w) && DischargeWanted(t, s, w, b)
    then Discharge
    else Idle
  }

  /** The mode asked for: a drawing car turns a wanted discharge into idle. */
  function TargetOf(t: Session, s: ControllerState, w: WorldView, b: BatteryState, clock: Clock): Target
  {
    var mode := TargetMode(t, s, w, b, clock);
    var held :=
      if mode != Charge && DischargeWanted(t, s, w, b) then CarCharging(t, w, clock.now) else None;
    Target(if held.Some? then Idle else mode, held)
  }

  // --- The velocity-form law ---

  function Deadbanded(raw: Watts, width: U32): Watts
  {
    if WrappingAbs(raw) < Bound(width) then 0 else raw
  }

  function ClampStep(candidate: Watts, anchor: Watts, limit: U32): Watts
  {
    Clamp(candidate, Sub(anchor, Bound(limit)), Add(anchor, Bound(limit)))
  }

  /** The commanded value plus the gained error, clamped first around the commanded
      value and then around the reported one, each time to within the slew limit. */
  function StepLaw(t: Session, commanded: Watts, error: Watts, observed: Watts): Watts
  {
    var advanced := ClampStep(Add(commanded, ApplyGain(t.gain, error)), commanded, t.slew);
    ClampStep(advanced, observed, t.slew)
  }

  /** The error one direction's law integrates. */
  function ErrorOf(t: Session, mode: Mode, grid: real): Watts
    requires Active(mode)
  {
    if mode == Charge
    then Deadbanded(Sub(Exporting(grid), Bound(t.chargeMargin)), t.chargeDeadband)
    else Deadbanded(Sub(Importing(grid), Bound(t.dischargeMargin)), t.dischargeDeadband)
  }

  function ObservedIn(mode: Mode, b: BatteryState): Setpoint
  {
    if mode == Charge then Charging(b.currentPower) else Discharging(b.currentPower)
  }

  function CapIn(mode: Mode, b: BatteryState): U32
  {
    if mode == Charge then b.maxCharge else b.maxDischarge
  }

  function TargetPower(t: Session, s: ControllerState, mode: Mode, grid: real, b: BatteryState): Setpoint
  {
    if !Active(mode) then 0
    else ClampedSetpoint(StepLaw(t, s.commanded, ErrorOf(t, mode, grid), ObservedIn(mode, b)), CapIn(mode, b))
  }

  // --- The guards ---

  predicate OpposingSwitch(from: Mode, to: Mode)
  {
    (from == Charge && to == Discharge) || (from == Discharge && to == Charge)
  }

  predicate AtCycleLimit(t: Session, s: ControllerState)
  {
    t.cycleLimit > 0 && s.transitions >= t.cycleLimit
  }

  function Rollover(s: ControllerState, clock: Clock): ControllerState
  {
    if clock.dayOrdinal != s.resetDay
    then s.(transitions := 0, suppressions := 0, resetDay := clock.dayOrdinal)
    else s
  }

  predicate CoolingDown(t: Session, s: ControllerState, mode: Mode, now: Timestamp)
  {
    OpposingSwitch(s.lastMode, mode) && Since(now, s.lastModeChange) < ElapsedOf(t.minModeDuration)
  }

  function EnterStandby(s: ControllerState, now: Timestamp): ControllerState
  {
    if s.lastMode == Standby then s
    else s.(lastMode := Standby, lastModeChange := now, lastIdleStart := None, rampPending := false)
  }

  function EnterMode(s: ControllerState, mode: Mode, now: Timestamp): ControllerState
  {
    if mode == s.lastMode then s
    else s.(transitions := s.transitions + 1,
            lastActive := if Active(mode) then Some(mode) else s.lastActive,
            rampPending := Active(mode),
            lastMode := mode,
            lastModeChange := now,
            lastIdleStart := if mode == Idle then Some(now) else None)
  }

  predicate IdledOut(t: Session, s: ControllerState, mode: Mode, now: Timestamp)
  {
    mode == Idle && s.lastIdleStart.Some? && Since(now, s.lastIdleStart.value) >= ElapsedOf(t.idleTimeout)
  }

  /** The guards in the order they are tried; the first two can end the decision. */
  function GuardsInner(t: Session, s: ControllerState, target: Target, power: Setpoint, grid: real, clock: Clock)
    : (ControllerState, Decision)
  {
    var s0 := Rollover(s, clock);
    if AtCycleLimit(t, s0) then
      (EnterStandby(s0, clock.now), Decision(Standby, 0, CycleLimit, grid))
    else if CoolingDown(t, s0, target.mode, clock.now) then
      (s0.(suppressions := s0.suppressions + 1, lastIdleStart := Some(clock.now)),
       Decision(Idle, 0, Cooldown, grid))
    else
      var s1 := EnterMode(s0, target.mode, clock.now);
      var ramped := s1.rampPending && power > 0;
      var standby := IdledOut(t, s1, target.mode, clock.now);
      (if ramped then s1.(rampPending := false) else s1,
       Decision(if standby then Standby else target.mode,
                if ramped then Ramped(power) else power,
                if target.heldForCar.Some? then HeldForCar(target.heldForCar.value)
                else if standby then StandbyTimeout else Rules(ramped),
                grid))
  }

  function ApplyGuards(t: Session, s: ControllerState, target: Target, power: Setpoint, grid: real, clock: Clock)
    : (ControllerState, Decision)
  {
    var (s1, d) := GuardsInner(t, s, target, power, grid, clock);
    (s1.(commanded := if Active(d.mode) then d.power else 0), d)
  }

  function ForceIdle(s: ControllerState, now: Timestamp): ControllerState
  {
    if s.lastMode == Idle then s
    else s.(lastMode := Idle, lastModeChange := now, lastIdleStart := Some(now), rampPending := false)
  }

  function DecideAt(t: Session, s: ControllerState, w: WorldView, b: BatteryState, clock: Clock)
    : (ControllerState, Decision)
  {
    var s0 := s.(lastDecision := clock.now);
    if b.calibrating then (ForceIdle(s0, clock.now), Decision(Idle, 0, Calibrating, w.grid.total))
    else if b.fault then (ForceIdle(s0, clock.now), Decision(Idle, 0, Faulted, w.grid.total))
    else
      var target := TargetOf(t, s0, w, b, clock);
      ApplyGuards(t, s0, target, TargetPower(t, s0, target.mode, w.grid.total, b), w.grid.total, clock)
  }

  predicate TooSoon(t: Session, s: ControllerState, now: Timestamp)
  {
    Since(now, s.lastDecision) < ElapsedOf(t.minDecisionInterval)
  }

  /** One decision, unless the last was too recent or there is no battery. */
  function Decide(t: Session, s: ControllerState, w: WorldView, clock: Clock): (ControllerState, Option<Decision>)
  {
    if TooSoon(t, s, clock.now) || w.Primary().None? then (s, None)
    else
      var (s1, d) := DecideAt(t, s, w, w.Primary().value, clock);
      (s1, Some(d))
  }

  // --- A fresh session's timers ---

  /** A stamp set back by a whole span has let that span elapse exactly when setting
      it back did not saturate, which at no clock from 1970 on it does. */
  lemma BackdatedHasElapsed(now: Timestamp, span: nat)
    ensures Since(now, Since(now, ElapsedOf(span))) >= ElapsedOf(span) <==> now - ElapsedOf(span) >= I64_MIN
    ensures now >= -1 ==> now - ElapsedOf(span) >= I64_MIN
  {
  }

  // --- The object ---

  class Controller {
    const tuning: Session
    var state: ControllerState

    constructor FromSession(t: Session, clock: Clock)
      ensures tuning == t && state == FreshState(t, clock)
      ensures state.lastMode == Idle && state.lastActive.None? && state.lastIdleStart == Some(clock.now)
      ensures clock.now >= -1 ==>
                && !TooSoon(t, state, clock.now)
                && Since(clock.now, state.lastModeChange) >= ElapsedOf(t.minModeDuration)
    {
      tuning := t;
      state := FreshState(t, clock);
    }

    method Restore(saved: ControllerState)
      modifies this
      ensures state == saved
    {
      state := saved;
    }

    method TakeDecision(w: WorldView, clock: Clock) returns (d: Option<Decision>)
      modifies this
      ensures (state, d) == Decide(tuning, old(state), w, clock)
    {
      if TooSoon(tuning, state, clock.now) {
        return None;
      }
      match w.Primary()
      case None =>
        return None;
      case Some(battery) =>
        var decided := TakeDecisionAt(w, battery, clock);
        return Some(decided);
    }

    method TakeDecisionAt(w: WorldView, b: BatteryState, clock: Clock) returns (d: Decision)
      modifies this
      ensures (state, d) == DecideAt(tuning, old(state), w, b, clock)
    {
      state := state.(lastDecision := clock.now);
      if b.calibrating {
        DropToIdle(clock.now);
        return Decision(Idle, 0, Calibrating, w.grid.total);
      }
      if b.fault {
        DropToIdle(clock.now);
        return Decision(Idle, 0, Faulted, w.grid.total);
      }
      var target := TargetOf(tuning, state, w, b, clock);
      var power := TargetPower(tuning, state, target.mode, w.grid.total, b);
      d := Guard(target, power, w.grid.total, clock);
    }

    method DropToIdle(now: Timestamp)
      modifies this
      ensures state == ForceIdle(old(state), now)
    {
      if state.lastMode != Idle {
        state := state.(lastMode := Idle);
        state := state.(lastModeChange := now);
        state := state.(lastIdleStart := Some(now));
        state := state.(rampPending := false);
      }
    }

    method Guard(target: Target, power: Setpoint, grid: real, clock: Clock) returns (d: Decision)
      modifies this
      ensures (state, d) == ApplyGuards(tuning, old(state), target, power, grid, clock)
    {
      d := GuardInner(target, power, grid, clock);
      state := state.(commanded := if Active(d.mode) then d.power else 0);
    }

    method GuardInner(target: Target, power: Setpoint, grid: real, clock: Clock) returns (d: Decision)
      modifies this
      ensures (state, d) == GuardsInner(tuning, old(state), target, power, grid, clock)
    {
      hide Since, ElapsedOf, Ramped;
      var mode := target.mode;
      if clock.dayOrdinal != state.resetDay {
        state := state.(transitions := 0);
        state := state.(suppressions := 0);
        state := state.(resetDay := clock.dayOrdinal);
      }
      ghost var day := Rollover(old(state), clock);
      assert state == day;
      if tuning.cycleLimit > 0 && state.transitions >= tuning.cycleLimit {
        if state.lastMode != Standby {
          state := state.(lastMode := Standby);
          state := state.(lastModeChange := clock.now);
          state := state.(lastIdleStart := None);
          state := state.(rampPending := false);
        }
        return Decision(Standby, 0, CycleLimit, grid);
      }
      var inMode := Since(clock.now, state.lastModeChange);
      if OpposingSwitch(state.lastMode, mode) && inMode < ElapsedOf(tuning.minModeDuration) {
        state := state.(suppressions := state.suppressions + 1);
        if state.lastMode != Idle {
          state := state.(lastIdleStart := Some(clock.now));
        }
        return Decision(Idle, 0, Cooldown, grid);
      }
      if mode != state.lastMode {
        state := state.(transitions := state.transitions + 1);
        var active := Active(mode);
        if active {
          state := state.(lastActive := Some(mode));
        }
        state := state.(rampPending := active);
        state := state.(lastMode := mode);
        state := state.(lastModeChange := clock.now);
        state := state.(lastIdleStart := if mode == Idle then Some(clock.now) else None);
      }
      assert state == EnterMode(day, mode, clock.now);
      var ramped := state.rampPending && power > 0;
      var finalPower := power;
      if ramped {
        state := state.(rampPending := false);
        finalPower := Ramped(power);
      }
      var standby :=
        mode == Idle && state.lastIdleStart.Some?
        && Since(clock.now, state.lastIdleStart.value) >= ElapsedOf(tuning.idleTimeout);
      var reason := match target.heldForCar
        case Some(draw) => HeldForCar(draw)
        case None => if standby then StandbyTimeout else Rules(ramped);
      d := Decision(if standby then Standby else mode, finalPower, reason, grid);
    }
  }
}
