/** What the controller keeps over whole runs that start from a fresh session,
    whatever worlds and clocks it is shown. */
module ControllerRuns {
  import opened Units
  import opened Worlds
  import opened Controllers

  datatype Input = Input(world: WorldView, clock: Clock)

  /** One run: `states[k]` and `inputs[k]` give `states[k + 1]` and `outs[k]`. */
  datatype Trace = Trace(t: Session, inputs: seq<Input>, states: seq<ControllerState>, outs: seq<Option<Decision>>)
  {
    ghost predicate Valid()
    {
      && |states| == |inputs| + 1 == |outs| + 1
      && (exists clock :: states[0] == FreshState(t, clock))
      && (forall k | 0 <= k < |inputs| :: Follows(k))
    }

    ghost predicate Follows(k: nat)
      requires k < |inputs| && |states| == |inputs| + 1 == |outs| + 1
    {
      (states[k + 1], outs[k]) == Decide(t, states[k], inputs[k].world, inputs[k].clock)
    }

    ghost predicate Decided(k: nat, mode: Mode)
      requires k < |outs|
    {
      outs[k].Some? && outs[k].value.mode == mode
    }

    function Now(k: nat): Timestamp
      requires k < |inputs|
    {
      inputs[k].clock.now
    }
  }

  // --- What every reachable state keeps ---

  ghost predicate Inv(t: Session, s: ControllerState)
  {
    && (s.lastMode == Charge ==> s.lastIdleStart.None?)
    && (Active(s.lastMode) ==> s.lastActive == Some(s.lastMode))
    && (s.lastActive.Some? ==> Active(s.lastActive.value))
    && (s.rampPending ==> Active(s.lastMode))
    && 0 <= s.commanded
    && (t.cycleLimit > 0 ==> s.transitions <= t.cycleLimit)
  }

  /** While charging, discharge is out of reach: no idle stamp is running. */
  lemma ChargingNeverTargetsDischarge(t: Session, s: ControllerState, w: WorldView, b: BatteryState, clock: Clock)
    requires Inv(t, s)
    ensures TargetOf(t, s, w, b, clock).mode != Standby
    ensures s.lastMode == Charge ==> TargetOf(t, s, w, b, clock).mode != Discharge
  {
  }

  lemma GuardsKeepInv(t: Session, s: ControllerState, target: Target, power: Setpoint, grid: real, clock: Clock)
    requires Inv(t, s) && target.mode != Standby
    requires s.lastMode == Charge ==> target.mode != Discharge
    ensures Inv(t, ApplyGuards(t, s, target, power, grid, clock).0)
  {
  }

  lemma DecideKeepsInv(t: Session, s: ControllerState, w: WorldView, clock: Clock)
    requires Inv(t, s)
    ensures Inv(t, Decide(t, s, w, clock).0)
  {
    hide TargetPower;
    if !TooSoon(t, s, clock.now) && w.Primary().Some? {
      var b := w.Primary().value;
      var s0 := s.(lastDecision := clock.now);
      var target := TargetOf(t, s0, w, b, clock);
      ChargingNeverTargetsDischarge(t, s0, w, b, clock);
      GuardsKeepInv(t, s0, target, TargetPower(t, s0, target.mode, w.grid.total, b), w.grid.total, clock);
    }
  }

  /** Every state of every run: a charging controller carries no idle stamp, an
      active mode is the last active one, a pending ramp means an active mode,
      and the day's transitions are within the cycle limit. */
  lemma {:induction false} InvHolds(r: Trace, k: nat)
    requires r.Valid() && k < |r.states|
    ensures Inv(r.t, r.states[k])
  {
    if k > 0 {
      InvHolds(r, k - 1);
      assert r.Follows(k - 1);
      DecideKeepsInv(r.t, r.states[k - 1], r.inputs[k - 1].world, r.inputs[k - 1].clock);
    }
  }

  // --- Charge is never directly followed by Discharge ---

  /** Decision `k` stood the battery down and stamped the idle period it began. */
  ghost predicate StampedIdle(r: Trace, k: nat)
    requires r.Valid() && k < |r.outs|
  {
    && r.outs[k].Some?
    && !Active(r.outs[k].value.mode)
    && r.outs[k].value.power == 0
    && r.states[k + 1].lastIdleStart == Some(r.Now(k))
  }

  lemma ChargeIsEntered(r: Trace, n: nat)
    requires r.Valid() && n < |r.outs| && r.Decided(n, Charge)
    ensures r.states[n + 1].lastActive == Some(Charge) && r.states[n + 1].lastIdleStart.None?
  {
    InvHolds(r, n + 1);
    assert r.Follows(n);
  }

  /** With charge the last active mode, a discharge needs an old enough stamp;
      anything else leaves charge the last active mode and the stamp either as
      it was or set by this very decision. */
  lemma StepSinceCharge(r: Trace, n: nat)
    requires r.Valid() && n < |r.outs| && r.states[n].lastActive == Some(Charge)
    ensures r.Decided(n, Discharge) ==>
              r.states[n].lastIdleStart.Some?
              && Since(r.Now(n), r.states[n].lastIdleStart.value) >= ElapsedOf(r.t.minIdleBeforeDischarge)
    ensures !r.Decided(n, Discharge) ==> r.states[n + 1].lastActive == Some(Charge)
    ensures !r.Decided(n, Discharge) && r.states[n + 1].lastIdleStart.Some? ==>
              r.states[n + 1].lastIdleStart == r.states[n].lastIdleStart || StampedIdle(r, n)
  {
    hide StepLaw, ErrorOf, ChargeWanted, DischargeWanted, CarCharging;
    InvHolds(r, n);
    assert r.Follows(n);
  }

  /** After a charge at `i` and no discharge before `m`: the idle stamp in
      force, if any, was set by a decision strictly after `i`. */
  lemma {:induction false} StampIsLater(r: Trace, i: nat, m: nat) returns (k: nat)
    requires r.Valid() && i < m < |r.states| && r.Decided(i, Charge)
    requires forall n | i < n < m :: !r.Decided(n, Discharge)
    ensures r.states[m].lastActive == Some(Charge)
    ensures r.states[m].lastIdleStart.Some? ==>
              i < k < m && StampedIdle(r, k) && r.states[m].lastIdleStart == Some(r.Now(k))
  {
    if m == i + 1 {
      ChargeIsEntered(r, i);
      k := 0;
    } else {
      k := StampIsLater(r, i, m - 1);
      StepSinceCharge(r, m - 1);
      if r.states[m].lastIdleStart != r.states[m - 1].lastIdleStart {
        k := m - 1;
      }
    }
  }

  /** Between a charge and the next discharge there is a decision that idled the
      battery, and the stamp it set is still the one in force, and old enough,
      when discharge starts. */
  lemma NoDischargeStraightAfterCharge(r: Trace, i: nat, j: nat)
    requires r.Valid() && i < j < |r.outs| && r.Decided(i, Charge) && r.Decided(j, Discharge)
    requires forall n | i < n < j :: !r.Decided(n, Discharge)
    ensures exists k ::
              && i < k < j && StampedIdle(r, k)
              && r.states[j].lastIdleStart == Some(r.Now(k))
              && Since(r.Now(j), r.Now(k)) >= ElapsedOf(r.t.minIdleBeforeDischarge)
  {
    var k := StampIsLater(r, i, j);
    StepSinceCharge(r, j);
  }

  // --- A stay in an active mode ---

  /** `e` is the decision that entered `mode`, and the controller has stayed in
      it through state `m`. */
  ghost predicate Stay(r: Trace, mode: Mode, e: nat, m: nat)
    requires r.Valid()
  {
    && e < m < |r.states|
    && r.states[e].lastMode != mode
    && r.Decided(e, mode)
    && (forall n | e < n <= m :: r.states[n].lastMode == mode)
  }

  /** Any time spent in an active mode belongs to a stay, whose entry stamped
      `lastModeChange`. */
  lemma {:induction false} StayExists(r: Trace, mode: Mode, m: nat) returns (e: nat)
    requires r.Valid() && m < |r.states| && Active(mode) && r.states[m].lastMode == mode
    ensures Stay(r, mode, e, m)
    ensures r.states[m].lastModeChange == r.Now(e)
  {
    hide TargetPower, TargetOf;
    assert m > 0;
    assert r.Follows(m - 1);
    if r.states[m - 1].lastMode == mode {
      e := StayExists(r, mode, m - 1);
    } else {
      e := m - 1;
    }
  }

  /** A charge taken straight out of discharging comes at least the minimum mode
      duration after the decision that entered discharge. */
  lemma DirectSwitchWaitsOutTheMode(r: Trace, j: nat)
    requires r.Valid() && j < |r.outs| && r.states[j].lastMode == Discharge && r.Decided(j, Charge)
    ensures exists e :: Stay(r, Discharge, e, j) && Since(r.Now(j), r.Now(e)) >= ElapsedOf(r.t.minModeDuration)
  {
    var e := StayExists(r, Discharge, j);
    assert r.Follows(j);
  }

  // --- The ramp ---

  /** The setpoint the law asked for at `k`, before the ramp. */
  function PreRamp(r: Trace, k: nat): Setpoint
    requires k < |r.inputs| < |r.states|
  {
    var s := r.states[k].(lastDecision := r.Now(k));
    match r.inputs[k].world.Primary()
    case None => 0
    case Some(b) =>
      TargetPower(r.t, s, TargetOf(r.t, s, r.inputs[k].world, b, r.inputs[k].clock).mode,
                  r.inputs[k].world.grid.total, b)
  }

  /** Some earlier decision of the stay entered at `e` asked for power. */
  ghost predicate RampSpent(r: Trace, mode: Mode, e: nat, k: nat)
    requires r.Valid() && k <= |r.outs|
  {
    exists n :: e <= n < k && r.Decided(n, mode) && PreRamp(r, n) > 0
  }

  /** One step of a stay: an active decision is ramped exactly when the ramp is
      pending, and only a positive one spends it. */
  lemma RampStep(t: Session, s: ControllerState, w: WorldView, b: BatteryState, clock: Clock, mode: Mode)
    requires Active(mode) && w.Primary() == Some(b) && !TooSoon(t, s, clock.now)
    ensures
      var (s1, d) := Decide(t, s, w, clock);
      var s0 := s.(lastDecision := clock.now);
      var pending := if s.lastMode == mode then s.rampPending else true;
      var power := TargetPower(t, s0, TargetOf(t, s0, w, b, clock).mode, w.grid.total, b);
      s1.lastMode == mode ==>
        && (d.value.mode == mode ==>
              d.value.power == (if pending then Ramped(power) else power)
              && s1.rampPending == (pending && power == 0))
        && (d.value.mode != mode ==> s.lastMode == mode && s1.rampPending == s.rampPending)
  {
    hide TargetPower, TargetOf;
  }

  /** Within a stay the ramp is pending exactly until the first decision that
      asks for power, whatever suppressed or zero-cap decisions come between. */
  lemma {:induction false} RampPendingUntilSpent(r: Trace, mode: Mode, e: nat, m: nat)
    requires r.Valid() && Active(mode) && Stay(r, mode, e, m)
    ensures r.states[m].rampPending <==> !RampSpent(r, mode, e, m)
  {
    hide DecideAt, TargetPower, TargetOf;
    var n := m - 1;
    assert r.Follows(n);
    if n > e {
      assert Stay(r, mode, e, n);
      RampPendingUntilSpent(r, mode, e, n);
    } else {
      assert !RampSpent(r, mode, e, n);
    }
    assert RampSpent(r, mode, e, m) <==>
           RampSpent(r, mode, e, n) || (r.Decided(n, mode) && PreRamp(r, n) > 0);
    if r.outs[n].Some? {
      RampStep(r.t, r.states[n], r.inputs[n].world, r.inputs[n].world.Primary().value, r.inputs[n].clock, mode);
    }
  }

  /** In each stay the first decision asking for power commands three quarters
      of it, and every later one commands all of it. */
  lemma RampExactlyOnce(r: Trace, mode: Mode, e: nat, k: nat)
    requires r.Valid() && Active(mode) && e <= k < |r.outs| && Stay(r, mode, e, k + 1) && r.Decided(k, mode)
    ensures r.outs[k].value.power ==
            if RampSpent(r, mode, e, k) then PreRamp(r, k) else Ramped(PreRamp(r, k))
  {
    hide DecideAt, TargetPower, TargetOf;
    assert r.Follows(k);
    if k > e {
      assert Stay(r, mode, e, k);
      RampPendingUntilSpent(r, mode, e, k);
    } else {
      assert !RampSpent(r, mode, e, k);
    }
    RampStep(r.t, r.states[k], r.inputs[k].world, r.inputs[k].world.Primary().value, r.inputs[k].clock, mode);
  }

  // --- What an active or a standby decision needs ---

  /** A recent charger sample drawing enough to hold discharge. */
  ghost predicate CarDraws(t: Session, w: WorldView, now: Timestamp, draw: U32)
  {
    t.carBlock > 0 && draw >= t.carBlock
    && exists at :: w.TheCharger() == Some((ChargerState(draw), at)) && Since(now, at) <= ElapsedOf(t.blindWindow)
  }

  ghost predicate Warranted(t: Session, s: ControllerState, w: WorldView, clock: Clock, d: Decision)
  {
    && (d.mode == Discharge ==>
          && (forall draw :: !CarDraws(t, w, clock.now, draw))
          && (t.solarBlock == 0.0 || w.solar < t.solarBlock)
          && w.UnderlyingGrid() > (if s.lastMode == Discharge then 0.0 else t.dischargeStart))
    && (d.mode == Charge ==> w.UnderlyingGrid() < (if s.lastMode == Charge then 0.0 else t.chargeStart))
    && (d.reason.HeldForCar? ==> CarDraws(t, w, clock.now, d.reason.draw) && !Active(d.mode) && d.power == 0)
  }

  /** No decision discharges into a car that draws enough, into enough solar, or
      without the battery-free house importing past its threshold, which falls
      to zero while discharging; none charges without it exporting past its own. */
  lemma ActiveIsWarranted(t: Session, s: ControllerState, w: WorldView, clock: Clock)
    ensures
      var d := Decide(t, s, w, clock).1;
      d.Some? ==> Warranted(t, s, w, clock, d.value)
  {
    hide StepLaw, ErrorOf;
  }

  ghost predicate Earned(t: Session, s1: ControllerState, d: Decision, now: Timestamp)
  {
    var idledOut := s1.lastIdleStart.Some? && Since(now, s1.lastIdleStart.value) >= ElapsedOf(t.idleTimeout);
    && (d.mode == Standby ==> d.power == 0)
    && (d.reason == CycleLimit ==> d.mode == Standby && 0 < t.cycleLimit <= s1.transitions)
    && (d.mode == Standby && d.reason != CycleLimit ==> s1.lastMode == Idle && idledOut)
    && (d.mode == Idle && d.reason.Rules? ==> !idledOut)
  }

  /** Apart from the cycle limit, standby is exactly an idle that has lasted the
      idle timeout, counted from the stamp in force. */
  lemma StandbyIsEarned(t: Session, s: ControllerState, w: WorldView, clock: Clock)
    ensures
      var (s1, d) := Decide(t, s, w, clock);
      d.Some? ==> Earned(t, s1, d.value, clock.now)
  {
    hide StepLaw, ErrorOf, ChargeWanted, DischargeWanted, CarCharging;
  }

  // --- Standby ends an idle ---

  /** The controller has been idle in all of the states `e` to `m`, and the stamp in
      force is the one state `e` began with. */
  ghost predicate IdleSince(r: Trace, e: nat, m: nat)
    requires r.Valid()
  {
    && e <= m < |r.states|
    && (forall n | e <= n <= m :: r.states[n].lastMode == Idle && r.states[n].lastIdleStart == r.states[e].lastIdleStart)
    && (e > 0 ==> r.states[e - 1].lastMode != Idle && r.states[e].lastIdleStart == Some(r.Now(e - 1)))
  }

  /** Whatever was decided at `n` commands no power. */
  ghost predicate Rests(r: Trace, n: nat)
    requires n < |r.outs|
  {
    r.outs[n].Some? ==> !Active(r.outs[n].value.mode) && r.outs[n].value.power == 0
  }

  lemma IdleStep(r: Trace, n: nat)
    requires r.Valid() && n < |r.outs| && r.states[n + 1].lastMode == Idle
    ensures Rests(r, n)
    ensures r.states[n + 1].lastIdleStart ==
            if r.states[n].lastMode == Idle then r.states[n].lastIdleStart else Some(r.Now(n))
  {
    hide StepLaw, ErrorOf, ChargeWanted, DischargeWanted, CarCharging;
    assert r.Follows(n);
  }

  lemma {:induction false} IdleBegan(r: Trace, m: nat) returns (e: nat)
    requires r.Valid() && m < |r.states| && r.states[m].lastMode == Idle
    ensures IdleSince(r, e, m)
    ensures forall n: nat | e <= n + 1 <= m :: Rests(r, n)
  {
    e := m;
    if m > 0 {
      IdleStep(r, m - 1);
      if r.states[m - 1].lastMode == Idle { e := IdleBegan(r, m - 1); }
    }
  }

  /** A standby other than the cycle limit's closes an idle at least as long as the
      idle timeout: from the stamp on, every decision commanded nothing. */
  lemma StandbyFollowsIdle(r: Trace, k: nat) returns (e: nat)
    requires r.Valid() && k < |r.outs| && r.Decided(k, Standby) && r.outs[k].value.reason != CycleLimit
    ensures IdleSince(r, e, k + 1) && r.states[e].lastIdleStart.Some?
    ensures Since(r.Now(k), r.states[e].lastIdleStart.value) >= ElapsedOf(r.t.idleTimeout)
    ensures forall n: nat | e <= n + 1 <= k + 1 :: Rests(r, n)
  {
    assert r.Follows(k);
    StandbyIsEarned(r.t, r.states[k], r.inputs[k].world, r.inputs[k].clock);
    hide Decide, Trace.Valid;
    e := IdleBegan(r, k + 1);
  }

  // --- The transition budget ---

  /** What happened, read off a decision and the state it was taken in. */
  datatype Kind = Entry | Suppression

  /** Decision `k` went through the guards: calibration and faults go round them. */
  ghost predicate Guarded(r: Trace, k: nat)
    requires k < |r.inputs| == |r.outs|
  {
    r.outs[k].Some? && r.inputs[k].world.Primary().Some? && Fit(r.inputs[k].world.Primary().value)
  }

  /** The mode a decision by the rules is in; a timed-out idle shows as standby. */
  function RuledMode(d: Decision): Mode { if d.mode == Standby then Idle else d.mode }

  /** The decision entered a mode from another, or was held back by the cooldown. */
  predicate Shows(s: ControllerState, d: Decision, kind: Kind)
  {
    match kind
    case Entry => d.reason != CycleLimit && d.reason != Cooldown && RuledMode(d) != s.lastMode
    case Suppression => d.reason == Cooldown
  }

  /** The day of the last guarded decision before `k`, or of the session's start. */
  ghost function DayOf(r: Trace, k: nat): U32
    requires k <= |r.inputs| == |r.outs| < |r.states|
  {
    if k == 0 then r.states[0].resetDay
    else if Guarded(r, k - 1) then r.inputs[k - 1].clock.dayOrdinal
    else DayOf(r, k - 1)
  }

  /** How often it happened among the guarded decisions before `k` of that day. */
  ghost function Tally(r: Trace, k: nat, kind: Kind): nat
    requires k <= |r.inputs| == |r.outs| < |r.states|
    decreases k, 0
  {
    if k == 0 then 0
    else if !Guarded(r, k - 1) then Tally(r, k - 1, kind)
    else TallyToday(r, k - 1, kind) + (if Shows(r.states[k - 1], r.outs[k - 1].value, kind) then 1 else 0)
  }

  /** The same as decision `k` finds it: nothing yet when it opens a new day. */
  ghost function TallyToday(r: Trace, k: nat, kind: Kind): nat
    requires k < |r.inputs| == |r.outs| < |r.states|
    decreases k, 1
  {
    if r.inputs[k].clock.dayOrdinal == DayOf(r, k) then Tally(r, k, kind) else 0
  }

  lemma GuardsCount(t: Session, s: ControllerState, target: Target, power: Setpoint, grid: real, clock: Clock)
    requires target.mode != Standby
    ensures
      var (s1, d) := ApplyGuards(t, s, target, power, grid, clock);
      var sameDay := clock.dayOrdinal == s.resetDay;
      var entries, suppressions := if sameDay then s.transitions else 0, if sameDay then s.suppressions else 0;
      && s1.resetDay == clock.dayOrdinal
      && s1.transitions == entries + (if Shows(s, d, Entry) then 1 else 0)
      && s1.suppressions == suppressions + (if Shows(s, d, Suppression) then 1 else 0)
      && (d.reason == CycleLimit <==> 0 < t.cycleLimit <= entries)
  {
    hide Since, ElapsedOf, Ramped;
  }

  lemma DecisionCounts(r: Trace, k: nat)
    requires r.Valid() && k < |r.outs|
    ensures !Guarded(r, k) ==>
              && r.states[k + 1].resetDay == r.states[k].resetDay
              && r.states[k + 1].transitions == r.states[k].transitions
              && r.states[k + 1].suppressions == r.states[k].suppressions
    ensures Guarded(r, k) ==>
              var s, d := r.states[k], r.outs[k].value;
              var sameDay := r.inputs[k].clock.dayOrdinal == s.resetDay;
              && r.states[k + 1].resetDay == r.inputs[k].clock.dayOrdinal
              && r.states[k + 1].transitions ==
                 (if sameDay then s.transitions else 0) + (if Shows(s, d, Entry) then 1 else 0)
              && r.states[k + 1].suppressions ==
                 (if sameDay then s.suppressions else 0) + (if Shows(s, d, Suppression) then 1 else 0)
              && (d.reason == CycleLimit <==> 0 < r.t.cycleLimit <= if sameDay then s.transitions else 0)
  {
    hide ApplyGuards, TargetPower, TargetMode, DischargeWanted, CarCharging;
    assert r.Follows(k);
    if Guarded(r, k) {
      var w, clock := r.inputs[k].world, r.inputs[k].clock;
      var s0, b := r.states[k].(lastDecision := clock.now), w.Primary().value;
      var target := TargetOf(r.t, s0, w, b, clock);
      TargetIsNotStandby(r.t, s0, w, b, clock);
      GuardsCount(r.t, s0, target, TargetPower(r.t, s0, target.mode, w.grid.total, b), w.grid.total, clock);
    }
  }

  lemma TargetIsNotStandby(t: Session, s: ControllerState, w: WorldView, b: BatteryState, clock: Clock)
    ensures TargetOf(t, s, w, b, clock).mode != Standby
  {
  }

  /** The counters count: in every state of every run they are the entries and the
      suppressions of the guarded decisions since the day last changed. */
  lemma {:induction false} CountersCount(r: Trace, k: nat)
    requires r.Valid() && k < |r.states|
    ensures r.states[k].resetDay == DayOf(r, k)
    ensures r.states[k].transitions == Tally(r, k, Entry)
    ensures r.states[k].suppressions == Tally(r, k, Suppression)
  {
    if k > 0 {
      CountersCount(r, k - 1);
      DecisionCounts(r, k - 1);
    }
  }

  /** The cycle limit answers a guarded decision exactly when it is on and that many
      modes have been entered in the day already. */
  lemma LimitActsOnTheCount(r: Trace, k: nat)
    requires r.Valid() && k < |r.outs| && Guarded(r, k)
    ensures r.outs[k].value.reason == CycleLimit <==> 0 < r.t.cycleLimit <= TallyToday(r, k, Entry)
  {
    CountersCount(r, k);
    DecisionCounts(r, k);
  }

  /** Once as many modes have been entered in a day as the limit allows, no more are:
      every decision until a guarded one falls on another day is at no power, standby
      for a fit battery and idle for one that calibrates or has faulted. */
  lemma {:induction false} SpentBudgetStandsBy(r: Trace, i: nat, j: nat)
    requires r.Valid() && i <= j < |r.outs|
    requires 0 < r.t.cycleLimit <= Tally(r, i, Entry)
    requires forall n | i <= n <= j && Guarded(r, n) :: r.inputs[n].clock.dayOrdinal == DayOf(r, i)
    ensures Tally(r, j, Entry) == Tally(r, i, Entry) && DayOf(r, j) == DayOf(r, i)
    ensures r.outs[j].Some? ==>
              r.outs[j].value.power == 0 && r.inputs[j].world.Primary().Some?
              && r.outs[j].value.mode == if Fit(r.inputs[j].world.Primary().value) then Standby else Idle
  {
    if j > i {
      SpentBudgetStandsBy(r, i, j - 1);
      if Guarded(r, j - 1) { LimitActsOnTheCount(r, j - 1); }
    }
    if Guarded(r, j) { LimitActsOnTheCount(r, j); }
    LimitedOrUnfit(r.t, r.states[j], r.inputs[j].world, r.inputs[j].clock);
    assert r.Follows(j);
  }

  lemma LimitedOrUnfit(t: Session, s: ControllerState, w: WorldView, clock: Clock)
    ensures
      var d := Decide(t, s, w, clock).1;
      d.Some? ==>
        && w.Primary().Some?
        && (Fit(w.Primary().value) && d.value.reason == CycleLimit ==> d.value.mode == Standby && d.value.power == 0)
        && (!Fit(w.Primary().value) ==> d.value.mode == Idle && d.value.power == 0)
  {
    hide TargetPower, TargetOf;
  }

  // --- When a decision is made ---

  /** The time of the last decision before `k`, or the stamp the session began with. */
  ghost function LastDecided(r: Trace, k: nat): Timestamp
    requires k <= |r.inputs| == |r.outs| < |r.states|
  {
    if k == 0 then r.states[0].lastDecision
    else if r.outs[k - 1].Some? then r.Now(k - 1)
    else LastDecided(r, k - 1)
  }

  /** There is a decision exactly when there is a battery and the last decision is at
      least the minimum interval past. */
  lemma {:induction false} DecidesWhenDue(r: Trace, k: nat)
    requires r.Valid() && k < |r.outs|
    ensures r.states[k].lastDecision == LastDecided(r, k)
    ensures r.outs[k].Some? <==>
            && r.inputs[k].world.Primary().Some?
            && Since(r.Now(k), LastDecided(r, k)) >= ElapsedOf(r.t.minDecisionInterval)
  {
    hide TargetPower, TargetOf, GuardsInner, Since, ElapsedOf;
    if k > 0 {
      DecidesWhenDue(r, k - 1);
      assert r.Follows(k - 1);
      StampsTheDecision(r.t, r.states[k - 1], r.inputs[k - 1].world, r.inputs[k - 1].clock);
    }
    assert r.Follows(k);
  }

  lemma StampsTheDecision(t: Session, s: ControllerState, w: WorldView, clock: Clock)
    ensures
      var (s1, d) := Decide(t, s, w, clock);
      s1.lastDecision == if d.Some? then clock.now else s.lastDecision
  {
    hide TargetPower, TargetOf, Since, ElapsedOf;
  }

  // --- Anti-windup ---

  /** The law's target is within the slew limit of what the device reports, and
      moves further than that from what was commanded only toward the report. */
  lemma StepLawTracksReport(t: Session, commanded: Watts, error: Watts, observed: Watts)
    ensures
      var target := StepLaw(t, commanded, error, observed);
      && Sub(observed, Bound(t.slew)) <= target <= Add(observed, Bound(t.slew))
      && (target > commanded + Bound(t.slew) ==> target <= observed)
      && (target < commanded - Bound(t.slew) ==> observed <= target)
  {
  }

  lemma TargetPowerTracksReport(t: Session, s: ControllerState, mode: Mode, grid: real, b: BatteryState)
    requires Active(mode)
    ensures
      var power := TargetPower(t, s, mode, grid, b);
      var observed := ObservedIn(mode, b);
      var cap := Bound(CapIn(mode, b));
      && Min(cap, Sub(observed, Bound(t.slew))) <= power <= Min(cap, Add(observed, Bound(t.slew)))
      && (power > Max(s.commanded, 0) + Bound(t.slew) ==> power <= observed)
      && (power < s.commanded - Bound(t.slew) ==> observed <= power || power == cap)
  {
    StepLawTracksReport(t, s.commanded, ErrorOf(t, mode, grid), ObservedIn(mode, b));
  }

  /** An active decision commands the law's target for its mode, or the ramped
      target when it says so. */
  lemma ActiveDecisionIsTarget(t: Session, s: ControllerState, w: WorldView, clock: Clock)
    ensures
      var d := Decide(t, s, w, clock).1;
      d.Some? && Active(d.value.mode) ==>
        var power := TargetPower(t, s.(lastDecision := clock.now), d.value.mode, w.grid.total, w.Primary().value);
        d.value.power == if d.value.reason == Rules(true) then Ramped(power) else power
  {
    hide TargetPower, TargetMode, DischargeWanted, CarCharging;
  }

  ghost predicate Tracks(t: Session, commanded: Watts, b: BatteryState, d: Decision)
  {
    var observed, cap := ObservedIn(d.mode, b), Bound(CapIn(d.mode, b));
    && 0 <= d.power <= Min(cap, Add(observed, Bound(t.slew)))
    && (d.reason != Rules(true) ==>
          && Min(cap, Sub(observed, Bound(t.slew))) <= d.power
          && (d.power > Max(commanded, 0) + Bound(t.slew) ==> d.power <= observed)
          && (d.power < commanded - Bound(t.slew) ==> observed <= d.power || d.power == cap))
  }

  /** From any state at all, so also on the first decision after an outage or a
      fault: an active setpoint is at most the report plus the slew limit, an
      unramped one at least the report less it (or the cap), and an unramped one
      leaves the last commanded value by more than the slew limit only toward
      the report or down to the cap. */
  lemma SetpointTracksReport(t: Session, s: ControllerState, w: WorldView, clock: Clock)
    ensures
      var d := Decide(t, s, w, clock).1;
      d.Some? && Active(d.value.mode) ==> Tracks(t, s.commanded, w.Primary().value, d.value)
  {
    hide DecideAt, TargetPower;
    ActiveDecisionIsTarget(t, s, w, clock);
    var d := Decide(t, s, w, clock).1;
    if d.Some? && Active(d.value.mode) {
      TargetPowerTracksReport(t, s.(lastDecision := clock.now), d.value.mode, w.grid.total, w.Primary().value);
    }
  }

  /** After a decision that commands no power the running estimate is zero exactly
      when the battery was fit, or it was zero before: the calibration and fault
      idles leave it standing. */
  lemma IdleClearsCommandedIfFit(t: Session, s: ControllerState, w: WorldView, clock: Clock)
    ensures
      var (s1, d) := Decide(t, s, w, clock);
      d.Some? && !Active(d.value.mode) ==> (s1.commanded == 0 <==> Fit(w.Primary().value) || s.commanded == 0)
  {
    hide TargetPower, TargetOf;
  }

  const TUNING := Session(50, 5, 25, 25, 100, 400, -100.0, 50.0, 0, 0, 300000, 0, 0, 10, 100, None, 0.0, 0, 120000)

  const HEALTHY := BatteryState(50, 800, 2400, 0, false, false, false)

  function OneBattery(grid: real, b: BatteryState): WorldView
  {
    WorldView(MeterReading(grid, Phases(0.0, 0.0, 0.0)), 0.0, map[0 := Battery(b)], None, map[0 := 0])
  }

  lemma OneBatteryView(grid: real, b: BatteryState)
    ensures OneBattery(grid, b).Primary() == Some(b)
    ensures OneBattery(grid, b).UnderlyingGrid() == grid + b.currentPower as real
    ensures OneBattery(grid, b).TheCharger().None?
  {
    var w := OneBattery(grid, b);
    assert w.BatteryIds() == {0} && w.ChargerIds() == {};
    AscendingIsSorted({0});
    assert w.Batteries() == [0];
    assert w.FlowOf([]) == 0;
    assert [0][..0] == [];
  }

  lemma ImportTarget(s: ControllerState, clock: Clock)
    requires s.lastMode == Idle && s.lastActive.None? && s.commanded == 0
    ensures TargetOf(TUNING, s, OneBattery(405.0, HEALTHY), HEALTHY, clock) == Target(Discharge, None)
    ensures TargetPower(TUNING, s, Discharge, 405.0, HEALTHY) == 400
  {
    OneBatteryView(405.0, HEALTHY);
    assert Importing(405.0) == 405;
    assert ErrorOf(TUNING, Discharge, 405.0) == 400;
  }

  predicate DischargingAt300(s: ControllerState)
  {
    s.lastMode == Discharge && s.lastActive == Some(Discharge) && !s.rampPending && s.commanded == 300
  }

  lemma FirstGuards(s: ControllerState, clock: Clock)
    requires s.lastMode == Idle && s.transitions == 0
    ensures
      var (s1, d) := ApplyGuards(TUNING, s, Target(Discharge, None), 400, 405.0, clock);
      d.mode == Discharge && d.power == 300 && DischargingAt300(s1) && s1.lastDecision == s.lastDecision
  {
  }

  lemma FreshMayDecide(clock: Clock)
    ensures
      var s0 := FreshState(TUNING, clock);
      && !TooSoon(TUNING, s0, clock.now)
      && s0.lastMode == Idle && s0.lastActive.None? && s0.commanded == 0 && s0.transitions == 0
  {
  }

  lemma ImportStartsDischarge(clock: Clock)
    ensures
      var s0 := FreshState(TUNING, clock);
      var (s1, d) := Decide(TUNING, s0, OneBattery(405.0, HEALTHY), clock);
      d.Some? && d.value.mode == Discharge && DischargingAt300(s1) && s1.lastDecision == clock.now
  {
    hide TargetOf, TargetPower, ApplyGuards, WorldView.Primary, FreshState;
    var s0 := FreshState(TUNING, clock);
    var s := s0.(lastDecision := clock.now);
    FreshMayDecide(clock);
    OneBatteryView(405.0, HEALTHY);
    ImportTarget(s, clock);
    FirstGuards(s, clock);
  }

  lemma FaultKeepsCommanded(s: ControllerState, clock: Clock)
    requires s.lastDecision == clock.now
    ensures
      var (s1, d) := Decide(TUNING, s, OneBattery(405.0, HEALTHY.(fault := true)), clock);
      d.Some? && d.value.mode == Idle && s1.lastMode == Idle
      && s1.commanded == s.commanded && s1.lastActive == s.lastActive && s1.lastDecision == clock.now
  {
    OneBatteryView(405.0, HEALTHY.(fault := true));
  }

  /** The estimate is not always zero after an idle: a fresh session discharges
      into a 405 W import, and the fault idle that follows leaves it standing. */
  lemma FaultIdleKeepsCommanded()
    ensures exists r: Trace ::
              && r.Valid() && |r.outs| == 2
              && r.Decided(0, Discharge) && r.Decided(1, Idle)
              && r.states[2].lastMode == Idle && r.states[2].commanded == 300
  {
    hide DecideAt;
    var clock := Clock(0, 100, Wed);
    var s0 := FreshState(TUNING, clock);
    var w0, w1 := OneBattery(405.0, HEALTHY), OneBattery(405.0, HEALTHY.(fault := true));
    ImportStartsDischarge(clock);
    var (s1, d1) := Decide(TUNING, s0, w0, clock);
    FaultKeepsCommanded(s1, clock);
    var (s2, d2) := Decide(TUNING, s1, w1, clock);
    var r := Trace(TUNING, [Input(w0, clock), Input(w1, clock)], [s0, s1, s2], [d1, d2]);
    ValidPair(r, clock);
  }

  lemma ValidPair(r: Trace, clock: Clock)
    requires |r.inputs| == 2 && |r.states| == 3 && |r.outs| == 2 && r.states[0] == FreshState(r.t, clock)
    requires r.Follows(0) && r.Follows(1)
    ensures r.Valid()
  {
  }
}
