/** When each outcome of a decision comes about, on the figures in the world and the
    history alone, and what each leaves in the history. */
module ControllerLaws {
  import opened Units
  import opened Worlds
  import opened Controllers
  import opened ControllerRuns

  /** One decision: the tuning, the history before it, the world, the primary battery
      and the clock. */
  datatype Case = Case(t: Session, s: ControllerState, w: WorldView, b: BatteryState, clock: Clock)
  {
    predicate Valid() { w.Primary() == Some(b) && !TooSoon(t, s, clock.now) }

    function State(): ControllerState
      requires Valid()
    {
      Decide(t, s, w, clock).0
    }

    function Outcome(): Decision
      requires Valid()
    {
      Decide(t, s, w, clock).1.value
    }

    /** Below the day's maximum, which the balance day lifts to full. */
    predicate HasRoom()
    {
      !b.limitReached && b.soc < if t.balanceDay == Some(clock.weekday) then 100 else t.maxSoc
    }

    /** Enough surplus to start charging, or any to go on. */
    predicate Surplus() { w.UnderlyingGrid() < if s.lastMode == Charge then 0.0 else t.chargeStart }

    /** Enough import to start discharging, or any to go on. */
    predicate Shortage() { w.UnderlyingGrid() > if s.lastMode == Discharge then 0.0 else t.dischargeStart }

    predicate ToCharge() { HasRoom() && Surplus() }

    predicate ToDischarge() { b.soc > t.minSoc && Shortage() }

    ghost predicate HeldByCar() { exists draw :: CarDraws(t, w, clock.now, draw) }

    predicate HeldBySolar() { t.solarBlock != 0.0 && w.solar >= t.solarBlock }

    /** Charged last, and not idle for long enough since. */
    predicate HeldByCharge()
    {
      && s.lastMode != Discharge && s.lastActive == Some(Charge)
      && (s.lastIdleStart.None?
          || Since(clock.now, s.lastIdleStart.value) < ElapsedOf(t.minIdleBeforeDischarge))
    }

    /** What the rules come down to, before the guards. */
    ghost function Ruled(): Mode
    {
      if ToCharge() then Charge
      else if ToDischarge() && !HeldByCar() && !HeldBySolar() && !HeldByCharge() then Discharge
      else Idle
    }

    predicate Spent()
    {
      0 < t.cycleLimit && clock.dayOrdinal == s.resetDay && s.transitions >= t.cycleLimit
    }

    ghost predicate TooQuick()
    {
      && ((s.lastMode == Charge && Ruled() == Discharge) || (s.lastMode == Discharge && Ruled() == Charge))
      && Since(clock.now, s.lastModeChange) < ElapsedOf(t.minModeDuration)
    }

    /** The stamp an idle is counted from: a new one begins with its decision. */
    predicate IdledOutNow()
    {
      var from := if s.lastMode == Idle then s.lastIdleStart else Some(clock.now);
      from.Some? && Since(clock.now, from.value) >= ElapsedOf(t.idleTimeout)
    }
  }

  lemma CarAgrees(c: Case)
    ensures CarCharging(c.t, c.w, c.clock.now).Some? <==> c.HeldByCar()
    ensures CarCharging(c.t, c.w, c.clock.now).Some? ==>
              CarDraws(c.t, c.w, c.clock.now, CarCharging(c.t, c.w, c.clock.now).value)
  {
    if c.t.carBlock > 0 && c.w.TheCharger().Some? {
      var (charger, at) := c.w.TheCharger().value;
      assert c.w.TheCharger() == Some((ChargerState(charger.power), at));
      if CarCharging(c.t, c.w, c.clock.now).Some? { assert CarDraws(c.t, c.w, c.clock.now, charger.power); }
    }
  }

  lemma RulesAgree(c: Case)
    ensures
      var target := TargetOf(c.t, c.s.(lastDecision := c.clock.now), c.w, c.b, c.clock);
      && target.mode == c.Ruled()
      && (target.heldForCar.Some? <==> !c.ToCharge() && c.ToDischarge() && c.HeldByCar())
      && (target.heldForCar.Some? ==> CarDraws(c.t, c.w, c.clock.now, target.heldForCar.value))
  {
    CarAgrees(c);
    hide CarCharging, CarDraws, Case.HeldByCar;
  }

  /** Every outcome, exactly when it comes about: the idles past the guards, then the
      cycle limit, then the cooldown, then the mode the rules come down to, with an
      idle that has lasted shown as standby. */
  ghost predicate Table(c: Case, d: Decision)
  {
    var through := Fit(c.b) && !c.Spent() && !c.TooQuick();
    && (d.reason == Calibrating <==> c.b.calibrating)
    && (d.reason == Faulted <==> !c.b.calibrating && c.b.fault)
    && (d.reason == CycleLimit <==> Fit(c.b) && c.Spent())
    && (d.reason == Cooldown <==> Fit(c.b) && !c.Spent() && c.TooQuick())
    && (d.reason.HeldForCar? <==> through && !c.ToCharge() && c.ToDischarge() && c.HeldByCar())
    && (d.mode == Charge <==> through && c.Ruled() == Charge)
    && (d.mode == Discharge <==> through && c.Ruled() == Discharge)
    && (d.mode == Standby <==> d.reason == CycleLimit || (through && c.Ruled() == Idle && c.IdledOutNow()))
    && (d.reason == StandbyTimeout <==> d.mode == Standby && d.reason != CycleLimit && !d.reason.HeldForCar?)
    && d.grid == c.w.grid.total
  }

  lemma GuardsFollowTable(c: Case, target: Target, power: Setpoint)
    requires Fit(c.b) && target.mode == c.Ruled()
    requires target.heldForCar.Some? <==> !c.ToCharge() && c.ToDischarge() && c.HeldByCar()
    ensures Table(c, ApplyGuards(c.t, c.s.(lastDecision := c.clock.now), target, power, c.w.grid.total, c.clock).1)
  {
    hide Case.Ruled, Case.ToCharge, Case.ToDischarge, Case.HeldByCar, ElapsedOf, Since, Ramped;
    RuledIsNotStandby(c);
  }

  lemma RuledIsNotStandby(c: Case)
    ensures c.Ruled() != Standby
  {
  }

  lemma OutcomesFollowTable(c: Case)
    requires c.Valid()
    ensures Table(c, c.Outcome())
  {
    hide TargetPower, TargetOf, ApplyGuards, TooSoon;
    var s0 := c.s.(lastDecision := c.clock.now);
    if Fit(c.b) {
      RulesAgree(c);
      var target := TargetOf(c.t, s0, c.w, c.b, c.clock);
      GuardsFollowTable(c, target, TargetPower(c.t, s0, target.mode, c.w.grid.total, c.b));
    }
    hide Table;
    if !Fit(c.b) { UnfitFollowsTable(c); }
  }

  lemma UnfitFollowsTable(c: Case)
    requires c.Valid() && !Fit(c.b)
    ensures Table(c, c.Outcome())
  {
    hide TargetPower, TargetOf, ApplyGuards, TooSoon, Case.Ruled, Case.Spent, Case.TooQuick, Case.HeldByCar;
  }

  /** The band lets an error through whole from its width on, and else as none; the one
      error with no positive counterpart is within every band. */
  lemma BandKeepsOrDrops(raw: Watts, width: U32)
    ensures Deadbanded(raw, width) == if raw != I32_MIN && Abs(raw) >= Bound(width) then raw else 0
  {
  }

  // --- What a decision leaves behind ---

  /** Two decisions keep the mode they find: a suppressed one, and a further standby of
      the cycle limit. Otherwise the mode is the one decided on, and entering another
      stamps the change, begins or ends an idle, and makes the ramp due. */
  ghost predicate Leaves(s: ControllerState, d: Decision, now: Timestamp, s1: ControllerState)
  {
    var mode := match d.reason
                case Cooldown => s.lastMode
                case CycleLimit => Standby
                case _ => RuledMode(d);
    var entered := mode != s.lastMode;
    var ruled := d.reason.Rules? || d.reason.HeldForCar? || d.reason.StandbyTimeout?;
    && s1.lastDecision == now
    && s1.lastMode == mode
    && s1.lastModeChange == (if entered then now else s.lastModeChange)
    && s1.lastActive == (if entered && Active(mode) then Some(mode) else s.lastActive)
    && s1.lastIdleStart == (if d.reason == Cooldown || (entered && mode == Idle) then Some(now)
                            else if entered then None else s.lastIdleStart)
    && (!ruled ==> s1.rampPending == (s.rampPending && !entered))
    && (ruled && s1.rampPending ==> d.power == 0 && (s.rampPending || (entered && Active(mode))))
    && (d.reason == Rules(true) ==> s.rampPending || (entered && Active(mode)))
    && s1.commanded == (if d.reason == Calibrating || d.reason == Faulted then s.commanded
                        else if Active(d.mode) then d.power else 0)
  }

  lemma GuardsLeave(t: Session, s: ControllerState, target: Target, power: Setpoint, grid: real, clock: Clock)
    requires target.mode != Standby && (target.heldForCar.Some? ==> target.mode == Idle)
    ensures
      var s0 := s.(lastDecision := clock.now);
      var (s1, d) := ApplyGuards(t, s0, target, power, grid, clock);
      Leaves(s, d, clock.now, s1)
  {
    hide Since, ElapsedOf, Ramped;
  }

  lemma DecisionLeaves(c: Case)
    requires c.Valid()
    ensures Leaves(c.s, c.Outcome(), c.clock.now, c.State())
  {
    hide TargetPower, TargetOf, ApplyGuards, TooSoon, Leaves;
    var s0 := c.s.(lastDecision := c.clock.now);
    if Fit(c.b) {
      var target := TargetOf(c.t, s0, c.w, c.b, c.clock);
      TargetIsRuled(c.t, s0, c.w, c.b, c.clock);
      GuardsLeave(c.t, c.s, target, TargetPower(c.t, s0, target.mode, c.w.grid.total, c.b), c.w.grid.total, c.clock);
    } else {
      UnfitLeaves(c);
    }
  }

  lemma TargetIsRuled(t: Session, s: ControllerState, w: WorldView, b: BatteryState, clock: Clock)
    ensures
      var target := TargetOf(t, s, w, b, clock);
      target.mode != Standby && (target.heldForCar.Some? ==> target.mode == Idle)
  {
  }

  lemma UnfitLeaves(c: Case)
    requires c.Valid() && !Fit(c.b)
    ensures Leaves(c.s, c.Outcome(), c.clock.now, c.State())
  {
    hide TargetPower, TargetOf, ApplyGuards, TooSoon;
  }
}
