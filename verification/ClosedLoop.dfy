/** The control law closed around a battery that does what it is told and a house
    whose load holds still: the setpoint homes in on the load less the margin. The
    battery's report and the controller's own estimate are kept apart, since they
    differ when control resumes after an idle that left the estimate standing. */
module ClosedLoop {
  import opened Units
  import opened Worlds
  import opened Controllers
  import R = ControllerRuns

  /** A flow in the regulated direction; negative when it runs the other way. */
  type Flow = p: int | -I32_MAX <= p <= I32_MAX

  /** A house drawing `load` watts (negative: surplus) beside one healthy battery,
      regulated in one direction. */
  datatype Loop = Loop(t: Session, b: BatteryState, load: int, mode: Mode)
  {
    /** What the direction has to supply: the load, or the surplus. */
    function Need(): int { if mode == Charge then -load else load }

    function Margin(): Setpoint { Bound(if mode == Charge then t.chargeMargin else t.dischargeMargin) }

    function Goal(): int { Need() - Margin() }

    function Cap(): Setpoint { Bound(CapIn(mode, b)) }

    function Band(): Setpoint { Bound(if mode == Charge then t.chargeDeadband else t.dischargeDeadband) }

    /** The rules keep wanting this direction at this load. */
    predicate Wanted()
    {
      if mode == Charge
      then load < 0 && b.soc < t.maxSoc && !b.limitReached
      else load > 0 && load as real >= t.chargeStart && b.soc > t.minSoc && 0.0 <= t.solarBlock
    }

    predicate Tuned()
    {
      && Active(mode)
      && 1 <= t.gain <= 100 && 1 <= t.slew
      && 1 <= Band() && t.gain * Band() >= 50
      && -I32_MAX <= load <= I32_MAX && 0 <= Goal() <= Cap()
      && !b.calibrating && !b.fault
      && Wanted()
    }

    /** A battery whose report is the flow `p`, watt for watt. */
    function Reporting(p: Flow): BatteryState
    {
      b.(currentPower := if mode == Charge then 0 - p else p)
    }

    function WorldAt(p: Flow): WorldView
    {
      var flow := if mode == Charge then 0 - p else p;
      R.OneBattery((load - flow) as real, Reporting(p))
    }

    predicate CycleRoom(s: ControllerState, entries: nat)
    {
      t.cycleLimit == 0 || s.transitions + entries < t.cycleLimit
    }

    /** In the mode already. The battery may have been idled meanwhile, as the
        failsafe does, and the estimate left standing. */
    predicate Resuming(s: ControllerState)
    {
      s.lastMode == mode && CycleRoom(s, 0)
    }

    /** In another mode, past the guards, with the load beyond the start threshold. */
    predicate Entering(s: ControllerState, clock: Clock)
    {
      && s.lastMode != mode
      && CycleRoom(Rollover(s, clock), 1)
      && !CoolingDown(t, s, mode, clock.now)
      && (if mode == Charge then load as real < t.chargeStart
          else load as real > t.dischargeStart && IdleLongEnough(t, s, clock.now))
    }

    /** Any state from which the next decision regulates in this direction, with
        whatever estimate it carries. */
    predicate Ready(s: ControllerState, clock: Clock)
    {
      0 <= s.commanded && (Resuming(s) || Entering(s, clock))
    }

    /** In the mode, with a battery that reports what the controller believes. */
    predicate Running(s: ControllerState, p: Flow)
    {
      Resuming(s) && s.commanded == p && 0 <= p <= Cap() && (s.rampPending ==> p == 0)
    }

    function Next(s: ControllerState, p: Flow, clock: Clock): (ControllerState, Decision)
    {
      DecideAt(t, s, WorldAt(p), Reporting(p), clock)
    }

    // --- The first setpoint, in closed form ---

    /** How the law wants to move on a report of `p`: not at all inside the band. */
    function Move(p: Flow): int
    {
      var raw := SatI32(SatI32(Need() - p) - Margin());
      var wanted := if WrappingAbs(raw) < Band() then 0 else ApplyGain(t.gain, raw);
      Limited(wanted, Bound(t.slew))
    }

    /** What the law asks for from the estimate `c` on a report of `p`. */
    function Asked(c: Watts, p: Flow): Setpoint
    {
      var limit, reported := Bound(t.slew), Max(p, 0);
      Clamp(Clamp(SatI32(c + Move(p)), SatI32(reported - limit), SatI32(reported + limit)), 0, Cap())
    }

    /** The part of it that is commanded: three quarters while the ramp is due. */
    function Share(s: ControllerState, w: Setpoint): Setpoint
    {
      if s.lastMode != mode || s.rampPending then Ramped(w) else w
    }

    function FirstSetpoint(s: ControllerState, p: Flow): Setpoint { Share(s, Asked(s.commanded, p)) }
  }

  /** A move cut to at most `limit` either way. */
  function Limited(move: int, limit: Setpoint): int
  {
    if limit < move then limit else if move < 0 - limit then 0 - limit else move
  }

  /** `to` lies between `from` and `goal`. */
  predicate Toward(from: int, to: int, goal: int)
  {
    from <= to <= goal || goal <= to <= from
  }

  lemma ErrorInLoop(l: Loop, p: Flow)
    requires Active(l.mode)
    ensures
      var raw := SatI32(SatI32(l.Need() - p) - l.Margin());
      ErrorOf(l.t, l.mode, l.WorldAt(p).grid.total) == if WrappingAbs(raw) < l.Band() then 0 else raw
    ensures ObservedIn(l.mode, l.Reporting(p)) == Max(p, 0)
  {
    var grid := l.WorldAt(p).grid.total;
    if l.mode == Charge {
      assert Exporting(grid) == SatI32(l.Need() - p);
    } else {
      assert Importing(grid) == SatI32(l.Need() - p);
    }
  }

  /** Clamping the moved value around where it started clamps the move. */
  lemma StepLawClosedForm(t: Session, c: Watts, error: Watts, reported: Setpoint)
    ensures
      var limit := Bound(t.slew);
      StepLaw(t, c, error, reported) ==
      Clamp(SatI32(c + Limited(ApplyGain(t.gain, error), limit)), SatI32(reported - limit), SatI32(reported + limit))
  {
    hide ApplyGain;
  }

  lemma NoGainOfNothing(gain: Gain)
    ensures ApplyGain(gain, 0) == 0
  {
  }

  lemma TargetInLoop(l: Loop, s: ControllerState, p: Flow, clock: Clock)
    requires l.Tuned() && l.Ready(s, clock)
    ensures TargetOf(l.t, s, l.WorldAt(p), l.Reporting(p), clock) == Target(l.mode, None)
  {
    var flow := if l.mode == Charge then -p else p;
    R.OneBatteryView((l.load - flow) as real, l.Reporting(p));
    assert l.WorldAt(p).UnderlyingGrid() == l.load as real;
  }

  lemma PowerInLoop(l: Loop, s: ControllerState, p: Flow)
    requires Active(l.mode)
    ensures TargetPower(l.t, s, l.mode, l.WorldAt(p).grid.total, l.Reporting(p)) == l.Asked(s.commanded, p)
  {
    hide ErrorOf, ObservedIn, StepLaw, ApplyGain;
    ErrorInLoop(l, p);
    NoGainOfNothing(l.t.gain);
    StepLawClosedForm(l.t, s.commanded, ErrorOf(l.t, l.mode, l.WorldAt(p).grid.total), Max(p, 0));
  }

  lemma GuardsInLoop(l: Loop, s: ControllerState, power: Setpoint, grid: real, clock: Clock)
    requires Active(l.mode) && l.Ready(s, clock)
    ensures
      var (s1, d) := ApplyGuards(l.t, s, Target(l.mode, None), power, grid, clock);
      && d.mode == s1.lastMode == l.mode
      && d.power == s1.commanded == l.Share(s, power)
      && (s1.rampPending ==> power == 0)
      && l.CycleRoom(s1, 0)
  {
  }

  /** One decision from any entry, whatever the estimate and whatever the battery
      reports: the setpoint in closed form, and a running loop. */
  lemma FirstDecision(l: Loop, s: ControllerState, p: Flow, clock: Clock)
    requires l.Tuned() && l.Ready(s, clock)
    ensures
      var (s1, d) := l.Next(s, p, clock);
      && d.mode == l.mode && d.power == l.FirstSetpoint(s, p) && l.Running(s1, d.power)
      && (s1.rampPending ==> l.Asked(s.commanded, p) == 0)
  {
    hide Loop.Asked, TargetOf, TargetPower, ApplyGuards;
    var s0 := s.(lastDecision := clock.now);
    assert l.Ready(s0, clock);
    TargetInLoop(l, s0, p, clock);
    PowerInLoop(l, s0, p);
    GuardsInLoop(l, s0, l.Asked(s.commanded, p), l.WorldAt(p).grid.total, clock);
    AskedIsCapped(l, s.commanded, p);
  }

  lemma AskedIsCapped(l: Loop, c: Watts, p: Flow)
    ensures l.Asked(c, p) <= l.Cap()
  {
    hide Loop.Move;
  }

  // --- Which entries cross ---

  /** The estimate after one slew-limited move on a report of `p`. */
  function Lifted(l: Loop, c: Watts, p: Flow): Setpoint { Max(SatI32(c + l.Move(p)), 0) }

  /** From a battery at rest, or still flowing the other way, the first setpoint
      passes the goal exactly when the commanded share of each of three figures does:
      the estimate after one move, the slew limit, and the cap. */
  lemma EntryCrosses(l: Loop, s: ControllerState, p: Flow, clock: Clock)
    requires l.Tuned() && l.Ready(s, clock) && p <= 0
    ensures
      var d := l.Next(s, p, clock).1;
      && d.power == l.Share(s, Min(Min(Lifted(l, s.commanded, p), Bound(l.t.slew)), l.Cap()))
      && (!Toward(p, d.power, l.Goal()) <==>
          && l.Share(s, Lifted(l, s.commanded, p)) > l.Goal()
          && l.Share(s, Bound(l.t.slew)) > l.Goal()
          && l.Share(s, l.Cap()) > l.Goal())
  {
    hide Loop.Asked, Loop.Next, Lifted, Loop.Share;
    FirstDecision(l, s, p, clock);
    AskedOfStillOrOpposed(l, s.commanded, p);
    var lifted := Lifted(l, s.commanded, p);
    ShareIsMonotone(l, s, lifted, Bound(l.t.slew));
    ShareIsMonotone(l, s, Min(lifted, Bound(l.t.slew)), l.Cap());
  }

  lemma AskedOfStillOrOpposed(l: Loop, c: Watts, p: Flow)
    requires p <= 0
    ensures l.Asked(c, p) == Min(Min(Lifted(l, c, p), Bound(l.t.slew)), l.Cap())
  {
    hide Loop.Move;
  }

  lemma MoveAtRest(l: Loop)
    requires l.Tuned()
    ensures 0 <= l.Move(0) <= Min(l.Goal(), Bound(l.t.slew))
    ensures l.Goal() < l.Band() <==> l.Move(0) == 0
  {
    if l.Goal() >= l.Band() { GainMoves(l.t.gain, l.Band(), l.Goal()); }
  }

  lemma ShareIsMonotone(l: Loop, s: ControllerState, v: Setpoint, w: Setpoint)
    ensures l.Share(s, Min(v, w)) == Min(l.Share(s, v), l.Share(s, w)) && l.Share(s, v) <= v
  {
  }

  /** With nothing left in the estimate an entry never crosses, and it leaves the
      ramp pending only inside the band. */
  lemma CleanEntryNeverCrosses(l: Loop, s: ControllerState, clock: Clock)
    requires l.Tuned() && l.Ready(s, clock) && s.commanded == 0
    ensures
      var (s1, d) := l.Next(s, 0, clock);
      Toward(0, d.power, l.Goal()) && (s1.rampPending ==> l.Goal() < l.Band())
  {
    FirstDecision(l, s, 0, clock);
    MoveAtRest(l);
    hide Loop.Move, Loop.Next;
    assert l.Asked(0, 0) == Min(l.Move(0), l.Cap());
    ShareIsMonotone(l, s, l.Asked(0, 0), l.Cap());
  }

  // --- Once running ---

  lemma GainMoves(gain: Gain, band: nat, error: Watts)
    requires gain <= 100 && gain * band >= 50 && Abs(error) >= band
    ensures 0 < error ==> 1 <= ApplyGain(gain, error) <= error
    ensures error < 0 ==> error <= ApplyGain(gain, error) <= -1
  {
    assert gain * Abs(error) >= gain * band;
    GainBounds(gain, error);
  }

  /** On a report that agrees with the estimate one update moves strictly toward the
      goal without crossing it outside the deadband, and holds still inside. */
  lemma LawApproaches(l: Loop, p: Setpoint)
    requires l.Tuned() && p <= l.Cap()
    ensures Toward(p, l.Asked(p, p), l.Goal())
    ensures Abs(l.Goal() - p) < l.Band() <==> l.Asked(p, p) == p
  {
    MoveWhileRunning(l, p);
    hide Loop.Move;
  }

  lemma MoveWhileRunning(l: Loop, p: Setpoint)
    requires l.Tuned() && p <= l.Cap()
    ensures Abs(l.Goal() - p) < l.Band() ==> l.Move(p) == 0
    ensures l.Goal() - p >= l.Band() ==> 1 <= l.Move(p) <= Min(l.Goal() - p, Bound(l.t.slew))
    ensures p - l.Goal() >= l.Band() ==> 1 <= 0 - l.Move(p) <= Min(p - l.Goal(), Bound(l.t.slew))
  {
    var raw := l.Goal() - p;
    if Abs(raw) >= l.Band() { GainMoves(l.t.gain, l.Band(), raw); }
    hide ApplyGain;
  }

  lemma NegatedProduct(gain: Gain, w: int)
    ensures gain * (0 - w) == 0 - gain * w
  {
  }

  lemma GainWithin(gain: Gain, w: Watts, limit: Setpoint)
    requires gain <= 100 && gain * Abs(w) < 100 * limit + 50
    ensures Abs(ApplyGain(gain, w)) <= limit
    ensures -50 <= gain * w - 100 * ApplyGain(gain, w) <= 50
  {
    hide ApplyGain;
    var n, scaled := gain * w, ApplyGain(gain, w);
    GainScales(gain, w);
    InRange(gain, w);
    SignOfProduct(gain, w);
    assert Abs(n) < 100 * limit + 50;
    Hundredths(n, scaled, limit);
  }

  lemma SignOfProduct(gain: Gain, w: int)
    ensures Abs(gain * w) == gain * Abs(w) && (0 <= w ==> 0 <= gain * w) && (w < 0 ==> gain * w <= 0)
  {
    NegatedProduct(gain, w);
    if 0 <= w { assert gain * w >= 0; } else { assert gain * (0 - w) >= 0; }
  }

  lemma Hundredths(n: int, scaled: int, limit: int)
    requires Abs(n) < 100 * limit + 50 && -50 <= n - 100 * scaled <= 50
    requires 0 <= n ==> n - 100 * scaled < 50
    requires n < 0 ==> -50 < n - 100 * scaled
    ensures Abs(scaled) <= limit
  {
  }

  lemma InRange(gain: Gain, w: Watts)
    requires gain <= 100
    ensures 100 * I32_MIN - 50 < gain * w < 100 * I32_MAX + 50
  {
    if 0 <= w { assert 0 <= gain * w <= 100 * w; } else { assert 100 * w <= gain * w <= 0; }
  }

  lemma MoveIsTheGain(l: Loop, p: Setpoint)
    requires l.Tuned() && p <= l.Cap() && Abs(l.Goal() - p) >= l.Band()
    requires Abs(ApplyGain(l.t.gain, l.Goal() - p)) <= Bound(l.t.slew)
    ensures l.Move(p) == ApplyGain(l.t.gain, l.Goal() - p)
  {
    hide ApplyGain;
  }

  lemma AskedIsTheMove(l: Loop, p: Setpoint)
    requires l.Tuned() && p <= l.Cap() && Abs(l.Goal() - p) >= l.Band()
    ensures l.Asked(p, p) == p + l.Move(p)
  {
    MoveWhileRunning(l, p);
    hide Loop.Move;
  }

  lemma ShareTaken(gain: Gain, was: int, scaled: int)
    requires -50 <= gain * was - 100 * scaled <= 50
    ensures Abs(100 * (was - scaled) - (100 - gain) * was) <= 50
  {
    assert (100 - gain) * was == 100 * was - gain * was;
  }

  /** What the gain is for: outside the band, with no ramp due and no slewing, one
      decision takes the gain's percentage off the error, to the nearest watt. */
  lemma StepTakesItsShare(l: Loop, s: ControllerState, p: Flow, clock: Clock)
    requires l.Tuned() && l.Running(s, p) && !s.rampPending && Abs(l.Goal() - p) >= l.Band()
    requires l.t.gain * Abs(l.Goal() - p) < 100 * Bound(l.t.slew) + 50
    ensures
      var was, left := l.Goal() - p, l.Goal() - l.Next(s, p, clock).1.power;
      Abs(100 * left - (100 - l.t.gain) * was) <= 50
  {
    hide ApplyGain, Loop.Next, Loop.Move, Loop.Asked;
    FirstDecision(l, s, p, clock);
    GainWithin(l.t.gain, l.Goal() - p, Bound(l.t.slew));
    MoveIsTheGain(l, p);
    AskedIsTheMove(l, p);
    ShareTaken(l.t.gain, l.Goal() - p, l.Move(p));
  }

  /** What one decision of a running loop does to the setpoint. */
  ghost predicate Progress(l: Loop, s: ControllerState, p: int, s1: ControllerState, p1: int)
  {
    && Toward(p, p1, l.Goal())
    && (s1.rampPending ==> Abs(l.Goal() - p1) < l.Band())
    && (Abs(l.Goal() - p) < l.Band() ==> p1 == p)
    && (Abs(l.Goal() - p) >= l.Band() && !s.rampPending ==> p1 != p)
  }

  lemma LoopStep(l: Loop, s: ControllerState, p: Flow, clock: Clock)
    requires l.Tuned() && l.Running(s, p)
    ensures
      var (s1, d) := l.Next(s, p, clock);
      d.mode == l.mode && l.Running(s1, d.power) && Progress(l, s, p, s1, d.power)
  {
    hide Loop.Asked, Loop.Next, Toward;
    FirstDecision(l, s, p, clock);
    LawApproaches(l, p);
    ShareStaysBetween(l, s, p, l.Asked(p, p));
    assert Toward(p, 0, l.Goal()) && 0 < p ==> l.Goal() == 0 by { AtZero(p, l.Goal()); }
  }

  lemma AtZero(p: int, goal: int)
    requires 0 <= goal
    ensures Toward(p, 0, goal) && 0 < p ==> goal == 0
  {
  }

  lemma ShareStaysBetween(l: Loop, s: ControllerState, p: int, asked: Setpoint)
    requires Toward(p, asked, l.Goal()) && 0 <= l.Goal() && 0 <= p && (s.lastMode != l.mode || s.rampPending ==> p == 0)
    ensures Toward(p, l.Share(s, asked), l.Goal())
    ensures asked == p ==> l.Share(s, asked) == p
  {
  }

  /** A run of the loop from any entry, whatever the clocks, the estimate it begins
      with and the flow the battery has then. */
  datatype LoopRun = LoopRun(l: Loop, clocks: seq<Clock>, states: seq<ControllerState>, flows: seq<Flow>,
                             outs: seq<Decision>)
  {
    ghost predicate Valid()
    {
      && l.Tuned()
      && |states| == |flows| == |clocks| + 1 == |outs| + 1
      && |clocks| > 0 && l.Ready(states[0], clocks[0])
      && (forall k | 0 <= k < |clocks| :: Follows(k))
    }

    /** The battery takes each setpoint and reports it to the next decision. */
    ghost predicate Follows(k: nat)
      requires k < |clocks| && |states| == |flows| == |clocks| + 1 == |outs| + 1
    {
      (states[k + 1], outs[k]) == l.Next(states[k], flows[k], clocks[k]) && flows[k + 1] == outs[k].power
    }

    /** How far the battery is from the goal after `k` decisions. */
    function Error(k: nat): nat
      requires k < |flows|
    {
      Abs(l.Goal() - flows[k])
    }

    /** One decision more when the entry left the ramp still to be spent. */
    function RampStep(): nat
      requires |states| > 1
    {
      if states[1].rampPending then 1 else 0
    }
  }

  /** From every entry the loop is running after one decision and for good. */
  lemma {:induction false} RunsFromTheFirst(r: LoopRun, k: nat)
    requires r.Valid() && 0 < k < |r.states|
    ensures r.l.Running(r.states[k], r.flows[k]) && r.outs[k - 1].mode == r.l.mode
  {
    hide Loop.Next;
    assert r.Follows(k - 1);
    if k == 1 {
      FirstDecision(r.l, r.states[0], r.flows[0], r.clocks[0]);
    } else {
      RunsFromTheFirst(r, k - 1);
      LoopStep(r.l, r.states[k - 1], r.flows[k - 1], r.clocks[k - 1]);
    }
  }

  /** Every decision but the first moves toward the goal and never past it, and so
      does the first when report and estimate agree. */
  lemma NeverCrosses(r: LoopRun, k: nat)
    requires r.Valid() && k < |r.outs| && (k > 0 || r.l.Running(r.states[0], r.flows[0]))
    ensures Toward(r.flows[k], r.flows[k + 1], r.l.Goal())
    ensures Progress(r.l, r.states[k], r.flows[k], r.states[k + 1], r.flows[k + 1])
  {
    hide Loop.Next, Progress;
    if k > 0 { RunsFromTheFirst(r, k); }
    assert r.Follows(k);
    LoopStep(r.l, r.states[k], r.flows[k], r.clocks[k]);
    assert Toward(r.flows[k], r.flows[k + 1], r.l.Goal()) by {
      ProgressIsToward(r.l, r.states[k], r.flows[k], r.states[k + 1], r.flows[k + 1]);
    }
  }

  lemma ProgressIsToward(l: Loop, s: ControllerState, p: int, s1: ControllerState, p1: int)
    requires Progress(l, s, p, s1, p1)
    ensures Toward(p, p1, l.Goal())
  {
  }

  /** After the first decision each one outside the deadband takes at least a watt
      off the error, but for one that may go to the ramp. */
  lemma {:induction false} ErrorShrinks(r: LoopRun, k: nat)
    requires r.Valid() && 0 < k < |r.states|
    ensures r.Error(k) < r.l.Band() || r.Error(k) + k <= r.Error(1) + 1 + r.RampStep()
    ensures k > 1 && r.states[k].rampPending ==> r.Error(k) < r.l.Band()
  {
    hide Loop.Next;
    if k > 1 {
      ErrorShrinks(r, k - 1);
      NeverCrosses(r, k - 1);
    }
  }

  /** From every entry, crossing or not: after as many decisions as there were watts
      to go after the first, and two or three, the battery is inside the deadband of
      the goal and holds still for good. */
  lemma {:induction false} Converges(r: LoopRun, k: nat)
    requires r.Valid() && |r.states| > 1 && r.Error(1) + 1 + r.RampStep() < k < |r.states|
    ensures r.Error(1) <= r.l.Cap()
    ensures r.Error(k) < r.l.Band() && r.flows[k] == r.flows[r.Error(1) + 2 + r.RampStep()]
  {
    hide Loop.Next;
    RunsFromTheFirst(r, 1);
    if k == r.Error(1) + 2 + r.RampStep() {
      ErrorShrinks(r, k);
    } else {
      Converges(r, k - 1);
      NeverCrosses(r, k - 1);
    }
  }
}
