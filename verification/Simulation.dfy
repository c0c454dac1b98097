/** The simulated battery: stored energy that follows the ramped flow, is clamped
    between empty and full, and reports the flow the clamp allowed. */
module Simulation {
  import opened Units
  import opened Worlds
  import opened Allocation
  import opened Ramps

  /** The rated caps, the capacity in watt-hours, and the two efficiencies, which
      the source keeps between 1 and 100 %. */
  datatype Spec = Spec(maxCharge: U32, maxDischarge: U32, packs: seq<real>, chargeEff: real, dischargeEff: real)
  {
    ghost predicate Valid()
    {
      && 0.01 <= chargeEff <= 1.0 && 0.01 <= dischargeEff <= 1.0
      && forall i | 0 <= i < |packs| :: packs[i] >= 0.0
    }

    function Capacity(): real { SumOf(packs) }
  }

  function SumOf(packs: seq<real>): real
  {
    if packs == [] then 0.0 else SumOf(packs[..|packs| - 1]) + packs[|packs| - 1]
  }

  lemma {:induction false} SumIsNonNegative(packs: seq<real>)
    requires forall i | 0 <= i < |packs| :: packs[i] >= 0.0
    ensures SumOf(packs) >= 0.0
  {
    if packs != [] { SumIsNonNegative(packs[..|packs| - 1]); }
  }

  /** Rounded half away from zero, saturating. */
  function Rounded(x: real): Watts
  {
    SatI32(if x < 0.0 then -((0.5 - x).Floor) else (x + 0.5).Floor)
  }

  datatype Model = Model(stored: real, power: Watts, ramp: Ramp, last: real, standby: bool)

  function Fresh(spec: Spec, soc: Soc, start: real): Model
  {
    Model(spec.Capacity() * (soc as real / 100.0), 0, Ramp(0.0, start, 0.0), start, false)
  }

  /** The store after a span: charging adds less than was taken in, discharging
      removes more than was given out. */
  function Settle(spec: Spec, before: real, m: MovedEnergy): real
    requires spec.dischargeEff != 0.0
  {
    before + m.charged * spec.chargeEff - m.discharged / spec.dischargeEff
  }

  /** Energy at the meter for energy `landed` in the store, discharge positive. */
  function MeterSide(spec: Spec, landed: real): real
    requires spec.chargeEff != 0.0
  {
    if landed > 0.0 then -landed / spec.chargeEff else -landed * spec.dischargeEff
  }

  function AchievedFlow(spec: Spec, landed: real, dt: real): Watts
    requires spec.chargeEff != 0.0 && dt > 0.0
  {
    Rounded(MeterSide(spec, landed) / (dt / 3600.0))
  }

  function Advanced(spec: Spec, m: Model, now: real): Model
    requires spec.Valid()
  {
    SumIsNonNegative(spec.packs);
    if now <= m.last then m
    else
      var after := Settle(spec, m.stored, m.ramp.Moved(m.last, now));
      var clamped := RClamp(after, 0.0, spec.Capacity());
      m.(power := if clamped == after then Rounded(m.ramp.At(now))
                  else AchievedFlow(spec, clamped - m.stored, now - m.last),
         stored := clamped,
         last := now)
  }

  function CommandedFlow(spec: Spec, c: Command): real
  {
    match c
    case SetCharge(watts) => -(ClampedSetpoint(watts, spec.maxCharge) as real)
    case SetDischarge(watts) => ClampedSetpoint(watts, spec.maxDischarge) as real
    case SetIdle => 0.0
    case SetStandby => 0.0
  }

  function Commanded(spec: Spec, m: Model, now: real, c: Command): Model
    requires spec.Valid()
  {
    var m1 := Advanced(spec, m, now);
    m1.(standby := c.SetStandby?, ramp := Ramp(m1.ramp.At(now), now, CommandedFlow(spec, c)))
  }

  function SocOf(stored: real, capacity: real): Soc
  {
    if capacity == 0.0 then 0 else Min(Max((stored / capacity * 100.0 + 0.5).Floor, 0), 100)
  }

  function Reading(spec: Spec, m: Model): BatteryState
  {
    var soc := SocOf(m.stored, spec.Capacity());
    BatteryState(soc, spec.maxDischarge, spec.maxCharge, m.power, false, soc >= 100, false)
  }

  class VirtualBattery {
    const spec: Spec
    var stored: real
    var power: Watts
    var ramp: Ramp
    var last: real
    var standby: bool

    function View(): Model
      reads this
    {
      Model(stored, power, ramp, last, standby)
    }

    constructor (spec: Spec, soc: Soc, start: real)
      ensures this.spec == spec && View() == Fresh(spec, soc, start)
    {
      this.spec := spec;
      stored := spec.Capacity() * (soc as real / 100.0);
      power, ramp, last, standby := 0, Ramp(0.0, start, 0.0), start, false;
    }

    /** Brings every field up to `now`; an earlier instant changes nothing. */
    method AdvanceTo(now: real)
      requires spec.Valid()
      modifies this
      ensures View() == Advanced(spec, old(View()), now)
    {
      if now <= last {
        return;
      }
      var capacity := spec.Capacity();
      SumIsNonNegative(spec.packs);
      var before := stored;
      var moved := ramp.Integrate(last, now);
      var after := Settle(spec, before, moved);
      var clamped := RClamp(after, 0.0, capacity);
      if 0.0 <= after <= capacity {
        power := Rounded(ramp.At(now));
      } else {
        power := AchievedFlow(spec, clamped - before, now - last);
      }
      stored := clamped;
      last := now;
    }

    method ApplyAt(now: real, c: Command)
      requires spec.Valid()
      modifies this
      ensures View() == Commanded(spec, old(View()), now, c)
    {
      AdvanceTo(now);
      standby := c.SetStandby?;
      ramp := Ramp(ramp.At(now), now, CommandedFlow(spec, c));
    }

    method ReadingAt(now: real) returns (b: BatteryState)
      requires spec.Valid()
      modifies this
      ensures View() == Advanced(spec, old(View()), now) && b == Reading(spec, View())
    {
      AdvanceTo(now);
      var soc := SocOf(stored, spec.Capacity());
      b := BatteryState(soc, spec.maxDischarge, spec.maxCharge, power, false, soc >= 100, false);
    }

    method FlowAt(now: real) returns (flow: Watts)
      requires spec.Valid()
      modifies this
      ensures View() == Advanced(spec, old(View()), now) && flow == power
    {
      AdvanceTo(now);
      flow := power;
    }
  }

  // --- Whole runs of commands and reads ---

  datatype Op = Command(at: real, command: Command) | Read(at: real)

  function StepOp(spec: Spec, m: Model, op: Op): Model
    requires spec.Valid()
  {
    match op
    case Command(at, c) => Commanded(spec, m, at, c)
    case Read(at) => Advanced(spec, m, at)
  }

  function After(spec: Spec, m: Model, ops: seq<Op>): Model
    requires spec.Valid()
  {
    if ops == [] then m else StepOp(spec, After(spec, m, ops[..|ops| - 1]), ops[|ops| - 1])
  }

  /** Operations at instants that do not run backwards. */
  ghost predicate InOrder(start: real, ops: seq<Op>)
  {
    && (forall i | 0 <= i < |ops| :: start <= ops[i].at)
    && (forall i, j | 0 <= i < j < |ops| :: ops[i].at <= ops[j].at)
  }

  predicate WithinCaps(spec: Spec, flow: real)
  {
    -(Bound(spec.maxCharge) as real) <= flow <= Bound(spec.maxDischarge) as real
  }

  predicate Rated(spec: Spec, power: int)
  {
    0 - Bound(spec.maxCharge) <= power <= Bound(spec.maxDischarge)
  }

  ghost predicate Inv(spec: Spec, m: Model)
  {
    && 0.0 <= m.stored <= spec.Capacity()
    && Rated(spec, m.power)
    && m.ramp.started <= m.last
    && WithinCaps(spec, m.ramp.origin) && WithinCaps(spec, m.ramp.target)
  }

  lemma FreshIsSound(spec: Spec, soc: Soc, start: real)
    requires spec.Valid()
    ensures Inv(spec, Fresh(spec, soc, start))
  {
    SumIsNonNegative(spec.packs);
    ShareOf(spec.Capacity(), soc as real / 100.0);
  }

  lemma ShareOf(capacity: real, share: real)
    requires 0.0 <= capacity && 0.0 <= share <= 1.0
    ensures 0.0 <= capacity * share <= capacity
  {
    assert capacity * (1.0 - share) >= 0.0;
  }

  lemma FlowStaysWithinCaps(spec: Spec, r: Ramp, t: real)
    requires WithinCaps(spec, r.origin) && WithinCaps(spec, r.target)
    ensures WithinCaps(spec, r.At(t))
  {
    var travelled := SLEW_RATE * RMax(t - r.started, 0.0);
    assert travelled >= 0.0;
  }

  lemma AdvanceKeepsInv(spec: Spec, m: Model, now: real)
    requires spec.Valid() && Inv(spec, m)
    ensures Inv(spec, Advanced(spec, m, now))
    ensures Advanced(spec, m, now).ramp == m.ramp && Advanced(spec, m, now).last == RMax(m.last, now)
  {
    SumIsNonNegative(spec.packs);
    if m.last < now { ReportIsRated(spec, m, now); }
    hide Settle, AchievedFlow, Rounded, Ramp.Moved;
  }

  // --- The flow reported stays within the caps too ---

  lemma RoundsWithin(spec: Spec, flow: real)
    requires WithinCaps(spec, flow)
    ensures Rated(spec, Rounded(flow))
  {
  }

  lemma QuotientWithin(x: real, most: real, eff: real)
    requires eff > 0.0 && x <= most * eff
    ensures x / eff <= most
  {
    var q := x / eff;
    assert q * eff == x;
    if q > most {
      NegativeProduct(most - q, eff);
      assert false;
    }
  }

  lemma QuotientAbove(x: real, least: real, eff: real)
    requires eff > 0.0 && least * eff <= x
    ensures least <= x / eff
  {
    var q := x / eff;
    assert q * eff == x;
    if q < least {
      NegativeProduct(q - least, eff);
      assert false;
    }
  }

  lemma CarriesMore(low: real, high: real, width: real)
    requires 0.0 <= width && low <= high
    ensures Carried(low, width) <= Carried(high, width) && Carried(0.0, width) == 0.0
  {
    assert (high - low) * width >= 0.0;
  }

  lemma Shrinks(x: real, eff: real)
    requires x >= 0.0 && 0.0 < eff <= 1.0
    ensures x * eff >= 0.0 && x / eff >= 0.0
  {
    Undoes(x, eff);
  }

  /** Clamping the store moves it no further than the energy meant to, so what is
      accounted at the meter is no more than what the flow moved. */
  lemma ClampAccountsForLess(spec: Spec, stored: real, moved: MovedEnergy, capacity: real)
    requires spec.Valid() && 0.0 <= stored <= capacity && moved.charged >= 0.0 && moved.discharged >= 0.0
    ensures
      var landed := RClamp(Settle(spec, stored, moved), 0.0, capacity) - stored;
      -moved.charged <= MeterSide(spec, landed) <= moved.discharged
  {
    var landed := RClamp(Settle(spec, stored, moved), 0.0, capacity) - stored;
    var into, out := moved.charged * spec.chargeEff, moved.discharged / spec.dischargeEff;
    Shrinks(moved.charged, spec.chargeEff);
    Shrinks(moved.discharged, spec.dischargeEff);
    assert Settle(spec, stored, moved) == stored + into - out;
    assert 0.0 - out <= landed <= into;
    LandedAtMeter(spec, landed, moved.charged, moved.discharged);
  }

  lemma LandedAtMeter(spec: Spec, landed: real, charged: real, discharged: real)
    requires spec.Valid() && charged >= 0.0 && discharged >= 0.0
    requires 0.0 - discharged / spec.dischargeEff <= landed <= charged * spec.chargeEff
    ensures -charged <= MeterSide(spec, landed) <= discharged
  {
    if landed > 0.0 {
      Undoes(landed, spec.chargeEff);
      QuotientWithin(landed, charged, spec.chargeEff);
    } else {
      var given, out := 0.0 - landed, discharged / spec.dischargeEff;
      Undoes(given, spec.dischargeEff);
      assert out * spec.dischargeEff == discharged;
      Scaled(spec.dischargeEff, given, out);
    }
  }

  /** What the ramp moves in a span is at most what the caps would. */
  lemma MovedIsRated(spec: Spec, r: Ramp, a: real, c: real)
    requires WithinCaps(spec, r.origin) && WithinCaps(spec, r.target) && r.started <= a <= c
    ensures
      var moved := r.Moved(a, c);
      && 0.0 <= moved.charged <= Carried(Bound(spec.maxCharge) as real, c - a)
      && 0.0 <= moved.discharged <= Carried(Bound(spec.maxDischarge) as real, c - a)
  {
    DirectionIsRated(spec, r, a, c, false);
    DirectionIsRated(spec, r, a, c, true);
  }

  lemma DirectionIsRated(spec: Spec, r: Ramp, a: real, c: real, up: bool)
    requires WithinCaps(spec, r.origin) && WithinCaps(spec, r.target) && r.started <= a <= c
    ensures 0.0 <= Energy(up, r.Moved(a, c))
                <= Carried(Bound(if up then spec.maxDischarge else spec.maxCharge) as real, c - a)
  {
    FlowStaysWithinCaps(spec, r, a);
    FlowStaysWithinCaps(spec, r, c);
    MovedWithinItsFlow(r, a, c, up);
    hide Ramp.At, Ramp.Moved, Carried;
    var cap := Bound(if up then spec.maxDischarge else spec.maxCharge) as real;
    var low, high, width := Low(r, up, a, c), High(r, up, a, c), c - a;
    assert 0.0 <= low && high <= cap;
    CarriesMore(0.0, low, width);
    CarriesMore(high, cap, width);
  }

  /** The power a reading reports is within the rated caps, clamped span or not. */
  lemma ReportIsRated(spec: Spec, m: Model, now: real)
    requires spec.Valid() && Inv(spec, m) && m.last < now
    ensures Rated(spec, Advanced(spec, m, now).power)
  {
    SumIsNonNegative(spec.packs);
    var moved, dt := m.ramp.Moved(m.last, now), now - m.last;
    FlowStaysWithinCaps(spec, m.ramp, now);
    RoundsWithin(spec, m.ramp.At(now));
    MovedIsRated(spec, m.ramp, m.last, now);
    ClampAccountsForLess(spec, m.stored, moved, spec.Capacity());
    var side := MeterSide(spec, RClamp(Settle(spec, m.stored, moved), 0.0, spec.Capacity()) - m.stored);
    SpreadWithin(spec, side, dt);
    RoundsWithin(spec, side / (dt / 3600.0));
    hide Settle, MeterSide, Rounded, Ramp.Moved, Ramp.At, RClamp, Carried;
  }

  lemma SpreadWithin(spec: Spec, side: real, dt: real)
    requires dt > 0.0
    requires -Carried(Bound(spec.maxCharge) as real, dt) <= side <= Carried(Bound(spec.maxDischarge) as real, dt)
    ensures WithinCaps(spec, side / (dt / 3600.0))
  {
    var hours, charge, discharge := dt / 3600.0, Bound(spec.maxCharge) as real, Bound(spec.maxDischarge) as real;
    assert Carried(charge, dt) == charge * hours && Carried(discharge, dt) == discharge * hours;
    QuotientWithin(side, discharge, hours);
    QuotientAbove(side, -charge, hours);
  }

  /** After any run: the store is between empty and full, and the flow, its target
      and the power reported are within the rated caps. */
  lemma {:induction false} RunKeepsInv(spec: Spec, m: Model, ops: seq<Op>)
    requires spec.Valid() && Inv(spec, m) && InOrder(m.last, ops)
    ensures Inv(spec, After(spec, m, ops))
    ensures After(spec, m, ops).last == if ops == [] then m.last else ops[|ops| - 1].at
  {
    if ops != [] {
      var n := |ops| - 1;
      var before := After(spec, m, ops[..n]);
      RunKeepsInv(spec, m, ops[..n]);
      AdvanceKeepsInv(spec, before, ops[n].at);
      FlowStaysWithinCaps(spec, before.ramp, ops[n].at);
    }
  }

  /** The flow at any instant of a run: what the ramp then in force says. */
  function FlowOver(spec: Spec, m: Model, ops: seq<Op>, t: real): real
    requires spec.Valid()
  {
    if ops == [] then m.ramp.At(t)
    else
      var last := ops[|ops| - 1];
      if last.Command? && last.at <= t then After(spec, m, ops).ramp.At(t)
      else FlowOver(spec, m, ops[..|ops| - 1], t)
  }

  /** Past every operation, the ramp in force is the last one set. */
  lemma {:induction false} RampInForce(spec: Spec, m: Model, ops: seq<Op>, t: real)
    requires spec.Valid() && forall i | 0 <= i < |ops| :: ops[i].at <= t
    ensures FlowOver(spec, m, ops, t) == After(spec, m, ops).ramp.At(t)
  {
    if ops != [] {
      RampInForce(spec, m, ops[..|ops| - 1], t);
    }
  }

  predicate Slewed(x: real, y: real, dt: real) { RAbs(y - x) <= 800.0 * dt }

  lemma RampIsSlewed(r: Ramp, a: real, b: real)
    requires a <= b
    ensures Slewed(r.At(a), r.At(b), b - a)
  {
    var ta, tb := SLEW_RATE * RMax(a - r.started, 0.0), SLEW_RATE * RMax(b - r.started, 0.0);
    assert 0.0 <= ta <= tb <= ta + SLEW_RATE * (b - a);
  }

  lemma SlewsChain(x: real, y: real, z: real, first: real, second: real)
    requires Slewed(x, y, first) && Slewed(y, z, second)
    ensures Slewed(x, z, first + second)
  {
  }

  /** Over any run of commands and reads, the flow moves at most 800 W a second
      between any two instants, across commands as well, and so is continuous. */
  lemma {:induction false} FlowIsSlewed(spec: Spec, m: Model, ops: seq<Op>, a: real, b: real)
    requires spec.Valid() && InOrder(m.last, ops) && a <= b
    ensures Slewed(FlowOver(spec, m, ops, a), FlowOver(spec, m, ops, b), b - a)
  {
    hide Commanded, Slewed;
    if ops == [] {
      RampIsSlewed(m.ramp, a, b);
    } else {
      var n := |ops| - 1;
      var last := ops[n];
      if last.Read? || b < last.at {
        FlowIsSlewed(spec, m, ops[..n], a, b);
      } else if last.at <= a {
        RampIsSlewed(After(spec, m, ops).ramp, a, b);
      } else {
        var before := After(spec, m, ops[..n]);
        var r := Commanded(spec, before, last.at, last.command).ramp;
        FlowIsSlewed(spec, m, ops[..n], a, last.at);
        RampInForce(spec, m, ops[..n], last.at);
        CommandIsContinuous(spec, before, last.at, last.command);
        RampIsSlewed(r, last.at, b);
        SlewsChain(FlowOver(spec, m, ops[..n], a), r.At(last.at), r.At(b), last.at - a, b - last.at);
      }
    }
  }

  /** A command bends the flow, it does not break it. */
  lemma CommandIsContinuous(spec: Spec, m: Model, now: real, c: Command)
    requires spec.Valid()
    ensures Commanded(spec, m, now, c).ramp.At(now) == m.ramp.At(now)
  {
  }

  lemma {:induction false} FlowOverWithinCaps(spec: Spec, m: Model, ops: seq<Op>, t: real)
    requires spec.Valid() && Inv(spec, m) && InOrder(m.last, ops)
    ensures WithinCaps(spec, FlowOver(spec, m, ops, t))
  {
    if ops == [] {
      FlowStaysWithinCaps(spec, m.ramp, t);
    } else {
      RunKeepsInv(spec, m, ops);
      FlowStaysWithinCaps(spec, After(spec, m, ops).ramp, t);
      FlowOverWithinCaps(spec, m, ops[..|ops| - 1], t);
    }
  }

  /** So a newly built battery, whatever it is seeded, commanded and asked, keeps its
      store in range and its flow and its report within the caps. */
  lemma NewBatteryStaysSound(spec: Spec, soc: Soc, start: real, ops: seq<Op>, t: real)
    requires spec.Valid() && InOrder(start, ops)
    ensures
      var m := After(spec, Fresh(spec, soc, start), ops);
      0.0 <= m.stored <= spec.Capacity() && Rated(spec, m.power)
    ensures WithinCaps(spec, FlowOver(spec, Fresh(spec, soc, start), ops, t))
  {
    FreshIsSound(spec, soc, start);
    RunKeepsInv(spec, Fresh(spec, soc, start), ops);
    FlowOverWithinCaps(spec, Fresh(spec, soc, start), ops, t);
  }

  /** What a command asks for, once the flow has had time to get there. */
  lemma FlowReachesCommand(spec: Spec, m: Model, now: real, c: Command, t: real)
    requires spec.Valid() && SLEW_RATE * (t - now) >= RAbs(CommandedFlow(spec, c) - m.ramp.At(now)) && now <= t
    ensures
      Commanded(spec, m, now, c).ramp.At(t) ==
      match c
      case SetCharge(watts) => -(Min(watts, Bound(spec.maxCharge)) as real)
      case SetDischarge(watts) => Min(watts, Bound(spec.maxDischarge)) as real
      case _ => 0.0
  {
    hide Advanced, Ramp.Moved;
    var r := Commanded(spec, m, now, c).ramp;
    assert r == Ramp(m.ramp.At(now), now, CommandedFlow(spec, c)) by { AdvanceKeepsRamp(spec, m, now); }
    assert r.At(t) == r.target;
  }

  lemma AdvanceKeepsRamp(spec: Spec, m: Model, now: real)
    requires spec.Valid()
    ensures Advanced(spec, m, now).ramp == m.ramp
  {
  }

  /** The watts a command comes to: cut to the cap, charging negative. */
  function Obeyed(spec: Spec, c: Command): Watts
  {
    match c
    case SetCharge(watts) => 0 - Min(watts, Bound(spec.maxCharge))
    case SetDischarge(watts) => Min(watts, Bound(spec.maxDischarge))
    case _ => 0
  }

  /** A flow is reported to the nearest watt, halves away from zero, and the end of the
      range where it is beyond it. */
  lemma FlowRoundsToNearest(x: real)
    ensures 0.0 <= x <= I32_MAX as real ==> Rounded(x) as real - 0.5 <= x < Rounded(x) as real + 0.5
    ensures I32_MIN as real <= x <= 0.0 ==> Rounded(x) as real - 0.5 < x <= Rounded(x) as real + 0.5
    ensures x >= I32_MAX as real ==> Rounded(x) == I32_MAX
    ensures x <= I32_MIN as real ==> Rounded(x) == I32_MIN
  {
  }

  lemma RoundsWholeWatts(power: Watts)
    ensures Rounded(power as real) == power
  {
  }

  /** Given time to get there, and room in the store, the battery reports exactly
      what it was told: what the closed loop takes for granted. */
  lemma ReportsItsCommand(spec: Spec, m: Model, now: real, c: Command, t: real)
    requires spec.Valid() && m.last <= now < t && Fits(spec, Commanded(spec, m, now, c), t)
    requires 800.0 * (t - now) >= RAbs(Obeyed(spec, c) as real - m.ramp.At(now))
    ensures Reading(spec, Advanced(spec, Commanded(spec, m, now, c), t)).currentPower == Obeyed(spec, c)
  {
    var m1 := Commanded(spec, m, now, c);
    SumIsNonNegative(spec.packs);
    FlowReachesCommand(spec, m, now, c, t);
    RoundsWholeWatts(Obeyed(spec, c));
    LastIsNow(spec, m, now);
    hide Settle, Rounded, Ramp.Moved, Ramp.At, SocOf;
  }

  // --- What a reading says ---

  /** A reading passes on the rated caps and the power in force, is full exactly at 100 %,
      and never claims a fault or a calibration. */
  lemma ReadingPassesOn(spec: Spec, m: Model)
    ensures
      var b := Reading(spec, m);
      && b.maxCharge == spec.maxCharge && b.maxDischarge == spec.maxDischarge && b.currentPower == m.power
      && (b.limitReached <==> b.soc == 100) && !b.fault && !b.calibrating
  {
  }

  /** So a setpoint kept within the caps the battery reports is taken whole. */
  lemma SetpointWithinReportIsTakenWhole(spec: Spec, m: Model, c: Command)
    requires spec.Valid()
    requires c.SetCharge? ==> c.watts <= Bound(Reading(spec, m).maxCharge)
    requires c.SetDischarge? ==> c.watts <= Bound(Reading(spec, m).maxDischarge)
    ensures Obeyed(spec, c) == match c
                               case SetCharge(watts) => 0 - watts
                               case SetDischarge(watts) => watts
                               case _ => 0
    ensures Commanded(spec, m, m.last, c).standby <==> c.SetStandby?
  {
    ReadingPassesOn(spec, m);
    hide Advanced, SocOf, CommandedFlow;
  }

  /** The state of charge is the stored share of the capacity to the nearest percent. */
  lemma SocIsNearest(stored: real, capacity: real)
    requires capacity > 0.0 && 0.0 <= stored <= capacity
    ensures
      var error := 100.0 * stored - SocOf(stored, capacity) as real * capacity;
      -0.5 * capacity <= error < 0.5 * capacity
  {
    hide SocOf;
    var share, soc := stored / capacity * 100.0, SocOf(stored, capacity) as real;
    RoundsShare(stored, capacity);
    ShareBack(stored, capacity);
    NearestPercent(stored, capacity, share, soc);
  }

  lemma NearestPercent(stored: real, capacity: real, share: real, soc: real)
    requires capacity > 0.0 && share * capacity == 100.0 * stored && -0.5 <= share - soc < 0.5
    ensures -0.5 * capacity <= 100.0 * stored - soc * capacity < 0.5 * capacity
  {
    var e := share - soc;
    ErrorScales(e, capacity);
    var off, shown := e * capacity, soc * capacity;
    assert off == share * capacity - shown;
    assert off < 0.5 * capacity;
    assert 100.0 * stored == off + shown;
  }

  lemma RoundsShare(stored: real, capacity: real)
    requires capacity > 0.0 && 0.0 <= stored <= capacity
    ensures SocOf(stored, capacity) == (stored / capacity * 100.0 + 0.5).Floor
  {
    ShareRange(stored, capacity);
  }

  lemma ShareBack(stored: real, capacity: real)
    requires capacity > 0.0
    ensures stored / capacity * 100.0 * capacity == 100.0 * stored
  {
    var q := stored / capacity;
    assert q * capacity == stored;
    assert q * 100.0 * capacity == 100.0 * (q * capacity);
  }

  lemma ShareRange(stored: real, capacity: real)
    requires capacity > 0.0 && 0.0 <= stored <= capacity
    ensures 0.0 <= stored / capacity * 100.0 <= 100.0
  {
    QuotientWithin(stored, 1.0, capacity);
    QuotientAbove(stored, 0.0, capacity);
  }

  lemma ErrorScales(e: real, capacity: real)
    requires capacity > 0.0 && -0.5 <= e < 0.5
    ensures -0.5 * capacity <= e * capacity < 0.5 * capacity
  {
    assert (e + 0.5) * capacity >= 0.0;
    assert (0.5 - e) * capacity > 0.0;
  }

  /** What a span leaves: the store settled by what the ramp moved, and the flow then in
      force; or, where that is out of range, the store at the end it passed, and the
      constant flow that would have got it exactly there, to the watt. */
  lemma SpanSettles(spec: Spec, m: Model, now: real) returns (flow: real)
    requires spec.Valid() && m.last < now
    ensures
      var after, m1 := Settle(spec, m.stored, m.ramp.Moved(m.last, now)), Advanced(spec, m, now);
      && m1.last == now && m1.ramp == m.ramp && m1.power == Rounded(flow)
      && (0.0 <= after <= spec.Capacity() ==> m1.stored == after && flow == m.ramp.At(now))
      && (after < 0.0 ==> m1.stored == 0.0)
      && (after > spec.Capacity() ==> m1.stored == spec.Capacity())
      && (after < 0.0 || after > spec.Capacity() ==>
            Settle(spec, m.stored, Constant(flow, (now - m.last) / 3600.0)) == m1.stored)
  {
    SumIsNonNegative(spec.packs);
    var m1 := Advanced(spec, m, now);
    var after := Settle(spec, m.stored, m.ramp.Moved(m.last, now));
    if 0.0 <= after <= spec.Capacity() {
      flow := m.ramp.At(now);
    } else {
      flow := AchievedFlowIsHonest(spec, m.stored, m1.stored - m.stored, now - m.last);
    }
    hide Settle, Ramp.Moved, Ramp.At, AchievedFlow, Rounded, Constant;
  }

  /** A battery seeded at a state of charge reports that one. */
  lemma SeedReadsBack(spec: Spec, soc: Soc, start: real)
    requires spec.Valid() && spec.Capacity() > 0.0
    ensures Reading(spec, Fresh(spec, soc, start)).soc == soc
  {
    ShareReadsBack(Fresh(spec, soc, start).stored, spec.Capacity(), soc);
  }

  lemma ShareReadsBack(stored: real, capacity: real, soc: Soc)
    requires capacity > 0.0 && stored == capacity * (soc as real / 100.0)
    ensures SocOf(stored, capacity) == soc
  {
    var share := soc as real / 100.0;
    assert capacity * share / capacity == share;
    RatioReads(stored, capacity, soc);
  }

  lemma RatioReads(stored: real, capacity: real, soc: Soc)
    requires capacity > 0.0 && stored / capacity == soc as real / 100.0
    ensures SocOf(stored, capacity) == soc
  {
    assert stored / capacity * 100.0 == soc as real;
    assert (soc as real + 0.5).Floor == soc;
  }

  /** The energy of one constant flow over a span, by direction. */
  function Constant(flow: real, hours: real): MovedEnergy
  {
    if flow < 0.0 then MovedEnergy(-flow * hours, 0.0) else MovedEnergy(0.0, flow * hours)
  }

  /** The flow reported for a clamped span is, to the nearest watt, the constant
      flow that would have settled exactly what landed. */
  lemma AchievedFlowIsHonest(spec: Spec, before: real, landed: real, dt: real) returns (flow: real)
    requires spec.Valid() && dt > 0.0
    ensures AchievedFlow(spec, landed, dt) == Rounded(flow)
    ensures Settle(spec, before, Constant(flow, dt / 3600.0)) == before + landed
  {
    hide Rounded, Settle, Constant, MeterSide;
    var side, hours := MeterSide(spec, landed), dt / 3600.0;
    flow := side / hours;
    MeterSideUndoes(spec, landed);
    if landed > 0.0 {
      ChargeSpreads(-side, hours);
      Settles(spec, before, -side, 0.0);
    } else {
      DischargeSpreads(side, hours);
      Settles(spec, before, 0.0, side);
    }
  }

  lemma MeterSideUndoes(spec: Spec, landed: real)
    requires spec.Valid()
    ensures
      var side := MeterSide(spec, landed);
      if landed > 0.0 then side < 0.0 && -side * spec.chargeEff == landed
      else side >= 0.0 && side / spec.dischargeEff == -landed
  {
    if landed > 0.0 { Undoes(landed, spec.chargeEff); } else { Undoes(-landed, spec.dischargeEff); }
  }

  lemma Settles(spec: Spec, before: real, charged: real, discharged: real)
    requires spec.Valid()
    ensures discharged == 0.0 ==>
              Settle(spec, before, MovedEnergy(charged, discharged)) == before + charged * spec.chargeEff
    ensures charged == 0.0 ==>
              Settle(spec, before, MovedEnergy(charged, discharged)) == before - discharged / spec.dischargeEff
  {
  }

  lemma ChargeSpreads(energy: real, hours: real)
    requires energy > 0.0 && hours > 0.0
    ensures Constant((-energy) / hours, hours) == MovedEnergy(energy, 0.0)
  {
    SpreadsEvenly(energy, -1.0, hours);
  }

  lemma DischargeSpreads(energy: real, hours: real)
    requires energy >= 0.0 && hours > 0.0
    ensures Constant(energy / hours, hours) == MovedEnergy(0.0, energy)
  {
    SpreadsEvenly(energy, 1.0, hours);
  }

  lemma NegativeProduct(q: real, h: real)
    requires q < 0.0 < h
    ensures q * h < 0.0
  {
  }

  /** A flow keeps the direction of the energy it spreads over the hours. */
  lemma SpreadsEvenly(energy: real, sign: real, hours: real)
    requires energy >= 0.0 && hours > 0.0 && (sign == 1.0 || sign == -1.0)
    ensures
      var flow := energy * sign / hours;
      && flow * hours == energy * sign
      && (if sign == 1.0 then flow >= 0.0 else flow <= 0.0)
      && (energy > 0.0 ==> flow != 0.0)
  {
    var flow := energy / hours;
    assert flow * hours == energy;
    if flow < 0.0 {
      NegativeProduct(flow, hours);
      assert false;
    }
    assert energy * sign / hours == flow * sign;
  }

  lemma Undoes(x: real, eff: real)
    requires x >= 0.0 && eff > 0.0
    ensures x / eff * eff == x && x * eff / eff == x
    ensures -x / eff == -(x / eff) && -x * eff == -(x * eff)
    ensures x / eff >= 0.0 && x * eff >= 0.0 && (x > 0.0 ==> x / eff > 0.0)
  {
    var q := x / eff;
    if q < 0.0 {
      NegativeProduct(q, eff);
      assert false;
    }
  }

  // --- Energy ---

  /** What the flow moved over the run, span by span. */
  function Ledger(spec: Spec, m: Model, ops: seq<Op>): MovedEnergy
    requires spec.Valid()
  {
    if ops == [] then NOTHING
    else
      var before := After(spec, m, ops[..|ops| - 1]);
      Ledger(spec, m, ops[..|ops| - 1]).Plus(before.ramp.Moved(before.last, ops[|ops| - 1].at))
  }

  /** The span ended by `op` leaves the store between empty and full by itself. */
  ghost predicate Fits(spec: Spec, m: Model, at: real)
    requires spec.Valid()
  {
    0.0 <= Settle(spec, m.stored, m.ramp.Moved(m.last, at)) <= spec.Capacity()
  }

  ghost predicate Unclamped(spec: Spec, m: Model, ops: seq<Op>)
    requires spec.Valid()
  {
    forall i | 0 <= i < |ops| :: Fits(spec, After(spec, m, ops[..i]), ops[i].at)
  }

  lemma UnclampedSoFar(spec: Spec, m: Model, ops: seq<Op>, n: nat)
    requires spec.Valid() && Unclamped(spec, m, ops) && n <= |ops|
    ensures Unclamped(spec, m, ops[..n])
    ensures n < |ops| ==> Fits(spec, After(spec, m, ops[..n]), ops[n].at)
  {
    hide Fits, After;
    forall i | 0 <= i < n ensures Fits(spec, After(spec, m, ops[..n][..i]), ops[..n][i].at) {
      assert ops[..n][..i] == ops[..i];
    }
  }

  lemma NothingMovesInNoTime(r: Ramp, t: real)
    ensures r.Moved(t, t) == NOTHING
  {
    AnyBends(r, r.Bends(), t);
  }

  lemma {:induction false} AnyBends(r: Ramp, bends: seq<real>, t: real)
    ensures r.MovedOver(bends, t, t) == NOTHING
  {
    if bends != [] { AnyBends(r, bends[1..], t); }
  }

  lemma AdvanceSettles(spec: Spec, m: Model, now: real)
    requires spec.Valid() && m.last <= now && Fits(spec, m, now)
    ensures Advanced(spec, m, now).stored == Settle(spec, m.stored, m.ramp.Moved(m.last, now))
    ensures Advanced(spec, m, now).last == now
  {
    SumIsNonNegative(spec.packs);
    NothingMovesInNoTime(m.ramp, now);
  }

  lemma {:induction false} StoreSettlesLedger(spec: Spec, m: Model, ops: seq<Op>)
    requires spec.Valid() && Inv(spec, m) && InOrder(m.last, ops) && Unclamped(spec, m, ops)
    ensures After(spec, m, ops).stored == Settle(spec, m.stored, Ledger(spec, m, ops))
  {
    hide Advanced, Settle, Fits, Unclamped;
    if ops != [] {
      var n := |ops| - 1;
      var before := After(spec, m, ops[..n]);
      UnclampedSoFar(spec, m, ops, n);
      StoreSettlesLedger(spec, m, ops[..n]);
      RunKeepsInv(spec, m, ops[..n]);
      AdvanceSettles(spec, before, ops[n].at);
      SettleTwice(spec, m.stored, Ledger(spec, m, ops[..n]), before.ramp.Moved(before.last, ops[n].at));
    } else {
      NothingSettles(spec, m.stored);
    }
  }

  /** Where no span clamps, the change in store is what was charged at the charge
      efficiency less what was discharged over the discharge efficiency. */
  lemma StoreFollowsLedger(spec: Spec, m: Model, ops: seq<Op>)
    requires spec.Valid() && Inv(spec, m) && InOrder(m.last, ops) && Unclamped(spec, m, ops)
    ensures
      var moved := Ledger(spec, m, ops);
      After(spec, m, ops).stored - m.stored == moved.charged * spec.chargeEff - moved.discharged / spec.dischargeEff
  {
    hide After, Ledger, Unclamped, Inv, InOrder, Settle;
    StoreSettlesLedger(spec, m, ops);
    SettleInFigures(spec, m.stored, Ledger(spec, m, ops));
  }

  lemma SettleInFigures(spec: Spec, stored: real, moved: MovedEnergy)
    requires spec.Valid()
    ensures Settle(spec, stored, moved) - stored == moved.charged * spec.chargeEff - moved.discharged / spec.dischargeEff
  {
  }

  lemma NothingSettles(spec: Spec, stored: real)
    requires spec.Valid()
    ensures Settle(spec, stored, NOTHING) == stored
  {
  }

  lemma SettleTwice(spec: Spec, stored: real, a: MovedEnergy, b: MovedEnergy)
    requires spec.Valid()
    ensures Settle(spec, Settle(spec, stored, a), b) == Settle(spec, stored, a.Plus(b))
  {
    assert (a.discharged + b.discharged) / spec.dischargeEff
           == a.discharged / spec.dischargeEff + b.discharged / spec.dischargeEff;
  }

  /** What a charge gives back after both conversions. */
  function Returned(spec: Spec, charged: real): real { spec.chargeEff * spec.dischargeEff * charged }

  /** A cycle that ends where it began gave back exactly the product of the two
      efficiencies of what it took. */
  lemma RoundTrip(spec: Spec, m: Model, ops: seq<Op>)
    requires spec.Valid() && Inv(spec, m) && InOrder(m.last, ops) && Unclamped(spec, m, ops)
    requires After(spec, m, ops).stored == m.stored
    ensures Ledger(spec, m, ops).discharged == Returned(spec, Ledger(spec, m, ops).charged)
  {
    StoreSettlesLedger(spec, m, ops);
    InEqualsOut(spec, m.stored, Ledger(spec, m, ops));
  }

  lemma InEqualsOut(spec: Spec, stored: real, m: MovedEnergy)
    requires spec.Valid() && Settle(spec, stored, m) == stored
    ensures m.discharged == Returned(spec, m.charged)
  {
    var e, f := spec.chargeEff, spec.dischargeEff;
    assert m.charged * e == m.discharged / f;
    assert m.discharged / f * f == m.discharged;
  }

  // --- Reading does not disturb ---

  function CommandsOnly(ops: seq<Op>): seq<Op>
  {
    if ops == [] then []
    else
      var last := ops[|ops| - 1];
      CommandsOnly(ops[..|ops| - 1]) + (if last.Command? then [last] else [])
  }

  /** `quiet` is the model last advanced by a command, `m` the same one read since. */
  ghost predicate OnlyReadSince(spec: Spec, quiet: Model, m: Model)
    requires spec.Valid()
  {
    && quiet.ramp == m.ramp && quiet.ramp.started <= quiet.last <= m.last
    && m.stored == Settle(spec, quiet.stored, m.ramp.Moved(quiet.last, m.last))
    && 0.0 <= m.stored <= spec.Capacity()
  }

  lemma AdvanceEither(spec: Spec, quiet: Model, m: Model, now: real)
    requires spec.Valid() && OnlyReadSince(spec, quiet, m) && m.last <= now && Fits(spec, m, now)
    ensures Settle(spec, quiet.stored, m.ramp.Moved(quiet.last, now)) == Settle(spec, m.stored, m.ramp.Moved(m.last, now))
    ensures Advanced(spec, quiet, now).stored == Advanced(spec, m, now).stored
    ensures OnlyReadSince(spec, quiet, Advanced(spec, m, now))
  {
    MovedIsAdditive(m.ramp, quiet.last, m.last, now);
    SettleTwice(spec, quiet.stored, m.ramp.Moved(quiet.last, m.last), m.ramp.Moved(m.last, now));
    AdvanceSettles(spec, m, now);
    AdvanceSettles(spec, quiet, now);
  }

  lemma NoneRead(spec: Spec, m: Model)
    requires spec.Valid() && Inv(spec, m)
    ensures OnlyReadSince(spec, m, m)
  {
    NothingMovesInNoTime(m.ramp, m.last);
  }

  lemma {:induction false} ReadsChangeNothing(spec: Spec, m: Model, ops: seq<Op>)
    requires spec.Valid() && Inv(spec, m) && InOrder(m.last, ops) && Unclamped(spec, m, ops)
    ensures OnlyReadSince(spec, After(spec, m, CommandsOnly(ops)), After(spec, m, ops))
  {
    hide Fits, Advanced, Commanded, Settle, OnlyReadSince, Unclamped;
    if ops == [] {
      NoneRead(spec, m);
    } else {
      var n := |ops| - 1;
      var commands := CommandsOnly(ops[..n]);
      UnclampedSoFar(spec, m, ops, n);
      ReadsChangeNothing(spec, m, ops[..n]);
      RunKeepsInv(spec, m, ops[..n]);
      var quiet, noisy := After(spec, m, commands), After(spec, m, ops[..n]);
      if ops[n].Command? {
        CommandBoth(spec, quiet, noisy, ops[n].at, ops[n].command);
        assert (commands + [ops[n]])[..|commands|] == commands;
      } else {
        AdvanceEither(spec, quiet, noisy, ops[n].at);
        assert commands + [] == commands;
      }
    }
  }

  lemma CommandBoth(spec: Spec, quiet: Model, m: Model, now: real, c: Command)
    requires spec.Valid() && OnlyReadSince(spec, quiet, m) && m.last <= now && Fits(spec, m, now)
    ensures OnlyReadSince(spec, Commanded(spec, quiet, now, c), Commanded(spec, m, now, c))
  {
    hide Advanced, Settle, Ramp.Moved;
    AdvanceEither(spec, quiet, m, now);
    var a, b := Commanded(spec, quiet, now, c), Commanded(spec, m, now, c);
    LastIsNow(spec, quiet, now);
    LastIsNow(spec, m, now);
    NothingMovesInNoTime(b.ramp, now);
    NothingSettles(spec, a.stored);
  }

  lemma LastIsNow(spec: Spec, m: Model, now: real)
    requires spec.Valid() && m.last <= now
    ensures Advanced(spec, m, now).last == now && Advanced(spec, m, now).ramp == m.ramp
  {
  }

  /** However often the model is read along the way, the store at any later
      instant is what the commands alone give, as long as no span clamps. */
  lemma StoreIgnoresReads(spec: Spec, m: Model, ops: seq<Op>, at: real)
    requires spec.Valid() && Inv(spec, m) && InOrder(m.last, ops + [Read(at)]) && Unclamped(spec, m, ops + [Read(at)])
    ensures After(spec, m, CommandsOnly(ops) + [Read(at)]).stored == After(spec, m, ops + [Read(at)]).stored
  {
    hide Advanced, Settle, Fits, OnlyReadSince, Unclamped;
    var all, quiet := ops + [Read(at)], CommandsOnly(ops) + [Read(at)];
    assert all[..|ops|] == ops && quiet[..|quiet| - 1] == CommandsOnly(ops);
    assert forall i | 0 <= i < |ops| :: ops[i] == all[i];
    UnclampedSoFar(spec, m, all, |ops|);
    ReadsChangeNothing(spec, m, ops);
    RunKeepsInv(spec, m, ops);
    assert all[|ops|] == Read(at);
    AdvanceEither(spec, After(spec, m, CommandsOnly(ops)), After(spec, m, ops), at);
  }
}
