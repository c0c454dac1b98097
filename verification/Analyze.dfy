/** Offline integration: a recorded stream folded into one row per local day.
    Watt-hours, prices and costs are reals; spans are whole milliseconds. */
module Analysis {
  import opened Units
  import opened Worlds
  import opened Engines
  import opened Calendar

  const MAX_SAMPLE_GAP := 30_000

  function LocalDay(clock: Clock): Option<int>
  {
    match LocalDate(DayOfMillis(clock.now), clock.dayOrdinal)
    case None => None
    case Some(date) => Some(DayNumber(date))
  }

  function ImportOf(grid: real): Setpoint { Max(Importing(grid), 0) }
  function ExportOf(grid: real): Setpoint { Max(Exporting(grid), 0) }

  /** One dated meter reading beside the latest battery report before it. */
  datatype Sample = Sample(at: Timestamp, day: int, grid: MeterReading, battery: Option<BatteryState>)
  {
    function Import(): Setpoint { ImportOf(grid.total) }
    function Export(): Setpoint { ExportOf(grid.total) }

    function ChargingNow(): Setpoint { if battery.None? then 0 else Charging(battery.value.currentPower) }
    function DischargingNow(): Setpoint { if battery.None? then 0 else Discharging(battery.value.currentPower) }

    /** The meter's figure corrected for the battery's own flow. */
    function Underlying(): Option<real>
    {
      if battery.None? then None else Some(grid.total + battery.value.currentPower as real)
    }

    /** Surplus that found no storage. Counted as none during a charge, and as long
        as no battery has reported. */
    function UnstoredExport(): Setpoint
    {
      if battery.None? || ChargingNow() > 0 then 0 else Export()
    }

    /** How far the corrected import exceeds the reported discharge cap. */
    function AboveCap(): Setpoint
    {
      match Underlying()
      case None => 0
      case Some(underlying) => Max(Sub(Importing(underlying), Bound(battery.value.maxDischarge)), 0)
    }
  }

  /** Import and export, of energy or of money. */
  datatype TwoWay = TwoWay(import_: real, export_: real)
  {
    function Plus(o: TwoWay): TwoWay { TwoWay(import_ + o.import_, export_ + o.export_) }
  }

  const NEITHER := TwoWay(0.0, 0.0)

  datatype Energy = Energy(
    covered: int,
    grid: TwoWay,
    unstored: real,
    charged: real,
    discharged: real,
    aboveCap: real,
    phaseA: TwoWay,
    phaseB: TwoWay,
    phaseC: TwoWay)
  {
    function Plus(o: Energy): Energy
    {
      Energy(covered + o.covered, grid.Plus(o.grid), unstored + o.unstored, charged + o.charged,
             discharged + o.discharged, aboveCap + o.aboveCap,
             phaseA.Plus(o.phaseA), phaseB.Plus(o.phaseB), phaseC.Plus(o.phaseC))
    }
  }

  const NO_ENERGY := Energy(0, NEITHER, 0.0, 0.0, 0.0, 0.0, NEITHER, NEITHER, NEITHER)

  datatype Costs = Costs(priced: int, unpriced: int, dynamic: TwoWay, fixed: TwoWay)
  {
    function Plus(o: Costs): Costs
    {
      Costs(priced + o.priced, unpriced + o.unpriced, dynamic.Plus(o.dynamic), fixed.Plus(o.fixed))
    }
  }

  const NO_COSTS := Costs(0, 0, NEITHER, NEITHER)

  datatype DynamicTariff = DynamicTariff(markup: real, energyTax: real, exportMarkup: real, vat: real)
  {
    function ImportPrice(wholesale: real): real { (wholesale + markup + energyTax) * (1.0 + vat / 100.0) }
    function ExportPrice(wholesale: real): real { wholesale - exportMarkup }
  }

  /** `wholesale` gives the market price at an instant, where one is known. */
  datatype Pricing =
    | Priced(wholesale: Timestamp -> Option<real>, dynamic: DynamicTariff, fixed: TwoWay)
    | Skipped

  datatype DayTotals = DayTotals(
    day: int,
    energy: Energy,
    costs: Option<Costs>,
    socMin: Option<Soc>,
    socMax: Option<Soc>)

  function NewDay(day: int, pricing: Pricing): DayTotals
  {
    DayTotals(day, NO_ENERGY, if pricing.Priced? then Some(NO_COSTS) else None, None, None)
  }

  function Entry(days: map<int, DayTotals>, day: int, pricing: Pricing): DayTotals
  {
    if day in days then days[day] else NewDay(day, pricing)
  }

  // --- One interval ---

  /** Milliseconds from one reading to the next, unless negative or over 30 s. */
  function SpanWithin(earlier: Timestamp, later: Timestamp): Option<nat>
  {
    var dt := Since(later, earlier);
    if 0 <= dt <= MAX_SAMPLE_GAP then Some(dt) else None
  }

  /** The trapezoid of two readings over milliseconds, in watt-hours. */
  function Integrated(previous: int, current: int, dt: nat): real
  {
    (previous as real + current as real) / 2.0 * (dt as real / 3_600_000.0)
  }

  function Cost(energy: real, price: real): real { energy / 1000.0 * price }

  function PhaseOver(was: real, now: real, dt: nat): TwoWay
  {
    TwoWay(Integrated(ImportOf(was), ImportOf(now), dt), Integrated(ExportOf(was), ExportOf(now), dt))
  }

  function EnergyOver(p: Sample, c: Sample, dt: nat): Energy
  {
    Energy(
      dt,
      TwoWay(Integrated(p.Import(), c.Import(), dt), Integrated(p.Export(), c.Export(), dt)),
      Integrated(p.UnstoredExport(), c.UnstoredExport(), dt),
      Integrated(p.ChargingNow(), c.ChargingNow(), dt),
      Integrated(p.DischargingNow(), c.DischargingNow(), dt),
      Integrated(p.AboveCap(), c.AboveCap(), dt),
      PhaseOver(p.grid.phases.a, c.grid.phases.a, dt),
      PhaseOver(p.grid.phases.b, c.grid.phases.b, dt),
      PhaseOver(p.grid.phases.c, c.grid.phases.c, dt))
  }

  function CostsOver(pricing: Pricing, at: Timestamp, moved: TwoWay, dt: nat): Costs
  {
    match pricing
    case Skipped => NO_COSTS
    case Priced(wholesale, dynamic, fixed) =>
      match wholesale(at)
      case None => Costs(0, dt, NEITHER, NEITHER)
      case Some(price) =>
        Costs(dt, 0,
              TwoWay(Cost(moved.import_, dynamic.ImportPrice(price)), Cost(moved.export_, dynamic.ExportPrice(price))),
              TwoWay(Cost(moved.import_, fixed.import_), Cost(moved.export_, fixed.export_)))
  }

  /** A day's figures, or an interval's: energy, and its costs if it is priced. */
  datatype Figures = Figures(energy: Energy, costs: Costs)
  {
    function Plus(o: Figures): Figures { Figures(energy.Plus(o.energy), costs.Plus(o.costs)) }
  }

  const NO_FIGURES := Figures(NO_ENERGY, NO_COSTS)

  function Between(pricing: Pricing, p: Sample, c: Sample): Figures
  {
    match SpanWithin(p.at, c.at)
    case None => NO_FIGURES
    case Some(dt) =>
      var energy := EnergyOver(p, c, dt);
      Figures(energy, CostsOver(pricing, p.at, energy.grid, dt))
  }

  function Grown(row: DayTotals, figures: Figures): DayTotals
  {
    row.(energy := row.energy.Plus(figures.energy),
         costs := if row.costs.None? then None else Some(row.costs.value.Plus(figures.costs)))
  }

  /** Adds what moved between two readings to the row of the first one's day. */
  method Accumulate(days: map<int, DayTotals>, pricing: Pricing, previous: Sample, current: Sample)
    returns (after: map<int, DayTotals>)
    requires previous.day in days ==> (days[previous.day].costs.Some? <==> pricing.Priced?)
    ensures SpanWithin(previous.at, current.at).None? ==> after == days
    ensures SpanWithin(previous.at, current.at).Some? ==>
              after == days[previous.day := Grown(Entry(days, previous.day, pricing), Between(pricing, previous, current))]
  {
    var span := SpanWithin(previous.at, current.at);
    if span.None? {
      return days;
    }
    var dt := span.value;
    var row := Entry(days, previous.day, pricing);
    var energy := row.energy;
    var imported := Integrated(previous.Import(), current.Import(), dt);
    var exported := Integrated(previous.Export(), current.Export(), dt);
    energy := energy.(covered := energy.covered + dt);
    energy := energy.(grid := TwoWay(energy.grid.import_ + imported, energy.grid.export_ + exported));
    if pricing.Priced? {
      var costs := row.costs.value;
      match pricing.wholesale(previous.at) {
        case Some(price) =>
          costs := costs.(priced := costs.priced + dt);
          costs := costs.(dynamic := TwoWay(
            costs.dynamic.import_ + Cost(imported, pricing.dynamic.ImportPrice(price)),
            costs.dynamic.export_ + Cost(exported, pricing.dynamic.ExportPrice(price))));
          costs := costs.(fixed := TwoWay(
            costs.fixed.import_ + Cost(imported, pricing.fixed.import_),
            costs.fixed.export_ + Cost(exported, pricing.fixed.export_)));
        case None =>
          costs := costs.(unpriced := costs.unpriced + dt);
      }
      row := row.(costs := Some(costs));
    }
    energy := energy.(
      unstored := energy.unstored + Integrated(previous.UnstoredExport(), current.UnstoredExport(), dt));
    energy := energy.(charged := energy.charged + Integrated(previous.ChargingNow(), current.ChargingNow(), dt));
    energy := energy.(
      discharged := energy.discharged + Integrated(previous.DischargingNow(), current.DischargingNow(), dt));
    energy := energy.(aboveCap := energy.aboveCap + Integrated(previous.AboveCap(), current.AboveCap(), dt));
    var was, now := previous.grid.phases, current.grid.phases;
    energy := energy.(
      phaseA := energy.phaseA.Plus(PhaseOver(was.a, now.a, dt)),
      phaseB := energy.phaseB.Plus(PhaseOver(was.b, now.b, dt)),
      phaseC := energy.phaseC.Plus(PhaseOver(was.c, now.c, dt)));
    after := days[previous.day := row.(energy := energy)];
  }

  // --- What a stream holds ---

  /** The last battery state reported. */
  function LastBattery(events: seq<Event>): Option<BatteryState>
  {
    if events == [] then None
    else
      var e := events[|events| - 1];
      if e.DeviceUpdate? && e.measurement.Battery? then Some(e.measurement.battery)
      else LastBattery(events[..|events| - 1])
  }

  /** The stream reduced to its dated meter readings. */
  function SamplesOf(events: seq<Event>): seq<Sample>
  {
    if events == [] then []
    else
      var e, init := events[|events| - 1], events[..|events| - 1];
      if e.Meter? && LocalDay(e.at).Some?
      then SamplesOf(init) + [Sample(e.at.now, LocalDay(e.at).value, e.grid, LastBattery(init))]
      else SamplesOf(init)
  }

  /** All the readings' intervals that start on `day`, added up. */
  function TotalOn(pricing: Pricing, samples: seq<Sample>, day: int): Figures
  {
    var n := |samples|;
    if n < 2 then NO_FIGURES
    else
      var rest := TotalOn(pricing, samples[..n - 1], day);
      if samples[n - 2].day == day then rest.Plus(Between(pricing, samples[n - 2], samples[n - 1])) else rest
  }

  /** All the readings' intervals, added up with no regard to days. */
  function TotalOver(pricing: Pricing, samples: seq<Sample>): Figures
  {
    var n := |samples|;
    if n < 2 then NO_FIGURES
    else TotalOver(pricing, samples[..n - 1]).Plus(Between(pricing, samples[n - 2], samples[n - 1]))
  }

  function DaysOf(samples: seq<Sample>): set<int> { set s | s in samples :: s.day }

  ghost predicate SocSeen(samples: seq<Sample>, day: int, soc: Soc)
  {
    exists s | s in samples :: s.day == day && s.battery.Some? && s.battery.value.soc == soc
  }

  /** The least and the greatest state of charge observed that day, if any was. */
  ghost predicate SocRange(samples: seq<Sample>, day: int, least: Option<Soc>, greatest: Option<Soc>)
  {
    && (least.None? <==> greatest.None?)
    && (least.Some? ==> SocSeen(samples, day, least.value) && SocSeen(samples, day, greatest.value))
    && (forall soc: Soc | SocSeen(samples, day, soc) :: least.Some? && least.value <= soc <= greatest.value)
  }

  ghost predicate RowFor(pricing: Pricing, samples: seq<Sample>, row: DayTotals)
  {
    var total := TotalOn(pricing, samples, row.day);
    && row.energy == total.energy
    && row.costs == (if pricing.Priced? then Some(total.costs) else None)
    && SocRange(samples, row.day, row.socMin, row.socMax)
  }

  /** The day map so far: a row for exactly the days seen, each right. */
  ghost predicate Booked(pricing: Pricing, samples: seq<Sample>, days: map<int, DayTotals>)
  {
    && days.Keys == DaysOf(samples)
    && forall d | d in days :: days[d].day == d && RowFor(pricing, samples, days[d])
  }

  lemma {:induction false} NothingOn(pricing: Pricing, samples: seq<Sample>, day: int)
    requires day !in DaysOf(samples)
    ensures TotalOn(pricing, samples, day) == NO_FIGURES
  {
    var n := |samples|;
    if n >= 2 {
      assert samples[n - 2] in samples;
      NothingOn(pricing, samples[..n - 1], day);
    }
  }

  lemma OneMoreOn(pricing: Pricing, samples: seq<Sample>, s: Sample, day: int)
    ensures TotalOn(pricing, samples + [s], day) ==
            if samples != [] && samples[|samples| - 1].day == day
            then TotalOn(pricing, samples, day).Plus(Between(pricing, samples[|samples| - 1], s))
            else TotalOn(pricing, samples, day)
  {
    var all := samples + [s];
    assert all[..|all| - 1] == samples;
  }

  lemma DaysGrow(samples: seq<Sample>, s: Sample)
    ensures DaysOf(samples + [s]) == DaysOf(samples) + {s.day}
  {
    forall d | d in DaysOf(samples) + {s.day} ensures d in DaysOf(samples + [s]) {
      if d == s.day {
        assert s in samples + [s];
      } else {
        var earlier :| earlier in samples && earlier.day == d;
        assert earlier in samples + [s];
      }
    }
  }

  lemma SocsGrow(samples: seq<Sample>, s: Sample, day: int, soc: Soc)
    ensures SocSeen(samples + [s], day, soc) <==>
            SocSeen(samples, day, soc) || (s.day == day && s.battery.Some? && s.battery.value.soc == soc)
  {
    if SocSeen(samples, day, soc) {
      var earlier :| earlier in samples && earlier.day == day && earlier.battery.Some? && earlier.battery.value.soc == soc;
      assert earlier in samples + [s];
    }
    assert s in samples + [s];
  }

  function Observed(row: DayTotals, battery: Option<BatteryState>): DayTotals
  {
    match battery
    case None => row
    case Some(b) =>
      row.(socMin := Some(if row.socMin.None? then b.soc else Min(row.socMin.value, b.soc)),
           socMax := Some(if row.socMax.None? then b.soc else Max(row.socMax.value, b.soc)))
  }

  /** A row kept right through one reading more. */
  lemma RowGrows(pricing: Pricing, samples: seq<Sample>, s: Sample, row: DayTotals)
    requires RowFor(pricing, samples, row)
    ensures
      var counted := if samples != [] && samples[|samples| - 1].day == row.day
                     then Grown(row, Between(pricing, samples[|samples| - 1], s)) else row;
      RowFor(pricing, samples + [s], if s.day == row.day then Observed(counted, s.battery) else counted)
  {
    hide Between, Energy.Plus, Costs.Plus;
    OneMoreOn(pricing, samples, s, row.day);
    forall soc: Soc
      ensures SocSeen(samples + [s], row.day, soc) <==>
              SocSeen(samples, row.day, soc) || (s.day == row.day && s.battery.Some? && s.battery.value.soc == soc)
    {
      SocsGrow(samples, s, row.day, soc);
    }
  }

  lemma NewRow(pricing: Pricing, samples: seq<Sample>, day: int)
    requires day !in DaysOf(samples)
    ensures RowFor(pricing, samples, NewDay(day, pricing))
  {
    NothingOn(pricing, samples, day);
    forall soc: Soc ensures !SocSeen(samples, day, soc) {
    }
  }

  lemma GrownByNothing(row: DayTotals)
    ensures Grown(row, NO_FIGURES) == row
  {
  }

  /** One dated reading: the interval it closes is counted, its day has a row. */
  lemma BookOne(pricing: Pricing, samples: seq<Sample>, days: map<int, DayTotals>, s: Sample, counted: map<int, DayTotals>)
    requires Booked(pricing, samples, days)
    requires samples == [] ==> counted == days
    requires samples != [] ==>
               var p := samples[|samples| - 1];
               counted == if SpanWithin(p.at, s.at).None? then days
                          else days[p.day := Grown(Entry(days, p.day, pricing), Between(pricing, p, s))]
    ensures Booked(pricing, samples + [s], counted[s.day := Observed(Entry(counted, s.day, pricing), s.battery)])
  {
    hide Energy.Plus, Costs.Plus, RowFor, EnergyOver, CostsOver;
    DaysGrow(samples, s);
    var after := counted[s.day := Observed(Entry(counted, s.day, pricing), s.battery)];
    if samples != [] { assert samples[|samples| - 1] in samples; }
    forall d | d in after ensures after[d].day == d && RowFor(pricing, samples + [s], after[d]) {
      if d !in days { NewRow(pricing, samples, d); }
      var row := Entry(days, d, pricing);
      GrownByNothing(row);
      RowGrows(pricing, samples, s, row);
    }
  }

  // --- The fold ---

  function RowDays(rows: seq<DayTotals>): seq<int>
  {
    seq(|rows|, i requires 0 <= i < |rows| => rows[i].day)
  }

  lemma RowDaysGrow(rows: seq<DayTotals>, row: DayTotals)
    ensures RowDays(rows + [row]) == RowDays(rows) + [row.day]
  {
  }

  /** The rows: one per day seen, oldest first, each right. */
  ghost predicate Tallied(pricing: Pricing, samples: seq<Sample>, rows: seq<DayTotals>)
  {
    && StrictlyAscending(RowDays(rows))
    && (forall d :: d in RowDays(rows) <==> d in DaysOf(samples))
    && (forall row | row in rows :: RowFor(pricing, samples, row))
  }

  lemma NothingBooked(pricing: Pricing)
    ensures Booked(pricing, [], map[])
  {
  }

  lemma NothingRead()
    ensures SamplesOf([]) == [] && LastBattery([]).None?
  {
  }

  /** What one event more adds to the samples and the battery held. */
  lemma StreamGrows(events: seq<Event>, i: nat)
    requires i < |events|
    ensures
      var e, before := events[i], events[..i];
      && LastBattery(events[..i + 1]) == (if e.DeviceUpdate? && e.measurement.Battery? then Some(e.measurement.battery)
                                          else LastBattery(before))
      && SamplesOf(events[..i + 1]) == (if e.Meter? && LocalDay(e.at).Some?
                                        then SamplesOf(before) +
                                             [Sample(e.at.now, LocalDay(e.at).value, e.grid, LastBattery(before))]
                                        else SamplesOf(before))
  {
    hide LocalDay;
    PrefixGrows(events, i);
  }

  /** The daily table of a recorded stream. */
  method Daily(events: seq<Event>, pricing: Pricing) returns (rows: seq<DayTotals>)
    ensures Tallied(pricing, SamplesOf(events), rows)
  {
    hide Booked, Between, SamplesOf, LastBattery, LocalDay, Tallied, Observed, Entry, Grown, SpanWithin;
    var days: map<int, DayTotals> := map[];
    var battery: Option<BatteryState> := None;
    var previous: Option<Sample> := None;
    assert SamplesOf([]) == [] && LastBattery([]).None? by { NothingRead(); }
    NothingBooked(pricing);
    for i := 0 to |events|
      invariant battery == LastBattery(events[..i])
      invariant var samples := SamplesOf(events[..i]);
                previous == if samples == [] then None else Some(samples[|samples| - 1])
      invariant Booked(pricing, SamplesOf(events[..i]), days)
    {
      StreamGrows(events, i);
      match events[i]
      case DeviceUpdate(_, _, measurement) =>
        if measurement.Battery? {
          battery := Some(measurement.battery);
        }
      case MqttTimeout(_) =>
      case Meter(at, _, grid, _) =>
        var day := LocalDay(at);
        if day.Some? {
          var sample := Sample(at.now, day.value, grid, battery);
          var counted := days;
          if previous.Some? {
            RowsArePriced(pricing, SamplesOf(events[..i]), days);
            counted := Accumulate(days, pricing, previous.value, sample);
          }
          var totals := Observed(Entry(counted, day.value, pricing), sample.battery);
          BookOne(pricing, SamplesOf(events[..i]), days, sample, counted);
          days := counted[day.value := totals];
          previous := Some(sample);
        }
    }
    assert events[..|events|] == events;
    rows := InDayOrder(pricing, SamplesOf(events), days);
  }

  lemma RowsArePriced(pricing: Pricing, samples: seq<Sample>, days: map<int, DayTotals>)
    requires Booked(pricing, samples, days)
    ensures forall d | d in days :: days[d].costs.Some? <==> pricing.Priced?
  {
  }

  method InDayOrder(pricing: Pricing, ghost samples: seq<Sample>, days: map<int, DayTotals>)
    returns (rows: seq<DayTotals>)
    requires Booked(pricing, samples, days)
    ensures Tallied(pricing, samples, rows)
  {
    hide RowFor, DaysOf, Ascending;
    var keys := Ascending(days.Keys);
    AscendingIsSorted(days.Keys);
    rows := [];
    for i := 0 to |keys|
      invariant RowDays(rows) == keys[..i]
      invariant forall row | row in rows :: RowFor(pricing, samples, row)
    {
      PrefixGrows(keys, i);
      var key := keys[i];
      assert key in keys;
      RowDaysGrow(rows, days[key]);
      rows := rows + [days[key]];
    }
  }
}
