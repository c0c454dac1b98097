/** What the daily rows promise: nothing is lost between days and nothing is
    counted twice, and each day's figures are consistent with one another. */
module AnalysisLaws {
  import opened Units
  import opened Worlds
  import opened Engines
  import opened Analysis

  // --- Which days have a row ---

  /** The days with a row are exactly the days of the dated meter readings. */
  lemma {:induction false} DaysAreThoseRead(events: seq<Event>, day: int)
    ensures day in DaysOf(SamplesOf(events)) <==>
            exists e | e in events :: e.Meter? && LocalDay(e.at) == Some(day)
  {
    if events != [] {
      var n := |events| - 1;
      var last, init := events[n], events[..n];
      assert last in events;
      assert forall e :: e in events <==> e in init || e == last;
      DaysAreThoseRead(init, day);
      if last.Meter? && LocalDay(last.at).Some? {
        DaysGrow(SamplesOf(init), Sample(last.at.now, LocalDay(last.at).value, last.grid, LastBattery(init)));
      }
    }
  }

  // --- Nothing lost, nothing counted twice ---

  function SumOfDays(pricing: Pricing, samples: seq<Sample>, days: seq<int>): Figures
  {
    if days == [] then NO_FIGURES
    else SumOfDays(pricing, samples, days[..|days| - 1]).Plus(TotalOn(pricing, samples, days[|days| - 1]))
  }

  lemma PlusSwaps(a: Figures, b: Figures, c: Figures)
    ensures a.Plus(b).Plus(c) == a.Plus(c).Plus(b) && a.Plus(b.Plus(c)) == a.Plus(b).Plus(c)
    ensures a.Plus(NO_FIGURES) == a
  {
  }

  /** One reading more adds its interval to the sum over the days exactly once. */
  lemma {:induction false} CountedOnce(pricing: Pricing, samples: seq<Sample>, s: Sample, days: seq<int>)
    requires samples != [] && StrictlyAscending(days)
    ensures
      var p := samples[|samples| - 1];
      SumOfDays(pricing, samples + [s], days) ==
      if p.day in days then SumOfDays(pricing, samples, days).Plus(Between(pricing, p, s))
      else SumOfDays(pricing, samples, days)
  {
    hide Between, Figures.Plus, TotalOn;
    if days != [] {
      var n := |days| - 1;
      var p, rest := samples[|samples| - 1], days[..n];
      CountedOnce(pricing, samples, s, rest);
      OneMoreOn(pricing, samples, s, days[n]);
      assert p.day in days <==> p.day in rest || p.day == days[n];
      assert days[n] !in rest;
      var before, here := SumOfDays(pricing, samples, rest), TotalOn(pricing, samples, days[n]);
      PlusSwaps(before, here, Between(pricing, p, s));
      PlusSwaps(before, Between(pricing, p, s), here);
    }
  }

  lemma {:induction false} DaysAddUp(pricing: Pricing, samples: seq<Sample>, days: seq<int>)
    requires StrictlyAscending(days) && forall s | s in samples :: s.day in days
    ensures SumOfDays(pricing, samples, days) == TotalOver(pricing, samples)
  {
    hide Between, Figures.Plus;
    var n := |samples|;
    if n < 2 {
      NothingYet(pricing, samples, days);
    } else {
      var init := samples[..n - 1];
      DaysAddUp(pricing, init, days);
      CountedOnce(pricing, init, samples[n - 1], days);
      assert init + [samples[n - 1]] == samples;
      assert init[n - 2] in samples;
    }
  }

  lemma {:induction false} NothingYet(pricing: Pricing, samples: seq<Sample>, days: seq<int>)
    requires |samples| < 2
    ensures SumOfDays(pricing, samples, days) == NO_FIGURES
  {
    if days != [] { NothingYet(pricing, samples, days[..|days| - 1]); }
  }

  /** What a row reports: nothing for its costs when the run is not priced. */
  function Reported(row: DayTotals): Figures
  {
    Figures(row.energy, if row.costs.Some? then row.costs.value else NO_COSTS)
  }

  function SumOfRows(rows: seq<DayTotals>): Figures
  {
    if rows == [] then NO_FIGURES else SumOfRows(rows[..|rows| - 1]).Plus(Reported(rows[|rows| - 1]))
  }

  lemma {:induction false} NoCostsUnpriced(samples: seq<Sample>, day: int)
    ensures TotalOn(Skipped, samples, day).costs == NO_COSTS
  {
    if |samples| >= 2 { NoCostsUnpriced(samples[..|samples| - 1], day); }
  }

  lemma RowReports(pricing: Pricing, samples: seq<Sample>, row: DayTotals)
    requires RowFor(pricing, samples, row)
    ensures Reported(row) == TotalOn(pricing, samples, row.day)
  {
    if pricing.Skipped? { NoCostsUnpriced(samples, row.day); }
  }

  lemma {:induction false} RowsReport(pricing: Pricing, samples: seq<Sample>, rows: seq<DayTotals>)
    requires forall row | row in rows :: RowFor(pricing, samples, row)
    ensures SumOfRows(rows) == SumOfDays(pricing, samples, RowDays(rows))
  {
    hide RowFor, Figures.Plus, TotalOn, Reported;
    if rows != [] {
      var n := |rows| - 1;
      assert rows[n] in rows;
      RowReports(pricing, samples, rows[n]);
      RowsReport(pricing, samples, rows[..n]);
      assert RowDays(rows)[..n] == RowDays(rows[..n]);
    }
  }

  /** Conservation: summed over the rows, covered time, every energy and every
      cost equal their sums over consecutive readings at most 30 s apart. */
  lemma RowsConserve(pricing: Pricing, samples: seq<Sample>, rows: seq<DayTotals>)
    requires Tallied(pricing, samples, rows)
    ensures SumOfRows(rows) == TotalOver(pricing, samples)
  {
    hide RowFor;
    RowsReport(pricing, samples, rows);
    DaysAddUp(pricing, samples, RowDays(rows));
  }

  // --- Each day is consistent ---

  /** No energy or time is negative. Unstored export is part of export. Demand
      above the cap was met by import or by the battery. Priced and unpriced time
      make up the covered time, and where all of it was priced the fixed
      contract charges its rate on the day's whole import and credits it on the
      whole export. */
  ghost predicate Consistent(pricing: Pricing, f: Figures)
  {
    var (e, c) := (f.energy, f.costs);
    && 0 <= e.covered && 0.0 <= e.grid.import_ && 0.0 <= e.charged && 0.0 <= e.discharged
    && 0.0 <= e.unstored <= e.grid.export_
    && 0.0 <= e.aboveCap <= e.grid.import_ + e.discharged
    && (pricing.Priced? ==>
          && 0 <= c.priced && 0 <= c.unpriced && c.priced + c.unpriced == e.covered
          && (c.unpriced == 0 ==> c.fixed == AtRate(e.grid, pricing.fixed)))
  }

  function AtRate(energy: TwoWay, rate: TwoWay): TwoWay
  {
    TwoWay(Cost(energy.import_, rate.import_), Cost(energy.export_, rate.export_))
  }

  lemma CostAdds(a: real, b: real, price: real)
    ensures Cost(a + b, price) == Cost(a, price) + Cost(b, price)
  {
    assert (a + b) / 1000.0 == a / 1000.0 + b / 1000.0;
  }

  lemma ConsistentAdds(pricing: Pricing, f: Figures, g: Figures)
    requires Consistent(pricing, f) && Consistent(pricing, g)
    ensures Consistent(pricing, f.Plus(g))
  {
    hide Cost;
    if pricing.Priced? {
      CostAdds(f.energy.grid.import_, g.energy.grid.import_, pricing.fixed.import_);
      CostAdds(f.energy.grid.export_, g.energy.grid.export_, pricing.fixed.export_);
    }
  }

  lemma MoreIntegrates(p1: int, c1: int, p2: int, c2: int, dt: nat)
    requires 0 <= p1 <= p2 && 0 <= c1 <= c2
    ensures 0.0 <= Integrated(p1, c1, dt) <= Integrated(p2, c2, dt)
  {
    var hours := dt as real / 3_600_000.0;
    var low, high := (p1 as real + c1 as real) / 2.0, (p2 as real + c2 as real) / 2.0;
    assert 0.0 <= hours && 0.0 <= low <= high;
    assert 0.0 <= low * hours <= high * hours;
  }

  lemma IntegratedAdds(p1: int, c1: int, p2: int, c2: int, dt: nat)
    ensures Integrated(p1 + p2, c1 + c2, dt) == Integrated(p1, c1, dt) + Integrated(p2, c2, dt)
  {
    var hours := dt as real / 3_600_000.0;
    var a, b := (p1 as real + c1 as real) / 2.0, (p2 as real + c2 as real) / 2.0;
    assert (a + b) * hours == a * hours + b * hours;
  }

  /** At one reading: what exceeds the cap is import, or what the battery gives. */
  lemma AboveCapIsServed(s: Sample)
    ensures 0 <= s.AboveCap() <= s.Import() + s.DischargingNow()
    ensures 0 <= s.UnstoredExport() <= s.Export()
  {
    if s.battery.Some? {
      var flow := s.battery.value.currentPower;
      assert (s.grid.total + flow as real).Floor == s.grid.total.Floor + flow;
    }
  }

  lemma NoTimeNoCost(p: Sample, c: Sample, rate: TwoWay)
    ensures AtRate(EnergyOver(p, c, 0).grid, rate) == NEITHER
  {
  }

  lemma EnergyIsConsistent(p: Sample, c: Sample, dt: nat)
    ensures Consistent(Skipped, Figures(EnergyOver(p, c, dt), NO_COSTS))
  {
    hide Integrated;
    AboveCapIsServed(p);
    AboveCapIsServed(c);
    MoreIntegrates(0, 0, p.Import(), c.Import(), dt);
    MoreIntegrates(0, 0, p.ChargingNow(), c.ChargingNow(), dt);
    MoreIntegrates(0, 0, p.DischargingNow(), c.DischargingNow(), dt);
    MoreIntegrates(p.UnstoredExport(), c.UnstoredExport(), p.Export(), c.Export(), dt);
    MoreIntegrates(p.AboveCap(), c.AboveCap(), p.Import() + p.DischargingNow(), c.Import() + c.DischargingNow(), dt);
    IntegratedAdds(p.Import(), c.Import(), p.DischargingNow(), c.DischargingNow(), dt);
    assert Integrated(0, 0, dt) == 0.0 by { NothingIntegrates(dt); }
  }

  lemma NothingIntegrates(dt: nat)
    ensures Integrated(0, 0, dt) == 0.0
  {
  }

  lemma BetweenIsConsistent(pricing: Pricing, p: Sample, c: Sample)
    ensures Consistent(pricing, Between(pricing, p, c))
  {
    hide EnergyOver;
    match SpanWithin(p.at, c.at)
    case None =>
    case Some(dt) =>
      EnergyIsConsistent(p, c, dt);
      assert EnergyOver(p, c, dt).covered == dt by { CoversItsSpan(p, c, dt); }
      if pricing.Priced? && dt == 0 { NoTimeNoCost(p, c, pricing.fixed); }
  }

  lemma CoversItsSpan(p: Sample, c: Sample, dt: nat)
    ensures EnergyOver(p, c, dt).covered == dt
  {
  }

  lemma {:induction false} DayIsConsistent(pricing: Pricing, samples: seq<Sample>, day: int)
    ensures Consistent(pricing, TotalOn(pricing, samples, day))
  {
    hide Between, Figures.Plus;
    var n := |samples|;
    if n >= 2 {
      DayIsConsistent(pricing, samples[..n - 1], day);
      BetweenIsConsistent(pricing, samples[n - 2], samples[n - 1]);
      ConsistentAdds(pricing, TotalOn(pricing, samples[..n - 1], day), Between(pricing, samples[n - 2], samples[n - 1]));
    }
  }

  /** Every row of every run is consistent. */
  lemma RowsAreConsistent(pricing: Pricing, samples: seq<Sample>, rows: seq<DayTotals>)
    requires Tallied(pricing, samples, rows)
    ensures forall row | row in rows :: Consistent(pricing, Reported(row))
  {
    forall row | row in rows ensures Consistent(pricing, Reported(row)) {
      RowReports(pricing, samples, row);
      DayIsConsistent(pricing, samples, row.day);
    }
  }

  // --- What is integrated, and how ---

  /** The powers a row adds up. */
  datatype Quantity =
    | Imported
    | Exported
    | Unstored
    | Charged
    | Discharged
    | AboveCap
    | PhaseImported(phase: Phase)
    | PhaseExported(phase: Phase)

  datatype Phase = A | B | C

  function PhaseOf(p: Phases, phase: Phase): real
  {
    match phase case A => p.a case B => p.b case C => p.c
  }

  /** Whole watts in one direction of a meter's figure. */
  function TakenFromGrid(grid: real): Setpoint { if grid >= 1.0 then Max(Importing(grid), 0) else 0 }
  function GivenToGrid(grid: real): Setpoint { if grid <= -1.0 then Max(Exporting(grid), 0) else 0 }

  /** The power at one reading: surplus counts as unstored only beside a battery known
      not to be charging, demand as above the cap only beside a known battery. */
  function PowerOf(s: Sample, q: Quantity): int
  {
    match q
    case Imported => TakenFromGrid(s.grid.total)
    case Exported => GivenToGrid(s.grid.total)
    case Unstored => if s.battery.Some? && s.battery.value.currentPower >= 0 then GivenToGrid(s.grid.total) else 0
    case Charged =>
      if s.battery.Some? && s.battery.value.currentPower < 0 then Charging(s.battery.value.currentPower) else 0
    case Discharged => if s.battery.Some? && s.battery.value.currentPower > 0 then s.battery.value.currentPower else 0
    case AboveCap =>
      if s.battery.None? then 0
      else
        var demand := Importing(s.grid.total + s.battery.value.currentPower as real);
        if demand > s.battery.value.maxDischarge then demand - s.battery.value.maxDischarge else 0
    case PhaseImported(phase) => TakenFromGrid(PhaseOf(s.grid.phases, phase))
    case PhaseExported(phase) => GivenToGrid(PhaseOf(s.grid.phases, phase))
  }

  function PhaseIn(e: Energy, phase: Phase): TwoWay
  {
    match phase case A => e.phaseA case B => e.phaseB case C => e.phaseC
  }

  /** Where a row shows it. */
  function ShownIn(e: Energy, q: Quantity): real
  {
    match q
    case Imported => e.grid.import_
    case Exported => e.grid.export_
    case Unstored => e.unstored
    case Charged => e.charged
    case Discharged => e.discharged
    case AboveCap => e.aboveCap
    case PhaseImported(phase) => PhaseIn(e, phase).import_
    case PhaseExported(phase) => PhaseIn(e, phase).export_
  }

  /** The interval from one reading to the next counts when it is 0 to 30 s long. */
  predicate Counts(p: Sample, c: Sample) { 0 <= c.at - p.at <= 30_000 }

  /** Both ends of every counted interval that starts on the day, times its length: in
      watt-milliseconds, and twice what the straight line between the ends encloses. */
  function BothEnds(samples: seq<Sample>, day: int, q: Quantity): int
  {
    var n := |samples|;
    if n < 2 then 0
    else
      var p, c := samples[n - 2], samples[n - 1];
      BothEnds(samples[..n - 1], day, q)
      + (if p.day == day && Counts(p, c) then (PowerOf(p, q) + PowerOf(c, q)) * (c.at - p.at) else 0)
  }

  /** The time of the counted intervals that start on the day, of those with a price at
      their start, or of those without one. */
  function Time(pricing: Pricing, samples: seq<Sample>, day: int, priced: bool): int
    requires pricing.Priced?
  {
    var n := |samples|;
    if n < 2 then 0
    else
      var p, c := samples[n - 2], samples[n - 1];
      Time(pricing, samples[..n - 1], day, priced)
      + (if p.day == day && Counts(p, c) && pricing.wholesale(p.at).Some? == priced then c.at - p.at else 0)
  }

  lemma PowersAgree(s: Sample)
    ensures s.Import() == PowerOf(s, Imported) && s.Export() == PowerOf(s, Exported)
    ensures s.UnstoredExport() == PowerOf(s, Unstored)
    ensures s.ChargingNow() == PowerOf(s, Charged) && s.DischargingNow() == PowerOf(s, Discharged)
    ensures s.AboveCap() == PowerOf(s, AboveCap)
  {
    Directions(s.grid.total);
  }

  lemma Directions(grid: real)
    ensures ImportOf(grid) == TakenFromGrid(grid) && ExportOf(grid) == GivenToGrid(grid)
  {
  }

  lemma EnergyShows(p: Sample, c: Sample, dt: nat, q: Quantity)
    ensures ShownIn(EnergyOver(p, c, dt), q) == Integrated(PowerOf(p, q), PowerOf(c, q), dt)
  {
    PowersAgree(p);
    PowersAgree(c);
    if q.PhaseImported? || q.PhaseExported? {
      Directions(PhaseOf(p.grid.phases, q.phase));
      Directions(PhaseOf(c.grid.phases, q.phase));
    }
    hide Integrated, PowerOf, TakenFromGrid, GivenToGrid, ImportOf, ExportOf;
    hide Sample.Import, Sample.Export, Sample.UnstoredExport, Sample.ChargingNow, Sample.DischargingNow, Sample.AboveCap;
    if q.PhaseImported? || q.PhaseExported? { PhasesShow(p, c, dt, q); }
  }

  lemma PhasesShow(p: Sample, c: Sample, dt: nat, q: Quantity)
    requires q.PhaseImported? || q.PhaseExported?
    ensures ShownIn(EnergyOver(p, c, dt), q) == Integrated(PowerOf(p, q), PowerOf(c, q), dt)
  {
    Directions(PhaseOf(p.grid.phases, q.phase));
    Directions(PhaseOf(c.grid.phases, q.phase));
    hide Integrated, TakenFromGrid, GivenToGrid, ImportOf, ExportOf;
  }

  /** What singles out the trapezoid: a steady power gives power times time, the order
      of the two ends makes no difference, and powers add. */
  lemma TrapezoidRule(p: int, c: int, p2: int, c2: int, dt: nat)
    ensures Integrated(p, p, dt) * 3_600_000.0 == (p * dt) as real
    ensures Integrated(p, c, dt) == Integrated(c, p, dt)
    ensures Integrated(p + p2, c + c2, dt) == Integrated(p, c, dt) + Integrated(p2, c2, dt)
    ensures Integrated(p, c, dt) * 7_200_000.0 == ((p + c) * dt) as real
  {
    IntegratedAdds(p, c, p2, c2, dt);
    var x, y: real := (p + c) as real, dt as real;
    assert Integrated(p, c, dt) == x / 2.0 * (y / 3_600_000.0);
    assert ((p + c) * dt) as real == x * y;
    var z := p as real;
    assert Integrated(p, p, dt) == (z + z) / 2.0 * (y / 3_600_000.0);
    assert (p * dt) as real == z * y;
  }

  lemma BetweenShows(pricing: Pricing, p: Sample, c: Sample, q: Quantity)
    ensures ShownIn(Between(pricing, p, c).energy, q) * 7_200_000.0 ==
            (if Counts(p, c) then (PowerOf(p, q) + PowerOf(c, q)) * (c.at - p.at) else 0) as real
    ensures Between(pricing, p, c).energy.covered == if Counts(p, c) then c.at - p.at else 0
  {
    if Counts(p, c) {
      EnergyShows(p, c, c.at - p.at, q);
      TrapezoidRule(PowerOf(p, q), PowerOf(c, q), 0, 0, c.at - p.at);
    }
    hide Integrated, PowerOf;
  }

  lemma ShownAdds(e: Energy, f: Energy, q: Quantity)
    ensures ShownIn(e.Plus(f), q) == ShownIn(e, q) + ShownIn(f, q)
  {
  }

  /** Each figure of each row is the trapezoids of its power over the day's counted
      intervals: twice the energy, in milliseconds, is the sum of both ends. */
  lemma {:induction false} RowShowsTrapezoids(pricing: Pricing, samples: seq<Sample>, day: int, q: Quantity)
    ensures ShownIn(TotalOn(pricing, samples, day).energy, q) * 7_200_000.0 == BothEnds(samples, day, q) as real
  {
    hide Between, PowerOf, Counts, ShownIn, Energy.Plus;
    var n := |samples|;
    if n >= 2 {
      var rest, between := TotalOn(pricing, samples[..n - 1], day), Between(pricing, samples[n - 2], samples[n - 1]);
      RowShowsTrapezoids(pricing, samples[..n - 1], day, q);
      BetweenShows(pricing, samples[n - 2], samples[n - 1], q);
      ShownAdds(rest.energy, between.energy, q);
    } else {
      NothingShows(q);
    }
  }

  lemma NothingShows(q: Quantity)
    ensures ShownIn(NO_ENERGY, q) == 0.0
  {
  }

  lemma BetweenIsTimed(pricing: Pricing, p: Sample, c: Sample)
    requires pricing.Priced?
    ensures
      var costs := Between(pricing, p, c).costs;
      var time := if Counts(p, c) then c.at - p.at else 0;
      && costs.priced == (if pricing.wholesale(p.at).Some? then time else 0)
      && costs.unpriced == (if pricing.wholesale(p.at).Some? then 0 else time)
  {
    hide EnergyOver, Cost;
  }

  /** A row's priced time is that of the intervals with a price at their start, and its
      unpriced time that of the others. */
  lemma {:induction false} RowShowsPricedTime(pricing: Pricing, samples: seq<Sample>, day: int)
    requires pricing.Priced?
    ensures TotalOn(pricing, samples, day).costs.priced == Time(pricing, samples, day, true)
    ensures TotalOn(pricing, samples, day).costs.unpriced == Time(pricing, samples, day, false)
  {
    hide Between, Counts;
    var n := |samples|;
    if n >= 2 {
      RowShowsPricedTime(pricing, samples[..n - 1], day);
      BetweenIsTimed(pricing, samples[n - 2], samples[n - 1]);
    }
  }

  /** What the two contracts charge and credit per kilowatt-hour at a wholesale price:
      tax on the whole purchase, none on the sale. */
  predicate CostedAt(pricing: Pricing, price: real, e: Energy, c: Costs)
    requires pricing.Priced?
  {
    var d := pricing.dynamic;
    && c.dynamic.import_ * 100_000.0 == e.grid.import_ * Taxed(price + d.markup + d.energyTax, d.vat)
    && c.dynamic.export_ * 1000.0 == e.grid.export_ * (price - d.exportMarkup)
    && c.fixed.import_ * 1000.0 == e.grid.import_ * pricing.fixed.import_
    && c.fixed.export_ * 1000.0 == e.grid.export_ * pricing.fixed.export_
  }

  /** A price with tax at `vat` percent, in hundredths. */
  function Taxed(price: real, vat: real): real { price * (100.0 + vat) }

  lemma CostIsProportional(energy: real, price: real)
    ensures Cost(energy, price) * 1000.0 == energy * price
  {
  }

  lemma PurchaseIsTaxed(energy: real, d: DynamicTariff, price: real)
    ensures Cost(energy, d.ImportPrice(price)) * 100_000.0 == energy * Taxed(price + d.markup + d.energyTax, d.vat)
  {
    var taxed, untaxed := d.ImportPrice(price), price + d.markup + d.energyTax;
    CostIsProportional(energy, taxed);
    assert taxed == untaxed * (1.0 + d.vat / 100.0);
    assert taxed * 100.0 == untaxed * (100.0 + d.vat);
    hide DynamicTariff.ImportPrice, Cost;
    assert energy * taxed * 100.0 == energy * (taxed * 100.0);
  }

  lemma SaleIsNot(energy: real, d: DynamicTariff, price: real)
    ensures Cost(energy, d.ExportPrice(price)) * 1000.0 == energy * (price - d.exportMarkup)
  {
  }

  lemma BetweenIsCosted(pricing: Pricing, price: real, p: Sample, c: Sample)
    requires pricing.Priced? && pricing.wholesale(p.at) == Some(price)
    ensures CostedAt(pricing, price, Between(pricing, p, c).energy, Between(pricing, p, c).costs)
  {
    match SpanWithin(p.at, c.at)
    case None => NothingIsCosted(pricing, price);
    case Some(dt) => OverIsCosted(pricing, price, p.at, EnergyOver(p, c, dt), dt);
  }

  lemma OverIsCosted(pricing: Pricing, price: real, at: Timestamp, energy: Energy, dt: nat)
    requires pricing.Priced? && pricing.wholesale(at) == Some(price)
    ensures CostedAt(pricing, price, energy, CostsOver(pricing, at, energy.grid, dt))
  {
    hide Cost, Taxed, DynamicTariff.ImportPrice, DynamicTariff.ExportPrice;
    var e, d := energy.grid, pricing.dynamic;
    PurchaseIsTaxed(e.import_, d, price);
    SaleIsNot(e.export_, d, price);
    CostIsProportional(e.import_, pricing.fixed.import_);
    CostIsProportional(e.export_, pricing.fixed.export_);
  }

  lemma CostedAdds(pricing: Pricing, price: real, f: Figures, g: Figures)
    requires pricing.Priced? && CostedAt(pricing, price, f.energy, f.costs) && CostedAt(pricing, price, g.energy, g.costs)
    ensures CostedAt(pricing, price, f.Plus(g).energy, f.Plus(g).costs)
  {
    var d := pricing.dynamic;
    var a, b, x, y := f.energy.grid.import_, g.energy.grid.import_, f.energy.grid.export_, g.energy.grid.export_;
    Distributes(a, b, Taxed(price + d.markup + d.energyTax, d.vat));
    hide Taxed;
    Distributes(x, y, price - d.exportMarkup);
    Distributes(a, b, pricing.fixed.import_);
    Distributes(x, y, pricing.fixed.export_);
  }

  lemma Distributes(a: real, b: real, rate: real)
    ensures (a + b) * rate == a * rate + b * rate
  {
  }

  /** At a steady wholesale price a row's four costs are its energies at the contracts'
      rates. */
  lemma {:induction false} RowIsCosted(pricing: Pricing, price: real, samples: seq<Sample>, day: int)
    requires pricing.Priced? && forall s | s in samples :: pricing.wholesale(s.at) == Some(price)
    ensures
      var total := TotalOn(pricing, samples, day);
      CostedAt(pricing, price, total.energy, total.costs)
  {
    hide Between, CostedAt, Figures.Plus;
    var n := |samples|;
    if n >= 2 {
      RowIsCosted(pricing, price, samples[..n - 1], day);
      BetweenIsCosted(pricing, price, samples[n - 2], samples[n - 1]);
      CostedAdds(pricing, price, TotalOn(pricing, samples[..n - 1], day), Between(pricing, samples[n - 2], samples[n - 1]));
    } else {
      NothingIsCosted(pricing, price);
    }
  }

  lemma NothingIsCosted(pricing: Pricing, price: real)
    requires pricing.Priced?
    ensures CostedAt(pricing, price, NO_ENERGY, NO_COSTS)
  {
  }

  // --- Which samples a stream holds ---

  /** How many dated meter readings a stream has. */
  function DatedReadings(events: seq<Event>): nat
  {
    if events == [] then 0
    else
      var last := events[|events| - 1];
      DatedReadings(events[..|events| - 1]) + (if last.Meter? && LocalDay(last.at).Some? then 1 else 0)
  }

  /** The battery state last reported before event `i`, if any was. */
  ghost predicate InForce(events: seq<Event>, i: nat, battery: Option<BatteryState>)
    requires i <= |events|
  {
    match battery
    case None => forall j | 0 <= j < i :: !ReportsBattery(events[j])
    case Some(b) => exists j :: && 0 <= j < i && ReportsBattery(events[j]) && events[j].measurement.battery == b
                               && forall k | j < k < i :: !ReportsBattery(events[k])
  }

  predicate ReportsBattery(e: Event) { e.DeviceUpdate? && e.measurement.Battery? }

  lemma {:induction false} LastBatteryIsInForce(events: seq<Event>, i: nat)
    requires i <= |events|
    ensures InForce(events, i, LastBattery(events[..i]))
  {
    if i > 0 {
      PrefixGrows(events, i - 1);
      LastBatteryIsInForce(events, i - 1);
      if ReportsBattery(events[i - 1]) { assert events[i - 1].measurement.battery == LastBattery(events[..i]).value; }
    }
  }

  /** Every dated meter reading, and nothing else, is a sample, in order, with its own
      figures and the battery state last reported before it. */
  lemma {:induction false} SamplesAreTheReadings(events: seq<Event>, i: nat)
    requires i < |events| && events[i].Meter? && LocalDay(events[i].at).Some?
    ensures |SamplesOf(events)| == DatedReadings(events) && DatedReadings(events[..i]) < DatedReadings(events)
    ensures
      var s := SamplesOf(events)[DatedReadings(events[..i])];
      && s.at == events[i].at.now && LocalDay(events[i].at) == Some(s.day) && s.grid == events[i].grid
      && InForce(events, i, s.battery)
    decreases |events|
  {
    hide LocalDay, InForce;
    var n := |events| - 1;
    CountsReadings(events);
    CountsReadings(events[..n]);
    if i == n {
      LastBatteryIsInForce(events, n);
    } else {
      SamplesAreTheReadings(events[..n], i);
      assert events[..n][..i] == events[..i];
      SameInForce(events, n, i, SamplesOf(events[..n])[DatedReadings(events[..i])].battery);
    }
  }

  lemma SameInForce(events: seq<Event>, n: nat, i: nat, battery: Option<BatteryState>)
    requires i <= n <= |events|
    ensures InForce(events[..n], i, battery) <==> InForce(events, i, battery)
  {
    assert forall j | 0 <= j < i :: events[..n][j] == events[j];
  }

  lemma {:induction false} CountsReadings(events: seq<Event>)
    ensures |SamplesOf(events)| == DatedReadings(events)
  {
    hide LocalDay;
    if events != [] { CountsReadings(events[..|events| - 1]); }
  }
}
