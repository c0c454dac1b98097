/** A flow that moves to its target at a fixed rate, and the energy it carries in
    each direction, summed from trapezoids between the bends. That sum is proved to
    be the integral of each direction's flow. Watts, seconds and watt-hours. */
module Ramps {
  import opened Units

  /** Watts per second. */
  const SLEW_RATE: real := 800.0

  function RMax(a: real, b: real): real { if a < b then b else a }
  function RMin(a: real, b: real): real { if a < b then a else b }
  function RAbs(a: real): real { if a < 0.0 then -a else a }
  function RClamp(x: real, lo: real, hi: real): real
    requires lo <= hi
  {
    if x < lo then lo else if hi < x then hi else x
  }

  /** Two non-negative amounts, one per direction. */
  datatype MovedEnergy = MovedEnergy(charged: real, discharged: real)
  {
    function Plus(other: MovedEnergy): MovedEnergy
    {
      MovedEnergy(charged + other.charged, discharged + other.discharged)
    }
  }

  const NOTHING := MovedEnergy(0.0, 0.0)

  /** Positive discharges, negative charges. */
  datatype Ramp = Ramp(origin: real, started: real, target: real)
  {
    function Gap(): real { target - origin }

    /** Linear from the origin at the slew rate until it reaches the target. */
    function At(t: real): real
    {
      var travelled := SLEW_RATE * RMax(t - started, 0.0);
      origin + RClamp(Gap(), -travelled, travelled)
    }

    function Arrival(): real { started + RAbs(Gap()) / SLEW_RATE }

    /** The instant of the sign change, when origin and target differ in sign. */
    function ZeroCrossing(): Option<real>
    {
      var seconds := -origin / (SLEW_RATE * (if Gap() < 0.0 then -1.0 else 1.0));
      if 0.0 < seconds < RAbs(Gap()) / SLEW_RATE then Some(started + seconds) else None
    }

    /** Where the flow bends or changes sign, in order. */
    function Bends(): seq<real>
    {
      (if ZeroCrossing().Some? then [ZeroCrossing().value] else []) + [Arrival()]
    }

    function StraightLine(from: real, to: real): real
    {
      (At(from) + At(to)) / 2.0 * (RMax(to - from, 0.0) / 3600.0)
    }

    function Piece(from: real, to: real): MovedEnergy
    {
      var energy := StraightLine(from, to);
      if energy < 0.0 then MovedEnergy(-energy, 0.0) else MovedEnergy(0.0, energy)
    }

    /** The pieces between `from` and `to`, cut at each listed bend inside. */
    function MovedOver(bends: seq<real>, from: real, to: real): MovedEnergy
    {
      if bends == [] then Piece(from, to)
      else if from < bends[0] < to then Piece(from, bends[0]).Plus(MovedOver(bends[1..], bends[0], to))
      else MovedOver(bends[1..], from, to)
    }

    function Moved(from: real, to: real): MovedEnergy { MovedOver(Bends(), from, to) }

    /** The ends of the pieces: the bends inside the span, then its end. */
    function Ends(bends: seq<real>, from: real, to: real): seq<real>
    {
      if bends == [] then [to]
      else if from < bends[0] < to then [bends[0]] + Ends(bends[1..], bends[0], to)
      else Ends(bends[1..], from, to)
    }

    /** One piece up to each end in turn. */
    function Along(from: real, ends: seq<real>): MovedEnergy
    {
      if ends == [] then NOTHING
      else
        var n := |ends| - 1;
        Along(from, ends[..n]).Plus(Piece(if n == 0 then from else ends[n - 1], ends[n]))
    }

    lemma {:induction false} AlongFirst(from: real, first: real, rest: seq<real>)
      ensures Along(from, [first] + rest) == Piece(from, first).Plus(Along(first, rest))
    {
      var all := [first] + rest;
      if rest == [] {
        assert all[..0] == [] && |all| == 1;
      } else {
        AlongFirst(from, first, rest[..|rest| - 1]);
        assert all[..|all| - 1] == [first] + rest[..|rest| - 1];
      }
    }

    lemma {:induction false} AlongIsMoved(bends: seq<real>, from: real, to: real)
      ensures Along(from, Ends(bends, from, to)) == MovedOver(bends, from, to)
    {
      if bends == [] {
        AlongFirst(from, to, []);
      } else if from < bends[0] < to {
        AlongIsMoved(bends[1..], bends[0], to);
        AlongFirst(from, bends[0], Ends(bends[1..], bends[0], to));
      } else {
        AlongIsMoved(bends[1..], from, to);
      }
    }

    lemma CrossingPrecedesArrival()
      ensures ZeroCrossing().Some? ==> ZeroCrossing().value < Arrival()
    {
    }

    lemma EndsOfBends(from: real, to: real)
      ensures Ends(Bends(), from, to) ==
              (if ZeroCrossing().Some? && from < ZeroCrossing().value < to then [ZeroCrossing().value] else [])
              + (if from < Arrival() < to then [Arrival()] else []) + [to]
    {
      var arrival, crossing, bends := Arrival(), ZeroCrossing(), Bends();
      CrossingPrecedesArrival();
      LastBend(arrival, from, to);
      if crossing.Some? {
        var z := crossing.value;
        LastBend(arrival, z, to);
        assert bends[0] == z && bends[1..] == [arrival];
        assert [z] + ([arrival] + [to]) == [z] + [arrival] + [to];
      }
    }

    lemma LastBend(bend: real, from: real, to: real)
      ensures Ends([bend], from, to) == (if from < bend < to then [bend] else []) + [to]
    {
      assert [bend][1..] == [];
    }

    /** The bends strictly inside the span, sorted: the crossing comes first. */
    method SortedCuts(from: real, to: real) returns (cuts: seq<real>)
      ensures cuts + [to] == Ends(Bends(), from, to)
    {
      cuts := [];
      var arrival := Arrival();
      if from < arrival < to {
        cuts := [arrival];
      }
      var crossing := ZeroCrossing();
      if crossing.Some? && from < crossing.value < to {
        cuts := [crossing.value] + cuts;
      }
      EndsOfBends(from, to);
    }

    /** The loop over the cuts and then the end of the span, each piece added to
        its own direction's total. */
    method Integrate(from: real, to: real) returns (moved: MovedEnergy)
      ensures moved == Moved(from, to)
    {
      var cuts := SortedCuts(from, to);
      var ends := cuts + [to];
      var charged, discharged := 0.0, 0.0;
      var start := from;
      for i := 0 to |ends|
        invariant MovedEnergy(charged, discharged) == Along(from, ends[..i])
        invariant start == if i == 0 then from else ends[i - 1]
      {
        PrefixGrows(ends, i);
        var energy := StraightLine(start, ends[i]);
        if energy < 0.0 {
          charged := charged - energy;
        } else {
          discharged := discharged + energy;
        }
        start := ends[i];
      }
      assert ends[..|ends|] == ends;
      AlongIsMoved(Bends(), from, to);
      moved := MovedEnergy(charged, discharged);
    }
  }

  // --- Straight pieces ---

  /** No bend strictly between `a` and `c`. */
  ghost predicate Straight(r: Ramp, a: real, c: real)
  {
    forall bend | bend in r.Bends() :: !(a < bend < c)
  }

  /** Everything after the start, and everything for a ramp that holds still. */
  predicate Under(r: Ramp, from: real) { r.started <= from || r.origin == r.target }

  /** The flow between its start and its arrival, and after it. */
  lemma FlowShape(r: Ramp, t: real)
    requires Under(r, t)
    ensures t >= r.Arrival() ==> r.At(t) == r.target
    ensures t <= r.Arrival() && r.origin <= r.target ==> 
              r.At(t) == r.origin + (if r.origin == r.target then 0.0 else SLEW_RATE * (t - r.started))
    ensures t <= r.Arrival() && r.target < r.origin ==> r.At(t) == r.origin - SLEW_RATE * (t - r.started)
  {
  }

  /** The flow moves one way, toward the target. */
  lemma FlowIsMonotone(r: Ramp, a: real, b: real)
    requires Under(r, a) && a <= b
    ensures r.origin <= r.target ==> r.At(a) <= r.At(b)
    ensures r.target <= r.origin ==> r.At(b) <= r.At(a)
  {
  }

  lemma StraightSides(r: Ramp, a: real, c: real)
    requires a < c && Straight(r, a, c)
    ensures c <= r.Arrival() || r.Arrival() <= a
    ensures r.ZeroCrossing().Some? ==> c <= r.ZeroCrossing().value || r.ZeroCrossing().value <= a
  {
    var bends := r.Bends();
    assert r.Arrival() == bends[|bends| - 1] && r.Arrival() in bends;
    if r.ZeroCrossing().Some? {
      assert r.ZeroCrossing().value == bends[0] && r.ZeroCrossing().value in bends;
    }
  }

  /** Between bends the flow is a chord and keeps its sign. */
  lemma ChordBetweenBends(r: Ramp, a: real, b: real, c: real)
    requires a <= b <= c && a < c && Under(r, a) && Straight(r, a, c)
    ensures r.At(b) * (c - a) == r.At(a) * (c - b) + r.At(c) * (b - a)
    ensures (r.At(a) >= 0.0 && r.At(b) >= 0.0 && r.At(c) >= 0.0) || (r.At(a) <= 0.0 && r.At(b) <= 0.0 && r.At(c) <= 0.0)
  {
    StraightSides(r, a, c);
    FlowShape(r, a);
    FlowShape(r, b);
    FlowShape(r, c);
    SignBetweenBends(r, a, c);
    FlowIsMonotone(r, a, b);
    FlowIsMonotone(r, b, c);
    if c <= r.Arrival() && r.origin != r.target {
      var k := if r.origin < r.target then SLEW_RATE else -SLEW_RATE;
      ChordOfALine(r.origin, k, r.started, a, b, c);
    }
  }

  lemma ChordOfALine(o: real, k: real, s: real, a: real, b: real, c: real)
    ensures (o + k * (b - s)) * (c - a) == (o + k * (a - s)) * (c - b) + (o + k * (c - s)) * (b - a)
  {
  }

  lemma SignBetweenBends(r: Ramp, a: real, c: real)
    requires a < c && Under(r, a) && Straight(r, a, c)
    ensures (r.At(a) >= 0.0 && r.At(c) >= 0.0) || (r.At(a) <= 0.0 && r.At(c) <= 0.0)
  {
    StraightSides(r, a, c);
    FlowShape(r, a);
    FlowShape(r, c);
    var k := if r.Gap() < 0.0 then -SLEW_RATE else SLEW_RATE;
    assert r.ZeroCrossing().Some? <==> 0.0 < -r.origin / k < RAbs(r.Gap()) / SLEW_RATE;
  }

  /** Cutting a straight piece anywhere leaves its energy the same. */
  lemma PieceSplits(r: Ramp, a: real, b: real, c: real)
    requires a <= b <= c && Under(r, a) && Straight(r, a, c)
    ensures r.Piece(a, c) == r.Piece(a, b).Plus(r.Piece(b, c))
  {
    ChordOrPoint(r, a, b, c);
    ChordPiecesAdd(r, a, b, c);
  }

  lemma ChordOrPoint(r: Ramp, a: real, b: real, c: real)
    requires a <= b <= c && Under(r, a) && Straight(r, a, c)
    ensures r.At(b) * (c - a) == r.At(a) * (c - b) + r.At(c) * (b - a)
    ensures (r.At(a) >= 0.0 && r.At(b) >= 0.0 && r.At(c) >= 0.0) || (r.At(a) <= 0.0 && r.At(b) <= 0.0 && r.At(c) <= 0.0)
  {
    if a < c {
      ChordBetweenBends(r, a, b, c);
    } else {
      assert b == a && c == a;
    }
  }

  lemma ChordPiecesAdd(r: Ramp, a: real, b: real, c: real)
    requires a <= b <= c && r.At(b) * (c - a) == r.At(a) * (c - b) + r.At(c) * (b - a)
    requires (r.At(a) >= 0.0 && r.At(b) >= 0.0 && r.At(c) >= 0.0) || (r.At(a) <= 0.0 && r.At(b) <= 0.0 && r.At(c) <= 0.0)
    ensures r.Piece(a, c) == r.Piece(a, b).Plus(r.Piece(b, c))
  {
    var fa, fb, fc := r.At(a), r.At(b), r.At(c);
    var up := fa >= 0.0 && fb >= 0.0 && fc >= 0.0;
    TrapezoidSplits(fa, fb, fc, a, b, c);
    PieceIsTrapezoid(r, a, b, up);
    PieceIsTrapezoid(r, b, c, up);
    PieceIsTrapezoid(r, a, c, up);
  }

  lemma PieceIsTrapezoid(r: Ramp, a: real, b: real, up: bool)
    requires a <= b
    requires if up then r.At(a) >= 0.0 && r.At(b) >= 0.0 else r.At(a) <= 0.0 && r.At(b) <= 0.0
    ensures
      var energy := Trapezoid(r.At(a), r.At(b), b - a);
      r.Piece(a, b) == if up then MovedEnergy(0.0, energy) else MovedEnergy(-energy, 0.0)
  {
    SignOfTrapezoid(r.At(a), r.At(b), b - a);
    assert r.StraightLine(a, b) == Trapezoid(r.At(a), r.At(b), b - a);
  }

  lemma NoWidth(r: Ramp, a: real)
    ensures r.Piece(a, a) == NOTHING
  {
  }

  function Trapezoid(fa: real, fb: real, width: real): real { (fa + fb) / 2.0 * (width / 3600.0) }

  lemma TrapezoidSplits(fa: real, fb: real, fc: real, a: real, b: real, c: real)
    requires fb * (c - a) == fa * (c - b) + fc * (b - a)
    ensures Trapezoid(fa, fc, c - a) == Trapezoid(fa, fb, b - a) + Trapezoid(fb, fc, c - b)
  {
    var x, y := b - a, c - b;
    assert (fa + fc) * (x + y) == (fa + fb) * x + (fb + fc) * y;
    assert Trapezoid(fa, fc, c - a) == (fa + fc) * (x + y) / 7200.0;
    assert Trapezoid(fa, fb, x) == (fa + fb) * x / 7200.0;
    assert Trapezoid(fb, fc, y) == (fb + fc) * y / 7200.0;
  }

  lemma SignOfTrapezoid(fa: real, fb: real, width: real)
    requires width >= 0.0
    ensures fa >= 0.0 && fb >= 0.0 ==> Trapezoid(fa, fb, width) >= 0.0
    ensures fa <= 0.0 && fb <= 0.0 ==> Trapezoid(fa, fb, width) <= 0.0
  {
    if fa >= 0.0 && fb >= 0.0 {
      assert (fa + fb) / 2.0 >= 0.0 && width / 3600.0 >= 0.0;
    } else if fa <= 0.0 && fb <= 0.0 {
      assert (fa + fb) / 2.0 <= 0.0 && width / 3600.0 >= 0.0;
    }
  }

  // --- Additivity ---

  ghost predicate Ordered(bends: seq<real>)
  {
    forall i, j | 0 <= i < j < |bends| :: bends[i] < bends[j]
  }

  /** The listed bends are in order and leave none out between `a` and `c`. */
  ghost predicate Covers(r: Ramp, bends: seq<real>, a: real, c: real)
  {
    Ordered(bends) && forall bend | bend in r.Bends() && a < bend < c :: bend in bends
  }

  lemma BendsCover(r: Ramp, a: real, c: real)
    ensures Covers(r, r.Bends(), a, c)
  {
    r.CrossingPrecedesArrival();
  }

  lemma NarrowCover(r: Ramp, bends: seq<real>, a: real, c: real, x: real, z: real)
    requires bends != [] && Covers(r, bends, a, c) && a <= x && z <= c
    requires bends[0] <= x || z <= bends[0]
    ensures Covers(r, bends[1..], x, z)
  {
    forall bend | bend in r.Bends() && x < bend < z ensures bend in bends[1..] {
      assert bend in bends && bend != bends[0];
    }
  }

  lemma StraightBefore(r: Ramp, bends: seq<real>, a: real, c: real, z: real)
    requires Covers(r, bends, a, c) && z <= c
    requires bends == [] || z <= bends[0]
    ensures Straight(r, a, z)
  {
    forall bend | bend in bends ensures bends[0] <= bend {
      var i :| 0 <= i < |bends| && bends[i] == bend;
    }
  }

  lemma {:induction false} NoCutBefore(r: Ramp, bends: seq<real>, a: real, z: real)
    requires Ordered(bends) && (bends == [] || z <= bends[0])
    ensures r.MovedOver(bends, a, z) == r.Piece(a, z)
  {
    if bends != [] {
      NoCutBefore(r, bends[1..], a, z);
    }
  }

  lemma {:induction false} MovedSplits(r: Ramp, bends: seq<real>, a: real, b: real, c: real)
    requires a <= b <= c && Under(r, a) && Covers(r, bends, a, c)
    ensures r.MovedOver(bends, a, c) == r.MovedOver(bends, a, b).Plus(r.MovedOver(bends, b, c))
  {
    if bends == [] {
      StraightBefore(r, bends, a, c, c);
      PieceSplits(r, a, b, c);
    } else {
      var bend := bends[0];
      if bend <= a || c <= bend {
        NarrowCover(r, bends, a, c, a, c);
        MovedSplits(r, bends[1..], a, b, c);
      } else if bend < b {
        NarrowCover(r, bends, a, c, bend, c);
        MovedSplits(r, bends[1..], bend, b, c);
      } else {
        // Nothing cuts before the first bend.
        StraightBefore(r, bends, a, c, bend);
        PieceSplits(r, a, b, bend);
        NoCutBefore(r, bends[1..], a, b);
        NoWidth(r, b);
      }
    }
  }

  /** The energy moved over a span is the sum over any two parts of it, wherever
      the flow arrives or crosses zero. */
  lemma MovedIsAdditive(r: Ramp, a: real, b: real, c: real)
    requires a <= b <= c && Under(r, a)
    ensures r.Moved(a, c) == r.Moved(a, b).Plus(r.Moved(b, c))
  {
    BendsCover(r, a, c);
    MovedSplits(r, r.Bends(), a, b, c);
  }

  // --- It is the integral ---

  /** A flow in one direction, and a span's energy in it. */
  function Side(discharging: bool, flow: real): real { RMax(if discharging then flow else -flow, 0.0) }
  function Energy(discharging: bool, m: MovedEnergy): real { if discharging then m.discharged else m.charged }

  ghost predicate Between(r: Ramp, up: bool, lo: real, hi: real, t: real)
  {
    lo <= Side(up, r.At(t)) <= hi
  }

  lemma BetweenHolds(r: Ramp, up: bool, lo: real, hi: real, a: real, b: real, c: real)
    requires Under(r, a) && a <= b <= c && Between(r, up, lo, hi, a) && Between(r, up, lo, hi, c)
    ensures Between(r, up, lo, hi, b)
  {
    FlowIsMonotone(r, a, b);
    FlowIsMonotone(r, b, c);
  }

  lemma TrapezoidBetween(fa: real, fb: real, width: real, lo: real, hi: real)
    requires lo <= fa <= hi && lo <= fb <= hi && 0.0 <= width
    ensures lo * width / 3600.0 <= Trapezoid(fa, fb, width) <= hi * width / 3600.0
  {
    var mean := (fa + fb) / 2.0;
    assert lo * width <= mean * width <= hi * width;
    assert Trapezoid(fa, fb, width) == mean * width / 3600.0;
  }

  /** What a constant flow carries in `width` seconds. */
  function Carried(flow: real, width: real): real { flow * width / 3600.0 }

  lemma CarriedAdds(flow: real, first: real, second: real)
    ensures Carried(flow, first) + Carried(flow, second) == Carried(flow, first + second)
  {
  }

  lemma PieceBetween(r: Ramp, a: real, c: real, up: bool, lo: real, hi: real)
    requires a <= c && Under(r, a) && Straight(r, a, c)
    requires Between(r, up, lo, hi, a) && Between(r, up, lo, hi, c)
    ensures Carried(lo, c - a) <= Energy(up, r.Piece(a, c)) <= Carried(hi, c - a)
  {
    hide Trapezoid, Ramp.At, Ramp.Piece;
    var fa, fc := r.At(a), r.At(c);
    var rising := fa >= 0.0 && fc >= 0.0;
    assert rising || (fa <= 0.0 && fc <= 0.0) by { ChordOrPoint(r, a, a, c); }
    PieceIsTrapezoid(r, a, c, rising);
    OneSidedEnergy(fa, fc, c - a, rising, up, lo, hi);
  }

  lemma OneSidedEnergy(fa: real, fc: real, width: real, rising: bool, up: bool, lo: real, hi: real)
    requires if rising then fa >= 0.0 && fc >= 0.0 else fa <= 0.0 && fc <= 0.0
    requires 0.0 <= width && lo <= Side(up, fa) <= hi && lo <= Side(up, fc) <= hi
    ensures
      var energy := Trapezoid(fa, fc, width);
      var m := if rising then MovedEnergy(0.0, energy) else MovedEnergy(-energy, 0.0);
      lo * width / 3600.0 <= Energy(up, m) <= hi * width / 3600.0
  {
    TrapezoidBetween(Side(up, fa), Side(up, fc), width, lo, hi);
    if rising == up {
      assert Trapezoid(-fa, -fc, width) == -Trapezoid(fa, fc, width);
    } else {
      assert Trapezoid(0.0, 0.0, width) == 0.0;
    }
  }

  lemma {:induction false} MovedBetween(r: Ramp, bends: seq<real>, a: real, c: real, up: bool, lo: real, hi: real)
    requires a <= c && Under(r, a) && Covers(r, bends, a, c)
    requires Between(r, up, lo, hi, a) && Between(r, up, lo, hi, c)
    ensures Carried(lo, c - a) <= Energy(up, r.MovedOver(bends, a, c)) <= Carried(hi, c - a)
  {
    hide Carried;
    if bends == [] {
      StraightBefore(r, bends, a, c, c);
      PieceBetween(r, a, c, up, lo, hi);
    } else {
      var bend := bends[0];
      if a < bend < c {
        BetweenHolds(r, up, lo, hi, a, bend, c);
        StraightBefore(r, bends, a, c, bend);
        PieceBetween(r, a, bend, up, lo, hi);
        NarrowCover(r, bends, a, c, bend, c);
        MovedBetween(r, bends[1..], bend, c, up, lo, hi);
        CarriedAdds(lo, bend - a, c - bend);
        CarriedAdds(hi, bend - a, c - bend);
        assert bend - a + (c - bend) == c - a;
      } else {
        NarrowCover(r, bends, a, c, a, c);
        MovedBetween(r, bends[1..], a, c, up, lo, hi);
      }
    }
  }

  /** The energy moved in one direction lies between the least and the greatest
      flow in that direction times the span. */
  lemma MovedWithinItsFlow(r: Ramp, a: real, c: real, up: bool)
    requires a <= c && Under(r, a)
    ensures WithinFlow(r, up, a, c, Energy(up, r.Moved(a, c)))
  {
    BendsCover(r, a, c);
    EndsAreBetween(r, a, c, up);
    hide Low, High, Energy, Covers, Between, Ramp.At, Ramp.MovedOver, Ramp.Bends;
    MovedBetween(r, r.Bends(), a, c, up, Low(r, up, a, c), High(r, up, a, c));
  }

  function Low(r: Ramp, up: bool, x: real, y: real): real { RMin(Side(up, r.At(x)), Side(up, r.At(y))) }
  function High(r: Ramp, up: bool, x: real, y: real): real { RMax(Side(up, r.At(x)), Side(up, r.At(y))) }

  ghost predicate WithinFlow(r: Ramp, up: bool, x: real, y: real, energy: real)
  {
    Carried(Low(r, up, x, y), y - x) <= energy <= Carried(High(r, up, x, y), y - x)
  }

  lemma EndsAreBetween(r: Ramp, a: real, c: real, up: bool)
    ensures
      var lo, hi := Low(r, up, a, c), High(r, up, a, c);
      Between(r, up, lo, hi, a) && Between(r, up, lo, hi, c)
  {
  }

  // --- No other measure of energy is one ---

  /** What an integral of one direction's flow over the spans within [a, c] must be:
      additive, and on each span between the least and greatest flow times its width. */
  ghost predicate Integral(r: Ramp, up: bool, a: real, c: real, f: (real, real) -> real)
  {
    && (forall x, y, z | a <= x <= y <= z <= c :: f(x, z) == f(x, y) + f(y, z))
    && (forall x, y | a <= x <= y <= c :: WithinFlow(r, up, x, y, f(x, y)))
  }

  function Doublings(k: nat): (n: real)
    ensures n >= k as real + 1.0
  {
    if k == 0 then 1.0 else 2.0 * Doublings(k - 1)
  }

  lemma FlowChangesSlowly(r: Ramp, up: bool, x: real, y: real)
    requires x <= y
    ensures High(r, up, x, y) - Low(r, up, x, y) <= SLEW_RATE * (y - x)
  {
    var tx, ty := SLEW_RATE * RMax(x - r.started, 0.0), SLEW_RATE * RMax(y - r.started, 0.0);
    assert 0.0 <= tx <= ty <= tx + SLEW_RATE * (y - x);
  }

  /** How far apart two figures within one span's bounds can be. */
  function Room(width: real): real { SLEW_RATE * width * width / 3600.0 }

  /** An error magnified. */
  function Times(n: real, e: real): real { n * RAbs(e) }

  lemma SpanError(r: Ramp, up: bool, x: real, y: real, e: real, g: real)
    requires x <= y && WithinFlow(r, up, x, y, e) && WithinFlow(r, up, x, y, g)
    ensures Times(1.0, e - g) <= Room(y - x)
  {
    FlowChangesSlowly(r, up, x, y);
    hide Low, High, Room, Times, Carried;
    Pinned(Low(r, up, x, y), High(r, up, x, y), y - x, e, g);
  }

  lemma Pinned(low: real, high: real, width: real, e: real, g: real)
    requires 0.0 <= width && high - low <= SLEW_RATE * width
    requires Carried(low, width) <= e <= Carried(high, width) && Carried(low, width) <= g <= Carried(high, width)
    ensures Times(1.0, e - g) <= Room(width)
  {
    var least, most, square := Carried(low, width), Carried(high, width), width * (SLEW_RATE * width);
    Scaled(width, high - low, SLEW_RATE * width);
    assert most - least == width * (high - low) / 3600.0;
    assert most - least <= square / 3600.0;
    assert Room(width) == square / 3600.0;
    assert Times(1.0, e - g) == RAbs(e - g);
  }

  lemma Splits(r: Ramp, up: bool, a: real, c: real, f: (real, real) -> real, x: real, m: real, y: real)
    requires Integral(r, up, a, c, f) && a <= x <= m <= y <= c
    ensures f(x, y) == f(x, m) + f(m, y)
  {
  }

  /** Halving the spans `k` times leaves that fraction of the error. */
  lemma {:induction false} HalvedError(r: Ramp, up: bool, a: real, c: real, f: (real, real) -> real,
                                       g: (real, real) -> real, x: real, y: real, k: nat)
    requires Integral(r, up, a, c, f) && Integral(r, up, a, c, g) && a <= x <= y <= c
    ensures Times(Doublings(k), f(x, y) - g(x, y)) <= Room(y - x)
    decreases k
  {
    if k == 0 {
      SpanError(r, up, x, y, f(x, y), g(x, y));
    } else {
      hide Integral, Room, Times;
      var m := (x + y) / 2.0;
      HalvedError(r, up, a, c, f, g, x, m, k - 1);
      HalvedError(r, up, a, c, f, g, m, y, k - 1);
      Splits(r, up, a, c, f, x, m, y);
      Splits(r, up, a, c, g, x, m, y);
      assert y - m == m - x && y - x == 2.0 * (m - x);
      TwoHalves(Doublings(k - 1), f(x, m) - g(x, m), f(m, y) - g(m, y), m - x);
      assert f(x, y) - g(x, y) == f(x, m) - g(x, m) + (f(m, y) - g(m, y));
    }
  }

  lemma TwoHalves(n: real, e1: real, e2: real, half: real)
    requires n > 0.0 && Times(n, e1) <= Room(half) && Times(n, e2) <= Room(half)
    ensures Times(2.0 * n, e1 + e2) <= Room(2.0 * half)
  {
    var e := RAbs(e1) + RAbs(e2);
    assert n * e == n * RAbs(e1) + n * RAbs(e2);
    Scaled(n, RAbs(e1 + e2), e);
    assert Room(2.0 * half) == 4.0 * Room(half);
  }

  lemma Scaled(n: real, x: real, y: real)
    requires n >= 0.0 && x <= y
    ensures n * x <= n * y
  {
  }

  /** An error smaller than every fraction of a constant is none. */
  lemma NoErrorLeft(e: real, k: nat, n: real, most: real)
    requires e >= 0.0 && k as real * e > most && n >= k as real
    ensures n * e > most
  {
    assert (n - k as real) * e >= 0.0;
  }

  lemma IntegralsAgree(r: Ramp, up: bool, a: real, c: real, f: (real, real) -> real, g: (real, real) -> real)
    requires a <= c && Integral(r, up, a, c, f) && Integral(r, up, a, c, g)
    ensures f(a, c) == g(a, c)
  {
    var e, most := RAbs(f(a, c) - g(a, c)), Room(c - a);
    if e > 0.0 {
      var k := Exceeds(most, e);
      HalvedError(r, up, a, c, f, g, a, c, k);
      NoErrorLeft(e, k, Doublings(k), most);
      assert false;
    }
  }

  lemma Exceeds(most: real, e: real) returns (k: nat)
    requires e > 0.0
    ensures k as real * e > most
  {
    var q := RMax(most / e, 0.0);
    k := q.Floor + 1;
    assert (k as real - most / e) * e > 0.0;
  }

  /** The energy moved is the integral of its direction's flow: it has the two
      properties of one, and on every span from the ramp's start on it is the only
      figure any measure with those properties gives. */
  lemma MovedIsTheIntegral(r: Ramp, a: real, c: real, up: bool, f: (real, real) -> real)
    requires a <= c && Under(r, a)
    ensures Integral(r, up, a, c, (x, y) => Energy(up, r.Moved(x, y)))
    ensures Integral(r, up, a, c, f) ==> f(a, c) == Energy(up, r.Moved(a, c))
  {
    var g := (x: real, y: real) => Energy(up, r.Moved(x, y));
    forall x, y, z | a <= x <= y <= z <= c ensures g(x, z) == g(x, y) + g(y, z) {
      MovedIsAdditive(r, x, y, z);
    }
    forall x, y | a <= x <= y <= c ensures WithinFlow(r, up, x, y, g(x, y)) {
      MovedWithinItsFlow(r, x, y, up);
    }
    if Integral(r, up, a, c, f) { IntegralsAgree(r, up, a, c, f, g); }
  }

  /** Additivity holds from exactly the instants a ramp has started by, or for
      one that holds still: the bend at the start itself is not a cut. */
  lemma AdditiveExactlyOnceStarted(r: Ramp, a: real)
    ensures Under(r, a) <==>
            forall b, c | a <= b <= c :: r.Moved(a, c) == r.Moved(a, b).Plus(r.Moved(b, c))
  {
    if Under(r, a) {
      forall b, c | a <= b <= c ensures r.Moved(a, c) == r.Moved(a, b).Plus(r.Moved(b, c)) {
        MovedIsAdditive(r, a, b, c);
      }
    } else {
      var b, c := r.started, r.Bends()[0];
      BeforeTheStart(r, a, b, c);
      assert r.Moved(a, c) != r.Moved(a, b).Plus(r.Moved(b, c));
    }
  }

  lemma BeforeTheStart(r: Ramp, a: real, b: real, c: real)
    requires !Under(r, a) && b == r.started && c == r.Bends()[0]
    ensures a < b < c && r.Moved(a, c) != r.Moved(a, b).Plus(r.Moved(b, c))
  {
    r.CrossingPrecedesArrival();
    assert Ordered(r.Bends());
    NoCutBefore(r, r.Bends(), a, c);
    NoCutBefore(r, r.Bends(), a, b);
    NoCutBefore(r, r.Bends(), b, c);
    FlowShape(r, c);
    assert r.At(a) == r.origin && r.At(b) == r.origin && r.At(c) != r.origin;
    NetOfPiece(r, a, b);
    NetOfPiece(r, b, c);
    NetOfPiece(r, a, c);
    BentTrapezoid(r.origin, r.At(c), b - a, c - b);
  }

  function Net(m: MovedEnergy): real { m.discharged - m.charged }

  lemma NetOfPiece(r: Ramp, a: real, b: real)
    requires a <= b
    ensures Net(r.Piece(a, b)) == Trapezoid(r.At(a), r.At(b), b - a)
  {
    assert r.StraightLine(a, b) == Trapezoid(r.At(a), r.At(b), b - a);
    assert Net(r.Piece(a, b)) == r.StraightLine(a, b);
  }

  lemma BentTrapezoid(o: real, f: real, x: real, y: real)
    requires x > 0.0 && f != o
    ensures Trapezoid(o, f, x + y) != Trapezoid(o, o, x) + Trapezoid(o, f, y)
  {
    assert Trapezoid(o, f, x + y) - Trapezoid(o, o, x) - Trapezoid(o, f, y) == (f - o) * x / 7200.0;
    assert (f - o) * x != 0.0;
  }
}
