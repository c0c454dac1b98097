/** The samplers and the coordinator as a transition system: every interleaving
    of waking, answering, failing or hanging sources with the loop's takes,
    writes and requests. Samples carry where, when and for which round they were
    taken, so what a decision mixed can be read off its record. */
module Protocol {
  import opened Units
  import opened Worlds
  import opened Scan
  import R = Run

  datatype Source = TheMeter | TheCharger | Device(id: DeviceId)

  /** `began` and `serial` are places in the order of all steps; `landed` is the
      monotonic instant the slot was stamped with. */
  datatype Sample = Sample(source: Source, round: Round, began: nat, serial: nat, landed: Instant)

  /** A sampler has seen the requests up to `seen`; while `busy` it has one read
      in flight, for the round it read before beginning. */
  datatype Sampler = Sampler(seen: Round, busy: Option<(Round, nat)>)

  /** What a take returned, the step it was made at, and the slot's stamp then. */
  datatype Take = Take(step: nat, lastGood: Instant, delivery: Delivery<Sample>)

  datatype Phase =
    | Resting
    | Opening(scanNow: Instant)
    | Reading(scanNow: Instant, fleet: seq<Take>)
    | Acting

  datatype TickRecord = TickRecord(
    round: Round,
    scanNow: Instant,
    writesEnded: nat,        // when the writes of all earlier ticks had ended
    fleet: seq<Take>,        // one per registered battery, in id order
    meter: Take,
    verdict: R.Verdict<Sample>)

  datatype System = System(
    devices: set<DeviceId>,
    hasCharger: bool,
    window: nat,
    steps: nat,
    round: Round,            // the value of the watch cell
    requestedAt: nat,        // when it was last published
    writesEnded: nat,
    phase: Phase,
    slots: map<Source, SlotState<Sample>>,
    samplers: map<Source, Sampler>,
    served: seq<Sample>,     // every sample ever handed out fresh, in order
    ticks: seq<TickRecord>)
  {
    function Sources(): set<Source>
    {
      {TheMeter} + (if hasCharger then {TheCharger} else {}) + (set id | id in devices :: Device(id))
    }

    function Fleet(): seq<DeviceId> { Ascending(devices) }
  }

  datatype Event =
    | Wake(source: Source)
    | Deliver(source: Source, at: Clock, now: Instant)
    | Fail(source: Source)
    | TickBegins(scanNow: Instant)
    | TakeCharger
    | TakeDevice
    | TakeMeter
    | Write
    | Publish

  /** Nothing sampled, the first round already asked for. */
  ghost predicate Init(s: System, openedAt: Instant)
  {
    && s.steps == s.requestedAt == s.writesEnded == 0 && s.round == 1
    && s.phase == Resting
    && s.slots == (map source | source in s.Sources() :: OpenedSlot<Sample>(openedAt))
    && s.samplers == (map source | source in s.Sources() :: Sampler(0, None))
    && s.served == [] && s.ticks == []
  }

  function Tagged(fleet: seq<Take>): seq<R.Taken<Sample>>
  {
    seq(|fleet|, i requires 0 <= i < |fleet| => R.Taken(i, fleet[i].delivery))
  }

  function FreshOf(d: Delivery<Sample>): seq<Sample> { if d.Fresh? then [d.reading] else [] }

  predicate Enabled(s: System, e: Event)
  {
    match e
    case Wake(source) => source in s.samplers && s.samplers[source].busy.None? && s.samplers[source].seen != s.round
    case Deliver(source, _, _) => source in s.slots && source in s.samplers && s.samplers[source].busy.Some?
    case Fail(source) => source in s.slots && source in s.samplers && s.samplers[source].busy.Some?
    case TickBegins(_) => s.phase == Resting
    case TakeCharger => s.phase.Opening? && (s.hasCharger ==> TheCharger in s.slots)
    case TakeDevice =>
      s.phase.Reading? && |s.phase.fleet| < |s.Fleet()| && Device(s.Fleet()[|s.phase.fleet|]) in s.slots
    case TakeMeter => s.phase.Reading? && |s.phase.fleet| == |s.Fleet()| && TheMeter in s.slots
    case Write => s.phase == Acting
    case Publish => s.phase == Acting
  }

  function Stepped(s: System, e: Event): System
    requires Enabled(s, e)
  {
    var n := s.steps + 1;
    match e
    case Wake(source) =>
      // The round is read before the sample begins.
      s.(steps := n, samplers := s.samplers[source := Sampler(s.round, Some((s.round, n)))])
    case Deliver(source, at, now) =>
      var (round, began) := s.samplers[source].busy.value;
      s.(steps := n,
         samplers := s.samplers[source := s.samplers[source].(busy := None)],
         slots := s.slots[source := s.slots[source].Delivered(round, at, now, Sample(source, round, began, n, now))])
    case Fail(source) =>
      s.(steps := n,
         samplers := s.samplers[source := s.samplers[source].(busy := None)],
         slots := s.slots[source := s.slots[source].Failed()])
    case TickBegins(scanNow) => s.(steps := n, phase := Opening(scanNow))
    case TakeCharger =>
      if !s.hasCharger then s.(steps := n, phase := Reading(s.phase.scanNow, []))
      else
        var (slot, d) := s.slots[TheCharger].Taken(s.window, s.round, s.phase.scanNow);
        s.(steps := n, phase := Reading(s.phase.scanNow, []),
           slots := s.slots[TheCharger := slot], served := s.served + FreshOf(d))
    case TakeDevice =>
      var source := Device(s.Fleet()[|s.phase.fleet|]);
      var (slot, d) := s.slots[source].Taken(s.window, s.round, s.phase.scanNow);
      s.(steps := n,
         phase := s.phase.(fleet := s.phase.fleet + [Take(s.steps, s.slots[source].lastGood, d)]),
         slots := s.slots[source := slot], served := s.served + FreshOf(d))
    case TakeMeter =>
      var (slot, d) := s.slots[TheMeter].Taken(s.window, s.round, s.phase.scanNow);
      var verdict := R.Judge(R.FleetOf(Tagged(s.phase.fleet)), d);
      s.(steps := n, phase := Acting,
         slots := s.slots[TheMeter := slot], served := s.served + FreshOf(d),
         ticks := s.ticks + [TickRecord(s.round, s.phase.scanNow, s.writesEnded, s.phase.fleet,
                                        Take(s.steps, s.slots[TheMeter].lastGood, d), verdict)])
    case Write => s.(steps := n, writesEnded := n)
    case Publish => s.(steps := n, round := s.round + 1, requestedAt := n, phase := Resting)
  }

  // --- What every tick's record says ---

  /** A fresh sample answered this round, began after all earlier ticks' writes
      had ended, and landed within the blind window. */
  ghost predicate GoodTake(source: Source, round: Round, writesEnded: nat, scanNow: Instant, window: nat, t: Take)
  {
    && (t.delivery.Down? <==> AgeAt(t.lastGood, scanNow) > window)
    && (t.delivery.Fresh? ==>
          && t.delivery.reading.source == source
          && t.delivery.reading.round == round
          && t.delivery.reading.began > writesEnded
          && t.delivery.reading.landed == t.lastGood)
  }

  ghost predicate GoodTakes(s: System, round: Round, writesEnded: nat, scanNow: Instant, fleet: seq<Take>)
    requires |fleet| <= |s.Fleet()|
  {
    forall i | 0 <= i < |fleet| ::
      GoodTake(Device(s.Fleet()[i]), round, writesEnded, scanNow, s.window, fleet[i])
  }

  ghost predicate GoodRecord(s: System, r: TickRecord)
  {
    && |r.fleet| == |s.Fleet()|
    && GoodTakes(s, r.round, r.writesEnded, r.scanNow, r.fleet)
    && GoodTake(TheMeter, r.round, r.writesEnded, r.scanNow, s.window, r.meter)
    && r.verdict == R.Judge(R.FleetOf(Tagged(r.fleet)), r.meter.delivery)
  }

  // --- The invariant ---

  /** A read stamped with the current round began after it was asked for. */
  ghost predicate Stamped(s: System, round: Round, began: nat)
  {
    round <= s.round && began <= s.steps && (round == s.round ==> began > s.requestedAt)
  }

  ghost predicate SlotInv(s: System, source: Source, slot: SlotState<Sample>)
  {
    slot.pending.Some? ==>
      var p := slot.pending.value;
      && p.reading.source == source && p.reading.round == p.round
      && p.reading.landed == slot.lastGood
      && p.reading.serial <= s.steps
      && Stamped(s, p.round, p.reading.began)
      && (forall x | x in s.served && x.source == source :: x.serial < p.reading.serial)
  }

  ghost predicate Inv(s: System)
  {
    && s.slots.Keys == s.samplers.Keys == s.Sources()
    && s.writesEnded <= s.steps && s.requestedAt <= s.steps
    && (s.phase != Acting ==> s.writesEnded <= s.requestedAt)
    && (forall source | source in s.samplers && s.samplers[source].busy.Some? ::
          Stamped(s, s.samplers[source].busy.value.0, s.samplers[source].busy.value.1))
    && (forall source | source in s.slots :: SlotInv(s, source, s.slots[source]))
    && (forall x | x in s.served :: x.serial <= s.steps)
    && (forall i, j | 0 <= i < j < |s.served| :: s.served[i] != s.served[j])
    && (s.phase.Reading? ==>
          |s.phase.fleet| <= |s.Fleet()|
          && GoodTakes(s, s.round, s.writesEnded, s.phase.scanNow, s.phase.fleet))
    && (forall r | r in s.ticks :: GoodRecord(s, r))
  }

  lemma InitHolds(s: System, openedAt: Instant)
    requires Init(s, openedAt)
    ensures Inv(s)
  {
  }

  /** Taking from a slot yields a good take and keeps what was served unique. */
  lemma TakeIsGood(s: System, source: Source, scanNow: Instant)
    requires source in s.slots && SlotInv(s, source, s.slots[source]) && s.writesEnded <= s.requestedAt
    ensures
      var (slot, d) := s.slots[source].Taken(s.window, s.round, scanNow);
      && GoodTake(source, s.round, s.writesEnded, scanNow, s.window, Take(s.steps, s.slots[source].lastGood, d))
      && (d.Fresh? ==> slot.pending.None? && d.reading.serial <= s.steps && d.reading.source == source)
      && (forall x | x in FreshOf(d) :: x !in s.served)
      && (slot.pending.Some? ==> slot == s.slots[source] && d.Down?)
  {
  }

  lemma ServeKeepsInv(s: System, source: Source, scanNow: Instant, s1: System)
    requires Inv(s) && source in s.slots && s.phase != Acting
    requires
      var (slot, d) := s.slots[source].Taken(s.window, s.round, scanNow);
      s1.slots == s.slots[source := slot] && s1.served == s.served + FreshOf(d)
    requires s1.steps == s.steps + 1 && s1.round == s.round && s1.requestedAt == s.requestedAt
    requires s1.samplers == s.samplers
    ensures forall other | other in s1.slots :: SlotInv(s1, other, s1.slots[other])
    ensures forall x | x in s1.served :: x.serial <= s1.steps
    ensures forall i, j | 0 <= i < j < |s1.served| :: s1.served[i] != s1.served[j]
    ensures forall other | other in s1.samplers && s1.samplers[other].busy.Some? ::
              Stamped(s1, s1.samplers[other].busy.value.0, s1.samplers[other].busy.value.1)
  {
    TakeIsGood(s, source, scanNow);
    var (slot, d) := s.slots[source].Taken(s.window, s.round, scanNow);
    forall other | other in s1.slots ensures SlotInv(s1, other, s1.slots[other]) {
      assert SlotInv(s, other, s.slots[other]);
    }
  }

  lemma WakeKeepsInv(s: System, source: Source)
    requires Inv(s) && Enabled(s, Wake(source))
    ensures Inv(Stepped(s, Wake(source)))
  {
    var s1 := Stepped(s, Wake(source));
    forall other | other in s1.slots ensures SlotInv(s1, other, s1.slots[other]) {
      assert SlotInv(s, other, s.slots[other]);
    }
    KeepRecords(s, s1);
  }

  lemma DeliverKeepsInv(s: System, e: Event)
    requires Inv(s) && Enabled(s, e) && e.Deliver?
    ensures Inv(Stepped(s, e))
  {
    var s1 := Stepped(s, e);
    forall other | other in s1.slots ensures SlotInv(s1, other, s1.slots[other]) {
      assert SlotInv(s, other, s.slots[other]);
    }
    KeepRecords(s, s1);
  }

  lemma FailKeepsInv(s: System, source: Source)
    requires Inv(s) && Enabled(s, Fail(source))
    ensures Inv(Stepped(s, Fail(source)))
  {
    var s1 := Stepped(s, Fail(source));
    forall other | other in s1.slots ensures SlotInv(s1, other, s1.slots[other]) {
      assert SlotInv(s, other, s.slots[other]);
    }
    KeepRecords(s, s1);
  }

  /** Records and takes speak of the devices, the window and their own figures,
      so a step that leaves those alone keeps them good. */
  lemma KeepRecords(s: System, s1: System)
    requires s1.devices == s.devices && s1.window == s.window
    ensures forall r :: GoodRecord(s, r) <==> GoodRecord(s1, r)
    ensures forall round, ended, now, fleet | |fleet| <= |s.Fleet()| ::
              GoodTakes(s, round, ended, now, fleet) <==> GoodTakes(s1, round, ended, now, fleet)
  {
  }

  lemma CoordinatorKeepsInv(s: System, e: Event)
    requires Inv(s) && Enabled(s, e) && (e.TickBegins? || e.Write? || e.Publish?)
    ensures Inv(Stepped(s, e))
  {
    var s1 := Stepped(s, e);
    forall other | other in s1.slots ensures SlotInv(s1, other, s1.slots[other]) {
      assert SlotInv(s, other, s.slots[other]);
    }
    KeepRecords(s, s1);
  }

  lemma TakeChargerKeepsInv(s: System)
    requires Inv(s) && Enabled(s, TakeCharger)
    ensures Inv(Stepped(s, TakeCharger))
  {
    var s1 := Stepped(s, TakeCharger);
    KeepRecords(s, s1);
    if s.hasCharger {
      ServeKeepsInv(s, TheCharger, s.phase.scanNow, s1);
    } else {
      forall other | other in s1.slots ensures SlotInv(s1, other, s1.slots[other]) {
        assert SlotInv(s, other, s.slots[other]);
      }
    }
  }

  lemma TakeDeviceKeepsInv(s: System)
    requires Inv(s) && Enabled(s, TakeDevice)
    ensures Inv(Stepped(s, TakeDevice))
  {
    var s1 := Stepped(s, TakeDevice);
    var source := Device(s.Fleet()[|s.phase.fleet|]);
    KeepRecords(s, s1);
    TakeIsGood(s, source, s.phase.scanNow);
    ServeKeepsInv(s, source, s.phase.scanNow, s1);
  }

  lemma TakeMeterKeepsInv(s: System)
    requires Inv(s) && Enabled(s, TakeMeter)
    ensures Inv(Stepped(s, TakeMeter))
  {
    var s1 := Stepped(s, TakeMeter);
    KeepRecords(s, s1);
    TakeIsGood(s, TheMeter, s.phase.scanNow);
    ServeKeepsInv(s, TheMeter, s.phase.scanNow, s1);
    assert GoodRecord(s1, s1.ticks[|s.ticks|]);
  }

  lemma StepKeepsInv(s: System, e: Event)
    requires Inv(s) && Enabled(s, e)
    ensures Inv(Stepped(s, e))
  {
    match e
    case Wake(source) => WakeKeepsInv(s, source);
    case Deliver(_, _, _) => DeliverKeepsInv(s, e);
    case Fail(source) => FailKeepsInv(s, source);
    case TakeCharger => TakeChargerKeepsInv(s);
    case TakeDevice => TakeDeviceKeepsInv(s);
    case TakeMeter => TakeMeterKeepsInv(s);
    case _ => CoordinatorKeepsInv(s, e);
  }

  // --- Every interleaving ---

  datatype Behaviour = Behaviour(openedAt: Instant, states: seq<System>, events: seq<Event>)
  {
    ghost predicate Valid()
    {
      && |states| == |events| + 1
      && Init(states[0], openedAt)
      && (forall k | 0 <= k < |events| :: Follows(k))
    }

    ghost predicate Follows(k: nat)
      requires k < |events| && |states| == |events| + 1
    {
      Enabled(states[k], events[k]) && states[k + 1] == Stepped(states[k], events[k])
    }
  }

  lemma {:induction false} InvHolds(b: Behaviour, k: nat)
    requires b.Valid() && k < |b.states|
    ensures Inv(b.states[k])
  {
    if k == 0 {
      InitHolds(b.states[0], b.openedAt);
    } else {
      InvHolds(b, k - 1);
      assert b.Follows(k - 1);
      StepKeepsInv(b.states[k - 1], b.events[k - 1]);
    }
  }

  ghost predicate FreshFor(source: Source, r: TickRecord, window: nat, t: Take)
  {
    && t.delivery.Fresh?
    && t.delivery.reading.source == source
    && t.delivery.reading.round == r.round
    && t.delivery.reading.began > r.writesEnded
    && AgeAt(t.delivery.reading.landed, r.scanNow) <= window
  }

  /** In every interleaving a tick decides exactly when the meter and every
      registered battery are fresh, and then on their samples for its own round,
      all begun after the writes of every earlier tick had ended and all landed
      within the blind window. */
  lemma DecisionsUseOneRound(b: Behaviour, k: nat, r: TickRecord)
    requires b.Valid() && k < |b.states| && r in b.states[k].ticks
    ensures |r.fleet| == |b.states[k].Fleet()|
    ensures r.verdict.DecideOn? <==>
              FreshFor(TheMeter, r, b.states[k].window, r.meter)
              && forall i | 0 <= i < |r.fleet| ::
                   FreshFor(Device(b.states[k].Fleet()[i]), r, b.states[k].window, r.fleet[i])
    ensures r.verdict.DecideOn? ==> r.verdict.reading == r.meter.delivery.reading
  {
    InvHolds(b, k);
    var s := b.states[k];
    assert GoodRecord(s, r);
    R.VerdictMeaning(Tagged(r.fleet), r.meter.delivery);
    forall i | 0 <= i < |r.fleet|
      ensures r.fleet[i].delivery.Fresh? <==> FreshFor(Device(s.Fleet()[i]), r, s.window, r.fleet[i])
    {
      assert GoodTake(Device(s.Fleet()[i]), r.round, r.writesEnded, r.scanNow, s.window, r.fleet[i]);
      assert Tagged(r.fleet)[i].delivery == r.fleet[i].delivery;
    }
    assert r.verdict.DecideOn? <==>
           r.meter.delivery.Fresh? && forall i | 0 <= i < |r.fleet| :: Tagged(r.fleet)[i].delivery.Fresh?;
    assert forall i | 0 <= i < |r.fleet| :: Tagged(r.fleet)[i].delivery == r.fleet[i].delivery;
  }

  // --- When a source last answered ---

  /** The instant of the source's last delivery before step `k`, or of the inbox's
      opening if it has never answered. */
  function LastLanded(b: Behaviour, source: Source, k: nat): Instant
    requires k <= |b.events|
  {
    if k == 0 then b.openedAt
    else if b.events[k - 1].Deliver? && b.events[k - 1].source == source then b.events[k - 1].now
    else LastLanded(b, source, k - 1)
  }

  /** A slot's stamp is that instant, throughout every behaviour. */
  lemma {:induction false} StampIsLastLanding(b: Behaviour, source: Source, k: nat)
    requires b.Valid() && k < |b.states| && source in b.states[k].slots
    ensures b.states[k].slots[source].lastGood == LastLanded(b, source, k) && b.states[k].steps == k
  {
    if k > 0 {
      assert b.Follows(k - 1);
      var s, e := b.states[k - 1], b.events[k - 1];
      assert source in s.slots;
      StampIsLastLanding(b, source, k - 1);
    }
  }

  /** A take really made: its step took from that source's slot, and what it noted
      is when the source had last answered. */
  ghost predicate Made(b: Behaviour, k: nat, source: Source, t: Take)
    requires k < |b.states| == |b.events| + 1
  {
    && t.step < k
    && (match source
        case TheMeter => b.events[t.step] == TakeMeter
        case TheCharger => b.events[t.step] == TakeCharger
        case Device(_) => b.events[t.step] == TakeDevice)
    && t.lastGood == LastLanded(b, source, t.step)
  }

  ghost predicate AllMade(b: Behaviour, k: nat, fleet: seq<Take>)
    requires k < |b.states| == |b.events| + 1
  {
    && |fleet| <= |b.states[k].Fleet()|
    && forall i | 0 <= i < |fleet| :: Made(b, k, Device(b.states[k].Fleet()[i]), fleet[i])
  }

  ghost predicate RecordMade(b: Behaviour, k: nat, r: TickRecord)
    requires k < |b.states| == |b.events| + 1
  {
    |r.fleet| == |b.states[k].Fleet()| && AllMade(b, k, r.fleet) && Made(b, k, TheMeter, r.meter)
  }

  lemma OneTake(b: Behaviour, k: nat, source: Source, d: Delivery<Sample>)
    requires b.Valid() && 0 < k < |b.states| && source in b.states[k - 1].slots
    requires match source
             case TheMeter => b.events[k - 1] == TakeMeter
             case TheCharger => b.events[k - 1] == TakeCharger
             case Device(_) => b.events[k - 1] == TakeDevice
    ensures Made(b, k, source, Take(b.states[k - 1].steps, b.states[k - 1].slots[source].lastGood, d))
  {
    StampIsLastLanding(b, source, k - 1);
  }

  lemma StillMade(b: Behaviour, k: nat, fleet: seq<Take>)
    requires b.Valid() && 0 < k < |b.states| && AllMade(b, k - 1, fleet)
    ensures AllMade(b, k, fleet)
  {
    assert b.Follows(k - 1);
  }

  /** Every take on record, in a finished tick or the present one, was made. */
  lemma {:induction false} TakesWereMade(b: Behaviour, k: nat)
    requires b.Valid() && k < |b.states|
    ensures forall r | r in b.states[k].ticks :: RecordMade(b, k, r)
    ensures b.states[k].phase.Reading? ==> AllMade(b, k, b.states[k].phase.fleet)
  {
    if k > 0 {
      var s, e, s1 := b.states[k - 1], b.events[k - 1], b.states[k];
      assert b.Follows(k - 1);
      TakesWereMade(b, k - 1);
      assert s1.Fleet() == s.Fleet();
      if s.phase.Reading? { StillMade(b, k, s.phase.fleet); }
      forall r | r in s.ticks ensures RecordMade(b, k, r) { StillMade(b, k, r.fleet); }
      if e == TakeDevice {
        var n := |s.phase.fleet|;
        var source := Device(s.Fleet()[n]);
        OneTake(b, k, source, s.slots[source].Taken(s.window, s.round, s.phase.scanNow).1);
      } else if e == TakeMeter {
        OneTake(b, k, TheMeter, s.slots[TheMeter].Taken(s.window, s.round, s.phase.scanNow).1);
      }
    }
  }

  /** How long a source had not answered when this take was made from its slot. */
  function Silence(b: Behaviour, source: Source, t: Take, scanNow: Instant): nat
    requires t.step <= |b.events|
  {
    AgeAt(LastLanded(b, source, t.step), scanNow)
  }

  /** A tick stands the fleet down exactly when the meter or some battery had not
      answered for longer than the blind window as its slot was taken, counted from
      its last delivery or, without one, from the inbox's opening: whatever had
      failed how often and whatever the charger did. */
  lemma StandsDownOnAgeAlone(b: Behaviour, k: nat, r: TickRecord)
    requires b.Valid() && k < |b.states| && r in b.states[k].ticks
    ensures RecordMade(b, k, r)
    ensures r.verdict.StandDown? <==>
              Silence(b, TheMeter, r.meter, r.scanNow) > b.states[k].window
              || exists i | 0 <= i < |r.fleet| ::
                   Silence(b, Device(b.states[k].Fleet()[i]), r.fleet[i], r.scanNow) > b.states[k].window
  {
    InvHolds(b, k);
    TakesWereMade(b, k);
    var s := b.states[k];
    assert GoodRecord(s, r);
    R.VerdictMeaning(Tagged(r.fleet), r.meter.delivery);
    forall i | 0 <= i < |r.fleet|
      ensures Tagged(r.fleet)[i].delivery.Down? <==>
              Silence(b, Device(s.Fleet()[i]), r.fleet[i], r.scanNow) > s.window
    {
      assert GoodTake(Device(s.Fleet()[i]), r.round, r.writesEnded, r.scanNow, s.window, r.fleet[i]);
      assert Made(b, k, Device(s.Fleet()[i]), r.fleet[i]);
    }
    assert |Tagged(r.fleet)| == |r.fleet|;
    if i :| 0 <= i < |r.fleet| && Silence(b, Device(s.Fleet()[i]), r.fleet[i], r.scanNow) > s.window {
      assert Tagged(r.fleet)[i].delivery.Down?;
    }
  }

  /** No sample is ever handed out fresh twice. */
  lemma NoSampleServedTwice(b: Behaviour, k: nat)
    requires b.Valid() && k < |b.states|
    ensures forall i, j | 0 <= i < j < |b.states[k].served| :: b.states[k].served[i] != b.states[k].served[j]
  {
    InvHolds(b, k);
  }

  // --- Decisions do happen ---

  /** One meter, one battery and no charger, as the loop starts. */
  function Small(window: nat, openedAt: Instant): System
  {
    var sources := {TheMeter, Device(0)};
    System({0}, false, window, 0, 1, 0, 0, Resting,
           map source | source in sources :: OpenedSlot<Sample>(openedAt),
           map source | source in sources :: Sampler(0, None), [], [])
  }

  lemma SmallStarts(window: nat, openedAt: Instant)
    ensures Init(Small(window, openedAt), openedAt)
  {
    assert Small(window, openedAt).Sources() == {TheMeter, Device(0)};
  }

  ghost function Last(b: Behaviour): System
    requires b.Valid()
  {
    b.states[|b.states| - 1]
  }

  lemma Then(b: Behaviour, e: Event) returns (longer: Behaviour)
    requires b.Valid() && Enabled(Last(b), e)
    ensures longer.Valid() && longer.openedAt == b.openedAt && Last(longer) == Stepped(Last(b), e)
  {
    longer := b.(states := b.states + [Stepped(Last(b), e)], events := b.events + [e]);
    forall k | 0 <= k < |longer.events| ensures longer.Follows(k) {
      if k < |b.events| { assert b.Follows(k); }
    }
  }

  lemma BothAnswer(window: nat, openedAt: Instant, at: Clock, now: Instant) returns (b: Behaviour)
    ensures b.Valid() && b.openedAt == openedAt
    ensures
      var s := Last(b);
      && s.round == 1 && s.phase == Resting && s.devices == {0} && !s.hasCharger && s.window == window
      && s.ticks == [] && TheMeter in s.slots && Device(0) in s.slots
      && (forall source | source in {TheMeter, Device(0)} ::
            && s.slots[source].lastGood == now && s.slots[source].pending.Some?
            && s.slots[source].pending.value.round == 1)
  {
    SmallStarts(window, openedAt);
    b := Behaviour(openedAt, [Small(window, openedAt)], []);
    hide Init, Behaviour.Follows;
    b := Then(b, Wake(TheMeter));
    b := Then(b, Wake(Device(0)));
    b := Then(b, Deliver(TheMeter, at, now));
    b := Then(b, Deliver(Device(0), at, now));
  }

  /** When both sources answer the first round, the tick that follows decides on it:
      what the laws above say of decisions is not said of nothing. */
  lemma FirstRoundIsDecidedOn(window: nat, openedAt: Instant, at: Clock, now: Instant) returns (b: Behaviour)
    ensures b.Valid() && b.openedAt == openedAt
    ensures |Last(b).ticks| == 1 && Last(b).ticks[0].verdict.DecideOn? && Last(b).ticks[0].round == 1
  {
    b := BothAnswer(window, openedAt, at, now);
    AscendingIsSorted({0});
    hide Behaviour.Valid;
    b := Then(b, TickBegins(now));
    b := Then(b, TakeCharger);
    b := Then(b, TakeDevice);
    var fleet := Last(b).phase.fleet;
    assert |fleet| == 1 && fleet[0].delivery.Fresh?;
    b := Then(b, TakeMeter);
    var r := Last(b).ticks[0];
    R.VerdictMeaning(Tagged(r.fleet), r.meter.delivery);
  }
}
