/** Writing the day's maximum state of charge to the batteries that hold their
    own limit, and pausing between attempts. */
module Ceilings {
  import opened Units
  import opened Worlds

  const RETRY_AFTER: int := 60_000

  datatype Held =
    | Unknown
    | Written(target: Soc, at: Timestamp)
    | Failed(target: Soc, at: Timestamp)

  datatype Ceiling = Ceiling(held: Held, reported: Option<Soc>)
  {
    predicate Due(target: Soc, now: Timestamp)
    {
      match held
      case Unknown => true
      case Written(wrote, at) =>
        wrote != target
        || (reported.Some? && reported.value != target && Since(now, at) >= RETRY_AFTER)
      case Failed(tried, at) => tried != target || Since(now, at) >= RETRY_AFTER
    }

    function Recorded(target: Soc, now: Timestamp, landed: bool): Ceiling
    {
      this.(held := if landed then Written(target, now) else Failed(target, now))
    }
  }

  const UNTOUCHED := Ceiling(Unknown, None)

  function DueSet(ceilings: map<DeviceId, Ceiling>, target: Soc, now: Timestamp): set<DeviceId>
  {
    set id | id in ceilings && ceilings[id].Due(target, now)
  }

  /** A tick's writes: every driven device that is due gets one attempt. */
  function Synced(ceilings: map<DeviceId, Ceiling>, driven: set<DeviceId>, lands: set<DeviceId>,
                  target: Soc, now: Timestamp): map<DeviceId, Ceiling>
  {
    map id | id in ceilings ::
      if ceilings[id].Due(target, now) && id in driven
      then ceilings[id].Recorded(target, now, id in lands) else ceilings[id]
  }

  function SyncedOver(ceilings: map<DeviceId, Ceiling>, ids: seq<DeviceId>, driven: set<DeviceId>, lands: set<DeviceId>,
                      target: Soc, now: Timestamp): map<DeviceId, Ceiling>
  {
    map id | id in ceilings ::
      if id in ids && id in driven then ceilings[id].Recorded(target, now, id in lands) else ceilings[id]
  }

  lemma SyncOneMore(ceilings: map<DeviceId, Ceiling>, ids: seq<DeviceId>, id: DeviceId, driven: set<DeviceId>,
                    lands: set<DeviceId>, target: Soc, now: Timestamp)
    requires id in ceilings
    ensures
      var synced := SyncedOver(ceilings, ids, driven, lands, target, now);
      SyncedOver(ceilings, ids + [id], driven, lands, target, now)
      == if id in driven then synced[id := synced[id].Recorded(target, now, id in lands)] else synced
  {
  }

  lemma SyncAllDue(ceilings: map<DeviceId, Ceiling>, due: seq<DeviceId>, driven: set<DeviceId>,
                   lands: set<DeviceId>, target: Soc, now: Timestamp)
    requires forall id :: id in due <==> id in DueSet(ceilings, target, now)
    ensures SyncedOver(ceilings, due, driven, lands, target, now) == Synced(ceilings, driven, lands, target, now)
  {
    forall id | id in ceilings ensures id in due <==> ceilings[id].Due(target, now) {
      assert id in due <==> id in DueSet(ceilings, target, now);
    }
  }

  function Observed(ceilings: map<DeviceId, Ceiling>, id: DeviceId, reported: Soc): map<DeviceId, Ceiling>
  {
    if id in ceilings then ceilings[id := ceilings[id].(reported := Some(reported))] else ceilings
  }

  class CeilingSync {
    var ceilings: map<DeviceId, Ceiling>

    constructor (holders: set<DeviceId>)
      ensures ceilings == map id | id in holders :: UNTOUCHED
    {
      ceilings := map id | id in holders :: UNTOUCHED;
    }

    function DueIds(target: Soc, now: Timestamp): seq<DeviceId>
      reads this
    {
      Ascending(DueSet(ceilings, target, now))
    }

    method Observe(id: DeviceId, reported: Soc)
      modifies this
      ensures ceilings == Observed(old(ceilings), id, reported)
    {
      if id in ceilings {
        ceilings := ceilings[id := ceilings[id].(reported := Some(reported))];
      }
    }

    method Record(id: DeviceId, target: Soc, now: Timestamp, landed: bool)
      modifies this
      ensures ceilings ==
              if id in old(ceilings) then old(ceilings)[id := old(ceilings)[id].Recorded(target, now, landed)]
              else old(ceilings)
    {
      if id in ceilings {
        ceilings := ceilings[id := ceilings[id].Recorded(target, now, landed)];
      }
    }

    /** Every attempt is recorded with its time, landed or not; `lands` names the
        devices whose write, if attempted, succeeds. */
    method Sync(driven: set<DeviceId>, lands: set<DeviceId>, target: Soc, now: Timestamp)
      modifies this
      ensures ceilings == Synced(old(ceilings), driven, lands, target, now)
    {
      var due := DueIds(target, now);
      ghost var before := ceilings;
      AscendingIsSorted(DueSet(before, target, now));
      assert forall id | id in due :: id in before && before[id].Due(target, now);
      assert ceilings == SyncedOver(before, due[..0], driven, lands, target, now);
      for i := 0 to |due|
        invariant ceilings == SyncedOver(before, due[..i], driven, lands, target, now)
      {
        var id := due[i];
        SyncOneMore(before, due[..i], id, driven, lands, target, now);
        PrefixGrows(due, i);
        if id in driven {
          Record(id, target, now, id in lands);
        }
      }
      assert due[..|due|] == due;
      SyncAllDue(before, due, driven, lands, target, now);
    }
  }

  // --- One device's ceiling over a whole run ---

  datatype CeilingEvent = Report(soc: Soc) | Tick(target: Soc, now: Timestamp, lands: bool)

  function StepCeiling(c: Ceiling, e: CeilingEvent): Ceiling
  {
    match e
    case Report(soc) => c.(reported := Some(soc))
    case Tick(target, now, lands) => if c.Due(target, now) then c.Recorded(target, now, lands) else c
  }

  /** A tick's write to one driven device depends on that device's record alone. */
  lemma SyncStepsEachDevice(ceilings: map<DeviceId, Ceiling>, driven: set<DeviceId>, lands: set<DeviceId>,
                            target: Soc, now: Timestamp, id: DeviceId)
    requires id in ceilings && id in driven
    ensures id in Synced(ceilings, driven, lands, target, now)
    ensures Synced(ceilings, driven, lands, target, now)[id] == StepCeiling(ceilings[id], Tick(target, now, id in lands))
  {
  }

  function StateAfter(events: seq<CeilingEvent>): Ceiling
  {
    if events == [] then UNTOUCHED
    else StepCeiling(StateAfter(events[..|events| - 1]), events[|events| - 1])
  }

  /** Event `i` wrote to the device. */
  predicate Wrote(events: seq<CeilingEvent>, i: nat)
    requires i < |events|
  {
    events[i].Tick? && StateAfter(events[..i]).Due(events[i].target, events[i].now)
  }

  function Writes(events: seq<CeilingEvent>): nat
  {
    if events == [] then 0
    else Writes(events[..|events| - 1]) + (if Wrote(events, |events| - 1) then 1 else 0)
  }

  /** The last tick of a run, if it has ticked. */
  function LastTick(events: seq<CeilingEvent>): (e: Option<CeilingEvent>)
    ensures e.Some? ==> e.value.Tick? && e.value in events
  {
    if events == [] then None
    else if events[|events| - 1].Tick? then Some(events[|events| - 1])
    else LastTick(events[..|events| - 1])
  }

  /** How often a tick's target differed from the tick's before it. */
  function Changes(events: seq<CeilingEvent>): nat
  {
    if events == [] then 0
    else
      var before := events[..|events| - 1];
      var last := events[|events| - 1];
      Changes(before) +
      (if last.Tick? && LastTick(before).Some? && LastTick(before).value.target != last.target then 1 else 0)
  }

  ghost predicate ClockRuns(events: seq<CeilingEvent>)
  {
    forall i, j | 0 <= i < j < |events| && events[i].Tick? && events[j].Tick? :: events[i].now <= events[j].now
  }

  lemma {:induction false} RecordFollowsTicks(events: seq<CeilingEvent>)
    ensures LastTick(events).None? ==> StateAfter(events).held.Unknown? && Writes(events) == Changes(events) == 0
    ensures LastTick(events).Some? ==>
              !StateAfter(events).held.Unknown? && StateAfter(events).held.target == LastTick(events).value.target
  {
    if events != [] {
      RecordFollowsTicks(events[..|events| - 1]);
    }
  }

  lemma OneMoreEvent(events: seq<CeilingEvent>, e: CeilingEvent)
    ensures StateAfter(events + [e]) == StepCeiling(StateAfter(events), e)
    ensures Writes(events + [e]) ==
            Writes(events) + (if e.Tick? && StateAfter(events).Due(e.target, e.now) then 1 else 0)
    ensures LastTick(events + [e]) == (if e.Tick? then Some(e) else LastTick(events))
    ensures Changes(events + [e]) ==
            Changes(events)
            + (if e.Tick? && LastTick(events).Some? && LastTick(events).value.target != e.target then 1 else 0)
  {
    assert (events + [e])[..|events|] == events;
  }

  /** Each write since `start`, beyond the first and beyond one per change of target,
      has moved the recorded write a full pause past it. */
  predicate Spaced(c: Ceiling, writes: int, changes: int, start: Timestamp, now: Timestamp)
  {
    writes > 0 ==>
      && !c.held.Unknown? && c.held.at <= now
      && RETRY_AFTER * (writes - 1 - changes) <= c.held.at - start
  }

  lemma TickKeepsSpacing(c: Ceiling, was: CeilingEvent, e: CeilingEvent, writes: int, changes: int, start: Timestamp)
    requires was.Tick? && e.Tick? && was.now <= e.now && start <= e.now && 0 <= changes
    requires !c.held.Unknown? && c.held.target == was.target && Spaced(c, writes, changes, start, was.now)
    ensures Spaced(StepCeiling(c, e), writes + (if c.Due(e.target, e.now) then 1 else 0),
                   changes + (if was.target != e.target then 1 else 0), start, e.now)
  {
  }

  lemma FirstTickIsSpaced(c: Ceiling, e: CeilingEvent)
    requires e.Tick?
    ensures Spaced(StepCeiling(c, e), if c.Due(e.target, e.now) then 1 else 0, 0, e.now, e.now)
  {
  }

  lemma SpacingBounds(c: Ceiling, writes: int, changes: int, start: Timestamp, now: Timestamp)
    requires Spaced(c, writes, changes, start, now) && 0 <= changes && start <= now
    ensures writes <= 1 + changes + (now - start) / RETRY_AFTER
  {
  }

  /** So it is from any tick `p` of any run on. */
  lemma {:induction false} WritesAreSpaced(events: seq<CeilingEvent>, p: nat, n: nat)
    requires ClockRuns(events) && p < n <= |events| && events[p].Tick?
    ensures LastTick(events[..n]).Some? && 0 <= Changes(events[..n]) - Changes(events[..p + 1])
    ensures Spaced(StateAfter(events[..n]), Writes(events[..n]) - Writes(events[..p]),
                   Changes(events[..n]) - Changes(events[..p + 1]), events[p].now, LastTick(events[..n]).value.now)
  {
    hide StateAfter, Writes, LastTick, Changes, Spaced, Ceiling.Due, StepCeiling;
    PrefixGrows(events, n - 1);
    var before, e := events[..n - 1], events[n - 1];
    OneMoreEvent(before, e);
    if n == p + 1 {
      FirstTickIsSpaced(StateAfter(before), e);
    } else {
      WritesAreSpaced(events, p, n - 1);
      RecordFollowsTicks(before);
      if e.Tick? {
        LastTickIsAt(before);
        TickKeepsSpacing(StateAfter(before), LastTick(before).value, e, Writes(before) - Writes(events[..p]),
                         Changes(before) - Changes(events[..p + 1]), events[p].now);
      } else {
        ReportKeepsSpacing(StateAfter(before), e);
      }
    }
  }

  lemma ReportKeepsSpacing(c: Ceiling, e: CeilingEvent)
    requires e.Report?
    ensures forall writes, changes, start, now ::
              Spaced(c, writes, changes, start, now) ==> Spaced(StepCeiling(c, e), writes, changes, start, now)
  {
  }

  lemma {:induction false} LastTickIsAt(events: seq<CeilingEvent>)
    ensures LastTick(events).Some? ==> exists i | 0 <= i < |events| :: events[i] == LastTick(events).value
  {
    if events != [] && !events[|events| - 1].Tick? {
      LastTickIsAt(events[..|events| - 1]);
    }
  }

  /** From any tick of any run to any later one, while the clock does not run back:
      the attempts are at most one, plus one per change of target in between, plus
      one per pause elapsed. */
  lemma WriteBound(events: seq<CeilingEvent>, p: nat, q: nat)
    requires ClockRuns(events) && p <= q < |events| && events[p].Tick? && events[q].Tick?
    ensures Writes(events[..q + 1]) - Writes(events[..p]) <=
            1 + (Changes(events[..q + 1]) - Changes(events[..p + 1])) + (events[q].now - events[p].now) / RETRY_AFTER
  {
    hide StateAfter, Writes, Changes, LastTick, StepCeiling, Spaced, Wrote, Ceiling.Due;
    WritesAreSpaced(events, p, q + 1);
    PrefixGrows(events, q);
    OneMoreEvent(events[..q], events[q]);
    assert events[p].now <= events[q].now;
    SpacingBounds(StateAfter(events[..q + 1]), Writes(events[..q + 1]) - Writes(events[..p]),
                  Changes(events[..q + 1]) - Changes(events[..p + 1]), events[p].now, events[q].now);
  }

  /** What the device last reported, if anything. */
  function LastReported(events: seq<CeilingEvent>): Option<Soc>
  {
    if events == [] then None
    else if events[|events| - 1].Report? then Some(events[|events| - 1].soc)
    else LastReported(events[..|events| - 1])
  }

  lemma {:induction false} ReportIsKept(events: seq<CeilingEvent>)
    ensures StateAfter(events).reported == LastReported(events)
  {
    if events != [] { ReportIsKept(events[..|events| - 1]); }
  }

  lemma {:induction false} NeverWrittenIsUnknown(events: seq<CeilingEvent>, n: nat)
    requires n <= |events| && forall k | 0 <= k < n :: !Wrote(events, k)
    ensures StateAfter(events[..n]).held.Unknown?
  {
    if n > 0 {
      NeverWrittenIsUnknown(events, n - 1);
      PrefixGrows(events, n - 1);
      assert !Wrote(events, n - 1);
    }
  }

  /** The first tick writes. */
  lemma FirstTickWrites(events: seq<CeilingEvent>, i: nat)
    requires i < |events| && events[i].Tick? && forall k | 0 <= k < i :: !Wrote(events, k)
    ensures Wrote(events, i)
  {
    NeverWrittenIsUnknown(events, i);
  }

  lemma {:induction false} LastWriteOnRecord(events: seq<CeilingEvent>, w: nat, n: nat)
    requires w < n <= |events| && Wrote(events, w)
    requires forall k | w < k < n :: !Wrote(events, k)
    ensures StateAfter(events[..n]).held == if events[w].lands then Written(events[w].target, events[w].now)
                                            else Failed(events[w].target, events[w].now)
  {
    assert events[..n][..n - 1] == events[..n - 1];
    if n > w + 1 {
      LastWriteOnRecord(events, w, n - 1);
      assert !Wrote(events, n - 1);
    }
  }

  /** Any later tick writes exactly when the target has changed since the last write, or
      a minute has passed since it and it failed, or the device reports another limit.
      So a failed write is tried again at the first tick a minute on. */
  lemma WritesExactlyWhenNeeded(events: seq<CeilingEvent>, w: nat, i: nat)
    requires w < i < |events| && events[i].Tick? && Wrote(events, w)
    requires forall k | w < k < i :: !Wrote(events, k)
    ensures
      var reported, target := LastReported(events[..i]), events[i].target;
      Wrote(events, i) <==>
      || target != events[w].target
      || (Since(events[i].now, events[w].now) >= 60_000
          && (!events[w].lands || (reported.Some? && reported.value != target)))
  {
    LastWriteOnRecord(events, w, i);
    ReportIsKept(events[..i]);
  }

  lemma {:induction false} RecordSurvives(events: seq<CeilingEvent>, i: nat, j: nat)
    requires i < j <= |events| && Wrote(events, i)
    requires forall k | i < k < j :: !Wrote(events, k)
    ensures !StateAfter(events[..j]).held.Unknown?
    ensures StateAfter(events[..j]).held.target == events[i].target && StateAfter(events[..j]).held.at == events[i].now
  {
    assert events[..j][..j - 1] == events[..j - 1];
    if j > i + 1 {
      RecordSurvives(events, i, j - 1);
      assert !Wrote(events, j - 1);
    }
  }

  /** Two consecutive writes of one target are a full pause apart, whatever
      landed, failed or was reported between them, even if the clock steps. */
  lemma SameTargetWritesArePaused(events: seq<CeilingEvent>, i: nat, j: nat)
    requires i < j < |events| && Wrote(events, i) && Wrote(events, j)
    requires forall k | i < k < j :: !Wrote(events, k)
    requires events[i].target == events[j].target
    ensures events[j].now - events[i].now >= RETRY_AFTER
  {
    RecordSurvives(events, i, j);
  }

  /** Once a write has landed and the device reports the target, no further write
      is made for as long as both hold. */
  lemma {:induction false} SettledStaysQuiet(events: seq<CeilingEvent>, i: nat, j: nat, target: Soc)
    requires i <= j < |events|
    requires StateAfter(events[..i]).held.Written? && StateAfter(events[..i]).held.target == target
    requires StateAfter(events[..i]).reported == Some(target)
    requires forall k | i <= k <= j :: if events[k].Tick? then events[k].target == target else events[k].soc == target
    ensures !Wrote(events, j) && StateAfter(events[..j + 1]) == StateAfter(events[..i])
  {
    if j > i {
      SettledStaysQuiet(events, i, j - 1, target);
    }
    assert events[..j + 1][..j] == events[..j];
  }

  // --- A run over every device ---

  datatype FleetEvent =
    | Reported(id: DeviceId, soc: Soc)
    | Ticked(target: Soc, now: Timestamp, lands: set<DeviceId>)

  /** What `CeilingSync` holds after a run of its `Observe` and `Sync`. */
  function FleetAfter(holders: set<DeviceId>, driven: set<DeviceId>, events: seq<FleetEvent>): map<DeviceId, Ceiling>
  {
    if events == [] then map id | id in holders :: UNTOUCHED
    else
      var before := FleetAfter(holders, driven, events[..|events| - 1]);
      match events[|events| - 1]
      case Reported(id, soc) => Observed(before, id, soc)
      case Ticked(target, now, lands) => Synced(before, driven, lands, target, now)
  }

  /** The writes attempted on one device in such a run. */
  function WritesTo(holders: set<DeviceId>, driven: set<DeviceId>, events: seq<FleetEvent>, id: DeviceId): nat
  {
    if events == [] then 0
    else
      var init, last := events[..|events| - 1], events[|events| - 1];
      var before := FleetAfter(holders, driven, init);
      WritesTo(holders, driven, init, id)
      + (if last.Ticked? && id in before && id in driven && before[id].Due(last.target, last.now) then 1 else 0)
  }

  /** The part of a run that concerns one device. */
  function OwnEvents(events: seq<FleetEvent>, id: DeviceId): seq<CeilingEvent>
  {
    if events == [] then []
    else
      var own := OwnEvents(events[..|events| - 1], id);
      match events[|events| - 1]
      case Reported(other, soc) => if other == id then own + [Report(soc)] else own
      case Ticked(target, now, lands) => own + [Tick(target, now, id in lands)]
  }

  /** Each device's record and its writes are those of its own events alone, so what
      holds of one device's run holds of every driven device in any fleet's. */
  lemma {:induction false} FleetRunsEachDevice(holders: set<DeviceId>, driven: set<DeviceId>, events: seq<FleetEvent>,
                                               id: DeviceId)
    requires id in holders && id in driven
    ensures id in FleetAfter(holders, driven, events)
    ensures FleetAfter(holders, driven, events)[id] == StateAfter(OwnEvents(events, id))
    ensures WritesTo(holders, driven, events, id) == Writes(OwnEvents(events, id))
  {
    if events != [] {
      var init, last := events[..|events| - 1], events[|events| - 1];
      FleetRunsEachDevice(holders, driven, init, id);
      var before, own := FleetAfter(holders, driven, init), OwnEvents(init, id);
      match last
      case Reported(other, soc) =>
        if other == id { OneMoreEvent(own, Report(soc)); }
      case Ticked(target, now, lands) =>
        SyncStepsEachDevice(before, driven, lands, target, now, id);
        OneMoreEvent(own, Tick(target, now, id in lands));
    }
  }

  /** A device this process does not drive is never written to. */
  lemma {:induction false} UndrivenIsLeftAlone(holders: set<DeviceId>, driven: set<DeviceId>, events: seq<FleetEvent>,
                                               id: DeviceId)
    requires id in holders && id !in driven
    ensures id in FleetAfter(holders, driven, events) && FleetAfter(holders, driven, events)[id].held.Unknown?
    ensures WritesTo(holders, driven, events, id) == 0
  {
    if events != [] { UndrivenIsLeftAlone(holders, driven, events[..|events| - 1], id); }
  }
}
