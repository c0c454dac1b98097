/** Which battery gets which command for a decision, and what becomes of the commands. */
module Allocation {
  import opened Units
  import opened Worlds
  import opened Controllers

  datatype Command = SetCharge(watts: Setpoint) | SetDischarge(watts: Setpoint) | SetIdle | SetStandby

  datatype Directive = Directive(device: DeviceId, command: Command)

  function CommandOf(d: Decision): Command
  {
    match d.mode
    case Charge => SetCharge(d.power)
    case Discharge => SetDischarge(d.power)
    case Idle => SetIdle
    case Standby => SetStandby
  }

  /** The decision a command stands for. */
  function ModeOf(c: Command): Mode
  {
    match c
    case SetCharge(_) => Charge
    case SetDischarge(_) => Discharge
    case SetIdle => Idle
    case SetStandby => Standby
  }

  /** A command loses nothing of the decision that a battery could act on. */
  lemma CommandKeepsTheDecision(d: Decision)
    ensures
      var c := CommandOf(d);
      ModeOf(c) == d.mode && (Active(d.mode) ==> Sized(c) && c.watts == d.power)
  {
  }

  predicate Sized(c: Command) { c.SetCharge? || c.SetDischarge? }

  function Addressed(ids: seq<DeviceId>, c: Command): seq<Directive>
  {
    seq(|ids|, i requires 0 <= i < |ids| => Directive(ids[i], c))
  }

  /** Idle and standby are broadcast, lowest id first; watts go to the primary only. */
  function Allocate(d: Decision, w: WorldView): seq<Directive>
  {
    var command := CommandOf(d);
    var ids := w.Batteries();
    if !Sized(command) then Addressed(ids, command)
    else if ids == [] then []
    else [Directive(ids[0], command)]
  }

  // --- Delivery ---

  datatype Outcome = Outcome(device: DeviceId, command: Command, applied: bool)

  /** The last command attempted on each device, after a list of directives. */
  function Attempt(log: map<DeviceId, Command>, registered: set<DeviceId>, directives: seq<Directive>)
    : map<DeviceId, Command>
  {
    if directives == [] then log
    else
      var last := directives[|directives| - 1];
      var before := Attempt(log, registered, directives[..|directives| - 1]);
      if last.device in registered then before[last.device := last.command] else before
  }

  /** The batteries this process drives. Adapter writes are attempts that may
      fail arbitrarily, so an attempt is given its result. */
  class Devices {
    const registered: set<DeviceId>
    var log: map<DeviceId, Command>

    constructor (ids: set<DeviceId>)
      ensures registered == ids && log == map[]
    {
      registered := ids;
      log := map[];
    }

    /** One adapter write. `log` notes the attempt even when it fails. */
    method Apply(id: DeviceId, command: Command, lands: bool) returns (ok: bool)
      requires id in registered
      modifies this
      ensures log == old(log)[id := command] && ok == lands
    {
      log := log[id := command];
      ok := lands;
    }

    /** Works through the list to its end; an outcome says which writes failed or
        had no device to go to. */
    method Actuate(directives: seq<Directive>, lands: seq<bool>) returns (outcomes: seq<Outcome>)
      requires |lands| == |directives|
      modifies this
      ensures log == Attempt(old(log), registered, directives)
      ensures |outcomes| == |directives|
      ensures forall i | 0 <= i < |directives| ::
                outcomes[i] == Outcome(directives[i].device, directives[i].command,
                                       directives[i].device in registered && lands[i])
    {
      outcomes := [];
      for i := 0 to |directives|
        invariant |outcomes| == i
        invariant log == Attempt(old(log), registered, directives[..i])
        invariant forall j | 0 <= j < i ::
                    outcomes[j] == Outcome(directives[j].device, directives[j].command,
                                           directives[j].device in registered && lands[j])
      {
        var directive := directives[i];
        var ok := false;
        if directive.device in registered {
          ok := Apply(directive.device, directive.command, lands[i]);
        }
        outcomes := outcomes + [Outcome(directive.device, directive.command, ok)];
        assert directives[..i + 1][..i] == directives[..i];
      }
      assert directives[..|directives|] == directives;
    }
  }

  predicate Names(directives: seq<Directive>, id: DeviceId)
  {
    exists d | d in directives :: d.device == id
  }

  /** `c` is the last command the list gives `id`. */
  ghost predicate EndsOn(directives: seq<Directive>, id: DeviceId, c: Command)
  {
    exists i :: 0 <= i < |directives| && directives[i] == Directive(id, c)
                && forall j | i < j < |directives| :: directives[j].device != id
  }

  /** Every directive reaches its device, whatever became of the ones before it: a
      registered device the list names ends on the last command the list gives it,
      and nothing changes for any other device. */
  lemma {:induction false} EveryDirectiveIsAttempted(log: map<DeviceId, Command>, registered: set<DeviceId>,
                                                     directives: seq<Directive>)
    ensures
      var after := Attempt(log, registered, directives);
      && (forall id | id in registered && Names(directives, id) :: id in after && EndsOn(directives, id, after[id]))
      && (forall id | !(id in registered && Names(directives, id)) ::
            (id in after <==> id in log) && (id in log ==> after[id] == log[id]))
  {
    if directives != [] {
      var n := |directives| - 1;
      var init, last := directives[..n], directives[n];
      EveryDirectiveIsAttempted(log, registered, init);
      assert directives == init + [last];
      var before, after := Attempt(log, registered, init), Attempt(log, registered, directives);
      forall id ensures Names(directives, id) <==> Names(init, id) || last.device == id {
        assert last in directives;
        if d :| d in init && d.device == id { assert d in directives; }
      }
      forall id | id in registered && Names(directives, id) ensures id in after && EndsOn(directives, id, after[id]) {
        if id == last.device {
          assert directives[n] == Directive(id, after[id]);
        } else {
          var i :| 0 <= i < n && init[i] == Directive(id, before[id]) && forall j | i < j < n :: init[j].device != id;
          assert directives[i] == Directive(id, after[id]);
          assert forall j | i < j < |directives| :: j < n ==> directives[j] == init[j];
        }
      }
    }
  }

  /** In particular each command in force afterwards is an old one or one listed. */
  lemma CommandsAreOldOrListed(log: map<DeviceId, Command>, registered: set<DeviceId>, directives: seq<Directive>)
    ensures
      var after := Attempt(log, registered, directives);
      && (forall id :: id in after <==> id in log || (id in registered && Names(directives, id)))
      && (forall id | id in after :: (id in log && after[id] == log[id]) || Directive(id, after[id]) in directives)
      && (forall d | d in directives && d.device in registered :: Directive(d.device, after[d.device]) in directives)
  {
    EveryDirectiveIsAttempted(log, registered, directives);
    var after := Attempt(log, registered, directives);
    forall d | d in directives && d.device in registered ensures Directive(d.device, after[d.device]) in directives {
      assert Names(directives, d.device);
      assert EndsOn(directives, d.device, after[d.device]);
    }
    forall id | id in after ensures (id in log && after[id] == log[id]) || Directive(id, after[id]) in directives {
      if id in registered && Names(directives, id) { assert EndsOn(directives, id, after[id]); }
    }
  }
}
