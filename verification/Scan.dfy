/** The inbox: one-place slots a sampler fills and a tick empties, aged on a
    monotonic clock. */
module Scan {
  import opened Units
  import opened Worlds

  /** A round number; the source's counter wraps at 2^64. */
  type Round = nat

  /** A monotonic instant. */
  type Instant = nat

  datatype Delivery<+T> =
    | Fresh(at: Clock, reading: T)
    | Quiet
    | Down(failures: U32)

  datatype Pending<+T> = Pending(round: Round, at: Clock, reading: T)

  /** Time since the last good sample, saturating at zero. */
  function AgeAt(lastGood: Instant, now: Instant): nat { if now < lastGood then 0 else now - lastGood }

  datatype SlotState<+T> = SlotState(pending: Option<Pending<T>>, failures: U32, lastGood: Instant)
  {
    function Delivered<U>(round: Round, at: Clock, now: Instant, reading: U): SlotState<U>
    {
      SlotState(Some(Pending(round, at, reading)), 0, now)
    }

    function Failed(): SlotState<T>
    {
      this.(failures := Min(failures + 1, U32_MAX))
    }

    function Taken(window: nat, round: Round, now: Instant): (SlotState<T>, Delivery<T>)
    {
      if AgeAt(lastGood, now) > window then (this, Down(failures))
      else
        (this.(pending := None),
         if pending.Some? && pending.value.round == round then Fresh(pending.value.at, pending.value.reading) else Quiet)
    }
  }

  function OpenedSlot<T>(at: Instant): SlotState<T> { SlotState(None, 0, at) }

  class Slot<T> {
    const blindWindow: nat
    var pending: Option<Pending<T>>
    var failures: U32
    var lastGood: Instant

    function View(): SlotState<T>
      reads this
    {
      SlotState(pending, failures, lastGood)
    }

    constructor (blindWindow: nat, openedAt: Instant)
      ensures this.blindWindow == blindWindow && View() == OpenedSlot(openedAt)
    {
      this.blindWindow := blindWindow;
      pending, failures, lastGood := None, 0, openedAt;
    }

    /** Reports what had failed in a row before this sample. */
    method Deliver(round: Round, at: Clock, now: Instant, reading: T) returns (before: U32)
      modifies this
      ensures View() == old(View()).Delivered(round, at, now, reading) && before == old(failures)
    {
      pending := Some(Pending(round, at, reading));
      lastGood := now;
      before := failures;
      failures := 0;
    }

    method Fail() returns (count: U32)
      modifies this
      ensures View() == old(View()).Failed() && count == failures
    {
      failures := if failures == U32_MAX then U32_MAX else failures + 1;
      count := failures;
    }

    method Take(round: Round, now: Instant) returns (d: Delivery<T>)
      modifies this
      ensures (View(), d) == old(View()).Taken(blindWindow, round, now)
    {
      if now >= lastGood && now - lastGood > blindWindow {
        return Down(failures);
      }
      var taken := pending;
      pending := None;
      match taken
      case Some(p) =>
        if p.round == round {
          return Fresh(p.at, p.reading);
        }
        return Quiet;
      case None =>
        return Quiet;
    }
  }

  // --- The sampler ---

  datatype Answer<+T> = Answered(at: Clock, now: Instant, reading: T) | Unanswered

  /** Look `i` at the watch cell finds a request not seen before. */
  predicate Asked(seen: Round, cell: seq<Round>, i: nat)
    requires i < |cell|
  {
    cell[i] != if i == 0 then seen else cell[i - 1]
  }

  /** Since the requests only count up, no round is asked of the source twice and
      none is asked after a later one. */
  lemma RoundsAreAskedOnce(seen: Round, cell: seq<Round>, i: nat, j: nat)
    requires i < j < |cell| && Asked(seen, cell, j)
    requires forall k | i <= k < j :: cell[k] <= cell[k + 1]
    ensures cell[i] < cell[j]
  {
    CellCountsUp(cell, i, j - 1);
  }

  lemma {:induction false} CellCountsUp(cell: seq<Round>, i: nat, j: nat)
    requires i <= j < |cell| && forall k | i <= k < j :: cell[k] <= cell[k + 1]
    ensures cell[i] <= cell[j]
  {
    if i < j { CellCountsUp(cell, i, j - 1); }
  }

  // --- One slot under any interleaving of its sampler and its reader ---

  datatype SlotOp<+T> =
    | DeliverOp(round: Round, at: Clock, now: Instant, reading: T)
    | FailOp
    | TakeOp(round: Round, now: Instant)

  /** One operation's effect, and what the reader gets from it. */
  function Performed<T>(s: SlotState<T>, window: nat, op: SlotOp<T>): (SlotState<T>, Delivery<T>)
  {
    match op
    case DeliverOp(round, at, now, reading) => (s.Delivered(round, at, now, reading), Quiet)
    case FailOp => (s.Failed(), Quiet)
    case TakeOp(round, now) => s.Taken(window, round, now)
  }

  datatype SlotRun<T> = SlotRun(window: nat, ops: seq<SlotOp<T>>, states: seq<SlotState<T>>, outs: seq<Delivery<T>>)
  {
    ghost predicate Valid()
    {
      && |states| == |ops| + 1 == |outs| + 1
      && states[0].pending.None?
      && (forall k | 0 <= k < |ops| :: Follows(k))
    }

    ghost predicate Follows(k: nat)
      requires k < |ops| && |states| == |ops| + 1 == |outs| + 1
    {
      (states[k + 1], outs[k]) == Performed(states[k], window, ops[k])
    }

    /** Operation `k` took whatever was waiting. */
    ghost predicate Emptied(k: nat)
      requires k < |ops| == |outs|
    {
      ops[k].TakeOp? && !outs[k].Down?
    }

    function Failures(from: nat, to: nat): nat
      requires from <= to <= |ops|
    {
      if from == to then 0 else Failures(from, to - 1) + (if ops[to - 1].FailOp? then 1 else 0)
    }

    /** Operation `j` is the delivery whose sample is still waiting at `i`. */
    ghost predicate Waiting(j: nat, i: nat)
      requires Valid() && i < |states|
    {
      && j < i && ops[j].DeliverOp?
      && states[i].pending == Some(Pending(ops[j].round, ops[j].at, ops[j].reading))
      && states[i].lastGood == ops[j].now
      && (forall k | j < k < i :: ops[k].FailOp? || (ops[k].TakeOp? && outs[k].Down?))
    }
  }

  /** What a delivery leaves behind, whatever takes and failures come before the next
      one: its own stamp on the slot, a count of the failures since, and its sample
      still waiting until the first take that does not find the slot down. */
  lemma {:induction false} LastAnswerWaits<T>(r: SlotRun<T>, j: nat, i: nat)
    requires r.Valid() && j < i < |r.states| && r.ops[j].DeliverOp?
    requires forall k | j < k < i :: !r.ops[k].DeliverOp?
    ensures r.states[i].lastGood == r.ops[j].now
    ensures r.states[i].failures == Min(r.Failures(j + 1, i), U32_MAX)
    ensures r.states[i].pending ==
            if exists k | j < k < i :: r.Emptied(k) then None
            else Some(Pending(r.ops[j].round, r.ops[j].at, r.ops[j].reading))
  {
    assert r.Follows(i - 1);
    if i - 1 > j {
      LastAnswerWaits(r, j, i - 1);
      assert (exists k | j < k < i :: r.Emptied(k)) <==> (exists k | j < k < i - 1 :: r.Emptied(k)) || r.Emptied(i - 1);
    }
  }

  lemma {:induction false} WaitingSampleWasDelivered<T>(r: SlotRun<T>, i: nat) returns (j: nat)
    requires r.Valid() && i < |r.states| && r.states[i].pending.Some?
    ensures r.Waiting(j, i)
  {
    assert r.Follows(i - 1);
    if r.ops[i - 1].DeliverOp? {
      j := i - 1;
    } else {
      j := WaitingSampleWasDelivered(r, i - 1);
    }
  }

  /** A fresh reading answers the round asked about, was delivered within the
      blind window, and nothing took it before. */
  lemma FreshWasDelivered<T>(r: SlotRun<T>, i: nat)
    requires r.Valid() && i < |r.outs| && r.ops[i].TakeOp? && r.outs[i].Fresh?
    ensures exists j: nat ::
              && r.Waiting(j, i)
              && r.outs[i] == Fresh(r.ops[j].at, r.ops[j].reading)
              && r.ops[j].round == r.ops[i].round
              && r.ops[i].now - r.ops[j].now <= r.window
  {
    assert r.Follows(i);
    var j := WaitingSampleWasDelivered(r, i);
  }

  /** No delivery is served fresh twice: between two fresh readings a new sample
      was delivered, and it is the one served. */
  lemma ServedOnce<T>(r: SlotRun<T>, first: nat, second: nat)
    requires r.Valid() && first < second < |r.outs|
    requires r.ops[first].TakeOp? && r.outs[first].Fresh? && r.ops[second].TakeOp? && r.outs[second].Fresh?
    ensures exists j: nat :: first < j < second && r.Waiting(j, second)
                        && r.outs[second] == Fresh(r.ops[j].at, r.ops[j].reading)
  {
    FreshWasDelivered(r, second);
    var j: nat :| r.Waiting(j, second) && r.outs[second] == Fresh(r.ops[j].at, r.ops[j].reading);
    assert r.Follows(first);
  }

  /** What was waiting when the slot was found down is never served: anything
      fresh afterwards was delivered afterwards, given takes at instants that do
      not run backwards. */
  lemma DownSampleIsNeverServed<T>(r: SlotRun<T>, down: nat, later: nat)
    requires r.Valid() && down < later < |r.outs|
    requires r.ops[down].TakeOp? && r.outs[down].Down? && r.ops[later].TakeOp? && r.outs[later].Fresh?
    requires r.ops[down].now <= r.ops[later].now
    ensures exists j: nat :: down < j < later && r.Waiting(j, later)
                        && r.outs[later] == Fresh(r.ops[j].at, r.ops[j].reading)
  {
    FreshWasDelivered(r, later);
    var j: nat :| r.Waiting(j, later) && r.outs[later] == Fresh(r.ops[j].at, r.ops[j].reading);
    assert r.Follows(down) && r.Follows(later);
    if j < down {
      LastAnswerWaits(r, j, down);
    }
  }

  /** What the reader is told, in full: down past the blind window, with the failures
      since the last delivery; else the delivery itself if it answers the round asked
      about and no take has emptied the slot since; else nothing yet. */
  lemma TakeTells<T>(r: SlotRun<T>, j: nat, i: nat)
    requires r.Valid() && j < i < |r.outs| && r.ops[j].DeliverOp? && r.ops[i].TakeOp?
    requires forall k | j < k < i :: !r.ops[k].DeliverOp?
    ensures r.outs[i] ==
            if r.ops[j].now + r.window < r.ops[i].now then Down(Min(r.Failures(j + 1, i), U32_MAX))
            else if r.ops[j].round == r.ops[i].round && !exists k | j < k < i :: r.Emptied(k)
            then Fresh(r.ops[j].at, r.ops[j].reading)
            else Quiet
  {
    LastAnswerWaits(r, j, i);
    assert r.Follows(i);
  }

  /** The same of a slot nothing was ever delivered to, counted from its opening. */
  lemma {:induction false} NothingDelivered<T>(r: SlotRun<T>, i: nat)
    requires r.Valid() && i < |r.states| && forall k | 0 <= k < i :: !r.ops[k].DeliverOp?
    ensures r.states[i].lastGood == r.states[0].lastGood && r.states[i].pending.None?
    ensures r.states[i].failures == Min(r.states[0].failures + r.Failures(0, i), U32_MAX)
  {
    if i > 0 {
      NothingDelivered(r, i - 1);
      assert r.Follows(i - 1);
    }
  }

  lemma TakeTellsOfAnEmptySlot<T>(r: SlotRun<T>, i: nat)
    requires r.Valid() && i < |r.outs| && r.ops[i].TakeOp? && forall k | 0 <= k < i :: !r.ops[k].DeliverOp?
    ensures r.outs[i] ==
            if r.states[0].lastGood + r.window < r.ops[i].now
            then Down(Min(r.states[0].failures + r.Failures(0, i), U32_MAX)) else Quiet
  {
    NothingDelivered(r, i);
    assert r.Follows(i);
  }

  // --- The sampler at work between the reader's takes ---

  datatype Ask = Ask(round: Round, now: Instant)

  function TakesOf<T>(asks: seq<Ask>): seq<SlotOp<T>>
  {
    seq(|asks|, i requires 0 <= i < |asks| => TakeOp(asks[i].round, asks[i].now))
  }

  /** What one look at the watch cell leads the sampler to do to the slot. */
  function WritesOf<T>(asked: bool, round: Round, answer: Answer<T>): seq<SlotOp<T>>
  {
    if !asked then []
    else match answer
         case Answered(at, now, reading) => [DeliverOp(round, at, now, reading)]
         case Unanswered => [FailOp]
  }

  /** The order of everything done to the slot: before each of the sampler's writes
      whatever takes the reader fitted in. */
  function Schedule<T>(seen: Round, cell: seq<Round>, answers: seq<Answer<T>>, takes: seq<seq<Ask>>): seq<SlotOp<T>>
    requires |cell| == |answers| == |takes|
  {
    if cell == [] then []
    else
      var n := |cell| - 1;
      Schedule(seen, cell[..n], answers[..n], takes[..n])
      + TakesOf(takes[n]) + WritesOf(Asked(seen, cell, n), cell[n], answers[n])
  }

  function AfterOps<T>(s: SlotState<T>, window: nat, ops: seq<SlotOp<T>>): SlotState<T>
  {
    if ops == [] then s else Performed(AfterOps(s, window, ops[..|ops| - 1]), window, ops[|ops| - 1]).0
  }

  lemma OneMoreOp<T>(s: SlotState<T>, window: nat, ops: seq<SlotOp<T>>, op: SlotOp<T>)
    ensures AfterOps(s, window, ops + [op]) == Performed(AfterOps(s, window, ops), window, op).0
  {
    assert (ops + [op])[..|ops|] == ops;
  }

  /** The reader's takes, one after another, as they fall between two writes. */
  method TakeInTurn<T>(slot: Slot<T>, asks: seq<Ask>, ghost s: SlotState<T>, ghost before: seq<SlotOp<T>>)
    requires slot.View() == AfterOps(s, slot.blindWindow, before)
    modifies slot
    ensures slot.View() == AfterOps(s, slot.blindWindow, before + TakesOf(asks))
  {
    assert before + TakesOf([]) == before;
    for i := 0 to |asks|
      invariant slot.View() == AfterOps(s, slot.blindWindow, before + TakesOf(asks[..i]))
    {
      OneMoreOp(s, slot.blindWindow, before + TakesOf(asks[..i]), TakeOp(asks[i].round, asks[i].now));
      assert before + TakesOf(asks[..i + 1]) == before + TakesOf(asks[..i]) + [TakeOp(asks[i].round, asks[i].now)];
      var _ := slot.Take(asks[i].round, asks[i].now);
    }
    assert asks[..|asks|] == asks;
  }

  /** The sampler's loop. `cell` is what the watch cell held each time the sampler was
      free to look, so requests made while a read was in flight show only in the last
      of them; `answers` is what the source said to the reads this led to; `takes` is
      what the coordinator, the slot's other user, did meanwhile. */
  method SampleLoop<T>(slot: Slot<T>, seen: Round, cell: seq<Round>, answers: seq<Answer<T>>, takes: seq<seq<Ask>>)
    requires |cell| == |answers| == |takes|
    modifies slot
    ensures slot.View() == AfterOps(old(slot.View()), slot.blindWindow, Schedule(seen, cell, answers, takes))
  {
    hide AfterOps, Schedule, TakesOf;
    ghost var s, window := slot.View(), slot.blindWindow;
    NothingScheduled<T>(seen);
    NothingPerformed(s, window);
    var i, last := 0, seen;
    while i < |cell|
      invariant 0 <= i <= |cell|
      invariant last == if i == 0 then seen else cell[i - 1]
      invariant slot.View() == AfterOps(s, window, Schedule(seen, cell[..i], answers[..i], takes[..i]))
    {
      ghost var before := Schedule(seen, cell[..i], answers[..i], takes[..i]);
      ghost var taken := before + TakesOf(takes[i]);
      ScheduleGrows(seen, cell, answers, takes, i);
      var asked := cell[i] != last;
      last := cell[i];
      var round := last;
      TakeInTurn(slot, takes[i], s, before);
      if asked {
        match answers[i] {
          case Answered(at, now, reading) =>
            OneMoreOp(s, window, taken, DeliverOp(round, at, now, reading));
            var _ := slot.Deliver(round, at, now, reading);
          case Unanswered =>
            OneMoreOp(s, window, taken, FailOp);
            var _ := slot.Fail();
        }
      } else {
        assert taken + [] == taken;
      }
      i := i + 1;
    }
    assert cell[..i] == cell && answers[..i] == answers && takes[..i] == takes;
  }

  lemma NothingScheduled<T>(seen: Round)
    ensures Schedule<T>(seen, [], [], []) == []
  {
  }

  lemma NothingPerformed<T>(s: SlotState<T>, window: nat)
    ensures AfterOps(s, window, []) == s
  {
  }

  lemma ScheduleGrows<T>(seen: Round, cell: seq<Round>, answers: seq<Answer<T>>, takes: seq<seq<Ask>>, i: nat)
    requires i < |cell| == |answers| == |takes|
    ensures Schedule(seen, cell[..i + 1], answers[..i + 1], takes[..i + 1]) ==
            Schedule(seen, cell[..i], answers[..i], takes[..i])
            + TakesOf(takes[i]) + WritesOf(Asked(seen, cell, i), cell[i], answers[i])
  {
    PrefixGrows(cell, i);
    PrefixGrows(answers, i);
    PrefixGrows(takes, i);
  }

  /** What the sampler does to the slot at a look: exactly one write when the cell has
      changed since the look before, however far it has moved on, and it carries what
      the cell holds now; none when it has not. The takes come before it. */
  ghost predicate ReadsWhatItHolds<T>(was: Round, now: Round, answer: Answer<T>, writes: seq<SlotOp<T>>)
  {
    && |writes| == (if now == was then 0 else 1)
    && (now != was && answer.Answered? ==> writes[0] == DeliverOp(now, answer.at, answer.now, answer.reading))
    && (now != was && answer.Unanswered? ==> writes[0] == FailOp)
  }

  lemma EveryRequestIsRead<T>(seen: Round, cell: seq<Round>, answers: seq<Answer<T>>, takes: seq<seq<Ask>>, i: nat)
    returns (writes: seq<SlotOp<T>>)
    requires i < |cell| == |answers| == |takes|
    ensures ReadsWhatItHolds(if i == 0 then seen else cell[i - 1], cell[i], answers[i], writes)
    ensures
      var before := Schedule(seen, cell[..i], answers[..i], takes[..i]);
      var after := Schedule(seen, cell[..i + 1], answers[..i + 1], takes[..i + 1]);
      && |after| == |before| + |takes[i]| + |writes|
      && after[..|before|] == before && after[|before| + |takes[i]|..] == writes
      && forall k | 0 <= k < |takes[i]| :: after[|before| + k] == TakeOp(takes[i][k].round, takes[i][k].now)
  {
    ScheduleGrows(seen, cell, answers, takes, i);
    writes := WritesOf(Asked(seen, cell, i), cell[i], answers[i]);
  }

  /** So after a changed look that was answered the slot holds that answer, for the
      round the cell held, whatever rounds were overtaken on the way. */
  lemma AnswerWaitsForItsRound<T>(s: SlotState<T>, window: nat, seen: Round, cell: seq<Round>,
                                  answers: seq<Answer<T>>, takes: seq<seq<Ask>>, i: nat)
    requires i < |cell| == |answers| == |takes| && answers[i].Answered?
    requires cell[i] != if i == 0 then seen else cell[i - 1]
    ensures
      var after := AfterOps(s, window, Schedule(seen, cell[..i + 1], answers[..i + 1], takes[..i + 1]));
      && after.pending == Some(Pending(cell[i], answers[i].at, answers[i].reading))
      && after.lastGood == answers[i].now && after.failures == 0
  {
    var writes := EveryRequestIsRead(seen, cell, answers, takes, i);
    var all := Schedule(seen, cell[..i + 1], answers[..i + 1], takes[..i + 1]);
    var op := all[|all| - 1];
    assert op == writes[0];
    assert all == all[..|all| - 1] + [op];
    OneMoreOp(s, window, all[..|all| - 1], op);
  }

  /** So the sampler and its reader make a slot run, and the laws of one hold of them. */
  lemma {:induction false} ScheduleIsASlotRun<T>(openedAt: Instant, window: nat, ops: seq<SlotOp<T>>)
    returns (r: SlotRun<T>)
    ensures r.Valid() && r.window == window && r.ops == ops
    ensures r.states[|ops|] == AfterOps(OpenedSlot(openedAt), window, ops)
  {
    if ops == [] {
      r := SlotRun(window, [], [OpenedSlot(openedAt)], []);
    } else {
      var n := |ops| - 1;
      var before := ScheduleIsASlotRun(openedAt, window, ops[..n]);
      var (state, out) := Performed(before.states[n], window, ops[n]);
      r := SlotRun(window, ops, before.states + [state], before.outs + [out]);
      forall k | 0 <= k < |ops| ensures r.Follows(k) {
        if k < n { assert before.Follows(k); }
      }
    }
  }
}
