/** A poller with fixed fetch times, called anchors: at most one fetch is due at a
    time, and a failed one is retried within its day. */
module Schedule {
  import opened Units

  /** A minute of the local day; a date is its day's number. */
  type TimeOfDay = t: int | 0 <= t < 1440
  type Date = int

  const NANOS_PER_MINUTE: int := 60_000_000_000
  const NANOS_PER_DAY: int := 1440 * NANOS_PER_MINUTE

  datatype LocalNow = LocalNow(date: Date, time: TimeOfDay)
  {
    function Naive(): int { date * NANOS_PER_DAY + time * NANOS_PER_MINUTE }
  }

  type U8 = n: int | 0 <= n <= 255

  datatype RetryPolicy = RetryPolicy(delay: nat, attempts: U8)

  datatype AnchorKey = AnchorKey(date: Date, slot: TimeOfDay)

  datatype Fetch = Anchor(key: AnchorKey) | Retry(key: AnchorKey, attempt: U8, of: U8) | Nothing

  datatype Failure = WillRetry | GaveUp

  datatype PendingRetry = PendingRetry(anchor: AnchorKey, attempt: U8, of: U8, due: int)

  datatype State = State(date: Date, settled: set<TimeOfDay>, pollTimes: seq<TimeOfDay>, pending: Option<PendingRetry>)
  {
    predicate Eligible(now: LocalNow, slot: TimeOfDay)
    {
      slot <= now.time && (date != now.date || slot !in settled)
    }

    /** The last eligible of the first `n` configured anchors. */
    function LastEligible(now: LocalNow, n: nat): Option<TimeOfDay>
      requires n <= |pollTimes|
    {
      if n == 0 then None
      else if Eligible(now, pollTimes[n - 1]) then Some(pollTimes[n - 1])
      else LastEligible(now, n - 1)
    }

    function NextDue(now: LocalNow): Option<TimeOfDay> { LastEligible(now, |pollTimes|) }

    /** The latest open anchor comes first, then a waiting retry that has become due. */
    function Decide(now: LocalNow): Fetch
    {
      var due := NextDue(now);
      if due.Some? && (pending.None? || pending.value.anchor != AnchorKey(now.date, due.value))
      then Anchor(AnchorKey(now.date, due.value))
      else if pending.Some? && pending.value.anchor.date == now.date && now.Naive() >= pending.value.due
      then Retry(pending.value.anchor, pending.value.attempt, pending.value.of)
      else Nothing
    }

    function Used(now: LocalNow, slot: TimeOfDay): State
    {
      State(now.date,
            (if date == now.date then settled else {}) + (set t | t in pollTimes && t <= slot),
            pollTimes, None)
    }

    function AttemptFor(anchor: AnchorKey): U8
    {
      if pending.Some? && pending.value.anchor == anchor then Min(pending.value.attempt + 1, 255) else 1
    }

    function FailedFetch(now: LocalNow, anchor: AnchorKey, policy: RetryPolicy): (State, Failure)
    {
      if anchor.date != now.date then (this.(pending := None), GaveUp)
      else
        var attempt := AttemptFor(anchor);
        var due := now.Naive() + policy.delay;
        if due / NANOS_PER_DAY == anchor.date && attempt <= policy.attempts
        then (this.(pending := Some(PendingRetry(anchor, attempt, policy.attempts, due))), WillRetry)
        else (Used(now, anchor.slot), GaveUp)
    }
  }

  function NewSchedule(pollTimes: seq<TimeOfDay>): State { State(0, {}, pollTimes, None) }

  class AnchorSchedule {
    var date: Date
    var settled: set<TimeOfDay>
    const pollTimes: seq<TimeOfDay>
    var pending: Option<PendingRetry>

    function View(): State
      reads this
    {
      State(date, settled, pollTimes, pending)
    }

    constructor (pollTimes: seq<TimeOfDay>)
      ensures View() == NewSchedule(pollTimes)
    {
      date, settled, pending := 0, {}, None;
      this.pollTimes := pollTimes;
    }

    method MarkUsed(now: LocalNow, slot: TimeOfDay)
      modifies this
      ensures View() == old(View()).Used(now, slot)
    {
      pending := None;
      if date != now.date {
        date := now.date;
        settled := {};
      }
      ghost var before := settled;
      for i := 0 to |pollTimes|
        invariant pending.None? && date == now.date
        invariant settled == before + (set t | t in pollTimes[..i] && t <= slot)
      {
        PrefixGrows(pollTimes, i);
        if pollTimes[i] <= slot {
          settled := settled + {pollTimes[i]};
        }
      }
      assert pollTimes[..|pollTimes|] == pollTimes;
    }

    method MarkFailed(now: LocalNow, anchor: AnchorKey, policy: RetryPolicy) returns (failure: Failure)
      modifies this
      ensures (View(), failure) == old(View()).FailedFetch(now, anchor, policy)
    {
      if anchor.date != now.date {
        pending := None;
        return GaveUp;
      }
      var attempt := View().AttemptFor(anchor);
      var due := now.Naive() + policy.delay;
      if due / NANOS_PER_DAY != anchor.date || attempt > policy.attempts {
        MarkUsed(now, anchor.slot);
        return GaveUp;
      }
      pending := Some(PendingRetry(anchor, attempt, policy.attempts, due));
      return WillRetry;
    }
  }
}
