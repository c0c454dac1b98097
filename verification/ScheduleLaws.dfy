/** That the schedule does fetch: a new anchor at the first poll that finds it due, and
    a failed one again once the policy's delay has passed. */
module ScheduleLaws {
  import opened Units
  import opened Schedule
  import opened ScheduleRuns

  predicate Sorted(times: seq<TimeOfDay>)
  {
    forall i, j | 0 <= i <= j < |times| :: times[i] <= times[j]
  }

  /** Poll `k` fetches something. */
  predicate Fetches(r: Run, k: nat)
    requires k < |r.polls| < |r.states|
  {
    !r.states[k].Decide(r.polls[k].now).Nothing?
  }

  function KeyAt(r: Run, k: nat): AnchorKey
    requires k < |r.polls| < |r.states| && Fetches(r, k)
  {
    r.states[k].Decide(r.polls[k].now).key
  }

  // --- Where what is settled and what is pending come from ---

  /** The run began with the slot settled, or has since fetched that anchor or a later
      one of its day. */
  ghost predicate Explained(r: Run, k: nat, date: Date, slot: TimeOfDay)
    requires k <= |r.polls| < |r.states|
  {
    || (r.states[0].date == date && slot in r.states[0].settled)
    || exists i | 0 <= i < k :: Fetches(r, i) && KeyAt(r, i).date == date && slot <= KeyAt(r, i).slot
  }

  lemma FetchExplains(r: Run, k: nat, i: nat, date: Date, slot: TimeOfDay)
    requires i < k <= |r.polls| < |r.states| && Fetches(r, i)
    ensures KeyAt(r, i).date == date && slot <= KeyAt(r, i).slot ==> Explained(r, k, date, slot)
  {
  }

  lemma {:induction false} SettledIsExplained(r: Run, k: nat, slot: TimeOfDay)
    requires r.Valid() && r.policy.attempts <= 254 && k < |r.polls| && slot in r.states[k].settled
    ensures Explained(r, k, r.states[k].date, slot)
  {
    if k > 0 {
      RunKeepsInv(r, k - 1);
      assert r.Follows(k - 1);
      var s, p := r.states[k - 1], r.polls[k - 1];
      if slot in s.settled && s.date == r.states[k].date {
        SettledIsExplained(r, k - 1, slot);
      } else {
        assert Fetches(r, k - 1);
        var key := KeyAt(r, k - 1);
        FetchIsOpen(s, r.policy.attempts, p, key);
        MarkShape(s, r.policy, p, key);
      }
    }
  }

  /** The failed fetch a pending retry comes from: the last one, of the same anchor,
      and the retry is due the policy's delay after it was marked. */
  ghost predicate ComesFrom(r: Run, k: nat, i: nat, p: PendingRetry)
    requires k <= |r.polls| < |r.states|
  {
    && i < k && r.FetchedAt(i, p.anchor) && r.polls[i].result == FailedTransient
    && (forall n | i < n < k :: !Fetches(r, n))
    && p.due == r.polls[i].marked.Naive() + r.policy.delay
    && p.attempt == r.Fetches(p.anchor, k) && p.of == r.policy.attempts
  }

  lemma {:induction false} PendingIsExplained(r: Run, k: nat) returns (i: nat)
    requires r.Valid() && r.policy.attempts <= 254 && k < |r.polls| && r.states[k].pending.Some?
    ensures ComesFrom(r, k, i, r.states[k].pending.value)
    decreases k, 0
  {
    assert k > 0;
    RunKeepsInv(r, k - 1);
    assert r.Follows(k - 1);
    var s, p := r.states[k - 1], r.polls[k - 1];
    if Fetches(r, k - 1) {
      i := k - 1;
      var key := KeyAt(r, k - 1);
      FetchIsOpen(s, r.policy.attempts, p, key);
      MarkShape(s, r.policy, p, key);
      AttemptIsTheCount(r, k - 1, key);
    } else {
      i := PendingIsExplained(r, k - 1);
      assert !r.FetchedAt(k - 1, s.pending.value.anchor);
    }
  }

  lemma AttemptIsTheCount(r: Run, k: nat, key: AnchorKey)
    requires r.Valid() && r.policy.attempts <= 254 && k < |r.polls| && r.FetchedAt(k, key)
    ensures r.states[k].AttemptFor(key) == r.Fetches(key, k) + 1
    decreases k, 1
  {
    var s := r.states[k];
    RunKeepsInv(r, k);
    FetchIsListed(r, key, k);
    if s.pending.Some? && s.pending.value.anchor == key {
      var i := PendingIsExplained(r, k);
    } else {
      FetchIsOpen(s, r.policy.attempts, r.polls[k], key);
      FetchesFitBudget(r, key, k);
      FetchesAreNotNegative(r, key, k);
    }
  }

  lemma {:induction false} FetchesAreNotNegative(r: Run, key: AnchorKey, k: nat)
    requires k <= |r.polls| < |r.states|
    ensures r.Fetches(key, k) >= 0
  {
  }

  // --- The schedule fetches ---

  /** With the anchors listed in order: a poll that finds one due, later than every
      anchor fetched that day, fetches that one or a later one. */
  lemma NewAnchorIsFetched(r: Run, k: nat, slot: TimeOfDay)
    requires r.Valid() && r.policy.attempts <= 254 && k < |r.polls|
    requires Sorted(r.states[0].pollTimes) && slot in r.states[0].pollTimes && slot <= r.polls[k].now.time
    requires !Explained(r, k, r.polls[k].now.date, slot)
    ensures Fetches(r, k) && KeyAt(r, k).date == r.polls[k].now.date && slot <= KeyAt(r, k).slot
  {
    var s, now := r.states[k], r.polls[k].now;
    RunKeepsInv(r, k);
    if s.date == now.date && slot in s.settled { SettledIsExplained(r, k, slot); }
    assert s.Eligible(now, slot);
    var q := LastEligibleIsLast(s, now, |s.pollTimes|);
    var n :| 0 <= n < |s.pollTimes| && s.pollTimes[n] == slot;
    assert n <= q;
    var due := s.NextDue(now).value;
    if s.pending.Some? && s.pending.value.anchor == AnchorKey(now.date, due) {
      var i := PendingIsExplained(r, k);
      FetchExplains(r, k, i, now.date, slot);
      assert false;
    }
  }

  /** What a transient failure leads to: a retry of the same anchor the policy's delay
      later, while that falls on the same day and the attempts allow another one; and
      else nothing pending. */
  lemma FailureIsRetried(r: Run, i: nat)
    requires r.Valid() && r.policy.attempts <= 254 && i + 1 < |r.polls| && Fetches(r, i)
    requires r.polls[i].result == FailedTransient
    ensures
      var key, due := KeyAt(r, i), r.polls[i].marked.Naive() + r.policy.delay;
      var again := due / NANOS_PER_DAY == key.date && r.Fetches(key, i + 1) <= r.policy.attempts;
      r.states[i + 1].pending ==
      if again then Some(PendingRetry(key, r.Fetches(key, i + 1), r.policy.attempts, due)) else None
  {
    var key := KeyAt(r, i);
    RunKeepsInv(r, i);
    assert r.Follows(i);
    FetchIsOpen(r.states[i], r.policy.attempts, r.polls[i], key);
    AttemptIsTheCount(r, i, key);
  }

  lemma {:induction false} QuietKeepsPending(r: Run, i: nat, k: nat)
    requires r.Valid() && i <= k < |r.states| && forall n | i <= n < k :: !Fetches(r, n)
    ensures r.states[k] == r.states[i]
  {
    if i < k {
      QuietKeepsPending(r, i, k - 1);
      assert r.Follows(k - 1) && !Fetches(r, k - 1);
    }
  }

  /** And the retry comes: of the polls after such a failure, none but one that finds
      another anchor due fetches before the delay is over, and the first of the day
      after that fetches, the failed anchor itself unless another has become due. */
  lemma RetryComesWhenDue(r: Run, i: nat, k: nat)
    requires r.Valid() && r.policy.attempts <= 254 && i < k < |r.polls| && Fetches(r, i)
    requires r.polls[i].result == FailedTransient && forall n | i < n < k :: !Fetches(r, n)
    requires r.states[i + 1].pending.Some? && r.polls[k].now.date == KeyAt(r, i).date
    ensures
      var now, due := r.polls[k].now.Naive(), r.polls[i].marked.Naive() + r.policy.delay;
      var another := r.states[k].NextDue(r.polls[k].now).Some?
                     && r.states[k].NextDue(r.polls[k].now).value != KeyAt(r, i).slot;
      && (Fetches(r, k) <==> another || now >= due)
      && (Fetches(r, k) && !another ==> KeyAt(r, k) == KeyAt(r, i))
  {
    FailureIsRetried(r, i);
    QuietKeepsPending(r, i + 1, k);
    assert KeyAt(r, i).date == r.polls[k].now.date;
  }

  /** A fetch that succeeded, or failed for good, settles its anchor and every earlier one
      and no other; what was settled that day stays so. */
  lemma SettlingIsExact(r: Run, i: nat, slot: TimeOfDay)
    requires r.Valid() && r.policy.attempts <= 254 && i < |r.polls| && Fetches(r, i)
    requires r.polls[i].result != FailedTransient
    ensures
      var s, s1, key := r.states[i], r.states[i + 1], KeyAt(r, i);
      && s1.date == key.date && s1.pending.None? && s1.pollTimes == s.pollTimes
      && (slot in s1.settled <==>
            (slot in s.pollTimes && slot <= key.slot) || (s.date == key.date && slot in s.settled))
  {
    RunKeepsInv(r, i);
    assert r.Follows(i);
    FetchIsOpen(r.states[i], r.policy.attempts, r.polls[i], KeyAt(r, i));
  }

  /** A failure is told apart by what it leaves: a retry, or nothing. One marked on
      another day than its anchor's only drops what was pending. */
  lemma FailureTellsWhatItLeft(s: State, now: LocalNow, key: AnchorKey, policy: RetryPolicy)
    ensures
      var (s1, failure) := s.FailedFetch(now, key, policy);
      && (failure.WillRetry? <==> s1.pending.Some?)
      && (key.date != now.date ==> failure.GaveUp? && s1 == s.(pending := None))
  {
  }
}
