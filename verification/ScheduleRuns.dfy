/** What the schedule keeps over whole days of polling: the fetch budget, and
    that a day's fetches never go back to an earlier anchor. */
module ScheduleRuns {
  import opened Units
  import opened Schedule

  datatype Result = Succeeded | FailedForGood | FailedTransient

  /** One poll: the clock read it decides on, the same-day clock read its fetch
      (if any) is marked with, and how that fetch went. */
  datatype Poll = Poll(now: LocalNow, marked: LocalNow, result: Result)

  function Marked(s: State, policy: RetryPolicy, p: Poll, key: AnchorKey): State
  {
    match p.result
    case Succeeded => s.Used(p.marked, key.slot)
    case FailedForGood => s.Used(p.marked, key.slot)
    case FailedTransient => s.FailedFetch(p.marked, key, policy).0
  }

  function StepPoll(s: State, policy: RetryPolicy, p: Poll): State
  {
    match s.Decide(p.now)
    case Nothing => s
    case Anchor(key) => Marked(s, policy, p, key)
    case Retry(key, _, _) => Marked(s, policy, p, key)
  }

  predicate Fetched(s: State, p: Poll, key: AnchorKey)
  {
    !s.Decide(p.now).Nothing? && s.Decide(p.now).key == key
  }

  datatype Run = Run(policy: RetryPolicy, polls: seq<Poll>, states: seq<State>)
  {
    ghost predicate Valid()
    {
      && |states| == |polls| + 1
      && states[0].pending.None?
      && (polls != [] ==> states[0].date <= polls[0].now.date)
      && (forall k | 0 <= k < |polls| :: Follows(k))
    }

    ghost predicate Follows(k: nat)
      requires k < |polls| && |states| == |polls| + 1
    {
      && states[k + 1] == StepPoll(states[k], policy, polls[k])
      && polls[k].now.date == polls[k].marked.date
      && polls[k].now.time <= polls[k].marked.time
      && (k > 0 ==> polls[k - 1].marked.Naive() <= polls[k].now.Naive())
    }

    predicate FetchedAt(k: nat, key: AnchorKey)
      requires k < |polls| < |states|
    {
      Fetched(states[k], polls[k], key)
    }

    function Fetches(key: AnchorKey, k: nat): nat
      requires k <= |polls| < |states|
    {
      if k == 0 then 0 else Fetches(key, k - 1) + (if FetchedAt(k - 1, key) then 1 else 0)
    }
  }

  // --- The invariant and the potential ---

  /** The pending anchor is unsettled, was due by `now`, and every anchor listed
      after it and not later in the day has settled. */
  ghost predicate PendingInv(s: State, attempts: U8, now: LocalNow)
  {
    s.pending.Some? ==>
      var p := s.pending.value;
      && 1 <= p.attempt <= attempts && p.of == attempts
      && p.due / NANOS_PER_DAY == p.anchor.date
      && Before(p.anchor, now)
      && !(s.date == p.anchor.date && p.anchor.slot in s.settled)
      && exists q :: LastListed(s, p.anchor, q)
  }

  predicate Before(key: AnchorKey, now: LocalNow)
  {
    key.date < now.date || (key.date == now.date && key.slot <= now.time)
  }

  ghost predicate LastListed(s: State, key: AnchorKey, q: int)
  {
    && 0 <= q < |s.pollTimes| && s.pollTimes[q] == key.slot
    && forall r | q < r < |s.pollTimes| && s.pollTimes[r] <= key.slot ::
         s.date == key.date && s.pollTimes[r] in s.settled
  }

  ghost predicate Inv(s: State, attempts: U8, now: LocalNow)
  {
    s.date <= now.date && PendingInv(s, attempts, now)
  }

  /** No fetch of `key` can come any more. */
  predicate Closed(s: State, key: AnchorKey, now: LocalNow)
  {
    || key.date < now.date
    || (s.date == key.date && key.slot in s.settled)
    || (s.pending.Some? && s.pending.value.anchor.date == key.date && key.slot < s.pending.value.anchor.slot)
  }

  /** How many fetches of `key` are still possible at most. */
  function Budget(s: State, key: AnchorKey, attempts: U8, now: LocalNow): int
  {
    if Closed(s, key, now) then 0
    else if s.pending.Some? && s.pending.value.anchor == key then attempts + 1 - s.pending.value.attempt
    else attempts + 1
  }

  predicate NotLater(a: LocalNow, b: LocalNow) { a.Naive() <= b.Naive() }

  lemma Calendar(a: LocalNow, b: LocalNow)
    ensures NotLater(a, b) <==> a.date < b.date || (a.date == b.date && a.time <= b.time)
    ensures a.Naive() / NANOS_PER_DAY == a.date
  {
  }

  lemma {:induction false} LastEligibleIsLast(s: State, now: LocalNow, n: nat) returns (q: int)
    requires n <= |s.pollTimes|
    ensures s.LastEligible(now, n).None? ==> q == -1 && forall r | 0 <= r < n :: !s.Eligible(now, s.pollTimes[r])
    ensures s.LastEligible(now, n).Some? ==>
              && 0 <= q < n && s.pollTimes[q] == s.LastEligible(now, n).value && s.Eligible(now, s.pollTimes[q])
              && forall r | q < r < n :: !s.Eligible(now, s.pollTimes[r])
  {
    if n == 0 {
      q := -1;
    } else if s.Eligible(now, s.pollTimes[n - 1]) {
      q := n - 1;
    } else {
      q := LastEligibleIsLast(s, now, n - 1);
    }
  }

  /** A newly due anchor is unsettled, due, listed after every other eligible
      one, and later in the day than a pending one. */
  lemma NewAnchorIsOpen(s: State, attempts: U8, now: LocalNow) returns (q: int)
    requires Inv(s, attempts, now) && s.Decide(now).Anchor?
    ensures
      var key := s.Decide(now).key;
      && key.date == now.date && key.slot <= now.time && !Closed(s, key, now)
      && !(s.pending.Some? && s.pending.value.anchor == key)
      && LastListed(s, key, q)
  {
    q := LastEligibleIsLast(s, now, |s.pollTimes|);
    var key := s.Decide(now).key;
    if s.pending.Some? && s.pending.value.anchor.date == key.date && key.slot < s.pending.value.anchor.slot {
      var p := s.pending.value.anchor;
      var x :| LastListed(s, p, x);
      assert s.Eligible(now, s.pollTimes[x]);
      assert false;
    }
  }

  lemma FetchIsOpen(s: State, attempts: U8, p: Poll, key: AnchorKey)
    requires Inv(s, attempts, p.now) && Fetched(s, p, key)
    ensures key.date == p.now.date && Before(key, p.now) && !Closed(s, key, p.now)
    ensures Budget(s, key, attempts, p.now) >= 1
    ensures exists q :: LastListed(s, key, q)
  {
    if s.Decide(p.now).Anchor? {
      var q := NewAnchorIsOpen(s, attempts, p.now);
    }
  }

  /** What marking a fetch leaves: the anchor settled with all before it, or
      pending one attempt further on. */
  lemma MarkShape(s: State, policy: RetryPolicy, p: Poll, key: AnchorKey)
    requires policy.attempts <= 254 && Inv(s, policy.attempts, p.now) && Fetched(s, p, key)
    requires p.now.date == p.marked.date && p.now.time <= p.marked.time
    ensures
      var s1 := StepPoll(s, policy, p);
      && s1.pollTimes == s.pollTimes
      && (s1 == s.Used(p.marked, key.slot)
          || (s1.date == s.date && s1.settled == s.settled && s1.pending.Some?
              && s1.pending.value.anchor == key && s1.pending.value.of == policy.attempts
              && s1.pending.value.attempt == s.AttemptFor(key) <= policy.attempts
              && s1.pending.value.due / NANOS_PER_DAY == key.date))
  {
    FetchIsOpen(s, policy.attempts, p, key);
  }

  lemma StepKeepsInv(s: State, policy: RetryPolicy, p: Poll)
    requires policy.attempts <= 254 && Inv(s, policy.attempts, p.now)
    requires p.now.date == p.marked.date && p.now.time <= p.marked.time
    ensures Inv(StepPoll(s, policy, p), policy.attempts, p.marked)
    ensures StepPoll(s, policy, p).pollTimes == s.pollTimes
  {
    if !s.Decide(p.now).Nothing? {
      var key := s.Decide(p.now).key;
      FetchIsOpen(s, policy.attempts, p, key);
      MarkShape(s, policy, p, key);
      var q :| LastListed(s, key, q);
      assert StepPoll(s, policy, p).pending.Some? ==> LastListed(StepPoll(s, policy, p), key, q);
    } else if s.pending.Some? {
      var q :| LastListed(s, s.pending.value.anchor, q);
    }
  }

  lemma LaterKeepsInv(s: State, attempts: U8, a: LocalNow, b: LocalNow)
    requires Inv(s, attempts, a) && NotLater(a, b)
    ensures Inv(s, attempts, b)
  {
    Calendar(a, b);
  }

  /** A fetch spends one of its anchor's budget and gives nothing back to any
      other configured anchor. */
  lemma StepSpendsBudget(s: State, policy: RetryPolicy, p: Poll, key: AnchorKey)
    requires policy.attempts <= 254 && Inv(s, policy.attempts, p.now) && key.slot in s.pollTimes
    requires p.now.date == p.marked.date && p.now.time <= p.marked.time
    ensures Budget(StepPoll(s, policy, p), key, policy.attempts, p.marked) + (if Fetched(s, p, key) then 1 else 0)
            <= Budget(s, key, policy.attempts, p.now)
    ensures Closed(s, key, p.now) ==> Closed(StepPoll(s, policy, p), key, p.marked) && !Fetched(s, p, key)
  {
    if !s.Decide(p.now).Nothing? {
      var fetched := s.Decide(p.now).key;
      FetchIsOpen(s, policy.attempts, p, fetched);
      MarkShape(s, policy, p, fetched);
      if s.Decide(p.now).Anchor? {
        var q := NewAnchorIsOpen(s, policy.attempts, p.now);
      }
    }
  }

  lemma LaterKeepsBudget(s: State, attempts: U8, key: AnchorKey, a: LocalNow, b: LocalNow)
    requires NotLater(a, b)
    requires s.pending.Some? ==> s.pending.value.attempt <= attempts
    ensures Budget(s, key, attempts, b) <= Budget(s, key, attempts, a)
    ensures Closed(s, key, a) ==> Closed(s, key, b)
  {
    Calendar(a, b);
  }

  lemma {:induction false} RunKeepsInv(r: Run, k: nat)
    requires r.Valid() && r.policy.attempts <= 254 && k < |r.polls|
    ensures Inv(r.states[k], r.policy.attempts, r.polls[k].now)
    ensures r.states[k].pollTimes == r.states[0].pollTimes
  {
    assert r.Follows(k);
    if k > 0 {
      RunKeepsInv(r, k - 1);
      assert r.Follows(k - 1);
      StepKeepsInv(r.states[k - 1], r.policy, r.polls[k - 1]);
      LaterKeepsInv(r.states[k], r.policy.attempts, r.polls[k - 1].marked, r.polls[k].now);
    }
  }

  lemma {:induction false} FetchesFitBudget(r: Run, key: AnchorKey, k: nat)
    requires r.Valid() && r.policy.attempts <= 254 && k < |r.polls| && key.slot in r.states[0].pollTimes
    ensures r.Fetches(key, k) + Budget(r.states[k], key, r.policy.attempts, r.polls[k].now) <= r.policy.attempts + 1
  {
    RunKeepsInv(r, k);
    if k > 0 {
      FetchesFitBudget(r, key, k - 1);
      RunKeepsInv(r, k - 1);
      assert r.Follows(k - 1) && r.Follows(k);
      StepSpendsBudget(r.states[k - 1], r.policy, r.polls[k - 1], key);
      LaterKeepsBudget(r.states[k], r.policy.attempts, key, r.polls[k - 1].marked, r.polls[k].now);
    }
  }

  lemma FetchIsListed(r: Run, key: AnchorKey, k: nat)
    requires r.Valid() && r.policy.attempts <= 254 && k < |r.polls| && r.FetchedAt(k, key)
    ensures key.slot in r.states[0].pollTimes
  {
    RunKeepsInv(r, k);
    FetchIsOpen(r.states[k], r.policy.attempts, r.polls[k], key);
    var q :| LastListed(r.states[k], key, q);
  }

  lemma {:induction false} UnlistedIsNeverFetched(r: Run, key: AnchorKey, k: nat)
    requires r.Valid() && r.policy.attempts <= 254 && k <= |r.polls| && key.slot !in r.states[0].pollTimes
    ensures r.Fetches(key, k) == 0
  {
    if k > 0 {
      UnlistedIsNeverFetched(r, key, k - 1);
      if r.FetchedAt(k - 1, key) { FetchIsListed(r, key, k - 1); }
    }
  }

  /** Over any run, in whatever order the anchors are listed, each anchor is
      fetched on its day at most once more than the policy's attempts. */
  lemma FetchBudget(r: Run, key: AnchorKey)
    requires r.Valid() && r.policy.attempts <= 254
    ensures r.Fetches(key, |r.polls|) <= 1 + r.policy.attempts
  {
    if key.slot !in r.states[0].pollTimes {
      UnlistedIsNeverFetched(r, key, |r.polls|);
    } else if r.polls != [] {
      var k := |r.polls| - 1;
      FetchesFitBudget(r, key, k);
      RunKeepsInv(r, k);
      if r.FetchedAt(k, key) { FetchIsOpen(r.states[k], r.policy.attempts, r.polls[k], key); }
    }
  }

  // --- Never back ---

  lemma {:induction false} ClosedStaysClosed(r: Run, key: AnchorKey, i: nat, j: nat)
    requires r.Valid() && r.policy.attempts <= 254 && i <= j < |r.polls| && key.slot in r.states[0].pollTimes
    requires Closed(r.states[i], key, r.polls[i].now)
    ensures Closed(r.states[j], key, r.polls[j].now) && !r.FetchedAt(j, key)
  {
    if i < j {
      ClosedStaysClosed(r, key, i, j - 1);
      RunKeepsInv(r, j - 1);
      assert r.Follows(j - 1) && r.Follows(j);
      StepSpendsBudget(r.states[j - 1], r.policy, r.polls[j - 1], key);
      StepKeepsInv(r.states[j - 1], r.policy, r.polls[j - 1]);
      LaterKeepsBudget(r.states[j], r.policy.attempts, key, r.polls[j - 1].marked, r.polls[j].now);
    }
    RunKeepsInv(r, j);
    if r.FetchedAt(j, key) { FetchIsOpen(r.states[j], r.policy.attempts, r.polls[j], key); }
  }

  lemma FetchClosesEarlier(r: Run, key: AnchorKey, earlier: AnchorKey, i: nat)
    requires r.Valid() && r.policy.attempts <= 254 && i + 1 < |r.polls| && r.FetchedAt(i, key)
    requires earlier.date == key.date && earlier.slot in r.states[0].pollTimes
    requires earlier.slot < key.slot || (earlier == key && r.states[i + 1].pending.None?)
    ensures Closed(r.states[i + 1], earlier, r.polls[i + 1].now)
  {
    RunKeepsInv(r, i);
    RunKeepsInv(r, i + 1);
    assert r.Follows(i) && r.Follows(i + 1);
    FetchIsOpen(r.states[i], r.policy.attempts, r.polls[i], key);
    MarkShape(r.states[i], r.policy, r.polls[i], key);
    StepKeepsInv(r.states[i], r.policy, r.polls[i]);
    LaterKeepsBudget(r.states[i + 1], r.policy.attempts, earlier, r.polls[i].marked, r.polls[i + 1].now);
  }

  /** A day's fetches never go back: what follows a fetch is that anchor again or
      a later one. So a superseded anchor never returns, and neither does any
      anchor at or before one that has settled. */
  lemma FetchesNeverGoBack(r: Run, i: nat, j: nat, first: AnchorKey, second: AnchorKey)
    requires r.Valid() && r.policy.attempts <= 254 && i < j < |r.polls|
    requires r.FetchedAt(i, first) && r.FetchedAt(j, second) && first.date == second.date
    ensures first.slot <= second.slot
    ensures r.states[i + 1].pending.None? ==> first.slot < second.slot
  {
    FetchIsListed(r, second, j);
    if second.slot < first.slot || (second == first && r.states[i + 1].pending.None?) {
      FetchClosesEarlier(r, first, second, i);
      ClosedStaysClosed(r, second, i + 1, j);
    }
  }

  /** A retry is fetched on its anchor's own day, and no earlier than it is due. */
  lemma RetriesStayInTheDay(r: Run, k: nat)
    requires r.Valid() && r.policy.attempts <= 254 && k < |r.polls| && r.states[k].Decide(r.polls[k].now).Retry?
    ensures
      var p := r.states[k].pending.value;
      && r.FetchedAt(k, p.anchor) && p.anchor.date == r.polls[k].now.date
      && p.due / NANOS_PER_DAY == p.anchor.date && p.due <= r.polls[k].now.Naive()
      && 1 <= p.attempt <= r.policy.attempts
  {
    RunKeepsInv(r, k);
  }

  // --- The counter saturates ---

  /** A single anchor that fails at once, again and again, within one minute. */
  function Stuck(n: nat): Run
  {
    var now := LocalNow(1, 0);
    var policy := RetryPolicy(0, 255);
    Run(policy, seq(n, _ => Poll(now, now, FailedTransient)), seq(n + 1, k requires 0 <= k <= n => StuckAt(k)))
  }

  function StuckAt(k: nat): State
  {
    State(0, {}, [0], if k == 0 then None
                      else Some(PendingRetry(AnchorKey(1, 0), Min(k, 255), 255, LocalNow(1, 0).Naive())))
  }

  lemma StuckStep(k: nat)
    ensures
      var p := Poll(LocalNow(1, 0), LocalNow(1, 0), FailedTransient);
      Fetched(StuckAt(k), p, AnchorKey(1, 0)) && StepPoll(StuckAt(k), RetryPolicy(0, 255), p) == StuckAt(k + 1)
  {
    var s, now := StuckAt(k), LocalNow(1, 0);
    Calendar(now, now);
    assert s.Eligible(now, 0);
    assert s.NextDue(now) == Some(0);
  }

  lemma {:induction false} StuckFetches(n: nat, k: nat)
    requires k <= n
    ensures Stuck(n).Fetches(AnchorKey(1, 0), k) == k
  {
    if k > 0 {
      StuckFetches(n, k - 1);
      StuckStep(k - 1);
    }
  }

  lemma StuckIsARun(n: nat)
    ensures Stuck(n).Valid()
  {
    forall k | 0 <= k < n ensures Stuck(n).Follows(k) {
      StuckStep(k);
    }
  }

  ghost predicate Budgeted(attempts: U8)
  {
    forall r: Run, key | r.Valid() && r.policy.attempts == attempts ::
      r.Fetches(key, |r.polls|) <= 1 + attempts
  }

  /** The budget holds for every delay and every run exactly while the counter
      has room for one attempt more than the policy allows. */
  lemma BudgetHoldsBelowSaturation(attempts: U8)
    ensures Budgeted(attempts) <==> attempts <= 254
  {
    if attempts <= 254 {
      forall r: Run, key | r.Valid() && r.policy.attempts == attempts
        ensures r.Fetches(key, |r.polls|) <= 1 + attempts
      {
        FetchBudget(r, key);
      }
    } else {
      StuckIsARun(257);
      StuckFetches(257, 257);
      var r, key := Stuck(257), AnchorKey(1, 0);
      assert r.Valid() && r.policy.attempts == attempts && r.Fetches(key, |r.polls|) == 257;
    }
  }
}
