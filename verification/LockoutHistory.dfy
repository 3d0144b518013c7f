/** Who is locked out, told from the recorded failures and their times alone: failures
    are counted in windows of five minutes, each beginning with the first failure after
    the one before it is over. */
module LockoutHistory {
  import opened Common
  import opened FailureWindow

  /** Where the last window begins: with the first failure later than five minutes after
      the beginning of the window before. */
  function WindowStart(times: seq<int>): (p: nat)
    requires times != []
    ensures p < |times|
  {
    if |times| == 1 then 0
    else
      var p := WindowStart(times[..|times| - 1]);
      if times[|times| - 1] > times[p] + 5 * 60 * 1000 then |times| - 1 else p
  }

  /** How many failures the window of failure `j` holds up to it. */
  function CountAt(times: seq<int>, j: nat): nat
    requires j < |times|
  {
    j + 1 - WindowStart(times[..j + 1])
  }

  /** A key is locked out by five failures in its last window, while that is not over. */
  ghost predicate KeyLocks(times: seq<int>, at: int) {
    && times != []
    && |times| - WindowStart(times) >= 5 && at <= times[WindowStart(times)] + 5 * 60 * 1000
  }

  /** A domain is locked out for five minutes by a failure that is the fiftieth or a
      later one of its window. */
  ghost predicate DomainLocks(times: seq<int>, at: int) {
    exists j :: 0 <= j < |times| && CountAt(times, j) >= 50 && at < times[j] + 5 * 60 * 1000
  }

  // ---- the trackers follow the history ----

  lemma OneMore(times: seq<int>, at: int)
    ensures times + [at] != [] && (times == [] ==> WindowStart(times + [at]) == 0)
    ensures times != [] ==> WindowStart(times + [at])
                              == if at > times[WindowStart(times)] + 5 * 60 * 1000 then |times| else WindowStart(times)
    ensures forall j :: 0 <= j < |times| ==> CountAt(times + [at], j) == CountAt(times, j)
  {
    assert (times + [at])[..|times|] == times;
    forall j | 0 <= j < |times| ensures CountAt(times + [at], j) == CountAt(times, j) {
      assert (times + [at])[..j + 1] == times[..j + 1];
    }
  }

  /** The tracker counts the last window. */
  ghost predicate Counts(t: Tracker, times: seq<int>) {
    if times == [] then t.count == 0
    else t.count == |times| - WindowStart(times) && t.firstFailureAtMs == times[WindowStart(times)]
  }

  ghost predicate KeyFollows(s: State, who: Scoped) {
    var times := KeyFailures(s.history, who);
    if who in s.failures then times != [] && Counts(s.failures[who], times)
    else times == [] || s.now > times[WindowStart(times)] + 5 * 60 * 1000
  }

  ghost predicate DomainFollows(s: State, domain: Domain) {
    var t, times := GlobalOf(s, domain), DomainFailures(s.history, domain);
    && Counts(t, times)
    && (forall at :: 0 <= at ==> (at < t.lockedUntilMs <==> DomainLocks(times, at)))
  }

  ghost predicate Follows(s: State) {
    (forall who :: KeyFollows(s, who)) && forall domain :: DomainFollows(s, domain)
  }

  lemma AdvanceCounts(t: Tracker, times: seq<int>, at: int, limit: nat)
    requires Counts(t, times)
    ensures Counts(Advanced(t, at, limit), times + [at])
  {
    OneMore(times, at);
  }

  /** A tracker that was forgotten, or never there, starts the same window. */
  lemma FreshCounts(times: seq<int>, at: int, limit: nat)
    requires times == [] || at > times[WindowStart(times)] + 5 * 60 * 1000
    ensures Counts(Advanced(FRESH, at, limit), times + [at])
  {
    OneMore(times, at);
  }

  lemma LastCount(times: seq<int>, at: int)
    ensures CountAt(times + [at], |times|) == |times| + 1 - WindowStart(times + [at])
  {
    assert (times + [at])[..|times| + 1] == times + [at];
  }

  lemma AdvanceLocks(t: Tracker, times: seq<int>, at: int)
    requires Counts(t, times)
    requires forall x :: 0 <= x ==> (x < t.lockedUntilMs <==> DomainLocks(times, x))
    requires forall j :: 0 <= j < |times| ==> times[j] <= at
    ensures forall x :: 0 <= x ==>
              (x < Advanced(t, at, GLOBAL_MAX_FAILURES).lockedUntilMs <==> DomainLocks(times + [at], x))
  {
    hide CountAt;
    OneMore(times, at);
    LastCount(times, at);
    AdvanceCounts(t, times, at, GLOBAL_MAX_FAILURES);
    var grown := times + [at];
    var u := Advanced(t, at, GLOBAL_MAX_FAILURES);
    assert u.count == CountAt(grown, |times|);
    forall x | 0 <= x ensures x < u.lockedUntilMs <==> DomainLocks(grown, x) {
      LocksOneMore(times, at, x);
      if DomainLocks(times, x) {
        var j :| 0 <= j < |times| && CountAt(times, j) >= 50 && x < times[j] + 5 * 60 * 1000;
        assert times[j] <= at;
      }
    }
  }

  lemma LocksOneMore(times: seq<int>, at: int, x: int)
    ensures DomainLocks(times + [at], x) <==>
            DomainLocks(times, x) || (CountAt(times + [at], |times|) >= 50 && x < at + 5 * 60 * 1000)
  {
    hide CountAt;
    OneMore(times, at);
    var grown := times + [at];
    if DomainLocks(times, x) {
      var j :| 0 <= j < |times| && CountAt(times, j) >= 50 && x < times[j] + 5 * 60 * 1000;
      assert CountAt(grown, j) >= 50 && grown[j] == times[j];
    }
    if DomainLocks(grown, x) {
      var j :| 0 <= j < |grown| && CountAt(grown, j) >= 50 && x < grown[j] + 5 * 60 * 1000;
      if j < |times| { assert CountAt(times, j) >= 50; }
    }
    assert grown[|times|] == at;
  }

  lemma HistoryGrows(history: seq<Record>, record: Record)
    ensures forall who :: KeyFailures(history + [record], who)
              == if record.who != who then KeyFailures(history, who)
                 else if record.Failed? then KeyFailures(history, who) + [record.at] else []
    ensures forall domain :: DomainFailures(history + [record], domain)
              == if record.who.domain != domain then DomainFailures(history, domain)
                 else if record.Failed? then DomainFailures(history, domain) + [record.at] else []
  {
    assert (history + [record])[..|history|] == history;
  }

  lemma FailureFollows(s: State, who: Scoped, at: int)
    requires Inv(s) && Follows(s) && s.now <= at
    ensures Follows(AfterFailure(s, who, at))
  {
    hide Inv, WindowStart, DomainLocks;
    var t := AfterFailure(s, who, at);
    HistoryGrows(s.history, Failed(who, at));
    forall other ensures KeyFollows(t, other) {
      assert KeyFollows(s, other);
      if other == who { KeyFailureFollows(s, who, at); }
    }
    forall domain ensures DomainFollows(t, domain) {
      assert DomainFollows(s, domain);
      if domain == who.domain { DomainFailureFollows(s, domain, at); }
    }
  }

  lemma KeyFailureFollows(s: State, who: Scoped, at: int)
    requires KeyFollows(s, who) && s.now <= at
    ensures Counts(Advanced(if who in s.failures then s.failures[who] else FRESH, at, MAX_FAILURES),
                   KeyFailures(s.history, who) + [at])
  {
    var times := KeyFailures(s.history, who);
    if who in s.failures { AdvanceCounts(s.failures[who], times, at, MAX_FAILURES); }
    else { FreshCounts(times, at, MAX_FAILURES); }
  }

  lemma DomainFailureFollows(s: State, domain: Domain, at: int)
    requires Inv(s) && DomainFollows(s, domain) && s.now <= at
    ensures var u, grown := Advanced(GlobalOf(s, domain), at, GLOBAL_MAX_FAILURES),
                            DomainFailures(s.history, domain) + [at];
            Counts(u, grown) && forall x :: 0 <= x ==> (x < u.lockedUntilMs <==> DomainLocks(grown, x))
  {
    hide WindowStart, DomainLocks;
    var t, times := GlobalOf(s, domain), DomainFailures(s.history, domain);
    assert DomainOk(s, domain);
    AdvanceCounts(t, times, at, GLOBAL_MAX_FAILURES);
    AdvanceLocks(t, times, at);
  }

  lemma SuccessFollows(s: State, who: Scoped)
    requires Follows(s)
    ensures Follows(AfterSuccess(s, who))
  {
    hide WindowStart;
    var t := AfterSuccess(s, who);
    HistoryGrows(s.history, Succeeded(who));
    forall other ensures KeyFollows(t, other) { assert KeyFollows(s, other); }
    forall domain ensures DomainFollows(t, domain) { assert DomainFollows(s, domain); }
  }

  /** Waiting, and forgetting trackers whose window is over. */
  lemma ForgettingFollows(s: State, t: State)
    requires Follows(s) && s.now <= t.now && t.history == s.history && t.globalFailures == s.globalFailures
    requires forall who :: who in t.failures ==> who in s.failures && t.failures[who] == s.failures[who]
    requires forall who :: who in s.failures && who !in t.failures ==> Expired(s.failures[who], t.now)
    ensures Follows(t)
  {
    hide WindowStart, DomainLocks;
    forall who ensures KeyFollows(t, who) { assert KeyFollows(s, who); }
    forall domain ensures DomainFollows(t, domain) { assert DomainFollows(s, domain); }
  }

  lemma StepFollows(s: State, step: Step)
    requires Inv(s) && Follows(s) && Enabled(s, step)
    ensures Follows(Apply(s, step))
  {
    match step
    case Purge(at) =>
      hide Follows, Inv;
      ForgettingFollows(s, Apply(s, step));
    case Attempt(who, correct, checkedAt, recordedAt) =>
      hide Follows, Inv;
      var checked := AfterCheck(s, who, checkedAt);
      ForgettingFollows(s, checked);
      CheckKeeps(s, who, checkedAt);
      if !LockedOut(s, who, checkedAt) {
        if correct { SuccessFollows(checked, who); } else { FailureFollows(checked, who, recordedAt); }
      }
  }

  lemma {:induction false} FollowsAlongRun(s: State, steps: seq<Step>)
    requires Inv(s) && Follows(s) && Legal(s, steps)
    ensures Inv(After(s, steps)) && Follows(After(s, steps)) && s.now <= After(s, steps).now
    decreases |steps|
  {
    hide Inv, Follows;
    if steps != [] {
      StepFollows(s, steps[0]);
      StepKeepsInv(s, steps[0]);
      FollowsAlongRun(Apply(s, steps[0]), steps[1..]);
    }
  }

  lemma StepKeepsInv(s: State, step: Step)
    requires Inv(s) && Enabled(s, step)
    ensures Inv(Apply(s, step)) && s.now <= Apply(s, step).now
  {
    hide Inv;
    if step.Purge? { PurgeKeeps(s, step.at); } else { AttemptKeeps(s, step); }
  }

  // ---- main results ----

  /** Who is locked out, at any moment of any run. */
  lemma LockedOutIff(now: int, steps: seq<Step>, who: Scoped, at: int)
    requires now >= 0 && Legal(Initial(now), steps) && After(Initial(now), steps).now <= at
    ensures var s := After(Initial(now), steps);
            LockedOut(s, who, at) <==>
            KeyLocks(KeyFailures(s.history, who), at) || DomainLocks(DomainFailures(s.history, who.domain), at)
  {
    hide WindowStart, DomainLocks;
    StartFollows(now);
    FollowsAlongRun(Initial(now), steps);
    var s := After(Initial(now), steps);
    assert KeyFollows(s, who) && DomainFollows(s, who.domain) && KeyOk(s, who);
  }

  lemma StartFollows(now: int)
    ensures Inv(Initial(now)) && Follows(Initial(now))
  {}

  /** What an attempt leaves on record: nothing when it is locked out by the failures
      before it, a success when the password is correct, and otherwise a failure at
      the time it is recorded. */
  lemma AttemptRecords(now: int, steps: seq<Step>, who: Scoped, correct: bool, checkedAt: int, recordedAt: int)
    requires now >= 0 && Legal(Initial(now), steps)
    requires Enabled(After(Initial(now), steps), Attempt(who, correct, checkedAt, recordedAt))
    ensures var s := After(Initial(now), steps);
            var t := Apply(s, Attempt(who, correct, checkedAt, recordedAt));
            if KeyLocks(KeyFailures(s.history, who), checkedAt)
               || DomainLocks(DomainFailures(s.history, who.domain), checkedAt)
            then t.history == s.history
            else t.history == s.history + [if correct then Succeeded(who) else Failed(who, recordedAt)]
  {
    LockedOutIff(now, steps, who, checkedAt);
  }

  /** A purge keeps just the trackers whose window is not over. */
  lemma PurgeForgets(now: int, steps: seq<Step>, at: int, who: Scoped)
    requires Legal(Initial(now), steps) && After(Initial(now), steps).now <= at
    ensures var s := After(Initial(now), steps);
            var times := KeyFailures(s.history, who);
            who in Apply(s, Purge(at)).failures <==>
            times != [] && at <= times[WindowStart(times)] + 5 * 60 * 1000
  {
    hide WindowStart;
    StartFollows(now);
    FollowsAlongRun(Initial(now), steps);
    assert KeyFollows(After(Initial(now), steps), who);
  }
}
