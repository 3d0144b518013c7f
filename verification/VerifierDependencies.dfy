/** The order of a verifier run, told from its log, the persisted statuses and the
    criteria alone: what may start, what is skipped, and who goes first. */
module VerifierDependencies {
  import opened Common
  import opened VerifierSchedule

  // ---- what the log says of a prerequisite ----

  ghost predicate RecordOf(log: seq<Event>, k: int, id: Id) {
    0 <= k < |log| && log[k].Recorded? && log[k].id == id
  }

  /** The last record of `id` before `n` is this status. */
  ghost predicate LastIs(log: seq<Event>, n: int, id: Id, status: Status) {
    exists k ::
      && k < n && RecordOf(log, k, id) && log[k].status == status
      && forall j :: k < j < n ==> !RecordOf(log, j, id)
  }

  ghost predicate NoRecord(log: seq<Event>, n: int, id: Id) {
    forall k :: k < n ==> !RecordOf(log, k, id)
  }

  /** Before `n`, the prerequisite passed in this run; or it has no result in this
      run yet and its persisted status is passed. */
  ghost predicate Cleared(setting: Setting, log: seq<Event>, n: int, id: Id) {
    || LastIs(log, n, id, Passed)
    || (NoRecord(log, n, id) && id in setting.persisted && setting.persisted[id] == Passed)
  }

  ghost predicate NotStarted(log: seq<Event>, n: int, id: Id) {
    forall k :: 0 <= k < n && k < |log| && log[k].Started? ==> log[k].criterion.id != id
  }

  lemma {:induction false} StatusesAre(log: seq<Event>, id: Id)
    ensures id in StatusesIn(log) ==> LastIs(log, |log|, id, StatusesIn(log)[id])
    ensures id !in StatusesIn(log) ==> NoRecord(log, |log|, id)
  {
    if log != [] {
      var init, last := log[..|log| - 1], log[|log| - 1];
      StatusesAre(init, id);
      assert forall j :: RecordOf(init, j, id) <==> j < |init| && RecordOf(log, j, id);
      if last.Recorded? && last.id == id {
        assert RecordOf(log, |init|, id);
      } else if id in StatusesIn(init) {
        var k :| k < |init| && RecordOf(init, k, id) && init[k].status == StatusesIn(init)[id]
                 && forall j :: k < j < |init| ==> !RecordOf(init, j, id);
        assert RecordOf(log, k, id);
        assert forall j :: k < j < |log| ==> !RecordOf(log, j, id);
      }
    }
  }

  lemma OneLast(log: seq<Event>, n: int, id: Id, a: Status, b: Status)
    requires LastIs(log, n, id, a) && LastIs(log, n, id, b)
    ensures a == b
  {
    var k :| k < n && RecordOf(log, k, id) && log[k].status == a && forall j :: k < j < n ==> !RecordOf(log, j, id);
    var m :| m < n && RecordOf(log, m, id) && log[m].status == b && forall j :: m < j < n ==> !RecordOf(log, j, id);
    assert !(k < m) && !(m < k);
  }

  lemma LastIsRecord(log: seq<Event>, n: int, id: Id, status: Status)
    requires LastIs(log, n, id, status)
    ensures !NoRecord(log, n, id)
  {}

  /** The scheduler's view of a prerequisite is the one read from the log. */
  lemma ClearedIsPassed(setting: Setting, log: seq<Event>, id: Id)
    ensures Cleared(setting, log, |log|, id) <==> DependencyStatus(setting, StatusesIn(log), id) == Some(Passed)
  {
    hide LastIs, NoRecord;
    StatusesAre(log, id);
    if id in StatusesIn(log) {
      LastIsRecord(log, |log|, id, StatusesIn(log)[id]);
      if LastIs(log, |log|, id, Passed) { OneLast(log, |log|, id, Passed, StatusesIn(log)[id]); }
    } else {
      if LastIs(log, |log|, id, Passed) { LastIsRecord(log, |log|, id, Passed); }
    }
  }

  lemma LaterIsNothing(setting: Setting, log: seq<Event>, n: nat, id: Id)
    requires n <= |log|
    ensures Cleared(setting, log, n, id) <==> Cleared(setting, log[..n], n, id)
  {
    forall k | k < n ensures RecordOf(log, k, id) <==> RecordOf(log[..n], k, id) {}
    LastUpTo(log, n, id);
  }

  lemma LastUpTo(log: seq<Event>, n: nat, id: Id)
    requires n <= |log|
    ensures LastIs(log, n, id, Passed) <==> LastIs(log[..n], n, id, Passed)
  {
    forall k | k < n ensures RecordOf(log, k, id) <==> RecordOf(log[..n], k, id) {}
    if LastIs(log, n, id, Passed) {
      var k :| k < n && RecordOf(log, k, id) && log[k].status == Passed
               && forall j :: k < j < n ==> !RecordOf(log, j, id);
      assert RecordOf(log[..n], k, id);
    }
    if LastIs(log[..n], n, id, Passed) {
      var k :| k < n && RecordOf(log[..n], k, id) && log[..n][k].status == Passed
               && forall j :: k < j < n ==> !RecordOf(log[..n], j, id);
      assert RecordOf(log, k, id);
    }
  }

  lemma BlockedIs(setting: Setting, log: seq<Event>, n: nat, c: Criterion)
    requires n <= |log|
    ensures Blocked(setting, StatusesIn(log[..n]), c) <==>
              exists d :: d in c.dependsOn && !Cleared(setting, log, n, d)
  {
    hide Cleared, DependencyStatus, StatusesIn;
    forall d ensures Cleared(setting, log, n, d) <==>
                     DependencyStatus(setting, StatusesIn(log[..n]), d) == Some(Passed)
    {
      LaterIsNothing(setting, log, n, d);
      ClearedIsPassed(setting, log[..n], d);
    }
  }

  // ---- what is recorded without a start ----

  /** Some criterion of this id has a prerequisite that is not cleared. */
  ghost predicate Held(setting: Setting, criteria: seq<Criterion>, log: seq<Event>, n: int, id: Id) {
    exists c, d :: c in criteria && c.id == id && d in c.dependsOn && !Cleared(setting, log, n, d)
  }

  ghost predicate SkippedAt(setting: Setting, criteria: seq<Criterion>, log: seq<Event>, i: nat)
    requires i < |log| && log[i].Recorded?
  {
    log[i].status == Inconclusive && Held(setting, criteria, log, i, log[i].id)
  }

  ghost predicate SkipsAreHeld(setting: Setting, criteria: seq<Criterion>, log: seq<Event>) {
    forall i: nat :: i < |log| && log[i].Recorded? && NotStarted(log, i, log[i].id) ==>
      SkippedAt(setting, criteria, log, i)
  }

  lemma PrefixSkips(setting: Setting, criteria: seq<Criterion>, log: seq<Event>, event: Event, i: nat)
    requires i < |log| && log[i].Recorded? && SkippedAt(setting, criteria, log, i)
    ensures SkippedAt(setting, criteria, log + [event], i)
  {
    hide Cleared;
    var c, d :| c in criteria && c.id == log[i].id && d in c.dependsOn && !Cleared(setting, log, i, d);
    LaterIsNothing(setting, log, i, d);
    LaterIsNothing(setting, log + [event], i, d);
    assert (log + [event])[..i] == log[..i];
  }

  lemma LogGrows(setting: Setting, criteria: seq<Criterion>, log: seq<Event>, event: Event)
    requires SkipsAreHeld(setting, criteria, log)
    requires event.Recorded? && NotStarted(log, |log|, event.id) ==>
               event.status == Inconclusive && Held(setting, criteria, log, |log|, event.id)
    ensures SkipsAreHeld(setting, criteria, log + [event])
  {
    hide SkippedAt, Held;
    var grown := log + [event];
    forall i: nat | i < |grown| && grown[i].Recorded? && NotStarted(grown, i, grown[i].id)
      ensures SkippedAt(setting, criteria, grown, i)
    {
      if i < |log| {
        assert forall k :: 0 <= k < i ==> grown[k] == log[k];
        assert NotStarted(log, i, log[i].id);
        PrefixSkips(setting, criteria, log, event, i);
      } else {
        assert forall k :: 0 <= k < i ==> grown[k] == log[k];
        NewSkip(setting, criteria, log, event);
      }
    }
  }

  lemma NewSkip(setting: Setting, criteria: seq<Criterion>, log: seq<Event>, event: Event)
    requires event.Recorded? && event.status == Inconclusive && Held(setting, criteria, log, |log|, event.id)
    ensures SkippedAt(setting, criteria, log + [event], |log|)
  {
    hide Cleared;
    var c, d :| c in criteria && c.id == event.id && d in c.dependsOn && !Cleared(setting, log, |log|, d);
    LaterIsNothing(setting, log, |log|, d);
    LaterIsNothing(setting, log + [event], |log|, d);
    assert (log + [event])[..|log|] == log[..|log|];
  }

  /** What the run has come to, beside the scheduler's invariant: every skip was
      held, and what runs was started. */
  ghost predicate Told(setting: Setting, criteria: seq<Criterion>, s: State) {
    && StatusesIn(s.log) == s.statuses
    && SkipsAreHeld(setting, criteria, s.log)
    && forall c :: c in s.running ==> !NotStarted(s.log, |s.log|, c.id)
  }

  lemma StartedStays(log: seq<Event>, event: Event, id: Id)
    requires !NotStarted(log, |log|, id)
    ensures !NotStarted(log + [event], |log| + 1, id)
  {
    var k :| 0 <= k < |log| && log[k].Started? && log[k].criterion.id == id;
    assert (log + [event])[k] == log[k];
  }

  lemma RecordTold(setting: Setting, criteria: seq<Criterion>, s: State, id: Id, status: Status)
    requires Told(setting, criteria, s)
    requires NotStarted(s.log, |s.log|, id) ==>
               status == Inconclusive && Held(setting, criteria, s.log, |s.log|, id)
    ensures Told(setting, criteria, Record(s, id, status))
  {
    hide NotStarted, Held, SkipsAreHeld;
    LogGrows(setting, criteria, s.log, Recorded(id, status));
    forall c | c in s.running ensures !NotStarted(s.log + [Recorded(id, status)], |s.log| + 1, c.id) {
      StartedStays(s.log, Recorded(id, status), c.id);
    }
    var grown := s.log + [Recorded(id, status)];
    assert grown[..|grown| - 1] == s.log;
  }

  lemma LaunchTold(setting: Setting, criteria: seq<Criterion>, s: State, c: Criterion)
    requires Told(setting, criteria, s) && c in criteria
    ensures Told(setting, criteria, Launch(setting, s, c))
  {
    hide NotStarted, SkipsAreHeld, Cleared, Blocked;
    assert s.log[..|s.log|] == s.log;
    BlockedIs(setting, s.log, |s.log|, c);
    if Blocked(setting, s.statuses, c) {
      RecordTold(setting, criteria, s, c.id, Inconclusive);
    } else {
      var grown := s.log + [Started(c)];
      assert grown[..|grown| - 1] == s.log;
      LogGrows(setting, criteria, s.log, Started(c));
      NowStarted(s.log, c);
      forall r | r in s.running ensures !NotStarted(grown, |grown|, r.id) {
        StartedStays(s.log, Started(c), r.id);
      }
    }
  }

  lemma NowStarted(log: seq<Event>, c: Criterion)
    ensures !NotStarted(log + [Started(c)], |log| + 1, c.id)
  {
    assert (log + [Started(c)])[|log|] == Started(c);
  }

  lemma {:induction false} LaunchAllTold(setting: Setting, criteria: seq<Criterion>, s: State, batch: seq<Criterion>)
    requires Told(setting, criteria, s) && forall c :: c in batch ==> c in criteria
    ensures Told(setting, criteria, LaunchAll(setting, s, batch))
    decreases |batch|
  {
    hide Told, Launch;
    if batch != [] {
      LaunchAllTold(setting, criteria, s, batch[..|batch| - 1]);
      LaunchTold(setting, criteria, LaunchAll(setting, s, batch[..|batch| - 1]), batch[|batch| - 1]);
    }
  }

  /** A criterion with a prerequisite that had no status, while others like it are
      recorded inconclusive. */
  ghost predicate Stuck(setting: Setting, s: State, c: Criterion) {
    exists d :: d in c.dependsOn && DependencyStatus(setting, s.statuses, d) != Some(Passed)
  }

  lemma {:induction false} RecordAllTold(setting: Setting, criteria: seq<Criterion>, s: State, all: seq<Criterion>)
    requires Told(setting, criteria, s) && forall c :: c in all ==> c in criteria
    requires forall c :: c in all ==> Stuck(setting, s, c)
    ensures Told(setting, criteria, RecordAll(s, all))
    ensures forall c :: Stuck(setting, s, c) ==> Stuck(setting, RecordAll(s, all), c)
    decreases |all|
  {
    hide Told;
    if all != [] {
      var init, last := all[..|all| - 1], all[|all| - 1];
      assert forall c :: c in init ==> c in all;
      RecordAllTold(setting, criteria, s, init);
      var t := RecordAll(s, init);
      StuckIsHeld(setting, criteria, t, last);
      RecordTold(setting, criteria, t, last.id, Inconclusive);
      forall c | Stuck(setting, t, c) ensures Stuck(setting, Record(t, last.id, Inconclusive), c) {
        var d :| d in c.dependsOn && DependencyStatus(setting, t.statuses, d) != Some(Passed);
        assert DependencyStatus(setting, Record(t, last.id, Inconclusive).statuses, d) != Some(Passed);
      }
    }
  }

  lemma StuckIsHeld(setting: Setting, criteria: seq<Criterion>, s: State, c: Criterion)
    requires Told(setting, criteria, s) && Stuck(setting, s, c) && c in criteria
    ensures Held(setting, criteria, s.log, |s.log|, c.id)
  {
    hide Cleared, DependencyStatus, StatusesIn, SkipsAreHeld, NotStarted;
    var d :| d in c.dependsOn && DependencyStatus(setting, s.statuses, d) != Some(Passed);
    ClearedIsPassed(setting, s.log, d);
  }

  lemma StepTold(setting: Setting, criteria: seq<Criterion>, s: State, step: Step)
    requires Inv(setting, criteria, s) && Told(setting, criteria, s) && Enabled(setting, s, step)
    ensures Told(setting, criteria, Apply(setting, s, step))
  {
    InvPlaces(setting, criteria, s);
    hide Inv, Told;
    match step
    case Round =>
      if Ready(setting, s) == [] {
        forall c | c in s.remaining ensures Stuck(setting, s, c) {
          NotReadyIsStuck(setting, s, c);
        }
        RecordAllTold(setting, criteria, s, s.remaining);
        RemainingIsNothing(setting, criteria, RecordAll(s, s.remaining), [], RecordAll(s, s.remaining).dropped);
      } else {
        RoundTold(setting, criteria, s);
      }
    case Finish(c, status, lost) => FinishTold(setting, criteria, s, c, status, lost);
  }

  lemma NotReadyIsStuck(setting: Setting, s: State, c: Criterion)
    requires Ready(setting, s) == [] && c in s.remaining
    ensures Stuck(setting, s, c)
  {
    assert c !in Ready(setting, s);
    var d :| d in c.dependsOn && DependencyStatus(setting, s.statuses, d).None?;
  }

  lemma RemainingIsNothing(setting: Setting, criteria: seq<Criterion>, s: State, remaining: seq<Criterion>,
                           dropped: set<Criterion>)
    requires Told(setting, criteria, s)
    ensures Told(setting, criteria, s.(remaining := remaining, dropped := dropped))
  {}

  lemma FinishTold(setting: Setting, criteria: seq<Criterion>, s: State, c: Criterion, status: Status, lost: bool)
    requires Told(setting, criteria, s) && c in s.running
    ensures Told(setting, criteria, Finished(s, c, status, lost))
  {
    hide NotStarted, SkipsAreHeld, StatusesIn;
    RecordTold(setting, criteria, s.(running := s.running - {c}, bindingLost := s.bindingLost || lost), c.id, status);
  }

  lemma RoundTold(setting: Setting, criteria: seq<Criterion>, s: State)
    requires Told(setting, criteria, s) && Enabled(setting, s, Round) && Ready(setting, s) != []
    requires forall c :: c in s.remaining ==> c in criteria
    ensures Told(setting, criteria, Apply(setting, s, Round))
  {
    hide Told, Ready;
    var batch := Batch(setting, s);
    var left := Without(s.remaining, batch);
    hide Batch, Without;
    var taken := s.(remaining := left);
    RemainingIsNothing(setting, criteria, s, left, s.dropped);
    FirstMutatingIs(batch);
    var mutating := FirstMutating(batch);
    if mutating.Some? {
      var c := mutating.value;
      LaunchTold(setting, criteria, taken, c);
      LaunchKeepsDropped(setting, taken, c);
      var t := Launch(setting, taken, c);
      RemainingIsNothing(setting, criteria, t, t.remaining, s.dropped + set d | d in batch && d != c);
    } else {
      LaunchAllTold(setting, criteria, taken, batch);
    }
  }

  lemma {:induction false} ToldAlongRun(setting: Setting, criteria: seq<Criterion>, s: State, steps: seq<Step>)
    requires Inv(setting, criteria, s) && Told(setting, criteria, s) && Legal(setting, s, steps)
    ensures Told(setting, criteria, After(setting, s, steps))
    decreases |steps|
  {
    hide Inv, Told, Apply, Enabled;
    if steps != [] {
      StepKeeps(setting, criteria, s, steps[0]);
      StepTold(setting, criteria, s, steps[0]);
      ToldAlongRun(setting, criteria, Apply(setting, s, steps[0]), steps[1..]);
    }
  }

  /** Prerequisites decide. Over every run, a criterion starts only when the last
      result of each prerequisite in this run is passed, or the prerequisite has no
      result in this run and is persisted as passed; a criterion recorded without
      having been started is inconclusive and had a prerequisite for which that
      does not hold. */
  lemma PrerequisitesDecide(setting: Setting, criteria: seq<Criterion>, steps: seq<Step>)
    requires UniqueIds(criteria) && Legal(setting, Initial(criteria), steps)
    ensures var log := After(setting, Initial(criteria), steps).log;
            && (forall i, d :: 0 <= i < |log| && log[i].Started? && d in log[i].criterion.dependsOn ==>
                  Cleared(setting, log, i, d))
            && (forall i :: 0 <= i < |log| && log[i].Recorded? && NotStarted(log, i, log[i].id) ==>
                  log[i].status == Inconclusive
                  && exists c, d :: c in criteria && c.id == log[i].id && d in c.dependsOn
                                    && !Cleared(setting, log, i, d))
  {
    hide Inv, Cleared, NotStarted, Blocked, MutationsRunAlone;
    InitialIsOk(setting, criteria);
    assert Told(setting, criteria, Initial(criteria));
    ToldAlongRun(setting, criteria, Initial(criteria), steps);
    SchedulingIsSafe(setting, criteria, steps);
    var log := After(setting, Initial(criteria), steps).log;
    forall i, d | 0 <= i < |log| && log[i].Started? && d in log[i].criterion.dependsOn
      ensures Cleared(setting, log, i, d)
    {
      BlockedIs(setting, log, i, log[i].criterion);
    }
    forall i | 0 <= i < |log| && log[i].Recorded? && NotStarted(log, i, log[i].id)
      ensures SkippedAt(setting, criteria, log, i)
    {}
  }

  // ---- company ----

  /** Between the starts of two criteria of which one mutates, the earlier one has
      come back. */
  lemma MutationsAreAlone(setting: Setting, criteria: seq<Criterion>, steps: seq<Step>)
    requires UniqueIds(criteria) && Legal(setting, Initial(criteria), steps)
    ensures var log := After(setting, Initial(criteria), steps).log;
            forall i, j :: 0 <= i < j < |log| && log[i].Started? && log[j].Started?
                           && (log[i].criterion.mutates || log[j].criterion.mutates) ==>
              exists k :: i < k < j && RecordOf(log, k, log[i].criterion.id)
  {
    hide StartsAreCleared;
    SchedulingIsSafe(setting, criteria, steps);
    var log := After(setting, Initial(criteria), steps).log;
    forall i, j | 0 <= i < j < |log| && log[i].Started? && log[j].Started?
                  && (log[i].criterion.mutates || log[j].criterion.mutates)
      ensures exists k :: i < k < j && RecordOf(log, k, log[i].criterion.id)
    {
      if forall k :: i < k < j ==> !RecordOf(log, k, log[i].criterion.id) {
        StillRunning(log, i, j);
      }
    }
  }

  lemma {:induction false} StillRunning(log: seq<Event>, i: nat, j: nat)
    requires i < j <= |log| && log[i].Started?
    requires forall k :: i < k < j ==> !RecordOf(log, k, log[i].criterion.id)
    ensures log[i].criterion in RunningIn(log[..j])
  {
    var here := log[..j];
    assert here[..|here| - 1] == log[..j - 1] && here[|here| - 1] == log[j - 1];
    if i < j - 1 {
      StillRunning(log, i, j - 1);
      assert !RecordOf(log, j - 1, log[i].criterion.id);
    }
  }

  /** Once the binding is lost, nothing is started any more. */
  lemma {:induction false} NothingStartsOnceLost(setting: Setting, s: State, steps: seq<Step>)
    requires s.bindingLost && Legal(setting, s, steps)
    ensures var t := After(setting, s, steps);
            && t.bindingLost && s.log <= t.log
            && forall i :: |s.log| <= i < |t.log| ==> t.log[i].Recorded?
    decreases |steps|
  {
    if steps != [] { NothingStartsOnceLost(setting, Apply(setting, s, steps[0]), steps[1..]); }
  }

  // ---- who goes first ----

  /** How many of the criteria fit. */
  ghost function Fitting(fits: set<Criterion>, s: seq<Criterion>): nat {
    if s == [] then 0 else (if s[0] in fits then 1 else 0) + Fitting(fits, s[1..])
  }

  /** The criterion at `i` fits, and is among the first `n` that do; a negative `n`
      counts from the end. */
  ghost predicate AmongFirst(fits: set<Criterion>, s: seq<Criterion>, n: int, i: int) {
    && 0 <= i < |s| && s[i] in fits
    && Fitting(fits, s[..i]) < if n >= 0 then n else Fitting(fits, s) + n
  }

  ghost predicate Among(fits: set<Criterion>, s: seq<Criterion>, n: int, c: Criterion) {
    exists i :: AmongFirst(fits, s, n, i) && s[i] == c
  }

  ghost function Pick(fits: set<Criterion>, s: seq<Criterion>): seq<Criterion> {
    if s == [] then [] else (if s[0] in fits then [s[0]] else []) + Pick(fits, s[1..])
  }

  lemma {:induction false} FilterIs(keep: Criterion -> bool, fits: set<Criterion>, s: seq<Criterion>)
    requires forall x :: x in s ==> (keep(x) <==> x in fits)
    ensures Filter(keep, s) == Pick(fits, s)
  {
    if s != [] { FilterIs(keep, fits, s[1..]); }
  }

  lemma {:induction false} PickTwice(outer: set<Criterion>, inner: set<Criterion>, s: seq<Criterion>)
    ensures Pick(outer, Pick(inner, s)) == Pick(outer * inner, s)
  {
    if s != [] {
      PickTwice(outer, inner, s[1..]);
      var rest := Pick(inner, s[1..]);
      assert ([s[0]] + rest)[1..] == rest;
      LeftUnit(rest);
    }
  }

  lemma {:induction false} PickCount(fits: set<Criterion>, s: seq<Criterion>)
    ensures |Pick(fits, s)| == Fitting(fits, s)
  {
    if s != [] { PickCount(fits, s[1..]); }
  }

  lemma {:induction false} FirstOnes(fits: set<Criterion>, s: seq<Criterion>, n: nat, c: Criterion)
    ensures c in Slice(Pick(fits, s), n) <==> Among(fits, s, n, c)
  {
    hide Among, Slice;
    if s == [] {
      NoneAmong(fits, n, c);
    } else {
      var rest := Pick(fits, s[1..]);
      AmongRest(fits, s, n, c);
      if s[0] !in fits {
        FirstOnes(fits, s[1..], n, c);
        LeftUnit(rest);
      } else {
        if n > 0 { FirstOnes(fits, s[1..], n - 1, c); }
        SliceMore(s[0], rest, n, c);
      }
    }
  }

  lemma NoneAmong(fits: set<Criterion>, n: int, c: Criterion)
    ensures !Among(fits, [], n, c) && c !in Slice<Criterion>([], n)
  {}

  /** A count from the end, as a count from the front. */
  lemma FirstOnesEither(fits: set<Criterion>, s: seq<Criterion>, n: int, c: Criterion)
    ensures c in Slice(Pick(fits, s), n) <==> Among(fits, s, n, c)
  {
    PickCount(fits, s);
    var front := if n >= 0 then n else if Fitting(fits, s) + n > 0 then Fitting(fits, s) + n else 0;
    FirstOnes(fits, s, front, c);
    assert forall i :: AmongFirst(fits, s, n, i) <==> AmongFirst(fits, s, front, i);
    assert Slice(Pick(fits, s), n) == Slice(Pick(fits, s), front);
  }

  lemma SliceMore(head: Criterion, rest: seq<Criterion>, n: nat, c: Criterion)
    ensures c in Slice([head] + rest, n) <==> n > 0 && (c == head || c in Slice(rest, n - 1))
  {
    if n > 0 {
      assert Slice([head] + rest, n) == [head] + Slice(rest, n - 1);
    }
  }

  lemma AmongRest(fits: set<Criterion>, s: seq<Criterion>, n: nat, c: Criterion)
    requires s != []
    ensures s[0] !in fits ==> (Among(fits, s, n, c) <==> Among(fits, s[1..], n, c))
    ensures s[0] in fits ==>
              (Among(fits, s, n, c) <==> n > 0 && (c == s[0] || Among(fits, s[1..], n - 1, c)))
  {
    var one := if s[0] in fits then 1 else 0;
    forall i | 0 < i < |s|
      ensures Fitting(fits, s[..i]) == one + Fitting(fits, s[1..][..i - 1]) && s[1..][i - 1] == s[i]
    {
      assert s[..i][1..] == s[1..][..i - 1];
    }
    if Among(fits, s, n, c) {
      var i :| AmongFirst(fits, s, n, i) && s[i] == c;
      if i > 0 { assert AmongFirst(fits, s[1..], n - one, i - 1); }
    }
    if n >= one && Among(fits, s[1..], n - one, c) {
      var i :| AmongFirst(fits, s[1..], n - one, i) && s[1..][i] == c;
      assert AmongFirst(fits, s, n, i + 1);
    }
    if s[0] in fits && n > 0 { assert AmongFirst(fits, s, n, 0); }
  }

  ghost predicate Fulfilled(setting: Setting, log: seq<Event>, c: Criterion) {
    forall d :: d in c.dependsOn ==> Cleared(setting, log, |log|, d)
  }

  /** Every prerequisite has a result in this run or a persisted status. */
  ghost predicate Settled(setting: Setting, log: seq<Event>, c: Criterion) {
    forall d :: d in c.dependsOn ==> !NoRecord(log, |log|, d) || d in setting.persisted
  }

  lemma SettledIsKnown(setting: Setting, s: State, c: Criterion)
    requires StatusesIn(s.log) == s.statuses
    ensures Settled(setting, s.log, c) <==> Known(setting, s.statuses, c)
    ensures Fulfilled(setting, s.log, c) <==> !Blocked(setting, s.statuses, c)
    ensures Fulfilled(setting, s.log, c) ==> Settled(setting, s.log, c)
  {
    hide Cleared, LastIs, NoRecord, StatusesIn;
    forall d ensures Cleared(setting, s.log, |s.log|, d) <==> DependencyStatus(setting, s.statuses, d) == Some(Passed)
             ensures NoRecord(s.log, |s.log|, d) <==> d !in s.statuses
    {
      ClearedIsPassed(setting, s.log, d);
      StatusesAre(s.log, d);
      if d in s.statuses { LastIsRecord(s.log, |s.log|, d, s.statuses[d]); }
    }
  }

  ghost function SettledOf(setting: Setting, s: State): set<Criterion> {
    set c | c in s.remaining && Settled(setting, s.log, c)
  }

  ghost function FulfilledOf(setting: Setting, s: State): set<Criterion> {
    set c | c in s.remaining && Fulfilled(setting, s.log, c)
  }

  /** Who is next: of the waiting criteria with every prerequisite cleared, the first
      ones in the packet's order that mutate nothing, as many as may run at once;
      when none has every prerequisite cleared, the first ones whose prerequisites all
      have a status; and otherwise the first one of those alone. */
  ghost predicate Next(setting: Setting, s: State, c: Criterion) {
    var settled, fulfilled := SettledOf(setting, s), FulfilledOf(setting, s);
    var plain := set x | x in fulfilled && !x.mutates;
    if exists x :: Among(plain, s.remaining, setting.maxInflight, x) then
      Among(plain, s.remaining, setting.maxInflight, c)
    else if fulfilled == {} && exists x :: Among(settled, s.remaining, setting.maxInflight, x) then
      Among(settled, s.remaining, setting.maxInflight, c)
    else Among(settled, s.remaining, 1, c)
  }

  ghost function PlainOf(setting: Setting, s: State): set<Criterion> {
    set c | c in FulfilledOf(setting, s) && !c.mutates
  }

  /** The lists of a round, picked by what the log says. */
  lemma ListsArePicked(setting: Setting, s: State)
    requires StatusesIn(s.log) == s.statuses
    ensures FulfilledOf(setting, s) <= SettledOf(setting, s)
    ensures Ready(setting, s) == Pick(SettledOf(setting, s), s.remaining)
    ensures Runnable(setting, s) == Pick(FulfilledOf(setting, s), s.remaining)
    ensures Filter((c: Criterion) => !c.mutates, Runnable(setting, s)) == Pick(PlainOf(setting, s), s.remaining)
    ensures BlockedOnes(setting, s) == Pick(SettledOf(setting, s) - FulfilledOf(setting, s), s.remaining)
  {
    hide Known, Blocked, Settled, Fulfilled, StatusesIn;
    var settled, fulfilled, plain := SettledOf(setting, s), FulfilledOf(setting, s), PlainOf(setting, s);
    forall c | c in s.remaining
      ensures c in settled <==> Known(setting, s.statuses, c)
      ensures c in fulfilled <==> !Blocked(setting, s.statuses, c)
      ensures c in fulfilled ==> c in settled
    {
      SettledIsKnown(setting, s, c);
    }
    var ready, runnable := Ready(setting, s), Runnable(setting, s);
    FilterIs(c => Known(setting, s.statuses, c), settled, s.remaining);
    FilterIs(c => !Blocked(setting, s.statuses, c), fulfilled, ready);
    PickTwice(fulfilled, settled, s.remaining);
    assert fulfilled * settled == fulfilled;
    FilterIs((c: Criterion) => !c.mutates, plain, runnable);
    PickTwice(plain, fulfilled, s.remaining);
    assert plain * fulfilled == plain;
    FilterIs(c => Blocked(setting, s.statuses, c), settled - fulfilled, ready);
    PickTwice(settled - fulfilled, settled, s.remaining);
    assert (settled - fulfilled) * settled == settled - fulfilled;
  }

  lemma {:induction false} PickedFits(fits: set<Criterion>, s: seq<Criterion>)
    requires forall c :: c in fits ==> c in s
    ensures forall c :: c in Pick(fits, s) <==> c in fits
    ensures Pick(fits, s) == [] <==> fits == {}
  {
    PickedIn(fits, s);
    if Pick(fits, s) != [] { assert Pick(fits, s)[0] in Pick(fits, s); }
    if c :| c in fits { assert c in Pick(fits, s); }
  }

  lemma {:induction false} PickedIn(fits: set<Criterion>, s: seq<Criterion>)
    ensures forall c :: c in Pick(fits, s) <==> c in s && c in fits
  {
    if s != [] { PickedIn(fits, s[1..]); }
  }

  lemma FirstPicked(fits: set<Criterion>, s: seq<Criterion>, c: Criterion)
    requires Pick(fits, s) != []
    ensures c == Pick(fits, s)[0] <==> Among(fits, s, 1, c)
  {
    hide Among;
    FirstOnesEither(fits, s, 1, c);
    assert Slice(Pick(fits, s), 1) == [Pick(fits, s)[0]];
  }

  lemma SomeAmong(fits: set<Criterion>, s: seq<Criterion>, n: int)
    ensures Slice(Pick(fits, s), n) != [] <==> exists c :: Among(fits, s, n, c)
    ensures forall c :: c in Slice(Pick(fits, s), n) <==> Among(fits, s, n, c)
  {
    hide Among, Slice;
    forall c ensures c in Slice(Pick(fits, s), n) <==> Among(fits, s, n, c) { FirstOnesEither(fits, s, n, c); }
    if Slice(Pick(fits, s), n) != [] { assert Slice(Pick(fits, s), n)[0] in Slice(Pick(fits, s), n); }
  }

  /** The batch of a round, read from the log and the criteria. */
  lemma BatchIsNext(setting: Setting, s: State)
    requires StatusesIn(s.log) == s.statuses
    ensures Ready(setting, s) == [] <==> SettledOf(setting, s) == {}
    ensures Ready(setting, s) != [] ==> forall c :: c in Batch(setting, s) <==> Next(setting, s, c)
  {
    ListsArePicked(setting, s);
    hide Ready, Runnable, BlockedOnes, SettledOf, FulfilledOf, Among, Slice, StatusesIn;
    var settled, fulfilled, plain := SettledOf(setting, s), FulfilledOf(setting, s), PlainOf(setting, s);
    InRemaining(setting, s);
    PickedFits(settled, s.remaining);
    PickedFits(fulfilled, s.remaining);
    if settled != {} {
      SomeAmong(plain, s.remaining, setting.maxInflight);
      SomeAmong(settled, s.remaining, setting.maxInflight);
      if fulfilled == {} { assert settled - fulfilled == settled && plain == {}; }
      forall c ensures c == Ready(setting, s)[0] <==> Among(settled, s.remaining, 1, c) {
        FirstPicked(settled, s.remaining, c);
      }
      assert plain == set x | x in fulfilled && !x.mutates;
      BatchCases(setting, s, plain, settled, fulfilled);
    }
  }

  lemma InRemaining(setting: Setting, s: State)
    ensures forall c :: c in SettledOf(setting, s) || c in FulfilledOf(setting, s) ==> c in s.remaining
  {}

  lemma BatchCases(setting: Setting, s: State, plain: set<Criterion>, settled: set<Criterion>,
                   fulfilled: set<Criterion>)
    requires Ready(setting, s) != []
    requires Runnable(setting, s) == [] <==> fulfilled == {}
    requires plain == set x | x in fulfilled && !x.mutates
    requires Filter((c: Criterion) => !c.mutates, Runnable(setting, s)) == Pick(plain, s.remaining)
    requires fulfilled == {} ==> BlockedOnes(setting, s) == Pick(settled, s.remaining)
    requires settled == SettledOf(setting, s) && fulfilled == FulfilledOf(setting, s)
    requires forall c :: c == Ready(setting, s)[0] <==> Among(settled, s.remaining, 1, c)
    ensures forall c :: c in Batch(setting, s) <==> Next(setting, s, c)
  {
    hide Ready, Runnable, BlockedOnes, SettledOf, FulfilledOf, Among, Slice;
    SomeAmong(plain, s.remaining, setting.maxInflight);
    SomeAmong(settled, s.remaining, setting.maxInflight);
    if fulfilled == {} {
      assert plain == {};
      NonePicked(s.remaining);
      NoneSliced(setting.maxInflight);
    }
  }

  lemma {:induction false} NonePicked(s: seq<Criterion>)
    ensures Pick({}, s) == []
  {
    PickedFits({}, s);
  }

  lemma NoneSliced(n: int)
    ensures Slice<Criterion>([], n) == []
  {}

  lemma {:induction false} LaunchAllRunnable(setting: Setting, s: State, batch: seq<Criterion>)
    requires forall c :: c in batch ==> !Blocked(setting, s.statuses, c)
    ensures var t := LaunchAll(setting, s, batch);
            && t.running == s.running + Elements(batch) && t.statuses == s.statuses && t.results == s.results
    decreases |batch|
  {
    hide Blocked;
    if batch != [] {
      var init, last := batch[..|batch| - 1], batch[|batch| - 1];
      assert batch == init + [last];
      LaunchAllRunnable(setting, s, init);
    }
  }

  lemma RecordKeepsBlocked(setting: Setting, s: State, id: Id, c: Criterion)
    requires Blocked(setting, s.statuses, c)
    ensures Blocked(setting, Record(s, id, Inconclusive).statuses, c)
  {
    var d :| d in c.dependsOn && DependencyStatus(setting, s.statuses, d) != Some(Passed);
    assert DependencyStatus(setting, Record(s, id, Inconclusive).statuses, d) != Some(Passed);
  }

  lemma {:induction false} LaunchAllBlocked(setting: Setting, s: State, batch: seq<Criterion>)
    requires forall c :: c in batch ==> Blocked(setting, s.statuses, c)
    ensures LaunchAll(setting, s, batch).running == s.running
    ensures forall c :: Blocked(setting, s.statuses, c) ==> Blocked(setting, LaunchAll(setting, s, batch).statuses, c)
    decreases |batch|
  {
    hide Blocked;
    if batch != [] {
      var init, last := batch[..|batch| - 1], batch[|batch| - 1];
      assert batch == init + [last];
      LaunchAllBlocked(setting, s, init);
      var t := LaunchAll(setting, s, init);
      forall c | Blocked(setting, t.statuses, c)
        ensures Blocked(setting, Record(t, last.id, Inconclusive).statuses, c)
      {
        RecordKeepsBlocked(setting, t, last.id, c);
      }
    }
  }

  /** The criteria of a round are all cleared, or none of them is. */
  lemma NextAreAlike(setting: Setting, s: State)
    requires SettledOf(setting, s) != {}
    ensures (forall c :: Next(setting, s, c) ==> c in FulfilledOf(setting, s))
            || (forall c :: Next(setting, s, c) ==> c !in FulfilledOf(setting, s))
  {
    hide Fulfilled, Settled;
    var settled := SettledOf(setting, s);
    forall c, d | Among(settled, s.remaining, 1, c) && Among(settled, s.remaining, 1, d) ensures c == d {
      FirstIsOne(settled, s.remaining, c, d);
    }
  }

  lemma FirstIsOne(fits: set<Criterion>, s: seq<Criterion>, c: Criterion, d: Criterion)
    requires Among(fits, s, 1, c) && Among(fits, s, 1, d)
    ensures c == d
  {
    hide Among;
    SomeAmong(fits, s, 1);
    PickCount(fits, s);
    assert c in Slice(Pick(fits, s), 1);
    FirstPicked(fits, s, c);
    FirstPicked(fits, s, d);
  }

  ghost function NextOf(setting: Setting, s: State): set<Criterion> {
    set c | c in s.remaining && Next(setting, s, c)
  }

  lemma RoundIs(setting: Setting, s: State, batch: seq<Criterion>)
    requires Enabled(setting, s, Round) && Ready(setting, s) != [] && batch == Batch(setting, s)
    ensures var t, taken := Apply(setting, s, Round), s.(remaining := Without(s.remaining, batch));
            && t.remaining == Without(s.remaining, batch)
            && (FirstMutating(batch).None? ==> t == LaunchAll(setting, taken, batch) && t.dropped == s.dropped)
            && (FirstMutating(batch).Some? ==>
                  && t.running == Launch(setting, taken, FirstMutating(batch).value).running
                  && t.dropped == s.dropped + (Elements(batch) - {FirstMutating(batch).value}))
  {
    hide Ready, Batch, Blocked, FirstMutating, Without;
    var taken := s.(remaining := Without(s.remaining, batch));
    LaunchAllKeepsRemaining(setting, taken, batch);
    if FirstMutating(batch).Some? {
      var m := FirstMutating(batch).value;
      LaunchKeepsDropped(setting, taken, m);
      assert (set c | c in batch && c != m) == Elements(batch) - {m};
    }
  }

  /** What a round starts, and what it leaves waiting. */
  lemma RoundStarts(setting: Setting, criteria: seq<Criterion>, s: State)
    requires Inv(setting, criteria, s) && Enabled(setting, s, Round) && SettledOf(setting, s) != {}
    ensures var t := Apply(setting, s, Round);
            && t.running == NextOf(setting, s) * FulfilledOf(setting, s)
            && t.remaining == Pick(Elements(s.remaining) - NextOf(setting, s), s.remaining)
  {
    hide Inv, Next, SettledOf, FulfilledOf, Blocked, NextOf, Without, Ready, Apply, Batch, LaunchAll;
    StatusesTold(setting, criteria, s);
    BatchIsNext(setting, s);
    NextAreAlike(setting, s);
    var batch, fulfilled := Batch(setting, s), FulfilledOf(setting, s);
    BatchElements(setting, s);
    RoundIs(setting, s, batch);
    var taken := s.(remaining := Without(s.remaining, batch));
    forall c | c in batch ensures c in fulfilled <==> !Blocked(setting, s.statuses, c) {
      FulfilledIs(setting, s, c);
    }
    FirstMutatingIs(batch);
    if FirstMutating(batch).Some? {
      MutatorIsAlone(setting, s);
      assert FirstMutating(batch).value in batch;
    } else if forall c :: c in batch ==> c in fulfilled {
      LaunchAllRunnable(setting, taken, batch);
    } else {
      LaunchAllBlocked(setting, taken, batch);
    }
  }

  lemma BatchElements(setting: Setting, s: State)
    requires Ready(setting, s) != [] && forall c :: c in Batch(setting, s) <==> Next(setting, s, c)
    ensures var batch := Batch(setting, s);
            && Elements(batch) == NextOf(setting, s)
            && (forall c :: c in batch ==> c in s.remaining)
            && Without(s.remaining, batch) == Pick(Elements(s.remaining) - NextOf(setting, s), s.remaining)
  {
    hide Next, Batch, Ready;
    var batch := Batch(setting, s);
    FilterIs(c => c !in batch, Elements(s.remaining) - NextOf(setting, s), s.remaining);
  }

  /** A batch with a mutating criterion holds nothing else, or nothing cleared. */
  lemma MutatorIsAlone(setting: Setting, s: State)
    requires StatusesIn(s.log) == s.statuses && Ready(setting, s) != []
    requires exists c :: c in Batch(setting, s) && c.mutates
    ensures FulfilledOf(setting, s) == {} || |Batch(setting, s)| == 1
  {
    hide Batch, Ready, Runnable, FulfilledOf, SettledOf, StatusesIn;
    if FulfilledOf(setting, s) != {} {
      ListsArePicked(setting, s);
      InRemaining(setting, s);
      PickedFits(FulfilledOf(setting, s), s.remaining);
      RunnableBatch(setting, s);
    }
  }

  lemma StatusesTold(setting: Setting, criteria: seq<Criterion>, s: State)
    requires Inv(setting, criteria, s)
    ensures StatusesIn(s.log) == s.statuses
  {}

  lemma FulfilledIs(setting: Setting, s: State, c: Criterion)
    requires StatusesIn(s.log) == s.statuses && c in s.remaining
    ensures c in FulfilledOf(setting, s) <==> !Blocked(setting, s.statuses, c)
  {
    SettledIsKnown(setting, s, c);
  }

  ghost function MutatingOf(setting: Setting, s: State): set<Criterion> {
    set c | c in SettledOf(setting, s) && c.mutates
  }

  lemma {:induction false} PickPrefix(fits: set<Criterion>, a: seq<Criterion>, b: seq<Criterion>)
    requires a <= b
    ensures Pick(fits, a) <= Pick(fits, b)
  {
    if a != [] { PickPrefix(fits, a[1..], b[1..]); }
  }

  lemma {:induction false} FirstMutatingPicked(batch: seq<Criterion>, mutating: set<Criterion>)
    requires forall c :: c in batch ==> (c in mutating <==> c.mutates)
    ensures FirstMutating(batch).Some? <==> Pick(mutating, batch) != []
    ensures FirstMutating(batch).Some? ==> FirstMutating(batch).value == Pick(mutating, batch)[0]
  {
    if batch != [] { FirstMutatingPicked(batch[1..], mutating); }
  }

  /** A batch with a mutating criterion is a prefix of the ready ones. */
  lemma MutatorBatchIsPrefix(setting: Setting, s: State)
    requires StatusesIn(s.log) == s.statuses && Ready(setting, s) != []
    requires exists c :: c in Batch(setting, s) && c.mutates
    ensures Batch(setting, s) <= Ready(setting, s)
  {
    if Runnable(setting, s) == [] {
      NoneRunnable(setting, s);
      AllBlocked(setting, s);
    } else {
      NoPlainOnes(setting, s);
    }
  }

  lemma AllBlocked(setting: Setting, s: State)
    requires forall c :: c in Ready(setting, s) ==> Blocked(setting, s.statuses, c)
    ensures BlockedOnes(setting, s) == Ready(setting, s)
  {
    hide Ready, Blocked;
    FilterAll(c => Blocked(setting, s.statuses, c), Ready(setting, s));
  }

  lemma NoPlainOnes(setting: Setting, s: State)
    requires Ready(setting, s) != [] && Runnable(setting, s) != []
    requires exists c :: c in Batch(setting, s) && c.mutates
    ensures Batch(setting, s) == [Ready(setting, s)[0]]
  {
    hide Ready, Runnable;
    var plain := Filter((c: Criterion) => !c.mutates, Runnable(setting, s));
    forall c | c in Slice(plain, setting.maxInflight) ensures !c.mutates { assert c in plain; }
  }

  /** What a round drops: nothing, unless a criterion of it mutates; then everything
      but the first mutating criterion whose prerequisites all have a status. */
  lemma RoundLeavesOut(setting: Setting, criteria: seq<Criterion>, s: State)
    requires Inv(setting, criteria, s) && Enabled(setting, s, Round) && SettledOf(setting, s) != {}
    ensures (forall c :: c in NextOf(setting, s) ==> !c.mutates) ==> Apply(setting, s, Round).dropped == s.dropped
    ensures (exists c :: c in NextOf(setting, s) && c.mutates) ==>
              forall m :: Among(MutatingOf(setting, s), s.remaining, 1, m) ==>
                Apply(setting, s, Round).dropped == s.dropped + (NextOf(setting, s) - {m})
  {
    hide Inv, Next, SettledOf, FulfilledOf, Among, NextOf, Without, Ready, Apply, Batch, FirstMutating, MutatingOf;
    StatusesTold(setting, criteria, s);
    BatchIsNext(setting, s);
    BatchElements(setting, s);
    var batch := Batch(setting, s);
    RoundIs(setting, s, batch);
    FirstMutatingIs(batch);
    if FirstMutating(batch).Some? {
      MutatorIsFirst(setting, s);
      forall c | Among(MutatingOf(setting, s), s.remaining, 1, c) ensures c == FirstMutating(batch).value {
        FirstIsOne(MutatingOf(setting, s), s.remaining, c, FirstMutating(batch).value);
      }
    }
  }

  lemma MutatorIsFirst(setting: Setting, s: State)
    requires StatusesIn(s.log) == s.statuses && Ready(setting, s) != []
    requires FirstMutating(Batch(setting, s)).Some?
    ensures Among(MutatingOf(setting, s), s.remaining, 1,
                    FirstMutating(Batch(setting, s)).value)
  {
    hide Batch, Ready, SettledOf, FulfilledOf, Among, StatusesIn;
    var batch, settled := Batch(setting, s), SettledOf(setting, s);
    FirstMutatingIs(batch);
    MutatorBatchIsPrefix(setting, s);
    ListsArePicked(setting, s);
    InRemaining(setting, s);
    PickedFits(settled, s.remaining);
    var mutating := MutatingOf(setting, s);
    assert forall c :: c in batch ==> c in Ready(setting, s);
    FirstMutatingPicked(batch, mutating);
    PickPrefix(mutating, batch, Ready(setting, s));
    PickTwice(mutating, settled, s.remaining);
    assert mutating * settled == mutating;
    FirstPicked(mutating, s.remaining, FirstMutating(batch).value);
  }

  lemma {:induction false} AllRecorded(s: State, all: seq<Criterion>)
    ensures var t := RecordAll(s, all);
            && |t.log| == |s.log| + |all| && s.log <= t.log && t.running == s.running
            && forall k :: 0 <= k < |all| ==> t.log[|s.log| + k] == Recorded(all[k].id, Inconclusive)
    decreases |all|
  {
    if all != [] { AllRecorded(s, all[..|all| - 1]); }
  }

  /** When some prerequisite of each waiting criterion has no status at all, the round
      records them all, in order, and is the last one. */
  lemma LastRound(setting: Setting, criteria: seq<Criterion>, s: State)
    requires Inv(setting, criteria, s) && Enabled(setting, s, Round) && SettledOf(setting, s) == {}
    ensures var t := Apply(setting, s, Round);
            && t.remaining == [] && t.running == {} && |t.log| == |s.log| + |s.remaining| && s.log <= t.log
            && forall k :: 0 <= k < |s.remaining| ==>
                 t.log[|s.log| + k] == Recorded(s.remaining[k].id, Inconclusive)
  {
    hide Inv, SettledOf, Ready;
    StatusesTold(setting, criteria, s);
    BatchIsNext(setting, s);
    AllRecorded(s, s.remaining);
  }

  /** At no moment do more checks run than may. */
  lemma {:induction false} FewAtATime(setting: Setting, criteria: seq<Criterion>, s: State, steps: seq<Step>)
    requires Inv(setting, criteria, s) && Legal(setting, s, steps) && setting.maxInflight >= 1
    requires |s.running| <= setting.maxInflight
    ensures |After(setting, s, steps).running| <= setting.maxInflight
    decreases |steps|
  {
    hide Inv, Apply, Enabled;
    if steps != [] {
      StepKeeps(setting, criteria, s, steps[0]);
      StepRunsFew(setting, criteria, s, steps[0]);
      FewAtATime(setting, criteria, Apply(setting, s, steps[0]), steps[1..]);
    }
  }

  lemma StepRunsFew(setting: Setting, criteria: seq<Criterion>, s: State, step: Step)
    requires Inv(setting, criteria, s) && Enabled(setting, s, step) && setting.maxInflight >= 1
    requires |s.running| <= setting.maxInflight
    ensures |Apply(setting, s, step).running| <= setting.maxInflight
  {
    hide Inv, Ok, Next, SettledOf, FulfilledOf;
    if step.Finish? {
      FinishShrinks(setting, s, step);
    } else if SettledOf(setting, s) == {} {
      LastRound(setting, criteria, s);
    } else {
      StatusesTold(setting, criteria, s);
      BatchIsNext(setting, s);
      BatchPrefersRunnable(setting, s);
      RoundStarts(setting, criteria, s);
      ElementsAreFew(Batch(setting, s), Apply(setting, s, Round).running);
    }
  }

  // ---- what takes part ----

  /** A chain of dependencies from an explicitly selected id. */
  ghost predicate Chain(criteria: seq<Criterion>, explicit: set<Id>, chain: seq<Id>) {
    && chain != [] && chain[0] in explicit
    && forall k :: 0 <= k < |chain| - 1 ==> Needs(criteria, chain[k], chain[k + 1])
  }

  ghost predicate Needs(criteria: seq<Criterion>, id: Id, dependency: Id) {
    exists c :: c in criteria && c.id == id && dependency in c.dependsOn
  }

  ghost predicate Reached(criteria: seq<Criterion>, explicit: set<Id>, id: Id) {
    exists chain: seq<Id> :: chain != [] && Chain(criteria, explicit, chain) && chain[|chain| - 1] == id
  }

  lemma {:induction false} ChainIsSelected(criteria: seq<Criterion>, explicit: set<Id>, selected: set<Id>,
                                           chain: seq<Id>)
    requires IsLeastClosed(criteria, explicit, selected) && Chain(criteria, explicit, chain)
    ensures chain[|chain| - 1] in selected
  {
    if |chain| > 1 {
      var init := chain[..|chain| - 1];
      assert Chain(criteria, explicit, init);
      ChainIsSelected(criteria, explicit, selected, init);
      assert Needs(criteria, chain[|chain| - 2], chain[|chain| - 1]);
    }
  }

  lemma ChainGrows(criteria: seq<Criterion>, explicit: set<Id>, id: Id, dependency: Id)
    requires Reached(criteria, explicit, id) && Needs(criteria, id, dependency)
    ensures Reached(criteria, explicit, dependency)
  {
    hide Needs;
    var chain: seq<Id> :| chain != [] && Chain(criteria, explicit, chain) && chain[|chain| - 1] == id;
    assert Chain(criteria, explicit, chain + [dependency]);
  }

  /** An explicit selection expands to what a chain of dependencies leads to. */
  lemma SelectedIsReached(criteria: seq<Criterion>, explicit: set<Id>, selected: set<Id>, id: Id)
    requires IsLeastClosed(criteria, explicit, selected)
    ensures id in selected <==> Reached(criteria, explicit, id)
  {
    hide Chain, Needs;
    if Reached(criteria, explicit, id) {
      var chain: seq<Id> :| chain != [] && Chain(criteria, explicit, chain) && chain[|chain| - 1] == id;
      ChainIsSelected(criteria, explicit, selected, chain);
    }
    var reached := set x | x in selected && Reached(criteria, explicit, x);
    forall x | x in explicit ensures x in reached { StartIsReached(criteria, explicit, x); }
    forall criterion, dependency |
      criterion in criteria && criterion.id in reached && dependency in criterion.dependsOn
      ensures dependency in reached
    {
      NeededBy(criteria, criterion, dependency);
      ChainGrows(criteria, explicit, criterion.id, dependency);
    }
    assert Closed(criteria, reached);
  }

  lemma NeededBy(criteria: seq<Criterion>, c: Criterion, dependency: Id)
    requires c in criteria && dependency in c.dependsOn
    ensures Needs(criteria, c.id, dependency)
  {}

  lemma StartIsReached(criteria: seq<Criterion>, explicit: set<Id>, id: Id)
    requires id in explicit
    ensures Reached(criteria, explicit, id)
  {
    assert Chain(criteria, explicit, [id]);
  }

  /** What takes part in a run, by the request alone. Only checkable criteria do, and
      final ones only in the final phase or when named. With named criteria, those
      and what they depend on; in a run of affected criteria, those without areas,
      those with an area that a changed path touches, and all when no path changed. */
  lemma TakesPart(packet: seq<Criterion>, request: Request, selected: Option<set<Id>>, c: Criterion)
    requires selected.Some? <==> request.explicit != {}
    requires selected.Some? ==> IsLeastClosed(packet, request.explicit, selected.value)
    ensures Scheduled(request, selected, c) <==>
              && c.checkable
              && (c.finalOnly ==> request.finalPhase || c.id in request.explicit)
              && (request.explicit == {} ==> request.scope != Some(Focused))
              && (request.explicit != {} ==> Reached(packet, request.explicit, c.id))
              && (request.scope == Some(Affected) && c.areas != [] && request.changedPaths != [] ==>
                    exists area, path :: area in c.areas && path in request.changedPaths
                                         && request.touches(path, area))
  {
    if request.explicit != {} { SelectedIsReached(packet, request.explicit, selected.value, c.id); }
  }
}
