/** The password-failure windows of src/oauth-provider.ts: a tracker per key and
    one global tracker per domain, checked and advanced by `authorize`. */
module FailureWindow {
  import opened Common

  const MAX_FAILURES := 5
  const GLOBAL_MAX_FAILURES := 50
  const LOCKOUT_MS := 300000

  datatype Domain = Owner | Public

  /** `${domain}|${key}`; the domain names hold no bar, so the pair is the key. */
  datatype Scoped = Scoped(domain: Domain, key: string)

  datatype Tracker = Tracker(count: nat, firstFailureAtMs: int, lockedUntilMs: int)

  const FRESH := Tracker(0, 0, 0)

  /** `advanceFailureWindow`, then the caller's lockout decision. */
  function Advanced(t: Tracker, now: int, limit: nat): Tracker {
    var moved := if t.count == 0 || now - t.firstFailureAtMs > LOCKOUT_MS then t.(count := 1, firstFailureAtMs := now)
                 else t.(count := t.count + 1);
    if moved.count >= limit then moved.(lockedUntilMs := now + LOCKOUT_MS) else moved
  }

  datatype Record = Failed(who: Scoped, at: int) | Succeeded(who: Scoped)

  datatype State = State(failures: map<Scoped, Tracker>, globalFailures: map<Domain, Tracker>, now: int,
                           history: seq<Record>)

  function Initial(now: int): State {
    State(map[], map[Owner := FRESH, Public := FRESH], now, [])
  }

  predicate Expired(t: Tracker, now: int) {
    now - t.firstFailureAtMs > LOCKOUT_MS
  }

  function GlobalOf(s: State, domain: Domain): Tracker {
    if domain in s.globalFailures then s.globalFailures[domain] else FRESH
  }

  /** What a key's own tracker decides. */
  predicate Refuses(t: Tracker, now: int) {
    !Expired(t, now) && (t.lockedUntilMs > now || t.count >= MAX_FAILURES)
  }

  predicate LockedOut(s: State, who: Scoped, now: int) {
    GlobalOf(s, who.domain).lockedUntilMs > now || (who in s.failures && Refuses(s.failures[who], now))
  }

  /** What the check itself forgets: an expired tracker, unless the domain is locked. */
  function AfterCheck(s: State, who: Scoped, now: int): State {
    if GlobalOf(s, who.domain).lockedUntilMs <= now && who in s.failures && Expired(s.failures[who], now)
    then s.(failures := s.failures - {who}, now := now)
    else s.(now := now)
  }

  function AfterFailure(s: State, who: Scoped, now: int): State {
    var tracker := if who in s.failures then s.failures[who] else FRESH;
    State(s.failures[who := Advanced(tracker, now, MAX_FAILURES)],
          s.globalFailures[who.domain := Advanced(GlobalOf(s, who.domain), now, GLOBAL_MAX_FAILURES)],
          now, s.history + [Failed(who, now)])
  }

  function AfterSuccess(s: State, who: Scoped): State {
    State(s.failures - {who}, s.globalFailures[who.domain := FRESH], s.now, s.history + [Succeeded(who)])
  }

  datatype Step =
    /** `authorize`: the lockout is checked at one time, the failure recorded at another. */
    | Attempt(who: Scoped, correct: bool, checkedAt: int, recordedAt: int)
    | Purge(at: int)

  predicate Enabled(s: State, step: Step) {
    match step
    case Attempt(_, _, checkedAt, recordedAt) => s.now <= checkedAt <= recordedAt
    case Purge(at) => s.now <= at
  }

  function Purged(failures: map<Scoped, Tracker>, now: int): map<Scoped, Tracker> {
    map who | who in failures && !Expired(failures[who], now) :: failures[who]
  }

  function Apply(s: State, step: Step): State
    requires Enabled(s, step)
  {
    match step
    case Attempt(who, correct, checkedAt, recordedAt) =>
      var checked := AfterCheck(s, who, checkedAt);
      if LockedOut(s, who, checkedAt) then checked
      else if correct then AfterSuccess(checked, who)
      else AfterFailure(checked, who, recordedAt)
    case Purge(at) => s.(failures := Purged(s.failures, at), now := at)
  }

  ghost predicate Legal(s: State, steps: seq<Step>)
    decreases |steps|
  {
    steps != [] ==> Enabled(s, steps[0]) && Legal(Apply(s, steps[0]), steps[1..])
  }

  ghost function After(s: State, steps: seq<Step>): State
    requires Legal(s, steps)
    decreases |steps|
  {
    if steps == [] then s else After(Apply(s, steps[0]), steps[1..])
  }

  // ---- the recorded failures since the last success ----

  function KeyFailures(history: seq<Record>, who: Scoped): seq<int> {
    if history == [] then []
    else
      var last, earlier := history[|history| - 1], KeyFailures(history[..|history| - 1], who);
      if last.who != who then earlier else if last.Failed? then earlier + [last.at] else []
  }

  function DomainFailures(history: seq<Record>, domain: Domain): seq<int> {
    if history == [] then []
    else
      var last, earlier := history[|history| - 1], DomainFailures(history[..|history| - 1], domain);
      if last.who.domain != domain then earlier else if last.Failed? then earlier + [last.at] else []
  }

  /** Any 2 * limit failures in a row take longer than the lockout. */
  ghost predicate Spread(limit: nat, times: seq<int>) {
    forall i, j :: 0 <= i <= j < |times| && i + 2 * limit - 1 <= j ==> times[j] - times[i] > LOCKOUT_MS
  }

  ghost predicate Sorted(times: seq<int>) {
    forall i, j :: 0 <= i <= j < |times| ==> times[i] <= times[j]
  }

  // ---- windows ----

  /** A window `[from, to)` holds at most `limit` failures; the global one can hold
      one more, when the others all fell on its first instant and the last one
      exactly at its end. */
  ghost predicate Bounded(limit: nat, times: seq<int>, from: nat, to: nat)
    requires from <= to <= |times|
  {
    || to - from <= limit
    || (to - from == limit + 1
        && (forall i :: from <= i < from + limit ==> times[i] == times[from])
        && times[from + limit] == times[from] + LOCKOUT_MS)
  }

  /** The failures since `p` are the current window, those since `q` before it the previous one. */
  ghost predicate Windows(limit: nat, times: seq<int>, q: nat, p: nat) {
    && q <= p < |times|
    && Bounded(limit, times, p, |times|)
    && Bounded(limit, times, q, p)
    && (p > 0 ==> q < p && times[p] > times[q] + LOCKOUT_MS && times[p] > times[p - 1])
    && forall i :: p <= i < |times| ==> times[i] <= times[p] + LOCKOUT_MS
  }

  /** The current window starts at `first` and holds `count` failures. */
  ghost predicate Tracked(limit: nat, times: seq<int>, first: int, count: nat) {
    && Sorted(times) && Spread(limit, times)
    && 0 < count <= |times| && times[|times| - count] == first
    && HasWindow(limit, times, |times| - count)
  }

  ghost predicate HasWindow(limit: nat, times: seq<int>, p: nat) {
    exists q: nat :: Windows(limit, times, q, p)
  }

  /** One more failure keeps the spacing when it is far enough from the one 2 * limit - 1 before it. */
  lemma SpreadGrows(limit: nat, times: seq<int>, at: int)
    requires limit > 0 && Sorted(times) && Spread(limit, times)
    requires times != [] ==> times[|times| - 1] <= at
    requires |times| >= 2 * limit - 1 ==> at - times[|times| + 1 - 2 * limit] > LOCKOUT_MS
    ensures Sorted(times + [at]) && Spread(limit, times + [at])
  {
    var grown := times + [at];
    forall i, j | 0 <= i <= j < |grown| && i + 2 * limit - 1 <= j ensures grown[j] - grown[i] > LOCKOUT_MS {
      if j == |times| { assert times[i] <= times[|times| + 1 - 2 * limit]; }
    }
  }

  /** A failure joins the current window when it has room for it. */
  lemma JoinsWindow(limit: nat, times: seq<int>, first: int, count: nat, at: int)
    requires limit >= 2 && Tracked(limit, times, first, count)
    requires times[|times| - 1] <= at <= first + LOCKOUT_MS
    requires count < limit || (count == limit && at >= times[|times| - 1] + LOCKOUT_MS)
    ensures Tracked(limit, times + [at], first, count + 1)
  {
    var p: nat := |times| - count;
    assert HasWindow(limit, times, p);
    var q: nat :| Windows(limit, times, q, p);
    if |times| >= 2 * limit - 1 {
      // the failure 2 * limit - 1 before belongs to the previous window, or lies before it
      var i := |times| + 1 - 2 * limit;
      assert i < p && times[i] <= times[p - 1];
      if count < limit { assert times[i] <= times[q]; }
    }
    SpreadGrows(limit, times, at);
    JoinsWindows(limit, times, q, p, at);
    assert HasWindow(limit, times + [at], p);
  }

  lemma JoinsWindows(limit: nat, times: seq<int>, q: nat, p: nat, at: int)
    requires Sorted(times) && Windows(limit, times, q, p)
    requires times[|times| - 1] <= at <= times[p] + LOCKOUT_MS
    requires |times| - p < limit || (|times| - p == limit && at >= times[|times| - 1] + LOCKOUT_MS)
    ensures Windows(limit, times + [at], q, p)
  {
    var grown := times + [at];
    assert Bounded(limit, grown, q, p);
    if |times| - p == limit {
      forall i | p <= i < p + limit ensures grown[i] == grown[p] {
        assert times[p] <= times[i] <= times[|times| - 1];
      }
    }
  }

  /** A failure after the window's end starts a new one. */
  lemma StartsWindow(limit: nat, times: seq<int>, first: int, count: nat, at: int)
    requires limit >= 2 && Tracked(limit, times, first, count)
    requires at > first + LOCKOUT_MS
    ensures Tracked(limit, times + [at], at, 1)
  {
    var p: nat := |times| - count;
    assert HasWindow(limit, times, p);
    var q: nat :| Windows(limit, times, q, p);
    var n := |times|;
    assert times[n - 1] <= first + LOCKOUT_MS;
    if n >= 2 * limit - 1 { assert times[n + 1 - 2 * limit] <= times[p]; }
    SpreadGrows(limit, times, at);
    var grown := times + [at];
    assert Bounded(limit, grown, p, n);
    assert Windows(limit, grown, p, n);
    assert HasWindow(limit, grown, n);
  }

  lemma FirstWindow(limit: nat, at: int)
    requires limit >= 2
    ensures Tracked(limit, [at], at, 1)
  {
    assert Windows(limit, [at], 0, 0);
    assert HasWindow(limit, [at], 0);
  }

  // ---- the invariant ----

  ghost predicate KeyOk(s: State, who: Scoped) {
    var times := KeyFailures(s.history, who);
    && (times != [] ==> times[|times| - 1] <= s.now)
    && if who in s.failures then
         var t := s.failures[who];
         && t.count <= MAX_FAILURES && Tracked(MAX_FAILURES, times, t.firstFailureAtMs, t.count)
         && times != []
         && t.lockedUntilMs == (if t.count == MAX_FAILURES then times[|times| - 1] + LOCKOUT_MS else 0)
       else
         times == [] || exists first, count :: Forgotten(times, first, count, s.now)
  }

  /** The tracker is gone, and so is the window it tracked. */
  ghost predicate Forgotten(times: seq<int>, first: int, count: nat, now: int) {
    Tracked(MAX_FAILURES, times, first, count) && now > first + LOCKOUT_MS
  }

  ghost predicate DomainOk(s: State, domain: Domain) {
    var times, t := DomainFailures(s.history, domain), GlobalOf(s, domain);
    && (times != [] ==> times[|times| - 1] <= s.now)
    && (times == [] <==> t.count == 0)
    && (times != [] ==> Tracked(GLOBAL_MAX_FAILURES, times, t.firstFailureAtMs, t.count))
    && (t.count >= GLOBAL_MAX_FAILURES ==> t.lockedUntilMs == times[|times| - 1] + LOCKOUT_MS)
  }

  ghost predicate Inv(s: State) {
    (forall who :: KeyOk(s, who)) && forall domain :: DomainOk(s, domain)
  }

  lemma CheckKeeps(s: State, who: Scoped, now: int)
    requires Inv(s) && s.now <= now
    ensures Inv(AfterCheck(s, who, now))
  {
    var t := AfterCheck(s, who, now);
    forall other ensures KeyOk(t, other) {
      KeyWaits(s, t, other);
    }
    forall domain ensures DomainOk(t, domain) {
      assert DomainOk(s, domain);
    }
  }

  /** Waiting, and forgetting expired trackers, keeps a key's invariant. */
  lemma KeyWaits(s: State, t: State, who: Scoped)
    requires KeyOk(s, who) && t.history == s.history && s.now <= t.now
    requires who in t.failures ==> who in s.failures && t.failures[who] == s.failures[who]
    requires who in s.failures && who !in t.failures ==> Expired(s.failures[who], t.now)
    ensures KeyOk(t, who)
  {
    hide Tracked;
    var times := KeyFailures(s.history, who);
    if who in s.failures && who !in t.failures {
      assert Forgotten(times, s.failures[who].firstFailureAtMs, s.failures[who].count, t.now);
    } else if who !in s.failures && times != [] {
      var first, count: nat :| Forgotten(times, first, count, s.now);
      assert Forgotten(times, first, count, t.now);
    }
  }

  lemma PurgeKeeps(s: State, at: int)
    requires Inv(s) && s.now <= at
    ensures Inv(Apply(s, Purge(at)))
  {
    var t := Apply(s, Purge(at));
    forall who ensures KeyOk(t, who) {
      KeyWaits(s, t, who);
    }
    forall domain ensures DomainOk(t, domain) {
      assert DomainOk(s, domain);
    }
  }

  lemma SuccessKeeps(s: State, who: Scoped)
    requires Inv(s)
    ensures Inv(AfterSuccess(s, who))
  {
    var t := AfterSuccess(s, who);
    assert t.history[..|s.history|] == s.history;
    forall other ensures KeyOk(t, other) {
      assert KeyOk(s, other);
    }
    forall domain ensures DomainOk(t, domain) {
      assert DomainOk(s, domain);
    }
  }

  /** The state a failure is recorded in: checked at `s.now`, not locked out. */
  ghost predicate Admitted(s: State, who: Scoped) {
    && GlobalOf(s, who.domain).lockedUntilMs <= s.now
    && (who in s.failures ==> !Expired(s.failures[who], s.now) && s.failures[who].count < MAX_FAILURES)
  }

  lemma FailureKeepsKey(s: State, who: Scoped, at: int)
    requires KeyOk(s, who) && Admitted(s, who) && s.now <= at
    ensures KeyOk(AfterFailure(s, who, at), who)
  {
    hide Tracked, Windows;
    var t := AfterFailure(s, who, at);
    assert t.history[..|s.history|] == s.history;
    var times := KeyFailures(s.history, who);
    if who in s.failures {
      var tracker := s.failures[who];
      TrackedIsNonEmpty(MAX_FAILURES, times, tracker.firstFailureAtMs, tracker.count);
      if Expired(tracker, at) {
        StartsWindow(MAX_FAILURES, times, tracker.firstFailureAtMs, tracker.count, at);
      } else {
        JoinsWindow(MAX_FAILURES, times, tracker.firstFailureAtMs, tracker.count, at);
      }
    } else if times == [] {
      FirstWindow(MAX_FAILURES, at);
      assert times + [at] == [at];
    } else {
      var first, count: nat :| Forgotten(times, first, count, s.now);
      StartsWindow(MAX_FAILURES, times, first, count, at);
    }
  }

  lemma TrackedIsNonEmpty(limit: nat, times: seq<int>, first: int, count: nat)
    requires Tracked(limit, times, first, count)
    ensures 0 < count <= |times|
  {}

  lemma FailureKeepsDomain(s: State, who: Scoped, at: int)
    requires DomainOk(s, who.domain) && Admitted(s, who) && s.now <= at
    ensures DomainOk(AfterFailure(s, who, at), who.domain)
  {
    var t := AfterFailure(s, who, at);
    assert t.history[..|s.history|] == s.history;
    var times, tracker := DomainFailures(s.history, who.domain), GlobalOf(s, who.domain);
    if times == [] {
      FirstWindow(GLOBAL_MAX_FAILURES, at);
      assert times + [at] == [at];
    } else if Expired(tracker, at) {
      StartsWindow(GLOBAL_MAX_FAILURES, times, tracker.firstFailureAtMs, tracker.count, at);
    } else {
      GlobalWindowHasRoom(times, tracker, s.now, at);
      JoinsWindow(GLOBAL_MAX_FAILURES, times, tracker.firstFailureAtMs, tracker.count, at);
    }
  }

  /** The global lock outlasts the window, except when it began at its first instant. */
  lemma GlobalWindowHasRoom(times: seq<int>, t: Tracker, now: int, at: int)
    requires Tracked(GLOBAL_MAX_FAILURES, times, t.firstFailureAtMs, t.count)
    requires t.lockedUntilMs <= now <= at && !Expired(t, at)
    requires t.count >= GLOBAL_MAX_FAILURES ==> t.lockedUntilMs == times[|times| - 1] + LOCKOUT_MS
    ensures t.count < GLOBAL_MAX_FAILURES || (t.count == GLOBAL_MAX_FAILURES && at >= times[|times| - 1] + LOCKOUT_MS)
  {
    var p: nat := |times| - t.count;
    assert HasWindow(GLOBAL_MAX_FAILURES, times, p);
    var q: nat :| Windows(GLOBAL_MAX_FAILURES, times, q, p);
    assert Bounded(GLOBAL_MAX_FAILURES, times, p, |times|);
  }

  lemma FailureKeeps(s: State, who: Scoped, at: int)
    requires Inv(s) && Admitted(s, who) && s.now <= at
    ensures Inv(AfterFailure(s, who, at))
  {
    var t := AfterFailure(s, who, at);
    assert t.history[..|s.history|] == s.history;
    forall other ensures KeyOk(t, other) {
      assert KeyOk(s, other);
      if other == who {
        FailureKeepsKey(s, who, at);
      } else {
        KeyElsewhere(s, t, other);
      }
    }
    forall domain ensures DomainOk(t, domain) {
      assert DomainOk(s, domain);
      if domain == who.domain { FailureKeepsDomain(s, who, at); }
    }
  }

  lemma KeyElsewhere(s: State, t: State, who: Scoped)
    requires KeyOk(s, who) && s.now <= t.now
    requires KeyFailures(t.history, who) == KeyFailures(s.history, who)
    requires who in t.failures <==> who in s.failures
    requires who in s.failures ==> t.failures[who] == s.failures[who]
    ensures KeyOk(t, who)
  {
    hide Tracked, KeyFailures;
    var times := KeyFailures(s.history, who);
    if who !in s.failures && times != [] {
      var first, count: nat :| Forgotten(times, first, count, s.now);
      assert Forgotten(times, first, count, t.now);
    }
  }

  lemma AttemptKeeps(s: State, step: Step)
    requires Inv(s) && step.Attempt? && Enabled(s, step)
    ensures Inv(Apply(s, step))
  {
    hide Inv;
    CheckKeeps(s, step.who, step.checkedAt);
    var checked := AfterCheck(s, step.who, step.checkedAt);
    if !LockedOut(s, step.who, step.checkedAt) {
      if step.correct {
        SuccessKeeps(checked, step.who);
      } else {
        FailureKeeps(checked, step.who, step.recordedAt);
      }
    }
  }

  lemma {:induction false} InvAlongRun(s: State, steps: seq<Step>)
    requires Inv(s) && Legal(s, steps)
    ensures Inv(After(s, steps))
    decreases |steps|
  {
    hide Inv;
    if steps != [] {
      match steps[0] {
        case Attempt(_, _, _, _) => AttemptKeeps(s, steps[0]);
        case Purge(at) => PurgeKeeps(s, at);
      }
      InvAlongRun(Apply(s, steps[0]), steps[1..]);
    }
  }

  // ---- main results ----

  /** The failures of a list that fall into the closed span `[from, from + LOCKOUT_MS]`. */
  ghost function InSpan(times: seq<int>, from: int): set<nat> {
    set i: nat | i < |times| && from <= times[i] <= from + LOCKOUT_MS
  }

  function Range(lo: nat, hi: nat): (range: set<nat>)
    requires lo <= hi
    ensures |range| == hi - lo && forall i: nat :: i in range <==> lo <= i < hi
    decreases hi - lo
  {
    if lo == hi then {} else Range(lo, hi - 1) + {hi - 1}
  }

  lemma Subset(a: set<nat>, b: set<nat>)
    requires a <= b
    ensures |a| <= |b|
  {
    assert b == a + (b - a);
  }

  /** Spread out failures leave fewer than 2 * limit in any span. */
  lemma SpreadBoundsSpan(limit: nat, times: seq<int>, from: int)
    requires limit > 0 && Sorted(times) && Spread(limit, times)
    ensures |InSpan(times, from)| < 2 * limit
  {
    var span := InSpan(times, from);
    if span != {} {
      var lo: nat := 0;
      while times[lo] < from
        invariant lo < |times| && forall i :: 0 <= i < lo ==> times[i] < from
        invariant exists i :: i in span && lo <= i
        decreases |times| - lo
      {
        lo := lo + 1;
      }
      var range := Range(lo, lo + 2 * limit - 1);
      forall i | i in span ensures i in range {
        assert lo <= i && times[i] - times[lo] <= LOCKOUT_MS;
      }
      Subset(span, range);
    }
  }

  /** Over every interleaving of keys, purges and clock readings: since a key's
      last success, any span of length LOCKOUT_MS holds fewer than twice its
      limit of recorded failures, and since the last success in a domain any such
      span holds fewer than twice the global limit. */
  lemma FailuresAreBounded(now: int, steps: seq<Step>)
    requires Legal(Initial(now), steps)
    ensures var s := After(Initial(now), steps);
            && (forall who, from :: |InSpan(KeyFailures(s.history, who), from)| < 2 * MAX_FAILURES)
            && (forall domain, from :: |InSpan(DomainFailures(s.history, domain), from)| < 2 * GLOBAL_MAX_FAILURES)
  {
    InvAlongRun(Initial(now), steps);
    var s := After(Initial(now), steps);
    forall who, from ensures |InSpan(KeyFailures(s.history, who), from)| < 2 * MAX_FAILURES {
      assert KeyOk(s, who);
      SpreadBoundsSpan(MAX_FAILURES, KeyFailures(s.history, who), from);
    }
    forall domain, from ensures |InSpan(DomainFailures(s.history, domain), from)| < 2 * GLOBAL_MAX_FAILURES {
      assert DomainOk(s, domain);
      SpreadBoundsSpan(GLOBAL_MAX_FAILURES, DomainFailures(s.history, domain), from);
    }
  }

  lemma {:induction false} RunExtends(s: State, steps: seq<Step>, step: Step)
    requires Legal(s, steps) && Enabled(After(s, steps), step)
    ensures Legal(s, steps + [step]) && After(s, steps + [step]) == Apply(After(s, steps), step)
    decreases |steps|
  {
    hide Apply, Enabled;
    if steps == [] {
      assert [step][1..] == [];
    } else {
      assert (steps + [step])[1..] == steps[1..] + [step];
      RunExtends(Apply(s, steps[0]), steps[1..], step);
    }
  }

  /** When the failures that reach the bound fall: one, four at the very end of its
      window, and five directly after. */
  function WorstTimes(): seq<int> {
    [0] + seq(MAX_FAILURES - 1, _ => LOCKOUT_MS) + seq(MAX_FAILURES, _ => LOCKOUT_MS + 1)
  }

  lemma EmptyRun(who: Scoped)
    ensures Legal(Initial(0), []) && After(Initial(0), []) == Initial(0) && KeyFailures(Initial(0).history, who) == []
  {}

  /** The key's tracker, unless its window is over. */
  function Live(s: State, who: Scoped, at: int): Tracker {
    if who in s.failures && !Expired(s.failures[who], at) then s.failures[who] else FRESH
  }

  /** What an attempt that is let through and fails does to its own counts. */
  lemma AdmittedFailure(s: State, who: Scoped, at: int)
    requires s.now <= at && !LockedOut(s, who, at)
    ensures var t := Apply(s, Attempt(who, false, at, at));
            && KeyFailures(t.history, who) == KeyFailures(s.history, who) + [at] && t.now == at
            && who in t.failures
            && t.failures[who] == Advanced(Live(s, who, at), at, MAX_FAILURES)
            && GlobalOf(t, who.domain) == Advanced(GlobalOf(s, who.domain), at, GLOBAL_MAX_FAILURES)
  {
    assert (s.history + [Failed(who, at)])[..|s.history|] == s.history;
  }

  /** The bound is exact: some run puts 2 * MAX_FAILURES - 1 failures into one span. */
  lemma BoundIsAttained(who: Scoped) returns (steps: seq<Step>)
    ensures Legal(Initial(0), steps)
    ensures |InSpan(KeyFailures(After(Initial(0), steps).history, who), LOCKOUT_MS)| == 2 * MAX_FAILURES - 1
  {
    hide Legal, After, Apply, KeyFailures;
    var times := WorstTimes();
    EmptyRun(who);
    steps := [];
    var s := Initial(0);
    for i := 0 to 2 * MAX_FAILURES
      invariant Legal(Initial(0), steps) && s == After(Initial(0), steps)
      invariant KeyFailures(s.history, who) == times[..i]
      invariant s.now == if i == 0 then 0 else times[i - 1]
      invariant GlobalOf(s, who.domain).lockedUntilMs == 0 && GlobalOf(s, who.domain).count <= i
      invariant if i == 0 then who !in s.failures
                else
                  && who in s.failures
                  && s.failures[who].count == (if i <= MAX_FAILURES then i else i - MAX_FAILURES)
                  && s.failures[who].firstFailureAtMs == (if i <= MAX_FAILURES then 0 else LOCKOUT_MS + 1)
                  && (s.failures[who].count < MAX_FAILURES ==> s.failures[who].lockedUntilMs == 0)
    {
      var at := times[i];
      var step := Attempt(who, false, at, at);
      RunExtends(Initial(0), steps, step);
      assert !LockedOut(s, who, at);
      AdmittedFailure(s, who, at);
      assert times[..i + 1] == times[..i] + [at];
      steps, s := steps + [step], Apply(s, step);
    }
    assert times[..2 * MAX_FAILURES] == times;
    assert InSpan(times, LOCKOUT_MS) == Range(1, 2 * MAX_FAILURES);
  }

  // ---- how long a full key is refused ----

  /** A key with a full window is refused, as far as the key goes, until
      LOCKOUT_MS after the first failure of the window; `lockedUntilMs` is LOCKOUT_MS
      after its last one. So it is refused all the time from its last failure
      until `lockedUntilMs` exactly when the whole window took at most a
      millisecond. */
  lemma LockHoldsIffWindowIsInstant(now: int, steps: seq<Step>, who: Scoped)
    requires Legal(Initial(now), steps)
    requires var s := After(Initial(now), steps); who in s.failures && s.failures[who].count == MAX_FAILURES
    ensures var s := After(Initial(now), steps);
            var t, times := s.failures[who], KeyFailures(s.history, who);
            && |times| >= MAX_FAILURES
            && var first, last := times[|times| - MAX_FAILURES], times[|times| - 1];
               && first == t.firstFailureAtMs && t.lockedUntilMs == last + LOCKOUT_MS
               && (forall at :: at >= last ==> (Refuses(t, at) <==> at <= first + LOCKOUT_MS))
               && ((forall at :: last <= at < t.lockedUntilMs ==> Refuses(t, at)) <==> last <= first + 1)
  {
    InvAlongRun(Initial(now), steps);
    var s := After(Initial(now), steps);
    assert KeyOk(s, who);
    var t, times := s.failures[who], KeyFailures(s.history, who);
    var p: nat := |times| - MAX_FAILURES;
    assert HasWindow(MAX_FAILURES, times, p);
    var q: nat :| Windows(MAX_FAILURES, times, q, p);
    var first, last := times[p], times[|times| - 1];
    assert last <= first + LOCKOUT_MS;
    if last > first + 1 {
      assert !Refuses(t, first + LOCKOUT_MS + 1);
      assert last <= first + LOCKOUT_MS + 1 < t.lockedUntilMs;
    }
  }

  /** A run in which a wrong password is looked at and recorded while the key's
      `lockedUntilMs` is still to come: one failure, four more ten milliseconds
      later, and a sixth as soon as the window is over. */
  lemma FailureBeforeLockEnds(who: Scoped) returns (steps: seq<Step>, sixth: Step)
    ensures Legal(Initial(0), steps) && sixth == Attempt(who, false, LOCKOUT_MS + 1, LOCKOUT_MS + 1)
    ensures var s := After(Initial(0), steps);
            && Enabled(s, sixth) && !LockedOut(s, who, LOCKOUT_MS + 1)
            && who in s.failures && s.failures[who].count == MAX_FAILURES
            && s.failures[who].lockedUntilMs == LOCKOUT_MS + 10
            && KeyFailures(Apply(s, sixth).history, who) == [0, 10, 10, 10, 10, LOCKOUT_MS + 1]
  {
    hide Legal, After, Apply, KeyFailures;
    var times := [0, 10, 10, 10, 10];
    EmptyRun(who);
    steps := [];
    var s := Initial(0);
    for i := 0 to MAX_FAILURES
      invariant Legal(Initial(0), steps) && s == After(Initial(0), steps)
      invariant KeyFailures(s.history, who) == times[..i]
      invariant s.now == if i == 0 then 0 else times[i - 1]
      invariant GlobalOf(s, who.domain).lockedUntilMs == 0 && GlobalOf(s, who.domain).count <= i
      invariant if i == 0 then who !in s.failures
                else
                  && who in s.failures
                  && s.failures[who] == Tracker(i, 0, if i == MAX_FAILURES then LOCKOUT_MS + 10 else 0)
    {
      var at := times[i];
      var step := Attempt(who, false, at, at);
      RunExtends(Initial(0), steps, step);
      AdmittedFailure(s, who, at);
      assert times[..i + 1] == times[..i] + [at];
      steps, s := steps + [step], Apply(s, step);
    }
    assert times[..MAX_FAILURES] == times;
    sixth := Attempt(who, false, LOCKOUT_MS + 1, LOCKOUT_MS + 1);
    AdmittedFailure(s, who, LOCKOUT_MS + 1);
  }

  // ---- the one extra failure of a global window ----

  /** The last failures are the limit's number at one instant, and one more
      exactly LOCKOUT_MS later. */
  ghost predicate OneTooMany(limit: nat, times: seq<int>) {
    var n := |times|;
    && n > limit
    && (forall i :: n - limit - 1 <= i < n - 1 ==> times[i] == times[n - limit - 1])
    && times[n - 1] == times[n - limit - 1] + LOCKOUT_MS
  }

  /** A global window holds at most its limit, except that it holds one failure
      more exactly when the limit was reached at its first instant and the next
      failure came at the very instant the lock and the window end. */
  lemma GlobalWindowOverflowsIff(now: int, steps: seq<Step>, domain: Domain)
    requires Legal(Initial(now), steps)
    ensures var s := After(Initial(now), steps);
            var count := GlobalOf(s, domain).count;
            && (count <= GLOBAL_MAX_FAILURES || count == GLOBAL_MAX_FAILURES + 1)
            && (count == GLOBAL_MAX_FAILURES + 1 <==>
                  OneTooMany(GLOBAL_MAX_FAILURES, DomainFailures(s.history, domain)))
  {
    InvAlongRun(Initial(now), steps);
    var s := After(Initial(now), steps);
    assert DomainOk(s, domain);
    var times := DomainFailures(s.history, domain);
    if times != [] { WindowOverflowsIff(GLOBAL_MAX_FAILURES, times, GlobalOf(s, domain)); }
  }

  lemma WindowOverflowsIff(limit: nat, times: seq<int>, t: Tracker)
    requires limit >= 2 && Tracked(limit, times, t.firstFailureAtMs, t.count)
    ensures t.count <= limit + 1 && (t.count == limit + 1 <==> OneTooMany(limit, times))
  {
    var n, p: nat := |times|, |times| - t.count;
    assert HasWindow(limit, times, p);
    var q: nat :| Windows(limit, times, q, p);
    assert Bounded(limit, times, p, n) && Bounded(limit, times, q, p);
    if OneTooMany(limit, times) {
      // the window cannot start inside the run of equal times
      var k := n - limit - 1;
      forall i | k < i < n - 1 ensures times[i] == times[i - 1] {}
    }
  }

  /** Distinct keys of a domain. */
  function KeyNo(domain: Domain, i: nat): Scoped {
    Scoped(domain, seq(i, _ => 'k'))
  }

  lemma KeysDiffer(domain: Domain, i: nat, j: nat)
    requires i != j
    ensures KeyNo(domain, i) != KeyNo(domain, j)
  {
    assert |KeyNo(domain, i).key| == i && |KeyNo(domain, j).key| == j;
  }

  /** The state after the given failures, each by a key of its own. */
  ghost predicate Spent(s: State, steps: seq<Step>, domain: Domain, times: seq<int>) {
    && Legal(Initial(0), steps) && s == After(Initial(0), steps)
    && DomainFailures(s.history, domain) == times
    && s.now == (if times == [] then 0 else times[|times| - 1])
    && forall j: nat :: j >= |times| ==> KeyNo(domain, j) !in s.failures
  }

  lemma NothingSpent(domain: Domain)
    ensures Spent(Initial(0), [], domain, []) && GlobalOf(Initial(0), domain) == FRESH
  {}

  /** One more failure, by the next key, at a time when the domain is not locked. */
  lemma SpendOne(s: State, steps: seq<Step>, domain: Domain, times: seq<int>, at: int)
      returns (s': State, steps': seq<Step>)
    requires Spent(s, steps, domain, times) && s.now <= at && GlobalOf(s, domain).lockedUntilMs <= at
    ensures Spent(s', steps', domain, times + [at])
    ensures GlobalOf(s', domain) == Advanced(GlobalOf(s, domain), at, GLOBAL_MAX_FAILURES)
  {
    hide Legal, After;
    var who := KeyNo(domain, |times|);
    var step := Attempt(who, false, at, at);
    RunExtends(Initial(0), steps, step);
    steps', s' := steps + [step], Apply(s, step);
    assert s'.history[..|s.history|] == s.history;
    forall j: nat | j >= |times| + 1 ensures KeyNo(domain, j) !in s'.failures {
      KeysDiffer(domain, j, |times|);
    }
  }

  /** The same time, several times over. */
  function Times(at: int, count: nat): seq<int> {
    seq(count, _ => at)
  }

  /** Several failures at one instant at which the domain does not become locked
      before the last of them. */
  lemma SpendMany(s: State, steps: seq<Step>, domain: Domain, times: seq<int>, at: int, count: nat)
      returns (s': State, steps': seq<Step>)
    requires Spent(s, steps, domain, times) && s.now <= at && GlobalOf(s, domain).lockedUntilMs <= at
    requires count > 0
    requires var g := GlobalOf(s, domain);
             (if g.count == 0 || Expired(g, at) then 0 else g.count) + count <= GLOBAL_MAX_FAILURES
    ensures Spent(s', steps', domain, times + Times(at, count))
    ensures var g, g' := GlobalOf(s, domain), GlobalOf(s', domain);
            var joined := if g.count == 0 || Expired(g, at) then 0 else g.count;
            && g'.count == joined + count
            && g'.firstFailureAtMs == (if joined == 0 then at else g.firstFailureAtMs)
            && g'.lockedUntilMs == (if g'.count == GLOBAL_MAX_FAILURES then at + LOCKOUT_MS else g.lockedUntilMs)
    decreases count
  {
    hide Spent;
    s', steps' := SpendOne(s, steps, domain, times, at);
    SpentNow(s', steps', domain, times + [at]);
    if count == 1 {
      assert Times(at, 1) == [at];
    } else {
      s', steps' := SpendMany(s', steps', domain, times + [at], at, count - 1);
      assert Times(at, count) == [at] + Times(at, count - 1);
      Assoc(times, [at], Times(at, count - 1));
    }
  }

  lemma SpentNow(s: State, steps: seq<Step>, domain: Domain, times: seq<int>)
    requires Spent(s, steps, domain, times) && times != []
    ensures s.now == times[|times| - 1]
  {}

  /** A run that does overflow the global window. */
  lemma GlobalWindowOverflows(domain: Domain) returns (steps: seq<Step>)
    ensures Legal(Initial(0), steps)
    ensures GlobalOf(After(Initial(0), steps), domain).count == GLOBAL_MAX_FAILURES + 1
  {
    var s := Initial(0);
    NothingSpent(domain);
    s, steps := SpendMany(s, [], domain, [], 0, GLOBAL_MAX_FAILURES);
    s, steps := SpendOne(s, steps, domain, [] + Times(0, GLOBAL_MAX_FAILURES), LOCKOUT_MS);
  }

  /** The domain bound is exact, too: some run puts 2 * GLOBAL_MAX_FAILURES - 1
      failures of a domain into one span. */
  lemma DomainBoundIsAttained(domain: Domain) returns (steps: seq<Step>)
    ensures Legal(Initial(0), steps)
    ensures |InSpan(DomainFailures(After(Initial(0), steps).history, domain), LOCKOUT_MS)|
              == 2 * GLOBAL_MAX_FAILURES - 1
  {
    var s := Initial(0);
    NothingSpent(domain);
    s, steps := SpendMany(s, [], domain, [], 0, 1);
    s, steps := SpendMany(s, steps, domain, [] + Times(0, 1), LOCKOUT_MS, GLOBAL_MAX_FAILURES - 1);
    var before := [] + Times(0, 1) + Times(LOCKOUT_MS, GLOBAL_MAX_FAILURES - 1);
    s, steps := SpendMany(s, steps, domain, before, 2 * LOCKOUT_MS, GLOBAL_MAX_FAILURES);
    var times := before + Times(2 * LOCKOUT_MS, GLOBAL_MAX_FAILURES);
    assert InSpan(times, LOCKOUT_MS) == Range(1, 2 * GLOBAL_MAX_FAILURES);
  }

  // ---- the provider, updated in place ----

  class Provider {
    var failures: map<Scoped, Tracker>
    var globalFailures: map<Domain, Tracker>
    var now: int
    ghost var history: seq<Record>

    ghost function Model(): State
      reads this
    {
      State(failures, globalFailures, now, history)
    }

    constructor (now: int)
      ensures Model() == Initial(now)
    {
      failures, globalFailures := map[], map[Owner := FRESH, Public := FRESH];
      this.now, history := now, [];
    }

    method IsLockedOut(who: Scoped, at: int) returns (locked: bool)
      modifies this`failures, this`now
      ensures locked == LockedOut(old(Model()), who, at)
      ensures Model() == AfterCheck(old(Model()), who, at)
    {
      now := at;
      var global := if who.domain in globalFailures then globalFailures[who.domain] else FRESH;
      if global.lockedUntilMs > at { return true; }
      if who !in failures { return false; }
      var tracker := failures[who];
      if at - tracker.firstFailureAtMs > LOCKOUT_MS {
        failures := failures - {who};
        return false;
      }
      return tracker.lockedUntilMs > at || tracker.count >= MAX_FAILURES;
    }

    /** `advanceFailureWindow`: the window restarts once it is over. */
    method AdvanceFailureWindow(tracker: Tracker, at: int) returns (t: Tracker)
      ensures t.lockedUntilMs == tracker.lockedUntilMs && t.count >= 1
      ensures forall limit: nat :: Advanced(tracker, at, limit)
                == if t.count >= limit then t.(lockedUntilMs := at + LOCKOUT_MS) else t
    {
      t := tracker;
      if t.count == 0 || at - t.firstFailureAtMs > LOCKOUT_MS {
        t := t.(firstFailureAtMs := at, count := 1);
      } else {
        t := t.(count := t.count + 1);
      }
    }

    method RecordFailure(who: Scoped, at: int)
      modifies this
      ensures Model() == AfterFailure(old(Model()), who, at)
    {
      var tracker := AdvanceFailureWindow(if who in failures then failures[who] else FRESH, at);
      if tracker.count >= MAX_FAILURES { tracker := tracker.(lockedUntilMs := at + LOCKOUT_MS); }
      failures := failures[who := tracker];
      var global := if who.domain in globalFailures then globalFailures[who.domain] else FRESH;
      global := AdvanceFailureWindow(global, at);
      if global.count >= GLOBAL_MAX_FAILURES { global := global.(lockedUntilMs := at + LOCKOUT_MS); }
      globalFailures := globalFailures[who.domain := global];
      now, history := at, history + [Failed(who, at)];
    }

    /** A success: the key starts afresh and its domain is unlocked; other keys and
        the other domain keep what they have. */
    method ClearFailures(who: Scoped)
      modifies this`failures, this`globalFailures, this`history
      ensures Model() == AfterSuccess(old(Model()), who)
      ensures KeyFailures(history, who) == [] && DomainFailures(history, who.domain) == []
      ensures forall at :: at >= 0 ==> !LockedOut(Model(), who, at)
      ensures forall other :: other != who ==>
                && KeyFailures(history, other) == KeyFailures(old(history), other)
                && (other in failures <==> other in old(failures))
                && (other in failures ==> failures[other] == old(failures)[other])
      ensures forall domain :: domain != who.domain ==> GlobalOf(Model(), domain) == GlobalOf(old(Model()), domain)
    {
      assert (history + [Succeeded(who)])[..|history|] == history;
      failures := failures - {who};
      globalFailures := globalFailures[who.domain := FRESH];
      history := history + [Succeeded(who)];
    }

    /** The part of `authorize` that decides about a presented password. */
    method Authorize(who: Scoped, correct: bool, checkedAt: int, recordedAt: int) returns (granted: bool)
      requires Enabled(Model(), Attempt(who, correct, checkedAt, recordedAt))
      modifies this
      ensures Model() == Apply(old(Model()), Attempt(who, correct, checkedAt, recordedAt))
      ensures granted <==> correct && !LockedOut(old(Model()), who, checkedAt)
    {
      var locked := IsLockedOut(who, checkedAt);
      if locked { return false; }
      if !correct {
        RecordFailure(who, recordedAt);
        return false;
      }
      ClearFailures(who);
      return true;
    }

    method PurgeExpiredFailures(at: int) returns (removed: nat)
      requires now <= at
      modifies this`failures, this`now
      ensures Model() == Apply(old(Model()), Purge(at))
      ensures removed == |old(failures).Keys| - |failures.Keys|
    {
      now := at;
      removed := 0;
      var left := failures.Keys;
      while left != {}
        invariant now == at && left <= failures.Keys <= old(failures).Keys
        invariant forall who :: who in failures ==> failures[who] == old(failures)[who]
        invariant forall who :: who in old(failures) && who !in left ==>
                    (who in failures <==> !Expired(old(failures)[who], at))
        invariant forall who :: who in left ==> who in failures
        invariant removed == |old(failures).Keys| - |failures.Keys|
        decreases |left|
      {
        var who :| who in left;
        left := left - {who};
        if at - failures[who].firstFailureAtMs > LOCKOUT_MS {
          assert failures.Keys == (failures - {who}).Keys + {who};
          failures := failures - {who};
          removed := removed + 1;
        }
      }
      assert failures.Keys == Purged(old(failures), at).Keys;
    }
  }
}
