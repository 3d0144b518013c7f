/** The verifier's scheduler in `verifyMissionSubmission` (src/mission-verifier.ts):
    which criteria are checked, and in which order and company they run.

    One iteration of the scheduling loop up to its first `await` is one step; the
    checks it starts finish one by one, in any order and with any outcome. */
module VerifierSchedule {
  import opened Common

  type Id = string

  datatype Status = Passed | Failed | Inconclusive

  datatype Criterion = Criterion(id: Id, dependsOn: seq<Id>, mutates: bool, checkable: bool, finalOnly: bool,
                                   areas: seq<string>)

  ghost predicate UniqueIds(criteria: seq<Criterion>) {
    forall i, j :: 0 <= i < j < |criteria| ==> criteria[i].id != criteria[j].id
  }

  // ---- what is selected ----

  datatype Scope = Full | Affected | Focused

  datatype Request = Request(
    explicit: set<Id>, scope: Option<Scope>, finalPhase: bool, changedPaths: seq<string>,
      touches: (string, string) -> bool)

  /** A set of ids that holds the dependencies of the criteria it holds. */
  ghost predicate Closed(criteria: seq<Criterion>, ids: set<Id>) {
    forall criterion, dependency ::
      criterion in criteria && criterion.id in ids && dependency in criterion.dependsOn ==> dependency in ids
  }

  ghost predicate IsLeastClosed(criteria: seq<Criterion>, explicit: set<Id>, selected: set<Id>) {
    && explicit <= selected && Closed(criteria, selected)
    && forall ids :: explicit <= ids && Closed(criteria, ids) ==> selected <= ids
  }

  function AllDependencies(criteria: seq<Criterion>): set<Id> {
    set criterion, dependency | criterion in criteria && dependency in criterion.dependsOn :: dependency
  }

  /** The fixpoint loop that expands an explicit selection to its prerequisites. */
  method ExpandSelection(criteria: seq<Criterion>, explicit: set<Id>) returns (selected: set<Id>)
    ensures IsLeastClosed(criteria, explicit, selected)
  {
    selected := explicit;
    var universe := explicit + AllDependencies(criteria);
    var changed := true;
    while changed
      invariant explicit <= selected <= universe
      invariant forall ids :: explicit <= ids && Closed(criteria, ids) ==> selected <= ids
      invariant !changed ==> Closed(criteria, selected)
      decreases |universe - selected|, changed
    {
      ghost var before := selected;
      selected, changed := ExpandOnce(criteria, explicit, universe, selected);
      if changed {
        assert universe - selected < universe - before;
        SmallerSet(universe - selected, universe - before);
      }
    }
  }

  /** One pass over the criteria. */
  method ExpandOnce(criteria: seq<Criterion>, ghost explicit: set<Id>, ghost universe: set<Id>, start: set<Id>)
      returns (selected: set<Id>, changed: bool)
    requires start <= universe && AllDependencies(criteria) <= universe
    requires forall ids :: explicit <= ids && Closed(criteria, ids) ==> start <= ids
    ensures start <= selected <= universe && (changed <==> selected != start)
    ensures forall ids :: explicit <= ids && Closed(criteria, ids) ==> selected <= ids
    ensures !changed ==> Closed(criteria, selected)
  {
    selected, changed := start, false;
    for i := 0 to |criteria|
      invariant start <= selected <= universe
      invariant forall ids :: explicit <= ids && Closed(criteria, ids) ==> selected <= ids
      invariant changed <==> selected != start
      invariant !changed ==> Closed(criteria[..i], selected)
    {
      if criteria[i].id in selected {
        var added;
        selected, added := AddDependencies(criteria, criteria[i], explicit, selected);
        changed := changed || added;
      }
    }
    assert criteria[..|criteria|] == criteria;
  }

  lemma SmallerSet(a: set<Id>, b: set<Id>)
    requires a < b
    ensures |a| < |b|
  {
    assert b == a + (b - a);
    var x :| x in b && x !in a;
    assert x in b - a;
  }

  method AddDependencies(ghost criteria: seq<Criterion>, criterion: Criterion, ghost explicit: set<Id>,
                         selected: set<Id>) returns (grown: set<Id>, added: bool)
    requires criterion in criteria && criterion.id in selected
    requires forall ids :: explicit <= ids && Closed(criteria, ids) ==> selected <= ids
    ensures grown == selected + set dependency | dependency in criterion.dependsOn
    ensures added <==> grown != selected
    ensures forall ids :: explicit <= ids && Closed(criteria, ids) ==> grown <= ids
  {
    grown, added := selected, false;
    for i := 0 to |criterion.dependsOn|
      invariant grown == selected + set dependency | dependency in criterion.dependsOn[..i]
      invariant selected <= grown && (added <==> grown != selected)
    {
      assert criterion.dependsOn[..i + 1] == criterion.dependsOn[..i] + [criterion.dependsOn[i]];
      if criterion.dependsOn[i] !in grown { grown, added := grown + {criterion.dependsOn[i]}, true; }
    }
    assert criterion.dependsOn[..|criterion.dependsOn|] == criterion.dependsOn;
  }

  /** Whether a criterion takes part, given the expanded selection (none without an explicit one). */
  predicate Scheduled(request: Request, selected: Option<set<Id>>, criterion: Criterion) {
    var scope := if request.scope.Some? then request.scope.value else if request.explicit != {} then Focused else Full;
    && criterion.checkable
    && (selected.Some? ==> criterion.id in selected.value)
    && (match scope
        case Full => true
        case Focused => selected.Some? && criterion.id in selected.value
        case Affected =>
          criterion.areas == [] || request.changedPaths == []
          || exists area, path :: area in criterion.areas && path in request.changedPaths
               && request.touches(path, area))
    && (criterion.finalOnly ==> request.finalPhase || criterion.id in request.explicit)
  }

  function Filter<T(!new)>(keep: T -> bool, s: seq<T>): (kept: seq<T>)
    ensures forall x :: x in kept <==> x in s && keep(x)
    ensures |kept| <= |s|
  {
    if s == [] then [] else (if keep(s[0]) then [s[0]] else []) + Filter(keep, s[1..])
  }

  /** The criteria to run; without an explicit selection nothing is expanded. */
  method SelectCriteria(packet: seq<Criterion>, request: Request)
      returns (chosen: seq<Criterion>, selected: Option<set<Id>>)
    ensures selected.Some? <==> request.explicit != {}
    ensures selected.Some? ==> IsLeastClosed(packet, request.explicit, selected.value)
    ensures forall c :: c in chosen <==> c in packet && Scheduled(request, selected, c)
    ensures UniqueIds(packet) ==> UniqueIds(chosen)
  {
    selected := None;
    if request.explicit != {} {
      var expanded := ExpandSelection(packet, request.explicit);
      selected := Some(expanded);
    }
    chosen := [];
    for i := 0 to |packet|
      invariant forall c :: c in chosen <==> c in packet[..i] && Scheduled(request, selected, c)
      invariant UniqueIds(packet) ==> UniqueIds(chosen)
    {
      assert UniqueIds(packet) ==> forall c :: c in chosen ==> c in packet[..i] && c.id != packet[i].id;
      if Scheduled(request, selected, packet[i]) { chosen := chosen + [packet[i]]; }
    }
  }

  /** A focused run also runs the prerequisites of what it runs, as far as they can run in this phase. */
  lemma FocusedRunsPrerequisites(packet: seq<Criterion>, request: Request, selected: set<Id>, c: Criterion,
                                 d: Criterion)
    requires request.explicit != {} && request.scope in {None, Some(Focused)}
    requires IsLeastClosed(packet, request.explicit, selected)
    requires c in packet && d in packet && d.id in c.dependsOn && Scheduled(request, Some(selected), c)
    ensures Scheduled(request, Some(selected), d) <==>
              d.checkable && (d.finalOnly ==> request.finalPhase || d.id in request.explicit)
  {}

  // ---- the scheduling state ----

  datatype Event = Started(criterion: Criterion) | Recorded(id: Id, status: Status)

  datatype State = State(
    remaining: seq<Criterion>, statuses: map<Id, Status>, results: seq<(Id, Status)>,
    running: set<Criterion>, dropped: set<Criterion>, bindingLost: bool, log: seq<Event>)

  /** What does not change during a run: persisted states and the batch size. */
  datatype Setting = Setting(persisted: map<Id, Status>, maxInflight: int)

  function Initial(criteria: seq<Criterion>): State {
    State(criteria, map[], [], {}, {}, false, [])
  }

  function DependencyStatus(setting: Setting, statuses: map<Id, Status>, id: Id): Option<Status> {
    if id in statuses then Some(statuses[id])
    else if id in setting.persisted then Some(setting.persisted[id])
    else None
  }

  predicate Known(setting: Setting, statuses: map<Id, Status>, criterion: Criterion) {
    forall dependency :: dependency in criterion.dependsOn ==> DependencyStatus(setting, statuses, dependency).Some?
  }

  predicate Blocked(setting: Setting, statuses: map<Id, Status>, criterion: Criterion) {
    exists dependency :: dependency in criterion.dependsOn
      && DependencyStatus(setting, statuses, dependency) != Some(Passed)
  }

  /** JavaScript's `slice(0, n)`. */
  function Slice<T>(s: seq<T>, n: int): (r: seq<T>)
    ensures r <= s
  {
    if n >= |s| then s else if n >= 0 then s[..n] else if |s| + n > 0 then s[..|s| + n] else []
  }

  function ReadyOf(setting: Setting, statuses: map<Id, Status>, remaining: seq<Criterion>): seq<Criterion> {
    Filter(c => Known(setting, statuses, c), remaining)
  }

  function Ready(setting: Setting, s: State): seq<Criterion> {
    ReadyOf(setting, s.statuses, s.remaining)
  }

  function Runnable(setting: Setting, s: State): seq<Criterion> {
    Filter(c => !Blocked(setting, s.statuses, c), Ready(setting, s))
  }

  function BlockedOnes(setting: Setting, s: State): seq<Criterion> {
    Filter(c => Blocked(setting, s.statuses, c), Ready(setting, s))
  }

  function Batch(setting: Setting, s: State): (batch: seq<Criterion>)
    requires Ready(setting, s) != []
    ensures batch != [] && forall c :: c in batch ==> c in s.remaining
  {
    var chosen :=
      if Runnable(setting, s) != [] then Slice(Filter((c: Criterion) => !c.mutates, Runnable(setting, s)),
                                                 setting.maxInflight)
      else Slice(BlockedOnes(setting, s), setting.maxInflight);
    if chosen == [] then [Ready(setting, s)[0]] else chosen
  }

  function Record(s: State, id: Id, status: Status): State {
    s.(statuses := s.statuses[id := status], results := s.results + [(id, status)],
         log := s.log + [Recorded(id, status)])
  }

  /** A criterion of a batch: skipped when a prerequisite did not pass, else started. */
  function Launch(setting: Setting, s: State, criterion: Criterion): State {
    if Blocked(setting, s.statuses, criterion) then Record(s, criterion.id, Inconclusive)
    else s.(running := s.running + {criterion}, log := s.log + [Started(criterion)])
  }

  function LaunchAll(setting: Setting, s: State, batch: seq<Criterion>): State {
    if batch == [] then s else Launch(setting, LaunchAll(setting, s, batch[..|batch| - 1]), batch[|batch| - 1])
  }

  function RecordAll(s: State, criteria: seq<Criterion>): State {
    if criteria == [] then s else Record(RecordAll(s, criteria[..|criteria| - 1]), criteria[|criteria| - 1].id,
                                           Inconclusive)
  }

  function FirstMutating(batch: seq<Criterion>): Option<Criterion> {
    if batch == [] then None else if batch[0].mutates then Some(batch[0]) else FirstMutating(batch[1..])
  }

  function Without(criteria: seq<Criterion>, batch: seq<Criterion>): seq<Criterion> {
    Filter(c => c !in batch, criteria)
  }

  // ---- steps ----

  datatype Step =
    | Round
    | Finish(criterion: Criterion, status: Status, lost: bool)

  predicate Enabled(setting: Setting, s: State, step: Step) {
    match step
    case Round => s.running == {} && s.remaining != [] && !s.bindingLost
    case Finish(criterion, status, lost) => criterion in s.running && (lost ==> status == Inconclusive)
  }

  function Apply(setting: Setting, s: State, step: Step): State
    requires Enabled(setting, s, step)
  {
    match step
    case Round =>
      if Ready(setting, s) == [] then RecordAll(s, s.remaining).(remaining := [])
      else
        var batch := Batch(setting, s);
        var taken := s.(remaining := Without(s.remaining, batch));
        var mutating := FirstMutating(batch);
        if mutating.Some? then
          // only the first mutating criterion of the batch is looked at
          Launch(setting, taken, mutating.value).(dropped := s.dropped + (set c | c in batch && c != mutating.value))
        else LaunchAll(setting, taken, batch)
    case Finish(criterion, status, lost) => Finished(s, criterion, status, lost)
  }

  function Finished(s: State, criterion: Criterion, status: Status, lost: bool): State {
    Record(s.(running := s.running - {criterion}, bindingLost := s.bindingLost || lost), criterion.id, status)
  }

  ghost predicate Legal(setting: Setting, s: State, steps: seq<Step>)
    decreases |steps|
  {
    steps != [] ==> Enabled(setting, s, steps[0]) && Legal(setting, Apply(setting, s, steps[0]), steps[1..])
  }

  ghost function After(setting: Setting, s: State, steps: seq<Step>): State
    requires Legal(setting, s, steps)
    decreases |steps|
  {
    if steps == [] then s else After(setting, Apply(setting, s, steps[0]), steps[1..])
  }

  predicate Done(s: State) {
    s.running == {} && (s.remaining == [] || s.bindingLost)
  }

  // ---- the log, read on its own ----

  function StatusesIn(log: seq<Event>): map<Id, Status> {
    if log == [] then map[]
    else
      var earlier := StatusesIn(log[..|log| - 1]);
      match log[|log| - 1]
      case Started(_) => earlier
      case Recorded(id, status) => earlier[id := status]
  }

  function RunningIn(log: seq<Event>): set<Criterion> {
    if log == [] then {}
    else
      var earlier := RunningIn(log[..|log| - 1]);
      match log[|log| - 1]
      case Started(criterion) => earlier + {criterion}
      case Recorded(id, _) => set c | c in earlier && c.id != id
  }

  /** A command starts only when each prerequisite's status, this run's or else
      the persisted one, is passed at that moment. */
  ghost predicate StartsAreCleared(setting: Setting, log: seq<Event>) {
    forall i :: 0 <= i < |log| && log[i].Started? ==> !Blocked(setting, StatusesIn(log[..i]), log[i].criterion)
  }

  /** A mutating command runs alone: it starts when nothing runs, and nothing starts while it runs. */
  ghost predicate MutationsRunAlone(log: seq<Event>) {
    forall i :: 0 <= i < |log| && log[i].Started? ==>
      && (log[i].criterion.mutates ==> RunningIn(log[..i]) == {})
      && forall c :: c in RunningIn(log[..i]) ==> !c.mutates
  }

  // ---- the invariant ----

  function Count(condition: bool): nat { if condition then 1 else 0 }

  /** A selected criterion waits, runs, was dropped, or has its result. */
  ghost predicate InOnePlace(s: State, waiting: set<Criterion>, c: Criterion) {
    Count(c in waiting) + Count(c in s.running) + Count(c in s.dropped) + Count(c.id in s.statuses) == 1
  }

  ghost predicate Places(criteria: seq<Criterion>, s: State, waiting: set<Criterion>) {
    && (forall c :: c in criteria ==> InOnePlace(s, waiting, c))
    && (forall c :: c in waiting || c in s.running || c in s.dropped ==> c in criteria)
    && (forall id :: id in s.statuses ==> HasId(criteria, id))
  }

  ghost predicate HasId(criteria: seq<Criterion>, id: Id) {
    exists c :: c in criteria && c.id == id
  }

  /** The results are the recorded statuses, one each. */
  ghost predicate ResultsOk(s: State) {
    && (forall i, j :: 0 <= i < j < |s.results| ==> s.results[i].0 != s.results[j].0)
    && (forall i :: 0 <= i < |s.results| ==>
          s.results[i].0 in s.statuses && s.statuses[s.results[i].0] == s.results[i].1)
    && forall id :: id in s.statuses ==> (id, s.statuses[id]) in s.results
  }

  ghost predicate LogOk(setting: Setting, s: State) {
    && StatusesIn(s.log) == s.statuses && RunningIn(s.log) == s.running
    && StartsAreCleared(setting, s.log) && MutationsRunAlone(s.log)
  }

  ghost predicate MutatorAlone(running: set<Criterion>) {
    forall c :: c in running && c.mutates ==> running == {c}
  }

  /** The invariant while the criteria in `waiting` still wait for their turn. */
  ghost predicate Ok(setting: Setting, criteria: seq<Criterion>, s: State, waiting: set<Criterion>) {
    UniqueIds(criteria) && Places(criteria, s, waiting) && ResultsOk(s) && LogOk(setting, s) && MutatorAlone(s.running)
  }

  ghost predicate Inv(setting: Setting, criteria: seq<Criterion>, s: State) {
    Ok(setting, criteria, s, Elements(s.remaining)) && UniqueIds(s.remaining)
  }

  lemma {:induction false} FilterKeepsUnique(keep: Criterion -> bool, s: seq<Criterion>)
    requires UniqueIds(s)
    ensures UniqueIds(Filter(keep, s))
  {
    if s != [] {
      FilterKeepsUnique(keep, s[1..]);
      var rest := Filter(keep, s[1..]);
      forall c | c in rest ensures c.id != s[0].id {
        assert c in s[1..];
      }
    }
  }

  lemma SameIdSame(criteria: seq<Criterion>, a: Criterion, b: Criterion)
    requires UniqueIds(criteria) && a in criteria && b in criteria && a.id == b.id
    ensures a == b
  {}

  lemma LogGrows(setting: Setting, log: seq<Event>, event: Event)
    requires StartsAreCleared(setting, log) && MutationsRunAlone(log)
    requires event.Started? ==>
               && !Blocked(setting, StatusesIn(log), event.criterion)
               && (event.criterion.mutates ==> RunningIn(log) == {})
               && forall c :: c in RunningIn(log) ==> !c.mutates
    ensures StartsAreCleared(setting, log + [event]) && MutationsRunAlone(log + [event])
    ensures (log + [event])[..|log|] == log
  {
    hide Blocked, StatusesIn, RunningIn;
    var grown := log + [event];
    assert grown[..|log|] == log;
    forall i | 0 <= i < |grown| && grown[i].Started?
      ensures !Blocked(setting, StatusesIn(grown[..i]), grown[i].criterion)
      ensures grown[i].criterion.mutates ==> RunningIn(grown[..i]) == {}
      ensures forall c :: c in RunningIn(grown[..i]) ==> !c.mutates
    {
      if i < |log| { assert grown[..i] == log[..i] && grown[i] == log[i]; }
    }
  }

  /** Recording a criterion that waited. */
  lemma RecordKeeps(setting: Setting, criteria: seq<Criterion>, s: State, waiting: set<Criterion>, c: Criterion,
                    status: Status)
    requires Ok(setting, criteria, s, waiting) && c in waiting
    ensures Ok(setting, criteria, Record(s, c.id, status), waiting - {c})
  {
    assert InOnePlace(s, waiting, c);
    RecordStays(setting, criteria, s, waiting, c, status, false);
    assert s.(running := s.running - {c}) == s;
  }

  /** Recording a criterion that ran. */
  lemma FinishKeeps(setting: Setting, criteria: seq<Criterion>, s: State, waiting: set<Criterion>, c: Criterion,
                    status: Status, lost: bool)
    requires Ok(setting, criteria, s, waiting) && c in s.running
    ensures Ok(setting, criteria, Record(s.(running := s.running - {c}, bindingLost := s.bindingLost || lost), c.id,
                                           status), waiting)
  {
    assert InOnePlace(s, waiting, c);
    RecordStays(setting, criteria, s, waiting, c, status, lost);
    assert waiting - {c} == waiting;
  }

  lemma RecordStays(setting: Setting, criteria: seq<Criterion>, s: State, waiting: set<Criterion>, c: Criterion,
                    status: Status, lost: bool)
    requires Ok(setting, criteria, s, waiting) && (c in waiting || c in s.running) && c.id !in s.statuses
    ensures Ok(setting, criteria, Record(s.(running := s.running - {c}, bindingLost := s.bindingLost || lost), c.id,
                                           status), waiting - {c})
  {
    hide StatusesIn, RunningIn, StartsAreCleared, MutationsRunAlone, Places, ResultsOk;
    RecordedLog(setting, criteria, s, waiting, c, status);
    RecordedPlaces(criteria, s, waiting, c, status);
    RecordedResults(s, c.id, status);
    LostChangesNothing(setting, criteria, Record(s.(running := s.running - {c}), c.id, status), waiting - {c},
                         s.bindingLost || lost);
  }

  lemma LostChangesNothing(setting: Setting, criteria: seq<Criterion>, s: State, waiting: set<Criterion>, lost: bool)
    requires Places(criteria, s, waiting) && ResultsOk(s) && LogOk(setting, s)
    ensures Places(criteria, s.(bindingLost := lost), waiting) && ResultsOk(s.(bindingLost := lost))
              && LogOk(setting, s.(bindingLost := lost))
  {
    hide StatusesIn, RunningIn, StartsAreCleared, MutationsRunAlone;
    var t := s.(bindingLost := lost);
    forall c | c in criteria ensures InOnePlace(t, waiting, c) { assert InOnePlace(s, waiting, c); }
  }

  lemma RecordedLog(setting: Setting, criteria: seq<Criterion>, s: State, waiting: set<Criterion>, c: Criterion,
                    status: Status)
    requires UniqueIds(criteria) && Places(criteria, s, waiting) && LogOk(setting, s)
               && (c in waiting || c in s.running)
    ensures LogOk(setting, Record(s.(running := s.running - {c}), c.id, status))
  {
    hide StartsAreCleared, MutationsRunAlone;
    LogGrows(setting, s.log, Recorded(c.id, status));
    forall r | r in s.running && r.id == c.id ensures r == c { SameIdSame(criteria, r, c); }
    assert (set r | r in s.running && r.id != c.id) == s.running - {c};
  }

  lemma RecordedPlaces(criteria: seq<Criterion>, s: State, waiting: set<Criterion>, c: Criterion, status: Status)
    requires UniqueIds(criteria) && Places(criteria, s, waiting) && (c in waiting || c in s.running)
    ensures Places(criteria, Record(s.(running := s.running - {c}), c.id, status), waiting - {c})
  {
    var t := Record(s.(running := s.running - {c}), c.id, status);
    assert HasId(criteria, c.id);
    forall d | d in criteria ensures InOnePlace(t, waiting - {c}, d) {
      assert InOnePlace(s, waiting, d) && InOnePlace(s, waiting, c);
      if d.id == c.id { SameIdSame(criteria, d, c); }
    }
  }

  lemma RecordedResults(s: State, id: Id, status: Status)
    requires ResultsOk(s) && id !in s.statuses
    ensures forall running :: ResultsOk(Record(s.(running := running), id, status))
  {
    var t := Record(s, id, status);
    forall k | k in t.statuses ensures (k, t.statuses[k]) in t.results {
      if k == id { assert t.results[|s.results|] == (id, status); } else { assert (k, s.statuses[k]) in s.results; }
    }
  }

  lemma LaunchKeeps(setting: Setting, criteria: seq<Criterion>, s: State, waiting: set<Criterion>, c: Criterion)
    requires Ok(setting, criteria, s, waiting) && c in waiting
    requires if c.mutates then s.running == {} else forall r :: r in s.running ==> !r.mutates
    ensures Ok(setting, criteria, Launch(setting, s, c), waiting - {c})
  {
    if Blocked(setting, s.statuses, c) {
      RecordKeeps(setting, criteria, s, waiting, c, Inconclusive);
    } else {
      var t := Launch(setting, s, c);
      LogGrows(setting, s.log, Started(c));
      forall d | d in criteria ensures InOnePlace(t, waiting - {c}, d) {
        assert InOnePlace(s, waiting, d);
      }
    }
  }

  lemma {:induction false} LaunchAllKeeps(setting: Setting, criteria: seq<Criterion>, s: State,
                                          waiting: set<Criterion>, batch: seq<Criterion>)
    requires Ok(setting, criteria, s, waiting) && UniqueIds(batch)
    requires forall c :: c in batch ==> c in waiting && !c.mutates
    requires forall r :: r in s.running ==> !r.mutates
    ensures Ok(setting, criteria, LaunchAll(setting, s, batch), waiting - Elements(batch))
    ensures forall r :: r in LaunchAll(setting, s, batch).running ==> !r.mutates
    ensures LaunchAll(setting, s, batch).remaining == s.remaining && LaunchAll(setting, s, batch).dropped == s.dropped
    decreases |batch|
  {
    hide Ok, Blocked;
    if batch != [] {
      var init, last := batch[..|batch| - 1], batch[|batch| - 1];
      LaunchAllKeeps(setting, criteria, s, waiting, init);
      assert batch == init + [last];
      assert last in waiting - Elements(init);
      LaunchKeeps(setting, criteria, LaunchAll(setting, s, init), waiting - Elements(init), last);
      assert waiting - Elements(init) - {last} == waiting - Elements(batch);
    } else {
      assert waiting - Elements(batch) == waiting;
    }
  }

  lemma {:induction false} RecordAllKeeps(setting: Setting, criteria: seq<Criterion>, s: State,
                                          waiting: set<Criterion>, all: seq<Criterion>)
    requires Ok(setting, criteria, s, waiting) && UniqueIds(all)
    requires forall c :: c in all ==> c in waiting
    ensures Ok(setting, criteria, RecordAll(s, all), waiting - Elements(all))
    ensures RecordAll(s, all).running == s.running && RecordAll(s, all).dropped == s.dropped
    decreases |all|
  {
    hide Ok;
    if all != [] {
      var init, last := all[..|all| - 1], all[|all| - 1];
      RecordAllKeeps(setting, criteria, s, waiting, init);
      assert all == init + [last];
      assert last in waiting - Elements(init);
      RecordKeeps(setting, criteria, RecordAll(s, init), waiting - Elements(init), last, Inconclusive);
      assert waiting - Elements(init) - {last} == waiting - Elements(all);
    } else {
      assert waiting - Elements(all) == waiting;
    }
  }

  lemma DropKeeps(setting: Setting, criteria: seq<Criterion>, s: State, waiting: set<Criterion>, gone: set<Criterion>)
    requires Ok(setting, criteria, s, waiting) && gone <= waiting
    ensures Ok(setting, criteria, s.(dropped := s.dropped + gone), waiting - gone)
  {
    forall c | c in criteria ensures InOnePlace(s.(dropped := s.dropped + gone), waiting - gone, c) {
      assert InOnePlace(s, waiting, c);
    }
  }

  /** Runnable criteria that mutate nothing go first, up to the limit; only when
      nothing is runnable are blocked criteria taken, and a mutating one is tried
      when nothing else is runnable. */
  lemma BatchPrefersRunnable(setting: Setting, s: State)
    requires Ready(setting, s) != [] && setting.maxInflight >= 1
    ensures var batch := Batch(setting, s);
            && |batch| <= setting.maxInflight
            && ((exists c :: c in Runnable(setting, s) && !c.mutates) ==>
                  forall c :: c in batch ==>
                    Known(setting, s.statuses, c) && !Blocked(setting, s.statuses, c) && !c.mutates)
            && (Runnable(setting, s) == [] ==> forall c :: c in batch ==>
                                                 Known(setting, s.statuses, c) && Blocked(setting, s.statuses, c))
            && (Runnable(setting, s) != [] && (forall c :: c in Runnable(setting, s) ==> c.mutates) ==>
                  batch == [Ready(setting, s)[0]])
  {
    hide Known, Blocked;
    var plain := Filter((c: Criterion) => !c.mutates, Runnable(setting, s));
    var blocked := BlockedOnes(setting, s);
    assert forall c :: c in plain <==> c in Runnable(setting, s) && !c.mutates;
    if Runnable(setting, s) == [] {
      NoneRunnable(setting, s);
    } else if plain == [] {
    } else {
      assert plain[0] in plain;
    }
  }

  lemma NoneRunnable(setting: Setting, s: State)
    requires Ready(setting, s) != [] && Runnable(setting, s) == []
    ensures BlockedOnes(setting, s) != []
    ensures forall c :: c in Ready(setting, s) ==> Blocked(setting, s.statuses, c)
  {
    hide Known, Blocked;
    forall c | c in Ready(setting, s) ensures Blocked(setting, s.statuses, c) {
      assert c !in Runnable(setting, s);
    }
    assert Ready(setting, s)[0] in Ready(setting, s);
    assert Ready(setting, s)[0] in BlockedOnes(setting, s);
  }

  lemma {:induction false} FirstMutatingIs(batch: seq<Criterion>)
    ensures FirstMutating(batch).Some? <==> exists c :: c in batch && c.mutates
    ensures FirstMutating(batch).Some? ==> FirstMutating(batch).value in batch && FirstMutating(batch).value.mutates
  {
    if batch != [] && !batch[0].mutates { FirstMutatingIs(batch[1..]); }
  }

  lemma BatchIsUnique(setting: Setting, s: State)
    requires UniqueIds(s.remaining) && Ready(setting, s) != []
    ensures UniqueIds(Batch(setting, s))
  {
    var ready := Ready(setting, s);
    FilterKeepsUnique(c => Known(setting, s.statuses, c), s.remaining);
    FilterKeepsUnique(c => !Blocked(setting, s.statuses, c), ready);
    FilterKeepsUnique(c => Blocked(setting, s.statuses, c), ready);
    FilterKeepsUnique((c: Criterion) => !c.mutates, Runnable(setting, s));
  }

  lemma TakenBatch(remaining: seq<Criterion>, batch: seq<Criterion>)
    requires UniqueIds(remaining)
    ensures Elements(Without(remaining, batch)) == Elements(remaining) - Elements(batch)
    ensures UniqueIds(Without(remaining, batch))
  {
    FilterKeepsUnique(c => c !in batch, remaining);
  }

  lemma RoundKeeps(setting: Setting, criteria: seq<Criterion>, s: State)
    requires Inv(setting, criteria, s) && Enabled(setting, s, Round)
    ensures Inv(setting, criteria, Apply(setting, s, Round))
  {
    hide Ok, Blocked, Known, Batch, Ready;
    var waiting := Elements(s.remaining);
    if Ready(setting, s) == [] {
      RecordAllKeeps(setting, criteria, s, waiting, s.remaining);
      assert waiting - waiting == Elements([]);
      RemainingIsBookkeeping(setting, criteria, RecordAll(s, s.remaining), waiting - waiting, []);
    } else {
      var batch := Batch(setting, s);
      BatchIsUnique(setting, s);
      TakenBatch(s.remaining, batch);
      var left := Without(s.remaining, batch);
      var taken := s.(remaining := left);
      RemainingIsBookkeeping(setting, criteria, s, waiting, left);
      FirstMutatingIs(batch);
      var mutating := FirstMutating(batch);
      if mutating.Some? {
        var c := mutating.value;
        var gone := set d | d in batch && d != c;
        LaunchKeeps(setting, criteria, taken, waiting, c);
        DropKeeps(setting, criteria, Launch(setting, taken, c), waiting - {c}, gone);
        assert waiting - {c} - gone == Elements(left);
      } else {
        LaunchAllKeeps(setting, criteria, taken, waiting, batch);
      }
    }
  }

  lemma RemainingIsBookkeeping(setting: Setting, criteria: seq<Criterion>, s: State, waiting: set<Criterion>,
                               remaining: seq<Criterion>)
    requires Ok(setting, criteria, s, waiting)
    ensures Ok(setting, criteria, s.(remaining := remaining), waiting)
  {}

  lemma StepKeeps(setting: Setting, criteria: seq<Criterion>, s: State, step: Step)
    requires Inv(setting, criteria, s) && Enabled(setting, s, step)
    ensures Inv(setting, criteria, Apply(setting, s, step))
  {
    match step
    case Round => RoundKeeps(setting, criteria, s);
    case Finish(c, status, lost) => FinishKeeps(setting, criteria, s, Elements(s.remaining), c, status, lost);
  }

  lemma {:induction false} InvAlongRun(setting: Setting, criteria: seq<Criterion>, s: State, steps: seq<Step>)
    requires Inv(setting, criteria, s) && Legal(setting, s, steps)
    ensures Inv(setting, criteria, After(setting, s, steps))
    decreases |steps|
  {
    hide Inv, Apply, Enabled;
    if steps != [] {
      StepKeeps(setting, criteria, s, steps[0]);
      InvAlongRun(setting, criteria, Apply(setting, s, steps[0]), steps[1..]);
    }
  }

  lemma InitialIsOk(setting: Setting, criteria: seq<Criterion>)
    requires UniqueIds(criteria)
    ensures Inv(setting, criteria, Initial(criteria))
  {
    var s := Initial(criteria);
    forall c | c in criteria ensures InOnePlace(s, Elements(criteria), c) {}
  }

  // ---- every run ends ----

  lemma ElementsAreFew(criteria: seq<Criterion>, some: set<Criterion>)
    requires forall c :: c in some ==> c in criteria
    ensures |some| <= |criteria|
    decreases |criteria|
  {
    if criteria == [] {
      assert some == {};
    } else {
      var last := criteria[|criteria| - 1];
      assert criteria == criteria[..|criteria| - 1] + [last];
      ElementsAreFew(criteria[..|criteria| - 1], some - {last});
      if last in some { assert some == (some - {last}) + {last}; }
    }
  }

  lemma {:induction false} FilterDropsOne(keep: Criterion -> bool, s: seq<Criterion>, gone: Criterion)
    requires gone in s && !keep(gone)
    ensures |Filter(keep, s)| < |s|
  {
    if s[0] != gone { FilterDropsOne(keep, s[1..], gone); }
  }

  lemma RoundShrinks(setting: Setting, s: State)
    requires Enabled(setting, s, Round)
    ensures |Apply(setting, s, Round).remaining| < |s.remaining|
  {
    if Ready(setting, s) != [] {
      var batch := Batch(setting, s);
      FilterDropsOne(c => c !in batch, s.remaining, batch[0]);
      LaunchAllKeepsRemaining(setting, s.(remaining := Without(s.remaining, batch)), batch);
    }
  }

  lemma {:induction false} LaunchAllKeepsRemaining(setting: Setting, s: State, batch: seq<Criterion>)
    ensures LaunchAll(setting, s, batch).remaining == s.remaining && LaunchAll(setting, s, batch).dropped == s.dropped
    decreases |batch|
  {
    if batch != [] { LaunchAllKeepsRemaining(setting, s, batch[..|batch| - 1]); }
  }

  ghost function Measure(criteria: seq<Criterion>, s: State): nat {
    |s.remaining| * (|criteria| + 1) + |s.running|
  }

  lemma StepShrinks(setting: Setting, criteria: seq<Criterion>, s: State, step: Step)
    requires Inv(setting, criteria, s) && Enabled(setting, s, step)
    ensures Measure(criteria, Apply(setting, s, step)) < Measure(criteria, s)
  {
    hide Inv, Apply;
    StepKeeps(setting, criteria, s, step);
    var t := Apply(setting, s, step);
    FewRun(setting, criteria, t);
    match step
    case Round =>
      RoundShrinks(setting, s);
      Product(|t.remaining|, |s.remaining|, |criteria| + 1);
    case Finish(c, _, _) =>
      FinishShrinks(setting, s, step);
  }

  lemma Product(a: nat, b: nat, n: nat)
    requires a < b
    ensures a * n + n <= b * n
  {
    assert (a + 1) * n <= b * n;
  }

  lemma FinishShrinks(setting: Setting, s: State, step: Step)
    requires step.Finish? && Enabled(setting, s, step)
    ensures var t := Apply(setting, s, step);
            t.remaining == s.remaining && t.dropped == s.dropped && |t.running| < |s.running|
  {
    assert s.running == (s.running - {step.criterion}) + {step.criterion};
  }

  lemma {:induction false} RunsAreBounded(setting: Setting, criteria: seq<Criterion>, s: State, steps: seq<Step>)
    requires Inv(setting, criteria, s) && Legal(setting, s, steps)
    ensures |steps| <= Measure(criteria, s)
    decreases |steps|
  {
    hide Inv, Measure, Apply, Enabled;
    if steps != [] {
      StepKeeps(setting, criteria, s, steps[0]);
      StepShrinks(setting, criteria, s, steps[0]);
      RunsAreBounded(setting, criteria, Apply(setting, s, steps[0]), steps[1..]);
    }
  }

  lemma FewRun(setting: Setting, criteria: seq<Criterion>, s: State)
    requires Inv(setting, criteria, s)
    ensures |s.running| <= |criteria|
  {
    ElementsAreFew(criteria, s.running);
  }

  // ---- main results ----

  ghost predicate HasOneResult(s: State, id: Id) {
    exists i ::
      && 0 <= i < |s.results| && s.results[i].0 == id
      && forall j :: 0 <= j < |s.results| && s.results[j].0 == id ==> j == i
  }

  ghost predicate NoResult(s: State, id: Id) {
    forall i :: 0 <= i < |s.results| ==> s.results[i].0 != id
  }

  /** Scheduling over every dependency graph, with cycles and absent prerequisites,
      and every order and outcome of the checks: the run is bounded and never
      stuck; a check starts only when all its prerequisites passed; a mutating check
      runs alone; no criterion gets two results; and when the run is over without
      losing the workspace, a criterion lacks a result exactly when a round dropped it. */
  lemma SchedulingIsSafe(setting: Setting, criteria: seq<Criterion>, steps: seq<Step>)
    requires UniqueIds(criteria) && Legal(setting, Initial(criteria), steps)
    ensures var s := After(setting, Initial(criteria), steps);
            && |steps| <= |criteria| * (|criteria| + 1)
            && (Done(s) || exists step :: Enabled(setting, s, step))
            && StartsAreCleared(setting, s.log) && MutationsRunAlone(s.log)
            && (forall i, j :: 0 <= i < j < |s.results| ==> s.results[i].0 != s.results[j].0)
            && (forall i :: 0 <= i < |s.results| ==> HasId(criteria, s.results[i].0))
            && (Done(s) && !s.bindingLost ==>
                  forall c :: c in criteria ==> if c in s.dropped then NoResult(s, c.id) else HasOneResult(s, c.id))
  {
    InitialIsOk(setting, criteria);
    InvAlongRun(setting, criteria, Initial(criteria), steps);
    RunsAreBounded(setting, criteria, Initial(criteria), steps);
    var s := After(setting, Initial(criteria), steps);
    if !Done(s) {
      if s.running != {} {
        var c :| c in s.running;
        assert Enabled(setting, s, Finish(c, Passed, false));
      } else {
        assert Enabled(setting, s, Round);
      }
    }
    if Done(s) && !s.bindingLost {
      forall c | c in criteria ensures if c in s.dropped then NoResult(s, c.id) else HasOneResult(s, c.id) {
        assert InOnePlace(s, Elements(s.remaining), c);
        if c !in s.dropped {
          OneResult(s, c.id);
        }
      }
    }
  }

  /** A batch of runnable criteria holds several only when none of them mutates. */
  lemma RunnableBatch(setting: Setting, s: State)
    requires Ready(setting, s) != [] && Runnable(setting, s) != []
    ensures |Batch(setting, s)| == 1 || forall c :: c in Batch(setting, s) ==> !c.mutates
  {
    var plain := Filter((c: Criterion) => !c.mutates, Runnable(setting, s));
    forall c | c in Slice(plain, setting.maxInflight) ensures !c.mutates {
      assert c in plain;
    }
  }

  /** A round loses criteria exactly when nothing is runnable and its batch of
      blocked criteria holds a mutating one and something else. */
  lemma RoundDrops(setting: Setting, criteria: seq<Criterion>, s: State)
    requires Inv(setting, criteria, s) && Enabled(setting, s, Round)
    ensures Apply(setting, s, Round).dropped != s.dropped <==>
              && Ready(setting, s) != [] && Runnable(setting, s) == []
              && (exists c :: c in Batch(setting, s) && c.mutates) && |Batch(setting, s)| > 1
  {
    hide Ok, Ready, Runnable;
    if Ready(setting, s) == [] {
      RecordAllKeeps(setting, criteria, s, Elements(s.remaining), s.remaining);
    } else {
      if Runnable(setting, s) != [] { RunnableBatch(setting, s); }
      BatchIsUnique(setting, s);
      hide Batch;
      var batch := Batch(setting, s);
      FirstMutatingIs(batch);
      if FirstMutating(batch).Some? {
        MutatorDrops(setting, criteria, s, batch, FirstMutating(batch).value);
      } else {
        LaunchAllKeepsRemaining(setting, s.(remaining := Without(s.remaining, batch)), batch);
      }
    }
  }

  lemma MutatorDrops(setting: Setting, criteria: seq<Criterion>, s: State, batch: seq<Criterion>, c: Criterion)
    requires Inv(setting, criteria, s) && c in batch && UniqueIds(batch)
    requires forall other :: other in batch ==> other in s.remaining
    ensures s.dropped + (set d | d in batch && d != c) != s.dropped <==> |batch| > 1
  {
    if |batch| > 1 {
      var other := if batch[0] == c then batch[1] else batch[0];
      assert other in s.remaining && other != c;
      assert InOnePlace(s, Elements(s.remaining), other);
      assert other !in s.dropped;
    } else {
      assert batch == [c];
      assert (set d | d in batch && d != c) == {};
    }
  }

  ghost predicate CannotDrop(setting: Setting, criteria: seq<Criterion>) {
    (forall c :: c in criteria ==> !c.mutates) || 0 <= setting.maxInflight <= 1
  }

  lemma StepDropsNothing(setting: Setting, criteria: seq<Criterion>, s: State, step: Step)
    requires Inv(setting, criteria, s) && Enabled(setting, s, step) && CannotDrop(setting, criteria)
    ensures Apply(setting, s, step).dropped == s.dropped
  {
    hide Inv, Apply, Ready, Runnable;
    if step.Finish? {
      FinishShrinks(setting, s, step);
    } else {
      RoundDrops(setting, criteria, s);
      InvPlaces(setting, criteria, s);
      if Ready(setting, s) != [] {
        SmallBatch(setting, s);
        hide Batch;
        forall c | c in Batch(setting, s) ensures c in criteria { assert c in s.remaining; }
      }
    }
  }

  lemma SmallBatch(setting: Setting, s: State)
    requires Ready(setting, s) != []
    ensures 0 <= setting.maxInflight <= 1 ==> |Batch(setting, s)| == 1
  {}

  lemma InvPlaces(setting: Setting, criteria: seq<Criterion>, s: State)
    requires Inv(setting, criteria, s)
    ensures forall c :: c in s.remaining ==> c in criteria
  {
    forall c | c in s.remaining ensures c in criteria { assert c in Elements(s.remaining); }
  }

  lemma {:induction false} NothingDropped(setting: Setting, criteria: seq<Criterion>, s: State, steps: seq<Step>)
    requires Inv(setting, criteria, s) && Legal(setting, s, steps) && CannotDrop(setting, criteria)
    ensures After(setting, s, steps).dropped == s.dropped
    decreases |steps|
  {
    hide Inv, Apply, Enabled;
    if steps != [] {
      StepKeeps(setting, criteria, s, steps[0]);
      StepDropsNothing(setting, criteria, s, steps[0]);
      NothingDropped(setting, criteria, Apply(setting, s, steps[0]), steps[1..]);
    }
  }

  /** Without mutating criteria, or with one check at a time, every selected
      criterion ends with exactly one result. */
  lemma EveryCriterionIsReported(setting: Setting, criteria: seq<Criterion>, steps: seq<Step>)
    requires UniqueIds(criteria) && Legal(setting, Initial(criteria), steps)
    requires CannotDrop(setting, criteria)
    requires Done(After(setting, Initial(criteria), steps)) && !After(setting, Initial(criteria), steps).bindingLost
    ensures forall c :: c in criteria ==> HasOneResult(After(setting, Initial(criteria), steps), c.id)
  {
    InitialIsOk(setting, criteria);
    SchedulingIsSafe(setting, criteria, steps);
    NothingDropped(setting, criteria, Initial(criteria), steps);
  }

  /** Two criteria behind a failed prerequisite, the second of them mutating: the
      run ends after one round and the first one never gets a result. */
  lemma MutatorHidesCompanion()
    ensures var plain := Criterion("a", ["x"], false, true, false, []);
            var mutator := Criterion("b", ["x"], true, true, false, []);
            var setting := Setting(map["x" := Failed], 3);
            var s := Initial([plain, mutator]);
            && UniqueIds([plain, mutator]) && Legal(setting, s, [Round])
            && var t := After(setting, s, [Round]);
               Done(t) && !t.bindingLost && t.dropped == {plain} && t.results == [("b", Inconclusive)]
  {
    var plain := Criterion("a", ["x"], false, true, false, []);
    var mutator := Criterion("b", ["x"], true, true, false, []);
    var setting := Setting(map["x" := Failed], 3);
    var both := [plain, mutator];
    var s := Initial(both);
    assert both[1..] == [mutator] && both[1..][1..] == [];
    assert "x" in plain.dependsOn && "x" in mutator.dependsOn;
    assert DependencyStatus(setting, s.statuses, "x") == Some(Failed);
    assert Blocked(setting, s.statuses, plain) && Blocked(setting, s.statuses, mutator);
    FilterAll(c => Known(setting, s.statuses, c), both);
    FilterAll(c => Blocked(setting, s.statuses, c), both);
    assert Ready(setting, s) == both;
    FilterNone(c => !Blocked(setting, s.statuses, c), both);
    var batch := Batch(setting, s);
    assert batch == both;
    FirstMutatingIs(batch[1..]);
    assert FirstMutating(batch) == Some(mutator);
    FilterNone(c => c !in batch, both);
    assert (set c | c in batch && c != mutator) == {plain};
    var t := Apply(setting, s, Round);
    assert [Round][1..] == [];
    assert After(setting, s, [Round]) == t;
  }

  lemma {:induction false} FilterNone(keep: Criterion -> bool, s: seq<Criterion>)
    requires forall c :: c in s ==> !keep(c)
    ensures Filter(keep, s) == []
  {
    if s != [] {
      FilterNone(keep, s[1..]);
    }
  }

  lemma {:induction false} FilterAll(keep: Criterion -> bool, s: seq<Criterion>)
    requires forall c :: c in s ==> keep(c)
    ensures Filter(keep, s) == s
  {
    if s != [] {
      FilterAll(keep, s[1..]);
    }
  }

  // ---- the scheduler, updated in place ----

  lemma {:induction false} RunExtends(setting: Setting, s: State, steps: seq<Step>, step: Step)
    requires Legal(setting, s, steps) && Enabled(setting, After(setting, s, steps), step)
    ensures Legal(setting, s, steps + [step])
              && After(setting, s, steps + [step]) == Apply(setting, After(setting, s, steps), step)
    decreases |steps|
  {
    hide Apply, Enabled;
    if steps == [] {
      assert [step][1..] == [];
    } else {
      assert (steps + [step])[1..] == steps[1..] + [step];
      RunExtends(setting, Apply(setting, s, steps[0]), steps[1..], step);
    }
  }

  lemma RecordPrefix(s: State, all: seq<Criterion>, i: nat)
    requires i <= |all|
    ensures i == 0 ==> RecordAll(s, all[..i]) == s
    ensures i < |all| ==> RecordAll(s, all[..i + 1]) == Record(RecordAll(s, all[..i]), all[i].id, Inconclusive)
  {
    if i < |all| { assert all[..i + 1][..i] == all[..i]; }
  }

  lemma LaunchPrefix(setting: Setting, s: State, all: seq<Criterion>, i: nat)
    requires i <= |all|
    ensures i == 0 ==> LaunchAll(setting, s, all[..i]) == s
    ensures i < |all| ==> LaunchAll(setting, s, all[..i + 1])
                            == Launch(setting, LaunchAll(setting, s, all[..i]), all[i])
  {
    if i < |all| { assert all[..i + 1][..i] == all[..i]; }
  }

  /** The batch depends only on what remains and on the statuses. */
  lemma BatchOf(setting: Setting, s: State, t: State)
    requires s.remaining == t.remaining && s.statuses == t.statuses && Ready(setting, s) != []
    ensures Ready(setting, t) == Ready(setting, s) && Batch(setting, t) == Batch(setting, s)
  {}

  lemma LaunchKeepsDropped(setting: Setting, s: State, c: Criterion)
    ensures Launch(setting, s, c).dropped == s.dropped
  {}

  lemma NoSteps(setting: Setting, s: State)
    ensures Legal(setting, s, []) && After(setting, s, []) == s
  {}

  /** No result is taken back. */
  ghost predicate OthersKeep(before: map<Id, Status>, after: map<Id, Status>) {
    forall id :: id in before ==> id in after && after[id] == before[id]
  }

  lemma OneResult(s: State, id: Id)
    requires ResultsOk(s) && id in s.statuses
    ensures HasOneResult(s, id)
  {
    var i :| 0 <= i < |s.results| && s.results[i] == (id, s.statuses[id]);
    forall j | 0 <= j < |s.results| && s.results[j].0 == id ensures j == i {}
  }

  lemma RunningIsOpen(setting: Setting, criteria: seq<Criterion>, s: State, c: Criterion)
    requires Inv(setting, criteria, s) && c in s.running
    ensures c.id !in s.statuses && (forall r :: r in s.running - {c} ==> !r.mutates)
  {
    hide LogOk, ResultsOk, UniqueIds;
    assert InOnePlace(s, Elements(s.remaining), c);
  }

  lemma FinishIs(setting: Setting, s: State, c: Criterion, status: Status, lost: bool)
    requires Enabled(setting, s, Finish(c, status, lost))
    ensures Apply(setting, s, Finish(c, status, lost)) == Finished(s, c, status, lost) && c in s.running
  {}

  lemma ResultsAreOk(setting: Setting, criteria: seq<Criterion>, s: State)
    requires Inv(setting, criteria, s)
    ensures ResultsOk(s)
  {}

  lemma FinishedOnce(setting: Setting, criteria: seq<Criterion>, s: State, c: Criterion, status: Status, lost: bool)
    requires Inv(setting, criteria, s) && Enabled(setting, s, Finish(c, status, lost))
    ensures var t := Apply(setting, s, Finish(c, status, lost));
            && t == Finished(s, c, status, lost)
            && Inv(setting, criteria, t) && HasOneResult(t, c.id) && |t.running| < |s.running|
    ensures var t := Finished(s, c, status, lost); OthersKeep(s.statuses, t.statuses)
    ensures c.id !in s.statuses && (forall r :: r in s.running - {c} ==> !r.mutates)
  {
    hide Inv, Apply, Enabled, HasOneResult;
    StepKeeps(setting, criteria, s, Finish(c, status, lost));
    FinishShrinks(setting, s, Finish(c, status, lost));
    FinishIs(setting, s, c, status, lost);
    RunningIsOpen(setting, criteria, s, c);
    ResultsAreOk(setting, criteria, Finished(s, c, status, lost));
    OneResult(Finished(s, c, status, lost), c.id);
  }

  class Scheduler {
    const setting: Setting
    var remaining: seq<Criterion>
    var statuses: map<Id, Status>
    var results: seq<(Id, Status)>
    var running: set<Criterion>
    var bindingLost: bool
    ghost var dropped: set<Criterion>
    ghost var log: seq<Event>

    ghost function Model(): State
      reads this
    {
      State(remaining, statuses, results, running, dropped, bindingLost, log)
    }

    constructor (setting: Setting, criteria: seq<Criterion>)
      ensures this.setting == setting && Model() == Initial(criteria)
    {
      this.setting, remaining, statuses, results := setting, criteria, map[], [];
      running, bindingLost, dropped, log := {}, false, {}, [];
    }

    /** `recordResult` */
    method RecordResult(criterion: Criterion, status: Status)
      modifies this`statuses, this`results, this`log
      ensures Model() == Record(old(Model()), criterion.id, status)
    {
      statuses := statuses[criterion.id := status];
      results := results + [(criterion.id, status)];
      log := log + [Recorded(criterion.id, status)];
    }

    /** One criterion of a batch, up to the first `await` of its check. */
    method LaunchOne(criterion: Criterion)
      modifies this`statuses, this`results, this`log, this`running
      ensures Model() == Launch(setting, old(Model()), criterion)
    {
      if Blocked(setting, statuses, criterion) {
        RecordResult(criterion, Inconclusive);
      } else {
        running, log := running + {criterion}, log + [Started(criterion)];
      }
    }

    method RecordRest()
      modifies this`statuses, this`results, this`log, this`remaining
      ensures Model() == RecordAll(old(Model()), old(remaining)).(remaining := [])
    {
      hide RecordAll;
      ghost var before := Model();
      RecordPrefix(before, remaining, 0);
      for i := 0 to |remaining|
        invariant remaining == before.remaining && Model() == RecordAll(before, before.remaining[..i])
      {
        RecordPrefix(before, before.remaining, i);
        RecordResult(remaining[i], Inconclusive);
      }
      assert remaining[..|remaining|] == remaining;
      remaining := [];
    }

    method LaunchBatch(batch: seq<Criterion>)
      modifies this`statuses, this`results, this`log, this`running
      ensures Model() == LaunchAll(setting, old(Model()), batch)
    {
      hide Launch, LaunchAll;
      ghost var before := Model();
      LaunchPrefix(setting, before, batch, 0);
      for i := 0 to |batch|
        invariant Model() == LaunchAll(setting, before, batch[..i])
      {
        LaunchPrefix(setting, before, batch, i);
        LaunchOne(batch[i]);
      }
      assert batch[..|batch|] == batch;
    }

    method ScheduleRound()
      requires Enabled(setting, Model(), Round)
      modifies this
      ensures Model() == Apply(setting, old(Model()), Round)
    {
      hide Launch, LaunchAll, RecordAll, Without, Batch, FirstMutating;
      var ready := ReadyOf(setting, statuses, remaining);
      if ready == [] {
        RecordRest();
        return;
      }
      var batch := Batch(setting, State(remaining, statuses, results, running, {}, bindingLost, []));
      BatchOf(setting, State(remaining, statuses, results, running, {}, bindingLost, []), Model());
      remaining := Without(remaining, batch);
      var mutating := FirstMutating(batch);
      if mutating.Some? {
        ghost var before := dropped;
        LaunchOne(mutating.value);
        LaunchKeepsDropped(setting, old(Model()).(remaining := remaining), mutating.value);
        dropped := dropped + set c | c in batch && c != mutating.value;
      } else {
        LaunchBatch(batch);
      }
    }

    /** A check comes back, or its workspace binding is found lost. Its criterion gets
        its one result and is off the running set; the others keep theirs. */
    method FinishCheck(ghost criteria: seq<Criterion>, criterion: Criterion, status: Status, lost: bool)
      requires Inv(setting, criteria, Model()) && Enabled(setting, Model(), Finish(criterion, status, lost))
      modifies this
      ensures Model() == Apply(setting, old(Model()), Finish(criterion, status, lost))
      ensures Inv(setting, criteria, Model())
      ensures HasOneResult(Model(), criterion.id) && criterion.id !in old(statuses) && statuses[criterion.id] == status
      ensures criterion !in running && |running| < |old(running)|
      ensures OthersKeep(old(statuses), statuses) && forall c :: c in running ==> !c.mutates
    {
      FinishedOnce(setting, criteria, Model(), criterion, status, lost);
      hide Inv, HasOneResult, Apply, OthersKeep;
      running := running - {criterion};
      bindingLost := bindingLost || lost;
      RecordResult(criterion, status);
    }

    /** The whole loop, with the outcome of each check given by `outcome`. */
    method RunAll(ghost criteria: seq<Criterion>, outcome: Id -> (Status, bool)) returns (ghost steps: seq<Step>)
      requires UniqueIds(criteria) && Model() == Initial(criteria)
      requires forall id :: outcome(id).1 ==> outcome(id).0 == Inconclusive
      modifies this
      ensures Legal(setting, Initial(criteria), steps) && Model() == After(setting, Initial(criteria), steps)
      ensures Done(Model())
    {
      hide Inv, Legal, After, Apply;
      InitialIsOk(setting, criteria);
      NoSteps(setting, Initial(criteria));
      steps := [];
      while |remaining| > 0 && !bindingLost
        invariant Legal(setting, Initial(criteria), steps) && Model() == After(setting, Initial(criteria), steps)
        invariant Inv(setting, criteria, Model())
        invariant running == {}
        decreases |remaining|
      {
        RunExtends(setting, Initial(criteria), steps, Round);
        RoundShrinks(setting, Model());
        StepKeeps(setting, criteria, Model(), Round);
        steps := steps + [Round];
        ScheduleRound();
        steps := AwaitAll(criteria, outcome, steps);
      }
    }

    /** `Promise.all`: every check of the batch comes back, in some order. */
    method AwaitAll(ghost criteria: seq<Criterion>, outcome: Id -> (Status, bool), ghost steps: seq<Step>)
        returns (ghost more: seq<Step>)
      requires Inv(setting, criteria, Model())
      requires forall id :: outcome(id).1 ==> outcome(id).0 == Inconclusive
      requires Legal(setting, Initial(criteria), steps) && Model() == After(setting, Initial(criteria), steps)
      modifies this
      ensures Legal(setting, Initial(criteria), more) && Model() == After(setting, Initial(criteria), more)
      ensures Inv(setting, criteria, Model())
      ensures running == {} && remaining == old(remaining)
    {
      hide Inv, Legal, After, HasOneResult;
      more := steps;
      while running != {}
        invariant Legal(setting, Initial(criteria), more) && Model() == After(setting, Initial(criteria), more)
        invariant Inv(setting, criteria, Model())
        invariant remaining == old(remaining)
        decreases |running|
      {
        var criterion :| criterion in running;
        var (status, lost) := outcome(criterion.id);
        RunExtends(setting, Initial(criteria), more, Finish(criterion, status, lost));
        more := more + [Finish(criterion, status, lost)];
        FinishCheck(criteria, criterion, status, lost);
      }
    }

    /** What is reported: once the binding is lost, nothing passed. */
    method Report() returns (reported: seq<(Id, Status)>)
      ensures |reported| == |results|
      ensures forall i :: 0 <= i < |reported| ==>
                reported[i] == (results[i].0, if bindingLost && results[i].1 == Passed then Inconclusive
                                  else results[i].1)
    {
      if !bindingLost { return results; }
      reported := [];
      for n := 0 to |results|
        invariant |reported| == n
        invariant forall i :: 0 <= i < n ==>
                    reported[i] == (results[i].0, if results[i].1 == Passed then Inconclusive else results[i].1)
      {
        reported := reported + [(results[n].0, if results[n].1 == Passed then Inconclusive else results[n].1)];
      }
    }
  }
}
