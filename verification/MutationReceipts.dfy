/** Idempotency receipts (src/mutation-receipts.ts): `begin`, `complete`,
    `reconcile` and the protocol of `runWithMutationReceipt` around them.

    The stored hash is represented by the text it is taken of, that is, SHA-256 is
    taken to be injective. Each SQL transaction is one step; a run is cut off
    anywhere by a crash. */
module MutationReceipts {
  import opened Common
  import opened CodeUnits
  import opened CanonicalJson

  datatype Key = Key(principal: Text, operation: Text, mutationId: Text)

  datatype Receipt = Pending | Completed(resultJson: Text)

  datatype Row = Row(requestHash: Text, receipt: Receipt, updatedAt: int)

  /** What `begin` decides. */
  datatype Decision = Disabled | New | Replay(result: Json) | StillPending | Conflict

  /** A mutation under way: admitted, then executed with a result, which is absent
      when it cannot be serialized. */
  datatype Phase = Admitted | Executed(result: Option<Json>)

  datatype Run = Run(key: Key, request: Json, phase: Phase)

  type RunId = nat

  datatype Happened =
    | Began(key: Key, request: Json)
    | Execution(key: Key)
    | Finished(key: Key, result: Json, at: int)
    | Replayed(key: Key, result: Json)
    | Pruned(key: Key, at: int, retention: int)

  datatype State = State(rows: map<Key, Row>, active: map<RunId, Run>, now: int, history: seq<Happened>)

  function Initial(now: int): State {
    State(map[], map[], now, [])
  }

  // ---- the SQL statements ----

  function HashOf(key: Key, request: Json): Text {
    RequestText(key.operation, request)
  }

  function Parsed(resultJson: Text): Option<Json> {
    match ReadValue(resultJson)
    case Some((result, rest)) => if rest == [] then Some(result) else None
    case None => None
  }

  /** The outcome of `begin` on the table as it is. */
  function Decide(rows: map<Key, Row>, key: Key, request: Json): Decision {
    if key.mutationId == [] then Disabled
    else if key !in rows then New
    else if rows[key].requestHash != HashOf(key, request) then Conflict
    else
      match rows[key].receipt
      case Pending => StillPending
      case Completed(resultJson) => (match Parsed(resultJson) case Some(result) => Replay(result) case None => Conflict)
  }

  predicate Prunable(rows: map<Key, Row>, key: Key, cutoff: int) {
    key in rows && rows[key].receipt.Completed? && rows[key].updatedAt < cutoff
  }

  /** Whether the receipt of a run can be finalized. */
  predicate Finalizes(rows: map<Key, Row>, run: Run) {
    && run.phase.Executed? && run.phase.result.Some?
    && run.key in rows && rows[run.key].receipt == Pending && rows[run.key].requestHash == HashOf(run.key, run.request)
  }

  // ---- steps ----

  datatype Step =
    | Wait(until: int)
    | Begin(id: RunId, key: Key, request: Json)
    | Execute(id: RunId, result: Option<Json>)
    | Complete(id: RunId)
    | Prune(keys: set<Key>, retention: int)
    | Crash

  predicate Enabled(s: State, step: Step) {
    match step
    case Wait(until) => s.now <= until
    case Begin(id, _, request) => id !in s.active && WellFormed(request)
    case Execute(id, result) => id in s.active && s.active[id].phase == Admitted
      && (result.Some? ==> WellFormed(result.value))
    case Complete(id) => id in s.active && s.active[id].phase.Executed?
    case Prune(keys, retention) => forall key :: key in keys ==> Prunable(s.rows, key, s.now - retention)
    case Crash => true
  }

  /** The pruned keys, one event each. */
  function PruneEvents(keys: seq<Key>, at: int, retention: int): seq<Happened> {
    if keys == [] then [] else [Pruned(keys[0], at, retention)] + PruneEvents(keys[1..], at, retention)
  }

  ghost function Apply(s: State, step: Step): State
    requires Enabled(s, step)
  {
    match step
    case Wait(until) => s.(now := until)
    case Begin(id, key, request) =>
      (match Decide(s.rows, key, request)
       case New =>
         s.(rows := s.rows[key := Row(HashOf(key, request), Pending, s.now)],
            active := s.active[id := Run(key, request, Admitted)],
            history := s.history + [Began(key, request)])
       case Replay(result) => s.(history := s.history + [Replayed(key, result)])
       case _ => s)
    case Execute(id, result) =>
      var run := s.active[id];
      s.(active := s.active[id := run.(phase := Executed(result))], history := s.history + [Execution(run.key)])
    case Complete(id) =>
      var run := s.active[id];
      var t := s.(active := s.active - {id});
      if !Finalizes(s.rows, run) then t
      else
        var result := run.phase.result.value;
        t.(rows := s.rows[run.key := s.rows[run.key].(receipt := Completed(Print(result)), updatedAt := s.now)],
           history := s.history + [Finished(run.key, result, s.now)])
    case Prune(keys, retention) =>
      s.(rows := s.rows - keys, history := s.history + PruneEvents(Listing(keys), s.now, retention))
    case Crash => s.(active := map[])
  }

  /** Some order of a set of keys. */
  ghost function Listing(keys: set<Key>): (listing: seq<Key>)
    ensures forall key :: key in listing <==> key in keys
    ensures forall i, j :: 0 <= i < j < |listing| ==> listing[i] != listing[j]
  {
    if keys == {} then []
    else
      var key :| key in keys;
      [key] + Listing(keys - {key})
  }

  ghost predicate Legal(s: State, steps: seq<Step>)
    decreases |steps|
  {
    steps != [] ==> Enabled(s, steps[0]) && Legal(Apply(s, steps[0]), steps[1..])
  }

  ghost function After(s: State, steps: seq<Step>): State
    requires Legal(s, steps)
    decreases |steps|
  {
    if steps == [] then s else After(Apply(s, steps[0]), steps[1..])
  }

  // ---- reading the history ----

  function Executions(history: seq<Happened>, key: Key): nat {
    if history == [] then 0
    else Executions(history[..|history| - 1], key) + (if history[|history| - 1] == Execution(key) then 1 else 0)
  }

  function Prunings(history: seq<Happened>, key: Key): nat {
    if history == [] then 0
    else
      var last := history[|history| - 1];
      Prunings(history[..|history| - 1], key) + (if last.Pruned? && last.key == key then 1 else 0)
  }

  /** The result last recorded for the key, if it has not been pruned since. */
  function RecordedResult(history: seq<Happened>, key: Key): Option<Json> {
    if history == [] then None
    else
      var last, earlier := history[|history| - 1], history[..|history| - 1];
      if last.key != key then RecordedResult(earlier, key)
      else
        match last
        case Finished(_, result, _) => Some(result)
        case Pruned(_, _, _) => None
        case _ => RecordedResult(earlier, key)
  }

  /** Every replay hands out the recorded result. */
  ghost predicate ReplaysAreRecorded(history: seq<Happened>) {
    forall i :: 0 <= i < |history| && history[i].Replayed? ==>
      RecordedResult(history[..i], history[i].key) == Some(history[i].result)
  }

  // ---- the invariant ----

  ghost predicate Waits(s: State, id: RunId, key: Key) {
    id in s.active && s.active[id].key == key && s.active[id].phase == Admitted
  }

  ghost predicate SomeRunWaits(s: State, key: Key) {
    exists id :: Waits(s, id, key)
  }

  ghost predicate CountsOk(s: State, key: Key) {
    Executions(s.history, key) + (if SomeRunWaits(s, key) then 1 else 0)
      <= Prunings(s.history, key) + (if key in s.rows then 1 else 0)
  }

  ghost predicate RunOk(s: State, run: Run) {
    && run.key in s.rows && s.rows[run.key].receipt == Pending
         && s.rows[run.key].requestHash == HashOf(run.key, run.request)
    && (run.phase.Executed? && run.phase.result.Some? ==> WellFormed(run.phase.result.value))
  }

  /** No two runs under way have the same key. */
  ghost predicate KeysDiffer(active: map<RunId, Run>) {
    forall i, j :: i in active && j in active && i != j ==> active[i].key != active[j].key
  }

  ghost predicate RowOk(s: State, key: Key) {
    match (if key in s.rows then s.rows[key].receipt else Pending)
    case Pending => RecordedResult(s.history, key) == None
    case Completed(resultJson) =>
      var recorded := RecordedResult(s.history, key);
      recorded.Some? && WellFormed(recorded.value) && resultJson == Print(recorded.value)
  }

  ghost predicate Inv(s: State) {
    && (forall key :: CountsOk(s, key) && RowOk(s, key))
    && (forall id :: id in s.active ==> RunOk(s, s.active[id]))
    && KeysDiffer(s.active)
    && ReplaysAreRecorded(s.history)
  }

  lemma ReplaysGrow(history: seq<Happened>, event: Happened)
    requires ReplaysAreRecorded(history)
    requires event.Replayed? ==> RecordedResult(history, event.key) == Some(event.result)
    ensures ReplaysAreRecorded(history + [event])
    ensures (history + [event])[..|history|] == history
  {
    var grown := history + [event];
    assert grown[..|history|] == history;
    forall i | 0 <= i < |grown| && grown[i].Replayed?
      ensures RecordedResult(grown[..i], grown[i].key) == Some(grown[i].result)
    {
      if i < |history| { assert grown[..i] == history[..i]; }
    }
  }

  /** What was stored by `complete` parses back to the same value. */
  lemma ResultReadsBack(result: Json)
    requires WellFormed(result)
    ensures Parsed(Print(result)) == Some(result)
  {
    ReadPrinted(result, []);
    assert Print(result) + [] == Print(result);
  }

  lemma BeginKeeps(s: State, step: Step)
    requires Inv(s) && step.Begin? && Enabled(s, step)
    ensures Inv(Apply(s, step))
  {
    match Decide(s.rows, step.key, step.request) {
      case New => AdmissionKeeps(s, step);
      case Replay(_) => ReplayKeeps(s, step);
      case _ =>
    }
  }

  lemma AdmissionKeeps(s: State, step: Step)
    requires Inv(s) && step.Begin? && Enabled(s, step) && Decide(s.rows, step.key, step.request) == New
    ensures Inv(Apply(s, step))
  {
    var key := step.key;
    var t := Apply(s, step);
    ReplaysGrow(s.history, Began(key, step.request));
    forall id | id in s.active ensures s.active[id].key != key { assert RunOk(s, s.active[id]); }
    hide ReplaysAreRecorded, Decide, HashOf;
    forall other ensures CountsOk(t, other) && RowOk(t, other) {
      assert CountsOk(s, other) && RowOk(s, other);
      if SomeRunWaits(t, other) && other != key {
        var id :| Waits(t, id, other);
        assert Waits(s, id, other);
      }
    }
  }

  lemma ReplayKeeps(s: State, step: Step)
    requires Inv(s) && step.Begin? && Enabled(s, step) && Decide(s.rows, step.key, step.request).Replay?
    ensures Inv(Apply(s, step))
  {
    var key, result := step.key, Decide(s.rows, step.key, step.request).result;
    var t := Apply(s, step);
    assert RowOk(s, key);
    ResultReadsBack(RecordedResult(s.history, key).value);
    ReplaysGrow(s.history, Replayed(key, result));
    hide ReplaysAreRecorded;
    forall other ensures CountsOk(t, other) && RowOk(t, other) {
      assert CountsOk(s, other) && RowOk(s, other);
      SameWaiting(s, t, other);
    }
  }

  lemma SameWaiting(s: State, t: State, key: Key)
    requires t.active == s.active
    ensures SomeRunWaits(t, key) <==> SomeRunWaits(s, key)
  {
    if id :| Waits(s, id, key) { assert Waits(t, id, key); }
    if id :| Waits(t, id, key) { assert Waits(s, id, key); }
  }

  lemma ExecuteKeeps(s: State, step: Step)
    requires Inv(s) && step.Execute? && Enabled(s, step)
    ensures Inv(Apply(s, step))
  {
    var t := Apply(s, step);
    var key := s.active[step.id].key;
    ReplaysGrow(s.history, Execution(key));
    assert Waits(s, step.id, key);
    forall other ensures CountsOk(t, other) && RowOk(t, other) {
      assert CountsOk(s, other) && RowOk(s, other);
      if SomeRunWaits(t, other) {
        var id :| Waits(t, id, other);
        assert Waits(s, id, other) && other != key;
      }
    }
    forall id | id in t.active ensures RunOk(t, t.active[id]) { assert RunOk(s, s.active[id]); }
  }

  lemma CompleteKeeps(s: State, step: Step)
    requires Inv(s) && step.Complete? && Enabled(s, step)
    ensures Inv(Apply(s, step))
  {
    var t := Apply(s, step);
    var run := s.active[step.id];
    assert RunOk(s, run);
    if Finalizes(s.rows, run) { ReplaysGrow(s.history, Finished(run.key, run.phase.result.value, s.now)); }
    forall other ensures CountsOk(t, other) && RowOk(t, other) {
      assert CountsOk(s, other) && RowOk(s, other);
      if SomeRunWaits(t, other) {
        var id :| Waits(t, id, other);
        assert Waits(s, id, other);
      }
    }
    forall id | id in t.active ensures RunOk(t, t.active[id]) { assert RunOk(s, s.active[id]); }
  }

  /** Pruning a list of keys one after another. */
  lemma {:induction false} PruneHistory(history: seq<Happened>, keys: seq<Key>, at: int, retention: int, key: Key)
    requires forall i, j :: 0 <= i < j < |keys| ==> keys[i] != keys[j]
    requires ReplaysAreRecorded(history)
    ensures var grown := history + PruneEvents(keys, at, retention);
            && ReplaysAreRecorded(grown)
            && Executions(grown, key) == Executions(history, key)
            && Prunings(grown, key) == Prunings(history, key) + (if key in keys then 1 else 0)
            && RecordedResult(grown, key) == if key in keys then None else RecordedResult(history, key)
    decreases |keys|
  {
    if keys == [] {
      assert history + [] == history;
    } else {
      var event := Pruned(keys[0], at, retention);
      ReplaysGrow(history, event);
      PruneHistory(history + [event], keys[1..], at, retention, key);
      Assoc(history, [event], PruneEvents(keys[1..], at, retention));
      HeadAndRest(keys);
    }
  }

  lemma PruneKeeps(s: State, step: Step)
    requires Inv(s) && step.Prune? && Enabled(s, step)
    ensures Inv(Apply(s, step))
  {
    hide ReplaysAreRecorded;
    var t := Apply(s, step);
    var any := Key([], [], []);
    PruneHistory(s.history, Listing(step.keys), s.now, step.retention, any);
    forall key ensures CountsOk(t, key) && RowOk(t, key) {
      assert CountsOk(s, key) && RowOk(s, key);
      PruneHistory(s.history, Listing(step.keys), s.now, step.retention, key);
      SameWaiting(s, t, key);
      if key in step.keys {
        forall id ensures !Waits(s, id, key) { assert id in s.active ==> RunOk(s, s.active[id]); }
      }
    }
    forall id | id in t.active ensures RunOk(t, t.active[id]) { assert RunOk(s, s.active[id]); }
  }

  lemma RestKeeps(s: State, step: Step)
    requires Inv(s) && (step.Wait? || step.Crash?) && Enabled(s, step)
    ensures Inv(Apply(s, step))
  {
    var t := Apply(s, step);
    forall key ensures CountsOk(t, key) && RowOk(t, key) {
      assert CountsOk(s, key) && RowOk(s, key);
      if SomeRunWaits(t, key) {
        var id :| Waits(t, id, key);
        assert Waits(s, id, key);
      }
    }
    forall id | id in t.active ensures RunOk(t, t.active[id]) { assert RunOk(s, s.active[id]); }
  }

  lemma StepKeeps(s: State, step: Step)
    requires Inv(s) && Enabled(s, step)
    ensures Inv(Apply(s, step))
  {
    hide Inv;
    match step
    case Begin(_, _, _) => BeginKeeps(s, step);
    case Execute(_, _) => ExecuteKeeps(s, step);
    case Complete(_) => CompleteKeeps(s, step);
    case Prune(_, _) => PruneKeeps(s, step);
    case _ => RestKeeps(s, step);
  }

  lemma {:induction false} InvAlongRun(s: State, steps: seq<Step>)
    requires Inv(s) && Legal(s, steps)
    ensures Inv(After(s, steps))
    decreases |steps|
  {
    hide Inv, Apply, Enabled;
    if steps != [] {
      StepKeeps(s, steps[0]);
      InvAlongRun(Apply(s, steps[0]), steps[1..]);
    }
  }

  // ---- main results ----

  /** Over all retries, conflicting reuses, interleavings, crashes and maintenance
      passes: a key's mutation is executed at most once, plus once for every time
      its completed receipt was pruned; and every replay returns the recorded result. */
  lemma AtMostOnce(now: int, steps: seq<Step>)
    requires Legal(Initial(now), steps)
    ensures var s := After(Initial(now), steps);
            && (forall key :: Executions(s.history, key) <= Prunings(s.history, key) + (if key in s.rows then 1 else 0))
            && ReplaysAreRecorded(s.history)
  {
    var first := Initial(now);
    forall key ensures CountsOk(first, key) && RowOk(first, key) {
      assert !SomeRunWaits(first, key);
    }
    InvAlongRun(first, steps);
    var s := After(first, steps);
    forall key ensures Executions(s.history, key) <= Prunings(s.history, key) + (if key in s.rows then 1 else 0) {
      assert CountsOk(s, key);
    }
  }

  /** A pending receipt survives everything but its own completion, and nothing is
      executed for its key unless its own run does so. */
  lemma PendingIsKept(s: State, step: Step, key: Key)
    requires Inv(s) && Enabled(s, step)
    requires key in s.rows && s.rows[key].receipt == Pending
    ensures var t := Apply(s, step);
            && key in t.rows
            && (t.rows[key] == s.rows[key] || (step.Complete? && s.active[step.id].key == key))
            && (Executions(t.history, key) != Executions(s.history, key) ==>
                  step.Execute? && s.active[step.id].key == key)
  {
    hide Finalizes, Decide, ReplaysAreRecorded, CountsOk, RowOk;
    match step {
      case Prune(keys, _) => PruneSpares(s, step, key);
      case Begin(_, _, _) => BeginSpares(s, step, key);
      case Execute(id, _) => ExecutionGrows(s.history, Execution(s.active[id].key), key);
      case Complete(id) =>
        var run := s.active[id];
        if run.phase.result.Some? { ExecutionGrows(s.history, Finished(run.key, run.phase.result.value, s.now), key); }
      case _ =>
    }
  }

  lemma ExecutionGrows(history: seq<Happened>, event: Happened, key: Key)
    ensures Executions(history + [event], key) == Executions(history, key) + if event == Execution(key) then 1 else 0
  {
    assert (history + [event])[..|history|] == history;
  }

  lemma PruneSpares(s: State, step: Step, key: Key)
    requires step.Prune? && Enabled(s, step) && ReplaysAreRecorded(s.history)
    requires key in s.rows && s.rows[key].receipt == Pending
    ensures var t := Apply(s, step);
            && key in t.rows && t.rows[key] == s.rows[key]
            && Executions(t.history, key) == Executions(s.history, key)
  {
    PruneHistory(s.history, Listing(step.keys), s.now, step.retention, key);
  }

  lemma BeginSpares(s: State, step: Step, key: Key)
    requires step.Begin? && Enabled(s, step) && key in s.rows
    ensures var t := Apply(s, step);
            && key in t.rows && t.rows[key] == s.rows[key]
            && Executions(t.history, key) == Executions(s.history, key)
  {
    match Decide(s.rows, step.key, step.request)
    case New => ExecutionGrows(s.history, Began(step.key, step.request), key);
    case Replay(result) => ExecutionGrows(s.history, Replayed(step.key, result), key);
    case _ =>
  }

  /** A pending receipt without its run is stuck for good: whatever happens later,
      the mutation is never executed again under that key. */
  lemma {:induction false} OrphanIsNeverExecuted(s: State, steps: seq<Step>, key: Key)
    requires Inv(s) && Legal(s, steps)
    requires key in s.rows && s.rows[key].receipt == Pending && forall id :: id in s.active ==> s.active[id].key != key
    ensures var t := After(s, steps);
            key in t.rows && t.rows[key] == s.rows[key] && Executions(t.history, key) == Executions(s.history, key)
    decreases |steps|
  {
    hide Inv, Apply, Enabled;
    if steps != [] {
      PendingIsKept(s, steps[0], key);
      StepKeeps(s, steps[0]);
      StaysOrphan(s, steps[0], key);
      OrphanIsNeverExecuted(Apply(s, steps[0]), steps[1..], key);
    }
  }

  /** No step gives a pending receipt a new run. */
  lemma StaysOrphan(s: State, step: Step, key: Key)
    requires Enabled(s, step) && key in s.rows && s.rows[key].receipt == Pending
    requires forall id :: id in s.active ==> s.active[id].key != key
    ensures forall id :: id in Apply(s, step).active ==> Apply(s, step).active[id].key != key
    ensures step.Execute? || step.Complete? ==> s.active[step.id].key != key
  {}

  /** A receipt conflicts with exactly the requests that differ from its own by more than key order. */
  lemma ConflictIffDifferent(rows: map<Key, Row>, key: Key, original: Json, request: Json)
    requires key.mutationId != [] && key in rows && rows[key].requestHash == HashOf(key, original)
    requires WellFormed(original) && WellFormed(request)
    requires rows[key].receipt.Completed? ==>
               exists result :: WellFormed(result) && rows[key].receipt.resultJson == Print(result)
    ensures Decide(rows, key, request) == Conflict <==> !Same(original, request)
    ensures Same(original, request) ==> Decide(rows, key, request) == Decide(rows, key, original)
  {
    RequestTextDetermines(key.operation, original, key.operation, request);
    if rows[key].receipt.Completed? {
      var result :| WellFormed(result) && rows[key].receipt.resultJson == Print(result);
      ResultReadsBack(result);
    }
  }

  // ---- the store, updated in place ----

  lemma {:induction false} RunExtends(s: State, steps: seq<Step>, step: Step)
    requires Legal(s, steps) && Enabled(After(s, steps), step)
    ensures Legal(s, steps + [step]) && After(s, steps + [step]) == Apply(After(s, steps), step)
    decreases |steps|
  {
    hide Apply, Enabled;
    if steps == [] {
      assert [step][1..] == [];
    } else {
      assert (steps + [step])[1..] == steps[1..] + [step];
      RunExtends(Apply(s, steps[0]), steps[1..], step);
    }
  }

  /** What a caller of `runWithMutationReceipt` gets. */
  datatype Reply = Result(result: Option<Json>) | InProgress | Conflicting | NotFinalized

  class ReceiptStore {
    var rows: map<Key, Row>
    var now: int
    ghost var active: map<RunId, Run>
    ghost var history: seq<Happened>

    ghost function Model(): State
      reads this
    {
      State(rows, active, now, history)
    }

    constructor (now: int)
      ensures Model() == Initial(now)
    {
      rows, this.now, active, history := map[], now, map[], [];
    }

    /** `begin`: insert a pending receipt or look at the one that is there. */
    method BeginMutation(ghost id: RunId, key: Key, request: Json) returns (decision: Decision)
      requires id !in active && WellFormed(request)
      modifies this`rows, this`active, this`history
      ensures decision == Decide(old(rows), key, request)
      ensures Model() == Apply(old(Model()), Begin(id, key, request))
    {
      if key.mutationId == [] { return Disabled; }
      var hash := HashOf(key, request);
      var inserted := key !in rows;
      if inserted { rows := rows[key := Row(hash, Pending, now)]; }
      var row := rows[key];
      if row.requestHash != hash { return Conflict; }
      match row.receipt {
        case Completed(resultJson) =>
          var result := Parsed(resultJson);
          if result.None? { return Conflict; }
          history := history + [Replayed(key, result.value)];
          return Replay(result.value);
        case Pending =>
          if !inserted { return StillPending; }
          active := active[id := Run(key, request, Admitted)];
          history := history + [Began(key, request)];
          return New;
      }
    }

    /** `complete`: store the result, unless the receipt is not the caller's any more. */
    method CompleteMutation(ghost id: RunId, key: Key, request: Json, result: Option<Json>) returns (ok: bool)
      requires id in active && active[id] == Run(key, request, Executed(result))
      modifies this`rows, this`active, this`history
      ensures Model() == Apply(old(Model()), Complete(id))
      ensures ok <==> Finalizes(old(rows), Run(key, request, Executed(result)))
    {
      active := active - {id};
      if result.None? { return false; }
      if key !in rows || rows[key].requestHash != HashOf(key, request) || rows[key].receipt != Pending { return false; }
      rows := rows[key := rows[key].(receipt := Completed(Print(result.value)), updatedAt := now)];
      history := history + [Finished(key, result.value, now)];
      return true;
    }

    /** `runWithMutationReceipt`, uninterrupted; `outcome` is what executing gives. */
    method RunWithMutationReceipt(ghost id: RunId, key: Key, request: Json, outcome: Option<Json>)
        returns (reply: Reply, executed: bool, ghost steps: seq<Step>)
      requires id !in active && WellFormed(request) && (outcome.Some? ==> WellFormed(outcome.value))
      modifies this`rows, this`active, this`history
      ensures Legal(old(Model()), steps) && Model() == After(old(Model()), steps)
      ensures executed <==> Decide(old(rows), key, request) in {Disabled, New}
      ensures match Decide(old(rows), key, request)
              case Disabled => reply == Result(outcome)
              case New => reply == if outcome.Some? then Result(outcome) else NotFinalized
              case Replay(result) => reply == Result(Some(result))
              case StillPending => reply == InProgress
              case Conflict => reply == Conflicting
      ensures Decide(old(rows), key, request) == New && outcome.Some? ==>
                Decide(rows, key, request) == Replay(outcome.value)
    {
      ghost var start := Model();
      var decision := BeginMutation(id, key, request);
      RunExtends(start, [], Begin(id, key, request));
      steps := [Begin(id, key, request)];
      assert [] + steps == steps;
      match decision {
        case Disabled => return Result(outcome), true, steps;
        case Replay(result) => return Result(Some(result)), false, steps;
        case StillPending => return InProgress, false, steps;
        case Conflict => return Conflicting, false, steps;
        case New =>
          RunExtends(start, steps, Execute(id, outcome));
          steps := steps + [Execute(id, outcome)];
          active := active[id := Run(key, request, Executed(outcome))];
          history := history + [Execution(key)];
          RunExtends(start, steps, Complete(id));
          var ok := CompleteMutation(id, key, request, outcome);
          steps := steps + [Complete(id)];
          if outcome.Some? { ResultReadsBack(outcome.value); }
          return if ok then Result(outcome) else NotFinalized, true, steps;
      }
    }

    /** The deletion of `reconcile`: at most `limit` completed receipts past their
        retention, the oldest first. Pending ones are never touched. */
    method Reconcile(retention: int, limit: int) returns (deleted: Option<set<Key>>)
      modifies this`rows, this`history
      ensures deleted.Some? <==> retention >= 0
      ensures deleted.None? ==> Model() == old(Model())
      ensures deleted.Some? ==>
                && Enabled(old(Model()), Prune(deleted.value, retention))
                && Model() == Apply(old(Model()), Prune(deleted.value, retention))
                && |deleted.value| <= Clamp(limit)
                && (|deleted.value| < Clamp(limit) ==> forall key :: key in rows ==>
                                                         !Prunable(rows, key, now - retention))
                && forall key, other :: key in deleted.value && Prunable(rows, other, now - retention) ==>
                     old(rows)[key].updatedAt <= rows[other].updatedAt
    {
      if retention < 0 { return None; }
      var taken := OldestPrunable(now - retention, Clamp(limit));
      history := history + PruneEvents(Listing(taken), now, retention);
      rows := rows - taken;
      return Some(taken);
    }

    method OldestPrunable(cutoff: int, limit: nat) returns (taken: set<Key>)
      ensures |taken| <= limit && forall key :: key in taken ==> Prunable(rows, key, cutoff)
      ensures |taken| < limit ==> forall key :: Prunable(rows, key, cutoff) ==> key in taken
      ensures forall key, other ::
                (key in taken && Prunable(rows, key, cutoff) && Prunable(rows, other, cutoff) && other !in taken ==>
                   rows[key].updatedAt <= rows[other].updatedAt)
    {
      var left := set key | key in rows && Prunable(rows, key, cutoff);
      taken := {};
      while |taken| < limit && left != {}
        invariant |taken| <= limit && taken !! left
        invariant forall key :: key in taken || key in left <==> Prunable(rows, key, cutoff)
        invariant forall key, other :: key in taken && other in left ==> rows[key].updatedAt <= rows[other].updatedAt
        decreases |left|
      {
        var key := Oldest(left);
        left, taken := left - {key}, taken + {key};
      }
    }

    method Oldest(keys: set<Key>) returns (oldest: Key)
      requires keys != {} && forall key :: key in keys ==> key in rows
      ensures oldest in keys && forall key :: key in keys ==> rows[oldest].updatedAt <= rows[key].updatedAt
    {
      oldest :| oldest in keys;
      var left := keys - {oldest};
      while left != {}
        invariant left <= keys && oldest in keys
        invariant forall key :: key in keys && key !in left ==> rows[oldest].updatedAt <= rows[key].updatedAt
        decreases |left|
      {
        var key :| key in left;
        if rows[key].updatedAt < rows[oldest].updatedAt { oldest := key; }
        left := left - {key};
      }
    }
  }
}
