/** How long a mutation receipt is kept, told from the times at which mutations were
    finished and receipts were pruned. */
module ReceiptRetention {
  import opened Common
  import opened CodeUnits
  import opened CanonicalJson
  import opened MutationReceipts

  /** Before `i`, the key's mutation was last finished at `j`, and not pruned since. */
  ghost predicate FinishedLast(history: seq<Happened>, j: int, i: int, key: Key) {
    && 0 <= j < i <= |history| && history[j].Finished? && history[j].key == key
    && forall k :: j < k < i && history[k].key == key ==> !history[k].Finished? && !history[k].Pruned?
  }

  /** The pruning at `i` comes later than its retention after the key was finished. */
  ghost predicate LatePruning(history: seq<Happened>, i: int)
    requires 0 <= i < |history| && history[i].Pruned?
  {
    exists j :: FinishedLast(history, j, i, history[i].key) && history[j].at + history[i].retention < history[i].at
  }

  ghost predicate PruningsAreLate(history: seq<Happened>) {
    forall i :: 0 <= i < |history| && history[i].Pruned? ==> LatePruning(history, i)
  }

  /** The stored receipt is the one finished last, at that time and with that result. */
  ghost predicate StoredAt(s: State, j: int, key: Key) {
    && FinishedLast(s.history, j, |s.history|, key)
    && key in s.rows
    && s.rows[key].receipt == Completed(Print(s.history[j].result)) && s.rows[key].updatedAt == s.history[j].at
  }

  ghost predicate Dated(s: State, key: Key) {
    if key in s.rows && s.rows[key].receipt.Completed? then exists j :: StoredAt(s, j, key)
    else forall j :: !FinishedLast(s.history, j, |s.history|, key)
  }

  ghost predicate Kept(s: State) {
    PruningsAreLate(s.history) && forall key :: Dated(s, key)
  }

  lemma LastAfter(history: seq<Happened>, event: Happened, grown: seq<Happened>, key: Key)
    requires grown == history + [event]
    ensures forall j :: FinishedLast(grown, j, |grown|, key) <==>
              if event.key == key && event.Finished? then j == |history|
              else if event.key == key && event.Pruned? then false
              else FinishedLast(history, j, |history|, key)
  {
    forall j ensures FinishedLast(grown, j, |grown|, key) <==>
                     if event.key == key && event.Finished? then j == |history|
                     else if event.key == key && event.Pruned? then false
                     else FinishedLast(history, j, |history|, key)
    {
      assert grown[|history|] == event;
      assert forall k :: 0 <= k < |history| ==> grown[k] == history[k];
    }
  }

  lemma LateGrows(history: seq<Happened>, event: Happened)
    requires PruningsAreLate(history)
    requires event.Pruned? ==>
               exists j :: FinishedLast(history, j, |history|, event.key) && history[j].at + event.retention < event.at
    ensures PruningsAreLate(history + [event])
  {
    var grown := history + [event];
    forall i | 0 <= i < |grown| && grown[i].Pruned? ensures LatePruning(grown, i) {
      var j :| FinishedLast(history, j, i, grown[i].key) && history[j].at + grown[i].retention < grown[i].at;
      assert FinishedLast(grown, j, i, grown[i].key);
    }
  }

  lemma DatedStays(s: State, t: State, event: Happened, key: Key)
    requires Dated(s, key) && t.history == s.history + [event]
    requires event.key == key ==> !event.Finished? && !event.Pruned?
    requires (key in s.rows && s.rows[key].receipt.Completed?) || (key in t.rows && t.rows[key].receipt.Completed?) ==>
               key in s.rows && key in t.rows && t.rows[key] == s.rows[key]
    ensures Dated(t, key)
  {
    LastAfter(s.history, event, t.history, key);
    if key in s.rows && s.rows[key].receipt.Completed? {
      var j :| StoredAt(s, j, key);
      assert FinishedLast(s.history, j, |s.history|, key);
      assert StoredAt(t, j, key);
    }
  }

  lemma {:induction false} PruneEach(s: State, keys: seq<Key>, at: int, retention: int) returns (t: State)
    requires Kept(s) && forall i, j :: 0 <= i < j < |keys| ==> keys[i] != keys[j]
    requires forall key :: key in keys ==> Prunable(s.rows, key, at - retention)
    ensures t == s.(rows := s.rows - Elements(keys), history := s.history + PruneEvents(keys, at, retention)) && Kept(t)
    decreases |keys|
  {
    if keys == [] {
      t := s;
      assert s.rows - {} == s.rows && s.history + [] == s.history;
    } else {
      var first, event := keys[0], Pruned(keys[0], at, retention);
      assert first in keys;
      PruneFirst(s, first, at, retention);
      var u := s.(rows := s.rows - {first}, history := s.history + [event]);
      HeadAndRest(keys);
      forall key | key in keys[1..] ensures key in keys && key != first {}
      t := PruneEach(u, keys[1..], at, retention);
      Assoc(s.history, [event], PruneEvents(keys[1..], at, retention));
      assert s.rows - {first} - Elements(keys[1..]) == s.rows - Elements(keys);
    }
  }

  lemma PruneFirst(s: State, key: Key, at: int, retention: int)
    requires Kept(s) && Prunable(s.rows, key, at - retention)
    ensures Kept(s.(rows := s.rows - {key}, history := s.history + [Pruned(key, at, retention)]))
  {
    hide PruningsAreLate;
    var event := Pruned(key, at, retention);
    var t := s.(rows := s.rows - {key}, history := s.history + [event]);
    assert Dated(s, key);
    var j :| StoredAt(s, j, key);
    LateGrows(s.history, event);
    forall other ensures Dated(t, other) {
      assert Dated(s, other);
      LastAfter(s.history, event, t.history, other);
      if other != key { DatedStays(s, t, event, other); }
    }
  }

  lemma CompleteKept(s: State, id: RunId)
    requires Kept(s) && Enabled(s, Complete(id))
    ensures Kept(Apply(s, Complete(id)))
  {
    hide PruningsAreLate;
    var t := Apply(s, Complete(id));
    var run := s.active[id];
    if Finalizes(s.rows, run) {
      var event := Finished(run.key, run.phase.result.value, s.now);
      LateGrows(s.history, event);
      forall key ensures Dated(t, key) {
        assert Dated(s, key);
        LastAfter(s.history, event, t.history, key);
        if key == run.key { assert StoredAt(t, |s.history|, key); } else { DatedStays(s, t, event, key); }
      }
    } else {
      SameKept(s, t);
    }
  }

  lemma SameKept(s: State, t: State)
    requires Kept(s) && t.rows == s.rows && t.history == s.history
    ensures Kept(t)
  {
    forall key ensures Dated(t, key) {
      assert Dated(s, key);
      if key in s.rows && s.rows[key].receipt.Completed? {
        var j :| StoredAt(s, j, key);
        assert StoredAt(t, j, key);
      }
    }
  }

  /** An event that neither finishes nor prunes, while completed receipts stay. */
  lemma OtherKept(s: State, t: State, event: Happened)
    requires Kept(s) && t.history == s.history + [event] && !event.Finished? && !event.Pruned?
    requires forall key :: (key in s.rows && s.rows[key].receipt.Completed?)
                           || (key in t.rows && t.rows[key].receipt.Completed?) ==>
               key in s.rows && key in t.rows && t.rows[key] == s.rows[key]
    ensures Kept(t)
  {
    hide PruningsAreLate, Dated;
    LateGrows(s.history, event);
    forall key ensures Dated(t, key) {
      DatedStays(s, t, event, key);
    }
  }

  lemma StepKept(s: State, step: Step)
    requires Kept(s) && Enabled(s, step)
    ensures Kept(Apply(s, step))
  {
    hide Kept;
    var t := Apply(s, step);
    match step
    case Begin(_, key, request) =>
      match Decide(s.rows, key, request) {
        case New => OtherKept(s, t, Began(key, request));
        case Replay(result) => OtherKept(s, t, Replayed(key, result));
        case _ => SameKept(s, t);
      }
    case Execute(id, _) => OtherKept(s, t, Execution(s.active[id].key));
    case Complete(id) => CompleteKept(s, id);
    case Prune(keys, retention) =>
      var u := PruneEach(s, Listing(keys), s.now, retention);
      assert Elements(Listing(keys)) == keys;
    case _ => SameKept(s, t);
  }

  lemma {:induction false} KeptAlongRun(s: State, steps: seq<Step>)
    requires Kept(s) && Legal(s, steps)
    ensures Kept(After(s, steps))
    decreases |steps|
  {
    hide Kept, Apply, Enabled;
    if steps != [] {
      StepKept(s, steps[0]);
      KeptAlongRun(Apply(s, steps[0]), steps[1..]);
    }
  }

  /** A receipt is pruned no earlier than its retention after its mutation was
      finished; and at any moment the receipts that a pass with some retention may
      prune are exactly those of the mutations that were finished longer ago than
      that and have not been pruned since. */
  lemma PrunedAfterRetention(now: int, steps: seq<Step>)
    requires Legal(Initial(now), steps)
    ensures var s := After(Initial(now), steps);
            && (forall i :: 0 <= i < |s.history| && s.history[i].Pruned? ==>
                  exists j :: FinishedLast(s.history, j, i, s.history[i].key)
                              && s.history[j].at + s.history[i].retention < s.history[i].at)
            && forall key, retention :: Enabled(s, Prune({key}, retention)) <==>
                 exists j :: FinishedLast(s.history, j, |s.history|, key) && s.history[j].at + retention < s.now
  {
    KeptAlongRun(Initial(now), steps);
    var s := After(Initial(now), steps);
    forall i | 0 <= i < |s.history| && s.history[i].Pruned?
      ensures exists j :: FinishedLast(s.history, j, i, s.history[i].key)
                          && s.history[j].at + s.history[i].retention < s.history[i].at
    {
      assert LatePruning(s.history, i);
    }
    forall key, retention ensures Enabled(s, Prune({key}, retention)) <==>
             exists j :: FinishedLast(s.history, j, |s.history|, key) && s.history[j].at + retention < s.now
    {
      PrunableIs(s, key, retention);
    }
  }

  lemma OneLast(history: seq<Happened>, j: int, k: int, i: int, key: Key)
    requires FinishedLast(history, j, i, key) && FinishedLast(history, k, i, key)
    ensures j == k
  {
    assert !(j < k) && !(k < j);
  }

  lemma PrunableIs(s: State, key: Key, retention: int)
    requires Dated(s, key)
    ensures Enabled(s, Prune({key}, retention)) <==>
            exists j :: FinishedLast(s.history, j, |s.history|, key) && s.history[j].at + retention < s.now
  {
    assert key in {key};
    if key in s.rows && s.rows[key].receipt.Completed? {
      var j :| StoredAt(s, j, key);
      forall k | FinishedLast(s.history, k, |s.history|, key) ensures k == j {
        OneLast(s.history, j, k, |s.history|, key);
      }
      assert FinishedLast(s.history, j, |s.history|, key);
    }
  }

  /** When a run that was executed comes to its end, its result is recorded if it can be
      serialized, and nothing is if not; no other row changes. */
  lemma CompletionIsRecorded(now: int, steps: seq<Step>, id: RunId)
    requires Legal(Initial(now), steps)
    requires var s := After(Initial(now), steps); id in s.active && s.active[id].phase.Executed?
    ensures var s := After(Initial(now), steps);
            var t, run := Apply(s, Complete(id)), s.active[id];
            match run.phase.result
            case Some(result) =>
              && t.history == s.history + [Finished(run.key, result, s.now)]
              && run.key in s.rows
              && t.rows == s.rows[run.key := Row(s.rows[run.key].requestHash, Completed(Print(result)), s.now)]
            case None => t.history == s.history && t.rows == s.rows
  {
    var first := Initial(now);
    forall key ensures CountsOk(first, key) && RowOk(first, key) { assert !SomeRunWaits(first, key); }
    InvAlongRun(first, steps);
    var s := After(first, steps);
    assert RunOk(s, s.active[id]);
  }

  // ---- what a retry is told ----

  /** The mutation of the key was begun at `i`, and its receipt has not been pruned since. */
  ghost predicate BegunAt(history: seq<Happened>, i: int, key: Key) {
    && 0 <= i < |history| && history[i].Began? && history[i].key == key
    && forall k :: i < k < |history| && history[k].key == key ==> !history[k].Pruned?
  }

  /** The key has a receipt exactly when it was begun and not pruned, for the request it
      was begun with. */
  ghost predicate Begun(s: State, key: Key) {
    if key in s.rows then
      && key.mutationId != []
      && exists i :: BegunAt(s.history, i, key) && WellFormed(s.history[i].request)
                     && s.rows[key].requestHash == HashOf(key, s.history[i].request)
    else forall i :: !BegunAt(s.history, i, key)
  }

  /** No key is begun twice without a pruning between. */
  ghost predicate BegunOnce(s: State, key: Key) {
    forall i, j :: BegunAt(s.history, i, key) && BegunAt(s.history, j, key) ==> i == j
  }

  ghost predicate AllBegun(s: State) {
    forall key :: Begun(s, key) && BegunOnce(s, key)
  }

  lemma BegunAfter(history: seq<Happened>, event: Happened, grown: seq<Happened>, key: Key)
    requires grown == history + [event]
    ensures forall i :: BegunAt(grown, i, key) <==>
              if event.key == key && event.Pruned? then false
              else BegunAt(history, i, key) || (i == |history| && event.key == key && event.Began?)
  {
    forall i ensures BegunAt(grown, i, key) <==>
                     if event.key == key && event.Pruned? then false
                     else BegunAt(history, i, key) || (i == |history| && event.key == key && event.Began?)
    {
      assert grown[|history|] == event;
      assert forall k :: 0 <= k < |history| ==> grown[k] == history[k];
    }
  }

  lemma BegunStays(s: State, t: State, event: Happened, key: Key)
    requires Begun(s, key) && BegunOnce(s, key) && t.history == s.history + [event]
    requires event.key == key ==> !event.Began? && !event.Pruned?
    requires key in t.rows <==> key in s.rows
    requires key in s.rows ==> t.rows[key].requestHash == s.rows[key].requestHash
    ensures Begun(t, key) && BegunOnce(t, key)
  {
    BegunAfter(s.history, event, t.history, key);
    if key in s.rows {
      var i :| BegunAt(s.history, i, key) && WellFormed(s.history[i].request)
               && s.rows[key].requestHash == HashOf(key, s.history[i].request);
      assert BegunAt(t.history, i, key) && t.history[i] == s.history[i];
    }
  }

  lemma AdmittedBegins(s: State, key: Key, request: Json, t: State)
    requires AllBegun(s) && Decide(s.rows, key, request) == New && WellFormed(request)
    requires t.history == s.history + [Began(key, request)]
    requires t.rows == s.rows[key := Row(HashOf(key, request), Pending, s.now)]
    ensures AllBegun(t)
  {
    hide HashOf, WellFormed;
    var event := Began(key, request);
    forall other ensures Begun(t, other) && BegunOnce(t, other) {
      assert Begun(s, other) && BegunOnce(s, other);
      if other == key {
        BegunAfter(s.history, event, t.history, key);
        assert BegunAt(t.history, |s.history|, key);
      } else {
        BegunStays(s, t, event, other);
      }
    }
  }

  lemma PrunedIsNotBegun(s: State, key: Key, at: int, retention: int, t: State)
    requires AllBegun(s) && t == s.(rows := s.rows - {key}, history := s.history + [Pruned(key, at, retention)])
    ensures AllBegun(t)
  {
    var event := Pruned(key, at, retention);
    forall other ensures Begun(t, other) && BegunOnce(t, other) {
      assert Begun(s, other) && BegunOnce(s, other);
      if other == key { BegunAfter(s.history, event, t.history, key); } else { BegunStays(s, t, event, other); }
    }
  }

  lemma {:induction false} PruneEachBegun(s: State, keys: seq<Key>, at: int, retention: int)
    requires AllBegun(s)
    ensures AllBegun(s.(rows := s.rows - Elements(keys), history := s.history + PruneEvents(keys, at, retention)))
    decreases |keys|
  {
    hide AllBegun;
    if keys == [] {
      assert Elements(keys) == {} && s.rows - {} == s.rows && s.history + [] == s.history;
      assert s.(rows := s.rows, history := s.history) == s;
    } else {
      var first, event := keys[0], Pruned(keys[0], at, retention);
      var u := s.(rows := s.rows - {first}, history := s.history + [event]);
      PrunedIsNotBegun(s, first, at, retention, u);
      PruneEachBegun(u, keys[1..], at, retention);
      HeadAndRest(keys);
      Assoc(s.history, [event], PruneEvents(keys[1..], at, retention));
      assert s.rows - {first} - Elements(keys[1..]) == s.rows - Elements(keys);
    }
  }

  lemma OtherBegun(s: State, t: State, event: Happened)
    requires AllBegun(s) && t.history == s.history + [event] && !event.Began? && !event.Pruned?
    requires t.rows.Keys == s.rows.Keys
    requires forall key :: key in s.rows ==> t.rows[key].requestHash == s.rows[key].requestHash
    ensures AllBegun(t)
  {
    hide Begun, BegunOnce;
    forall key ensures Begun(t, key) && BegunOnce(t, key) { BegunStays(s, t, event, key); }
  }

  lemma SameBegun(s: State, t: State)
    requires AllBegun(s) && t.rows == s.rows && t.history == s.history
    ensures AllBegun(t)
  {
    forall key ensures Begun(t, key) && BegunOnce(t, key) { assert Begun(s, key) && BegunOnce(s, key); }
  }

  lemma StepBegun(s: State, step: Step)
    requires AllBegun(s) && Enabled(s, step)
    ensures AllBegun(Apply(s, step))
  {
    hide AllBegun;
    var t := Apply(s, step);
    match step
    case Begin(_, key, request) =>
      match Decide(s.rows, key, request) {
        case New => AdmittedBegins(s, key, request, t);
        case Replay(result) => OtherBegun(s, t, Replayed(key, result));
        case _ => SameBegun(s, t);
      }
    case Execute(id, _) => OtherBegun(s, t, Execution(s.active[id].key));
    case Complete(id) =>
      var run := s.active[id];
      if Finalizes(s.rows, run) {
        OtherBegun(s, t, Finished(run.key, run.phase.result.value, s.now));
      } else {
        SameBegun(s, t);
      }
    case Prune(keys, retention) =>
      PruneEachBegun(s, Listing(keys), s.now, retention);
      assert Elements(Listing(keys)) == keys;
    case _ => SameBegun(s, t);
  }

  lemma {:induction false} BegunAlongRun(s: State, steps: seq<Step>)
    requires AllBegun(s) && Legal(s, steps)
    ensures AllBegun(After(s, steps))
    decreases |steps|
  {
    hide AllBegun, Apply, Enabled;
    if steps != [] {
      StepBegun(s, steps[0]);
      BegunAlongRun(Apply(s, steps[0]), steps[1..]);
    }
  }

  /** What a request is told, at any moment of any run. Without a mutation id receipts are
      not used. With one, it is new exactly when the id has not been begun since it was
      last pruned, if ever. Otherwise it conflicts when it differs by more than key order
      from the request the id was begun with, and if not, it is given the result that
      was finished last, or told that there is none yet. */
  lemma DecisionIs(now: int, steps: seq<Step>, key: Key, request: Json)
    requires Legal(Initial(now), steps) && WellFormed(request)
    ensures var s := After(Initial(now), steps);
            var decision := Decide(s.rows, key, request);
            && (key.mutationId == [] <==> decision == Disabled)
            && (key.mutationId != [] ==> (decision == New <==> forall i :: !BegunAt(s.history, i, key)))
            && forall i :: BegunAt(s.history, i, key) ==>
                 && (decision == Conflict <==> !Same(s.history[i].request, request))
                 && (decision == StillPending <==>
                       Same(s.history[i].request, request) && forall j :: !FinishedLast(s.history, j, |s.history|, key))
                 && forall j :: FinishedLast(s.history, j, |s.history|, key) && Same(s.history[i].request, request) ==>
                      decision == Replay(s.history[j].result)
  {
    KeptAlongRun(Initial(now), steps);
    BegunAlongRun(Initial(now), steps);
    ResultsWellFormed(now, steps, key);
    var s := After(Initial(now), steps);
    assert Dated(s, key) && Begun(s, key) && BegunOnce(s, key);
    hide Legal, After, Initial;
    forall i | BegunAt(s.history, i, key) ensures
      && key.mutationId != []
      && (Decide(s.rows, key, request) == Conflict <==> !Same(s.history[i].request, request))
      && (Decide(s.rows, key, request) == StillPending <==>
            Same(s.history[i].request, request) && forall j :: !FinishedLast(s.history, j, |s.history|, key))
      && Decide(s.rows, key, request) != New
      && forall j :: FinishedLast(s.history, j, |s.history|, key) && Same(s.history[i].request, request) ==>
           Decide(s.rows, key, request) == Replay(s.history[j].result)
    {
      KnownIdIsTold(s, i, key, request);
    }
  }

  /** Results that were finished are well formed. */
  lemma ResultsWellFormed(now: int, steps: seq<Step>, key: Key)
    requires Legal(Initial(now), steps)
    ensures RowOk(After(Initial(now), steps), key)
  {
    var first := Initial(now);
    forall key ensures CountsOk(first, key) && RowOk(first, key) { assert !SomeRunWaits(first, key); }
    InvAlongRun(first, steps);
  }

  lemma KnownIdIsTold(s: State, i: int, key: Key, request: Json)
    requires Dated(s, key) && Begun(s, key) && BegunOnce(s, key) && RowOk(s, key)
    requires BegunAt(s.history, i, key) && WellFormed(request)
    ensures var decision := Decide(s.rows, key, request);
            && key.mutationId != [] && decision != New
            && (decision == Conflict <==> !Same(s.history[i].request, request))
            && (decision == StillPending <==>
                  Same(s.history[i].request, request) && forall j :: !FinishedLast(s.history, j, |s.history|, key))
            && forall j :: FinishedLast(s.history, j, |s.history|, key) && Same(s.history[i].request, request) ==>
                 decision == Replay(s.history[j].result)
  {
    hide WellFormed, Same, HashOf, RecordedResult, Print, ReadValue, Parsed;
    var original := s.history[i].request;
    assert key in s.rows && s.rows[key].requestHash == HashOf(key, original) && WellFormed(original);
    HashTells(key, original, request);
    if s.rows[key].receipt.Completed? {
      var j :| StoredAt(s, j, key);
      var recorded := RecordedResult(s.history, key).value;
      ResultReadsBack(recorded);
      assert FinishedLast(s.history, j, |s.history|, key);
      forall k | FinishedLast(s.history, k, |s.history|, key) ensures k == j {
        OneLast(s.history, j, k, |s.history|, key);
      }
      StoredIsRecorded(s, j, key);
    }
  }

  lemma HashTells(key: Key, original: Json, request: Json)
    requires WellFormed(original) && WellFormed(request)
    ensures HashOf(key, original) == HashOf(key, request) <==> Same(original, request)
  {
    RequestTextDetermines(key.operation, original, key.operation, request);
  }

  lemma {:induction false} LastRecorded(history: seq<Happened>, j: int, key: Key)
    requires FinishedLast(history, j, |history|, key)
    ensures RecordedResult(history, key) == Some(history[j].result)
  {
    if j < |history| - 1 {
      var init := history[..|history| - 1];
      assert FinishedLast(init, j, |init|, key);
      LastRecorded(init, j, key);
    }
  }

  lemma StoredIsRecorded(s: State, j: int, key: Key)
    requires StoredAt(s, j, key)
    ensures RecordedResult(s.history, key) == Some(s.history[j].result)
  {
    LastRecorded(s.history, j, key);
  }
}
