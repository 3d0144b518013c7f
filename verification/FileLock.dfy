/** The multi-key FIFO file-mutation lock of src/mutation-version.ts.

    An operation is numbered by its arrival. Its ticket (the promise other
    operations await) is that number: the ticket is resolved once the operation
    is Done. Everything `withFileMutationLock` does before its first `await` is
    one atomic step (Enter), the end of `Promise.all(predecessors)` is another
    (Start), and the `finally` block is the third (Leave). Arbitrarily many
    operations with arbitrary key sets interleave these steps. */
module FileLock {
  import opened Common

  type Key = string

  datatype Phase = Waiting | Running | Done

  datatype Operation = Operation(keys: set<Key>, predecessors: set<nat>, phase: Phase)

  datatype State = State(operations: seq<Operation>, tails: map<Key, nat>)

  const EMPTY := State([], map[])

  datatype Step = Enter(keys: set<Key>) | Start(op: nat) | Leave(op: nat)

  function TailTickets(tails: map<Key, nat>, keys: set<Key>): set<nat> {
    set key | key in keys && key in tails :: tails[key]
  }

  predicate Enabled(s: State, step: Step) {
    match step
    case Enter(_) => true
    case Start(op) =>
      && op < |s.operations|
      && s.operations[op].phase == Waiting
      && forall p :: p in s.operations[op].predecessors ==> p < |s.operations| && s.operations[p].phase == Done
    case Leave(op) => op < |s.operations| && s.operations[op].phase == Running
  }

  function Apply(s: State, step: Step): State
    requires Enabled(s, step)
  {
    match step
    case Enter(keys) =>
      var phase := if keys == {} then Running else Waiting;
      State(
        s.operations + [Operation(keys, TailTickets(s.tails, keys), phase)],
        s.tails + map key | key in keys :: |s.operations|)
    case Start(op) => s.(operations := s.operations[op := s.operations[op].(phase := Running)])
    case Leave(op) =>
      State(
        s.operations[op := s.operations[op].(phase := Done)],
        map key | key in s.tails && !(key in s.operations[op].keys && s.tails[key] == op) :: s.tails[key])
  }

  ghost predicate Legal(s: State, steps: seq<Step>)
    decreases |steps|
  {
    steps != [] ==> Enabled(s, steps[0]) && Legal(Apply(s, steps[0]), steps[1..])
  }

  ghost function After(s: State, steps: seq<Step>): State
    requires Legal(s, steps)
    decreases |steps|
  {
    if steps == [] then s else After(Apply(s, steps[0]), steps[1..])
  }

  // ---- what the protocol promises ----

  /** No two operations that share a key are inside the lock together. */
  ghost predicate MutualExclusion(s: State) {
    forall i, j :: 0 <= i < j < |s.operations| && s.operations[i].phase == Running && s.operations[j].phase == Running
      ==> s.operations[i].keys !! s.operations[j].keys
  }

  /** Each key is served in arrival order: an operation is past the wait only
      once every earlier operation on any of its keys has finished. */
  ghost predicate ArrivalOrder(s: State) {
    forall i, j, key :: 0 <= i < j < |s.operations| && key in s.operations[i].keys && key in s.operations[j].keys
      ==> (s.operations[j].phase != Waiting ==> s.operations[i].phase == Done)
  }

  ghost predicate Unfinished(s: State, op: nat) {
    op < |s.operations| && s.operations[op].phase != Done
  }

  /** The step with which an operation can move on by itself. */
  function NextOf(s: State, op: nat): Step
    requires op < |s.operations|
  {
    if s.operations[op].phase == Running then Leave(op) else Start(op)
  }

  /** The earliest unfinished operation is never blocked. */
  ghost predicate OldestCanProceed(s: State) {
    forall op: nat :: Unfinished(s, op) && (forall i: nat :: i < op ==> !Unfinished(s, i))
      ==> Enabled(s, NextOf(s, op))
  }

  ghost predicate AbsentTailMeansDone(s: State) {
    forall key, i :: key !in s.tails && 0 <= i < |s.operations| && key in s.operations[i].keys
      ==> s.operations[i].phase == Done
  }

  /** An operation without keys leaves no trace in the map. */
  ghost predicate KeylessAreDone(s: State) {
    forall i :: 0 <= i < |s.operations| && s.operations[i].keys == {} ==> s.operations[i].phase == Done
  }

  ghost predicate Quiescent(s: State) {
    forall i :: 0 <= i < |s.operations| ==> s.operations[i].phase == Done
  }

  // ---- the inductive invariant ----

  /** A tail is the latest arrival on its key, and that arrival is not finished. */
  ghost predicate TailsAreLatest(s: State) {
    forall key :: key in s.tails ==>
      && s.tails[key] < |s.operations|
      && key in s.operations[s.tails[key]].keys
      && s.operations[s.tails[key]].phase != Done
      && forall j :: s.tails[key] < j < |s.operations| ==> key !in s.operations[j].keys
  }

  /** On each key an operation awaits the arrival directly before it, or that
      arrival had already finished. */
  ghost predicate AwaitsPredecessor(s: State, i: nat, j: nat, key: Key)
    requires i < j < |s.operations|
  {
    || s.operations[i].phase == Done
    || exists p :: p in s.operations[j].predecessors && i <= p < j && key in s.operations[p].keys
  }

  ghost predicate QueueLinked(s: State) {
    && (forall j, p :: 0 <= j < |s.operations| && p in s.operations[j].predecessors ==> p < j)
    && (forall i, j, key :: 0 <= i < j < |s.operations| && key in s.operations[i].keys && key in s.operations[j].keys
          ==> AwaitsPredecessor(s, i, j, key))
  }

  ghost predicate Inv(s: State) {
    TailsAreLatest(s) && AbsentTailMeansDone(s) && QueueLinked(s) && ArrivalOrder(s)
  }

  lemma EnterLinks(s: State, keys: set<Key>, i: nat, j: nat, key: Key)
    requires Inv(s)
    requires var t := Apply(s, Enter(keys));
             i < j < |t.operations| && key in t.operations[i].keys && key in t.operations[j].keys
    ensures AwaitsPredecessor(Apply(s, Enter(keys)), i, j, key)
  {
    var t := Apply(s, Enter(keys));
    if j < |s.operations| {
      assert AwaitsPredecessor(s, i, j, key);
      if s.operations[i].phase != Done {
        var p :| p in s.operations[j].predecessors && i <= p < j && key in s.operations[p].keys;
        assert p in t.operations[j].predecessors && key in t.operations[p].keys;
      }
    } else if s.operations[i].phase != Done {
      assert key in s.tails;
      var p := s.tails[key];
      assert p in t.operations[j].predecessors && i <= p < j && key in t.operations[p].keys;
    }
  }

  lemma EnterKeepsTails(s: State, keys: set<Key>)
    requires Inv(s)
    ensures var t := Apply(s, Enter(keys)); TailsAreLatest(t) && AbsentTailMeansDone(t)
  {
    hide QueueLinked, ArrivalOrder;
  }

  lemma EnterKeepsOrder(s: State, keys: set<Key>)
    requires Inv(s)
    ensures ArrivalOrder(Apply(s, Enter(keys)))
  {
    var t := Apply(s, Enter(keys));
    hide QueueLinked, TailsAreLatest, AbsentTailMeansDone;
    forall i, j, key | 0 <= i < j < |t.operations| && key in t.operations[i].keys && key in t.operations[j].keys
      && t.operations[j].phase != Waiting
      ensures t.operations[i].phase == Done
    {
      assert j < |s.operations|;
    }
  }

  lemma EnterKeeps(s: State, keys: set<Key>)
    requires Inv(s)
    ensures Inv(Apply(s, Enter(keys)))
  {
    var t := Apply(s, Enter(keys));
    EnterKeepsTails(s, keys);
    EnterKeepsOrder(s, keys);
    hide ArrivalOrder, AbsentTailMeansDone, AwaitsPredecessor;
    forall i, j, key | 0 <= i < j < |t.operations| && key in t.operations[i].keys && key in t.operations[j].keys
      ensures AwaitsPredecessor(t, i, j, key)
    {
      EnterLinks(s, keys, i, j, key);
    }
  }

  lemma StartKeeps(s: State, op: nat)
    requires Inv(s) && Enabled(s, Start(op))
    ensures Inv(Apply(s, Start(op)))
  {
    var t := Apply(s, Start(op));
    forall i, j, key | 0 <= i < j < |t.operations| && key in t.operations[i].keys && key in t.operations[j].keys
      ensures AwaitsPredecessor(t, i, j, key)
      ensures t.operations[j].phase != Waiting ==> t.operations[i].phase == Done
    {
      assert AwaitsPredecessor(s, i, j, key);
      if s.operations[i].phase != Done {
        var p :| p in s.operations[j].predecessors && i <= p < j && key in s.operations[p].keys;
        assert p in t.operations[j].predecessors && key in t.operations[p].keys;
        // once j starts, the awaited p has finished, so p had waited for i in turn
      }
    }
  }

  lemma LeaveKeeps(s: State, op: nat)
    requires Inv(s) && Enabled(s, Leave(op))
    ensures Inv(Apply(s, Leave(op)))
  {
    var t := Apply(s, Leave(op));
    forall i, j, key | 0 <= i < j < |t.operations| && key in t.operations[i].keys && key in t.operations[j].keys
      ensures AwaitsPredecessor(t, i, j, key)
    {
      assert AwaitsPredecessor(s, i, j, key);
      if s.operations[i].phase != Done {
        var p :| p in s.operations[j].predecessors && i <= p < j && key in s.operations[p].keys;
        assert p in t.operations[j].predecessors && key in t.operations[p].keys;
      }
    }
    forall key, i | key !in t.tails && 0 <= i < |t.operations| && key in t.operations[i].keys
      ensures t.operations[i].phase == Done
    {
      if key in s.tails {
        assert key in s.operations[op].keys && s.tails[key] == op;
        if i < op {
          // the leaving operation was running, so all earlier ones on the key are done
          assert s.operations[op].phase != Waiting;
        }
      }
    }
  }

  lemma {:induction false} InvAlongRun(s: State, steps: seq<Step>)
    requires Inv(s) && Legal(s, steps)
    ensures Inv(After(s, steps))
    decreases |steps|
  {
    if steps != [] {
      match steps[0] {
        case Enter(keys) => EnterKeeps(s, keys);
        case Start(op) => StartKeeps(s, op);
        case Leave(op) => LeaveKeeps(s, op);
      }
      InvAlongRun(Apply(s, steps[0]), steps[1..]);
    }
  }

  lemma OldestIsEnabled(s: State, op: nat)
    requires Inv(s) && Unfinished(s, op) && forall i: nat :: i < op ==> !Unfinished(s, i)
    ensures Enabled(s, NextOf(s, op))
  {
    forall p | p in s.operations[op].predecessors
      ensures p < |s.operations| && s.operations[p].phase == Done
    {
      assert p < op;
      assert !Unfinished(s, p);
    }
  }

  /** Safety and progress of the lock over every run from the empty coordinator. */
  lemma LockIsCorrect(steps: seq<Step>)
    requires Legal(EMPTY, steps)
    ensures var s := After(EMPTY, steps);
            && MutualExclusion(s)
            && ArrivalOrder(s)
            && OldestCanProceed(s)
            && AbsentTailMeansDone(s)
            && (Quiescent(s) <==>
                  && s.tails == map[]
                  && KeylessAreDone(s))
  {
    InvAlongRun(EMPTY, steps);
    var s := After(EMPTY, steps);
    forall i, j | 0 <= i < j < |s.operations| && s.operations[i].phase == Running && s.operations[j].phase == Running
      ensures s.operations[i].keys !! s.operations[j].keys
    {
      forall key | key in s.operations[i].keys ensures key !in s.operations[j].keys {}
    }
    forall op: nat | Unfinished(s, op) && (forall i: nat :: i < op ==> !Unfinished(s, i))
      ensures Enabled(s, NextOf(s, op))
    {
      OldestIsEnabled(s, op);
    }
    if Quiescent(s) {
      forall key ensures key !in s.tails {}
      assert s.tails.Keys == {};
    }
    if s.tails == map[] {
      forall i | 0 <= i < |s.operations| && s.operations[i].keys != {}
        ensures s.operations[i].phase == Done
      {
        var key :| key in s.operations[i].keys;
        assert key !in s.tails;
      }
    }
  }

  /** No deadlock and no lost wake-up: from any reachable state some schedule,
      containing no new arrival, finishes every operation. */
  lemma {:induction false} CanDrain(s: State) returns (steps: seq<Step>)
    requires Inv(s)
    ensures Legal(s, steps) && Quiescent(After(s, steps))
    ensures forall i :: 0 <= i < |steps| ==> !steps[i].Enter?
    decreases Pending(s.operations)
  {
    if Quiescent(s) {
      return [];
    }
    var op := Oldest(s);
    OldestIsEnabled(s, op);
    var step := NextOf(s, op);
    var t := Apply(s, step);
    match step {
      case Start(_) => StartKeeps(s, op);
      case Leave(_) => LeaveKeeps(s, op);
    }
    PendingDrops(s.operations, op, t.operations[op]);
    var rest := CanDrain(t);
    steps := [step] + rest;
    assert steps[1..] == rest;
  }

  lemma Oldest(s: State) returns (op: nat)
    requires !Quiescent(s)
    ensures Unfinished(s, op) && forall i: nat :: i < op ==> !Unfinished(s, i)
  {
    op := 0;
    while s.operations[op].phase == Done
      invariant op < |s.operations|
      invariant forall i: nat :: i < op ==> !Unfinished(s, i)
      invariant exists i :: op <= i < |s.operations| && s.operations[i].phase != Done
      decreases |s.operations| - op
    {
      op := op + 1;
    }
  }

  /** Steps still owed: two for a waiting operation, one for a running one. */
  ghost function Pending(operations: seq<Operation>): nat {
    if operations == [] then 0
    else (match operations[0].phase case Waiting => 2 case Running => 1 case Done => 0) + Pending(operations[1..])
  }

  lemma {:induction false} PendingDrops(operations: seq<Operation>, at: nat, now: Operation)
    requires at < |operations| && operations[at].phase != Done
    requires now.phase == if operations[at].phase == Waiting then Running else Done
    ensures Pending(operations[at := now]) < Pending(operations)
    decreases at
  {
    if at > 0 {
      PendingDrops(operations[1..], at - 1, now);
      assert operations[at := now][1..] == operations[1..][at - 1 := now];
    } else {
      assert operations[at := now][1..] == operations[1..];
    }
  }

  // ---- the shared map, updated in place ----

  /** The distinct keys of a path list, as a JavaScript Set gives them. */
  method Unique(paths: seq<Key>) returns (keys: seq<Key>)
    ensures Elements(keys) == Elements(paths)
    ensures forall i, j :: 0 <= i < j < |keys| ==> keys[i] != keys[j]
  {
    keys := [];
    for n := 0 to |paths|
      invariant Elements(keys) == Elements(paths[..n])
      invariant forall i, j :: 0 <= i < j < |keys| ==> keys[i] != keys[j]
    {
      assert Elements(paths[..n + 1]) == Elements(paths[..n]) + {paths[n]};
      assert paths[n] in keys <==> paths[n] in Elements(paths[..n]);
      if paths[n] !in keys {
        assert Elements(keys + [paths[n]]) == Elements(keys) + {paths[n]};
        keys := keys + [paths[n]];
      }
    }
    assert paths[..|paths|] == paths;
  }

  /** The module-level coordinator. */
  class Coordinator {
    var operations: seq<Operation>
    var mutationTails: map<Key, nat>

    ghost function Model(): State
      reads this
    {
      State(operations, mutationTails)
    }

    constructor ()
      ensures Model() == EMPTY
    {
      operations := [];
      mutationTails := map[];
    }

    /** The synchronous prefix: collect the current tails, then become the tail. */
    method Arrive(paths: seq<Key>) returns (ticket: nat)
      modifies this
      ensures ticket == old(|operations|)
      ensures Model() == Apply(old(Model()), Enter(Elements(paths)))
    {
      var keys := Unique(paths);
      var predecessors := Predecessors(keys);
      ticket := |operations|;
      BecomeTail(keys, ticket);
      var phase := if |keys| == 0 then Running else Waiting;
      assert |keys| > 0 ==> keys[0] in Elements(paths);
      operations := operations + [Operation(Elements(keys), predecessors, phase)];
    }

    method BecomeTail(keys: seq<Key>, ticket: nat)
      modifies this`mutationTails
      ensures mutationTails == old(mutationTails) + map key | key in Elements(keys) :: ticket
    {
      for n := 0 to |keys|
        invariant mutationTails.Keys == old(mutationTails).Keys + Elements(keys[..n])
        invariant forall key :: key in mutationTails ==>
                    mutationTails[key] == if key in keys[..n] then ticket else old(mutationTails)[key]
      {
        assert Elements(keys[..n + 1]) == Elements(keys[..n]) + {keys[n]};
        mutationTails := mutationTails[keys[n] := ticket];
      }
      assert keys[..|keys|] == keys;
    }

    method Predecessors(keys: seq<Key>) returns (predecessors: set<nat>)
      ensures predecessors == TailTickets(mutationTails, Elements(keys))
    {
      predecessors := {};
      for n := 0 to |keys|
        invariant predecessors == TailTickets(mutationTails, Elements(keys[..n]))
      {
        assert Elements(keys[..n + 1]) == Elements(keys[..n]) + {keys[n]};
        if keys[n] in mutationTails { predecessors := predecessors + {mutationTails[keys[n]]}; }
      }
      assert keys[..|keys|] == keys;
    }

    /** All predecessors have resolved: the guarded operation begins. */
    method Begin(ticket: nat)
      requires Enabled(Model(), Start(ticket))
      modifies this`operations
      ensures Model() == Apply(old(Model()), Start(ticket))
    {
      operations := operations[ticket := operations[ticket].(phase := Running)];
    }

    /** The `finally` block: resolve the ticket and drop the tails still owned. */
    method Finish(ticket: nat, keys: seq<Key>)
      requires Enabled(Model(), Leave(ticket))
      requires forall key :: key in keys <==> key in operations[ticket].keys
      modifies this
      ensures Model() == Apply(old(Model()), Leave(ticket))
    {
      operations := operations[ticket := operations[ticket].(phase := Done)];
      for n := 0 to |keys|
        invariant operations == old(operations)[ticket := old(operations)[ticket].(phase := Done)]
        invariant mutationTails == map key | key in old(mutationTails)
                    && !(key in keys[..n] && old(mutationTails)[key] == ticket) :: old(mutationTails)[key]
      {
        if keys[n] in mutationTails && mutationTails[keys[n]] == ticket {
          mutationTails := mutationTails - {keys[n]};
        }
      }
      assert keys[..|keys|] == keys;
    }
  }
}
