/** The fenced outbox of src/dispatch-outbox.ts. Each SQL statement (and each
    transaction) is one step; time is read from a clock that never goes back,
    and claim tokens are fresh UUIDs, modelled by a counter. Rows are never
    deleted, so a row's id is its position in the table. */
module DispatchOutbox {
  import opened Common

  datatype Status = Pending | Claimed | Completed | DeadLettered | Suspended

  /** A payload: its revision field, when that is a number, and its text fields. */
  datatype Payload = Payload(revision: Option<int>, fields: map<string, string>)

  datatype Row = Row(
    eventType: string, aggregateId: string, revision: int, payload: Payload, status: Status,
    attempts: nat, failures: nat, availableAt: int,
    claimedBy: Option<string>, claimToken: Option<nat>, claimExpiresAt: Option<int>,
    lastError: Option<string>, completedAt: Option<int>)

  /** What a worker presents with every transition. */
  datatype Claim = Claim(eventId: nat, owner: string, token: nat)

  datatype Transition = Release | Complete | Fail | Suspend

  /** What happened to the rows. */
  datatype Happened =
    | Created(id: nat)
    | Granted(id: nat, claim: Claim, expires: int)
    | Used(id: nat, claim: Claim, at: int, transition: Transition)
    | Reaped(id: nat, token: nat)
    | Resumed(id: nat)
    | Redriven(id: nat)

  datatype State = State(rows: seq<Row>, nextToken: nat, now: int, history: seq<Happened>)

  const FAILURE_LIMIT := 3

  function Initial(now: int): State {
    State([], 0, now, [])
  }

  // ---- the SQL conditions ----

  predicate Keyed(row: Row, eventType: string, aggregateId: string, revision: int) {
    row.eventType == eventType && row.aggregateId == aggregateId && row.revision == revision
  }

  predicate HasLogical(rows: seq<Row>, eventType: string, aggregateId: string, revision: int) {
    exists i :: 0 <= i < |rows| && Keyed(rows[i], eventType, aggregateId, revision)
  }

  /** An empty filter list means no filter. */
  predicate Eligible(row: Row, now: int, eventTypes: set<string>, excluded: set<string>) {
    && row.status == Pending && row.availableAt <= now
    && (eventTypes == {} || row.eventType in eventTypes)
    && row.aggregateId !in excluded
  }

  /** `claimNext` takes an eligible row with the least `availableAt`, if there is any. */
  predicate NextCandidate(rows: seq<Row>, now: int, eventTypes: set<string>, excluded: set<string>,
                          candidate: Option<nat>) {
    match candidate
    case None => forall i :: 0 <= i < |rows| ==> !Eligible(rows[i], now, eventTypes, excluded)
    case Some(c) =>
      && c < |rows| && Eligible(rows[c], now, eventTypes, excluded)
      && forall i :: 0 <= i < |rows| && Eligible(rows[i], now, eventTypes, excluded) ==>
           rows[c].availableAt <= rows[i].availableAt
  }

  /** `fencedClaimWhere` */
  predicate Fenced(rows: seq<Row>, now: int, claim: Claim) {
    && claim.eventId < |rows|
    && var row := rows[claim.eventId];
       && row.status == Claimed
       && row.claimedBy == Some(claim.owner)
       && row.claimToken == Some(claim.token)
       && (row.claimExpiresAt.None? || row.claimExpiresAt.value > now)
  }

  predicate Lapsed(row: Row, cutoff: int) {
    row.status == Claimed && row.claimExpiresAt.Some? && row.claimExpiresAt.value < cutoff
  }

  predicate ValidKey(key: string) {
    key != "" && forall c :: c in key ==> 'A' <= c <= 'Z' || 'a' <= c <= 'z' || '0' <= c <= '9' || c == '_'
  }

  predicate ValidPrefix(prefix: Option<string>) {
    prefix.Some? ==> 0 < |prefix.value| <= 160 && forall c :: c in prefix.value ==> c != '\r' && c != '\n' && c != '\0'
  }

  predicate Resumable(row: Row, eventType: string, key: string, value: string, prefix: Option<string>) {
    && row.status == Suspended && row.eventType == eventType
    && key in row.payload.fields && row.payload.fields[key] == value
    && (prefix.Some? ==> row.lastError.Some? && prefix.value <= row.lastError.value)
  }

  // ---- the row updates ----

  function Unclaimed(row: Row, status: Status): Row {
    row.(status := status, claimedBy := None, claimToken := None, claimExpiresAt := None)
  }

  function NewRow(eventType: string, aggregateId: string, revision: int, payload: Payload, availableAt: int): Row {
    Row(eventType, aggregateId, revision, payload, Pending, 0, 0, availableAt, None, None, None, None, None)
  }

  function Revision(given: Option<int>, payload: Payload): int {
    if given.Some? then given.value
    else if payload.revision.Some? && payload.revision.value >= 0 then payload.revision.value
    else 0
  }

  function AfterFailure(row: Row, now: int, error: string, delay: int): Row {
    var failures := row.failures + 1;
    if failures >= FAILURE_LIMIT then Unclaimed(row, DeadLettered).(failures := failures, lastError := Some(error))
    else
      var factor := if failures == 1 then 1 else 2;
      Unclaimed(row, Pending).(failures := failures, lastError := Some(error), availableAt := now + delay * factor)
  }

  function Transitioned(row: Row, now: int, transition: Transition, note: Option<string>, delay: int): Row {
    match transition
    case Release => Unclaimed(row, Pending).(availableAt := now + delay, lastError := note)
    case Complete => Unclaimed(row, Completed).(completedAt := Some(now))
    case Fail => AfterFailure(row, now, if note.Some? then note.value else "", delay)
    case Suspend => Unclaimed(row, Suspended).(lastError := note)
  }

  function RedrivenRow(row: Row, now: int): Row {
    Unclaimed(row, Pending).(attempts := 0, failures := 0, availableAt := now, lastError := None, completedAt := None)
  }

  // ---- steps ----

  datatype Step =
    | Wait(until: int)
    | Enqueue(eventType: string, aggregateId: string, given: Option<int>, payload: Payload, availableAt: Option<int>)
    | ClaimNext(owner: string, lease: int, eventTypes: set<string>, excluded: set<string>, candidate: Option<nat>)
    | Present(claim: Claim, transition: Transition, note: Option<string>, delay: int)
    | Reap(id: nat, lease: int)
    | Resume(id: nat)
    | Redrive(id: nat)

  predicate Enabled(s: State, step: Step) {
    match step
    case Wait(until) => s.now <= until
    case Enqueue(_, _, _, _, _) => true
    case ClaimNext(_, _, eventTypes, excluded, candidate) =>
      NextCandidate(s.rows, s.now, eventTypes, excluded, candidate)
    case Present(_, _, _, _) => true
    case Reap(id, lease) => id < |s.rows| && Lapsed(s.rows[id], s.now - lease)
    case Resume(id) => id < |s.rows| && s.rows[id].status == Suspended
    case Redrive(id) => id < |s.rows| && s.rows[id].status == DeadLettered
  }

  function Put(s: State, id: nat, row: Row, event: Happened): State
    requires id < |s.rows|
  {
    s.(rows := s.rows[id := row], history := s.history + [event])
  }

  function Apply(s: State, step: Step): State
    requires Enabled(s, step)
  {
    match step
    case Wait(until) => s.(now := until)
    case Enqueue(eventType, aggregateId, given, payload, availableAt) =>
      var revision := Revision(given, payload);
      if HasLogical(s.rows, eventType, aggregateId, revision) then s
      else
        var at := if availableAt.Some? then availableAt.value else s.now;
        s.(rows := s.rows + [NewRow(eventType, aggregateId, revision, payload, at)],
             history := s.history + [Created(|s.rows|)])
    case ClaimNext(owner, lease, _, _, candidate) =>
      if candidate.None? then s
      else
        var id, row, expires := candidate.value, s.rows[candidate.value], s.now + lease;
        Put(s, id, row.(status := Claimed, claimedBy := Some(owner), claimExpiresAt := Some(expires),
                        claimToken := Some(s.nextToken), attempts := row.attempts + 1),
            Granted(id, Claim(id, owner, s.nextToken), expires)).(nextToken := s.nextToken + 1)
    case Present(claim, transition, note, delay) =>
      if !Fenced(s.rows, s.now, claim) then s
      else Put(s, claim.eventId, Transitioned(s.rows[claim.eventId], s.now, transition, note, delay),
               Used(claim.eventId, claim, s.now, transition))
    case Reap(id, _) =>
      var token := if s.rows[id].claimToken.Some? then s.rows[id].claimToken.value else 0;
      Put(s, id, Unclaimed(s.rows[id], Pending), Reaped(id, token))
    case Resume(id) => Put(s, id, s.rows[id].(status := Pending, availableAt := s.now, lastError := None), Resumed(id))
    case Redrive(id) => Put(s, id, RedrivenRow(s.rows[id], s.now), Redriven(id))
  }

  ghost predicate Legal(s: State, steps: seq<Step>)
    decreases |steps|
  {
    steps != [] ==> Enabled(s, steps[0]) && Legal(Apply(s, steps[0]), steps[1..])
  }

  ghost function After(s: State, steps: seq<Step>): State
    requires Legal(s, steps)
    decreases |steps|
  {
    if steps == [] then s else After(Apply(s, steps[0]), steps[1..])
  }

  // ---- what the protocol promises, in terms of its history ----

  /** Failures a row has collected since it was created or last redriven. */
  function FailuresSince(history: seq<Happened>, id: nat): nat {
    if history == [] then 0
    else
      var last, earlier := history[|history| - 1], history[..|history| - 1];
      match last
      case Created(i) => if i == id then 0 else FailuresSince(earlier, id)
      case Redriven(i) => if i == id then 0 else FailuresSince(earlier, id)
      case Used(i, _, _, transition) => FailuresSince(earlier, id) + (if i == id && transition == Fail then 1 else 0)
      case _ => FailuresSince(earlier, id)
  }

  /** The event ends the authority of a token. */
  predicate Ends(event: Happened, token: nat) {
    (event.Used? && event.claim.token == token) || (event.Reaped? && event.token == token)
  }

  /** Each token is ended at most once: at most one transition, none after a reaping. */
  ghost predicate TokensEndOnce(history: seq<Happened>) {
    forall i, j, token: nat :: 0 <= i < j < |history| && Ends(history[i], token) ==> !Ends(history[j], token)
  }

  ghost predicate GrantedBefore(history: seq<Happened>, j: nat, claim: Claim, at: int) {
    exists i :: 0 <= i < j && i < |history| && history[i].Granted? && history[i].claim == claim
      && at < history[i].expires
  }

  /** A transition presents exactly the identity that was granted, before its expiry. */
  ghost predicate UsesAreGranted(history: seq<Happened>) {
    forall j :: 0 <= j < |history| && history[j].Used? ==> GrantedBefore(history, j, history[j].claim, history[j].at)
  }

  ghost predicate GrantsAreFresh(history: seq<Happened>, nextToken: nat) {
    && (forall i :: 0 <= i < |history| && history[i].Granted? ==> history[i].claim.token < nextToken)
    && (forall i, j :: 0 <= i < j < |history| && history[i].Granted? && history[j].Granted?
          ==> history[i].claim.token != history[j].claim.token)
    && forall i, token: nat :: 0 <= i < |history| && Ends(history[i], token) ==> token < nextToken
  }

  ghost predicate LogicalKeysUnique(rows: seq<Row>) {
    forall i, j :: 0 <= i < j < |rows| ==> !Keyed(rows[j], rows[i].eventType, rows[i].aggregateId, rows[i].revision)
  }

  /** The claim columns are all set on a claimed row and all empty on any other. */
  predicate ClaimColumns(row: Row) {
    if row.status == Claimed then row.claimedBy.Some? && row.claimToken.Some? && row.claimExpiresAt.Some?
    else row.claimedBy == None && row.claimToken == None && row.claimExpiresAt == None
  }

  /** A claimed row carries a grant that nothing has ended. */
  ghost predicate LiveGrant(history: seq<Happened>, id: nat, row: Row)
    requires ClaimColumns(row) && row.status == Claimed
  {
    && (exists i :: 0 <= i < |history| && history[i].Granted?
          && history[i].claim == Claim(id, row.claimedBy.value, row.claimToken.value)
               && history[i].expires == row.claimExpiresAt.value)
    && forall i :: 0 <= i < |history| ==> !Ends(history[i], row.claimToken.value)
  }

  ghost predicate Budget(history: seq<Happened>, id: nat, row: Row) {
    && row.failures == FailuresSince(history, id)
    && (if row.status == DeadLettered then row.failures == FAILURE_LIMIT else row.failures < FAILURE_LIMIT)
  }

  ghost predicate RowOk(history: seq<Happened>, nextToken: nat, id: nat, row: Row) {
    && ClaimColumns(row)
    && Budget(history, id, row)
    && (row.status == Claimed ==> row.claimToken.value < nextToken && LiveGrant(history, id, row))
    && (row.completedAt.Some? <==> row.status == Completed)
  }

  ghost predicate TokensDiffer(rows: seq<Row>) {
    forall i, j :: 0 <= i < j < |rows| && rows[i].claimToken.Some? ==> rows[i].claimToken != rows[j].claimToken
  }

  ghost predicate HistoryInRange(history: seq<Happened>, count: nat) {
    forall i :: 0 <= i < |history| ==> history[i].id < count
  }

  ghost predicate Inv(s: State) {
    && LogicalKeysUnique(s.rows)
    && TokensDiffer(s.rows)
    && TokensEndOnce(s.history)
    && UsesAreGranted(s.history)
    && GrantsAreFresh(s.history, s.nextToken)
    && HistoryInRange(s.history, |s.rows|)
    && forall id :: 0 <= id < |s.rows| ==> RowOk(s.history, s.nextToken, id, s.rows[id])
  }

  // ---- every step keeps the invariant ----

  /** Appending an event that neither ends a token nor concerns the row. */
  lemma OthersStayOk(history: seq<Happened>, event: Happened, nextToken: nat, nextToken': nat, id: nat, row: Row)
    requires RowOk(history, nextToken, id, row) && nextToken <= nextToken' && event.id != id
    requires row.claimToken.Some? ==> !Ends(event, row.claimToken.value)
    ensures RowOk(history + [event], nextToken', id, row)
  {
    var grown := history + [event];
    assert grown[..|history|] == history;
    if row.status == Claimed {
      var i :| 0 <= i < |history| && history[i].Granted?
        && history[i].claim == Claim(id, row.claimedBy.value, row.claimToken.value)
             && history[i].expires == row.claimExpiresAt.value;
      assert grown[i] == history[i];
      forall k | 0 <= k < |grown| ensures !Ends(grown[k], row.claimToken.value) {
        if k < |history| { assert grown[k] == history[k]; }
      }
    }
  }

  lemma UsesStayGranted(history: seq<Happened>, event: Happened)
    requires UsesAreGranted(history)
    requires event.Used? ==> GrantedBefore(history, |history|, event.claim, event.at)
    ensures UsesAreGranted(history + [event])
  {
    var grown := history + [event];
    forall j | 0 <= j < |grown| && grown[j].Used? ensures GrantedBefore(grown, j, grown[j].claim, grown[j].at) {
      if j < |history| { assert GrantedBefore(history, j, history[j].claim, history[j].at); }
      var i :| 0 <= i < j && i < |history| && history[i].Granted? && history[i].claim == grown[j].claim
        && grown[j].at < history[i].expires;
      assert grown[i] == history[i];
    }
  }

  /** Rewriting one row under a matching event, once the row itself is accounted for. */
  lemma PutKeeps(s: State, id: nat, row: Row, event: Happened, nextToken: nat)
    requires Inv(s) && id < |s.rows| && event.id == id && s.nextToken <= nextToken
    requires Keyed(row, s.rows[id].eventType, s.rows[id].aggregateId, s.rows[id].revision)
    requires row.claimToken.Some? ==> row.claimToken.value >= s.nextToken
    requires forall token: nat :: Ends(event, token) ==>
               s.rows[id].status == Claimed && s.rows[id].claimToken == Some(token)
    requires event.Used? ==> GrantedBefore(s.history, |s.history|, event.claim, event.at)
    requires event.Granted? ==> s.nextToken <= event.claim.token < nextToken
    requires RowOk(s.history + [event], nextToken, id, row)
    ensures Inv(Put(s, id, row, event).(nextToken := nextToken))
  {
    var t := Put(s, id, row, event).(nextToken := nextToken);
    assert RowOk(s.history, s.nextToken, id, s.rows[id]);
    UsesStayGranted(s.history, event);
    forall k | 0 <= k < |t.rows| ensures RowOk(t.history, t.nextToken, k, t.rows[k]) {
      assert RowOk(s.history, s.nextToken, k, s.rows[k]);
      if k != id { OthersStayOk(s.history, event, s.nextToken, nextToken, k, s.rows[k]); }
    }
    forall i, j, token: nat | 0 <= i < j < |t.history| && Ends(t.history[i], token) ensures !Ends(t.history[j], token) {
      assert Ends(s.history[i], token);
    }
    forall i, j | 0 <= i < j < |t.rows| && t.rows[i].claimToken.Some?
      ensures t.rows[i].claimToken != t.rows[j].claimToken
    {
      assert RowOk(s.history, s.nextToken, i, s.rows[i]) && RowOk(s.history, s.nextToken, j, s.rows[j]);
    }
  }

  lemma EnqueueKeeps(s: State, step: Step)
    requires Inv(s) && step.Enqueue?
    ensures Inv(Apply(s, step))
  {
    var t := Apply(s, step);
    if t != s {
      var n := |s.rows|;
      var event := Created(n);
      UsesStayGranted(s.history, event);
      assert t.history[..|s.history|] == s.history;
      forall k | 0 <= k < |t.rows| ensures RowOk(t.history, t.nextToken, k, t.rows[k]) {
        if k < n {
          assert RowOk(s.history, s.nextToken, k, s.rows[k]);
          OthersStayOk(s.history, event, s.nextToken, s.nextToken, k, s.rows[k]);
        }
      }
    }
  }

  lemma GrantIsLive(s: State, id: nat, row: Row, event: Happened)
    requires Inv(s) && id < |s.rows| && s.rows[id].status == Pending && event.Granted? && event.id == id
    requires event.claim.eventId == id && event.claim.token == s.nextToken
    requires row == s.rows[id].(status := Claimed, claimedBy := Some(event.claim.owner),
                                  claimExpiresAt := Some(event.expires),
                                claimToken := Some(s.nextToken), attempts := s.rows[id].attempts + 1)
    ensures RowOk(s.history + [event], s.nextToken + 1, id, row)
  {
    assert RowOk(s.history, s.nextToken, id, s.rows[id]);
    var grown := s.history + [event];
    assert grown[..|s.history|] == s.history && grown[|s.history|] == event;
    forall k | 0 <= k < |grown| ensures !Ends(grown[k], s.nextToken) {
      if k < |s.history| { assert grown[k] == s.history[k]; }
    }
  }

  lemma ClaimKeeps(s: State, step: Step)
    requires Inv(s) && step.ClaimNext? && Enabled(s, step)
    ensures Inv(Apply(s, step))
  {
    if step.candidate.Some? {
      var id, expires := step.candidate.value, s.now + step.lease;
      var t := Apply(s, step);
      var event := Granted(id, Claim(id, step.owner, s.nextToken), expires);
      GrantIsLive(s, id, t.rows[id], event);
      hide RowOk;
      PutKeeps(s, id, t.rows[id], event, s.nextToken + 1);
    }
  }

  lemma PresentKeeps(s: State, step: Step)
    requires Inv(s) && step.Present?
    ensures Inv(Apply(s, step))
  {
    if Fenced(s.rows, s.now, step.claim) {
      var id := step.claim.eventId;
      var row := s.rows[id];
      var event := Used(id, step.claim, s.now, step.transition);
      assert RowOk(s.history, s.nextToken, id, row);
      var grown := s.history + [event];
      assert grown[..|s.history|] == s.history && grown[|s.history|] == event;
      PutKeeps(s, id, Transitioned(row, s.now, step.transition, step.note, step.delay), event, s.nextToken);
    }
  }

  lemma ReapKeeps(s: State, step: Step)
    requires Inv(s) && step.Reap? && Enabled(s, step)
    ensures Inv(Apply(s, step))
  {
    var id := step.id;
    var row := s.rows[id];
    assert RowOk(s.history, s.nextToken, id, row);
    var event := Reaped(id, row.claimToken.value);
    var grown := s.history + [event];
    assert grown[..|s.history|] == s.history && grown[|s.history|] == event;
    PutKeeps(s, id, Unclaimed(row, Pending), event, s.nextToken);
  }

  lemma OperatorKeeps(s: State, step: Step)
    requires Inv(s) && (step.Resume? || step.Redrive?) && Enabled(s, step)
    ensures Inv(Apply(s, step))
  {
    var id := step.id;
    var row := s.rows[id];
    assert RowOk(s.history, s.nextToken, id, row);
    var event := if step.Resume? then Resumed(id) else Redriven(id);
    var grown := s.history + [event];
    assert grown[..|s.history|] == s.history && grown[|s.history|] == event;
    PutKeeps(s, id, Apply(s, step).rows[id], event, s.nextToken);
  }

  lemma StepKeeps(s: State, step: Step)
    requires Inv(s) && Enabled(s, step)
    ensures Inv(Apply(s, step))
  {
    match step {
      case Wait(_) =>
      case Enqueue(_, _, _, _, _) => EnqueueKeeps(s, step);
      case ClaimNext(_, _, _, _, _) => ClaimKeeps(s, step);
      case Present(_, _, _, _) => PresentKeeps(s, step);
      case Reap(_, _) => ReapKeeps(s, step);
      case Resume(_) => OperatorKeeps(s, step);
      case Redrive(_) => OperatorKeeps(s, step);
    }
  }

  lemma {:induction false} InvAlongRun(s: State, steps: seq<Step>)
    requires Inv(s) && Legal(s, steps)
    ensures Inv(After(s, steps))
    decreases |steps|
  {
    hide Inv;
    if steps != [] {
      StepKeeps(s, steps[0]);
      InvAlongRun(Apply(s, steps[0]), steps[1..]);
    }
  }

  // ---- main results ----

  /** Fencing and retry budget over every run: a token authorizes at most one
      transition, only as granted, before its expiry and never after a reaping;
      claim columns go together; logical keys are unique; and the failure count
      is the number of failures reported since creation or redrive, dead-lettered
      at exactly three. */
  lemma FencingAndBudget(now: int, steps: seq<Step>)
    requires Legal(Initial(now), steps)
    ensures var s := After(Initial(now), steps);
            && TokensEndOnce(s.history)
            && UsesAreGranted(s.history)
            && LogicalKeysUnique(s.rows)
            && forall id :: 0 <= id < |s.rows| ==> ClaimColumns(s.rows[id]) && Budget(s.history, id, s.rows[id])
  {
    InvAlongRun(Initial(now), steps);
    var s := After(Initial(now), steps);
    forall id | 0 <= id < |s.rows| ensures ClaimColumns(s.rows[id]) && Budget(s.history, id, s.rows[id]) {
      assert RowOk(s.history, s.nextToken, id, s.rows[id]);
    }
  }

  /** A claim whose token has been used or reaped, or whose lease is over, does
      nothing and reports failure. */
  lemma StaleClaimIsInert(s: State, claim: Claim, transition: Transition, note: Option<string>, delay: int)
    requires Inv(s)
    requires (exists k :: 0 <= k < |s.history| && Ends(s.history[k], claim.token))
          || (forall i :: 0 <= i < |s.history| && s.history[i].Granted? && s.history[i].claim == claim ==>
                s.history[i].expires <= s.now)
    ensures !Fenced(s.rows, s.now, claim) && Apply(s, Present(claim, transition, note, delay)) == s
  {
    if claim.eventId < |s.rows| {
      var row := s.rows[claim.eventId];
      assert RowOk(s.history, s.nextToken, claim.eventId, row);
      if row.status == Claimed && row.claimedBy == Some(claim.owner) && row.claimToken == Some(claim.token) {
        assert LiveGrant(s.history, claim.eventId, row);
        assert row.claimExpiresAt.value <= s.now;
      }
    }
  }

  /** Completion is final. */
  lemma {:induction false} CompletedIsAbsorbing(s: State, steps: seq<Step>, id: nat)
    requires Inv(s) && Legal(s, steps) && id < |s.rows| && s.rows[id].status == Completed
    ensures id < |After(s, steps).rows| && After(s, steps).rows[id] == s.rows[id]
    decreases |steps|
  {
    if steps != [] {
      StepKeeps(s, steps[0]);
      hide Inv;
      CompletedIsAbsorbing(Apply(s, steps[0]), steps[1..], id);
    }
  }

  /** Crashed claims cost nothing: reaping touches only the claim columns. */
  lemma ReapingIsFree(s: State, id: nat, lease: int)
    requires Inv(s) && Enabled(s, Reap(id, lease))
    ensures var t := Apply(s, Reap(id, lease));
            && FailuresSince(t.history, id) == FailuresSince(s.history, id) == t.rows[id].failures
            && t.rows[id] == s.rows[id].(status := Pending, claimedBy := None, claimToken := None,
                                           claimExpiresAt := None)
            && forall claim :: Fenced(t.rows, t.now, claim) <==> Fenced(s.rows, s.now, claim) && claim.eventId != id
  {
    var t := Apply(s, Reap(id, lease));
    assert RowOk(s.history, s.nextToken, id, s.rows[id]);
    assert t.history[..|s.history|] == s.history;
  }

  // ---- the operations ----

  lemma {:induction false} RunExtends(s: State, steps: seq<Step>, step: Step)
    requires Legal(s, steps) && Enabled(After(s, steps), step)
    ensures Legal(s, steps + [step]) && After(s, steps + [step]) == Apply(After(s, steps), step)
    decreases |steps|
  {
    hide Apply, Enabled;
    if steps == [] {
      assert [step][1..] == [];
    } else {
      assert (steps + [step])[1..] == steps[1..] + [step];
      RunExtends(Apply(s, steps[0]), steps[1..], step);
    }
  }

  class Outbox {
    var rows: seq<Row>
    var nextToken: nat
    var now: int
    ghost var history: seq<Happened>

    ghost function Model(): State
      reads this
    {
      State(rows, nextToken, now, history)
    }

    constructor (now: int)
      ensures Model() == Initial(now)
    {
      rows, nextToken, this.now, history := [], 0, now, [];
    }

    method GetByLogical(eventType: string, aggregateId: string, revision: int) returns (id: Option<nat>)
      ensures id.Some? ==> id.value < |rows| && Keyed(rows[id.value], eventType, aggregateId, revision)
      ensures id.None? ==> !HasLogical(rows, eventType, aggregateId, revision)
    {
      for i := 0 to |rows|
        invariant forall k :: 0 <= k < i ==> !Keyed(rows[k], eventType, aggregateId, revision)
      {
        if Keyed(rows[i], eventType, aggregateId, revision) { return Some(i); }
      }
      return None;
    }

    method EnqueueEvent(eventType: string, aggregateId: string, given: Option<int>, payload: Payload,
                        availableAt: Option<int>) returns (id: nat)
      modifies this`rows, this`history
      ensures Model() == Apply(old(Model()), Enqueue(eventType, aggregateId, given, payload, availableAt))
      ensures id < |rows| && Keyed(rows[id], eventType, aggregateId, Revision(given, payload))
    {
      var revision := 0;
      if given.Some? {
        revision := given.value;
      } else if payload.revision.Some? && payload.revision.value >= 0 {
        revision := payload.revision.value;
      }
      var existing := GetByLogical(eventType, aggregateId, revision);
      if existing.Some? { return existing.value; }
      id := |rows|;
      var at := if availableAt.Some? then availableAt.value else now;
      rows := rows + [Row(eventType, aggregateId, revision, payload, Pending, 0, 0, at, None, None, None, None, None)];
      history := history + [Created(id)];
    }

    /** The oldest available eligible row, by a scan. */
    method Candidate(eventTypes: set<string>, excluded: set<string>) returns (candidate: Option<nat>)
      ensures NextCandidate(rows, now, eventTypes, excluded, candidate)
    {
      candidate := None;
      for i := 0 to |rows|
        invariant NextCandidate(rows[..i], now, eventTypes, excluded, candidate)
      {
        if Eligible(rows[i], now, eventTypes, excluded)
          && (candidate.None? || rows[i].availableAt < rows[candidate.value].availableAt) {
          candidate := Some(i);
        }
      }
      assert rows[..|rows|] == rows;
    }

    method ClaimNextEvent(owner: string, lease: int, eventTypes: set<string>, excluded: set<string>)
        returns (claim: Option<Claim>, ghost step: Step)
      modifies this`rows, this`history, this`nextToken
      ensures step.ClaimNext? && step.owner == owner && step.lease == lease && step.eventTypes == eventTypes
                && step.excluded == excluded
      ensures Enabled(old(Model()), step) && Model() == Apply(old(Model()), step)
      ensures claim == if step.candidate.None? then None else Some(Claim(step.candidate.value, owner, old(nextToken)))
      ensures claim.Some? && lease > 0 ==> Fenced(rows, now, claim.value)
    {
      var candidate := Candidate(eventTypes, excluded);
      step := ClaimNext(owner, lease, eventTypes, excluded, candidate);
      if candidate.None? { return None, step; }
      var id, row := candidate.value, rows[candidate.value];
      var minted := Claim(id, owner, nextToken);
      rows := rows[id := row.(status := Claimed, claimedBy := Some(owner), claimExpiresAt := Some(now + lease),
                              claimToken := Some(nextToken), attempts := row.attempts + 1)];
      history := history + [Granted(id, minted, now + lease)];
      nextToken := nextToken + 1;
      return Some(minted), step;
    }

    /** `release`, `markCompleted`, `markFailed` and `markSuspended`. */
    method PresentClaim(claim: Claim, transition: Transition, note: Option<string>, delay: int) returns (ok: bool)
      modifies this`rows, this`history
      ensures Model() == Apply(old(Model()), Present(claim, transition, note, delay))
      ensures ok <==> Fenced(old(rows), now, claim)
    {
      if !Fenced(rows, now, claim) { return false; }
      var row := rows[claim.eventId];
      match transition {
        case Release => row := Unclaimed(row, Pending).(availableAt := now + delay, lastError := note);
        case Complete => row := Unclaimed(row, Completed).(completedAt := Some(now));
        case Suspend => row := Unclaimed(row, Suspended).(lastError := note);
        case Fail =>
          var failures := row.failures + 1;
          var error := if note.Some? then note.value else "";
          if failures >= FAILURE_LIMIT {
            row := Unclaimed(row, DeadLettered).(failures := failures, lastError := Some(error));
          } else {
            var factor := if failures == 1 then 1 else 2;
            row := Unclaimed(row, Pending).(failures := failures, lastError := Some(error),
                                              availableAt := now + delay * factor);
          }
      }
      rows := rows[claim.eventId := row];
      history := history + [Used(claim.eventId, claim, now, transition)];
      return true;
    }

    /** `reapExpiredClaims`: every lapsed claim goes back to pending, nothing else changes. */
    method ReapExpiredClaims(lease: int) returns (reaped: nat, ghost steps: seq<Step>)
      modifies this`rows, this`history
      ensures Legal(old(Model()), steps) && Model() == After(old(Model()), steps)
      ensures forall step :: step in steps ==> step.Reap? && step.lease == lease
      ensures reaped == |steps| && |rows| == |old(rows)|
      ensures forall i :: 0 <= i < |rows| ==>
                rows[i] == if Lapsed(old(rows)[i], now - lease) then Unclaimed(old(rows)[i], Pending) else old(rows)[i]
    {
      reaped, steps := 0, [];
      var cutoff := now - lease;
      for i := 0 to |rows|
        invariant |rows| == |old(rows)| && reaped == |steps|
        invariant Legal(old(Model()), steps) && Model() == After(old(Model()), steps)
        invariant forall step :: step in steps ==> step.Reap? && step.lease == lease
        invariant forall k :: i <= k < |rows| ==> rows[k] == old(rows)[k]
        invariant forall k :: 0 <= k < i ==>
                    rows[k] == if Lapsed(old(rows)[k], cutoff) then Unclaimed(old(rows)[k], Pending) else old(rows)[k]
      {
        if Lapsed(rows[i], cutoff) {
          ghost var token := if rows[i].claimToken.Some? then rows[i].claimToken.value else 0;
          RunExtends(old(Model()), steps, Reap(i, lease));
          steps := steps + [Reap(i, lease)];
          rows := rows[i := Unclaimed(rows[i], Pending)];
          history := history + [Reaped(i, token)];
          reaped := reaped + 1;
        }
      }
    }

    /** `resumeSuspended`: refuses a malformed key or prefix, and otherwise resumes
        exactly the matching suspended rows. */
    method ResumeSuspended(eventType: string, key: string, value: string, prefix: Option<string>)
        returns (resumed: Option<nat>, ghost steps: seq<Step>)
      modifies this`rows, this`history
      ensures Legal(old(Model()), steps) && Model() == After(old(Model()), steps)
      ensures resumed.Some? <==> ValidKey(key) && ValidPrefix(prefix)
      ensures resumed.None? ==> steps == []
      ensures resumed.Some? ==> resumed.value == |steps| && |rows| == |old(rows)|
      ensures resumed.Some? ==> forall i :: 0 <= i < |rows| ==>
                rows[i] == if Resumable(old(rows)[i], eventType, key, value, prefix)
                           then old(rows)[i].(status := Pending, availableAt := now, lastError := None)
                             else old(rows)[i]
    {
      steps := [];
      if !ValidKey(key) || !ValidPrefix(prefix) { return None, steps; }
      var count := 0;
      for i := 0 to |rows|
        invariant |rows| == |old(rows)| && count == |steps|
        invariant Legal(old(Model()), steps) && Model() == After(old(Model()), steps)
        invariant forall k :: i <= k < |rows| ==> rows[k] == old(rows)[k]
        invariant forall k :: 0 <= k < i ==>
                    rows[k] == if Resumable(old(rows)[k], eventType, key, value, prefix)
                               then old(rows)[k].(status := Pending, availableAt := now, lastError := None)
                                 else old(rows)[k]
      {
        if Resumable(rows[i], eventType, key, value, prefix) {
          RunExtends(old(Model()), steps, Resume(i));
          steps := steps + [Resume(i)];
          rows := rows[i := rows[i].(status := Pending, availableAt := now, lastError := None)];
          history := history + [Resumed(i)];
          count := count + 1;
        }
      }
      return Some(count), steps;
    }

    /** `redriveDeadLetter`: only a dead-lettered row, with a fresh budget. */
    method RedriveDeadLetter(eventType: string, aggregateId: string, revision: int) returns (id: Option<nat>)
      modifies this`rows, this`history
      ensures id.None? ==> Model() == old(Model())
      ensures id.Some? ==> Enabled(old(Model()), Redrive(id.value)) && Model() == Apply(old(Model()), Redrive(id.value))
                           && Keyed(rows[id.value], eventType, aggregateId, revision)
      ensures LogicalKeysUnique(old(rows)) ==>
                (id.None? <==>
                   forall i :: 0 <= i < |old(rows)| && Keyed(old(rows)[i], eventType, aggregateId, revision) ==>
                     old(rows)[i].status != DeadLettered)
    {
      var existing := GetByLogical(eventType, aggregateId, revision);
      if existing.None? || rows[existing.value].status != DeadLettered { return None; }
      rows := rows[existing.value := rows[existing.value].(
        status := Pending, attempts := 0, failures := 0, availableAt := now,
        claimedBy := None, claimExpiresAt := None, claimToken := None, lastError := None, completedAt := None)];
      history := history + [Redriven(existing.value)];
      return existing;
    }
  }
}
