/** When a row of the outbox may be claimed and for how long a claim holds, told from
    the clock: every claim lasts its lease, and every return its delay. */
module OutboxTimes {
  import opened Common
  import opened DispatchOutbox

  // ---- how long a claim holds ----

  /** The row is claimed by exactly this claim, until `expires`. */
  predicate HeldBy(row: Row, claim: Claim, expires: int) {
    && row.status == Claimed && row.claimedBy == Some(claim.owner) && row.claimToken == Some(claim.token)
    && row.claimExpiresAt == Some(expires)
  }

  /** The step neither presents the claim nor reaps its row. */
  predicate LeavesAlone(step: Step, claim: Claim) {
    && !(step.Present? && step.claim == claim)
    && !(step.Reap? && step.id == claim.eventId)
  }

  lemma HeldStays(s: State, step: Step, claim: Claim, expires: int)
    requires Enabled(s, step) && LeavesAlone(step, claim)
    requires claim.eventId < |s.rows| && HeldBy(s.rows[claim.eventId], claim, expires)
    ensures claim.eventId < |Apply(s, step).rows|
            && Apply(s, step).rows[claim.eventId] == s.rows[claim.eventId]
  {}

  lemma {:induction false} HeldAlongRun(s: State, steps: seq<Step>, claim: Claim, expires: int)
    requires Legal(s, steps) && forall step :: step in steps ==> LeavesAlone(step, claim)
    requires claim.eventId < |s.rows| && HeldBy(s.rows[claim.eventId], claim, expires)
    ensures claim.eventId < |After(s, steps).rows|
            && After(s, steps).rows[claim.eventId] == s.rows[claim.eventId]
    decreases |steps|
  {
    hide Apply, Enabled;
    if steps != [] {
      assert steps[0] in steps;
      HeldStays(s, steps[0], claim, expires);
      HeldAlongRun(Apply(s, steps[0]), steps[1..], claim, expires);
    }
  }

  /** A claim lasts its lease. Granted at `s.now`, and through any steps that neither
      present it nor reap its row, it passes the fence exactly at the times before
      `s.now + lease`, and it may be reaped with a grace exactly at the times more than
      that grace after. Until then the row is as it was, claimed once more. */
  lemma LeaseLasts(s: State, owner: string, lease: int, eventTypes: set<string>, excluded: set<string>, id: nat,
                   steps: seq<Step>)
    requires Enabled(s, ClaimNext(owner, lease, eventTypes, excluded, Some(id)))
    requires var t, claim :=
                 Apply(s, ClaimNext(owner, lease, eventTypes, excluded, Some(id))), Claim(id, owner, s.nextToken);
             Legal(t, steps) && forall step :: step in steps ==> LeavesAlone(step, claim)
    ensures var t := Apply(s, ClaimNext(owner, lease, eventTypes, excluded, Some(id)));
            var u := After(t, steps);
            && id < |s.rows| && id < |u.rows|
            && (Fenced(u.rows, u.now, Claim(id, owner, s.nextToken)) <==> u.now < s.now + lease)
            && (forall grace :: Enabled(u, Reap(id, grace)) <==> s.now + lease < u.now - grace)
            && u.rows[id] == s.rows[id].(status := Claimed, claimedBy := Some(owner),
                                         claimToken := Some(s.nextToken), claimExpiresAt := Some(s.now + lease),
                                         attempts := s.rows[id].attempts + 1)
  {
    var t := Apply(s, ClaimNext(owner, lease, eventTypes, excluded, Some(id)));
    HeldAlongRun(t, steps, Claim(id, owner, s.nextToken), s.now + lease);
  }

  // ---- when a row may be claimed ----

  /** The filters of a claim admit the row; no event types named admits all. */
  predicate Admitted(row: Row, eventTypes: set<string>, excluded: set<string>) {
    (eventTypes == {} || row.eventType in eventTypes) && row.aggregateId !in excluded
  }

  lemma WaitingStays(s: State, step: Step, id: nat)
    requires Enabled(s, step) && id < |s.rows| && s.rows[id].status == Pending
    requires s.now < s.rows[id].availableAt || !(step.ClaimNext? && step.candidate == Some(id))
    ensures id < |Apply(s, step).rows| && Apply(s, step).rows[id] == s.rows[id] && s.now <= Apply(s, step).now
  {}

  lemma {:induction false} ClockRuns(s: State, steps: seq<Step>)
    requires Legal(s, steps)
    ensures s.now <= After(s, steps).now
    decreases |steps|
  {
    if steps != [] { ClockRuns(Apply(s, steps[0]), steps[1..]); }
  }

  /** A pending row does not change before its time, nor later while nobody claims it. */
  lemma {:induction false} WaitingAlongRun(s: State, steps: seq<Step>, id: nat)
    requires Legal(s, steps) && id < |s.rows| && s.rows[id].status == Pending
    requires After(s, steps).now < s.rows[id].availableAt
             || forall step :: step in steps ==> !(step.ClaimNext? && step.candidate == Some(id))
    ensures id < |After(s, steps).rows| && After(s, steps).rows[id] == s.rows[id]
    decreases |steps|
  {
    hide Apply, Enabled;
    if steps != [] {
      assert steps[0] in steps;
      ClockRuns(s, steps);
      WaitingStays(s, steps[0], id);
      WaitingAlongRun(Apply(s, steps[0]), steps[1..], id);
    }
  }

  /** The step puts the row back, or in, to be claimed from `at` on: a release after
      its delay, the first failure since the row was created or redriven after the
      delay and the second after twice the delay, and a new, resumed or redriven row at
      once, unless it was enqueued for a later time. */
  ghost predicate ReturnsAt(s: State, step: Step, id: nat, at: int) {
    match step
    case Present(claim, Release, _, delay) =>
      claim.eventId == id && Fenced(s.rows, s.now, claim) && at == s.now + delay
    case Present(claim, Fail, _, delay) =>
      && claim.eventId == id && Fenced(s.rows, s.now, claim)
      && ((FailuresSince(s.history, id) == 0 && at == s.now + delay)
          || (FailuresSince(s.history, id) == 1 && at == s.now + 2 * delay))
    case Enqueue(_, _, _, _, availableAt) =>
      && id == |s.rows| && Apply(s, step) != s
      && at == (if availableAt.Some? then availableAt.value else s.now)
    case Resume(i) => i == id && at == s.now
    case Redrive(i) => i == id && at == s.now
    case _ => false
  }

  /** What a return means. The row cannot be claimed before its time, and until then
      nothing changes it; from its time on, while nobody claims it, every claim whose
      filters admit it finds it. */
  lemma ReturnMeans(s: State, step: Step, id: nat, at: int, steps: seq<Step>)
    requires Inv(s) && Enabled(s, step) && ReturnsAt(s, step, id, at) && Legal(Apply(s, step), steps)
    ensures var t := Apply(s, step);
            var u := After(t, steps);
            && id < |t.rows| && id < |u.rows| && t.rows[id].status == Pending
            && (u.now < at || (forall x :: x in steps ==> !(x.ClaimNext? && x.candidate == Some(id))) ==>
                  && u.rows[id] == t.rows[id]
                  && forall eventTypes, excluded ::
                       Eligible(u.rows[id], u.now, eventTypes, excluded) <==>
                       at <= u.now && Admitted(u.rows[id], eventTypes, excluded))
  {
    var t := Apply(s, step);
    var u := After(t, steps);
    if step.Present? { assert RowOk(s.history, s.nextToken, id, s.rows[id]); }
    PendingFrom(s, step, id, at);
    hide Apply, Enabled, ReturnsAt;
    if u.now < at || forall x :: x in steps ==> !(x.ClaimNext? && x.candidate == Some(id)) {
      WaitingAlongRun(t, steps, id);
    } else {
      RowsStay(t, steps);
    }
  }

  lemma PendingFrom(s: State, step: Step, id: nat, at: int)
    requires Inv(s) && Enabled(s, step) && ReturnsAt(s, step, id, at)
    ensures var t := Apply(s, step);
            id < |t.rows| && t.rows[id].status == Pending && t.rows[id].availableAt == at
  {
    if step.Present? { assert RowOk(s.history, s.nextToken, id, s.rows[id]); }
  }

  // ---- what is final, and for whom ----

  /** The third failure since a row was created or redriven puts it aside, and only a
      redrive brings it back; a suspended row waits for a resume; a completed one is
      kept for good. */
  lemma Finality(s: State, claim: Claim, transition: Transition, note: Option<string>, delay: int, steps: seq<Step>)
    requires Inv(s) && Fenced(s.rows, s.now, claim)
    requires Legal(Apply(s, Present(claim, transition, note, delay)), steps)
    ensures var id := claim.eventId;
            var row := After(Apply(s, Present(claim, transition, note, delay)), steps).rows;
            && id < |s.rows| && id < |row|
            && (transition == Complete ==> row[id].status == Completed && row[id].completedAt == Some(s.now))
            && (transition == Suspend && Resume(id) !in steps ==>
                  row[id].status == Suspended && row[id].lastError == note)
            && (transition == Fail && FailuresSince(s.history, id) == 2 && Redrive(id) !in steps ==>
                  && row[id].status == DeadLettered && row[id].failures == 3
                  && row[id].lastError == Some(if note.Some? then note.value else ""))
  {
    var t := Apply(s, Present(claim, transition, note, delay));
    assert RowOk(s.history, s.nextToken, claim.eventId, s.rows[claim.eventId]);
    match transition
    case Complete => RestsAlongRun(t, steps, claim.eventId);
    case Suspend => if Resume(claim.eventId) !in steps { RestsAlongRun(t, steps, claim.eventId); }
                    else { RowsStay(t, steps); }
    case Fail => if t.rows[claim.eventId].status == DeadLettered && Redrive(claim.eventId) !in steps {
        RestsAlongRun(t, steps, claim.eventId);
      } else { RowsStay(t, steps); }
    case Release => RowsStay(t, steps);
  }

  /** A transition records its reason, counts no claim, and concerns its own row alone;
      the claim it presents is over. */
  lemma TransitionRecords(s: State, claim: Claim, transition: Transition, note: Option<string>, delay: int)
    requires Fenced(s.rows, s.now, claim)
    ensures var t, id := Apply(s, Present(claim, transition, note, delay)), claim.eventId;
            && |t.rows| == |s.rows| && t.now == s.now
            && (forall i :: 0 <= i < |s.rows| && i != id ==> t.rows[i] == s.rows[i])
            && t.rows[id].attempts == s.rows[id].attempts
            && t.rows[id].failures == s.rows[id].failures + (if transition == Fail then 1 else 0)
            && t.rows[id].lastError == (match transition
                                        case Release => note
                                        case Suspend => note
                                        case Fail => Some(if note.Some? then note.value else "")
                                        case Complete => s.rows[id].lastError)
            && t.rows[id].claimToken == None && t.rows[id].claimedBy == None && t.rows[id].claimExpiresAt == None
            && !Fenced(t.rows, t.now, claim)
  {}

  lemma {:induction false} RowsStay(s: State, steps: seq<Step>)
    requires Legal(s, steps)
    ensures |s.rows| <= |After(s, steps).rows|
    decreases |steps|
  {
    if steps != [] { RowsStay(Apply(s, steps[0]), steps[1..]); }
  }

  /** A row that is put away changes by the operator's step alone. */
  lemma {:induction false} RestsAlongRun(s: State, steps: seq<Step>, id: nat)
    requires Legal(s, steps) && id < |s.rows|
    requires match s.rows[id].status
             case Completed => true
             case Suspended => Resume(id) !in steps
             case DeadLettered => Redrive(id) !in steps
             case _ => false
    ensures id < |After(s, steps).rows| && After(s, steps).rows[id] == s.rows[id]
    decreases |steps|
  {
    if steps != [] {
      RestStays(s, steps[0], id);
      hide Apply, Enabled;
      RestsAlongRun(Apply(s, steps[0]), steps[1..], id);
    }
  }

  lemma RestStays(s: State, step: Step, id: nat)
    requires Enabled(s, step) && id < |s.rows|
    requires match s.rows[id].status
             case Completed => true
             case Suspended => step != Resume(id)
             case DeadLettered => step != Redrive(id)
             case _ => false
    ensures id < |Apply(s, step).rows| && Apply(s, step).rows[id] == s.rows[id]
  {}

  // ---- what a row is enqueued as ----

  /** The revision of a new row: the one given, else the payload's own unless it is
      negative, else zero. */
  ghost predicate RevisionIs(given: Option<int>, payload: Payload, revision: int) {
    match given
    case Some(r) => revision == r
    case None => if exists r :: r >= 0 && payload.revision == Some(r) then payload.revision == Some(revision)
                 else revision == 0
  }

  ghost predicate Logical(row: Row, eventType: string, aggregateId: string, revision: int) {
    row.eventType == eventType && row.aggregateId == aggregateId && row.revision == revision
  }

  lemma RevisionOf(given: Option<int>, payload: Payload, revision: int)
    ensures RevisionIs(given, payload, revision) <==> revision == Revision(given, payload)
  {
    if given.None? && payload.revision.Some? && payload.revision.value >= 0 {
      assert exists r :: r >= 0 && payload.revision == Some(r);
    }
  }

  /** Enqueueing is once and for all: a key that is in the table stays there on the row it
      has, with its first payload, and enqueueing it again changes nothing; a new key gets
      a fresh row with nothing claimed, counted or recorded yet. */
  lemma EnqueuedOnce(s: State, eventType: string, aggregateId: string, given: Option<int>, payload: Payload,
                     availableAt: Option<int>, revision: int)
    requires Inv(s) && RevisionIs(given, payload, revision)
    ensures var t := Apply(s, Enqueue(eventType, aggregateId, given, payload, availableAt));
            if exists row :: row in s.rows && Logical(row, eventType, aggregateId, revision) then t == s
            else
              && |t.rows| == |s.rows| + 1 && s.rows <= t.rows && t.history == s.history + [Created(|s.rows|)]
              && var row := t.rows[|s.rows|];
                 && Logical(row, eventType, aggregateId, revision) && row.payload == payload
                 && row.status == Pending && row.failures == 0 && row.attempts == 0
                 && {row.claimedBy, row.lastError} == {None} && {row.claimExpiresAt, row.completedAt} == {None}
                 && row.claimToken == None
  {
    RevisionOf(given, payload, revision);
    if row :| row in s.rows && Logical(row, eventType, aggregateId, revision) {
      var i :| 0 <= i < |s.rows| && s.rows[i] == row;
      assert Keyed(s.rows[i], eventType, aggregateId, revision);
    }
    if HasLogical(s.rows, eventType, aggregateId, revision) {
      var i :| 0 <= i < |s.rows| && Keyed(s.rows[i], eventType, aggregateId, revision);
      assert s.rows[i] in s.rows && Logical(s.rows[i], eventType, aggregateId, revision);
    }
  }

  lemma KeysStay(s: State, step: Step, id: nat)
    requires Enabled(s, step) && id < |s.rows|
    ensures id < |Apply(s, step).rows|
    ensures var row, now := s.rows[id], Apply(s, step).rows[id];
            Logical(now, row.eventType, row.aggregateId, row.revision) && now.payload == row.payload
  {}

  lemma {:induction false} KeysAreForever(s: State, steps: seq<Step>, id: nat)
    requires Legal(s, steps) && id < |s.rows|
    ensures id < |After(s, steps).rows|
    ensures var row, now := s.rows[id], After(s, steps).rows[id];
            Logical(now, row.eventType, row.aggregateId, row.revision) && now.payload == row.payload
    decreases |steps|
  {
    hide Apply, Enabled;
    if steps != [] {
      KeysStay(s, steps[0], id);
      KeysAreForever(Apply(s, steps[0]), steps[1..], id);
    }
  }

  /** A redrive makes the row what it was when it was enqueued, available at once. */
  lemma RedriveStartsAfresh(s: State, id: nat)
    requires Enabled(s, Redrive(id))
    ensures var row := s.rows[id];
            var enqueue := Enqueue(row.eventType, row.aggregateId, Some(row.revision), row.payload, None);
            var enqueued := Apply(Initial(s.now), enqueue);
            |enqueued.rows| == 1 && Apply(s, Redrive(id)).rows == s.rows[id := enqueued.rows[0]]
  {}

  // ---- what is claimed, and what is resumed ----

  /** A claim takes, of the pending rows whose time has come and that its filters
      admit, one whose time came first; none only when there is none. */
  lemma ClaimTakesOldest(s: State, step: Step)
    requires step.ClaimNext? && Enabled(s, step)
    ensures forall i :: 0 <= i < |s.rows| && s.rows[i].status == Pending && s.rows[i].availableAt <= s.now
                        && Admitted(s.rows[i], step.eventTypes, step.excluded) ==>
              step.candidate.Some? && step.candidate.value < |s.rows|
              && s.rows[step.candidate.value].availableAt <= s.rows[i].availableAt
    ensures step.candidate.Some? ==>
              && step.candidate.value < |s.rows|
              && var row := s.rows[step.candidate.value];
                 row.status == Pending && row.availableAt <= s.now && Admitted(row, step.eventTypes, step.excluded)
  {
    forall i | 0 <= i < |s.rows| && s.rows[i].status == Pending && s.rows[i].availableAt <= s.now
               && Admitted(s.rows[i], step.eventTypes, step.excluded)
      ensures Eligible(s.rows[i], s.now, step.eventTypes, step.excluded)
    {}
  }

  const UPPER := "ABCDEFGHIJKLMNOPQRSTUVWXYZ"
  const LOWER := "abcdefghijklmnopqrstuvwxyz"
  const DIGITS := "0123456789"

  /** Which keys and prefixes a resume accepts. */
  lemma ResumeAccepts(key: string, prefix: Option<string>)
    ensures ValidKey(key) <==>
              key != "" && forall c :: c in key ==> c in UPPER || c in LOWER || c in DIGITS || c == '_'
    ensures ValidPrefix(prefix) <==>
              forall p :: prefix == Some(p) ==> 1 <= |p| < 161 && '\r' !in p && '\n' !in p && '\0' !in p
  {
    hide UPPER, LOWER, DIGITS;
    forall c: char ensures 'A' <= c <= 'Z' <==> c in UPPER
                   ensures 'a' <= c <= 'z' <==> c in LOWER
                   ensures '0' <= c <= '9' <==> c in DIGITS
    {
      UpperCase(c);
      LowerCase(c);
      Digits(c);
    }
  }

  lemma UpperCase(c: char)
    ensures 'A' <= c <= 'Z' <==> c in UPPER
  {
    if 'A' <= c <= 'Z' { assert UPPER[c as int - 'A' as int] == c; }
  }

  lemma LowerCase(c: char)
    ensures 'a' <= c <= 'z' <==> c in LOWER
  {
    if 'a' <= c <= 'z' { assert LOWER[c as int - 'a' as int] == c; }
  }

  lemma Digits(c: char)
    ensures '0' <= c <= '9' <==> c in DIGITS
  {
    if '0' <= c <= '9' { assert DIGITS[c as int - '0' as int] == c; }
  }

  /** Which rows a resume asks for: suspended ones of its type whose payload has the
      value under the key, and whose recorded reason begins with the prefix, if one
      is given. */
  lemma ResumeAsks(row: Row, eventType: string, key: string, value: string, prefix: Option<string>)
    ensures Resumable(row, eventType, key, value, prefix) <==>
              && row.status == Suspended && row.eventType == eventType && (key, value) in row.payload.fields.Items
              && forall p :: prefix == Some(p) ==>
                   row.lastError.Some? && |p| <= |row.lastError.value| && row.lastError.value[..|p|] == p
  {}
}
