/** What became of each approval request, told from the operations that were made:
    how it was created, what a reviewer may decide, and which approval a call uses up. */
module ApprovalHistory {
  import opened Common
  import opened CodeUnits
  import opened ApprovalPaging

  // ---- a new request ----

  /** A request as it is created at a time: a choice to approve once or to deny when
      none are given; an expiry of a day after for a tool of a work session, and of ten
      minutes for any other tool, unless one is given. */
  ghost predicate Born(request: Request, at: int, row: Row) {
    && row.workspace == request.workspace && row.waiterKey == request.waiterKey && row.createdAt == at
    && (match request.origin
        case Some(origin) => row.origin == origin
        case None => row.origin == FromWorkSession <==> request.fromWorkSession)
    && (if |request.choices| > 0 then row.choices == request.choices
        else row.choices == [Choice("approve", Approve, Some(Once)), Choice("deny", Deny, None)])
    && (match request.expiresAt
        case Some(expiry) => row.expiresAt == Some(expiry)
        case None => if !request.tool then row.expiresAt == None
                     else row.expiresAt == Some(at + (if request.fromWorkSession then 24 * 3600 else 600) * 1000))
  }

  lemma CreatedIsBorn(request: Request, now: int)
    ensures Born(request, now, Created(request, now))
    ensures Created(request, now).status == Pending && !Created(request, now).consumed
  {}

  // ---- a decision ----

  /** The first choice with the id. */
  ghost predicate Offers(choices: seq<Choice>, id: string, choice: Choice) {
    exists n :: 0 <= n < |choices| && choices[n] == choice && choice.id == id
                && forall m :: 0 <= m < n ==> choices[m].id != id
  }

  lemma {:induction false} FoundIsOffered(choices: seq<Choice>, id: string, choice: Choice)
    ensures FindChoice(choices, id) == Some(choice) <==> Offers(choices, id, choice)
  {
    if choices != [] {
      if choices[0].id == id {
        assert Offers(choices, id, choice) <==> choice == choices[0];
      } else {
        FoundIsOffered(choices[1..], id, choice);
        if Offers(choices[1..], id, choice) {
          var n :| 0 <= n < |choices[1..]| && choices[1..][n] == choice && choice.id == id
            && forall m :: 0 <= m < n ==> choices[1..][m].id != id;
          assert choices[n + 1] == choice && forall m :: 1 <= m < n + 1 ==> choices[m] == choices[1..][m - 1];
        }
        if Offers(choices, id, choice) {
          var n :| 0 <= n < |choices| && choices[n] == choice && choice.id == id
            && forall m :: 0 <= m < n ==> choices[m].id != id;
          assert choices[1..][n - 1] == choice && forall m :: 0 <= m < n - 1 ==> choices[1..][m] == choices[m + 1];
        }
      }
    }
  }

  /** An approval of this choice, or a denial of it, asking for no effect or scope that
      the choice does not have. */
  ghost predicate Suits(d: Decision, choice: Choice) {
    || (d.status == Approved && choice.effect == Approve && d.effect in {None, Some(Approve)}
        && (d.scope == None || d.scope == choice.scope || (choice.scope == None && d.scope == Some(Once))))
    || (d.status == Denied && choice.effect == Deny && d.effect in {None, Some(Deny)})
    || (d.status == Denied && choice.effect == ChangesRequested && d.effect == Some(ChangesRequested))
  }

  /** Which decisions a pending request accepts, and what they grant: with a choice,
      that choice's own breadth, one execution if it names none; a denial, nothing. */
  lemma AcceptedIff(row: Row, d: Decision)
    ensures Checked(row, d).Some? <==>
              && d.status != Pending
              && (if d.optionId == "" then d.effect == None
                  else exists choice :: Offers(row.choices, d.optionId, choice) && Suits(d, choice))
    ensures Checked(row, d).Some? ==>
              && Checked(row, d).value.optionId == d.optionId && Checked(row, d).value.effect == d.effect
              && (d.optionId == "" ==> Checked(row, d).value.scope == d.scope)
              && (d.optionId != "" && d.status == Denied ==> Checked(row, d).value.scope == None)
              && (d.optionId != "" && d.status == Approved ==>
                    forall choice :: Offers(row.choices, d.optionId, choice) ==>
                      if choice.scope == None then Checked(row, d).value.scope == Some(Once)
                      else Checked(row, d).value.scope == choice.scope)
  {
    hide Offers, FindChoice;
    forall choice ensures FindChoice(row.choices, d.optionId) == Some(choice) <==>
                          Offers(row.choices, d.optionId, choice)
    {
      FoundIsOffered(row.choices, d.optionId, choice);
    }
    if FindChoice(row.choices, d.optionId).Some? {
      assert Offers(row.choices, d.optionId, FindChoice(row.choices, d.optionId).value);
    }
  }

  /** The decision approves a request with these choices for one execution. */
  ghost predicate GrantsOnce(choices: seq<Choice>, d: Decision) {
    && d.status == Approved
    && if d.optionId == "" then d.scope == Some(Once)
       else exists choice :: Offers(choices, d.optionId, choice) && choice.scope in {None, Some(Once)}
  }

  lemma OnceIsGranted(row: Row, d: Decision)
    requires Checked(row, d).Some?
    ensures d.status == Approved && Checked(row, d).value.scope == Some(Once) <==> GrantsOnce(row.choices, d)
  {
    AcceptedIff(row, d);
    hide Checked, Suits, Offers;
    if d.status == Approved && d.optionId != "" {
      var choice :| Offers(row.choices, d.optionId, choice) && Suits(d, choice);
      forall other | Offers(row.choices, d.optionId, other) ensures other == choice {
        OneOffer(row.choices, d.optionId, choice, other);
      }
    }
  }

  lemma OneOffer(choices: seq<Choice>, id: string, a: Choice, b: Choice)
    requires Offers(choices, id, a) && Offers(choices, id, b)
    ensures a == b
  {
    FoundIsOffered(choices, id, a);
    FoundIsOffered(choices, id, b);
  }

  // ---- what happened, and when ----

  datatype Entry = Entry(at: int, step: Step)

  /** The operations of a run with the time of each. */
  ghost function Story(s: State, steps: seq<Step>): seq<Entry>
    requires Legal(s, steps)
    decreases |steps|
  {
    if steps == [] then [] else [Entry(s.now, steps[0])] + Story(Apply(s, steps[0]), steps[1..])
  }

  lemma {:induction false} StoryIsOfSteps(s: State, steps: seq<Step>)
    requires Legal(s, steps)
    ensures |Story(s, steps)| == |steps| && forall i :: 0 <= i < |steps| ==> Story(s, steps)[i].step == steps[i]
    decreases |steps|
  {
    hide Apply, Enabled;
    if steps != [] { StoryIsOfSteps(Apply(s, steps[0]), steps[1..]); }
  }

  ghost predicate CreatedAt(story: seq<Entry>, i: int, id: Text) {
    0 <= i < |story| && story[i].step.Create? && story[i].step.id == id
  }

  ghost predicate DecidedAt(story: seq<Entry>, j: int, id: Text) {
    0 <= j < |story| && story[j].step.Decide? && story[j].step.id == id
  }

  ghost predicate ConsumedAt(story: seq<Entry>, k: int, id: Text) {
    0 <= k < |story| && story[k].step.Consume? && story[k].step.picked == Some(id)
  }

  /** The row was created at `i`, as the request of that step asks. */
  ghost predicate BornAt(story: seq<Entry>, i: int, id: Text, row: Row) {
    CreatedAt(story, i, id) && Born(story[i].step.request, story[i].at, row)
  }

  /** The row was decided at `j`: this tells its status, when, and whether it allows one execution. */
  ghost predicate SettledAt(story: seq<Entry>, j: int, id: Text, row: Row) {
    && DecidedAt(story, j, id)
    && row.status == story[j].step.decision.status && row.resolvedAt == story[j].at
    && (row.status == Approved && row.resolution.scope == Some(Once)
        <==> GrantsOnce(row.choices, story[j].step.decision))
  }

  /** The row was used up at `k`, by a call with the key it was created with. */
  ghost predicate UsedAt(story: seq<Entry>, k: int, id: Text, row: Row) {
    && ConsumedAt(story, k, id) && row.waiterKey == Some(story[k].step.waiterKey)
    && row.status == Approved && row.resolution.scope == Some(Once)
  }

  /** The steps that concern a row, and what they made of it: created at `i`, decided at
      `j` if it was decided, and used up at `k` if it was. */
  ghost predicate Life(story: seq<Entry>, id: Text, row: Row, i: int, j: Option<int>, k: Option<int>) {
    && BornAt(story, i, id, row)
    && (forall n :: CreatedAt(story, n, id) ==> n == i)
    && (forall n :: DecidedAt(story, n, id) ==> j == Some(n))
    && (forall n :: ConsumedAt(story, n, id) ==> k == Some(n))
    && (if j.Some? then i < j.value && SettledAt(story, j.value, id, row) && row.status != Pending
        else row.status in {Pending, ExpiredStatus})
    && (if k.Some? then j.Some? && j.value < k.value && UsedAt(story, k.value, id, row) && row.consumed
        else !row.consumed)
  }

  ghost predicate Untouched(story: seq<Entry>, id: Text) {
    forall n :: !CreatedAt(story, n, id) && !DecidedAt(story, n, id) && !ConsumedAt(story, n, id)
  }

  ghost predicate IdTold(rows: Table, story: seq<Entry>, id: Text) {
    if id in rows then exists i, j, k :: Life(story, id, rows[id], i, j, k) else Untouched(story, id)
  }

  ghost predicate Told(s: State, story: seq<Entry>) {
    forall id :: IdTold(s.rows, story, id)
  }

  lemma Appended(story: seq<Entry>, entry: Entry, grown: seq<Entry>, id: Text)
    requires grown == story + [entry]
    ensures forall n :: CreatedAt(grown, n, id) <==>
                        CreatedAt(story, n, id) || (n == |story| && entry.step.Create? && entry.step.id == id)
    ensures forall n :: DecidedAt(grown, n, id) <==>
                        DecidedAt(story, n, id) || (n == |story| && entry.step.Decide? && entry.step.id == id)
    ensures forall n :: ConsumedAt(grown, n, id) <==>
                        ConsumedAt(story, n, id)
                        || (n == |story| && entry.step.Consume? && entry.step.picked == Some(id))
    ensures forall n :: 0 <= n < |story| ==> grown[n] == story[n]
  {}

  /** A step about other rows; the row is as it was, or has lapsed. */
  lemma OthersTold(rows: Table, story: seq<Entry>, entry: Entry, rows': Table, id: Text)
    requires IdTold(rows, story, id)
    requires !(entry.step.Create? && entry.step.id == id) && !(entry.step.Decide? && entry.step.id == id)
    requires !(entry.step.Consume? && entry.step.picked == Some(id))
    requires id in rows' <==> id in rows
    requires id in rows ==> rows'[id] == rows[id]
                            || (rows[id].status == Pending && exists at :: rows'[id] == Timeout(rows[id], at))
    ensures IdTold(rows', story + [entry], id)
  {
    hide Born, GrantsOnce;
    var grown := story + [entry];
    Appended(story, entry, grown, id);
    if id in rows {
      var i, j, k :| Life(story, id, rows[id], i, j, k);
      if rows'[id] != rows[id] { LapsedIsBorn(story[i].step.request, story[i].at, rows[id], rows'[id]); }
      assert Life(grown, id, rows'[id], i, j, k);
    }
  }

  lemma LapsedIsBorn(request: Request, at: int, row: Row, lapsed: Row)
    requires Born(request, at, row) && exists t :: lapsed == Timeout(row, t)
    ensures Born(request, at, lapsed)
  {}

  lemma CreateTold(s: State, story: seq<Entry>, id: Text, request: Request)
    requires Told(s, story) && Enabled(s, Create(id, request))
    ensures IdTold(Apply(s, Create(id, request)).rows, story + [Entry(s.now, Create(id, request))], id)
  {
    hide Born, GrantsOnce, Created;
    var entry := Entry(s.now, Create(id, request));
    var grown := story + [entry];
    assert IdTold(s.rows, story, id);
    Appended(story, entry, grown, id);
    CreatedIsBorn(request, s.now);
    var row := Apply(s, Create(id, request)).rows[id];
    assert CreatedAt(grown, |story|, id);
    assert Life(grown, id, row, |story|, None, None);
  }

  lemma DecideTold(s: State, story: seq<Entry>, id: Text, d: Decision)
    requires Told(s, story) && Enabled(s, Decide(id, d))
    ensures IdTold(Apply(s, Decide(id, d)).rows, story + [Entry(s.now, Decide(id, d))], id)
  {
    hide GrantsOnce, Checked;
    var entry := Entry(s.now, Decide(id, d));
    var grown := story + [entry];
    assert IdTold(s.rows, story, id);
    Appended(story, entry, grown, id);
    var i, j, k :| Life(story, id, s.rows[id], i, j, k);
    OnceIsGranted(s.rows[id], d);
    AcceptedIff(s.rows[id], d);
    var row := Apply(s, Decide(id, d)).rows[id];
    assert DecidedAt(grown, |story|, id);
    assert SettledAt(grown, |story|, id, row);
    assert BornAt(grown, i, id, row);
    assert Life(grown, id, row, i, Some(|story|), None);
  }

  lemma ConsumeTold(s: State, story: seq<Entry>, waiterKey: string, id: Text)
    requires Told(s, story) && Enabled(s, Consume(waiterKey, Some(id)))
    ensures IdTold(Apply(s, Consume(waiterKey, Some(id))).rows,
                   story + [Entry(s.now, Consume(waiterKey, Some(id)))], id)
  {
    hide GrantsOnce;
    var entry := Entry(s.now, Consume(waiterKey, Some(id)));
    var grown := story + [entry];
    assert IdTold(s.rows, story, id);
    Appended(story, entry, grown, id);
    var i, j, k :| Life(story, id, s.rows[id], i, j, k);
    var row := Apply(s, Consume(waiterKey, Some(id))).rows[id];
    assert ConsumedAt(grown, |story|, id);
    assert BornAt(grown, i, id, row);
    assert Life(grown, id, row, i, j, Some(|story|));
  }

  lemma StepTold(s: State, story: seq<Entry>, step: Step)
    requires Told(s, story) && Enabled(s, step)
    ensures Told(Apply(s, step), story + [Entry(s.now, step)])
  {
    hide IdTold;
    var t, entry := Apply(s, step), Entry(s.now, step);
    forall id ensures IdTold(t.rows, story + [entry], id) {
      assert IdTold(s.rows, story, id);
      if step.Create? && step.id == id {
        CreateTold(s, story, id, step.request);
      } else if step.Decide? && step.id == id {
        DecideTold(s, story, id, step.decision);
      } else if step.Consume? && step.picked == Some(id) {
        ConsumeTold(s, story, step.waiterKey, id);
      } else {
        OthersChange(s, step, id);
        OthersTold(s.rows, story, entry, t.rows, id);
      }
    }
  }

  lemma OthersChange(s: State, step: Step, id: Text)
    requires Enabled(s, step)
    requires !(step.Create? && step.id == id) && !(step.Decide? && step.id == id)
    requires !(step.Consume? && step.picked == Some(id))
    ensures var t := Apply(s, step);
            && (id in t.rows <==> id in s.rows)
            && (id in s.rows ==>
                  || t.rows[id] == s.rows[id]
                  || (s.rows[id].status == Pending && exists at :: t.rows[id] == Timeout(s.rows[id], at)))
  {}

  lemma {:induction false} ToldAlongRun(s: State, story: seq<Entry>, steps: seq<Step>)
    requires Told(s, story) && Legal(s, steps)
    ensures Told(After(s, steps), story + Story(s, steps))
    decreases |steps|
  {
    hide Told, Apply, Enabled;
    if steps == [] {
      assert story + [] == story;
    } else {
      var entry, t := Entry(s.now, steps[0]), Apply(s, steps[0]);
      StepTold(s, story, steps[0]);
      ToldAlongRun(t, story + [entry], steps[1..]);
      Assoc(story, [entry], Story(t, steps[1..]));
    }
  }

  // ---- which approval a call uses up ----

  ghost predicate OnceApproved(created: Entry, decided: Entry, waiterKey: string)
    requires created.step.Create? && decided.step.Decide?
  {
    && created.step.request.waiterKey == Some(waiterKey)
    && exists row :: Born(created.step.request, created.at, row) && GrantsOnce(row.choices, decided.step.decision)
  }

  /** The request was created with the key and then, at `j`, approved for one execution. */
  ghost predicate EarnedAt(story: seq<Entry>, j: int, id: Text, waiterKey: string) {
    && DecidedAt(story, j, id)
    && exists i :: i < j && CreatedAt(story, i, id) && OnceApproved(story[i], story[j], waiterKey)
  }

  ghost predicate NotUsed(story: seq<Entry>, id: Text) {
    forall k :: !ConsumedAt(story, k, id)
  }

  lemma ConsumableIs(rows: Table, story: seq<Entry>, id: Text, waiterKey: string)
    requires IdTold(rows, story, id)
    ensures id in rows && Consumable(rows[id], waiterKey) <==>
              NotUsed(story, id) && exists j :: EarnedAt(story, j, id, waiterKey)
    ensures forall j :: id in rows && EarnedAt(story, j, id, waiterKey) ==> rows[id].resolvedAt == story[j].at
  {
    hide GrantsOnce, Born;
    if id in rows {
      var i, j, k :| Life(story, id, rows[id], i, j, k);
      assert CreatedAt(story, i, id);
      forall n | EarnedAt(story, n, id, waiterKey)
        ensures j == Some(n) && OnceApproved(story[i], story[n], waiterKey)
      {
        var m :| m < n && CreatedAt(story, m, id) && OnceApproved(story[m], story[n], waiterKey);
      }
      if j.Some? {
        EarnedIs(story[i], story[j.value], rows[id], waiterKey);
        assert EarnedAt(story, j.value, id, waiterKey) <==> OnceApproved(story[i], story[j.value], waiterKey);
      }
      if k.Some? { assert ConsumedAt(story, k.value, id); }
    }
  }

  lemma EarnedIs(created: Entry, decided: Entry, row: Row, waiterKey: string)
    requires created.step.Create? && decided.step.Decide? && Born(created.step.request, created.at, row)
    ensures OnceApproved(created, decided, waiterKey) <==>
              row.waiterKey == Some(waiterKey) && GrantsOnce(row.choices, decided.step.decision)
  {
    hide GrantsOnce;
  }

  /** Over every run from an empty table: a call uses up a request only if the request
      was created with the call's key and later approved for one execution, and no
      request is used up twice. A call is refused exactly when every request created
      with its key and approved for one execution has been used up; otherwise it takes
      one that was approved last. */
  lemma ConsumptionIsEarned(now: int, steps: seq<Step>)
    requires Legal(State(map[], now), steps)
    ensures var s, story := After(State(map[], now), steps), Story(State(map[], now), steps);
            && |story| == |steps| && (forall n :: 0 <= n < |steps| ==> story[n].step == steps[n])
            && (forall k, id :: ConsumedAt(story, k, id) ==>
                  && (exists j :: j < k && EarnedAt(story, j, id, steps[k].waiterKey))
                  && forall n :: ConsumedAt(story, n, id) ==> n == k)
            && (forall waiterKey :: Enabled(s, Consume(waiterKey, None)) <==>
                  forall id, j :: EarnedAt(story, j, id, waiterKey) ==> !NotUsed(story, id))
            && (forall waiterKey, id :: Enabled(s, Consume(waiterKey, Some(id))) ==>
                  NotUsed(story, id)
                  && exists j :: EarnedAt(story, j, id, waiterKey)
                                 && forall other, n :: EarnedAt(story, n, other, waiterKey) && NotUsed(story, other) ==>
                                      story[n].at <= story[j].at)
  {
    var first := State(map[], now);
    ToldAlongRun(first, [], steps);
    LeftUnit(Story(first, steps));
    StoryIsOfSteps(first, steps);
    var s, story := After(first, steps), Story(first, steps);
    forall k, id | ConsumedAt(story, k, id)
      ensures (exists j :: j < k && EarnedAt(story, j, id, steps[k].waiterKey))
              && forall n :: ConsumedAt(story, n, id) ==> n == k
    {
      assert IdTold(s.rows, story, id);
      UsedIsEarned(s.rows, story, id, k);
    }
    forall waiterKey
      ensures Enabled(s, Consume(waiterKey, None)) <==>
              forall id, j :: EarnedAt(story, j, id, waiterKey) ==> !NotUsed(story, id)
    {
      RefusedIs(s, story, waiterKey);
    }
    forall waiterKey, id | Enabled(s, Consume(waiterKey, Some(id)))
      ensures NotUsed(story, id)
              && exists j :: EarnedAt(story, j, id, waiterKey)
                             && forall other, n :: EarnedAt(story, n, other, waiterKey) && NotUsed(story, other) ==>
                                  story[n].at <= story[j].at
    {
      TakenIs(s, story, waiterKey, id);
    }
  }

  lemma UsedIsEarned(rows: Table, story: seq<Entry>, id: Text, k: int)
    requires IdTold(rows, story, id) && ConsumedAt(story, k, id)
    ensures exists j :: j < k && EarnedAt(story, j, id, story[k].step.waiterKey)
    ensures forall n :: ConsumedAt(story, n, id) ==> n == k
  {
    hide GrantsOnce, Born;
    var i, j, m :| Life(story, id, rows[id], i, j, m);
    EarnedIs(story[i], story[j.value], rows[id], story[k].step.waiterKey);
    assert EarnedAt(story, j.value, id, story[k].step.waiterKey);
  }

  lemma RefusedIs(s: State, story: seq<Entry>, waiterKey: string)
    requires Told(s, story)
    ensures Enabled(s, Consume(waiterKey, None)) <==>
            forall id, j :: EarnedAt(story, j, id, waiterKey) ==> !NotUsed(story, id)
  {
    hide IdTold, EarnedAt, NotUsed, Consumable;
    forall id ensures id in s.rows && Consumable(s.rows[id], waiterKey) <==>
                      NotUsed(story, id) && exists j :: EarnedAt(story, j, id, waiterKey)
    {
      ConsumableIs(s.rows, story, id, waiterKey);
    }
  }

  lemma TakenIs(s: State, story: seq<Entry>, waiterKey: string, id: Text)
    requires Told(s, story) && Enabled(s, Consume(waiterKey, Some(id)))
    ensures NotUsed(story, id)
            && exists j :: EarnedAt(story, j, id, waiterKey)
                           && forall other, n :: EarnedAt(story, n, other, waiterKey) && NotUsed(story, other) ==>
                                story[n].at <= story[j].at
  {
    hide IdTold, NotUsed, Consumable, OnceApproved;
    assert IdTold(s.rows, story, id);
    ConsumableIs(s.rows, story, id, waiterKey);
    var j :| EarnedAt(story, j, id, waiterKey);
    forall other, n | EarnedAt(story, n, other, waiterKey) && NotUsed(story, other)
      ensures story[n].at <= story[j].at
    {
      assert IdTold(s.rows, story, other);
      ConsumableIs(s.rows, story, other, waiterKey);
    }
  }

  // ---- expiry, and the order of the listings ----

  /** A pending request lapses from the moment of its expiry on, and never without one. */
  lemma LapsesFromExpiry(s: State, at: int, id: Text)
    requires id in s.rows
    ensures Enabled(s, Expire(at, {id})) <==>
            s.rows[id].status == Pending && exists expiry :: s.rows[id].expiresAt == Some(expiry) && expiry <= at
  {
    if Enabled(s, Expire(at, {id})) { assert id in {id}; }
    if s.rows[id].expiresAt.Some? { assert exists expiry :: s.rows[id].expiresAt == Some(expiry); }
  }

  /** Of two rows with an expiry, the one that expired first lapses first, and of two
      that expired together, the one with the lesser id. */
  lemma LapsesInOrder(row: Row, id: Text, other: Row, otherId: Text, expiry: int, otherExpiry: int)
    requires row.expiresAt == Some(expiry) && other.expiresAt == Some(otherExpiry)
    requires Below(LapseKey(row, id), LapseKey(other, otherId))
    ensures expiry <= otherExpiry && (expiry == otherExpiry ==> Less(id, otherId))
  {}

  /** A listing shows the newest first, and of two created together the greater id. */
  lemma NewestFirst(keys: seq<Key>)
    ensures Descending(keys) <==>
            forall i, j :: 0 <= i < j < |keys| ==>
              keys[j].createdAt <= keys[i].createdAt
              && (keys[i].createdAt == keys[j].createdAt ==> Less(keys[j].id, keys[i].id))
  {}

  /** What a page may list: pending rows under their own creation time, of the
      workspace and of the origin asked for, created before the cursor or together
      with it under a lesser id. */
  lemma MatchMeans(rows: Table, filter: Filter, before: Option<Key>, key: Key)
    ensures Match(rows, filter, before, key) <==>
            && key.id in rows
            && rows[key.id].status == Pending && rows[key.id].createdAt == key.createdAt
            && filter.workspace in {None, Some(rows[key.id].workspace)}
            && filter.origin in {None, Some(rows[key.id].origin)}
            && (before == None
                || key.createdAt < before.value.createdAt
                || (key.createdAt == before.value.createdAt && Less(key.id, before.value.id)))
  {}
}
