/** Approval requests (src/approval-requests.ts): rows that are created, decided,
    expired and consumed in place, and the keyset paging over the pending ones.
    Each SQL statement is one step; time is read from a clock that never goes back. */
module ApprovalPaging {
  import opened Common
  import opened CodeUnits

  datatype Status = Pending | Approved | Denied | ExpiredStatus | Cancelled
  datatype Effect = Approve | Deny | ChangesRequested
  datatype Scope = Once | WorkSession | Workspace
  datatype Origin = DirectMcp | FromWorkSession

  datatype Choice = Choice(id: string, effect: Effect, scope: Option<Scope>)

  datatype Resolution = Resolution(optionId: string, effect: Option<Effect>, scope: Option<Scope>)

  datatype Row = Row(
    workspace: string, origin: Origin, waiterKey: Option<string>, choices: seq<Choice>,
    status: Status, createdAt: int, expiresAt: Option<int>,
    resolvedAt: int, resolution: Resolution, consumed: bool)

  datatype Request = Request(
    workspace: string, fromWorkSession: bool, tool: bool, origin: Option<Origin>,
    waiterKey: Option<string>, choices: seq<Choice>, expiresAt: Option<int>)

  type Table = map<Text, Row>

  datatype State = State(rows: Table, now: int)

  const UNRESOLVED := Resolution("", None, None)
  const DEFAULT_CHOICES := [Choice("approve", Approve, Some(Once)), Choice("deny", Deny, None)]
  const DIRECT_TTL_MS := 600000
  const WORK_SESSION_TTL_MS := 86400000

  // ---- ordering ----

  /** The sort key of a request, which `nextBefore` hands back as the cursor. */
  datatype Key = Key(createdAt: int, id: Text)

  predicate Below(a: Key, b: Key) {
    a.createdAt < b.createdAt || (a.createdAt == b.createdAt && Less(a.id, b.id))
  }

  lemma BelowIsTotal(a: Key, b: Key)
    ensures a == b || Below(a, b) || Below(b, a)
    ensures !(Below(a, b) && Below(b, a)) && !Below(a, a)
  {
    LessIsTotal(a.id, b.id);
    LessIsTotal(a.id, a.id);
  }

  lemma BelowIsTransitive(a: Key, b: Key, c: Key)
    requires Below(a, b) && Below(b, c)
    ensures Below(a, c)
  {
    if a.createdAt == b.createdAt == c.createdAt { LessIsTransitive(a.id, b.id, c.id); }
  }

  ghost predicate Descending(keys: seq<Key>) {
    forall i, j :: 0 <= i < j < |keys| ==> Below(keys[j], keys[i])
  }

  // ---- rows ----

  function Created(request: Request, now: int): Row {
    var origin := if request.origin.Some? then request.origin.value
      else if request.fromWorkSession then FromWorkSession else DirectMcp;
    var expiresAt :=
      if request.expiresAt.Some? then request.expiresAt
      else if request.tool then Some(now + (if request.fromWorkSession then WORK_SESSION_TTL_MS else DIRECT_TTL_MS))
      else None;
    var choices := if request.choices == [] then DEFAULT_CHOICES else request.choices;
    Row(request.workspace, origin, request.waiterKey, choices,
        Pending, now, expiresAt, 0, UNRESOLVED, false)
  }

  predicate Lapsed(row: Row, at: int) {
    row.status == Pending && row.expiresAt.Some? && row.expiresAt.value <= at
  }

  /** Lapsed rows are taken by expiry, then id. */
  function LapseKey(row: Row, id: Text): Key {
    Key(if row.expiresAt.Some? then row.expiresAt.value else 0, id)
  }

  function Timeout(row: Row, at: int): Row {
    row.(status := ExpiredStatus, resolvedAt := at, resolution := UNRESOLVED)
  }

  /** A human decision as it is presented; an absent option is the empty string. */
  datatype Decision = Decision(status: Status, optionId: string, effect: Option<Effect>, scope: Option<Scope>)

  function FindChoice(choices: seq<Choice>, id: string): Option<Choice> {
    if choices == [] then None else if choices[0].id == id then Some(choices[0]) else FindChoice(choices[1..], id)
  }

  function DeclaredScope(choice: Choice): Scope {
    if choice.scope.Some? then choice.scope.value else Once
  }

  function ExpectedEffect(d: Decision): Effect {
    if d.effect.Some? then d.effect.value else if d.status == Approved then Approve else Deny
  }

  /** The checks of `resolve` on a pending row: the resolution to store, or an error. */
  function Checked(row: Row, d: Decision): Option<Resolution> {
    if d.status == Pending then None
    else if d.optionId == "" then if d.effect.Some? then None else Some(Resolution("", None, d.scope))
    else
      var choice := FindChoice(row.choices, d.optionId);
      if choice.None? then None
      else if d.status == Approved && choice.value.effect != Approve then None
      else if d.status == Denied && choice.value.effect == Approve then None
      else if d.status == ExpiredStatus || d.status == Cancelled then None
      else if choice.value.effect != ExpectedEffect(d) then None
      else if d.status == Denied then Some(Resolution(d.optionId, d.effect, None))
      else if d.scope.Some? && d.scope.value != DeclaredScope(choice.value) then None
      else Some(Resolution(d.optionId, d.effect, Some(DeclaredScope(choice.value))))
  }

  predicate Consumable(row: Row, waiterKey: string) {
    row.waiterKey == Some(waiterKey) && row.status == Approved && !row.consumed && row.resolution.scope == Some(Once)
  }

  // ---- steps ----

  datatype Step =
    | Wait(until: int)
    | Create(id: Text, request: Request)
    | Expire(at: int, ids: set<Text>)
    | Decide(id: Text, decision: Decision)
    | Consume(waiterKey: string, picked: Option<Text>)

  predicate Enabled(s: State, step: Step) {
    match step
    case Wait(until) => s.now <= until
    case Create(id, _) => id !in s.rows
    case Expire(at, ids) => forall id :: id in ids ==> id in s.rows && Lapsed(s.rows[id], at)
    case Decide(id, decision) => id in s.rows && s.rows[id].status == Pending && Checked(s.rows[id], decision).Some?
    case Consume(waiterKey, picked) =>
      if picked.Some? then
        && picked.value in s.rows && Consumable(s.rows[picked.value], waiterKey)
        && forall id :: id in s.rows && Consumable(s.rows[id], waiterKey) ==>
             s.rows[id].resolvedAt <= s.rows[picked.value].resolvedAt
      else forall id :: id in s.rows ==> !Consumable(s.rows[id], waiterKey)
  }

  function Decided(row: Row, decision: Decision, now: int): Row
    requires Checked(row, decision).Some?
  {
    row.(status := decision.status, resolvedAt := now, resolution := Checked(row, decision).value)
  }

  function Apply(s: State, step: Step): State
    requires Enabled(s, step)
  {
    match step
    case Wait(until) => s.(now := until)
    case Create(id, request) => s.(rows := s.rows[id := Created(request, s.now)])
    case Expire(at, ids) =>
      s.(rows := map id | id in s.rows :: if id in ids then Timeout(s.rows[id], at) else s.rows[id])
    case Decide(id, decision) => s.(rows := s.rows[id := Decided(s.rows[id], decision, s.now)])
    case Consume(_, picked) =>
      if picked.None? then s else s.(rows := s.rows[picked.value := s.rows[picked.value].(consumed := true)])
  }

  ghost predicate Legal(s: State, steps: seq<Step>)
    decreases |steps|
  {
    steps != [] ==> Enabled(s, steps[0]) && Legal(Apply(s, steps[0]), steps[1..])
  }

  ghost function After(s: State, steps: seq<Step>): State
    requires Legal(s, steps)
    decreases |steps|
  {
    if steps == [] then s else After(Apply(s, steps[0]), steps[1..])
  }

  // ---- a page ----

  datatype Filter = Filter(workspace: Option<string>, origin: Option<Origin>)

  predicate Wanted(row: Row, filter: Filter) {
    && row.status == Pending
    && (filter.workspace.Some? ==> row.workspace == filter.workspace.value)
    && (filter.origin.Some? ==> row.origin == filter.origin.value)
  }

  predicate Match(rows: Table, filter: Filter, before: Option<Key>, key: Key) {
    && key.id in rows && rows[key.id].createdAt == key.createdAt
    && Wanted(rows[key.id], filter)
    && (before.Some? ==> Below(key, before.value))
  }

  /** The greatest matches below the cursor, in descending order, and whether any are left. */
  ghost predicate IsPage(rows: Table, filter: Filter, before: Option<Key>, limit: int, page: seq<Key>, hasMore: bool) {
    && Descending(page) && |page| <= Clamp(limit)
    && (forall key :: key in page ==> Match(rows, filter, before, key))
    && (forall key, listed :: Match(rows, filter, before, key) && key !in page && listed in page ==> Below(key, listed))
    && (hasMore <==> exists key :: Match(rows, filter, before, key) && key !in page)
    && (hasMore ==> |page| == Clamp(limit))
  }

  // ---- following the cursor while the table changes ----

  datatype Visit = Visit(state: State, limit: int, page: seq<Key>, hasMore: bool)

  function Last(page: seq<Key>): Option<Key> {
    if page == [] then None else Some(page[|page| - 1])
  }

  /** Each page starts where the one before it said; the client stops only when no more is promised. */
  ghost predicate Follows(visits: seq<Visit>, filter: Filter, before: Option<Key>)
    decreases |visits|
  {
    && visits != []
    && IsPage(visits[0].state.rows, filter, before, visits[0].limit, visits[0].page, visits[0].hasMore)
    && (|visits| > 1 ==> visits[0].hasMore && Follows(visits[1..], filter, Last(visits[0].page)))
  }

  /** Arbitrary operations run between two pages. */
  ghost predicate Interleaved(visits: seq<Visit>, runs: seq<seq<Step>>) {
    && |visits| == |runs| + 1
    && forall i :: 0 <= i < |runs| ==> Legal(visits[i].state, runs[i])
                                         && visits[i + 1].state == After(visits[i].state, runs[i])
  }

  function Listed(visits: seq<Visit>): seq<Key> {
    if visits == [] then [] else visits[0].page + Listed(visits[1..])
  }

  /** What no operation changes: the row exists, with its sort key and its filter columns. */
  ghost predicate Evolved(a: Table, b: Table) {
    forall id :: id in a ==>
      id in b && b[id].createdAt == a[id].createdAt && b[id].workspace == a[id].workspace
        && b[id].origin == a[id].origin
  }

  lemma {:induction false} RunEvolves(s: State, steps: seq<Step>)
    requires Legal(s, steps)
    ensures Evolved(s.rows, After(s, steps).rows)
    decreases |steps|
  {
    if steps != [] {
      assert Evolved(s.rows, Apply(s, steps[0]).rows);
      RunEvolves(Apply(s, steps[0]), steps[1..]);
    }
  }

  ghost predicate MatchesThroughout(visits: seq<Visit>, filter: Filter, before: Option<Key>, key: Key) {
    forall i :: 0 <= i < |visits| ==> Match(visits[i].state.rows, filter, before, key)
  }

  /** Pages that follow each other descend, stay below the cursor they started
      from, and leave out nothing that matched all along. */
  lemma {:induction false} PagesJoin(visits: seq<Visit>, filter: Filter, before: Option<Key>)
    requires Follows(visits, filter, before)
    ensures Descending(Listed(visits))
    ensures before.Some? ==> forall key :: key in Listed(visits) ==> Below(key, before.value)
    ensures !visits[|visits| - 1].hasMore ==> forall key :: MatchesThroughout(visits, filter, before, key) ==>
                                                key in Listed(visits)
    decreases |visits|
  {
    var page, rest := visits[0].page, visits[1..];
    if |visits| == 1 {
      assert Listed(visits) == page;
    } else {
      var cursor := Last(page).value;
      PagesJoin(rest, filter, Some(cursor));
      forall i, j | 0 <= i < |page| && 0 <= j < |Listed(rest)| ensures Below(Listed(rest)[j], page[i]) {
        if i < |page| - 1 { BelowIsTransitive(Listed(rest)[j], cursor, page[i]); }
      }
      if before.Some? {
        assert cursor in page && Match(visits[0].state.rows, filter, before, cursor);
        forall key | key in Listed(rest) ensures Below(key, before.value) {
          BelowIsTransitive(key, cursor, before.value);
        }
      }
      forall key | MatchesThroughout(visits, filter, before, key) && key !in page && !visits[|visits| - 1].hasMore
        ensures key in Listed(rest)
      {
        assert Match(visits[0].state.rows, filter, before, key);
        assert Below(key, cursor);
        forall i | 0 <= i < |rest| ensures Match(rest[i].state.rows, filter, Some(cursor), key) {
          assert rest[i] == visits[i + 1];
        }
        assert MatchesThroughout(rest, filter, Some(cursor), key);
      }
    }
  }

  lemma {:induction false} VisitsEvolve(visits: seq<Visit>, runs: seq<seq<Step>>, i: nat, j: nat)
    requires Interleaved(visits, runs) && i <= j < |visits|
    ensures Evolved(visits[i].state.rows, visits[j].state.rows)
    decreases j - i
  {
    if i < j {
      VisitsEvolve(visits, runs, i, j - 1);
      RunEvolves(visits[j - 1].state, runs[j - 1]);
    }
  }

  ghost predicate PendingThroughout(visits: seq<Visit>, filter: Filter, id: Text) {
    forall i :: 0 <= i < |visits| ==> id in visits[i].state.rows && Wanted(visits[i].state.rows[id], filter)
  }

  lemma {:induction false} ListedOnSomePage(visits: seq<Visit>, key: Key)
    requires key in Listed(visits)
    ensures exists i :: 0 <= i < |visits| && key in visits[i].page
    decreases |visits|
  {
    if key !in visits[0].page {
      ListedOnSomePage(visits[1..], key);
      var i :| 0 <= i < |visits[1..]| && key in visits[1..][i].page;
      assert key in visits[i + 1].page;
    }
  }

  lemma {:induction false} FollowedPage(visits: seq<Visit>, filter: Filter, before: Option<Key>, i: nat)
    requires Follows(visits, filter, before) && i < |visits|
    ensures forall key :: key in visits[i].page ==>
              key.id in visits[i].state.rows && visits[i].state.rows[key.id].createdAt == key.createdAt
    decreases |visits|
  {
    if i > 0 {
      FollowedPage(visits[1..], filter, Last(visits[0].page), i - 1);
      assert visits[1..][i - 1] == visits[i];
    }
  }

  /** Following `nextBefore` from the first page to the last, whatever limits are
      asked for and whatever is created, decided, expired or consumed between
      pages: the listing is strictly descending, lists no request twice, and
      lists every request that stays pending throughout. */
  lemma PagingIsComplete(visits: seq<Visit>, runs: seq<seq<Step>>, filter: Filter)
    requires Follows(visits, filter, None) && Interleaved(visits, runs)
    ensures Descending(Listed(visits))
    ensures forall i, j :: 0 <= i < j < |Listed(visits)| ==> Listed(visits)[i].id != Listed(visits)[j].id
    ensures !visits[|visits| - 1].hasMore ==>
              forall id :: PendingThroughout(visits, filter, id) ==>
                exists k :: 0 <= k < |Listed(visits)| && Listed(visits)[k].id == id
  {
    PagesJoin(visits, filter, None);
    var keys := Listed(visits);
    var final := visits[|visits| - 1].state.rows;
    forall key | key in keys ensures key.id in final && final[key.id].createdAt == key.createdAt {
      ListedOnSomePage(visits, key);
      var i :| 0 <= i < |visits| && key in visits[i].page;
      FollowedPage(visits, filter, None, i);
      VisitsEvolve(visits, runs, i, |visits| - 1);
    }
    forall i, j | 0 <= i < j < |keys| ensures keys[i].id != keys[j].id {
      BelowIsTotal(keys[i], keys[j]);
      BelowIsTotal(keys[i], keys[i]);
      assert keys[i] in keys && keys[j] in keys;
    }
    forall id | PendingThroughout(visits, filter, id) && !visits[|visits| - 1].hasMore
      ensures exists k :: 0 <= k < |keys| && keys[k].id == id
    {
      var key := Key(visits[0].state.rows[id].createdAt, id);
      forall i | 0 <= i < |visits| ensures Match(visits[i].state.rows, filter, None, key) {
        VisitsEvolve(visits, runs, 0, i);
      }
      assert MatchesThroughout(visits, filter, None, key);
      assert key in keys;
    }
  }

  // ---- decisions are final, and one-shot approvals are used once ----

  /** An approval with a selected option grants exactly what that option declares. */
  ghost predicate GrantsAsDeclared(row: Row) {
    row.status == Approved && row.resolution.optionId != "" ==>
      var choice := FindChoice(row.choices, row.resolution.optionId);
      choice.Some? && choice.value.effect == Approve && row.resolution.scope == Some(DeclaredScope(choice.value))
  }

  ghost predicate RowOk(row: Row) {
    GrantsAsDeclared(row) && (row.consumed ==> row.status == Approved && row.resolution.scope == Some(Once))
  }

  ghost predicate Inv(s: State) {
    forall id :: id in s.rows ==> RowOk(s.rows[id])
  }

  lemma StepKeeps(s: State, step: Step)
    requires Inv(s) && Enabled(s, step)
    ensures Inv(Apply(s, step))
  {
    var t := Apply(s, step);
    forall id | id in t.rows ensures RowOk(t.rows[id]) {
      assert id in s.rows ==> RowOk(s.rows[id]);
    }
  }

  function ConsumedIds(rows: Table): set<Text> {
    set id | id in rows && rows[id].consumed
  }

  function Consumption(step: Step): nat {
    if step.Consume? && step.picked.Some? then 1 else 0
  }

  function Consumptions(steps: seq<Step>): nat {
    if steps == [] then 0 else Consumption(steps[0]) + Consumptions(steps[1..])
  }

  /** Over every run, a decided row never changes again except to be consumed, an
      approval grants what its option declares, and the successful consumptions
      are exactly as many as the rows consumed, each an approved one-shot. */
  lemma {:induction false} DecisionsAreFinal(s: State, steps: seq<Step>)
    requires Inv(s) && Legal(s, steps)
    ensures Inv(After(s, steps))
    ensures Settled(s.rows, After(s, steps).rows)
    ensures |ConsumedIds(After(s, steps).rows)| == |ConsumedIds(s.rows)| + Consumptions(steps)
    decreases |steps|
  {
    hide Inv, Settled, Apply, Enabled, ConsumedIds;
    if steps == [] {
      SettledIsReflexive(s.rows);
    } else {
      StepKeeps(s, steps[0]);
      StepSettles(s, steps[0]);
      ConsumptionCounts(s, steps[0]);
      var t := Apply(s, steps[0]);
      DecisionsAreFinal(t, steps[1..]);
      SettledIsTransitive(s.rows, t.rows, After(s, steps).rows);
    }
  }

  /** Decided rows are as they were, except that they may have been consumed. */
  ghost predicate Settled(a: Table, b: Table) {
    forall id :: id in a && a[id].status != Pending ==>
      && id in b && b[id].(consumed := false) == a[id].(consumed := false) && (a[id].consumed ==> b[id].consumed)
  }

  lemma SettledIsReflexive(a: Table)
    ensures Settled(a, a)
  {}

  lemma SettledIsTransitive(a: Table, b: Table, c: Table)
    requires Settled(a, b) && Settled(b, c)
    ensures Settled(a, c)
  {
    forall id | id in a && a[id].status != Pending
      ensures id in c && c[id].(consumed := false) == a[id].(consumed := false) && (a[id].consumed ==> c[id].consumed)
    {
      assert id in b && b[id].(consumed := false).status == a[id].status;
    }
  }

  lemma StepSettles(s: State, step: Step)
    requires Enabled(s, step)
    ensures Settled(s.rows, Apply(s, step).rows)
  {}

  lemma ConsumptionCounts(s: State, step: Step)
    requires Inv(s) && Enabled(s, step)
    ensures |ConsumedIds(Apply(s, step).rows)| == |ConsumedIds(s.rows)| + Consumption(step)
  {
    if step.Consume? && step.picked.Some? {
      assert ConsumedIds(Apply(s, step).rows) == ConsumedIds(s.rows) + {step.picked.value};
    } else {
      OthersConsumeNothing(s, step);
    }
  }

  lemma OthersConsumeNothing(s: State, step: Step)
    requires Inv(s) && Enabled(s, step) && Consumption(step) == 0
    ensures ConsumedIds(Apply(s, step).rows) == ConsumedIds(s.rows)
  {
    match step
    case Expire(at, ids) =>
      var t := Apply(s, step);
      forall id ensures id in ConsumedIds(t.rows) <==> id in ConsumedIds(s.rows) {
        assert id in s.rows ==> RowOk(s.rows[id]);
      }
    case Decide(id, decision) =>
      var t := Apply(s, step);
      assert RowOk(s.rows[id]);
      forall other ensures other in ConsumedIds(t.rows) <==> other in ConsumedIds(s.rows) {}
    case _ =>
  }

  // ---- the manager, updated in place ----

  class ApprovalManager {
    var rows: Table
    var now: int

    ghost function Model(): State
      reads this
    {
      State(rows, now)
    }

    constructor (now: int)
      ensures Model() == State(map[], now)
    {
      rows, this.now := map[], now;
    }

    /** Refused when the workspace is not active or the id is taken. */
    method CreateRequest(id: Text, request: Request, workspaceActive: bool) returns (ok: bool)
      modifies this`rows
      ensures ok <==> workspaceActive && id !in old(rows)
      ensures Model() == if ok then Apply(old(Model()), Create(id, request)) else old(Model())
    {
      if !workspaceActive || id in rows { return false; }
      var origin := DirectMcp;
      if request.origin.Some? {
        origin := request.origin.value;
      } else if request.fromWorkSession {
        origin := FromWorkSession;
      }
      var expiresAt := request.expiresAt;
      if expiresAt.None? && request.tool {
        expiresAt := Some(now + (if request.fromWorkSession then WORK_SESSION_TTL_MS else DIRECT_TTL_MS));
      }
      var choices := request.choices;
      if |choices| == 0 { choices := DEFAULT_CHOICES; }
      rows := rows[id := Row(request.workspace, origin, request.waiterKey, choices, Pending, now, expiresAt, 0,
                               UNRESOLVED, false)];
      return true;
    }

    /** The greatest of the given matches; they are chosen from one at a time. */
    method Greatest(matches: set<Key>) returns (greatest: Key)
      requires matches != {}
      ensures greatest in matches && forall key :: key in matches && key != greatest ==> Below(key, greatest)
    {
      var left := matches;
      greatest :| greatest in left;
      left := left - {greatest};
      while left != {}
        invariant left <= matches && greatest in matches && greatest !in left
        invariant forall key :: key in matches && key !in left && key != greatest ==> Below(key, greatest)
        decreases |left|
      {
        var key :| key in left;
        BelowIsTotal(key, greatest);
        if Below(greatest, key) {
          forall other | other in matches && other !in left && other != greatest ensures Below(other, key) {
            BelowIsTransitive(other, greatest, key);
          }
          greatest := key;
        }
        left := left - {key};
      }
    }

    method Matches(filter: Filter, before: Option<Key>) returns (matches: set<Key>)
      ensures forall key :: key in matches <==> Match(rows, filter, before, key)
    {
      matches := set id | id in rows && Match(rows, filter, before, Key(rows[id].createdAt, id))
                        :: Key(rows[id].createdAt, id);
    }

    /** `listPendingPage`: the first `limit` matches in descending order, one more being looked for. */
    method ListPendingPage(filter: Filter, limit: int, before: Option<Key>)
        returns (page: seq<Key>, nextBefore: Option<Key>, hasMore: bool)
      ensures IsPage(rows, filter, before, limit, page, hasMore)
      ensures nextBefore == if hasMore then Last(page) else None
    {
      var matches := Matches(filter, before);
      page := [];
      while |page| < Clamp(limit) && matches != {}
        invariant |page| <= Clamp(limit) && Descending(page)
        invariant forall key :: Match(rows, filter, before, key) <==> key in matches || key in page
        invariant forall key, listed :: key in matches && listed in page ==> Below(key, listed)
        decreases |matches|
      {
        var next := Greatest(matches);
        page := page + [next];
        matches := matches - {next};
      }
      hasMore := matches != {};
      forall key ensures key in matches <==> Match(rows, filter, before, key) && key !in page {
        if key in matches { BelowIsTotal(key, key); }
      }
      if hasMore {
        ghost var witness' :| witness' in matches;
        assert Match(rows, filter, before, witness') && witness' !in page;
      }
      return page, if hasMore then Last(page) else None, hasMore;
    }

    /** `expirePending`: at most `limit` lapsed rows, those that lapsed first. */
    method ExpirePending(at: int, limit: int) returns (ids: set<Text>)
      modifies this`rows
      ensures Enabled(old(Model()), Expire(at, ids)) && Model() == Apply(old(Model()), Expire(at, ids))
      ensures |ids| <= Clamp(limit)
      ensures |ids| < Clamp(limit) ==> forall id :: id in rows ==> !Lapsed(rows[id], at)
      ensures forall id, other :: id in ids && other in rows && Lapsed(rows[other], at) ==>
                Below(LapseKey(old(rows)[id], id), LapseKey(rows[other], other))
    {
      var lapsed := set id | id in rows && Lapsed(rows[id], at);
      ids := {};
      while |ids| < Clamp(limit) && lapsed != {}
        invariant rows == old(rows) && |ids| <= Clamp(limit)
        invariant ids !! lapsed && forall id :: id in ids || id in lapsed <==> id in rows && Lapsed(rows[id], at)
        invariant forall id, other :: id in ids && other in lapsed ==>
                    Below(LapseKey(rows[id], id), LapseKey(rows[other], other))
        decreases |lapsed|
      {
        var first := Earliest(lapsed);
        lapsed, ids := lapsed - {first}, ids + {first};
      }
      rows := map id | id in rows :: if id in ids then Timeout(rows[id], at) else rows[id];
    }

    method Earliest(lapsed: set<Text>) returns (first: Text)
      requires lapsed != {} && forall id :: id in lapsed ==> id in rows && rows[id].expiresAt.Some?
      ensures first in lapsed && forall id :: id in lapsed && id != first ==>
                                   Below(LapseKey(rows[first], first), LapseKey(rows[id], id))
    {
      first :| first in lapsed;
      var left := lapsed - {first};
      while left != {}
        invariant left <= lapsed && first in lapsed && first !in left
        invariant forall id :: id in lapsed && id !in left && id != first ==>
                    Below(LapseKey(rows[first], first), LapseKey(rows[id], id))
        decreases |left|
      {
        var id :| id in left;
        BelowIsTotal(LapseKey(rows[id], id), LapseKey(rows[first], first));
        if Below(LapseKey(rows[id], id), LapseKey(rows[first], first)) {
          forall other | other in lapsed && other !in left && other != first
            ensures Below(LapseKey(rows[id], id), LapseKey(rows[other], other))
          {
            BelowIsTransitive(LapseKey(rows[id], id), LapseKey(rows[first], first), LapseKey(rows[other], other));
          }
          first := id;
        }
        left := left - {id};
      }
    }

    /** `resolve`: expire first, then decide the row if it is still pending, and
        expire once more when reading it back. */
    method ResolveRequest(id: Text, decision: Decision)
        returns (ok: bool, ghost before: set<Text>, ghost after: set<Text>)
      modifies this`rows
      ensures Enabled(old(Model()), Expire(now, before))
      ensures var expired := Apply(old(Model()), Expire(now, before));
              if decision.status == Pending then !ok && Model() == old(Model())
              else if id !in expired.rows || expired.rows[id].status != Pending then ok && Model() == expired
              else
                && (ok <==> Checked(expired.rows[id], decision).Some?)
                && (!ok ==> Model() == expired)
                && (ok ==>
                      var decided := Apply(expired, Decide(id, decision));
                      Enabled(decided, Expire(now, after)) && Model() == Apply(decided, Expire(now, after)))
      ensures ok && decision.status != Pending && id in rows ==> rows[id].status != Pending
    {
      before, after := {}, {};
      assert rows == (map k | k in rows :: rows[k]);
      if decision.status == Pending { return false, before, after; }
      before := ExpirePending(now, 100);
      if id !in rows || rows[id].status != Pending { return true, before, after; }
      var resolution := CheckDecision(rows[id].choices, decision);
      assert resolution == Checked(rows[id], decision);
      if resolution.None? { return false, before, after; }
      rows := rows[id := rows[id].(status := decision.status, resolvedAt := now, resolution := resolution.value)];
      after := ExpirePending(now, 100);
      return true, before, after;
    }

    /** The checks on a decision, in the order in which they are made. */
    method CheckDecision(choices: seq<Choice>, d: Decision) returns (resolution: Option<Resolution>)
      requires d.status != Pending
      ensures forall row: Row :: row.choices == choices ==> Checked(row, d) == resolution
    {
      if d.effect.Some? && d.optionId == "" { return None; }
      var scope := d.scope;
      if d.optionId != "" {
        var choice := FindChoice(choices, d.optionId);
        if choice.None? { return None; }
        var option := choice.value;
        if d.status == Approved && option.effect != Approve { return None; }
        if d.status == Denied && option.effect != Deny && option.effect != ChangesRequested { return None; }
        if d.status == ExpiredStatus || d.status == Cancelled { return None; }
        var expectedEffect := if d.effect.Some? then d.effect.value else if d.status == Approved then Approve else Deny;
        if option.effect != expectedEffect { return None; }
        if d.status == Approved {
          var expectedScope := if option.scope.Some? then option.scope.value else Once;
          if scope.Some? && scope.value != expectedScope { return None; }
          scope := Some(expectedScope);
        } else {
          scope := None;
        }
      }
      return Some(Resolution(d.optionId, d.effect, scope));
    }

    /** `consumeApprovedOperation`: the latest one-shot approval of the key, once. */
    method ConsumeApprovedOperation(waiterKey: string) returns (ok: bool, ghost picked: Option<Text>)
      modifies this`rows
      ensures ok <==> picked.Some?
      ensures Enabled(old(Model()), Consume(waiterKey, picked))
                && Model() == Apply(old(Model()), Consume(waiterKey, picked))
      ensures ok <==> exists id :: id in old(rows) && Consumable(old(rows)[id], waiterKey)
    {
      var candidates := set id | id in rows && Consumable(rows[id], waiterKey);
      if candidates == {} {
        forall id | id in rows ensures !Consumable(rows[id], waiterKey) {
          assert id !in candidates;
        }
        return false, None;
      }
      var latest :| latest in candidates;
      var left := candidates - {latest};
      while left != {}
        invariant left <= candidates && latest in candidates
        invariant forall id :: id in candidates && id !in left ==> rows[id].resolvedAt <= rows[latest].resolvedAt
        decreases |left|
      {
        var id :| id in left;
        if rows[id].resolvedAt > rows[latest].resolvedAt { latest := id; }
        left := left - {id};
      }
      rows := rows[latest := rows[latest].(consumed := true)];
      return true, Some(latest);
    }
  }
}
