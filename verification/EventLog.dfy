/** Telemetry ingress of src/event-log.ts: fragments with an id are written to an
    ingress table at once and moved to the event log later, in batches whose
    adjacent fragments of one stream are coalesced. A workflow event first
    flushes its session.

    The event id of a coalesced row is a fresh UUID; it is modelled by its
    position in the log. A batch commits group by group, each group being one
    transaction, so a crash or an error may leave only some groups committed. */
module EventLog {
  import opened Common

  // ---- rows, events and what was accepted ----

  const NUL: char := '\0'

  type Id = s: string | NUL !in s witness ""

  const OUTPUT_DELTA: Id := "agent.run.output_delta"
  const THOUGHT_DELTA: Id := "agent.run.thought_delta"
  const BATCH_SIZE := 512

  predicate HighVolume(kind: Id) {
    kind == OUTPUT_DELTA || kind == THOUGHT_DELTA
  }

  /** A payload: its text, when it has one, and the canonical text of everything else in it. */
  datatype Payload = Payload(text: Option<string>, rest: string)

  function Text(payload: Payload): string {
    if payload.text.Some? then payload.text.value else ""
  }

  datatype Fragment = Fragment(session: Id, workspace: Option<Id>, kind: Id, payload: Payload)

  datatype Row = Row(eventId: string, content: Fragment, committed: bool)

  datatype EventId = Given(name: string) | Minted(at: nat)

  datatype Event =
    | Coalesced(id: EventId, session: Id, workspace: Option<Id>, kind: Id, text: string, count: nat)
    | Workflow(id: EventId, session: Id, kind: Id)

  /** The order in which the store accepted things. */
  datatype Item = Accepted(eventId: string, content: Fragment) | Happened(id: EventId, session: Id)

  datatype State = State(rows: seq<Row>, log: seq<Event>, history: seq<Item>)

  const EMPTY := State([], [], [])

  // ---- reading a session's transcript ----

  /** A transcript is read character by character, or fragment by fragment. */
  datatype View = Characters | Fragments

  datatype Symbol = Character(kind: Id, c: char) | Tick(kind: Id) | Mark(id: EventId)

  function Spelled(kind: Id, text: string): seq<Symbol> {
    if text == "" then [] else [Character(kind, text[0])] + Spelled(kind, text[1..])
  }

  function Ticks(kind: Id, count: nat): seq<Symbol> {
    if count == 0 then [] else [Tick(kind)] + Ticks(kind, count - 1)
  }

  function Shown(view: View, kind: Id, text: string, count: nat): seq<Symbol> {
    match view case Characters => Spelled(kind, text) case Fragments => Ticks(kind, count)
  }

  function ShownFragment(view: View, session: Id, f: Fragment): seq<Symbol> {
    if f.session != session then []
    else match f.payload.text
         case Some(text) => Shown(view, f.kind, text, 1)
         case None => Shown(view, f.kind, "", 1)
  }

  function ShownEvent(view: View, session: Id, event: Event): seq<Symbol> {
    if event.session != session then []
    else match event
         case Coalesced(_, _, _, kind, text, count) => Shown(view, kind, text, count)
         case Workflow(id, _, _) => [Mark(id)]
  }

  function ShownItem(view: View, session: Id, item: Item): seq<Symbol> {
    match item
    case Accepted(_, content) => ShownFragment(view, session, content)
    case Happened(id, s) => if s == session then [Mark(id)] else []
  }

  function LogStream(view: View, session: Id, log: seq<Event>): seq<Symbol> {
    if log == [] then [] else ShownEvent(view, session, log[0]) + LogStream(view, session, log[1..])
  }

  function RowStream(view: View, session: Id, rows: seq<Row>): seq<Symbol> {
    if rows == [] then [] else ShownFragment(view, session, rows[0].content) + RowStream(view, session, rows[1..])
  }

  function HistoryStream(view: View, session: Id, history: seq<Item>): seq<Symbol> {
    if history == [] then [] else ShownItem(view, session, history[0]) + HistoryStream(view, session, history[1..])
  }

  // ---- the ingress table ----

  /** The empty session name selects every session. */
  predicate Selected(row: Row, session: Id) {
    !row.committed && (session == "" || row.content.session == session)
  }

  /** The selected pending rows, by sequence. */
  function Picks(rows: seq<Row>, session: Id): seq<Row> {
    if rows == [] then [] else PickOne(rows[0], session) + Picks(rows[1..], session)
  }

  function PickOne(row: Row, session: Id): seq<Row> {
    if Selected(row, session) then [row] else []
  }

  function Pending(rows: seq<Row>): seq<Row> {
    Picks(rows, "")
  }

  function Batch(rows: seq<Row>, session: Id): seq<Row> {
    var picks := Picks(rows, session);
    if |picks| <= BATCH_SIZE then picks else picks[..BATCH_SIZE]
  }

  function Ids(rows: seq<Row>): set<string> {
    set row | row in rows :: row.eventId
  }

  function MarkCommitted(rows: seq<Row>, ids: set<string>): seq<Row> {
    if rows == [] then []
    else [if rows[0].eventId in ids then rows[0].(committed := true) else rows[0]] + MarkCommitted(rows[1..], ids)
  }

  function Find(rows: seq<Row>, eventId: string): Option<Fragment> {
    if rows == [] then None else if rows[0].eventId == eventId then Some(rows[0].content) else Find(rows[1..], eventId)
  }

  // ---- groups ----

  /** The text by which the batching loop decides that two rows belong together. */
  function Key(f: Fragment): string {
    f.session + [NUL] + (if f.workspace.Some? then f.workspace.value else "") + [NUL] + f.kind
  }

  function Flatten(groups: seq<seq<Row>>): seq<Row> {
    if groups == [] then [] else groups[0] + Flatten(groups[1..])
  }

  predicate Uniform(group: seq<Row>) {
    group != [] && forall row :: row in group ==> Key(row.content) == Key(group[0].content)
  }

  /** The maximal runs of rows with one key. */
  predicate RunsOf(groups: seq<seq<Row>>, batch: seq<Row>) {
    && Flatten(groups) == batch
    && (forall group :: group in groups ==> Uniform(group))
    && forall i, j :: 0 <= i && j == i + 1 < |groups| && groups[i] != [] && groups[j] != [] ==>
         Key(groups[i][0].content) != Key(groups[j][0].content)
  }

  function Texts(group: seq<Row>): string {
    if group == [] then "" else Text(group[0].content.payload) + Texts(group[1..])
  }

  function EventOf(group: seq<Row>, at: nat): Event
    requires group != []
  {
    var first := group[0].content;
    Coalesced(Minted(at), first.session, first.workspace, first.kind, Texts(group), |group|)
  }

  function EventsOf(groups: seq<seq<Row>>, at: nat): seq<Event>
    requires forall group :: group in groups ==> Uniform(group)
  {
    if groups == [] then []
    else
      assert Uniform(groups[0]);
      [EventOf(groups[0], at)] + EventsOf(groups[1..], at + 1)
  }

  // ---- steps ----

  datatype Step =
    /** A fragment with an event id arrives, for the first time or again. */
    | Receive(eventId: string, content: Fragment)
    /** A batch of the session's pending rows is taken and its first `done` groups commit. */
    | Flush(session: Id, groups: seq<seq<Row>>, done: nat)
    /** The insertion of a workflow event, once its session is flushed. */
    | Insert(id: Option<EventId>, session: Id, kind: Id)

  predicate Enabled(s: State, step: Step) {
    match step
    case Receive(_, _) => true
    case Flush(session, groups, done) => RunsOf(groups, Batch(s.rows, session)) && done <= |groups|
    case Insert(id, session, kind) =>
      && !HighVolume(kind) && Picks(s.rows, session) == []
      && (id.Some? && id.value.Minted? ==> id.value.at < |s.log|)
  }

  predicate Logged(log: seq<Event>, id: EventId) {
    exists event :: event in log && event.id == id
  }

  function Apply(s: State, step: Step): State
    requires Enabled(s, step)
  {
    match step
    case Receive(eventId, content) =>
      if !HighVolume(content.kind) || Find(s.rows, eventId).Some? then s
      else s.(rows := s.rows + [Row(eventId, content, false)], history := s.history + [Accepted(eventId, content)])
    case Flush(_, groups, done) =>
      s.(rows := MarkCommitted(s.rows, Ids(Flatten(groups[..done]))),
         log := s.log + EventsOf(groups[..done], |s.log|))
    case Insert(id, session, kind) =>
      var eventId := if id.Some? then id.value else Minted(|s.log|);
      if Logged(s.log, eventId) then s
      else s.(log := s.log + [Workflow(eventId, session, kind)], history := s.history + [Happened(eventId, session)])
  }

  ghost predicate Legal(s: State, steps: seq<Step>)
    decreases |steps|
  {
    steps != [] ==> Enabled(s, steps[0]) && Legal(Apply(s, steps[0]), steps[1..])
  }

  ghost function After(s: State, steps: seq<Step>): State
    requires Legal(s, steps)
    decreases |steps|
  {
    if steps == [] then s else After(Apply(s, steps[0]), steps[1..])
  }

  // ---- stream algebra ----

  lemma {:induction false} SpelledConcat(kind: Id, a: string, b: string)
    ensures Spelled(kind, a + b) == Spelled(kind, a) + Spelled(kind, b)
  {
    if a == "" {
      assert a + b == b;
    } else {
      assert (a + b)[1..] == a[1..] + b;
      SpelledConcat(kind, a[1..], b);
      var first, mid, last := [Character(kind, a[0])], Spelled(kind, a[1..]), Spelled(kind, b);
      assert first + (mid + last) == (first + mid) + last;
    }
  }

  lemma {:induction false} LogStreamConcat(view: View, session: Id, a: seq<Event>, b: seq<Event>)
    ensures LogStream(view, session, a + b) == LogStream(view, session, a) + LogStream(view, session, b)
  {
    if a == [] {
      assert a + b == b;
    } else {
      assert (a + b)[1..] == a[1..] + b;
      LogStreamConcat(view, session, a[1..], b);
      var first, mid, last := ShownEvent(view, session, a[0]), LogStream(view, session, a[1..]),
        LogStream(view, session, b);
      assert first + (mid + last) == (first + mid) + last;
    }
  }

  lemma {:induction false} RowStreamConcat(view: View, session: Id, a: seq<Row>, b: seq<Row>)
    ensures RowStream(view, session, a + b) == RowStream(view, session, a) + RowStream(view, session, b)
  {
    if a == [] {
      assert a + b == b;
    } else {
      assert (a + b)[1..] == a[1..] + b;
      RowStreamConcat(view, session, a[1..], b);
      var first, mid, last := ShownFragment(view, session, a[0].content), RowStream(view, session, a[1..]),
        RowStream(view, session, b);
      assert first + (mid + last) == (first + mid) + last;
    }
  }

  lemma {:induction false} HistoryStreamConcat(view: View, session: Id, a: seq<Item>, b: seq<Item>)
    ensures HistoryStream(view, session, a + b) == HistoryStream(view, session, a) + HistoryStream(view, session, b)
  {
    if a == [] {
      assert a + b == b;
    } else {
      assert (a + b)[1..] == a[1..] + b;
      HistoryStreamConcat(view, session, a[1..], b);
      var first, mid, last := ShownItem(view, session, a[0]), HistoryStream(view, session, a[1..]),
        HistoryStream(view, session, b);
      assert first + (mid + last) == (first + mid) + last;
    }
  }

  lemma FirstNul(a: Id, x: string)
    ensures var joined := a + [NUL] + x;
            && joined[|a|] == NUL && (forall k :: 0 <= k < |a| ==> joined[k] != NUL)
            && joined[..|a|] == a && joined[|a| + 1..] == x
  {
    forall k | 0 <= k < |a| ensures a[k] != NUL {
      assert a[k] in a;
    }
  }

  /** Identifiers hold no NUL, so the joined key determines its parts. */
  lemma NulSeparates(a: Id, x: string, b: Id, y: string)
    requires a + [NUL] + x == b + [NUL] + y
    ensures a == b && x == y
  {
    FirstNul(a, x);
    FirstNul(b, y);
  }

  /** Rows belong together when session, workspace and kind agree; no workspace
      counts as the empty one. */
  lemma KeyDecides(f: Fragment, g: Fragment)
    ensures Key(f) == Key(g) <==>
              && f.session == g.session && f.kind == g.kind
              && (f.workspace == g.workspace || {f.workspace, g.workspace} == {None, Some("")})
  {
    var p: Id := if f.workspace.Some? then f.workspace.value else "";
    var q: Id := if g.workspace.Some? then g.workspace.value else "";
    assert Key(f) == f.session + [NUL] + (p + [NUL] + f.kind);
    assert Key(g) == g.session + [NUL] + (q + [NUL] + g.kind);
    if Key(f) == Key(g) {
      NulSeparates(f.session, p + [NUL] + f.kind, g.session, q + [NUL] + g.kind);
      NulSeparates(p, f.kind, q, g.kind);
    }
    SameWorkspace(f.workspace, g.workspace, p, q);
  }

  lemma SameWorkspace(v: Option<Id>, w: Option<Id>, p: Id, q: Id)
    requires p == (if v.Some? then v.value else "") && q == (if w.Some? then w.value else "")
    ensures p == q <==> v == w || {v, w} == {None, Some("")}
  {
    if {v, w} == {None, Some("")} {
      assert v in {v, w} && w in {v, w};
    }
    if p == q && v != w {
      assert {v, w} == {None, Some("")};
    }
  }

  /** Coalescing rows of one key keeps what they spell and how many they are. */
  lemma {:induction false} GroupKeepsStream(view: View, session: Id, group: seq<Row>, first: Fragment)
    requires forall row :: row in group ==> row.content.session == first.session && row.content.kind == first.kind
    ensures RowStream(view, session, group)
         == if first.session == session then Shown(view, first.kind, Texts(group), |group|) else []
  {
    if group != [] {
      GroupKeepsStream(view, session, group[1..], first);
      assert group[0] in group;
      if first.session == session {
        hide RowStream, Spelled;
        SpelledConcat(first.kind, Text(group[0].content.payload), Texts(group[1..]));
        TicksStart(first.kind, |group|);
      }
    }
  }

  lemma TicksStart(kind: Id, count: nat)
    requires count > 0
    ensures Ticks(kind, 1) + Ticks(kind, count - 1) == Ticks(kind, count)
  {
    assert Ticks(kind, 1) == [Tick(kind)] + Ticks(kind, 0) == [Tick(kind)];
  }

  lemma {:induction false} EventsKeepStream(view: View, session: Id, groups: seq<seq<Row>>, at: nat)
    requires forall group :: group in groups ==> Uniform(group)
    ensures LogStream(view, session, EventsOf(groups, at)) == RowStream(view, session, Flatten(groups))
  {
    if groups != [] {
      var group := groups[0];
      assert Uniform(group);
      forall row | row in group
        ensures row.content.session == group[0].content.session && row.content.kind == group[0].content.kind
      {
        KeyDecides(row.content, group[0].content);
      }
      GroupKeepsStream(view, session, group, group[0].content);
      EventsKeepStream(view, session, groups[1..], at + 1);
      RowStreamConcat(view, session, group, Flatten(groups[1..]));
      var events := EventsOf(groups, at);
      assert events[0] == EventOf(group, at) && events[1..] == EventsOf(groups[1..], at + 1);
    }
  }

  // ---- committing a prefix of the picked rows ----

  ghost predicate DistinctIds(rows: seq<Row>) {
    forall i, j :: 0 <= i < j < |rows| ==> rows[i].eventId != rows[j].eventId
  }

  lemma {:induction false} PicksAreRows(rows: seq<Row>, session: Id)
    ensures forall row :: row in Picks(rows, session) ==> row in rows && Selected(row, session)
  {
    if rows != [] { PicksAreRows(rows[1..], session); }
  }

  lemma {:induction false} MarkNone(rows: seq<Row>, ids: set<string>)
    requires forall row :: row in rows ==> row.eventId !in ids
    ensures MarkCommitted(rows, ids) == rows
  {
    if rows != [] {
      assert rows[0] in rows;
      MarkNone(rows[1..], ids);
    }
  }

  lemma {:induction false} MarkOnly(rows: seq<Row>, ids: set<string>, ids': set<string>)
    requires forall row :: row in rows ==> (row.eventId in ids <==> row.eventId in ids')
    ensures MarkCommitted(rows, ids) == MarkCommitted(rows, ids')
  {
    if rows != [] {
      assert rows[0] in rows;
      MarkOnly(rows[1..], ids, ids');
    }
  }

  lemma {:induction false} RowsOfOthersShowNothing(view: View, session: Id, rows: seq<Row>)
    requires forall row :: row in rows ==> row.content.session != session
    ensures RowStream(view, session, rows) == []
  {
    if rows != [] {
      assert rows[0] in rows;
      RowsOfOthersShowNothing(view, session, rows[1..]);
    }
  }

  lemma PendingOf(head: Row, rows: seq<Row>)
    ensures Pending([head] + rows) == (if head.committed then [] else [head]) + Pending(rows)
  {
    assert ([head] + rows)[1..] == rows;
  }

  lemma MarkHead(head: Row, rest: seq<Row>, ids: set<string>)
    ensures MarkCommitted([head] + rest, ids)
         == [if head.eventId in ids then head.(committed := true) else head] + MarkCommitted(rest, ids)
  {
    assert ([head] + rest)[1..] == rest;
  }

  /** Committing the first picked rows takes exactly their symbols off the front
      of every session's pending stream. */
  lemma {:induction false} CommitTakesPrefix(view: View, session: Id, rows: seq<Row>, picked: Id, taken: seq<Row>)
    requires DistinctIds(rows) && taken <= Picks(rows, picked)
    ensures RowStream(view, session, Pending(rows))
         == RowStream(view, session, taken) + RowStream(view, session, Pending(MarkCommitted(rows, Ids(taken))))
    decreases |rows|
  {
    if taken == [] {
      MarkNone(rows, Ids(taken));
    } else if rows != [] {
      hide RowStream, ShownFragment;
      var head, rest := rows[0], rows[1..];
      PicksAreRows(rest, picked);
      assert rows == [head] + rest;
      PendingOf(head, rest);
      forall row | row in rest ensures row.eventId != head.eventId {}
      if Selected(head, picked) {
        TakeHead(view, session, head, rest, picked, taken);
      } else {
        SkipHead(view, session, head, rest, picked, taken);
      }
    }
  }

  /** Taking the head: it is marked, and the rest is marked by the rest of what is taken. */
  lemma HeadTaken(head: Row, rest: seq<Row>, picked: Id, taken: seq<Row>)
    requires forall row :: row in rest ==> row.eventId != head.eventId
    requires taken != [] && taken <= [head] + Picks(rest, picked)
    ensures taken == [head] + taken[1..] && taken[1..] <= Picks(rest, picked)
    ensures MarkCommitted([head] + rest, Ids(taken))
              == [head.(committed := true)] + MarkCommitted(rest, Ids(taken[1..]))
  {
    hide Picks, MarkCommitted;
    var more := taken[1..];
    assert taken == [head] + more;
    forall row | row in rest ensures row.eventId in Ids(taken) <==> row.eventId in Ids(more) {
      if row.eventId in Ids(taken) {
        var t :| t in taken && t.eventId == row.eventId;
        assert t in more;
      }
    }
    MarkOnly(rest, Ids(taken), Ids(more));
    assert head in taken;
    MarkHead(head, rest, Ids(taken));
  }

  /** Leaving the head: nothing taken has its id. */
  lemma HeadKept(head: Row, rest: seq<Row>, picked: Id, taken: seq<Row>)
    requires forall row :: row in rest ==> row.eventId != head.eventId
    requires taken <= Picks(rest, picked)
    ensures forall t :: t in taken ==> t in rest && Selected(t, picked)
    ensures MarkCommitted([head] + rest, Ids(taken)) == [head] + MarkCommitted(rest, Ids(taken))
  {
    PicksAreRows(rest, picked);
    hide Picks, MarkCommitted;
    forall t | t in taken ensures t in rest && Selected(t, picked) {
      assert t in Picks(rest, picked);
    }
    MarkHead(head, rest, Ids(taken));
  }

  lemma TakeHead(view: View, session: Id, head: Row, rest: seq<Row>, picked: Id, taken: seq<Row>)
    requires DistinctIds(rest) && (forall row :: row in rest ==> row.eventId != head.eventId)
    requires taken != [] && Selected(head, picked) && taken <= [head] + Picks(rest, picked)
    ensures RowStream(view, session, Pending([head] + rest))
         == RowStream(view, session, taken)
              + RowStream(view, session, Pending(MarkCommitted([head] + rest, Ids(taken))))
    decreases |rest| + 1, 0
  {
    hide RowStream, MarkCommitted, Picks;
    var more := taken[1..];
    HeadTaken(head, rest, picked, taken);
    CommitTakesPrefix(view, session, rest, picked, more);
    var marked := MarkCommitted(rest, Ids(more));
    PendingOf(head, rest);
    PendingOf(head.(committed := true), marked);
    assert [] + Pending(marked) == Pending(marked);
    RowStreamConcat(view, session, [head], Pending(rest));
    RowStreamConcat(view, session, [head], more);
    var first, last := RowStream(view, session, [head]), RowStream(view, session, Pending(marked));
    assert first + (RowStream(view, session, more) + last) == (first + RowStream(view, session, more)) + last;
  }

  lemma SkipHead(view: View, session: Id, head: Row, rest: seq<Row>, picked: Id, taken: seq<Row>)
    requires DistinctIds(rest) && (forall row :: row in rest ==> row.eventId != head.eventId)
    requires !Selected(head, picked) && taken <= Picks(rest, picked)
    ensures RowStream(view, session, Pending([head] + rest))
         == RowStream(view, session, taken)
              + RowStream(view, session, Pending(MarkCommitted([head] + rest, Ids(taken))))
    decreases |rest| + 1, 0
  {
    hide RowStream, MarkCommitted, Picks;
    CommitTakesPrefix(view, session, rest, picked, taken);
    HeadKept(head, rest, picked, taken);
    var marked := MarkCommitted(rest, Ids(taken));
    PendingOf(head, rest);
    PendingOf(head, marked);
    if head.committed {
      assert [] + Pending(rest) == Pending(rest) && [] + Pending(marked) == Pending(marked);
    } else {
      // the head stays pending: it belongs to a session that is not being flushed
      RowStreamConcat(view, session, [head], Pending(rest));
      RowStreamConcat(view, session, [head], Pending(marked));
      if head.content.session == session {
        RowsOfOthersShowNothing(view, session, taken);
      } else {
        RowsOfOthersShowNothing(view, session, [head]);
      }
    }
  }

  lemma PickHead(head: Row, rest: seq<Row>, picked: Id)
    ensures Picks([head] + rest, picked) == (if Selected(head, picked) then [head] else []) + Picks(rest, picked)
  {
    assert ([head] + rest)[1..] == rest;
  }

  lemma DistinctTail(rows: seq<Row>)
    requires rows != [] && DistinctIds(rows)
    ensures DistinctIds(rows[1..]) && forall row :: row in rows[1..] ==> row.eventId != rows[0].eventId
  {}

  /** Committing the first picked rows leaves the other picked rows picked. */
  lemma {:induction false} PicksDrop(rows: seq<Row>, picked: Id, taken: seq<Row>)
    requires DistinctIds(rows) && taken <= Picks(rows, picked)
    ensures Picks(rows, picked) == taken + Picks(MarkCommitted(rows, Ids(taken)), picked)
    decreases |rows|
  {
    if taken == [] {
      MarkNone(rows, Ids(taken));
    } else if rows != [] {
      hide Picks, MarkCommitted, Ids, DistinctIds;
      var head, rest := rows[0], rows[1..];
      HeadAndRest(rows);
      DistinctTail(rows);
      PickHead(head, rest, picked);
      if Selected(head, picked) {
        HeadTaken(head, rest, picked, taken);
        PicksDrop(rest, picked, taken[1..]);
        var marked := MarkCommitted(rest, Ids(taken[1..]));
        PickHead(head.(committed := true), marked, picked);
        LeftUnit(Picks(marked, picked));
        Assoc([head], taken[1..], Picks(marked, picked));
      } else {
        LeftUnit(Picks(rest, picked));
        HeadKept(head, rest, picked, taken);
        PicksDrop(rest, picked, taken);
        var marked := MarkCommitted(rest, Ids(taken));
        PickHead(head, marked, picked);
        LeftUnit(Picks(marked, picked));
      }
    }
  }

  lemma {:induction false} MarkKeepsIdentity(rows: seq<Row>, ids: set<string>)
    ensures |MarkCommitted(rows, ids)| == |rows|
    ensures forall i :: 0 <= i < |rows| ==>
              && MarkCommitted(rows, ids)[i].eventId == rows[i].eventId
              && MarkCommitted(rows, ids)[i].content == rows[i].content
              && MarkCommitted(rows, ids)[i].committed == (rows[i].committed || rows[i].eventId in ids)
  {
    if rows != [] { MarkKeepsIdentity(rows[1..], ids); }
  }

  // ---- the invariant ----

  /** In every session the log, then the pending rows, spell what was accepted. */
  ghost predicate Preserved(s: State, view: View, session: Id) {
    LogStream(view, session, s.log) + RowStream(view, session, Pending(s.rows))
      == HistoryStream(view, session, s.history)
  }

  function Receipt(item: Item): seq<(string, Fragment)> {
    match item case Accepted(eventId, content) => [(eventId, content)] case Happened(_, _) => []
  }

  function Receipts(history: seq<Item>): seq<(string, Fragment)> {
    if history == [] then [] else Receipt(history[0]) + Receipts(history[1..])
  }

  /** The rows are the receipts, in order, each id once. */
  ghost predicate RowsAreReceipts(s: State) {
    && DistinctIds(s.rows)
    && |s.rows| == |Receipts(s.history)|
    && forall i :: 0 <= i < |s.rows| ==> Receipts(s.history)[i] == (s.rows[i].eventId, s.rows[i].content)
  }

  ghost predicate IdsAreFresh(log: seq<Event>) {
    && (forall i, j :: 0 <= i < j < |log| ==> log[i].id != log[j].id)
    && forall i :: 0 <= i < |log| && log[i].id.Minted? ==> log[i].id.at < |log|
  }

  /** The workflow event of history item `j` sits at log position `b`, and what
      its session logged before it is exactly what had been accepted before it. */
  ghost predicate BarrierAt(s: State, j: nat, b: nat) {
    && j < |s.history| && s.history[j].Happened?
    && b < |s.log| && s.log[b].Workflow?
    && s.log[b].id == s.history[j].id && s.log[b].session == s.history[j].session
    && forall view :: LogStream(view, s.log[b].session, s.log[..b])
         == HistoryStream(view, s.log[b].session, s.history[..j])
  }

  ghost predicate HasBarrier(s: State, j: nat) {
    exists b :: BarrierAt(s, j, b)
  }

  ghost predicate Inv(s: State) {
    && (forall view, session :: Preserved(s, view, session))
    && RowsAreReceipts(s)
    && IdsAreFresh(s.log)
    && forall j :: 0 <= j < |s.history| && s.history[j].Happened? ==> HasBarrier(s, j)
  }

  lemma {:induction false} PicksConcat(a: seq<Row>, b: seq<Row>, session: Id)
    ensures Picks(a + b, session) == Picks(a, session) + Picks(b, session)
  {
    if a == [] {
      assert a + b == b;
    } else {
      assert (a + b)[1..] == a[1..] + b;
      PicksConcat(a[1..], b, session);
      var first, mid, last := PickOne(a[0], session), Picks(a[1..], session), Picks(b, session);
      assert first + (mid + last) == (first + mid) + last;
    }
  }

  lemma {:induction false} ReceiptsConcat(a: seq<Item>, b: seq<Item>)
    ensures Receipts(a + b) == Receipts(a) + Receipts(b)
  {
    if a == [] {
      assert a + b == b;
    } else {
      assert (a + b)[1..] == a[1..] + b;
      ReceiptsConcat(a[1..], b);
      var first, mid, last := Receipt(a[0]), Receipts(a[1..]), Receipts(b);
      assert first + (mid + last) == (first + mid) + last;
    }
  }

  lemma {:induction false} FlattenConcat(a: seq<seq<Row>>, b: seq<seq<Row>>)
    ensures Flatten(a + b) == Flatten(a) + Flatten(b)
  {
    if a == [] {
      assert a + b == b;
    } else {
      assert (a + b)[1..] == a[1..] + b;
      FlattenConcat(a[1..], b);
      assert a[0] + (Flatten(a[1..]) + Flatten(b)) == (a[0] + Flatten(a[1..])) + Flatten(b);
    }
  }

  lemma {:induction false} EventsHaveFreshIds(groups: seq<seq<Row>>, at: nat)
    requires forall group :: group in groups ==> Uniform(group)
    ensures |EventsOf(groups, at)| == |groups|
    ensures forall k :: 0 <= k < |groups| ==> EventsOf(groups, at)[k].id == Minted(at + k)
  {
    if groups != [] { EventsHaveFreshIds(groups[1..], at + 1); }
  }

  /** Growing the log and the history leaves the older barriers where they are. */
  lemma BarriersStay(s: State, t: State)
    requires s.log <= t.log && s.history <= t.history
    requires forall j :: 0 <= j < |s.history| && s.history[j].Happened? ==> HasBarrier(s, j)
    ensures forall j :: 0 <= j < |s.history| && t.history[j].Happened? ==> HasBarrier(t, j)
  {
    forall j | 0 <= j < |s.history| && t.history[j].Happened? ensures HasBarrier(t, j) {
      assert HasBarrier(s, j);
      var b: nat :| BarrierAt(s, j, b);
      assert t.log[..b] == s.log[..b] && t.history[..j] == s.history[..j];
      assert BarrierAt(t, j, b);
    }
  }

  lemma {:induction false} FindIsMembership(rows: seq<Row>, eventId: string)
    ensures Find(rows, eventId).Some? <==> exists i :: 0 <= i < |rows| && rows[i].eventId == eventId
    ensures forall i :: 0 <= i < |rows| && DistinctIds(rows) && rows[i].eventId == eventId ==>
              Find(rows, eventId) == Some(rows[i].content)
  {
    if rows != [] {
      FindIsMembership(rows[1..], eventId);
      if rows[0].eventId == eventId {
      } else if Find(rows, eventId).Some? {
        var i :| 0 <= i < |rows[1..]| && rows[1..][i].eventId == eventId;
        assert rows[i + 1].eventId == eventId;
      }
      forall i | 0 <= i < |rows| && DistinctIds(rows) && rows[i].eventId == eventId
        ensures Find(rows, eventId) == Some(rows[i].content)
      {
        assert i > 0 ==> rows[1..][i - 1] == rows[i];
      }
    }
  }

  lemma FoundIsTheRow(rows: seq<Row>, eventId: string)
    requires DistinctIds(rows)
    ensures Find(rows, eventId).Some? <==> exists row :: row in rows && row.eventId == eventId
    ensures forall row :: row in rows && row.eventId == eventId ==> Find(rows, eventId) == Some(row.content)
  {
    FindIsMembership(rows, eventId);
    forall row | row in rows && row.eventId == eventId ensures Find(rows, eventId) == Some(row.content) {
      var i :| 0 <= i < |rows| && rows[i] == row;
    }
  }

  lemma ReceivePreserves(s: State, t: State, row: Row, view: View, session: Id)
    requires Preserved(s, view, session) && !row.committed
    requires t == State(s.rows + [row], s.log, s.history + [Accepted(row.eventId, row.content)])
    ensures Preserved(t, view, session)
  {
    hide LogStream, HistoryStream, RowStream, Picks, ShownFragment;
    var item := Accepted(row.eventId, row.content);
    PicksConcat(s.rows, [row], "");
    OneRow(view, session, row, item);
    RowStreamConcat(view, session, Pending(s.rows), [row]);
    HistoryStreamConcat(view, session, s.history, [item]);
    var shown := ShownFragment(view, session, row.content);
    assert LogStream(view, session, s.log) + (RowStream(view, session, Pending(s.rows)) + shown)
        == (LogStream(view, session, s.log) + RowStream(view, session, Pending(s.rows))) + shown;
  }

  lemma InsertPreserves(s: State, t: State, event: Event, view: View, x: Id)
    requires Preserved(s, view, x) && event.Workflow? && Picks(s.rows, event.session) == []
    requires t == State(s.rows, s.log + [event], s.history + [Happened(event.id, event.session)])
    ensures Preserved(t, view, x)
  {
    hide LogStream, HistoryStream, RowStream, Picks;
    var item := Happened(event.id, event.session);
    OneWorkflowEvent(view, x, event, item);
    LogStreamConcat(view, x, s.log, [event]);
    HistoryStreamConcat(view, x, s.history, [item]);
    if x == event.session { NothingPicked(view, x, x, s.rows); }
  }

  lemma ReceiveKeeps(s: State, eventId: string, content: Fragment)
    requires Inv(s)
    ensures Inv(Apply(s, Receive(eventId, content)))
  {
    var t := Apply(s, Receive(eventId, content));
    if t != s {
      hide LogStream, HistoryStream, RowStream, Picks, Receipts, Find;
      var row, item := Row(eventId, content, false), Accepted(eventId, content);
      FindIsMembership(s.rows, eventId);
      BarriersStay(s, t);
      ReceiptsConcat(s.history, [item]);
      OneReceipt(item);
      forall view, session ensures Preserved(t, view, session) {
        ReceivePreserves(s, t, row, view, session);
      }
    }
  }

  lemma OneReceipt(item: Item)
    requires item.Accepted?
    ensures Receipts([item]) == [(item.eventId, item.content)]
  {
    assert [item][1..] == [];
  }

  lemma OneRow(view: View, session: Id, row: Row, item: Item)
    requires !row.committed && item == Accepted(row.eventId, row.content)
    ensures Picks([row], "") == [row]
    ensures RowStream(view, session, [row]) == ShownFragment(view, session, row.content)
    ensures HistoryStream(view, session, [item]) == ShownFragment(view, session, row.content)
  {
    assert [row][1..] == [] && [item][1..] == [];
  }

  lemma FlushKeeps(s: State, session: Id, groups: seq<seq<Row>>, done: nat)
    requires Inv(s) && Enabled(s, Flush(session, groups, done))
    ensures Inv(Apply(s, Flush(session, groups, done)))
  {
    hide LogStream, HistoryStream, RowStream, Picks, Receipts;
    var t := Apply(s, Flush(session, groups, done));
    var taken := Flatten(groups[..done]);
    assert taken <= Picks(s.rows, session) by {
      FlattenConcat(groups[..done], groups[done..]);
      assert groups[..done] + groups[done..] == groups;
    }
    MarkKeepsIdentity(s.rows, Ids(taken));
    EventsHaveFreshIds(groups[..done], |s.log|);
    BarriersStay(s, t);
    forall view, x ensures Preserved(t, view, x) {
      assert Preserved(s, view, x);
      CommitTakesPrefix(view, x, s.rows, session, taken);
      EventsKeepStream(view, x, groups[..done], |s.log|);
      LogStreamConcat(view, x, s.log, EventsOf(groups[..done], |s.log|));
      assert LogStream(view, x, s.log) + (RowStream(view, x, taken) + RowStream(view, x, Pending(t.rows)))
          == (LogStream(view, x, s.log) + RowStream(view, x, taken)) + RowStream(view, x, Pending(t.rows));
    }
  }

  lemma {:induction false} NothingPicked(view: View, session: Id, picked: Id, rows: seq<Row>)
    requires Picks(rows, picked) == [] && (picked == "" || picked == session)
    ensures RowStream(view, session, Pending(rows)) == []
  {
    if rows != [] {
      NothingPicked(view, session, picked, rows[1..]);
      PendingOf(rows[0], rows[1..]);
      assert [rows[0]] + rows[1..] == rows;
      RowStreamConcat(view, session, [rows[0]], Pending(rows[1..]));
      assert [rows[0]][1..] == [] && [] + Pending(rows[1..]) == Pending(rows[1..]);
    }
  }

  lemma OneWorkflowEvent(view: View, x: Id, event: Event, item: Item)
    requires event.Workflow? && item == Happened(event.id, event.session)
    ensures LogStream(view, x, [event]) == (if event.session == x then [Mark(event.id)] else [])
    ensures HistoryStream(view, x, [item]) == LogStream(view, x, [event])
    ensures Receipts([item]) == []
  {
    assert [event][1..] == [] && [item][1..] == [];
  }

  lemma InsertKeeps(s: State, id: Option<EventId>, session: Id, kind: Id)
    requires Inv(s) && Enabled(s, Insert(id, session, kind))
    ensures Inv(Apply(s, Insert(id, session, kind)))
  {
    var t := Apply(s, Insert(id, session, kind));
    if t != s {
      hide LogStream, HistoryStream, RowStream, Picks, Preserved, HasBarrier, RowsAreReceipts, Enabled, HighVolume;
      var event := t.log[|s.log|];
      InsertKeepsReceipts(s, t, event);
      BarriersStay(s, t);
      forall view, x ensures Preserved(t, view, x) {
        InsertPreserves(s, t, event, view, x);
      }
      NewBarrier(s, t, event);
    }
  }

  lemma InsertKeepsReceipts(s: State, t: State, event: Event)
    requires RowsAreReceipts(s) && event.Workflow?
    requires t == State(s.rows, s.log + [event], s.history + [Happened(event.id, event.session)])
    ensures RowsAreReceipts(t)
  {
    hide LogStream, HistoryStream, Receipts;
    ReceiptsConcat(s.history, [Happened(event.id, event.session)]);
    OneWorkflowEvent(Characters, event.session, event, Happened(event.id, event.session));
  }

  lemma NewBarrier(s: State, t: State, event: Event)
    requires Inv(s) && event.Workflow? && Picks(s.rows, event.session) == []
    requires t == State(s.rows, s.log + [event], s.history + [Happened(event.id, event.session)])
    ensures HasBarrier(t, |s.history|)
  {
    hide LogStream, HistoryStream, RowStream, Picks, RowsAreReceipts, IdsAreFresh, HasBarrier;
    forall view ensures LogStream(view, event.session, s.log) == HistoryStream(view, event.session, s.history) {
      assert Preserved(s, view, event.session);
      NothingPicked(view, event.session, event.session, s.rows);
    }
    assert t.log[..|s.log|] == s.log && t.history[..|s.history|] == s.history;
    Witness(t, |s.history|, |s.log|);
  }

  lemma Witness(s: State, j: nat, b: nat)
    requires BarrierAt(s, j, b)
    ensures HasBarrier(s, j)
  {}

  lemma {:induction false} InvAlongRun(s: State, steps: seq<Step>)
    requires Inv(s) && Legal(s, steps)
    ensures Inv(After(s, steps))
    decreases |steps|
  {
    if steps != [] {
      hide Inv;
      match steps[0] {
        case Receive(eventId, content) => ReceiveKeeps(s, eventId, content);
        case Flush(session, groups, done) => FlushKeeps(s, session, groups, done);
        case Insert(id, session, kind) => InsertKeeps(s, id, session, kind);
      }
      InvAlongRun(Apply(s, steps[0]), steps[1..]);
    }
  }

  /** Over every run of arrivals, retries, partial flushes and workflow events:
      no session's transcript loses, repeats or reorders a character or a
      fragment, each event id is one row, and a workflow event is logged after
      exactly what was accepted before it. */
  lemma TranscriptIsPreserved(steps: seq<Step>)
    requires Legal(EMPTY, steps)
    ensures var s := After(EMPTY, steps);
            && (forall view, session :: Preserved(s, view, session))
            && RowsAreReceipts(s)
            && IdsAreFresh(s.log)
            && (forall j :: 0 <= j < |s.history| && s.history[j].Happened? ==> HasBarrier(s, j))
            && forall view, session :: Picks(s.rows, session) == [] && session != "" ==>
                 LogStream(view, session, s.log) == HistoryStream(view, session, s.history)
  {
    InvAlongRun(EMPTY, steps);
    var s := After(EMPTY, steps);
    forall view, session | Picks(s.rows, session) == [] && session != ""
      ensures LogStream(view, session, s.log) == HistoryStream(view, session, s.history)
    {
      assert Preserved(s, view, session);
      NothingPicked(view, session, session, s.rows);
    }
  }

  /** The batching loop has no freedom: the runs of a batch are unique. */
  lemma {:induction false} RunsAreUnique(a: seq<seq<Row>>, b: seq<seq<Row>>, batch: seq<Row>)
    requires RunsOf(a, batch) && RunsOf(b, batch)
    ensures a == b
    decreases |batch|
  {
    FlattenOfRuns(a);
    FlattenOfRuns(b);
    if a != [] && b != [] {
      assert Uniform(a[0]) && Uniform(b[0]);
      FirstRunIsNotLonger(a, b, batch);
      FirstRunIsNotLonger(b, a, batch);
      assert a[0] == batch[..|a[0]|] == b[0];
      assert Flatten(a[1..]) == batch[|a[0]|..] == Flatten(b[1..]);
      RunsOfTail(a, batch);
      RunsOfTail(b, batch);
      RunsAreUnique(a[1..], b[1..], batch[|a[0]|..]);
      assert a == [a[0]] + a[1..] && b == [b[0]] + b[1..];
    }
  }

  lemma RunsOfTail(a: seq<seq<Row>>, batch: seq<Row>)
    requires RunsOf(a, batch) && a != []
    ensures RunsOf(a[1..], batch[|a[0]|..])
  {
    var tail: seq<seq<Row>> := a[1..];
    forall i: int, j: int | 0 <= i && j == i + 1 < |tail| && tail[i] != [] && tail[j] != []
      ensures Key(tail[i][0].content) != Key(tail[j][0].content)
    {
      assert tail[i] == a[i + 1] && tail[j] == a[j + 1];
    }
  }

  lemma FlattenOfRuns(a: seq<seq<Row>>)
    requires forall group :: group in a ==> Uniform(group)
    ensures Flatten(a) == [] <==> a == []
  {
    if a != [] { assert Uniform(a[0]); }
  }

  lemma FirstRunEnds(a: seq<seq<Row>>, batch: seq<Row>)
    requires RunsOf(a, batch) && a != []
    ensures 0 < |a[0]| <= |batch|
    ensures forall n :: 0 <= n < |a[0]| ==> Key(batch[n].content) == Key(batch[0].content)
    ensures |a[0]| < |batch| ==> Key(batch[|a[0]|].content) != Key(batch[0].content)
  {
    assert Uniform(a[0]);
    var rest := Flatten(a[1..]);
    assert batch == a[0] + rest;
    forall n | 0 <= n < |a[0]| ensures Key(batch[n].content) == Key(batch[0].content) {
      assert batch[n] == a[0][n] && a[0][n] in a[0];
    }
    if rest != [] {
      assert Uniform(a[1]);
      assert batch[|a[0]|] == rest[0] == a[1][0];
    }
  }

  lemma FirstRunIsNotLonger(a: seq<seq<Row>>, b: seq<seq<Row>>, batch: seq<Row>)
    requires RunsOf(a, batch) && RunsOf(b, batch) && a != [] && b != []
    ensures |a[0]| <= |b[0]|
  {
    FirstRunEnds(a, batch);
    FirstRunEnds(b, batch);
  }

  // ---- the store, updated in place ----

  class EventStore {
    var telemetryIngress: seq<Row>
    var eventLog: seq<Event>
    var telemetryIngressFlushRunning: bool
    ghost var history: seq<Item>

    ghost function Model(): State
      reads this
    {
      State(telemetryIngress, eventLog, history)
    }

    constructor ()
      ensures Model() == EMPTY && !telemetryIngressFlushRunning
    {
      telemetryIngress, eventLog, telemetryIngressFlushRunning, history := [], [], false, [];
    }

    /** `appendTelemetryIngress`: refuses other kinds and reused ids, and tells a
        retry from a first arrival. */
    method AppendTelemetryIngress(eventId: string, content: Fragment) returns (ok: bool, duplicate: bool)
      modifies this`telemetryIngress, this`history
      ensures Model() == Apply(old(Model()), Receive(eventId, content))
      ensures ok <==> HighVolume(content.kind) && Find(old(telemetryIngress), eventId) in {None, Some(content)}
      ensures duplicate <==> HighVolume(content.kind) && Find(old(telemetryIngress), eventId) == Some(content)
      ensures DistinctIds(old(telemetryIngress)) ==>
                && (ok <==> content.kind in {"agent.run.output_delta", "agent.run.thought_delta"}
                            && forall row :: row in old(telemetryIngress) && row.eventId == eventId ==>
                                 row.content == content)
                && (duplicate <==> ok && exists row :: row in old(telemetryIngress) && row.eventId == eventId)
    {
      if DistinctIds(telemetryIngress) { FoundIsTheRow(telemetryIngress, eventId); }
      if !HighVolume(content.kind) { return false, false; }
      var existing := Find(telemetryIngress, eventId);
      if existing.Some? { return existing.value == content, existing.value == content; }
      telemetryIngress := telemetryIngress + [Row(eventId, content, false)];
      history := history + [Accepted(eventId, content)];
      return true, false;
    }

    /** The batching loop: start a group whenever the key changes. */
    method GroupAdjacent(rows: seq<Row>) returns (groups: seq<seq<Row>>)
      ensures RunsOf(groups, rows)
    {
      groups := [];
      var activeKey := "";
      for n := 0 to |rows|
        invariant RunsOf(groups, rows[..n])
        invariant groups != [] ==> Uniform(groups[|groups| - 1]) && activeKey == Key(groups[|groups| - 1][0].content)
      {
        var row := rows[n];
        var key := Key(row.content);
        assert rows[..n + 1] == rows[..n] + [row];
        if groups == [] || key != activeKey {
          StartRun(groups, rows[..n], row);
          groups := groups + [[row]];
          activeKey := key;
        } else {
          GrowRun(groups, rows[..n], row);
          groups := groups[..|groups| - 1] + [groups[|groups| - 1] + [row]];
        }
      }
      assert rows[..|rows|] == rows;
    }

    /** `flushTelemetryIngressBatch`, all of its groups committing. */
    method FlushTelemetryIngressBatch(session: Id) returns (flushed: nat, ghost groups: seq<seq<Row>>)
      modifies this
      ensures telemetryIngressFlushRunning == old(telemetryIngressFlushRunning)
      ensures if old(telemetryIngressFlushRunning) then flushed == 0 && Model() == old(Model())
              else
                var step := Flush(session, groups, |groups|);
                && flushed == |Batch(old(telemetryIngress), session)|
                && Enabled(old(Model()), step) && Model() == Apply(old(Model()), step)
    {
      hide Picks, EventsOf, MarkCommitted, Flatten, Key;
      if telemetryIngressFlushRunning { return 0, []; }
      NoGroups(telemetryIngress, |eventLog|);
      telemetryIngressFlushRunning := true;
      var rows := Batch(telemetryIngress, session);
      if |rows| == 0 {
        groups := [];
        telemetryIngressFlushRunning := false;
        return 0, groups;
      }
      var runs := GroupAdjacent(rows);
      assert runs[..0] == [];
      for n := 0 to |runs|
        invariant telemetryIngressFlushRunning && history == old(history)
        invariant telemetryIngress == MarkCommitted(old(telemetryIngress), Ids(Flatten(runs[..n])))
        invariant eventLog == old(eventLog) + EventsOf(runs[..n], |old(eventLog)|) && |eventLog| == |old(eventLog)| + n
      {
        var group := runs[n];
        assert Uniform(group);
        NextGroup(runs, n, old(telemetryIngress), |old(eventLog)|);
        eventLog := eventLog + [EventOf(group, |eventLog|)];
        telemetryIngress := MarkCommitted(telemetryIngress, Ids(group));
      }
      assert runs[..|runs|] == runs;
      telemetryIngressFlushRunning := false;
      return |rows|, runs;
    }

    /** `flushTelemetryIngress`: batches until one comes back empty. */
    method FlushTelemetryIngress(session: Id) returns (flushed: nat, ghost steps: seq<Step>)
      requires !telemetryIngressFlushRunning && DistinctIds(telemetryIngress)
      modifies this
      ensures !telemetryIngressFlushRunning
      ensures Legal(old(Model()), steps) && Model() == After(old(Model()), steps)
      ensures forall step :: step in steps ==> step.Flush? && step.session == session
      ensures Picks(telemetryIngress, session) == []
      ensures flushed == |Picks(old(telemetryIngress), session)|
    {
      hide Apply, Enabled, Legal, After, Picks, Batch, DistinctIds;
      flushed, steps := 0, [];
      NoSteps(Model());
      var batch := 1;
      while batch > 0
        invariant !telemetryIngressFlushRunning
        invariant Legal(old(Model()), steps) && Model() == After(old(Model()), steps)
        invariant forall step :: step in steps ==> step.Flush? && step.session == session
        invariant batch == 0 ==> Picks(telemetryIngress, session) == []
        invariant DistinctIds(telemetryIngress)
        invariant flushed + |Picks(telemetryIngress, session)| == |Picks(old(telemetryIngress), session)|
        decreases |Picks(telemetryIngress, session)|, batch
      {
        ghost var before := Model();
        ghost var groups;
        batch, groups := FlushTelemetryIngressBatch(session);
        ghost var step := Flush(session, groups, |groups|);
        RunExtends(old(Model()), steps, step);
        steps := steps + [step];
        BatchDrops(before, session, groups);
        flushed := flushed + batch;
      }
    }

    /** `appendEvent` for a workflow event: flush its session, then insert. */
    method AppendEvent(id: Option<EventId>, session: Id, kind: Id) returns (event: Event, ghost steps: seq<Step>)
      requires !telemetryIngressFlushRunning && DistinctIds(telemetryIngress) && !HighVolume(kind)
      requires id.Some? && id.value.Minted? ==> id.value.at < |eventLog|
      modifies this
      ensures !telemetryIngressFlushRunning
      ensures Legal(old(Model()), steps) && Model() == After(old(Model()), steps)
      ensures steps != [] && steps[|steps| - 1] == Insert(id, session, kind)
      ensures forall i :: 0 <= i < |steps| - 1 ==> steps[i].Flush? && steps[i].session == session
      ensures event in eventLog && (id.Some? ==> event.id == id.value)
      ensures forall row :: row in telemetryIngress && (session == "" || row.content.session == session) ==>
                row.committed
      ensures (id.Some? && id.value.Given? && forall e :: e in old(eventLog) ==> e.id != id.value) ==>
                event == Workflow(id.value, session, kind) && eventLog[|eventLog| - 1] == event
    {
      hide Legal, After, Picks, Batch, DistinctIds, MarkCommitted, EventsOf, Flatten, RunsOf;
      var _, flushes := FlushTelemetryIngress(session);
      LogGrows(old(Model()), flushes);
      FlushesMint(old(Model()), flushes);
      NoneIsPicked(telemetryIngress, session);
      ghost var step := Insert(id, session, kind);
      RunExtends(old(Model()), flushes, step);
      steps := flushes + [step];
      var eventId := if id.Some? then id.value else Minted(|eventLog|);
      for n := 0 to |eventLog|
        invariant forall i :: 0 <= i < n ==> eventLog[i].id != eventId
        invariant Model() == After(old(Model()), flushes) && !telemetryIngressFlushRunning
      {
        if eventLog[n].id == eventId {
          return eventLog[n], steps;
        }
      }
      event := Workflow(eventId, session, kind);
      eventLog := eventLog + [event];
      history := history + [Happened(eventId, session)];
    }
  }

  lemma NoGroups(rows: seq<Row>, at: nat)
    ensures RunsOf([], []) && EventsOf([], at) == []
    ensures MarkCommitted(rows, Ids(Flatten([]))) == rows
  {
    MarkNone(rows, Ids(Flatten([])));
  }

  lemma StartRun(groups: seq<seq<Row>>, batch: seq<Row>, row: Row)
    requires RunsOf(groups, batch)
    requires groups != [] ==> groups[|groups| - 1] != [] && Key(row.content) != Key(groups[|groups| - 1][0].content)
    ensures RunsOf(groups + [[row]], batch + [row])
  {
    FlattenConcat(groups, [[row]]);
    assert Flatten([[row]]) == [row] by { assert [[row]][1..] == []; }
  }

  lemma GrowRun(groups: seq<seq<Row>>, batch: seq<Row>, row: Row)
    requires RunsOf(groups, batch) && groups != []
    requires groups[|groups| - 1] != [] && Key(row.content) == Key(groups[|groups| - 1][0].content)
    ensures RunsOf(groups[..|groups| - 1] + [groups[|groups| - 1] + [row]], batch + [row])
    ensures Uniform(groups[|groups| - 1] + [row])
  {
    hide Flatten, Key;
    var init, last := groups[..|groups| - 1], groups[|groups| - 1];
    var grown: seq<seq<Row>> := init + [last + [row]];
    assert groups == init + [last];
    FlattenSnoc(init, last);
    FlattenSnoc(init, last + [row]);
    assert Flatten(init) + (last + [row]) == (Flatten(init) + last) + [row];
    assert Uniform(last) && Uniform(last + [row]);
    forall group | group in grown ensures Uniform(group) {
      assert group in init ==> group in groups;
    }
    forall i: int, j: int | 0 <= i && j == i + 1 < |grown| && grown[i] != [] && grown[j] != []
      ensures Key(grown[i][0].content) != Key(grown[j][0].content)
    {
      assert groups[i] in groups && Uniform(groups[i]);
      assert grown[i][0] == groups[i][0] && grown[j][0] == groups[j][0];
    }
  }

  lemma FlattenSnoc(init: seq<seq<Row>>, last: seq<Row>)
    ensures Flatten(init + [last]) == Flatten(init) + last
  {
    FlattenConcat(init, [last]);
    assert [last][1..] == [];
  }

  lemma {:induction false} MarkTwice(rows: seq<Row>, a: set<string>, b: set<string>)
    ensures MarkCommitted(MarkCommitted(rows, a), b) == MarkCommitted(rows, a + b)
  {
    if rows != [] { MarkTwice(rows[1..], a, b); }
  }

  lemma {:induction false} EventsConcat(a: seq<seq<Row>>, b: seq<seq<Row>>, at: nat)
    requires forall group :: group in a + b ==> Uniform(group)
    ensures forall group :: group in a || group in b ==> Uniform(group)
    ensures EventsOf(a + b, at) == EventsOf(a, at) + EventsOf(b, at + |a|)
  {
    forall group | group in a || group in b ensures Uniform(group) { assert group in a + b; }
    if a == [] {
      assert a + b == b;
    } else {
      assert (a + b)[1..] == a[1..] + b;
      EventsConcat(a[1..], b, at + 1);
    }
  }

  lemma NextGroup(runs: seq<seq<Row>>, n: nat, rows: seq<Row>, at: nat)
    requires n < |runs| && Uniform(runs[n]) && forall group :: group in runs ==> Uniform(group)
    ensures EventsOf(runs[..n + 1], at) == EventsOf(runs[..n], at) + [EventOf(runs[n], at + n)]
    ensures MarkCommitted(MarkCommitted(rows, Ids(Flatten(runs[..n]))), Ids(runs[n]))
         == MarkCommitted(rows, Ids(Flatten(runs[..n + 1])))
  {
    assert runs[..n + 1] == runs[..n] + [runs[n]];
    EventsConcat(runs[..n], [runs[n]], at);
    assert [runs[n]][1..] == [];
    FlattenConcat(runs[..n], [runs[n]]);
    assert Flatten([runs[n]]) == runs[n];
    MarkTwice(rows, Ids(Flatten(runs[..n])), Ids(runs[n]));
    assert Ids(Flatten(runs[..n]) + runs[n]) == Ids(Flatten(runs[..n])) + Ids(runs[n]);
  }

  /** A whole batch leaves the front of the pending rows. */
  lemma BatchDrops(s: State, session: Id, groups: seq<seq<Row>>)
    requires DistinctIds(s.rows) && Enabled(s, Flush(session, groups, |groups|))
    ensures var t := Apply(s, Flush(session, groups, |groups|));
            && DistinctIds(t.rows)
            && |Picks(s.rows, session)| == |Batch(s.rows, session)| + |Picks(t.rows, session)|
            && (Batch(s.rows, session) == [] ==> Picks(t.rows, session) == [])
  {
    hide Picks, MarkCommitted, EventsOf, Uniform, Key;
    assert groups[..|groups|] == groups;
    MarkKeepsIdentity(s.rows, Ids(Flatten(groups)));
    PicksDrop(s.rows, session, Flatten(groups));
  }

  lemma NoSteps(s: State)
    ensures Legal(s, []) && After(s, []) == s
  {}

  lemma {:induction false} RunExtends(s: State, steps: seq<Step>, step: Step)
    requires Legal(s, steps) && Enabled(After(s, steps), step)
    ensures Legal(s, steps + [step]) && After(s, steps + [step]) == Apply(After(s, steps), step)
    decreases |steps|
  {
    if steps == [] {
      assert [step][1..] == [];
    } else {
      assert (steps + [step])[1..] == steps[1..] + [step];
      RunExtends(Apply(s, steps[0]), steps[1..], step);
    }
  }

  lemma {:induction false} LogGrows(s: State, steps: seq<Step>)
    requires Legal(s, steps)
    ensures s.log <= After(s, steps).log
    decreases |steps|
  {
    if steps != [] { LogGrows(Apply(s, steps[0]), steps[1..]); }
  }

  /** The events of flushes carry ids of their own making. */
  lemma {:induction false} FlushesMint(s: State, steps: seq<Step>)
    requires Legal(s, steps) && forall step :: step in steps ==> step.Flush?
    ensures forall event :: event in After(s, steps).log ==> event in s.log || event.id.Minted?
    decreases |steps|
  {
    if steps != [] {
      hide RunsOf, Batch, MarkCommitted;
      var step := steps[0];
      assert step in steps;
      EventsHaveFreshIds(step.groups[..step.done], |s.log|);
      FlushesMint(Apply(s, step), steps[1..]);
    }
  }

  lemma {:induction false} NoneIsPicked(rows: seq<Row>, session: Id)
    requires Picks(rows, session) == []
    ensures forall row :: row in rows && (session == "" || row.content.session == session) ==> row.committed
  {
    if rows != [] { NoneIsPicked(rows[1..], session); }
  }
}
