/** What the event log says in the end, told from the fields of the fragments that
    were accepted: every letter of every session, the events of a flush, and the
    rows a flush takes. */
module EventTranscript {
  import opened Common
  import opened EventLog

  // ---- every letter ----

  type Letters = seq<(Id, char)>

  function LettersOf(kind: Id, text: string): Letters {
    seq(|text|, i requires 0 <= i < |text| => (kind, text[i]))
  }

  function SaidIn(session: Id, f: Fragment): Letters {
    if f.session == session && f.payload.text.Some? then LettersOf(f.kind, f.payload.text.value) else []
  }

  /** What the accepted fragments of a session say, in order. */
  function Said(session: Id, history: seq<Item>): Letters {
    if history == [] then []
    else (if history[0].Accepted? then SaidIn(session, history[0].content) else []) + Said(session, history[1..])
  }

  /** What the log says for a session. */
  function Logged(session: Id, log: seq<Event>): Letters {
    if log == [] then []
    else (if log[0].Coalesced? && log[0].session == session then LettersOf(log[0].kind, log[0].text) else [])
           + Logged(session, log[1..])
  }

  /** What the rows that are not in the log yet say. */
  function Waiting(session: Id, rows: seq<Row>): Letters {
    if rows == [] then []
    else (if rows[0].committed then [] else SaidIn(session, rows[0].content)) + Waiting(session, rows[1..])
  }

  function Spoken(symbols: seq<Symbol>): Letters {
    if symbols == [] then []
    else (if symbols[0].Character? then [(symbols[0].kind, symbols[0].c)] else []) + Spoken(symbols[1..])
  }

  lemma {:induction false} SpokenConcat(a: seq<Symbol>, b: seq<Symbol>)
    ensures Spoken(a + b) == Spoken(a) + Spoken(b)
  {
    if a == [] {
      LeftUnit(b);
    } else {
      assert (a + b)[1..] == a[1..] + b;
      SpokenConcat(a[1..], b);
      Assoc(if a[0].Character? then [(a[0].kind, a[0].c)] else [], Spoken(a[1..]), Spoken(b));
    }
  }

  lemma {:induction false} SpokenText(kind: Id, text: string)
    ensures Spoken(Spelled(kind, text)) == LettersOf(kind, text)
  {
    if text != "" {
      SpokenText(kind, text[1..]);
      SpokenConcat([Character(kind, text[0])], Spelled(kind, text[1..]));
      assert [Character(kind, text[0])][1..] == [];
    }
  }

  lemma SpokenFragment(session: Id, f: Fragment)
    ensures Spoken(ShownFragment(Characters, session, f)) == SaidIn(session, f)
  {
    if f.payload.text.Some? { SpokenText(f.kind, f.payload.text.value); }
  }

  lemma SpokenMark(id: EventId)
    ensures Spoken([Mark(id)]) == []
  {}

  lemma {:induction false} SpokenHistory(session: Id, history: seq<Item>)
    ensures Spoken(HistoryStream(Characters, session, history)) == Said(session, history)
  {
    if history != [] {
      SpokenHistory(session, history[1..]);
      SpokenConcat(ShownItem(Characters, session, history[0]), HistoryStream(Characters, session, history[1..]));
      match history[0]
      case Accepted(_, content) => SpokenFragment(session, content);
      case Happened(id, _) => SpokenMark(id);
    }
  }

  lemma {:induction false} SpokenLog(session: Id, log: seq<Event>)
    ensures Spoken(LogStream(Characters, session, log)) == Logged(session, log)
  {
    if log != [] {
      SpokenLog(session, log[1..]);
      SpokenConcat(ShownEvent(Characters, session, log[0]), LogStream(Characters, session, log[1..]));
      match log[0]
      case Coalesced(_, _, _, kind, text, _) => SpokenText(kind, text);
      case Workflow(id, _, _) => SpokenMark(id);
    }
  }

  lemma {:induction false} SpokenRows(session: Id, rows: seq<Row>)
    ensures Spoken(RowStream(Characters, session, Pending(rows))) == Waiting(session, rows)
  {
    if rows != [] {
      var rest := Pending(rows[1..]);
      SpokenRows(session, rows[1..]);
      HeadAndRest(rows);
      PendingOf(rows[0], rows[1..]);
      if rows[0].committed {
        LeftUnit(rest);
      } else {
        var shown := ShownFragment(Characters, session, rows[0].content);
        assert ([rows[0]] + rest)[1..] == rest;
        SpokenFragment(session, rows[0].content);
        SpokenConcat(shown, RowStream(Characters, session, rest));
      }
    }
  }

  ghost predicate BarrierSays(s: State, j: nat, b: nat) {
    && j < |s.history| && b < |s.log| && s.log[b].Workflow?
    && s.history[j] == Happened(s.log[b].id, s.log[b].session)
    && Logged(s.log[b].session, s.log[..b]) == Said(s.log[b].session, s.history[..j])
  }

  /** Nothing that was said is lost, repeated or moved: over every run, what the log
      says for a session, and then what its waiting rows say, is what its accepted
      fragments said; and each workflow event stands in the log behind just what its
      session had said before it. */
  lemma NothingSaidIsLost(steps: seq<Step>)
    requires Legal(EMPTY, steps)
    ensures var s := After(EMPTY, steps);
            && (forall session :: Logged(session, s.log) + Waiting(session, s.rows) == Said(session, s.history))
            && forall j :: 0 <= j < |s.history| && s.history[j].Happened? ==> exists b :: BarrierSays(s, j, b)
  {
    hide LogStream, HistoryStream, RowStream, Picks, Pending, Logged, Waiting, Said;
    TranscriptIsPreserved(steps);
    var s := After(EMPTY, steps);
    forall session: Id ensures Logged(session, s.log) + Waiting(session, s.rows) == Said(session, s.history) {
      assert Preserved(s, Characters, session);
      SpokenLog(session, s.log);
      SpokenRows(session, s.rows);
      SpokenHistory(session, s.history);
      SpokenConcat(LogStream(Characters, session, s.log), RowStream(Characters, session, Pending(s.rows)));
    }
    forall j | 0 <= j < |s.history| && s.history[j].Happened? ensures exists b :: BarrierSays(s, j, b) {
      assert HasBarrier(s, j);
      var b: nat :| BarrierAt(s, j, b);
      SpokenLog(s.log[b].session, s.log[..b]);
      SpokenHistory(s.log[b].session, s.history[..j]);
      assert BarrierSays(s, j, b);
    }
  }

  // ---- the events of a flush ----

  function Concat(texts: seq<string>): string {
    if texts == [] then "" else texts[0] + Concat(texts[1..])
  }

  /** The texts of a group's fragments; a fragment without one counts as empty. */
  ghost predicate TextsAre(texts: seq<string>, group: seq<Row>) {
    && |texts| == |group|
    && forall i :: 0 <= i < |group| ==>
         match group[i].content.payload.text case Some(text) => texts[i] == text case None => texts[i] == ""
  }

  ghost predicate SameStream(f: Fragment, g: Fragment) {
    && f.session == g.session && f.kind == g.kind
    && (f.workspace == g.workspace || {f.workspace, g.workspace} == {None, Some("")})
  }

  /** The event of a group: the stream its rows have in common, with the workspace of
      its first row, their texts one after another, and how many they are. */
  ghost predicate Tells(event: Event, group: seq<Row>) {
    && group != [] && event.Coalesced? && event.count == |group|
    && event.workspace == group[0].content.workspace
    && (forall row :: row in group ==>
          && row.content.session == event.session && row.content.kind == event.kind
          && SameStream(row.content, group[0].content))
    && exists texts :: TextsAre(texts, group) && event.text == Concat(texts)
  }

  lemma {:induction false} JoinedTexts(group: seq<Row>) returns (texts: seq<string>)
    ensures TextsAre(texts, group) && Texts(group) == Concat(texts)
  {
    texts := [];
    if group != [] {
      texts := JoinedTexts(group[1..]);
      var text := match group[0].content.payload.text case Some(text) => text case None => "";
      var rest := texts;
      texts := [text] + rest;
      assert texts[1..] == rest;
    }
  }

  lemma EventTells(group: seq<Row>, at: nat)
    requires Uniform(group)
    ensures Tells(EventOf(group, at), group)
  {
    forall row | row in group ensures SameStream(row.content, group[0].content) {
      KeyDecides(row.content, group[0].content);
    }
    var texts := JoinedTexts(group);
  }

  lemma {:induction false} EventsTell(groups: seq<seq<Row>>, at: nat)
    requires forall group :: group in groups ==> Uniform(group)
    ensures |EventsOf(groups, at)| == |groups|
    ensures forall n :: 0 <= n < |groups| ==> Tells(EventsOf(groups, at)[n], groups[n])
  {
    hide Tells, Key;
    if groups != [] {
      assert Uniform(groups[0]);
      EventsTell(groups[1..], at + 1);
      EventTells(groups[0], at);
      var events := EventsOf(groups, at);
      forall n | 0 <= n < |groups| ensures Tells(events[n], groups[n]) {
        if n > 0 { assert events[n] == EventsOf(groups[1..], at + 1)[n - 1] && groups[n] == groups[1..][n - 1]; }
      }
    }
  }

  ghost predicate StreamChanges(groups: seq<seq<Row>>, n: nat)
    requires n + 1 < |groups|
  {
    && groups[n] != [] && groups[n + 1] != []
    && !SameStream(groups[n][0].content, groups[n + 1][0].content)
  }

  /** A flush appends one event for each group it commits, and a group ends only
      where the stream changes. */
  lemma FlushLogs(s: State, session: Id, groups: seq<seq<Row>>, done: nat)
    requires Enabled(s, Flush(session, groups, done))
    ensures var t := Apply(s, Flush(session, groups, done));
            && s.log <= t.log && |t.log| == |s.log| + done
            && forall n :: 0 <= n < done ==> Tells(t.log[|s.log| + n], groups[n])
    ensures forall n: nat :: n + 1 < |groups| ==> StreamChanges(groups, n)
  {
    hide Tells, Key, Picks, MarkCommitted, SameStream;
    EventsTell(groups[..done], |s.log|);
    NeighboursDiffer(groups, Batch(s.rows, session));
  }

  lemma NeighboursDiffer(groups: seq<seq<Row>>, batch: seq<Row>)
    requires RunsOf(groups, batch)
    ensures forall n: nat :: n + 1 < |groups| ==> StreamChanges(groups, n)
  {
    hide Flatten, Key, SameStream;
    forall n: nat | n + 1 < |groups| ensures StreamChanges(groups, n) {
      var m := n + 1;
      assert Uniform(groups[n]) && Uniform(groups[m]);
      StreamIsKey(groups[n][0].content, groups[m][0].content);
    }
  }

  lemma StreamIsKey(f: Fragment, g: Fragment)
    ensures SameStream(f, g) <==> Key(f) == Key(g)
  {
    KeyDecides(f, g);
  }

  // ---- the rows of a flush ----

  /** Row `i` is wanted: not in the log yet, and of the session, if one is named. */
  predicate Wanted(rows: seq<Row>, session: Id, i: nat)
    requires i < |rows|
  {
    !rows[i].committed && (session == "" || rows[i].content.session == session)
  }

  /** How many wanted rows come before row `i`. */
  function Before(rows: seq<Row>, session: Id, i: nat): nat
    requires i <= |rows|
  {
    if i == 0 then 0 else Before(rows, session, i - 1) + if Wanted(rows, session, i - 1) then 1 else 0
  }

  lemma {:induction false} BeforeOf(rows: seq<Row>, session: Id, i: nat)
    requires 0 < i <= |rows|
    ensures Before(rows, session, i) == (if Wanted(rows, session, 0) then 1 else 0) + Before(rows[1..], session, i - 1)
  {
    if i > 1 { BeforeOf(rows, session, i - 1); }
  }

  /** The rows a flush picks, by their rank among the wanted ones. */
  lemma {:induction false} PicksAre(rows: seq<Row>, session: Id)
    ensures |Picks(rows, session)| == Before(rows, session, |rows|)
    ensures forall i :: 0 <= i < |rows| && Wanted(rows, session, i) ==>
              && Before(rows, session, i) < |Picks(rows, session)|
              && Picks(rows, session)[Before(rows, session, i)] == rows[i]
  {
    if rows != [] {
      var rest := rows[1..];
      PicksAre(rest, session);
      BeforeOf(rows, session, |rows|);
      forall i | 0 <= i < |rows| && Wanted(rows, session, i)
        ensures Before(rows, session, i) < |Picks(rows, session)|
                && Picks(rows, session)[Before(rows, session, i)] == rows[i]
      {
        if i > 0 { LaterPick(rows, session, i); }
      }
    }
  }

  lemma LaterPick(rows: seq<Row>, session: Id, i: nat)
    requires 0 < i < |rows| && Wanted(rows, session, i)
    requires var k, picks := Before(rows[1..], session, i - 1), Picks(rows[1..], session);
             Wanted(rows[1..], session, i - 1) ==> k < |picks| && picks[k] == rows[i]
    ensures Before(rows, session, i) < |Picks(rows, session)|
            && Picks(rows, session)[Before(rows, session, i)] == rows[i]
  {
    hide Before;
    BeforeOf(rows, session, i);
  }

  /** Every pick is the row of its rank. */
  lemma {:induction false} PickOf(rows: seq<Row>, session: Id, k: nat) returns (i: nat)
    requires k < |Picks(rows, session)|
    ensures i < |rows| && Wanted(rows, session, i) && Before(rows, session, i) == k
  {
    if Wanted(rows, session, 0) && k == 0 {
      i := 0;
    } else {
      var n := PickOf(rows[1..], session, if Wanted(rows, session, 0) then k - 1 else k);
      i := n + 1;
      BeforeOf(rows, session, i);
    }
  }

  /** A flush takes, of the wanted rows in order, a first few and never more than 512;
      all of its groups are all of those. It marks just these and leaves every row
      its id and content. */
  lemma FlushTakes(s: State, session: Id, groups: seq<seq<Row>>, done: nat)
    requires DistinctIds(s.rows) && Enabled(s, Flush(session, groups, done))
    ensures var t, taken := Apply(s, Flush(session, groups, done)), |Flatten(groups[..done])|;
            && |t.rows| == |s.rows|
            && (forall i :: 0 <= i < |s.rows| ==>
                  && t.rows[i].eventId == s.rows[i].eventId && t.rows[i].content == s.rows[i].content
                  && (t.rows[i].committed <==>
                        s.rows[i].committed || (Wanted(s.rows, session, i) && Before(s.rows, session, i) < taken)))
            && (forall i :: 0 <= i < |s.rows| && Wanted(s.rows, session, i) && Before(s.rows, session, i) < taken ==>
                  Flatten(groups[..done])[Before(s.rows, session, i)] == s.rows[i])
            && taken <= Before(s.rows, session, |s.rows|) && taken <= 512
            && (done == |groups| ==> taken == 512 || taken == Before(s.rows, session, |s.rows|))
  {
    hide Picks, Flatten, EventsOf, Uniform, Key, MarkCommitted, Before, Wanted;
    var taken := Flatten(groups[..done]);
    assert taken <= Batch(s.rows, session) by {
      FlattenConcat(groups[..done], groups[done..]);
      assert groups[..done] + groups[done..] == groups;
    }
    assert done == |groups| ==> groups[..done] == groups;
    MarkKeepsIdentity(s.rows, Ids(taken));
    PicksAre(s.rows, session);
    forall i | 0 <= i < |s.rows|
      ensures s.rows[i].eventId in Ids(taken) <==>
              Wanted(s.rows, session, i) && Before(s.rows, session, i) < |taken|
    {
      TakenIs(s.rows, session, taken, i);
    }
  }

  lemma TakenIs(rows: seq<Row>, session: Id, taken: seq<Row>, i: nat)
    requires DistinctIds(rows) && taken <= Picks(rows, session) && i < |rows|
    ensures rows[i].eventId in Ids(taken) <==> Wanted(rows, session, i) && Before(rows, session, i) < |taken|
  {
    hide Picks, Before, Wanted;
    PicksAre(rows, session);
    if rows[i].eventId in Ids(taken) {
      var row :| row in taken && row.eventId == rows[i].eventId;
      var k: nat :| k < |taken| && taken[k] == row;
      var j := PickOf(rows, session, k);
      assert rows[j] == row;
      assert j == i;
    }
    if Wanted(rows, session, i) && Before(rows, session, i) < |taken| {
      assert taken[Before(rows, session, i)] == rows[i];
    }
  }

  // ---- arrivals ----

  /** A fragment is taken in exactly when it is output or thought and its id is new;
      whatever arrives, nothing else changes. */
  lemma ArrivalIs(s: State, eventId: string, content: Fragment)
    ensures var t := Apply(s, Receive(eventId, content));
            && t.log == s.log
            && (t != s <==> content.kind in {"agent.run.output_delta", "agent.run.thought_delta"}
                            && forall row :: row in s.rows ==> row.eventId != eventId)
            && (t != s ==> t.rows == s.rows + [Row(eventId, content, false)]
                           && t.history == s.history + [Accepted(eventId, content)])
  {
    FindIsMembership(s.rows, eventId);
    if row :| row in s.rows && row.eventId == eventId {
      var i :| 0 <= i < |s.rows| && s.rows[i] == row;
    }
  }
}
