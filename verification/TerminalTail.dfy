/** The newest terminal snapshots kept beyond their TTL: `terminalTailRefs` of
    src/filesystem-snapshot-store.ts, specified by a full stable sort. */
module TerminalTail {
  import opened Common
  import opened SnapshotTypes

  /** One terminal root. `stamped` tells an authoritative terminal time from the
      manifest-mtime fallback. */
  datatype Entry = Entry(ref: Ref, ageAtMs: int, stamped: bool)

  ghost predicate Descending(entries: seq<Entry>) {
    forall i, j :: 0 <= i < j < |entries| ==> entries[i].ageAtMs >= entries[j].ageAtMs
  }

  function OfAge(entries: seq<Entry>, age: int): seq<Entry> {
    if entries == [] then []
    else (if entries[0].ageAtMs == age then [entries[0]] else []) + OfAge(entries[1..], age)
  }

  /** Descending by age stamp, with equal stamps left in list order. */
  ghost predicate StableSortOf(sorted: seq<Entry>, entries: seq<Entry>) {
    Descending(sorted) && forall age :: OfAge(sorted, age) == OfAge(entries, age)
  }

  function Insert(sorted: seq<Entry>, e: Entry): (r: seq<Entry>)
    ensures |r| == |sorted| + 1
    ensures forall x :: x in r <==> x == e || x in sorted
  {
    if sorted == [] || e.ageAtMs > sorted[0].ageAtMs then [e] + sorted
    else [sorted[0]] + Insert(sorted[1..], e)
  }

  function Sorted(entries: seq<Entry>): (r: seq<Entry>)
    ensures |r| == |entries|
    ensures forall x :: x in r <==> x in entries
  {
    if entries == [] then [] else Insert(Sorted(entries[..|entries| - 1]), entries[|entries| - 1])
  }

  function First<T>(s: seq<T>, n: int): seq<T> {
    if n <= 0 then [] else if n <= |s| then s[..n] else s
  }

  function Refs(entries: seq<Entry>): set<Ref> {
    set e | e in entries :: e.ref
  }

  /** The refs of the first `limit` elements of the full stable sort. */
  function TailRefs(entries: seq<Entry>, limit: int): set<Ref> {
    Refs(First(Sorted(entries), limit))
  }

  lemma {:induction false} OfAgeConcat(a: seq<Entry>, b: seq<Entry>, age: int)
    ensures OfAge(a + b, age) == OfAge(a, age) + OfAge(b, age)
  {
    if a == [] {
      assert a + b == b;
    } else {
      assert (a + b)[1..] == a[1..] + b;
      OfAgeConcat(a[1..], b, age);
      var first := if a[0].ageAtMs == age then [a[0]] else [];
      assert first + (OfAge(a[1..], age) + OfAge(b, age)) == (first + OfAge(a[1..], age)) + OfAge(b, age);
    }
  }

  lemma {:induction false} InsertDescending(sorted: seq<Entry>, e: Entry)
    requires Descending(sorted)
    ensures Descending(Insert(sorted, e))
  {
    if sorted != [] && e.ageAtMs <= sorted[0].ageAtMs {
      InsertDescending(sorted[1..], e);
      var r, rest := Insert(sorted, e), Insert(sorted[1..], e);
      forall i, j | 0 <= i < j < |r| ensures r[i].ageAtMs >= r[j].ageAtMs {
        if i == 0 { assert rest[j - 1] in rest; } else { assert rest[i - 1].ageAtMs >= rest[j - 1].ageAtMs; }
      }
    }
  }

  lemma {:induction false} InsertIsStable(sorted: seq<Entry>, e: Entry, age: int)
    requires Descending(sorted)
    ensures OfAge(Insert(sorted, e), age) == OfAge(sorted, age) + OfAge([e], age)
  {
    if sorted == [] {
    } else if e.ageAtMs > sorted[0].ageAtMs {
      if e.ageAtMs == age { NoneOfAge(sorted, age); }
      OfAgeConcat([e], sorted, age);
    } else {
      InsertIsStable(sorted[1..], e, age);
      assert Insert(sorted, e)[1..] == Insert(sorted[1..], e);
    }
  }

  lemma {:induction false} NoneOfAge(entries: seq<Entry>, age: int)
    requires forall e :: e in entries ==> e.ageAtMs < age
    ensures OfAge(entries, age) == []
  {
    if entries != [] { NoneOfAge(entries[1..], age); }
  }

  lemma {:induction false} SortedIsStableSort(entries: seq<Entry>)
    ensures StableSortOf(Sorted(entries), entries)
  {
    if entries != [] {
      var n := |entries| - 1;
      SortedIsStableSort(entries[..n]);
      forall age ensures OfAge(Sorted(entries), age) == OfAge(entries, age) {
        InsertIsStable(Sorted(entries[..n]), entries[n], age);
        OfAgeConcat(entries[..n], [entries[n]], age);
        assert entries[..n] + [entries[n]] == entries;
      }
      InsertDescending(Sorted(entries[..n]), entries[n]);
    }
  }

  lemma {:induction false} HeadDominates(s: seq<Entry>, t: seq<Entry>)
    requires Descending(s) && Descending(t) && s != []
    requires forall age :: OfAge(s, age) == OfAge(t, age)
    ensures t != [] && t[0].ageAtMs >= s[0].ageAtMs
  {
    var age := s[0].ageAtMs;
    assert OfAge(s, age) != [];
    if t == [] || t[0].ageAtMs < age { NoneOfAge(t, age); }
  }

  /** A stable sort is unique, so Sorted is the one a library sort returns. */
  lemma {:induction false} StableSortIsUnique(s: seq<Entry>, t: seq<Entry>)
    requires Descending(s) && Descending(t)
    requires forall age :: OfAge(s, age) == OfAge(t, age)
    ensures s == t
  {
    if s == [] {
      if t != [] { HeadDominates(t, s); }
    } else {
      HeadDominates(s, t);
      HeadDominates(t, s);
      assert OfAge(s, s[0].ageAtMs) == OfAge(t, s[0].ageAtMs);
      assert OfAge(s, s[0].ageAtMs)[0] == s[0] && OfAge(t, s[0].ageAtMs)[0] == t[0];
      forall age ensures OfAge(s[1..], age) == OfAge(t[1..], age) {
        assert OfAge(s, age) == OfAge(t, age);
        if age == s[0].ageAtMs {
          assert OfAge(s, age)[1..] == OfAge(s[1..], age) && OfAge(t, age)[1..] == OfAge(t[1..], age);
        } else {
          assert OfAge(s, age) == OfAge(s[1..], age) && OfAge(t, age) == OfAge(t[1..], age);
        }
      }
      StableSortIsUnique(s[1..], t[1..]);
    }
  }

  /** The tail is that of any stable sort of the list, however it is computed. */
  lemma TailOfAnyStableSort(entries: seq<Entry>, sorted: seq<Entry>, limit: int)
    requires StableSortOf(sorted, entries)
    ensures TailRefs(entries, limit) == Refs(First(sorted, limit))
  {
    SortedIsStableSort(entries);
    StableSortIsUnique(Sorted(entries), sorted);
  }

  // ---- the bounded in-place insertion ----

  /** Inserting into a list cut at `limit` is the cut of the full insertion. */
  lemma {:induction false} InsertIntoCut(sorted: seq<Entry>, e: Entry, limit: nat)
    ensures First(Insert(sorted, e), limit) == First(Insert(First(sorted, limit), e), limit)
  {
    if limit > 0 && sorted != [] && e.ageAtMs <= sorted[0].ageAtMs {
      InsertIntoCut(sorted[1..], e, limit - 1);
      var cut := First(sorted, limit);
      assert cut[1..] == First(sorted[1..], limit - 1);
      assert Insert(cut, e) == [sorted[0]] + Insert(cut[1..], e);
      FirstCons(sorted[0], Insert(cut[1..], e), limit);
      FirstCons(sorted[0], Insert(sorted[1..], e), limit);
    }
  }

  /** Position-based insertion, as findIndex and splice perform it. */
  lemma {:induction false} InsertAtPosition(sorted: seq<Entry>, e: Entry, at: nat)
    requires at <= |sorted|
    requires forall i :: 0 <= i < at ==> e.ageAtMs <= sorted[i].ageAtMs
    requires at < |sorted| ==> e.ageAtMs > sorted[at].ageAtMs
    ensures Insert(sorted, e) == sorted[..at] + [e] + sorted[at..]
  {
    if at > 0 {
      InsertAtPosition(sorted[1..], e, at - 1);
      assert sorted[..at] == [sorted[0]] + sorted[1..][..at - 1];
    }
  }

  datatype Selected = Selected(entry: Entry, sourceIndex: nat)

  function Entries(selected: seq<Selected>): seq<Entry> {
    seq(|selected|, i requires 0 <= i < |selected| => selected[i].entry)
  }

  /** `terminalTailRefs`: one pass, a list never longer than `limit` + 1. */
  method TerminalTailRefs(terminal: seq<Entry>, limit: int) returns (refs: set<Ref>)
    ensures refs == TailRefs(terminal, limit)
  {
    if limit <= 0 { return {}; }
    var selected: seq<Selected> := [];
    for sourceIndex := 0 to |terminal|
      invariant |selected| <= limit
      invariant forall i :: 0 <= i < |selected| ==> selected[i].sourceIndex < sourceIndex
      invariant Entries(selected) == First(Sorted(terminal[..sourceIndex]), limit)
    {
      var candidate := terminal[sourceIndex];
      assert terminal[..sourceIndex + 1][..sourceIndex] == terminal[..sourceIndex];
      InsertIntoCut(Sorted(terminal[..sourceIndex]), candidate, limit);
      selected := Splice(selected, candidate, sourceIndex, limit);
    }
    assert terminal[..|terminal|] == terminal;
    refs := set s | s in selected :: s.entry.ref;
    RefsOfSelected(selected);
  }

  lemma RefsOfSelected(selected: seq<Selected>)
    ensures (set s | s in selected :: s.entry.ref) == Refs(Entries(selected))
  {
    forall i | 0 <= i < |selected| ensures selected[i].entry.ref in Refs(Entries(selected)) {
      assert Entries(selected)[i] in Entries(selected);
    }
  }

  /** One turn of the loop: insert before the first older entry, drop the overflow. */
  method Splice(selected: seq<Selected>, candidate: Entry, sourceIndex: nat, limit: nat) returns (r: seq<Selected>)
    requires 0 < limit && |selected| <= limit
    requires forall i :: 0 <= i < |selected| ==> selected[i].sourceIndex < sourceIndex
    ensures |r| <= limit
    ensures forall i :: 0 <= i < |r| ==> r[i].sourceIndex <= sourceIndex
    ensures Entries(r) == First(Insert(Entries(selected), candidate), limit)
  {
    var insertAt := FindPosition(selected, candidate, sourceIndex);
    InsertAtPosition(Entries(selected), candidate, insertAt);
    if insertAt >= limit { return selected; }
    r := selected[..insertAt] + [Selected(candidate, sourceIndex)] + selected[insertAt..];
    assert Entries(r) == Insert(Entries(selected), candidate);
    if |r| > limit { r := r[..|r| - 1]; }
  }

  /** findIndex with its tie-break on the source index; past the end when absent. */
  method FindPosition(selected: seq<Selected>, candidate: Entry, sourceIndex: nat) returns (position: nat)
    requires forall i :: 0 <= i < |selected| ==> selected[i].sourceIndex < sourceIndex
    ensures position <= |selected|
    ensures forall i :: 0 <= i < position ==> candidate.ageAtMs <= selected[i].entry.ageAtMs
    ensures position < |selected| ==> candidate.ageAtMs > selected[position].entry.ageAtMs
  {
    position := 0;
    while position < |selected|
      && !(candidate.ageAtMs > selected[position].entry.ageAtMs
           || (candidate.ageAtMs == selected[position].entry.ageAtMs && sourceIndex < selected[position].sourceIndex))
      invariant position <= |selected|
      invariant forall i :: 0 <= i < position ==> candidate.ageAtMs <= selected[i].entry.ageAtMs
    {
      position := position + 1;
    }
  }

  // ---- the tail under deletions ----

  function Keep(entries: seq<Entry>, live: set<Ref>): seq<Entry> {
    if entries == [] then []
    else (if entries[0].stamped || entries[0].ref in live then [entries[0]] else []) + Keep(entries[1..], live)
  }

  lemma {:induction false} KeepConcat(a: seq<Entry>, b: seq<Entry>, live: set<Ref>)
    ensures Keep(a + b, live) == Keep(a, live) + Keep(b, live)
  {
    if a == [] {
      assert a + b == b;
    } else {
      assert (a + b)[1..] == a[1..] + b;
      KeepConcat(a[1..], b, live);
      var first := if a[0].stamped || a[0].ref in live then [a[0]] else [];
      assert first + (Keep(a[1..], live) + Keep(b, live)) == (first + Keep(a[1..], live)) + Keep(b, live);
    }
  }

  lemma {:induction false} KeepInsert(sorted: seq<Entry>, e: Entry, live: set<Ref>)
    requires Descending(sorted)
    ensures Keep(Insert(sorted, e), live) == if e.stamped || e.ref in live then Insert(Keep(sorted, live), e)
              else Keep(sorted, live)
  {
    if sorted == [] {
    } else if e.ageAtMs > sorted[0].ageAtMs {
      KeepConcat([e], sorted, live);
      KeptAreMembers(sorted, live);
    } else {
      KeepInsert(sorted[1..], e, live);
      assert Insert(sorted, e)[1..] == Insert(sorted[1..], e);
      var kept, grown := Keep(sorted, live), Keep(Insert(sorted, e), live);
      if sorted[0].stamped || sorted[0].ref in live {
        assert kept[1..] == Keep(sorted[1..], live);
      } else {
        assert kept == Keep(sorted[1..], live) && grown == Keep(Insert(sorted[1..], e), live);
      }
    }
  }

  lemma {:induction false} KeptAreMembers(entries: seq<Entry>, live: set<Ref>)
    ensures forall e :: e in Keep(entries, live) <==> e in entries && (e.stamped || e.ref in live)
  {
    if entries != [] { KeptAreMembers(entries[1..], live); }
  }

  lemma {:induction false} KeepSorted(entries: seq<Entry>, live: set<Ref>)
    ensures Sorted(Keep(entries, live)) == Keep(Sorted(entries), live)
  {
    if entries != [] {
      var n := |entries| - 1;
      KeepSorted(entries[..n], live);
      SortedIsStableSort(entries[..n]);
      KeepInsert(Sorted(entries[..n]), entries[n], live);
      KeepConcat(entries[..n], [entries[n]], live);
      assert entries[..n] + [entries[n]] == entries;
      var kept := Keep(entries, live);
      if entries[n].stamped || entries[n].ref in live {
        assert Keep([entries[n]], live) == [entries[n]];
        assert kept[..|kept| - 1] == Keep(entries[..n], live) && kept[|kept| - 1] == entries[n];
      } else {
        assert kept == Keep(entries[..n], live);
      }
    }
  }

  lemma {:induction false} KeepPrefix(s: seq<Entry>, live: set<Ref>, n: int)
    requires forall e :: e in First(s, n) ==> e.stamped || e.ref in live
    ensures First(Keep(s, live), n) == First(s, n)
  {
    if n > 0 && s != [] {
      hide First;
      var rest := s[1..];
      HeadAndRest(s);
      FirstCons(s[0], rest, n);
      FirstCons(s[0], Keep(rest, live), n);
      KeepPrefix(rest, live, n - 1);
    }
  }

  lemma FirstCons(e: Entry, rest: seq<Entry>, n: int)
    requires n > 0
    ensures First([e] + rest, n) == [e] + First(rest, n - 1)
  {
    assert n <= |rest| + 1 ==> ([e] + rest)[..n] == [e] + rest[..n - 1];
  }

  /** Dropping fallback entries whose manifests are gone cannot change the tail
      while no ref of the tail is among them. */
  lemma TailSurvivesDeletion(entries: seq<Entry>, live: set<Ref>, limit: int)
    requires forall e :: e in entries && !e.stamped && e.ref !in live ==> e.ref !in TailRefs(entries, limit)
    ensures TailRefs(Keep(entries, live), limit) == TailRefs(entries, limit)
  {
    KeepSorted(entries, live);
    forall e | e in First(Sorted(entries), limit) ensures e.stamped || e.ref in live {
      assert e.ref in TailRefs(entries, limit);
      assert e in Sorted(entries);
    }
    KeepPrefix(Sorted(entries), live, limit);
  }
}
