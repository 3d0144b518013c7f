/** What the collector keeps, told from the database rows, the baselines and the
    files: the notions of SnapshotGc and SnapshotGcSafety without their names. */
module SnapshotRoots {
  import opened Common
  import opened SnapshotTypes
  import opened TerminalTail
  import opened SnapshotGc
  import opened SnapshotGcSafety
  import opened SnapshotGcExact

  // ---- the terminal list ----

  /** The entry of a terminal row: its persisted time, else its manifest's. */
  ghost predicate EntryOf(row: DbRow, manifests: map<Ref, int>, e: Entry) {
    && row.terminal && e.ref == row.ref
    && match row.terminalAt
       case At(ms) => e.ageAtMs == ms && e.stamped
       case Unknown => row.ref in manifests && e.ageAtMs == manifests[row.ref] && !e.stamped
  }

  /** A terminal row with a known time, or with a manifest to age it by. */
  ghost predicate Ageable(row: DbRow, manifests: map<Ref, int>) {
    row.terminal && (row.terminalAt.At? || row.ref in manifests)
  }

  /** No terminal row that can be aged is left out. */
  ghost predicate Complete(rows: seq<DbRow>, manifests: map<Ref, int>, places: seq<nat>) {
    forall i :: 0 <= i < |rows| && Ageable(rows[i], manifests) ==> i in places
  }

  /** The entries are those of the rows at these places, in row order. */
  ghost predicate ListsRows(rows: seq<DbRow>, manifests: map<Ref, int>, entries: seq<Entry>, places: seq<nat>) {
    && |places| == |entries|
    && (forall j, k :: 0 <= j < k < |places| ==> places[j] < places[k])
    && (forall k :: 0 <= k < |places| ==> places[k] < |rows| && EntryOf(rows[places[k]], manifests, entries[k]))
    && Complete(rows, manifests, places)
  }

  /** The same places, one row further on. */
  function Shifted(places: seq<nat>): (shifted: seq<nat>)
    ensures |shifted| == |places| && forall k :: 0 <= k < |places| ==> shifted[k] == places[k] + 1
  {
    if places == [] then [] else [places[0] + 1] + Shifted(places[1..])
  }

  lemma RowListed(row: DbRow, manifests: map<Ref, int>)
    ensures RowRoots(row, manifests) == [] <==> !Ageable(row, manifests)
    ensures Ageable(row, manifests) ==>
              |RowRoots(row, manifests)| == 1 && EntryOf(row, manifests, RowRoots(row, manifests)[0])
  {}

  lemma SkipRow(row: DbRow, rest: seq<DbRow>, manifests: map<Ref, int>, entries: seq<Entry>, places: seq<nat>)
    requires ListsRows(rest, manifests, entries, places) && !Ageable(row, manifests)
    ensures ListsRows([row] + rest, manifests, entries, Shifted(places))
  {
    hide EntryOf, Ageable, Shifted, Complete;
    var rows, all := [row] + rest, Shifted(places);
    SkipRowComplete(row, rest, manifests, places);
    forall k | 0 <= k < |all| ensures all[k] < |rows| && EntryOf(rows[all[k]], manifests, entries[k]) {
      assert all[k] == places[k] + 1 && rows[all[k]] == rest[places[k]];
    }
    forall j, k | 0 <= j < k < |all| ensures all[j] < all[k] {
      assert all[k] == places[k] + 1 && all[j] == places[j] + 1;
    }
  }

  lemma SkipRowComplete(row: DbRow, rest: seq<DbRow>, manifests: map<Ref, int>, places: seq<nat>)
    requires Complete(rest, manifests, places) && !Ageable(row, manifests)
    ensures Complete([row] + rest, manifests, Shifted(places))
  {
    hide Ageable;
    var rows := [row] + rest;
    forall i | 0 <= i < |rows| && Ageable(rows[i], manifests) ensures i in Shifted(places) {
      assert i > 0 && rows[i] == rest[i - 1];
      var k :| 0 <= k < |places| && places[k] == i - 1;
      assert Shifted(places)[k] == i;
    }
  }

  lemma ListRowComplete(row: DbRow, rest: seq<DbRow>, manifests: map<Ref, int>, places: seq<nat>)
    requires Complete(rest, manifests, places)
    ensures Complete([row] + rest, manifests, [0] + Shifted(places))
  {
    hide Ageable;
    var rows, all := [row] + rest, [0] + Shifted(places);
    forall i | 0 <= i < |rows| && Ageable(rows[i], manifests) ensures i in all {
      if i == 0 {
        assert all[0] == 0;
      } else {
        assert rows[i] == rest[i - 1];
        var k :| 0 <= k < |places| && places[k] == i - 1;
        assert all[k + 1] == Shifted(places)[k] == i;
      }
    }
  }

  lemma ListRow(row: DbRow, rest: seq<DbRow>, manifests: map<Ref, int>, e: Entry, entries: seq<Entry>,
                places: seq<nat>)
    requires ListsRows(rest, manifests, entries, places) && EntryOf(row, manifests, e)
    ensures ListsRows([row] + rest, manifests, [e] + entries, [0] + Shifted(places))
  {
    hide EntryOf, Ageable, Shifted, Complete;
    var rows, all, listed := [row] + rest, [0] + Shifted(places), [e] + entries;
    ListRowComplete(row, rest, manifests, places);
    forall k | 0 <= k < |all| ensures all[k] < |rows| && EntryOf(rows[all[k]], manifests, listed[k]) {
      if k > 0 {
        assert all[k] == places[k - 1] + 1 && listed[k] == entries[k - 1];
        assert rows[all[k]] == rest[places[k - 1]];
      }
    }
    forall j, k | 0 <= j < k < |all| ensures all[j] < all[k] {
      assert all[k] == places[k - 1] + 1;
      if j > 0 { assert all[j] == places[j - 1] + 1; }
    }
  }

  /** Every terminal row with a known time, or with a manifest to age it by, is
      listed once, in row order; nothing else is. */
  lemma {:induction false} TerminalListsRows(rows: seq<DbRow>, manifests: map<Ref, int>) returns (places: seq<nat>)
    ensures ListsRows(rows, manifests, TerminalRoots(rows, manifests), places)
  {
    if rows == [] {
      places := [];
      NoRowsListed(manifests);
      return;
    }
    hide ListsRows, RowRoots, Ageable, EntryOf, Shifted;
    var row, rest := rows[0], rows[1..];
    places := TerminalListsRows(rest, manifests);
    HeadAndRest(rows);
    RowListed(row, manifests);
    var entries := TerminalRoots(rest, manifests);
    if !Ageable(row, manifests) {
      SkipRow(row, rest, manifests, entries, places);
      places := Shifted(places);
      LeftUnit(entries);
    } else {
      var e := RowRoots(row, manifests)[0];
      assert RowRoots(row, manifests) == [e];
      ListRow(row, rest, manifests, e, entries, places);
      places := [0] + Shifted(places);
    }
  }

  lemma NoRowsListed(manifests: map<Ref, int>)
    ensures ListsRows([], manifests, TerminalRoots([], manifests), [])
  {}

  // ---- protection ----

  /** Some terminal row of the ref is younger than the retention. */
  ghost predicate YoungRow(cfg: Config, w: World, ref: Ref) {
    exists i :: 0 <= i < |w.rows| && w.rows[i].ref == ref && w.rows[i].terminal
      && match w.rows[i].terminalAt
         case At(ms) => w.now - ms < cfg.retentionMs
         case Unknown => ref in w.disk.manifests && w.now - w.disk.manifests[ref] < cfg.retentionMs
  }

  ghost predicate OpenRow(w: World, ref: Ref) {
    exists i :: 0 <= i < |w.rows| && w.rows[i].ref == ref && !w.rows[i].terminal
  }

  /** One of the newest `retainPerWorkspace` terminal entries. */
  ghost predicate Newest(cfg: Config, sorted: seq<Entry>, ref: Ref) {
    exists i :: 0 <= i < |sorted| && i < cfg.retainPerWorkspace && sorted[i].ref == ref
  }

  lemma TailIsNewest(cfg: Config, w: World, sorted: seq<Entry>, ref: Ref)
    requires StableSortOf(sorted, Terminal(w))
    ensures ref in Tail(cfg, w) <==> Newest(cfg, sorted, ref)
  {
    var limit := cfg.retainPerWorkspace;
    TailOfAnyStableSort(Terminal(w), sorted, limit);
    var cut := First(sorted, limit);
    if ref in Tail(cfg, w) {
      var e :| e in cut && e.ref == ref;
      var i :| 0 <= i < |cut| && cut[i] == e;
      assert sorted[i].ref == ref;
    }
    if Newest(cfg, sorted, ref) {
      var i :| 0 <= i < |sorted| && i < limit && sorted[i].ref == ref;
      assert cut[i] == sorted[i] && cut[i] in cut;
    }
  }

  lemma YoungEntryIsYoungRow(cfg: Config, w: World, ref: Ref)
    ensures (exists e :: e in Terminal(w) && e.ref == ref && WithinTtl(cfg, w.now, e.ageAtMs)) <==>
              YoungRow(cfg, w, ref)
  {
    var entries := Terminal(w);
    var places := TerminalListsRows(w.rows, w.disk.manifests);
    hide TerminalRoots;
    if e :| e in entries && e.ref == ref && WithinTtl(cfg, w.now, e.ageAtMs) {
      var k :| 0 <= k < |entries| && entries[k] == e;
      assert EntryOf(w.rows[places[k]], w.disk.manifests, e);
    }
    if YoungRow(cfg, w, ref) {
      var i :| 0 <= i < |w.rows| && w.rows[i].ref == ref && w.rows[i].terminal
        && match w.rows[i].terminalAt
           case At(ms) => w.now - ms < cfg.retentionMs
           case Unknown => ref in w.disk.manifests && w.now - w.disk.manifests[ref] < cfg.retentionMs;
      var k :| 0 <= k < |places| && places[k] == i;
      assert entries[k] in entries && EntryOf(w.rows[i], w.disk.manifests, entries[k]);
    }
  }

  lemma StrongIs(w: World, ref: Ref)
    ensures ref in StrongRoots(w) <==> ref in w.baselines || OpenRow(w, ref)
  {
    if ref in Pins(w.rows) {
      var row :| row in w.rows && !row.terminal && row.ref == ref;
      var i :| 0 <= i < |w.rows| && w.rows[i] == row;
    }
    if OpenRow(w, ref) {
      var i :| 0 <= i < |w.rows| && w.rows[i].ref == ref && !w.rows[i].terminal;
      assert w.rows[i] in w.rows;
    }
  }

  lemma NewestIsTerminal(cfg: Config, w: World, sorted: seq<Entry>, ref: Ref)
    requires StableSortOf(sorted, Terminal(w)) && Newest(cfg, sorted, ref)
    ensures exists e :: e in Terminal(w) && e.ref == ref
  {
    SortedIsStableSort(Terminal(w));
    StableSortIsUnique(sorted, Sorted(Terminal(w)));
    var i :| 0 <= i < |sorted| && i < cfg.retainPerWorkspace && sorted[i].ref == ref;
    assert sorted[i] in Sorted(Terminal(w));
  }

  /** What is protected: the baselines; the refs of rows that are not terminal; the
      refs of terminal rows within the retention, counted from the row's own time or
      else from the manifest's; and, whatever their age, the refs of the newest
      `retainPerWorkspace` entries in any stable sort of the terminal rows. */
  lemma RootsAre(cfg: Config, w: World, sorted: seq<Entry>, ref: Ref)
    requires StableSortOf(sorted, Terminal(w))
    ensures Protected(cfg, w, ref) <==>
              ref in w.baselines || OpenRow(w, ref) || YoungRow(cfg, w, ref) || Newest(cfg, sorted, ref)
  {
    StrongIs(w, ref);
    TailIsNewest(cfg, w, sorted, ref);
    YoungEntryIsYoungRow(cfg, w, ref);
    hide Terminal, Tail, StrongRoots, YoungRow, Newest, StableSortOf;
    if Newest(cfg, sorted, ref) { NewestIsTerminal(cfg, w, sorted, ref); }
  }

  /** The coverage check looks at exactly these roots. */
  lemma CoveredIff(cfg: Config, gc: GcState, w: World)
    ensures RootsAreCovered(cfg, gc, w) <==>
              forall ref :: Protected(cfg, w, ref) ==>
                ref in gc.retained || (ref !in gc.expired && ref !in w.disk.manifests)
  {
    hide StrongRoots, Terminal, Tail, WithinTtl;
    if RootsAreCovered(cfg, gc, w) {
      forall ref | Protected(cfg, w, ref) ensures Covers(gc, w.disk.manifests, ref) {}
    } else {
      var ref :| Protected(cfg, w, ref) && !Covers(gc, w.disk.manifests, ref);
    }
  }

  // ---- readable snapshots ----

  /** The manifest and a blob for every file it lists. */
  ghost predicate Readable(disk: Disk, ref: Ref) {
    && ref in disk.manifests
    && forall path, hash :: File(path, hash) in ref.entries ==> Sharded(hash) in disk.blobs || Flat(hash) in disk.blobs
  }

  lemma BlobsAre(ref: Ref, hash: Hash)
    ensures hash in Blobs(ref) <==> exists path :: File(path, hash) in ref.entries
  {
    if hash in Blobs(ref) {
      var e :| e in ref.entries && e.File? && e.sha256 == hash;
      assert File(e.path, hash) in ref.entries;
    }
    if path :| File(path, hash) in ref.entries { assert File(path, hash).sha256 in Blobs(ref); }
  }

  lemma IntactIsReadable(disk: Disk, ref: Ref)
    ensures Intact(disk, ref) <==> Readable(disk, ref)
  {
    forall path, hash ensures File(path, hash) in ref.entries ==> hash in Blobs(ref) { BlobsAre(ref, hash); }
    forall hash ensures hash in Blobs(ref) ==> exists path :: File(path, hash) in ref.entries { BlobsAre(ref, hash); }
  }

  /** A root, told from the rows. */
  ghost predicate IsRootNow(cfg: Config, w: World, ref: Ref) {
    || ref in w.baselines || OpenRow(w, ref) || YoungRow(cfg, w, ref)
    || exists sorted :: StableSortOf(sorted, Terminal(w)) && Newest(cfg, sorted, ref)
  }

  lemma RootNowIsProtected(cfg: Config, w: World, ref: Ref)
    requires IsRootNow(cfg, w, ref)
    ensures Protected(cfg, w, ref)
  {
    var sorted := Sorted(Terminal(w));
    SortedIsStableSort(Terminal(w));
    hide Terminal, Protected, OpenRow, YoungRow, Newest, StableSortOf;
    if s :| StableSortOf(s, Terminal(w)) && Newest(cfg, s, ref) { sorted := s; }
    RootsAre(cfg, w, sorted, ref);
  }

  ghost predicate RootAtSlices(cfg: Config, node: Node, events: seq<Event>, ref: Ref)
    decreases |events|
  {
    events != [] ==>
      && (events[0].RunSlice? ==> IsRootNow(cfg, node.world, ref))
      && RootAtSlices(cfg, Apply(cfg, node, events[0]), events[1..], ref)
  }

  lemma {:induction false} RootsAreProtected(cfg: Config, node: Node, events: seq<Event>, ref: Ref)
    requires RootAtSlices(cfg, node, events, ref)
    ensures ProtectedAtSlices(cfg, node, events, ref)
    decreases |events|
  {
    hide Apply, IsRootNow, Protected;
    if events != [] {
      if events[0].RunSlice? { RootNowIsProtected(cfg, node.world, ref); }
      RootsAreProtected(cfg, Apply(cfg, node, events[0]), events[1..], ref);
    }
  }

  /** Pin safety in terms of rows and files: after any history, a snapshot that can be
      read and that is a baseline, the ref of an open row, of a young terminal row or
      of one of the newest terminal rows at every slice can be read at the end. */
  lemma RootsStayReadable(cfg: Config, start: World, history: seq<Event>, events: seq<Event>, ref: Ref)
    requires Legal(cfg, Node(start, IDLE), history)
    requires var node := After(cfg, Node(start, IDLE), history);
             Legal(cfg, node, events) && Readable(node.world.disk, ref) && RootAtSlices(cfg, node, events, ref)
    ensures Readable(After(cfg, After(cfg, Node(start, IDLE), history), events).world.disk, ref)
  {
    hide Legal, After, RootAtSlices, Intact, Readable, ProtectedAtSlices;
    var node := After(cfg, Node(start, IDLE), history);
    IntactIsReadable(node.world.disk, ref);
    RootsAreProtected(cfg, node, events, ref);
    PinSafety(cfg, start, history, events, ref);
    IntactIsReadable(After(cfg, node, events).world.disk, ref);
  }

  // ---- what a collection leaves ----

  /** The last terminal row of the ref is within the retention. */
  ghost predicate LastRowYoung(cfg: Config, w: World, ref: Ref) {
    exists i :: 0 <= i < |w.rows| && w.rows[i].ref == ref && w.rows[i].terminal
      && (match w.rows[i].terminalAt
          case At(ms) => w.now - ms < cfg.retentionMs
          case Unknown => ref in w.disk.manifests && w.now - w.disk.manifests[ref] < cfg.retentionMs)
      && forall j :: i < j < |w.rows| && w.rows[j].ref == ref ==> !Ageable(w.rows[j], w.disk.manifests)
  }

  lemma LaterRowIsListed(rows: seq<DbRow>, manifests: map<Ref, int>, entries: seq<Entry>, places: seq<nat>, k: nat,
                         j: nat)
    requires ListsRows(rows, manifests, entries, places) && k < |places| && places[k] < j < |rows|
    requires Ageable(rows[j], manifests)
    ensures exists m :: k < m < |entries| && entries[m].ref == rows[j].ref
  {
    var m :| 0 <= m < |places| && places[m] == j;
    assert EntryOf(rows[j], manifests, entries[m]) && m > k;
  }

  lemma NothingLater(rows: seq<DbRow>, manifests: map<Ref, int>, entries: seq<Entry>, places: seq<nat>, k: nat,
                     ref: Ref)
    requires ListsRows(rows, manifests, entries, places) && k < |places|
    requires forall j :: places[k] < j < |rows| && rows[j].ref == ref ==> !Ageable(rows[j], manifests)
    ensures forall m :: k < m < |entries| ==> entries[m].ref != ref
  {
    forall m | k < m < |entries| ensures entries[m].ref != ref {
      assert EntryOf(rows[places[m]], manifests, entries[m]) && places[k] < places[m];
    }
  }

  lemma LastEntryIsLastRow(cfg: Config, w: World, ref: Ref)
    ensures LastRowYoung(cfg, w, ref) <==>
              ref in AgeByRef(Terminal(w)) && WithinTtl(cfg, w.now, AgeByRef(Terminal(w))[ref])
  {
    var entries, manifests := Terminal(w), w.disk.manifests;
    var places := TerminalListsRows(w.rows, manifests);
    AgeByRefIsLast(entries, ref);
    hide TerminalRoots, AgeByRef;
    if ref in AgeByRef(entries) && WithinTtl(cfg, w.now, AgeByRef(entries)[ref]) {
      var k :| 0 <= k < |entries| && entries[k].ref == ref && AgeByRef(entries)[ref] == entries[k].ageAtMs
               && forall j :: k < j < |entries| ==> entries[j].ref != ref;
      assert EntryOf(w.rows[places[k]], manifests, entries[k]);
      forall j | places[k] < j < |w.rows| && w.rows[j].ref == ref ensures !Ageable(w.rows[j], manifests) {
        if Ageable(w.rows[j], manifests) { LaterRowIsListed(w.rows, manifests, entries, places, k, j); }
      }
    }
    if LastRowYoung(cfg, w, ref) { LastRowIsLastEntry(cfg, w, ref, places); }
  }

  lemma LastRowIsLastEntry(cfg: Config, w: World, ref: Ref, places: seq<nat>)
    requires LastRowYoung(cfg, w, ref) && ListsRows(w.rows, w.disk.manifests, Terminal(w), places)
    ensures ref in AgeByRef(Terminal(w)) && WithinTtl(cfg, w.now, AgeByRef(Terminal(w))[ref])
  {
    var entries, manifests := Terminal(w), w.disk.manifests;
    AgeByRefIsLast(entries, ref);
    hide TerminalRoots, AgeByRef;
    var i :| 0 <= i < |w.rows| && w.rows[i].ref == ref && w.rows[i].terminal
      && (match w.rows[i].terminalAt
          case At(ms) => w.now - ms < cfg.retentionMs
          case Unknown => ref in w.disk.manifests && w.now - w.disk.manifests[ref] < cfg.retentionMs)
      && forall j :: i < j < |w.rows| && w.rows[j].ref == ref ==> !Ageable(w.rows[j], manifests);
    var k := PlaceOf(w.rows, manifests, entries, places, i);
    hide Ageable, ListsRows;
    NothingLater(w.rows, manifests, entries, places, k, ref);
    assert entries[k] in entries;
    var last :| 0 <= last < |entries| && entries[last].ref == ref && AgeByRef(entries)[ref] == entries[last].ageAtMs
                && forall j :: last < j < |entries| ==> entries[j].ref != ref;
    assert last == k;
  }

  lemma PlaceOf(rows: seq<DbRow>, manifests: map<Ref, int>, entries: seq<Entry>, places: seq<nat>, i: nat)
      returns (k: nat)
    requires ListsRows(rows, manifests, entries, places) && i < |rows| && Ageable(rows[i], manifests)
    ensures k < |places| == |entries| && places[k] == i && EntryOf(rows[i], manifests, entries[k])
  {
    k :| 0 <= k < |places| && places[k] == i;
  }

  /** The retention rule, told from rows and files. */
  ghost predicate KeptNow(cfg: Config, w: World, sorted: seq<Entry>, ref: Ref) {
    || ref in w.baselines || OpenRow(w, ref) || LastRowYoung(cfg, w, ref) || Newest(cfg, sorted, ref)
    || (ref in w.disk.manifests && w.now - w.disk.manifests[ref] < cfg.orphanGraceMs)
  }

  lemma KeptIs(cfg: Config, w: World, sorted: seq<Entry>, ref: Ref)
    requires StableSortOf(sorted, Terminal(w))
    ensures Kept(cfg, w, ref) <==> KeptNow(cfg, w, sorted, ref)
  {
    StrongIs(w, ref);
    TailIsNewest(cfg, w, sorted, ref);
    LastEntryIsLastRow(cfg, w, ref);
    hide Terminal, Tail, StrongRoots, LastRowYoung, OpenRow, Newest, StableSortOf, AgeByRef, WithinTtl;
  }

  /** A blob that a completed collection leaves: not in the layout enumerated, or
      within the grace, or listed by a manifest that is kept. */
  ghost predicate LeftOver(cfg: Config, w: World, sorted: seq<Entry>, file: BlobFile) {
    && file in w.disk.blobs
    && (|| (if w.disk.shards == {} then file.Sharded? else file.Flat?)
        || (cfg.orphanGraceMs > 0 && w.now - w.disk.blobs[file] < cfg.orphanGraceMs)
        || exists ref, path :: ref in w.disk.manifests && KeptNow(cfg, w, sorted, ref)
                               && File(path, file.hash) in ref.entries)
  }

  lemma LeftOverIsKept(cfg: Config, w: World, sorted: seq<Entry>, file: BlobFile)
    requires StableSortOf(sorted, Terminal(w)) && file in w.disk.blobs
    ensures BlobKept(cfg, w, file) <==> LeftOver(cfg, w, sorted, file)
  {
    hide StableSortOf, Kept, KeptNow, Terminal;
    if Reachable(cfg, w, file.hash) {
      var ref :| ref in w.disk.manifests && Kept(cfg, w, ref) && file.hash in Blobs(ref);
      KeptIs(cfg, w, sorted, ref);
      BlobsAre(ref, file.hash);
      var path :| File(path, file.hash) in ref.entries;
    }
    if ref, path :| ref in w.disk.manifests && KeptNow(cfg, w, sorted, ref) && File(path, file.hash) in ref.entries {
      KeptIs(cfg, w, sorted, ref);
      BlobsAre(ref, file.hash);
    }
  }

  /** What a collection at a fixed clock leaves, told from rows and files. */
  lemma CollectionLeaves(cfg: Config, w: World, sorted: seq<Entry>, schedule: Schedule, n: nat)
    requires WellFormed(w.disk) && Fair(cfg, w, schedule) && StableSortOf(sorted, Terminal(w))
    requires forall i: nat :: schedule(i).now == w.now
    requires !HasMore(cfg, w, schedule, n) && forall k :: 0 <= k < n ==> HasMore(cfg, w, schedule, k)
    ensures var disk := Run(cfg, w, schedule, n + 1).disk;
            && (forall ref :: ref in disk.manifests <==> ref in w.disk.manifests && KeptNow(cfg, w, sorted, ref))
            && (forall file :: file in disk.blobs <==> LeftOver(cfg, w, sorted, file))
  {
    hide Run, Fair, HasMore, Kept, KeptNow, BlobKept, LeftOver, StableSortOf, Terminal, WellFormed;
    FixedClockIsExact(cfg, w, schedule, n);
    var disk := Run(cfg, w, schedule, n + 1).disk;
    forall ref ensures ref in disk.manifests <==> ref in w.disk.manifests && KeptNow(cfg, w, sorted, ref) {
      KeptIs(cfg, w, sorted, ref);
    }
    forall file ensures file in disk.blobs <==> LeftOver(cfg, w, sorted, file) {
      assert file in disk.blobs <==> file in disk.blobs.Keys;
      LeftOverIsOnDisk(cfg, w, sorted, file);
      if file in w.disk.blobs { LeftOverIsKept(cfg, w, sorted, file); }
    }
  }

  lemma LeftOverIsOnDisk(cfg: Config, w: World, sorted: seq<Entry>, file: BlobFile)
    ensures LeftOver(cfg, w, sorted, file) ==> file in w.disk.blobs
  {}

  /** No slice removes a blob file younger than the grace. */
  lemma YoungBlobStays(cfg: Config, gc: GcState, w: World, input: Input, file: BlobFile)
    requires file in w.disk.blobs && cfg.orphanGraceMs > 0 && w.now - w.disk.blobs[file] < cfg.orphanGraceMs
    ensures file in Slice(cfg, gc, w, input).disk.blobs
  {
    hide Slice;
    SliceSparesRecent(cfg, gc, w, input, file);
  }

  /** A terminal row forty days old is kept under the default limits when it is
      among the newest, although its retention of thirty days is over. */
  lemma NewestOutlivesRetention(ref: Ref)
    ensures var day := 86400000;
            var w := World(Disk(map[ref := 0], map[], {}), {}, [DbRow(ref, true, TerminalTime.At(0))], 40 * day);
            Protected(Config(30 * day, 10, 300000), w, ref) && !Protected(Config(30 * day, 0, 300000), w, ref)
  {
    var day := 86400000;
    var w := World(Disk(map[ref := 0], map[], {}), {}, [DbRow(ref, true, TerminalTime.At(0))], 40 * day);
    assert w.rows[1..] == [] && TerminalRoots([], w.disk.manifests) == [];
    assert RowRoots(w.rows[0], w.disk.manifests) == [Entry(ref, 0, true)];
    assert Terminal(w) == [Entry(ref, 0, true)] + [];
    var sorted := [Entry(ref, 0, true)];
    SortedIsStableSort(Terminal(w));
    assert StableSortOf(sorted, Terminal(w));
    assert sorted[0].ref == ref;
    RootsAre(Config(30 * day, 10, 300000), w, sorted, ref);
    RootsAre(Config(30 * day, 0, 300000), w, sorted, ref);
  }
}
