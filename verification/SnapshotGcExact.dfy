/** What a complete collection reclaims, and when it completes: the sliced
    collector refines a one-shot mark and sweep. Roots stay fixed, nothing but the
    collector touches the files, and the clock may advance between slices. */
module SnapshotGcExact {
  import opened SnapshotTypes
  import opened TerminalTail
  import opened SnapshotGc
  import opened SnapshotGcSafety

  // ---- the one-shot specification ----

  predicate Enumerable(disk: Disk, file: BlobFile) {
    if disk.shards == {} then file.Flat? else file.Sharded?
  }

  ghost predicate Reachable(cfg: Config, w: World, hash: Hash) {
    exists ref :: ref in w.disk.manifests && Kept(cfg, w, ref) && hash in Blobs(ref)
  }

  ghost predicate BlobKept(cfg: Config, w: World, file: BlobFile) {
    !Enumerable(w.disk, file) || Recent(cfg, w.disk.blobs, w.now, file) || Reachable(cfg, w, file.hash)
  }

  /** A root that is protected, with a manifest on disk, which the retention rule
      nevertheless drops: it has a young terminal entry, but the last entry of its
      ref, the only one `terminalByRef` remembers, is past retention. */
  ghost predicate Torn(cfg: Config, w: World, ref: Ref) {
    ref in w.disk.manifests && Protected(cfg, w, ref) && !Kept(cfg, w, ref)
  }

  /** `disk` is what a collection started in `w` and ended at time `end` leaves. */
  ghost predicate Collected(cfg: Config, w: World, end: int, disk: Disk) {
    && disk.shards == w.disk.shards
    && (forall ref :: ref in disk.manifests ==>
          ref in w.disk.manifests && disk.manifests[ref] == w.disk.manifests[ref] && Kept(cfg, w, ref))
    && (forall ref :: ref in w.disk.manifests && Kept(cfg, w.(now := end), ref) ==> ref in disk.manifests)
    && (forall file :: file in disk.blobs ==>
          file in w.disk.blobs && disk.blobs[file] == w.disk.blobs[file] && BlobKept(cfg, w, file))
    && (forall file :: file in w.disk.blobs && BlobKept(cfg, w.(now := end), file) ==> file in disk.blobs)
  }

  // ---- schedules ----

  datatype Tick = Tick(now: int, input: Input)
  type Schedule = nat -> Tick

  datatype Memory = Memory(gc: GcState, disk: Disk)

  function At(w: World, disk: Disk, now: int): World { w.(disk := disk, now := now) }

  function SliceAt(cfg: Config, w: World, m: Memory, tick: Tick): Outcome {
    Slice(cfg, m.gc, At(w, m.disk, tick.now), tick.input)
  }

  /** The memory and files after `n` slices. */
  function Run(cfg: Config, w: World, schedule: Schedule, n: nat): Memory {
    if n == 0 then Memory(IDLE, w.disk)
    else var out := SliceAt(cfg, w, Run(cfg, w, schedule, n - 1), schedule(n - 1)); Memory(out.gc, out.disk)
  }

  function HasMore(cfg: Config, w: World, schedule: Schedule, n: nat): bool {
    SliceAt(cfg, w, Run(cfg, w, schedule, n), schedule(n)).hasMore
  }

  ghost predicate SoundListings(gc: GcState, disk: Disk, input: Input) {
    && (gc.stage == Idle ==> IsListing(input.manifestListing, disk.manifests.Keys))
    && (forall hash :: hash in input.flatListing <==> Flat(hash) in disk.blobs)
    && (forall shard: Shard, hash :: hash in input.shardListing(shard) <==>
          hash.shard == shard && Sharded(hash) in disk.blobs)
  }

  /** The loop the slice resumes handles at least one item. */
  predicate Progresses(gc: GcState, input: Input) {
    && input.pageSize > 0
    && match gc.stage {
         case Idle => true
         case Classify => input.classifyTurns > 0
         case Mark => input.markTurns > 0
         case Expire => input.expireTurns > 0
         case Sweep => input.sweepTurns > 0
       }
  }

  ghost predicate Fair(cfg: Config, w: World, schedule: Schedule) {
    && schedule(0).now == w.now
    && (forall i: nat :: schedule(i).now <= schedule(i + 1).now)
    && (forall i: nat :: var m := Run(cfg, w, schedule, i);
                         SoundListings(m.gc, m.disk, schedule(i).input) && Progresses(m.gc, schedule(i).input))
  }

  ghost predicate WellFormed(disk: Disk) {
    forall file :: file in disk.blobs && file.Sharded? ==> file.hash.shard in disk.shards
  }

  // ---- the invariant tying the collector's memory to the start world ----

  ghost predicate Classified(cfg: Config, w: World, gc: GcState, now: int) {
    && gc.strongRoots == StrongRoots(w)
    && gc.terminalByRef == AgeByRef(Terminal(w))
    && gc.protectedAfterTtl == Tail(cfg, w)
    && (forall ref :: ref in w.disk.manifests <==> ref in gc.manifestDir || ref in gc.retained || ref in gc.expired)
    && (forall ref :: ref in gc.retained ==> Kept(cfg, w, ref))
    && (forall ref :: ref in gc.expired ==> !Kept(cfg, w.(now := now), ref))
    && (gc.stage != Classify ==> gc.manifestDir == [])
  }

  ghost predicate MarkExact(gc: GcState) {
    && gc.markCursor <= |gc.retained|
    && (gc.stage in {Expire, Sweep} ==> gc.markCursor == |gc.retained|)
    && (gc.stage == Classify ==> gc.markCursor == 0)
    && forall hash :: hash in gc.marked <==> exists k :: 0 <= k < gc.markCursor && hash in Blobs(gc.retained[k])
  }

  ghost predicate Sub<K, V>(small: map<K, V>, big: map<K, V>) {
    small.Keys <= big.Keys && forall k :: k in small ==> small[k] == big[k]
  }

  ghost predicate ManifestsExact(w: World, gc: GcState, disk: Disk) {
    && Sub(disk.manifests, w.disk.manifests)
    && gc.expireCursor <= |gc.expired|
    && (gc.stage in {Classify, Mark} ==> gc.expireCursor == 0)
    && (gc.stage == Sweep ==> gc.expireCursor == |gc.expired|)
    && forall ref :: ref in w.disk.manifests ==> (ref !in disk.manifests <==> ref in gc.expired[..gc.expireCursor])
  }

  ghost predicate Ahead(cursor: Cursor, file: BlobFile) {
    match cursor
    case Probing(_, _) => true
    case FlatDir(remaining) => file.Flat? && file.hash in remaining
    case ShardDirs(dirs, open) => file.Sharded? && dirs != [] &&
      (if open.Closed? then file.hash.shard in dirs
       else file.hash.shard in dirs[1..] || file.hash in open.remaining)
    case Exhausted => false
  }

  ghost predicate CursorOk(cursor: Cursor, shards: set<Shard>) {
    match cursor
    case Probing(next, found) => next < 256 && found == ShardsIn(shards, 0, next)
    case FlatDir(_) => shards == {}
    case ShardDirs(dirs, open) => shards != {} && dirs != []
    case Exhausted => true
  }

  ghost predicate BlobsExact(cfg: Config, w: World, gc: GcState, disk: Disk, now: int) {
    && Sub(disk.blobs, w.disk.blobs)
    && CursorOk(gc.cursor, w.disk.shards)
    && (gc.stage != Sweep ==> disk.blobs == w.disk.blobs && gc.cursor == Probing(0, []) && gc.pending == [])
    && (forall file :: file in gc.pending ==> Enumerable(w.disk, file))
    && (forall file :: file in w.disk.blobs && file !in disk.blobs ==>
          Enumerable(w.disk, file) && file.hash !in gc.marked && !Recent(cfg, w.disk.blobs, now, file))
    && (forall file :: file in disk.blobs && Enumerable(w.disk, file) && !Recent(cfg, w.disk.blobs, w.now, file)
          ==> file.hash in gc.marked || Ahead(gc.cursor, file) || file in gc.pending)
  }

  ghost predicate Good(cfg: Config, w: World, m: Memory, now: int) {
    && w.now <= now
    && m.disk.shards == w.disk.shards
    && WellFormed(w.disk)
    && if m.gc.stage == Idle then m == Memory(IDLE, w.disk)
       else
         && Classified(cfg, w, m.gc, now)
         && MarkExact(m.gc)
         && ManifestsExact(w, m.gc, m.disk)
         && BlobsExact(cfg, w, m.gc, m.disk, now)
         && (m.gc.stage == Sweep ==> m.gc.pending != [] || m.gc.cursor != Exhausted)
  }

  /** Waiting only ages things: the invariant survives the clock. */
  lemma GoodSurvivesClock(cfg: Config, w: World, m: Memory, now: int, later: int)
    requires Good(cfg, w, m, now) && now <= later
    ensures Good(cfg, w, m, later)
  {}

  // ---- classification and marking ----

  lemma ClassifyOneGood(cfg: Config, w: World, gc: GcState, disk: Disk, now: int)
    requires gc.stage == Classify && gc.manifestDir != [] && Good(cfg, w, Memory(gc, disk), now)
    ensures var gc' := ClassifyOne(cfg, gc, At(w, disk, now));
            gc'.stage == Classify && Good(cfg, w, Memory(gc', disk), now)
  {
    var gc' := ClassifyOne(cfg, gc, At(w, disk, now));
    var ref := gc.manifestDir[0];
    assert gc.expired[..0] == [] && gc'.expired[..0] == [];
    assert disk.manifests.Keys == w.disk.manifests.Keys;
    assert disk.manifests == w.disk.manifests;
    assert Retains(cfg, gc, disk.manifests, now, ref) <==> Kept(cfg, w.(now := now), ref);
    assert Kept(cfg, w.(now := now), ref) ==> Kept(cfg, w, ref);
    assert forall r :: r in gc.manifestDir <==> r == ref || r in gc'.manifestDir;
    assert Classified(cfg, w, gc', now);
    assert BlobsExact(cfg, w, gc', disk, now);
  }

  lemma ClassifyEndGood(cfg: Config, w: World, gc: GcState, disk: Disk, now: int)
    requires gc.stage == Classify && gc.manifestDir == [] && Good(cfg, w, Memory(gc, disk), now)
    ensures Good(cfg, w, Memory(gc.(stage := Mark), disk), now)
  {
    var gc' := gc.(stage := Mark);
    assert Classified(cfg, w, gc', now) && BlobsExact(cfg, w, gc', disk, now);
  }

  lemma {:induction false} ClassifyGood(cfg: Config, w: World, gc: GcState, disk: Disk, now: int, turns: nat, room: nat)
    requires gc.stage in {Classify, Mark} && Good(cfg, w, Memory(gc, disk), now)
    ensures var gc' := ClassifyLoop(cfg, gc, At(w, disk, now), turns, room).0;
            && gc'.stage in {Classify, Mark} && Good(cfg, w, Memory(gc', disk), now)
            && (gc.stage == Classify ==> |gc'.manifestDir| <= |gc.manifestDir|)
            && (gc.stage == Classify && turns > 0 && room > 0 ==>
                  gc'.stage == Mark || |gc'.manifestDir| < |gc.manifestDir|)
            && (gc.stage == Mark ==> gc' == gc)
    decreases turns
  {
    hide Good, Retains;
    if gc.stage == Classify && turns > 0 && room > 0 {
      if gc.manifestDir == [] {
        ClassifyEndGood(cfg, w, gc, disk, now);
      } else {
        ClassifyOneGood(cfg, w, gc, disk, now);
        ClassifyGood(cfg, w, ClassifyOne(cfg, gc, At(w, disk, now)), disk, now, turns - 1, room - 1);
      }
    }
  }

  lemma MarkOneGood(cfg: Config, w: World, gc: GcState, disk: Disk, now: int)
    requires gc.stage == Mark && gc.markCursor < |gc.retained| && Good(cfg, w, Memory(gc, disk), now)
    ensures Good(cfg, w, Memory(MarkOne(gc, disk.manifests), disk), now)
  {
    var gc' := MarkOne(gc, disk.manifests);
    var k := gc.markCursor;
    assert gc.retained[k] in gc.retained;
    assert gc.expired[..0] == [];
    forall hash ensures hash in gc'.marked <==> exists j :: 0 <= j < gc'.markCursor && hash in Blobs(gc.retained[j]) {
      if hash in Blobs(gc.retained[k]) { assert k < gc'.markCursor; }
    }
  }

  lemma {:induction false} MarkGood(cfg: Config, w: World, gc: GcState, disk: Disk, now: int, turns: nat, room: nat)
    requires gc.stage in {Classify, Mark} && Good(cfg, w, Memory(gc, disk), now)
    ensures var gc' := MarkLoop(gc, At(w, disk, now), turns, room);
            && gc'.stage == gc.stage && Good(cfg, w, Memory(gc', disk), now)
            && gc' == gc.(markCursor := gc'.markCursor, marked := gc'.marked)
            && gc.markCursor <= gc'.markCursor
            && (gc.stage == Mark && turns > 0 && room > 0 ==>
                  gc.markCursor < gc'.markCursor || gc.markCursor >= |gc.retained|)
    decreases turns
  {
    hide Good;
    if gc.stage == Mark && gc.markCursor < |gc.retained| && turns > 0 && room > 0 {
      var gc' := MarkOne(gc, disk.manifests);
      MarkOneGood(cfg, w, gc, disk, now);
      MarkGood(cfg, w, gc', disk, now, turns - 1, room - 1);
      assert MarkLoop(gc, At(w, disk, now), turns, room) == MarkLoop(gc', At(w, disk, now), turns - 1, room - 1);
    }
  }

  lemma BeginGood(cfg: Config, w: World, listing: seq<Ref>, now: int)
    requires w.now <= now && WellFormed(w.disk) && IsListing(listing, w.disk.manifests.Keys)
    requires now == w.now
    ensures Good(cfg, w, Memory(Begin(cfg, w, listing), w.disk), now)
  {
    assert ShardsIn(w.disk.shards, 0, 0) == [];
  }

  lemma MarkPhaseGood(cfg: Config, w: World, m: Memory, now: int, input: Input)
    requires Good(cfg, w, m, now) && m.gc.stage in {Idle, Classify, Mark, Expire}
    requires m.gc.stage == Idle ==> now == w.now
    requires SoundListings(m.gc, m.disk, input) && Progresses(m.gc, input)
    ensures var gc' := MarkPhase(cfg, m.gc, At(w, m.disk, now), input);
            && Good(cfg, w, Memory(gc', m.disk), now)
            && gc'.stage in {Classify, Mark, Expire}
            && (m.gc.stage == Expire ==> gc' == m.gc)
            && (gc'.stage != Expire ==> Before(gc', m.gc))
            && (gc'.stage == Expire && m.gc.stage != Expire ==> gc'.expireCursor == 0)
  {
    if m.gc.stage != Expire {
      if m.gc.stage == Idle { BeginGood(cfg, w, input.manifestListing, now); }
      var begun := if m.gc.stage == Idle then Begin(cfg, At(w, m.disk, now), input.manifestListing) else m.gc;
      assert m.gc.stage == Idle ==> At(w, m.disk, now) == w;
      ClassifyGood(cfg, w, begun, m.disk, now, input.classifyTurns, input.pageSize);
      var (classified, room) := ClassifyLoop(cfg, begun, At(w, m.disk, now), input.classifyTurns, input.pageSize);
      MarkGood(cfg, w, classified, m.disk, now, input.markTurns, room);
    }
  }

  // ---- the measure ----

  function Rank(gc: GcState): nat {
    match gc.stage case Idle => 5 case Classify => 4 case Mark => 3 case Expire => 2 case Sweep => 1
  }

  /** Items left in the stage's own list. */
  function Work(gc: GcState): nat {
    match gc.stage
    case Classify => |gc.manifestDir|
    case Mark => if gc.markCursor <= |gc.retained| then |gc.retained| - gc.markCursor else 0
    case Expire => if gc.expireCursor <= |gc.expired| then |gc.expired| - gc.expireCursor else 0
    case _ => 0
  }

  function CursorKind(c: Cursor): nat { match c case Probing(_, _) => 2 case Exhausted => 0 case _ => 1 }

  function CursorDirs(c: Cursor): nat {
    match c
    case Probing(next, _) => 256 - next
    case FlatDir(remaining) => |remaining|
    case ShardDirs(dirs, _) => |dirs|
    case Exhausted => 0
  }

  function CursorClosed(c: Cursor): nat { if c.ShardDirs? && c.open.Closed? then 1 else 0 }

  function CursorFiles(c: Cursor): nat { if c.ShardDirs? && c.open.Open? then |c.open.remaining| else 0 }

  predicate CursorBefore(a: Cursor, b: Cursor) {
    || CursorKind(a) < CursorKind(b)
    || (CursorKind(a) == CursorKind(b)
        && (|| CursorDirs(a) < CursorDirs(b)
            || (CursorDirs(a) == CursorDirs(b)
                && (|| CursorClosed(a) < CursorClosed(b)
                    || (CursorClosed(a) == CursorClosed(b) && CursorFiles(a) < CursorFiles(b))))))
  }

  /** The lexicographic measure: stage, items left in it, shards and files left
      to enumerate, files left in the page. */
  predicate Before(a: GcState, b: GcState) {
    || Rank(a) < Rank(b)
    || (Rank(a) == Rank(b)
        && (|| Work(a) < Work(b)
            || (Work(a) == Work(b)
                && (|| CursorBefore(a.cursor, b.cursor)
                    || (a.cursor == b.cursor && |a.pending| < |b.pending|)))))
  }

  // ---- coverage ----

  lemma {:induction false} TerminalAfterDeletion(rows: seq<DbRow>, manifests: map<Ref, int>, start: map<Ref, int>)
    requires Sub(manifests, start)
    ensures TerminalRoots(rows, manifests) == Keep(TerminalRoots(rows, start), manifests.Keys)
  {
    if rows != [] {
      TerminalAfterDeletion(rows[1..], manifests, start);
      var head := RowRoots(rows[0], start);
      KeepConcat(head, TerminalRoots(rows[1..], start), manifests.Keys);
      assert Keep(head, manifests.Keys) == RowRoots(rows[0], manifests);
    }
  }

  lemma {:induction false} FallbackHasManifest(rows: seq<DbRow>, manifests: map<Ref, int>)
    ensures forall e :: e in TerminalRoots(rows, manifests) && !e.stamped ==> e.ref in manifests
  {
    if rows != [] { FallbackHasManifest(rows[1..], manifests); }
  }

  /** Nothing that was classified as expired is protected (any more). */
  ghost predicate Cleared(cfg: Config, w: World, gc: GcState, now: int) {
    forall ref :: ref in gc.expired ==> !Protected(cfg, w.(now := now), ref)
  }

  /** A root can only lose its protection, and the rule's favour, with time. */
  lemma TimeOnlyReleases(cfg: Config, w: World, ref: Ref, now: int, later: int)
    requires now <= later
    ensures Protected(cfg, w.(now := later), ref) ==> Protected(cfg, w.(now := now), ref)
    ensures Kept(cfg, w.(now := later), ref) ==> Kept(cfg, w.(now := now), ref)
  {}

  /** With nothing protected on the expired list, a completed classification is
      covered, however far the clock has moved and whatever the collector itself
      has deleted since. */
  lemma CoverageHolds(cfg: Config, w: World, m: Memory, now: int)
    requires Good(cfg, w, m, now) && m.gc.stage in {Expire, Sweep}
    requires Cleared(cfg, w, m.gc, now)
    ensures RootsAreCovered(cfg, m.gc, At(w, m.disk, now))
  {
    var then', cur := w.(now := now), At(w, m.disk, now);
    TerminalAfterDeletion(w.rows, m.disk.manifests, w.disk.manifests);
    FallbackHasManifest(w.rows, w.disk.manifests);
    KeptAreMembers(Terminal(w), m.disk.manifests.Keys);
    forall e | e in Terminal(w) && !e.stamped && e.ref !in m.disk.manifests
      ensures e.ref !in Tail(cfg, w)
    {
      assert e.ref in m.gc.expired;
      assert !Kept(cfg, then', e.ref);
    }
    TailSurvivesDeletion(Terminal(w), m.disk.manifests.Keys, cfg.retainPerWorkspace);
    forall ref | Protected(cfg, then', ref)
      ensures Covers(m.gc, m.disk.manifests, ref)
    {
      assert ref !in m.gc.expired;
    }
    assert forall e :: e in Terminal(cur) ==> e in Terminal(then');
  }

  /** Before the first deletion the coverage check finds any protected ref that is
      on the expired list. */
  lemma CoverageNeeds(cfg: Config, w: World, m: Memory, now: int)
    requires Inv(m.gc, m.disk.manifests) && m.disk.manifests == w.disk.manifests
    requires RootsAreCovered(cfg, m.gc, At(w, m.disk, now))
    ensures Cleared(cfg, w, m.gc, now)
  {
    forall ref | ref in m.gc.expired ensures !Protected(cfg, w.(now := now), ref) {
      assert !Covers(m.gc, m.disk.manifests, ref);
      assert Terminal(At(w, m.disk, now)) == Terminal(w);
    }
  }

  // ---- expiring ----

  lemma ExpireOneGood(cfg: Config, w: World, gc: GcState, disk: Disk, now: int)
    requires gc.stage == Expire && Good(cfg, w, Memory(gc, disk), now) && gc.expireCursor < |gc.expired|
    ensures Good(cfg, w, Memory(gc.(expireCursor := gc.expireCursor + 1),
                                disk.(manifests := disk.manifests - {gc.expired[gc.expireCursor]})), now)
  {
    var k := gc.expireCursor;
    var gc', disk' := gc.(expireCursor := k + 1), disk.(manifests := disk.manifests - {gc.expired[k]});
    ExpireOneExact(w, gc, disk);
    ExpireLeavesBlobs(cfg, w, gc, disk, now);
    assert Classified(cfg, w, gc', now) && MarkExact(gc');
    hide Classified, MarkExact, ManifestsExact, BlobsExact;
  }

  lemma ExpireOneExact(w: World, gc: GcState, disk: Disk)
    requires gc.stage == Expire && ManifestsExact(w, gc, disk) && gc.expireCursor < |gc.expired|
    ensures ManifestsExact(w, gc.(expireCursor := gc.expireCursor + 1),
                           disk.(manifests := disk.manifests - {gc.expired[gc.expireCursor]}))
  {
    var k := gc.expireCursor;
    assert gc.expired[..k + 1] == gc.expired[..k] + [gc.expired[k]];
  }

  lemma ExpireLeavesBlobs(cfg: Config, w: World, gc: GcState, disk: Disk, now: int)
    requires gc.stage == Expire && BlobsExact(cfg, w, gc, disk, now) && gc.expireCursor < |gc.expired|
    ensures BlobsExact(cfg, w, gc.(expireCursor := gc.expireCursor + 1),
                       disk.(manifests := disk.manifests - {gc.expired[gc.expireCursor]}), now)
  {}

  lemma {:induction false} ExpireGood(cfg: Config, w: World, gc: GcState, disk: Disk, now: int, turns: nat, room: nat)
    requires gc.stage == Expire && Good(cfg, w, Memory(gc, disk), now)
    ensures var (gc', disk') := ExpireLoop(gc, disk, turns, room);
            && Good(cfg, w, Memory(gc', disk'), now)
            && gc' == gc.(expireCursor := gc'.expireCursor)
            && gc.expireCursor <= gc'.expireCursor
            && (turns > 0 && room > 0 && gc.expireCursor < |gc.expired| ==> gc.expireCursor < gc'.expireCursor)
            && disk' == disk.(manifests := disk'.manifests)
    decreases turns
  {
    hide Good;
    if gc.expireCursor < |gc.expired| && turns > 0 && room > 0 {
      var k := gc.expireCursor;
      var gc' := gc.(expireCursor := k + 1);
      var disk' := disk.(manifests := disk.manifests - {gc.expired[k]});
      ExpireOneGood(cfg, w, gc, disk, now);
      ExpireGood(cfg, w, gc', disk', now, turns - 1, room - 1);
      assert ExpireLoop(gc, disk, turns, room) == ExpireLoop(gc', disk', turns - 1, room - 1);
    }
  }

  // ---- sweeping ----

  lemma {:induction false} ShardsInAre(shards: set<Shard>, from: Probe, to: Probe)
    requires from <= to
    ensures forall s: Shard :: s in ShardsIn(shards, from, to) <==> from <= s < to && s in shards
    decreases 256 - from
  {
    if from < to {
      var rest := ShardsIn(shards, from + 1, to);
      ShardsInAre(shards, from + 1, to);
      forall s: Shard ensures s in ShardsIn(shards, from, to) <==> s in rest || (s == from && s in shards) {
        if from in shards { assert ShardsIn(shards, from, to) == [from as Shard] + rest; }
      }
    }
  }

  lemma {:induction false} ShardsInSplit(shards: set<Shard>, from: Probe, mid: Probe, to: Probe)
    requires from <= mid <= to
    ensures ShardsIn(shards, from, to) == ShardsIn(shards, from, mid) + ShardsIn(shards, mid, to)
    decreases 256 - from
  {
    if from < mid { ShardsInSplit(shards, from + 1, mid, to); }
  }

  lemma {:induction false} ReadShardsCovers(dirs: seq<Shard>, open: OpenDir, limit: nat, input: Input,
                                            blobs: map<BlobFile, int>, file: BlobFile)
    requires dirs != []
    requires forall hash :: Sharded(hash) in blobs ==> hash in input.shardListing(hash.shard)
    ensures var (cursor, files) := ReadShards(dirs, open, limit, input);
            && ((cursor.ShardDirs? && cursor.dirs != []) || cursor == Exhausted)
            && (forall f :: f in files ==> f.Sharded?)
            && (file in blobs && Ahead(ShardDirs(dirs, open), file) ==> Ahead(cursor, file) || file in files)
            && (limit > 0 ==> CursorBefore(cursor, ShardDirs(dirs, open)))
            && (cursor == ShardDirs(dirs, open) || CursorBefore(cursor, ShardDirs(dirs, open)))
    decreases |dirs|, if open.Closed? then 1 else 0, if open.Open? then |open.remaining| else 0
  {
    if limit > 0 {
      if open.Closed? {
        ReadShardsCovers(dirs, Open(input.shardListing(dirs[0])), limit, input, blobs, file);
      } else if open.remaining == [] {
        if |dirs| > 1 { ReadShardsCovers(dirs[1..], Closed, limit, input, blobs, file); }
      } else {
        ReadShardsCovers(dirs, Open(open.remaining[1..]), limit - 1, input, blobs, file);
      }
    }
  }

  lemma {:induction false} ReadFlatCovers(remaining: seq<Hash>, limit: nat, file: BlobFile)
    ensures var (cursor, files) := ReadFlat(remaining, limit);
            && (cursor.FlatDir? || cursor == Exhausted)
            && (forall f :: f in files ==> f.Flat?)
            && (Ahead(FlatDir(remaining), file) ==> Ahead(cursor, file) || file in files)
            && (limit > 0 ==> CursorBefore(cursor, FlatDir(remaining)))
            && (cursor == FlatDir(remaining) || CursorBefore(cursor, FlatDir(remaining)))
    decreases |remaining|
  {
    if limit > 0 && remaining != [] { ReadFlatCovers(remaining[1..], limit - 1, file); }
  }

  /** A page makes progress, yields only files of the layout in use, and leaves
      no file of that layout behind. */
  lemma NextPageCovers(cursor: Cursor, disk: Disk, limit: nat, input: Input, file: BlobFile)
    requires CursorOk(cursor, disk.shards) && WellFormed(disk) && cursor != Exhausted && limit > 0
    requires forall hash :: hash in input.flatListing <==> Flat(hash) in disk.blobs
    requires forall shard: Shard, hash :: hash in input.shardListing(shard) <==>
               hash.shard == shard && Sharded(hash) in disk.blobs
    ensures var (cursor', files) := NextPage(cursor, disk, limit, input);
            && CursorOk(cursor', disk.shards) && CursorBefore(cursor', cursor)
            && (forall f :: f in files ==> Enumerable(disk, f))
            && (file in disk.blobs && Enumerable(disk, file) && Ahead(cursor, file) ==>
                  Ahead(cursor', file) || file in files)
  {
    hide ReadShards, ReadFlat, ShardsIn, CursorBefore;
    match cursor
    case FlatDir(remaining) => ReadFlatCovers(remaining, limit, file);
    case ShardDirs(dirs, open) => ReadShardsCovers(dirs, open, limit, input, disk.blobs, file);
    case Probing(next, found) => ProbeCovers(next, found, disk, limit, input, file);
  }

  /** The probe goes on, or ends with the first page. */
  lemma ProbeCovers(next: Probe, found: seq<Shard>, disk: Disk, limit: nat, input: Input, file: BlobFile)
    requires CursorOk(Probing(next, found), disk.shards) && WellFormed(disk) && limit > 0
    requires forall hash :: hash in input.flatListing <==> Flat(hash) in disk.blobs
    requires forall shard: Shard, hash :: hash in input.shardListing(shard) <==>
               hash.shard == shard && Sharded(hash) in disk.blobs
    ensures var (cursor', files) := NextPage(Probing(next, found), disk, limit, input);
            && CursorOk(cursor', disk.shards) && CursorBefore(cursor', Probing(next, found))
            && (forall f :: f in files ==> Enumerable(disk, f))
            && (file in disk.blobs && Enumerable(disk, file) ==> Ahead(cursor', file) || file in files)
  {
    hide ReadShards, ReadFlat, ShardsIn;
    var next' := if next + limit < 256 then next + limit else 256;
    ShardsInSplit(disk.shards, 0, next, next');
    if next' == 256 { FirstPageCovers(disk, limit, input, file); }
  }

  /** The page read when the probe ends and the layout is known. */
  lemma FirstPageCovers(disk: Disk, limit: nat, input: Input, file: BlobFile)
    requires WellFormed(disk) && limit > 0
    requires forall hash :: hash in input.flatListing <==> Flat(hash) in disk.blobs
    requires forall shard: Shard, hash :: hash in input.shardListing(shard) <==>
               hash.shard == shard && Sharded(hash) in disk.blobs
    ensures var found := ShardsIn(disk.shards, 0, 256);
            var (cursor, files) := if found != [] then ReadShards(found, Closed, limit, input)
              else ReadFlat(input.flatListing, limit);
            && CursorOk(cursor, disk.shards) && CursorKind(cursor) < 2
            && (forall f :: f in files ==> Enumerable(disk, f))
            && (file in disk.blobs && Enumerable(disk, file) ==> Ahead(cursor, file) || file in files)
  {
    hide ShardsIn, ReadShards, ReadFlat, CursorBefore;
    ShardsInAre(disk.shards, 0, 256);
    var found := ShardsIn(disk.shards, 0, 256);
    if found != [] {
      assert found[0] in disk.shards;
      ReadShardsCovers(found, Closed, limit, input, disk.blobs, file);
    } else {
      forall s: Shard ensures s !in disk.shards {}
      assert disk.shards == {};
      ReadFlatCovers(input.flatListing, limit, file);
    }
  }

  lemma {:induction false} SweepGood(cfg: Config, w: World, gc: GcState, disk: Disk, now: int, turns: nat, room: nat)
    requires w.now <= now && gc.stage == Sweep && BlobsExact(cfg, w, gc, disk, now)
    ensures var (gc', disk') := SweepLoop(cfg, gc, disk, now, turns, room);
            && BlobsExact(cfg, w, gc', disk', now)
            && gc' == gc.(pending := gc'.pending)
            && disk' == disk.(blobs := disk'.blobs)
            && |gc'.pending| <= |gc.pending|
            && (turns > 0 && room > 0 && gc.pending != [] ==> |gc'.pending| < |gc.pending|)
    decreases turns
  {
    if gc.pending != [] && turns > 0 && room > 0 {
      var (gc', disk') := SweepOne(cfg, gc, disk, now);
      var file := gc.pending[0];
      assert forall f :: f in gc.pending <==> f == file || f in gc'.pending;
      if file in disk.blobs { assert Recent(cfg, disk.blobs, now, file) <==> Recent(cfg, w.disk.blobs, now, file); }
      assert file in disk'.blobs && file.hash !in gc.marked ==> Recent(cfg, w.disk.blobs, w.now, file);
      SweepGood(cfg, w, gc', disk', now, turns - 1, room - 1);
    }
  }

  lemma PageGood(cfg: Config, w: World, gc: GcState, disk: Disk, now: int, input: Input)
    requires gc.stage == Sweep && BlobsExact(cfg, w, gc, disk, now) && gc.pending == [] && gc.cursor != Exhausted
    requires disk.shards == w.disk.shards && WellFormed(w.disk) && input.pageSize > 0
    requires forall hash :: hash in input.flatListing <==> Flat(hash) in disk.blobs
    requires forall shard: Shard, hash :: hash in input.shardListing(shard) <==>
               hash.shard == shard && Sharded(hash) in disk.blobs
    ensures var (cursor, files) := NextPage(gc.cursor, disk, input.pageSize, input);
            && BlobsExact(cfg, w, gc.(cursor := cursor, pending := files), disk, now)
            && CursorBefore(cursor, gc.cursor)
  {
    assert WellFormed(disk);
    NextPageCovers(gc.cursor, disk, input.pageSize, input, Flat(Hash(0, 0)));
    forall file ensures file in disk.blobs && Enumerable(disk, file) && Ahead(gc.cursor, file) ==>
        var (cursor, files) := NextPage(gc.cursor, disk, input.pageSize, input); Ahead(cursor, file) || file in files
    {
      NextPageCovers(gc.cursor, disk, input.pageSize, input, file);
    }
  }

  lemma SweepPhaseGood(cfg: Config, w: World, gc: GcState, disk: Disk, now: int, input: Input)
    requires gc.stage == Sweep && Good(cfg, w, Memory(gc, disk), now)
    requires input.pageSize > 0
    requires forall hash :: hash in input.flatListing <==> Flat(hash) in disk.blobs
    requires forall shard: Shard, hash :: hash in input.shardListing(shard) <==>
               hash.shard == shard && Sharded(hash) in disk.blobs
    ensures var out := SweepPhase(cfg, gc, At(w, disk, now), disk, input);
            && (out.hasMore ==>
                  && Good(cfg, w, Memory(out.gc, out.disk), now) && out.gc.stage == Sweep
                  && (input.sweepTurns > 0 || gc.pending == [] ==> Before(out.gc, gc)))
            && (!out.hasMore ==> Collected(cfg, w, now, out.disk))
  {
    if gc.pending == [] { PageGood(cfg, w, gc, disk, now, input); }
    var (cursor, files) := if gc.pending == [] then NextPage(gc.cursor, disk, input.pageSize, input)
      else (gc.cursor, gc.pending);
    var paged := gc.(cursor := cursor, pending := files);
    SweepGood(cfg, w, paged, disk, now, input.sweepTurns, input.pageSize);
    var (swept, disk') := SweepLoop(cfg, paged, disk, now, input.sweepTurns, input.pageSize);
    if swept.pending == [] && swept.cursor == Exhausted {
      CompleteIsCollected(cfg, w, swept, disk', now);
    }
  }

  /** At the end of the sweep the invariant is the one-shot result. */
  lemma CompleteIsCollected(cfg: Config, w: World, gc: GcState, disk: Disk, now: int)
    requires w.now <= now && gc.stage == Sweep && gc.pending == [] && gc.cursor == Exhausted
    requires disk.shards == w.disk.shards
    requires Classified(cfg, w, gc, now) && MarkExact(gc) && ManifestsExact(w, gc, disk)
               && BlobsExact(cfg, w, gc, disk, now)
    ensures Collected(cfg, w, now, disk)
  {
    assert gc.expired[..gc.expireCursor] == gc.expired;
    forall file | file in disk.blobs ensures BlobKept(cfg, w, file) {
      if Enumerable(w.disk, file) && !Recent(cfg, w.disk.blobs, w.now, file) {
        var k :| 0 <= k < gc.markCursor && file.hash in Blobs(gc.retained[k]);
        assert gc.retained[k] in gc.retained;
      }
    }
    forall file | file in w.disk.blobs && BlobKept(cfg, w.(now := now), file) ensures file in disk.blobs {
      if Reachable(cfg, w.(now := now), file.hash) {
        var ref :| ref in w.disk.manifests && Kept(cfg, w.(now := now), ref) && file.hash in Blobs(ref);
        var k :| 0 <= k < |gc.retained| && gc.retained[k] == ref;
        assert file.hash in gc.marked;
      }
    }
  }

  // ---- one slice ----

  ghost predicate Outgoing(cfg: Config, w: World, now: int, from: GcState, out: Outcome) {
    && (out.hasMore ==> out.gc.stage != Idle && Good(cfg, w, Memory(out.gc, out.disk), now) && Before(out.gc, from))
    && (!out.hasMore ==> Collected(cfg, w, now, out.disk))
  }

  lemma SweepBegins(cfg: Config, w: World, gc: GcState, disk: Disk, now: int)
    requires gc.stage == Expire && Good(cfg, w, Memory(gc, disk), now) && gc.expireCursor >= |gc.expired|
    ensures Good(cfg, w, Memory(gc.(stage := Sweep, pending := []), disk), now)
  {
    var sweeping := gc.(stage := Sweep, pending := []);
    assert BlobsExact(cfg, w, sweeping, disk, now);
    assert Classified(cfg, w, sweeping, now) && MarkExact(sweeping) && ManifestsExact(w, sweeping, disk);
  }

  /** The sweep uses only the clock of its world; the files are passed apart. */
  lemma SweepPhaseIgnoresFiles(cfg: Config, gc: GcState, w: World, w': World, disk: Disk, input: Input)
    requires w.now == w'.now
    ensures SweepPhase(cfg, gc, w, disk, input) == SweepPhase(cfg, gc, w', disk, input)
  {}

  /** A slice that reaches the expire loop with the roots covered. */
  lemma ExpirePhaseGood(cfg: Config, w: World, from: GcState, gc: GcState, disk: Disk, now: int, input: Input)
    requires gc.stage == Expire && Good(cfg, w, Memory(gc, disk), now) && input.pageSize > 0
    requires Rank(gc) < Rank(from) || (gc == from && input.expireTurns > 0)
    requires forall hash :: hash in input.flatListing <==> Flat(hash) in disk.blobs
    requires forall shard: Shard, hash :: hash in input.shardListing(shard) <==>
               hash.shard == shard && Sharded(hash) in disk.blobs
    ensures var (gc2, disk2) := ExpireLoop(gc, disk, input.expireTurns, input.pageSize);
            Outgoing(cfg, w, now, from,
                     if gc2.expireCursor < |gc2.expired| then Outcome(gc2, disk2, true)
                     else SweepPhase(cfg, gc2.(stage := Sweep, pending := []), At(w, disk, now), disk2, input))
  {
    hide Classified, MarkExact, ManifestsExact, BlobsExact, Collected, ExpireLoop, SweepPhase;
    ExpireGood(cfg, w, gc, disk, now, input.expireTurns, input.pageSize);
    var (gc2, disk2) := ExpireLoop(gc, disk, input.expireTurns, input.pageSize);
    if gc2.expireCursor >= |gc2.expired| {
      SweepBegins(cfg, w, gc2, disk2, now);
      SweepPhaseGood(cfg, w, gc2.(stage := Sweep, pending := []), disk2, now, input);
      SweepPhaseIgnoresFiles(cfg, gc2.(stage := Sweep, pending := []), At(w, disk, now), At(w, disk2, now), disk2,
                               input);
    }
  }

  /** The collector's memory between two slices of a mark begun in `w`: exact, and
      once something was deleted, nothing on the expired list is protected. */
  ghost predicate Steady(cfg: Config, w: World, m: Memory, now: int) {
    && Good(cfg, w, m, now)
    && Inv(m.gc, m.disk.manifests)
    && (m.gc.stage == Sweep || m.gc.expireCursor > 0 ==> Cleared(cfg, w, m.gc, now))
  }

  lemma SteadySurvivesClock(cfg: Config, w: World, m: Memory, now: int, later: int)
    requires Steady(cfg, w, m, now) && now <= later
    ensures Steady(cfg, w, m, later)
  {
    GoodSurvivesClock(cfg, w, m, now, later);
    forall ref | ref in m.gc.expired && Cleared(cfg, w, m.gc, now) ensures !Protected(cfg, w.(now := later), ref) {
      TimeOnlyReleases(cfg, w, ref, now, later);
    }
  }

  /** What the slice checks its roots against. */
  function AtCheck(cfg: Config, w: World, m: Memory, tick: Tick): GcState {
    if m.gc.stage == Sweep then m.gc else MarkPhase(cfg, m.gc, At(w, m.disk, tick.now), tick.input)
  }

  /** The slice throws its mark away. */
  predicate Restarted(out: Outcome) {
    out.hasMore && out.gc.stage == Idle
  }

  /** Some ref that was classified as expired is still protected at the check. */
  ghost predicate Contradicted(cfg: Config, w: World, m: Memory, tick: Tick) {
    var gc := AtCheck(cfg, w, m, tick);
    gc.stage in {Expire, Sweep} && !Cleared(cfg, w, gc, tick.now)
  }

  lemma UntouchedDisk(cfg: Config, w: World, m: Memory, now: int)
    requires Good(cfg, w, m, now) && m.gc.stage in {Classify, Mark, Expire} && m.gc.expireCursor == 0
    ensures m.disk == w.disk
  {
    assert m.gc.expired[..0] == [];
    assert m.disk.manifests == w.disk.manifests;
  }

  /** A slice that goes on after its check. */
  lemma SliceProceeds(cfg: Config, w: World, m: Memory, tick: Tick)
    requires Steady(cfg, w, m, tick.now) && !Contradicted(cfg, w, m, tick)
    requires m.gc.stage == Idle ==> tick.now == w.now
    requires SoundListings(m.gc, m.disk, tick.input) && Progresses(m.gc, tick.input)
    ensures Outgoing(cfg, w, tick.now, m.gc, SliceAt(cfg, w, m, tick))
  {
    hide Classified, MarkExact, ManifestsExact, BlobsExact, Collected, MarkPhase, ExpireLoop, SweepPhase,
      RootsAreCovered;
    hide Cleared, Inv;
    var now, input := tick.now, tick.input;
    if m.gc.stage == Sweep {
      CoverageHolds(cfg, w, m, now);
      SweepPhaseGood(cfg, w, m.gc, m.disk, now, input);
    } else {
      MarkPhaseGood(cfg, w, m, now, input);
      var gc1 := MarkPhase(cfg, m.gc, At(w, m.disk, now), input);
      if gc1.stage == Expire {
        CoverageHolds(cfg, w, Memory(gc1, m.disk), now);
        ExpirePhaseGood(cfg, w, m.gc, gc1, m.disk, now, input);
      }
    }
  }

  /** A slice keeps the list of expired refs it checked. */
  lemma SliceKeepsExpired(cfg: Config, w: World, m: Memory, tick: Tick)
    ensures var out, gc := SliceAt(cfg, w, m, tick), AtCheck(cfg, w, m, tick);
            && (out.hasMore ==> out.gc == IDLE || out.gc.expired == gc.expired)
            && (gc.stage !in {Expire, Sweep} ==> out.gc == gc)
  {
    var gc, world := AtCheck(cfg, w, m, tick), At(w, m.disk, tick.now);
    ExpireDeletes(gc, m.disk, tick.input.expireTurns, tick.input.pageSize);
    var (gc2, disk) := ExpireLoop(gc, m.disk, tick.input.expireTurns, tick.input.pageSize);
    SweepPhaseKeepsMarked(cfg, gc, world, m.disk, tick.input);
    SweepPhaseKeepsMarked(cfg, gc2.(stage := Sweep, pending := []), world, disk, tick.input);
  }

  /** A contradicted slice throws the mark away before anything was deleted, and
      the ref that contradicts it is torn. */
  lemma SliceRestarts(cfg: Config, w: World, m: Memory, tick: Tick)
    requires Steady(cfg, w, m, tick.now) && Contradicted(cfg, w, m, tick)
    requires m.gc.stage == Idle ==> tick.now == w.now
    requires SoundListings(m.gc, m.disk, tick.input) && Progresses(m.gc, tick.input)
    ensures SliceAt(cfg, w, m, tick) == Outcome(IDLE, w.disk, true) && m.disk == w.disk
    ensures exists ref :: Torn(cfg, w.(now := tick.now), ref)
  {
    var now, input := tick.now, tick.input;
    assert m.gc.stage != Sweep;
    MarkPhaseGood(cfg, w, m, now, input);
    MarkPhaseKeeps(cfg, m.gc, At(w, m.disk, now), input);
    var gc := AtCheck(cfg, w, m, tick);
    hide MarkPhase, Inv;
    assert gc.expireCursor == 0;
    UntouchedDisk(cfg, w, Memory(gc, m.disk), now);
    if RootsAreCovered(cfg, gc, At(w, m.disk, now)) { CoverageNeeds(cfg, w, Memory(gc, m.disk), now); }
    var ref :| ref in gc.expired && Protected(cfg, w.(now := now), ref);
    assert Torn(cfg, w.(now := now), ref);
  }

  /** One slice of a mark begun in `w`, whatever the clock does. It restarts exactly
      when a ref that was classified as expired is still protected at its check;
      then nothing has been deleted and the ref is torn. Otherwise it goes on with
      a lower measure or completes the collection exactly. */
  lemma SliceSteps(cfg: Config, w: World, m: Memory, tick: Tick)
    requires Steady(cfg, w, m, tick.now)
    requires m.gc.stage == Idle ==> tick.now == w.now
    requires SoundListings(m.gc, m.disk, tick.input) && Progresses(m.gc, tick.input)
    ensures var out := SliceAt(cfg, w, m, tick);
            && (Restarted(out) <==> Contradicted(cfg, w, m, tick))
            && (Restarted(out) ==>
                  out.gc == IDLE && out.disk == m.disk == w.disk && exists ref :: Torn(cfg, w.(now := tick.now), ref))
            && (out.hasMore && !Restarted(out) ==>
                  Steady(cfg, w, Memory(out.gc, out.disk), tick.now) && Before(out.gc, m.gc))
            && (!out.hasMore ==> Collected(cfg, w, tick.now, out.disk))
  {
    hide Slice, Good, Collected, Torn, Before;
    if Contradicted(cfg, w, m, tick) {
      SliceRestarts(cfg, w, m, tick);
    } else {
      SliceProceeds(cfg, w, m, tick);
      SliceKeepsExpired(cfg, w, m, tick);
      InvAfterSlice(cfg, w, m, tick);
      ClearedAfterSlice(cfg, w, m, tick);
    }
  }

  lemma InvAfterSlice(cfg: Config, w: World, m: Memory, tick: Tick)
    requires Inv(m.gc, m.disk.manifests) && SoundListings(m.gc, m.disk, tick.input)
    ensures var out := SliceAt(cfg, w, m, tick); Inv(out.gc, out.disk.manifests)
  {
    SliceIsSafe(cfg, m.gc, At(w, m.disk, tick.now), tick.input, Ref([]));
  }

  lemma ClearedAfterSlice(cfg: Config, w: World, m: Memory, tick: Tick)
    requires Steady(cfg, w, m, tick.now) && !Contradicted(cfg, w, m, tick)
    requires m.gc.stage == Idle ==> tick.now == w.now
    requires SoundListings(m.gc, m.disk, tick.input) && Progresses(m.gc, tick.input)
    ensures var out := SliceAt(cfg, w, m, tick);
            out.hasMore && (out.gc.stage == Sweep || out.gc.expireCursor > 0) ==> Cleared(cfg, w, out.gc, tick.now)
  {
    hide Good, Cleared, Inv;
    var gc, out := AtCheck(cfg, w, m, tick), SliceAt(cfg, w, m, tick);
    SliceKeepsExpired(cfg, w, m, tick);
    if gc.stage !in {Expire, Sweep} {
      MarkPhaseGood(cfg, w, m, tick.now, tick.input);
      NoCursorYet(cfg, w, gc, m.disk, tick.now);
    } else if out.hasMore && out.gc != IDLE {
      ClearedByList(cfg, w, gc, out.gc, tick.now);
    }
  }

  lemma NoCursorYet(cfg: Config, w: World, gc: GcState, disk: Disk, now: int)
    requires Good(cfg, w, Memory(gc, disk), now) && gc.stage in {Classify, Mark}
    ensures gc.expireCursor == 0
  {}

  lemma ClearedByList(cfg: Config, w: World, gc: GcState, gc': GcState, now: int)
    requires Cleared(cfg, w, gc, now) && gc'.expired == gc.expired
    ensures Cleared(cfg, w, gc', now)
  {}

  // ---- whole collections ----

  lemma RunStep(cfg: Config, w: World, schedule: Schedule, n: nat)
    ensures var out := SliceAt(cfg, w, Run(cfg, w, schedule, n), schedule(n));
            Run(cfg, w, schedule, n + 1) == Memory(out.gc, out.disk) && HasMore(cfg, w, schedule, n) == out.hasMore
  {}

  /** Slice `n` throws the mark away. */
  predicate Restarts(cfg: Config, w: World, schedule: Schedule, n: nat) {
    Restarted(SliceAt(cfg, w, Run(cfg, w, schedule, n), schedule(n)))
  }

  /** The same roots and files, with the clock at slice `n`. */
  function WorldAt(w: World, schedule: Schedule, n: nat): World {
    w.(now := schedule(n).now)
  }

  lemma {:induction false} ClockIsMonotone(cfg: Config, w: World, schedule: Schedule, i: nat, j: nat)
    requires Fair(cfg, w, schedule) && i <= j
    ensures schedule(i).now <= schedule(j).now
    decreases j - i
  {
    if i < j { ClockIsMonotone(cfg, w, schedule, i, j - 1); }
  }

  /** The slice `j` at which the mark in progress at slice `i` was begun. */
  ghost predicate BegunAt(cfg: Config, w: World, schedule: Schedule, i: nat, j: nat) {
    var m := Run(cfg, w, schedule, i);
    && j <= i && (m.gc.stage == Idle ==> j == i)
    && Steady(cfg, WorldAt(w, schedule, j), m, schedule(i).now)
  }

  lemma StepFrom(cfg: Config, w: World, schedule: Schedule, i: nat, j: nat)
    requires Fair(cfg, w, schedule) && BegunAt(cfg, w, schedule, i, j)
    ensures var out, start := SliceAt(cfg, w, Run(cfg, w, schedule, i), schedule(i)), WorldAt(w, schedule, j);
            && (Restarted(out) ==> out.gc == IDLE && out.disk == w.disk
                                     && exists ref :: Torn(cfg, WorldAt(w, schedule, i), ref))
            && (out.hasMore && !Restarted(out) ==>
                  BegunAt(cfg, w, schedule, i + 1, j) && Before(out.gc, Run(cfg, w, schedule, i).gc))
            && (!out.hasMore ==> Collected(cfg, start, schedule(i).now, out.disk))
  {
    hide Slice, Good, Collected, Torn, Before, SoundListings, Progresses, Cleared, Inv;
    var m, start := Run(cfg, w, schedule, i), WorldAt(w, schedule, j);
    assert SoundListings(m.gc, m.disk, schedule(i).input) && Progresses(m.gc, schedule(i).input);
    SliceSteps(cfg, start, m, schedule(i));
    var out := SliceAt(cfg, w, m, schedule(i));
    assert out == SliceAt(cfg, start, m, schedule(i));
    assert start.(now := schedule(i).now) == WorldAt(w, schedule, i);
    RunStep(cfg, w, schedule, i);
    if out.hasMore && !Restarted(out) {
      SteadySurvivesClock(cfg, start, Memory(out.gc, out.disk), schedule(i).now, schedule(i + 1).now);
    }
  }

  lemma FreshIsSteady(cfg: Config, w: World)
    requires WellFormed(w.disk)
    ensures Steady(cfg, w, Memory(IDLE, w.disk), w.now)
  {}

  /** As long as the collection is not complete, some mark begun at an earlier
      slice is in progress on the original files. */
  lemma {:induction false} MarkInProgress(cfg: Config, w: World, schedule: Schedule, i: nat) returns (j: nat)
    requires WellFormed(w.disk) && Fair(cfg, w, schedule)
    requires forall k :: 0 <= k < i ==> HasMore(cfg, w, schedule, k)
    ensures BegunAt(cfg, w, schedule, i, j)
  {
    hide Slice, Good, Collected, Torn, Before, SoundListings, Progresses, Cleared, Inv;
    if i == 0 {
      FreshIsSteady(cfg, WorldAt(w, schedule, 0));
      return 0;
    }
    j := MarkInProgress(cfg, w, schedule, i - 1);
    StepFrom(cfg, w, schedule, i - 1, j);
    RunStep(cfg, w, schedule, i - 1);
    if Restarts(cfg, w, schedule, i - 1) {
      FreshIsSteady(cfg, WorldAt(w, schedule, i));
      return i;
    }
  }

  lemma {:induction false} CompletesFrom(cfg: Config, w: World, schedule: Schedule, i: nat, j: nat, m: Memory)
      returns (n: nat)
    requires Fair(cfg, w, schedule) && BegunAt(cfg, w, schedule, i, j)
    requires NoMoreRestarts(cfg, w, schedule, i)
    requires m == Run(cfg, w, schedule, i)
    ensures n >= i && !HasMore(cfg, w, schedule, n)
    ensures forall k :: i <= k < n ==> HasMore(cfg, w, schedule, k)
    ensures Collected(cfg, WorldAt(w, schedule, j), schedule(n).now, Run(cfg, w, schedule, n + 1).disk)
    decreases Rank(m.gc), Work(m.gc), CursorKind(m.gc.cursor), CursorDirs(m.gc.cursor),
              CursorClosed(m.gc.cursor), CursorFiles(m.gc.cursor), |m.gc.pending|
  {
    hide Slice, Run, Torn, Collected, BegunAt, SoundListings, Progresses;
    StepFrom(cfg, w, schedule, i, j);
    RunStep(cfg, w, schedule, i);
    assert !Restarts(cfg, w, schedule, i);
    var out := SliceAt(cfg, w, m, schedule(i));
    if !out.hasMore { return i; }
    n := CompletesFrom(cfg, w, schedule, i + 1, j, Memory(out.gc, out.disk));
  }

  /** From slice `from` on, no mark of the collection is thrown away. */
  ghost predicate NoMoreRestarts(cfg: Config, w: World, schedule: Schedule, from: nat) {
    forall k: nat, j: nat :: k >= from && BegunAt(cfg, w, schedule, k, j) ==> !Restarts(cfg, w, schedule, k)
  }

  /** The collection ends at slice `n`, with what a one-shot collection begun at
      slice `j` leaves. */
  ghost predicate CompletesAt(cfg: Config, w: World, schedule: Schedule, j: nat, n: nat) {
    && j <= n && !HasMore(cfg, w, schedule, n)
    && (forall k :: 0 <= k < n ==> HasMore(cfg, w, schedule, k))
    && Collected(cfg, WorldAt(w, schedule, j), schedule(n).now, Run(cfg, w, schedule, n + 1).disk)
  }

  lemma FirstCompletion(cfg: Config, w: World, schedule: Schedule, some: nat) returns (j: nat, n: nat)
    requires WellFormed(w.disk) && Fair(cfg, w, schedule) && !HasMore(cfg, w, schedule, some)
    ensures n <= some && CompletesAt(cfg, w, schedule, j, n)
  {
    hide Slice, Run, Collected, SoundListings, Progresses, HasMore, Fair, BegunAt;
    n := 0;
    while HasMore(cfg, w, schedule, n)
      invariant n <= some && forall k :: 0 <= k < n ==> HasMore(cfg, w, schedule, k)
      decreases some - n
    {
      n := n + 1;
    }
    j := MarkInProgress(cfg, w, schedule, n);
    EndsHere(cfg, w, schedule, n, j);
  }

  lemma EndsHere(cfg: Config, w: World, schedule: Schedule, n: nat, j: nat)
    requires Fair(cfg, w, schedule) && BegunAt(cfg, w, schedule, n, j) && !HasMore(cfg, w, schedule, n)
    ensures j <= n && Collected(cfg, WorldAt(w, schedule, j), schedule(n).now, Run(cfg, w, schedule, n + 1).disk)
  {
    hide Slice, Collected, SoundListings, Progresses, Steady;
    StepFrom(cfg, w, schedule, n, j);
    RunStep(cfg, w, schedule, n);
  }

  /** Every schedule of page sizes and time budgets in which each slice handles at
      least one item completes the collection, provided the mark is restarted only
      finitely often. */
  lemma CompletesUnlessRestarted(cfg: Config, w: World, schedule: Schedule, from: nat) returns (j: nat, n: nat)
    requires WellFormed(w.disk) && Fair(cfg, w, schedule)
    requires NoMoreRestarts(cfg, w, schedule, from)
    ensures CompletesAt(cfg, w, schedule, j, n)
  {
    hide Run, HasMore, Fair, NoMoreRestarts, Collected;
    if k: nat :| k < from && !HasMore(cfg, w, schedule, k) {
      j, n := FirstCompletion(cfg, w, schedule, k);
    } else {
      j := MarkInProgress(cfg, w, schedule, from);
      n := CompletesFrom(cfg, w, schedule, from, j, Run(cfg, w, schedule, from));
    }
  }

  /** It is once no root is torn any more. A moving clock alone never restarts the
      mark, and neither does a root torn only after it was retained. */
  lemma Completes(cfg: Config, w: World, schedule: Schedule, from: nat) returns (j: nat, n: nat)
    requires WellFormed(w.disk) && Fair(cfg, w, schedule)
    requires forall k: nat, ref :: k >= from ==> !Torn(cfg, WorldAt(w, schedule, k), ref)
    ensures CompletesAt(cfg, w, schedule, j, n)
  {
    hide Run, Torn, Slice, Collected, Steady;
    forall k: nat, j: nat | k >= from && BegunAt(cfg, w, schedule, k, j) ensures !Restarts(cfg, w, schedule, k) {
      StepFrom(cfg, w, schedule, k, j);
    }
    j, n := CompletesUnlessRestarted(cfg, w, schedule, from);
  }

  /** No root is torn once every terminal entry is past its retention. */
  lemma AgedIsNotTorn(cfg: Config, w: World, ref: Ref)
    requires forall e :: e in Terminal(w) ==> !WithinTtl(cfg, w.now, e.ageAtMs)
    ensures !Torn(cfg, w, ref)
  {}

  /** With fixed roots, every fair schedule whose clock passes the retention of
      every terminal entry completes. */
  lemma CompletesOnceAged(cfg: Config, w: World, schedule: Schedule, from: nat) returns (j: nat, n: nat)
    requires WellFormed(w.disk) && Fair(cfg, w, schedule)
    requires forall e :: e in Terminal(w) ==> !WithinTtl(cfg, schedule(from).now, e.ageAtMs)
    ensures CompletesAt(cfg, w, schedule, j, n)
  {
    forall k: nat, ref | k >= from ensures !Torn(cfg, WorldAt(w, schedule, k), ref) {
      ClockIsMonotone(cfg, w, schedule, from, k);
      AgedIsNotTorn(cfg, WorldAt(w, schedule, k), ref);
    }
    j, n := Completes(cfg, w, schedule, from);
  }

  // ---- fair schedules exist ----

  /** Some order of a directory. */
  ghost function Listed<T(!new)>(directory: set<T>): (names: seq<T>)
    ensures IsListing(names, directory)
  {
    if directory == {} then []
    else var name :| name in directory; [name] + Listed(directory - {name})
  }

  /** Sound listings, and room for one item at a time. */
  ghost function OneByOne(disk: Disk): Input {
    Input(1, 1, 1, 1, 1, Listed(disk.manifests.Keys),
          Listed(set file | file in disk.blobs && file.Flat? :: file.hash),
          (shard: Shard) =>
            Listed(set file | file in disk.blobs && file.Sharded? && file.hash.shard == shard :: file.hash))
  }

  lemma OneByOneIsSound(gc: GcState, disk: Disk)
    ensures SoundListings(gc, disk, OneByOne(disk)) && Progresses(gc, OneByOne(disk))
  {
    var input := OneByOne(disk);
    var flat := set file | file in disk.blobs && file.Flat? :: file.hash;
    forall hash ensures hash in input.flatListing <==> Flat(hash) in disk.blobs {
      assert hash in input.flatListing <==> hash in flat;
      if Flat(hash) in disk.blobs { assert Flat(hash).hash in flat; }
    }
    forall shard: Shard, hash
      ensures hash in input.shardListing(shard) <==> hash.shard == shard && Sharded(hash) in disk.blobs
    {
      var files := set file | file in disk.blobs && file.Sharded? && file.hash.shard == shard :: file.hash;
      assert hash in input.shardListing(shard) <==> hash in files;
      if Sharded(hash) in disk.blobs && hash.shard == shard { assert Sharded(hash).hash in files; }
    }
  }

  ghost function RunOneByOne(cfg: Config, w: World, clock: nat -> int, n: nat): Memory {
    if n == 0 then Memory(IDLE, w.disk)
    else
      var m := RunOneByOne(cfg, w, clock, n - 1);
      var out := SliceAt(cfg, w, m, Tick(clock(n - 1), OneByOne(m.disk)));
      Memory(out.gc, out.disk)
  }

  ghost predicate IsOneByOne(cfg: Config, w: World, clock: nat -> int, schedule: Schedule) {
    forall i: nat :: schedule(i) == Tick(clock(i), OneByOne(RunOneByOne(cfg, w, clock, i).disk))
  }

  lemma TickOf(cfg: Config, w: World, clock: nat -> int, schedule: Schedule, i: nat)
    requires IsOneByOne(cfg, w, clock, schedule)
    ensures schedule(i) == Tick(clock(i), OneByOne(RunOneByOne(cfg, w, clock, i).disk))
  {
    hide RunOneByOne, OneByOne;
  }

  lemma {:induction false} RunsOneByOne(cfg: Config, w: World, clock: nat -> int, schedule: Schedule, n: nat)
    requires IsOneByOne(cfg, w, clock, schedule)
    ensures Run(cfg, w, schedule, n) == RunOneByOne(cfg, w, clock, n)
  {
    hide SliceAt, OneByOne, IsOneByOne;
    if n > 0 {
      RunsOneByOne(cfg, w, clock, schedule, n - 1);
      TickOf(cfg, w, clock, schedule, n - 1);
    }
  }

  /** For every store and every clock that never goes back there is a fair schedule. */
  lemma FairExists(cfg: Config, w: World, clock: nat -> int) returns (schedule: Schedule)
    requires clock(0) == w.now && forall i: nat :: clock(i) <= clock(i + 1)
    ensures Fair(cfg, w, schedule) && forall i: nat :: schedule(i).now == clock(i)
  {
    schedule := (i: nat) => Tick(clock(i), OneByOne(RunOneByOne(cfg, w, clock, i).disk));
    hide Run, RunOneByOne, OneByOne, SoundListings, Progresses;
    assert IsOneByOne(cfg, w, clock, schedule);
    forall i: nat
      ensures var m := Run(cfg, w, schedule, i);
              SoundListings(m.gc, m.disk, schedule(i).input) && Progresses(m.gc, schedule(i).input)
    {
      RunsOneByOne(cfg, w, clock, schedule, i);
      TickOf(cfg, w, clock, schedule, i);
      OneByOneIsSound(Run(cfg, w, schedule, i).gc, Run(cfg, w, schedule, i).disk);
    }
  }

  // ---- the livelock ----

  /** A root torn since the mark was begun makes the slice go on without deleting. */
  lemma TornBlocks(cfg: Config, w: World, m: Memory, tick: Tick, ref: Ref)
    requires Steady(cfg, w, m, tick.now)
    requires m.gc.stage == Idle ==> tick.now == w.now
    requires SoundListings(m.gc, m.disk, tick.input) && Progresses(m.gc, tick.input)
    requires !Kept(cfg, w, ref) && Torn(cfg, w.(now := tick.now), ref)
    ensures var out := SliceAt(cfg, w, m, tick); out.hasMore && out.disk == m.disk == w.disk
  {
    var gc := AtCheck(cfg, w, m, tick);
    if m.gc.stage != Sweep { MarkPhaseGood(cfg, w, m, tick.now, tick.input); }
    hide MarkPhase, Inv;
    if gc.stage in {Expire, Sweep} {
      DroppedIsListed(cfg, w, Memory(gc, m.disk), tick.now, ref);
      SliceRestarts(cfg, w, m, tick);
    } else {
      NoCursorYet(cfg, w, gc, m.disk, tick.now);
      UntouchedDisk(cfg, w, Memory(gc, m.disk), tick.now);
      SliceKeepsExpired(cfg, w, m, tick);
    }
  }

  /** A completed classification lists every manifest the rule drops. */
  lemma DroppedIsListed(cfg: Config, w: World, m: Memory, now: int, ref: Ref)
    requires Good(cfg, w, m, now) && m.gc.stage in {Expire, Sweep}
    requires ref in w.disk.manifests && !Kept(cfg, w, ref)
    ensures ref in m.gc.expired
  {}

  /** While a root stays torn, the collection has more to do at every slice and
      deletes nothing, however the clock moves. */
  lemma {:induction false} TornKeepsRestarting(cfg: Config, w: World, schedule: Schedule, ref: Ref, n: nat)
    requires WellFormed(w.disk) && Fair(cfg, w, schedule)
    requires Torn(cfg, w, ref) && Torn(cfg, WorldAt(w, schedule, n), ref)
    ensures HasMore(cfg, w, schedule, n) && Run(cfg, w, schedule, n).disk == Run(cfg, w, schedule, n + 1).disk == w.disk
    ensures forall k :: 0 <= k < n ==> HasMore(cfg, w, schedule, k)
  {
    hide Slice, Run, Good, SoundListings, Progresses, Collected;
    if n > 0 {
      ClockIsMonotone(cfg, w, schedule, n - 1, n);
      ClockIsMonotone(cfg, w, schedule, 0, n - 1);
      TimeOnlyReleases(cfg, w, ref, schedule(n - 1).now, schedule(n).now);
      TimeOnlyReleases(cfg, w, ref, w.now, schedule(n - 1).now);
      assert w.(now := w.now) == w;
      TornKeepsRestarting(cfg, w, schedule, ref, n - 1);
    }
    var j := MarkInProgress(cfg, w, schedule, n);
    var m, start := Run(cfg, w, schedule, n), WorldAt(w, schedule, j);
    ClockIsMonotone(cfg, w, schedule, 0, j);
    TimeOnlyReleases(cfg, w, ref, w.now, schedule(j).now);
    assert w.(now := w.now) == w;
    assert SoundListings(m.gc, m.disk, schedule(n).input) && Progresses(m.gc, schedule(n).input);
    assert start.(now := schedule(n).now) == WorldAt(w, schedule, n);
    TornBlocks(cfg, start, m, schedule(n), ref);
    assert SliceAt(cfg, start, m, schedule(n)) == SliceAt(cfg, w, m, schedule(n));
    RunStep(cfg, w, schedule, n);
  }

  /** With roots and clock fixed, a collection completes if and only if no root is
      torn; while one is, the mark restarts for ever and nothing is reclaimed. */
  lemma CompletesIffNoTornRoot(cfg: Config, w: World, schedule: Schedule)
    requires WellFormed(w.disk) && Fair(cfg, w, schedule)
    requires forall i: nat :: schedule(i).now == w.now
    ensures (exists n: nat :: !HasMore(cfg, w, schedule, n)) <==> (forall ref :: !Torn(cfg, w, ref))
    ensures (exists ref :: Torn(cfg, w, ref)) ==> forall n: nat :: Run(cfg, w, schedule, n).disk == w.disk
  {
    assert w.(now := w.now) == w;
    if ref :| Torn(cfg, w, ref) {
      forall n: nat ensures HasMore(cfg, w, schedule, n) && Run(cfg, w, schedule, n).disk == w.disk {
        TornKeepsRestarting(cfg, w, schedule, ref, n);
      }
    } else {
      var j, n := Completes(cfg, w, schedule, 0);
    }
  }

  /** With the clock fixed, the first completed collection has deleted exactly the
      manifests the rule drops and the enumerated blobs no kept manifest names and
      no grace protects. */
  lemma FixedClockIsExact(cfg: Config, w: World, schedule: Schedule, n: nat)
    requires WellFormed(w.disk) && Fair(cfg, w, schedule)
    requires forall i: nat :: schedule(i).now == w.now
    requires !HasMore(cfg, w, schedule, n) && forall k :: 0 <= k < n ==> HasMore(cfg, w, schedule, k)
    ensures var disk := Run(cfg, w, schedule, n + 1).disk;
            && disk.manifests == (map ref | ref in w.disk.manifests && Kept(cfg, w, ref) :: w.disk.manifests[ref])
            && disk.blobs.Keys == (set file | file in w.disk.blobs && BlobKept(cfg, w, file))
  {
    hide Run;
    var j, first := FirstCompletion(cfg, w, schedule, n);
    assert first == n;
    assert WorldAt(w, schedule, j) == w && w.(now := w.now) == w;
    assert Collected(cfg, w, w.now, Run(cfg, w, schedule, n + 1).disk);
  }

  /** An aged blob that no manifest names is gone after a completed collection. */
  lemma UnnamedIsReclaimed(cfg: Config, w: World, schedule: Schedule, n: nat, file: BlobFile)
    requires WellFormed(w.disk) && Fair(cfg, w, schedule)
    requires forall i: nat :: schedule(i).now == w.now
    requires !HasMore(cfg, w, schedule, n) && forall k :: 0 <= k < n ==> HasMore(cfg, w, schedule, k)
    requires Enumerable(w.disk, file) && !Recent(cfg, w.disk.blobs, w.now, file)
    requires forall ref :: ref in w.disk.manifests ==> file.hash !in Blobs(ref)
    ensures file !in Run(cfg, w, schedule, n + 1).disk.blobs
  {
    FixedClockIsExact(cfg, w, schedule, n);
    assert !BlobKept(cfg, w, file);
    assert file !in Run(cfg, w, schedule, n + 1).disk.blobs.Keys;
  }

  // ---- what a torn root is ----

  /** The Map of terminal roots keeps the last entry of each ref. */
  lemma {:induction false} AgeByRefIsLast(entries: seq<Entry>, ref: Ref)
    ensures ref in AgeByRef(entries) <==> exists e :: e in entries && e.ref == ref
    ensures ref in AgeByRef(entries) ==>
              exists i :: 0 <= i < |entries| && entries[i].ref == ref && AgeByRef(entries)[ref] == entries[i].ageAtMs
                          && forall j :: i < j < |entries| ==> entries[j].ref != ref
  {
    if entries != [] {
      var n := |entries| - 1;
      AgeByRefIsLast(entries[..n], ref);
      assert entries[..n] + [entries[n]] == entries;
      if entries[n].ref != ref && ref in AgeByRef(entries) {
        var i :| 0 <= i < n && entries[..n][i].ref == ref && AgeByRef(entries[..n])[ref] == entries[..n][i].ageAtMs
                 && forall j :: i < j < n ==> entries[..n][j].ref != ref;
        assert entries[i].ref == ref && forall j :: i < j < |entries| ==> j < n ==> entries[..n][j].ref != ref;
      }
    }
  }

  /** Two terminal entries of one ref, a young one and after it an old one. */
  ghost predicate YoungThenOld(cfg: Config, now: int, entries: seq<Entry>, ref: Ref) {
    exists i, j :: 0 <= i < j < |entries| && entries[i].ref == ref && entries[j].ref == ref
      && WithinTtl(cfg, now, entries[i].ageAtMs) && !WithinTtl(cfg, now, entries[j].ageAtMs)
      && forall k :: j < k < |entries| ==> entries[k].ref != ref
  }

  /** When a root is torn, in terms of the rows alone: its ref is a terminal root
      twice, the last occurrence is past retention while an earlier one is not,
      and neither a strong pin, the tail nor the orphan grace saves it. */
  lemma TornMeansYoungThenOld(cfg: Config, w: World, ref: Ref)
    ensures Torn(cfg, w, ref) <==>
              && ref in w.disk.manifests
              && YoungThenOld(cfg, w.now, Terminal(w), ref)
              && ref !in StrongRoots(w) && ref !in Tail(cfg, w)
              && w.now - w.disk.manifests[ref] >= cfg.orphanGraceMs
  {
    hide Tail, StrongRoots, TerminalRoots;
    var entries := Terminal(w);
    AgeByRefIsLast(entries, ref);
    if Torn(cfg, w, ref) {
      var e :| e in entries && e.ref == ref && WithinTtl(cfg, w.now, e.ageAtMs);
      var i :| 0 <= i < |entries| && entries[i] == e;
      var j :| 0 <= j < |entries| && entries[j].ref == ref && AgeByRef(entries)[ref] == entries[j].ageAtMs
               && forall k :: j < k < |entries| ==> entries[k].ref != ref;
      assert i < j;
    }
    if YoungThenOld(cfg, w.now, entries, ref) {
      var i, j :| 0 <= i < j < |entries| && entries[i].ref == ref && entries[j].ref == ref
        && WithinTtl(cfg, w.now, entries[i].ageAtMs) && !WithinTtl(cfg, w.now, entries[j].ageAtMs)
        && forall k :: j < k < |entries| ==> entries[k].ref != ref;
      assert entries[i] in entries && entries[j] in entries;
      var last :| 0 <= last < |entries| && entries[last].ref == ref && AgeByRef(entries)[ref] == entries[last].ageAtMs
               && forall k :: last < k < |entries| ==> entries[k].ref != ref;
      assert last == j;
    }
  }

  /** One snapshot submitted by two finished sessions, the first of which finished
      recently, the other long ago. */
  function TwoSessions(now: int): World {
    World(Disk(map[Ref([]) := 0], map[], {}), {},
          [DbRow(Ref([]), true, TerminalTime.At(95)), DbRow(Ref([]), true, TerminalTime.At(0))], now)
  }

  /** With a retention of 10 its root is torn from the time the old session is past
      retention until the young one is. */
  lemma TwoSessionsAreTorn(now: int)
    ensures Torn(Config(10, 0, 0), TwoSessions(now), Ref([])) <==> 10 <= now < 105
  {
    var w, cfg, ref := TwoSessions(now), Config(10, 0, 0), Ref([]);
    var young, aged := Entry(ref, 95, true), Entry(ref, 0, true);
    assert TerminalRoots(w.rows[1..][1..], w.disk.manifests) == [];
    assert TerminalRoots(w.rows[1..], w.disk.manifests) == [aged];
    var entries := Terminal(w);
    assert entries == [young, aged];
    assert entries[0].ref == ref && entries[1].ref == ref;
    if 10 <= now < 105 { assert YoungThenOld(cfg, now, entries, ref); }
    TornMeansYoungThenOld(cfg, w, ref);
  }

  /** A livelock: a fair schedule of that store, at time 50, on which every slice has
      more to do and none deletes anything. */
  lemma LivelockExists() returns (schedule: Schedule)
    ensures Fair(Config(10, 0, 0), TwoSessions(50), schedule)
    ensures forall n: nat :: HasMore(Config(10, 0, 0), TwoSessions(50), schedule, n)
                             && Run(Config(10, 0, 0), TwoSessions(50), schedule, n).disk == TwoSessions(50).disk
  {
    hide Fair, Run, HasMore;
    var cfg, w := Config(10, 0, 0), TwoSessions(50);
    TwoSessionsAreTorn(50);
    schedule := FairExists(cfg, w, _ => 50);
    CompletesIffNoTornRoot(cfg, w, schedule);
  }
}
