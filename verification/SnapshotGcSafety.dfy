/** Pin safety of the collector over whole runs: nothing a protected root needs
    is ever deleted, whatever else happens between slices. */
module SnapshotGcSafety {
  import opened SnapshotTypes
  import opened TerminalTail
  import opened SnapshotGc

  /** A root the store promises to keep: strong, within its retention, or in the
      newest terminal tail. */
  ghost predicate Protected(cfg: Config, w: World, ref: Ref) {
    || ref in StrongRoots(w)
    || exists e :: e in Terminal(w) && e.ref == ref && (WithinTtl(cfg, w.now, e.ageAtMs) || e.ref in Tail(cfg, w))
  }

  /** The snapshot can be read back: its manifest and each of its blobs exist. */
  ghost predicate Intact(disk: Disk, ref: Ref) {
    ref in disk.manifests && forall hash :: hash in Blobs(ref) ==>
                               Sharded(hash) in disk.blobs || Flat(hash) in disk.blobs
  }

  // ---- one slice ----

  ghost predicate Marked(gc: GcState, count: nat) {
    count <= |gc.retained| && forall k :: 0 <= k < count ==> Blobs(gc.retained[k]) <= gc.marked
  }

  /** What the collector's memory means for the disk, at every slice boundary. */
  ghost predicate Inv(gc: GcState, manifests: map<Ref, int>) {
    && (gc.stage == Idle ==> gc == IDLE)
    && Distinct(gc.manifestDir)
    && (forall ref :: ref in gc.manifestDir ==> ref in manifests && ref !in gc.retained && ref !in gc.expired)
    && (forall ref :: ref in gc.retained ==> ref in manifests && ref !in gc.expired)
    && (gc.stage == Classify ==> gc.markCursor == 0)
    && Marked(gc, gc.markCursor)
    && (gc.stage in {Mark, Expire, Sweep} ==> gc.manifestDir == [])
    && (gc.stage in {Expire, Sweep} ==> gc.markCursor == |gc.retained|)
  }

  lemma {:induction false} ClassifyKeeps(cfg: Config, gc: GcState, w: World, turns: nat, room: nat)
    requires Inv(gc, w.disk.manifests)
    ensures Inv(ClassifyLoop(cfg, gc, w, turns, room).0, w.disk.manifests)
    decreases turns
  {
    if gc.stage == Classify && turns > 0 && room > 0 && gc.manifestDir != [] {
      ClassifyKeeps(cfg, ClassifyOne(cfg, gc, w), w, turns - 1, room - 1);
    }
  }

  lemma {:induction false} MarkKeeps(gc: GcState, w: World, turns: nat, room: nat)
    requires Inv(gc, w.disk.manifests)
    ensures Inv(MarkLoop(gc, w, turns, room), w.disk.manifests)
    decreases turns
  {
    if gc.stage == Mark && gc.markCursor < |gc.retained| && turns > 0 && room > 0 {
      assert gc.retained[gc.markCursor] in gc.retained;
      MarkKeeps(MarkOne(gc, w.disk.manifests), w, turns - 1, room - 1);
    }
  }

  lemma BeginKeeps(cfg: Config, w: World, listing: seq<Ref>)
    requires IsListing(listing, w.disk.manifests.Keys)
    ensures Inv(Begin(cfg, w, listing), w.disk.manifests)
  {}

  lemma DoneMarkingKeeps(gc: GcState, manifests: map<Ref, int>)
    requires Inv(gc, manifests) && gc.stage == Mark && gc.markCursor >= |gc.retained|
    ensures Inv(gc.(stage := Expire), manifests)
  {}

  lemma MarkPhaseKeeps(cfg: Config, gc: GcState, w: World, input: Input)
    requires Inv(gc, w.disk.manifests)
    requires gc.stage == Idle ==> IsListing(input.manifestListing, w.disk.manifests.Keys)
    ensures Inv(MarkPhase(cfg, gc, w, input), w.disk.manifests)
  {
    hide Inv, Begin, ClassifyLoop, MarkLoop;
    var begun := if gc.stage == Idle then Begin(cfg, w, input.manifestListing) else gc;
    if gc.stage == Idle { BeginKeeps(cfg, w, input.manifestListing); }
    ClassifyKeeps(cfg, begun, w, input.classifyTurns, input.pageSize);
    var (classified, room) := ClassifyLoop(cfg, begun, w, input.classifyTurns, input.pageSize);
    MarkKeeps(classified, w, input.markTurns, room);
    var marking := MarkLoop(classified, w, input.markTurns, room);
    if marking.stage == Mark && marking.markCursor >= |marking.retained| {
      DoneMarkingKeeps(marking, w.disk.manifests);
    }
  }

  /** The expire loop deletes only manifests on the expired list. */
  lemma {:induction false} ExpireDeletes(gc: GcState, disk: Disk, turns: nat, room: nat)
    ensures var (gc', disk') := ExpireLoop(gc, disk, turns, room);
            && gc' == gc.(expireCursor := gc'.expireCursor)
            && disk' == disk.(manifests := disk'.manifests)
            && disk'.manifests.Keys <= disk.manifests.Keys
            && (forall ref :: ref in disk'.manifests ==> disk'.manifests[ref] == disk.manifests[ref])
            && forall ref :: ref in disk.manifests && ref !in gc.expired ==> ref in disk'.manifests
    decreases turns
  {
    if gc.expireCursor < |gc.expired| && turns > 0 && room > 0 {
      ExpireDeletes(gc.(expireCursor := gc.expireCursor + 1),
                    disk.(manifests := disk.manifests - {gc.expired[gc.expireCursor]}), turns - 1, room - 1);
    }
  }

  /** The sweep loop deletes only blobs outside the mark. */
  lemma {:induction false} SweepDeletes(cfg: Config, gc: GcState, disk: Disk, now: int, turns: nat, room: nat)
    ensures var (gc', disk') := SweepLoop(cfg, gc, disk, now, turns, room);
            && gc' == gc.(pending := gc'.pending)
            && disk' == disk.(blobs := disk'.blobs)
            && disk'.blobs.Keys <= disk.blobs.Keys
            && (forall file :: file in disk'.blobs ==> disk'.blobs[file] == disk.blobs[file])
            && forall file :: file in disk.blobs && file.hash in gc.marked ==> file in disk'.blobs
    decreases turns
  {
    if gc.pending != [] && turns > 0 && room > 0 {
      var (gc', disk') := SweepOne(cfg, gc, disk, now);
      SweepDeletes(cfg, gc', disk', now, turns - 1, room - 1);
    }
  }

  lemma SweepPhaseKeepsMarked(cfg: Config, gc: GcState, w: World, disk: Disk, input: Input)
    ensures var out := SweepPhase(cfg, gc, w, disk, input);
            && out.disk == disk.(blobs := out.disk.blobs)
            && (out.hasMore ==> out.gc == gc.(cursor := out.gc.cursor, pending := out.gc.pending))
            && (!out.hasMore ==> out.gc == IDLE)
            && out.disk.blobs.Keys <= disk.blobs.Keys
            && forall file :: file in disk.blobs && file.hash in gc.marked ==> file in out.disk.blobs
  {
    var (cursor, files) := if gc.pending == [] then NextPage(gc.cursor, disk, input.pageSize, input)
      else (gc.cursor, gc.pending);
    SweepDeletes(cfg, gc.(cursor := cursor, pending := files), disk, w.now, input.sweepTurns, input.pageSize);
  }

  lemma SweepPhaseIsSafe(cfg: Config, gc: GcState, w: World, disk: Disk, input: Input)
    requires gc.stage == Sweep && Inv(gc, disk.manifests)
    ensures var out := SweepPhase(cfg, gc, w, disk, input);
            && Inv(out.gc, out.disk.manifests)
            && out.disk == disk.(blobs := out.disk.blobs)
            && forall file :: file in disk.blobs && file.hash in gc.marked ==> file in out.disk.blobs
  {
    SweepPhaseKeepsMarked(cfg, gc, w, disk, input);
  }

  lemma ExpireKeeps(gc: GcState, disk: Disk, turns: nat, room: nat)
    requires gc.stage == Expire && Inv(gc, disk.manifests)
    ensures var (gc', disk') := ExpireLoop(gc, disk, turns, room);
            && Inv(gc', disk'.manifests) && Inv(gc'.(stage := Sweep, pending := []), disk'.manifests)
            && gc' == gc.(expireCursor := gc'.expireCursor) && disk' == disk.(manifests := disk'.manifests)
  {
    ExpireDeletes(gc, disk, turns, room);
  }

  lemma SliceKeepsInv(cfg: Config, gc: GcState, w: World, input: Input)
    requires Inv(gc, w.disk.manifests)
    requires gc.stage == Idle ==> IsListing(input.manifestListing, w.disk.manifests.Keys)
    ensures var out := Slice(cfg, gc, w, input);
            Inv(out.gc, out.disk.manifests) && out.disk.shards == w.disk.shards
  {
    if gc.stage != Sweep { MarkPhaseKeeps(cfg, gc, w, input); }
    var gc1 := if gc.stage == Sweep then gc else MarkPhase(cfg, gc, w, input);
    assert Inv(IDLE, w.disk.manifests);
    hide MarkPhase, RootsAreCovered, ExpireLoop, SweepPhase, Inv;
    if gc1.stage == Sweep {
      SweepPhaseIsSafe(cfg, gc1, w, w.disk, input);
    } else if gc1.stage == Expire {
      ExpireKeeps(gc1, w.disk, input.expireTurns, input.pageSize);
      var (gc2, disk) := ExpireLoop(gc1, w.disk, input.expireTurns, input.pageSize);
      SweepPhaseIsSafe(cfg, gc2.(stage := Sweep, pending := []), w, disk, input);
    }
  }

  lemma ProtectedIsRetained(cfg: Config, gc: GcState, w: World, ref: Ref)
    requires RootsAreCovered(cfg, gc, w) && Protected(cfg, w, ref) && ref in w.disk.manifests
    ensures ref in gc.retained
  {
    assert Covers(gc, w.disk.manifests, ref);
  }

  lemma RetainedIsMarked(gc: GcState, manifests: map<Ref, int>, ref: Ref)
    requires gc.stage in {Expire, Sweep} && Inv(gc, manifests) && ref in gc.retained
    ensures ref in manifests && ref !in gc.expired && Blobs(ref) <= gc.marked
  {
    var k :| 0 <= k < |gc.retained| && gc.retained[k] == ref;
    assert Blobs(gc.retained[k]) <= gc.marked;
  }

  /** What a slice does to a marked ref once its roots are checked. */
  lemma MarkedIsKept(cfg: Config, gc: GcState, w: World, input: Input, ref: Ref)
    requires ref in w.disk.manifests && ref !in gc.expired && Blobs(ref) <= gc.marked
    ensures var (gc2, disk) := ExpireLoop(gc, w.disk, input.expireTurns, input.pageSize);
            && ref in disk.manifests && disk.blobs == w.disk.blobs
            && var out := SweepPhase(cfg, gc2.(stage := Sweep, pending := []), w, disk, input);
               && ref in out.disk.manifests
               && forall file :: file in w.disk.blobs && file.hash in Blobs(ref) ==> file in out.disk.blobs
    ensures var out := SweepPhase(cfg, gc, w, w.disk, input);
            && ref in out.disk.manifests
            && forall file :: file in w.disk.blobs && file.hash in Blobs(ref) ==> file in out.disk.blobs
  {
    ExpireDeletes(gc, w.disk, input.expireTurns, input.pageSize);
    var (gc2, disk) := ExpireLoop(gc, w.disk, input.expireTurns, input.pageSize);
    SweepPhaseKeepsMarked(cfg, gc2.(stage := Sweep, pending := []), w, disk, input);
    SweepPhaseKeepsMarked(cfg, gc, w, w.disk, input);
  }

  /** One slice keeps the invariant and everything a root protected at its check
      needs, as far as the mark knows the root. */
  lemma SliceIsSafe(cfg: Config, gc: GcState, w: World, input: Input, ref: Ref)
    requires Inv(gc, w.disk.manifests)
    requires gc.stage == Idle ==> IsListing(input.manifestListing, w.disk.manifests.Keys)
    ensures var out := Slice(cfg, gc, w, input);
            && Inv(out.gc, out.disk.manifests)
            && out.disk.shards == w.disk.shards
            && (Protected(cfg, w, ref) && ref in w.disk.manifests ==>
                  && ref in out.disk.manifests
                  && forall file :: file in w.disk.blobs && file.hash in Blobs(ref) ==> file in out.disk.blobs)
  {
    hide MarkPhase, RootsAreCovered, ExpireLoop, SweepPhase, Inv, Protected;
    SliceKeepsInv(cfg, gc, w, input);
    if gc.stage != Sweep { MarkPhaseKeeps(cfg, gc, w, input); }
    var gc1 := if gc.stage == Sweep then gc else MarkPhase(cfg, gc, w, input);
    if gc1.stage in {Expire, Sweep} && RootsAreCovered(cfg, gc1, w)
       && Protected(cfg, w, ref) && ref in w.disk.manifests {
      ProtectedIsRetained(cfg, gc1, w, ref);
      RetainedIsMarked(gc1, w.disk.manifests, ref);
      MarkedIsKept(cfg, gc1, w, input, ref);
    }
  }

  /** A slice removes no blob file that is within the grace, marked or not. */
  lemma SliceSparesRecent(cfg: Config, gc: GcState, w: World, input: Input, file: BlobFile)
    requires file in w.disk.blobs && Recent(cfg, w.disk.blobs, w.now, file)
    ensures var out := Slice(cfg, gc, w, input); file in out.disk.blobs && out.disk.blobs[file] == w.disk.blobs[file]
  {
    var gc1 := if gc.stage == Sweep then gc else MarkPhase(cfg, gc, w, input);
    ExpireDeletes(gc1, w.disk, input.expireTurns, input.pageSize);
    var (gc2, disk) := ExpireLoop(gc1, w.disk, input.expireTurns, input.pageSize);
    SweepPhaseSparesRecent(cfg, gc1, w, w.disk, input, file);
    SweepPhaseSparesRecent(cfg, gc2.(stage := Sweep, pending := []), w, disk, input, file);
  }

  lemma SweepPhaseSparesRecent(cfg: Config, gc: GcState, w: World, disk: Disk, input: Input, file: BlobFile)
    requires file in disk.blobs && Recent(cfg, disk.blobs, w.now, file)
    ensures var out := SweepPhase(cfg, gc, w, disk, input);
            file in out.disk.blobs && out.disk.blobs[file] == disk.blobs[file]
  {
    var (cursor, files) :=
      if gc.pending == [] then NextPage(gc.cursor, disk, input.pageSize, input) else (gc.cursor, gc.pending);
    SweepSparesRecent(cfg, gc.(cursor := cursor, pending := files), disk, w.now, input.sweepTurns, input.pageSize,
                        file);
  }

  lemma {:induction false} SweepSparesRecent(cfg: Config, gc: GcState, disk: Disk, now: int, turns: nat, room: nat,
                                             file: BlobFile)
    requires file in disk.blobs && Recent(cfg, disk.blobs, now, file)
    ensures var disk' := SweepLoop(cfg, gc, disk, now, turns, room).1;
            file in disk'.blobs && disk'.blobs[file] == disk.blobs[file]
    decreases turns
  {
    if gc.pending != [] && turns > 0 && room > 0 {
      var (gc', disk') := SweepOne(cfg, gc, disk, now);
      SweepSparesRecent(cfg, gc', disk', now, turns - 1, room - 1, file);
    }
  }

  /** A slice creates nothing. */
  lemma SliceOnlyDeletes(cfg: Config, gc: GcState, w: World, input: Input)
    ensures var disk := Slice(cfg, gc, w, input).disk;
            && disk.manifests.Keys <= w.disk.manifests.Keys && disk.blobs.Keys <= w.disk.blobs.Keys
            && disk.shards == w.disk.shards
  {
    var gc1 := if gc.stage == Sweep then gc else MarkPhase(cfg, gc, w, input);
    ExpireDeletes(gc1, w.disk, input.expireTurns, input.pageSize);
    var (gc2, disk) := ExpireLoop(gc1, w.disk, input.expireTurns, input.pageSize);
    SweepPhaseKeepsMarked(cfg, gc1, w, w.disk, input);
    SweepPhaseKeepsMarked(cfg, gc2.(stage := Sweep, pending := []), w, disk, input);
  }

  // ---- what the mark makes of one ref ----

  /** The one-shot retention rule on the roots and files of `w`. */
  predicate Kept(cfg: Config, w: World, ref: Ref) {
    Retains(cfg, Begin(cfg, w, []), w.disk.manifests, w.now, ref)
  }

  /** The mark in progress has retained the ref, or will when it comes to it. */
  predicate Retaining(cfg: Config, w: World, gc: GcState, ref: Ref) {
    || ref in gc.retained
    || (gc.stage == Idle && Kept(cfg, w, ref))
    || (ref in gc.manifestDir && Retains(cfg, gc, w.disk.manifests, w.now, ref))
  }

  lemma {:induction false} ClassifyRetains(cfg: Config, gc: GcState, w: World, turns: nat, room: nat, ref: Ref)
    requires gc.stage != Idle && Retaining(cfg, w, gc, ref)
    ensures var gc' := ClassifyLoop(cfg, gc, w, turns, room).0; gc'.stage != Idle && Retaining(cfg, w, gc', ref)
    decreases turns
  {
    if gc.stage == Classify && turns > 0 && room > 0 && gc.manifestDir != [] {
      ClassifyRetains(cfg, ClassifyOne(cfg, gc, w), w, turns - 1, room - 1, ref);
    }
  }

  /** The mark loop changes nothing but the mark. */
  lemma {:induction false} MarkMarks(gc: GcState, w: World, turns: nat, room: nat)
    ensures var gc' := MarkLoop(gc, w, turns, room); gc' == gc.(markCursor := gc'.markCursor, marked := gc'.marked)
    decreases turns
  {
    if gc.stage == Mark && gc.markCursor < |gc.retained| && turns > 0 && room > 0 {
      MarkMarks(MarkOne(gc, w.disk.manifests), w, turns - 1, room - 1);
    }
  }

  lemma MarkPhaseRetains(cfg: Config, gc: GcState, w: World, input: Input, ref: Ref)
    requires Inv(gc, w.disk.manifests) && ref in w.disk.manifests && Retaining(cfg, w, gc, ref)
    requires gc.stage == Idle ==> IsListing(input.manifestListing, w.disk.manifests.Keys)
    ensures Retaining(cfg, w, MarkPhase(cfg, gc, w, input), ref)
  {
    var begun := if gc.stage == Idle then Begin(cfg, w, input.manifestListing) else gc;
    ClassifyRetains(cfg, begun, w, input.classifyTurns, input.pageSize, ref);
    var (classified, room) := ClassifyLoop(cfg, begun, w, input.classifyTurns, input.pageSize);
    MarkMarks(classified, w, input.markTurns, room);
  }

  lemma MarkEndsRetaining(cfg: Config, gc: GcState, w: World, ref: Ref)
    requires gc.stage in {Expire, Sweep} && Inv(gc, w.disk.manifests) && Retaining(cfg, w, gc, ref)
    ensures ref in gc.retained
  {}

  /** A slice keeps every file of a ref that its mark retains, root or not. */
  lemma SliceKeepsRetained(cfg: Config, gc: GcState, w: World, input: Input, ref: Ref)
    requires Inv(gc, w.disk.manifests) && ref in w.disk.manifests && Retaining(cfg, w, gc, ref)
    requires gc.stage == Idle ==> IsListing(input.manifestListing, w.disk.manifests.Keys)
    ensures var out := Slice(cfg, gc, w, input);
            && ref in out.disk.manifests
            && forall file :: file in w.disk.blobs && file.hash in Blobs(ref) ==> file in out.disk.blobs
  {
    hide MarkPhase, RootsAreCovered, ExpireLoop, SweepPhase, Inv, Retaining;
    if gc.stage != Sweep {
      MarkPhaseKeeps(cfg, gc, w, input);
      MarkPhaseRetains(cfg, gc, w, input, ref);
    }
    var gc1 := if gc.stage == Sweep then gc else MarkPhase(cfg, gc, w, input);
    if gc1.stage in {Expire, Sweep} {
      MarkEndsRetaining(cfg, gc1, w, ref);
      RetainedIsMarked(gc1, w.disk.manifests, ref);
      MarkedIsKept(cfg, gc1, w, input, ref);
    }
  }

  // ---- whole runs ----

  datatype Node = Node(world: World, gc: GcState)

  /** A slice; anything the rest of the system does (captures publishing files,
      baselines and database rows changing, time passing) short of deleting
      snapshot files; a process restart, which forgets the collector's memory. */
  datatype Event = RunSlice(input: Input) | Outside(world: World) | Restart

  ghost predicate Possible(node: Node, event: Event) {
    match event
    case RunSlice(input) => node.gc.stage == Idle ==> IsListing(input.manifestListing, node.world.disk.manifests.Keys)
    case Outside(world) =>
      && node.world.disk.manifests.Keys <= world.disk.manifests.Keys
      && node.world.disk.blobs.Keys <= world.disk.blobs.Keys
    case Restart => true
  }

  function Apply(cfg: Config, node: Node, event: Event): Node {
    match event
    case RunSlice(input) =>
      var out := Slice(cfg, node.gc, node.world, input);
      Node(node.world.(disk := out.disk), out.gc)
    case Outside(world) => Node(world, node.gc)
    case Restart => node.(gc := IDLE)
  }

  ghost predicate Legal(cfg: Config, node: Node, events: seq<Event>)
    decreases |events|
  {
    events != [] ==> Possible(node, events[0]) && Legal(cfg, Apply(cfg, node, events[0]), events[1..])
  }

  function After(cfg: Config, node: Node, events: seq<Event>): Node
    decreases |events|
  {
    if events == [] then node else After(cfg, Apply(cfg, node, events[0]), events[1..])
  }

  /** The ref is a protected root whenever a slice looks. */
  ghost predicate ProtectedAtSlices(cfg: Config, node: Node, events: seq<Event>, ref: Ref)
    decreases |events|
  {
    events != [] ==>
      && (events[0].RunSlice? ==> Protected(cfg, node.world, ref))
      && ProtectedAtSlices(cfg, Apply(cfg, node, events[0]), events[1..], ref)
  }

  lemma {:induction false} InvAlongRun(cfg: Config, node: Node, events: seq<Event>)
    requires Inv(node.gc, node.world.disk.manifests) && Legal(cfg, node, events)
    ensures var end := After(cfg, node, events); Inv(end.gc, end.world.disk.manifests)
    decreases |events|
  {
    if events != [] {
      if events[0].RunSlice? { SliceIsSafe(cfg, node.gc, node.world, events[0].input, Ref([])); }
      InvAlongRun(cfg, Apply(cfg, node, events[0]), events[1..]);
    }
  }

  lemma {:induction false} IntactAlongRun(cfg: Config, node: Node, events: seq<Event>, ref: Ref)
    requires Inv(node.gc, node.world.disk.manifests) && Legal(cfg, node, events)
    requires Intact(node.world.disk, ref) && ProtectedAtSlices(cfg, node, events, ref)
    ensures Intact(After(cfg, node, events).world.disk, ref)
    decreases |events|
  {
    if events != [] {
      if events[0].RunSlice? { SliceIsSafe(cfg, node.gc, node.world, events[0].input, ref); }
      IntactAlongRun(cfg, Apply(cfg, node, events[0]), events[1..], ref);
    }
  }

  /** Pin safety. A store is started on any disk; after any history a snapshot is
      intact, and from then on it is a protected root at each slice: then it is
      intact at the end, whatever slices, root changes, restarts of the mark or
      of the process, captures and clock movements came in between. */
  lemma PinSafety(cfg: Config, start: World, history: seq<Event>, events: seq<Event>, ref: Ref)
    requires Legal(cfg, Node(start, IDLE), history)
    requires var node := After(cfg, Node(start, IDLE), history);
             && Legal(cfg, node, events)
             && Intact(node.world.disk, ref)
             && ProtectedAtSlices(cfg, node, events, ref)
    ensures Intact(After(cfg, After(cfg, Node(start, IDLE), history), events).world.disk, ref)
  {
    InvAlongRun(cfg, Node(start, IDLE), history);
    IntactAlongRun(cfg, After(cfg, Node(start, IDLE), history), events, ref);
  }
}
