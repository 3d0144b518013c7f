/** What one slice can take from a store, whatever the mark in progress has seen: how
    long the grace has to protect a snapshot that is not a root yet. */
module SnapshotGraceExact {
  import opened SnapshotTypes
  import opened SnapshotGc
  import opened SnapshotGcExact
  import opened SnapshotCaptureGc
  import G = SnapshotGcSafety

  /** A collector with this memory on this store, after some history. */
  ghost predicate Reached(cfg: Config, w: World, gc: GcState, start: World, history: seq<G.Event>) {
    G.Legal(cfg, G.Node(start, IDLE), history) && G.After(cfg, G.Node(start, IDLE), history) == G.Node(w, gc)
  }

  /** One slice, then anything else that ends in `w`. */
  lemma ReachedAfterSlice(cfg: Config, w: World, start: World, input: Input)
    requires IsListing(input.manifestListing, start.disk.manifests.Keys)
    requires start.disk.manifests.Keys <= w.disk.manifests.Keys && start.disk.blobs.Keys <= w.disk.blobs.Keys
    ensures Reached(cfg, w, Slice(cfg, IDLE, start, input).gc, start, [G.RunSlice(input), G.Outside(w)])
  {
    hide Slice;
    var out := Slice(cfg, IDLE, start, input);
    G.SliceOnlyDeletes(cfg, IDLE, start, input);
    var history := [G.RunSlice(input), G.Outside(w)];
    assert history[1..] == [G.Outside(w)] && history[1..][1..] == [];
    var between := G.Node(start.(disk := out.disk), out.gc);
    assert G.Apply(cfg, G.Node(start, IDLE), history[0]) == between;
    assert G.Possible(between, G.Outside(w));
    assert G.Apply(cfg, between, G.Outside(w)) == G.Node(w, out.gc);
    assert G.Legal(cfg, between, history[1..]);
    assert G.After(cfg, between, history[1..]) == G.Node(w, out.gc);
  }

  /** Refs that are strong roots are retained as they come. */
  lemma {:induction false} ClassifyStrong(cfg: Config, gc: GcState, w: World, first: seq<Ref>, rest: seq<Ref>,
                                          turns: nat, room: nat)
    requires gc.stage == Classify && gc.manifestDir == first + rest
    requires forall ref :: ref in first ==> ref in gc.strongRoots
    ensures ClassifyLoop(cfg, gc, w, |first| + turns, |first| + room)
         == ClassifyLoop(cfg, gc.(manifestDir := rest, retained := gc.retained + first), w, turns, room)
    decreases |first|
  {
    if first == [] {
      assert first + rest == rest && gc.retained + first == gc.retained;
    } else {
      var gc' := ClassifyOne(cfg, gc, w);
      assert gc.manifestDir[1..] == first[1..] + rest;
      assert gc.retained + [first[0]] + first[1..] == gc.retained + first;
      ClassifyStrong(cfg, gc', w, first[1..], rest, turns, room);
    }
  }

  lemma {:induction false} MarkLoopEnds(gc: GcState, w: World, turns: nat, room: nat, hash: Hash)
    requires gc.stage == Mark && gc.markCursor <= |gc.retained|
    requires turns >= |gc.retained| - gc.markCursor && room >= |gc.retained| - gc.markCursor
    ensures var gc' := MarkLoop(gc, w, turns, room);
            && gc' == gc.(markCursor := |gc.retained|, marked := gc'.marked)
            && (hash in gc'.marked ==> hash in gc.marked || exists ref :: ref in gc.retained && hash in Blobs(ref))
    decreases turns
  {
    if gc.markCursor < |gc.retained| { MarkLoopEnds(MarkOne(gc, w.disk.manifests), w, turns - 1, room - 1, hash); }
  }

  // ---- blob files ----

  ghost function ProtectedRefs(cfg: Config, w: World): set<Ref> {
    set ref | ref in w.disk.manifests && G.Protected(cfg, w, ref)
  }

  /** Only the manifests of protected roots and one file. */
  ghost function SmallStore(cfg: Config, w: World, file: BlobFile): World {
    var roots := ProtectedRefs(cfg, w);
    World(Disk(map ref | ref in roots :: w.disk.manifests[ref], map[file := w.now],
               if file.Sharded? then {file.hash.shard} else {}), roots, [], w.now)
  }

  /** Enough time to classify and mark everything and list the file, none to sweep. */
  ghost function ListingInput(cfg: Config, w: World, file: BlobFile): Input {
    var names := Listed(ProtectedRefs(cfg, w));
    Input(2 * |names| + 256, |names| + 1, |names|, 0, 0, names, if file.Flat? then [file.hash] else [],
          (shard: Shard) => if file.Sharded? && shard == file.hash.shard then [file.hash] else [])
  }

  lemma {:induction false} NoShards(shards: set<Shard>, from: Probe, to: Probe)
    requires from <= to && forall shard: Shard :: from <= shard < to ==> shard !in shards
    ensures ShardsIn(shards, from, to) == []
    decreases 256 - from
  {
    if from < to { NoShards(shards, from + 1, to); }
  }

  lemma OneShard(shard: Shard)
    ensures ShardsIn({shard}, 0, 256) == [shard]
  {
    ShardsInSplit({shard}, 0, shard, 256);
    ShardsInSplit({shard}, shard, shard + 1, 256);
    NoShards({shard}, 0, shard);
    NoShards({shard}, shard + 1, 256);
    assert ShardsIn({shard}, shard, shard + 1) == [shard];
  }

  lemma OneShardRead(shard: Shard, hash: Hash, limit: nat, input: Input)
    requires limit > 1 && input.shardListing(shard) == [hash]
    ensures ReadShards([shard], Closed, limit, input) == (Exhausted, [Sharded(hash)])
  {
    assert [shard][1..] == [] && [hash][1..] == [] && [Sharded(hash)] + [] == [Sharded(hash)];
    assert ReadShards([], Closed, limit - 1, input) == (Exhausted, []);
    assert ReadShards([shard], Open([]), limit - 1, input) == (Exhausted, []);
    assert ReadShards([shard], Open([hash]), limit, input) == (Exhausted, [Sharded(hash)]);
  }

  lemma OneFlatRead(hash: Hash, limit: nat)
    requires limit > 1
    ensures ReadFlat([hash], limit) == (Exhausted, [Flat(hash)])
  {
    assert [hash][1..] == [] && [Flat(hash)] + [] == [Flat(hash)];
    assert ReadFlat([], limit - 1) == (Exhausted, []);
  }

  lemma OneFilePage(cfg: Config, w: World, file: BlobFile)
    ensures var input := ListingInput(cfg, w, file);
            NextPage(Probing(0, []), SmallStore(cfg, w, file).disk, input.pageSize, input) == (Exhausted, [file])
  {
    hide ReadShards, ReadFlat, ShardsIn, ProtectedRefs;
    var input := ListingInput(cfg, w, file);
    if file.Sharded? {
      OneShard(file.hash.shard);
      OneShardRead(file.hash.shard, file.hash, input.pageSize, input);
      assert [] + [file.hash.shard] == [file.hash.shard];
    } else {
      NoShards({}, 0, 256);
      OneFlatRead(file.hash, input.pageSize);
      assert [] + ShardsIn({}, 0, 256) == [];
    }
  }

  lemma PinsMarked(cfg: Config, w: World, input: Input, hash: Hash)
    requires var names := input.manifestListing;
             && (forall ref :: ref in names ==> ref in StrongRoots(w) && hash !in Blobs(ref))
             && input.pageSize == |names| + (|names| + 256) && input.classifyTurns == |names| + 1
             && input.markTurns == |names|
    ensures var gc := MarkPhase(cfg, IDLE, w, input);
            && gc.stage == Expire && gc.retained == input.manifestListing && gc.expired == [] && gc.expireCursor == 0
            && gc.cursor == Probing(0, []) && hash !in gc.marked
  {
    hide MarkLoop, StrongRoots, Terminal, Tail, AgeByRef, ClassifyOne;
    var names := input.manifestListing;
    var begun := Begin(cfg, w, names);
    assert names + [] == names && [] + names == names;
    ClassifyStrong(cfg, begun, w, names, [], 1, |names| + 256);
    var marking := begun.(stage := Mark, manifestDir := [], retained := names);
    assert ClassifyLoop(cfg, begun.(manifestDir := [], retained := names), w, 1, |names| + 256)
        == (marking, |names| + 256);
    MarkLoopEnds(marking, w, |names|, |names| + 256, hash);
  }

  lemma RootsMarked(cfg: Config, w: World, file: BlobFile)
    requires !NamedByRoot(cfg, w, file.hash)
    ensures var gc := MarkPhase(cfg, IDLE, SmallStore(cfg, w, file), ListingInput(cfg, w, file));
            && gc.stage == Expire && gc.retained == Listed(ProtectedRefs(cfg, w)) && gc.expired == []
            && gc.expireCursor == 0 && gc.cursor == Probing(0, []) && file.hash !in gc.marked
  {
    hide MarkPhase, ProtectedRefs;
    NoneNamed(cfg, w, file.hash);
    PinsMarked(cfg, SmallStore(cfg, w, file), ListingInput(cfg, w, file), file.hash);
  }

  lemma NoneNamed(cfg: Config, w: World, hash: Hash)
    requires !NamedByRoot(cfg, w, hash)
    ensures forall ref :: ref in Listed(ProtectedRefs(cfg, w)) ==> hash !in Blobs(ref)
  {
    hide G.Protected;
  }

  lemma SmallStoreIsCovered(cfg: Config, w: World, file: BlobFile, gc: GcState)
    requires gc.retained == Listed(ProtectedRefs(cfg, w))
    ensures RootsAreCovered(cfg, gc, SmallStore(cfg, w, file))
  {
    hide ProtectedRefs;
  }

  lemma FileIsPending(cfg: Config, w: World, file: BlobFile)
    requires !NamedByRoot(cfg, w, file.hash)
    ensures var gc := Slice(cfg, IDLE, SmallStore(cfg, w, file), ListingInput(cfg, w, file)).gc;
            && gc.stage == Sweep && gc.pending == [file] && file.hash !in gc.marked
            && gc.retained == Listed(ProtectedRefs(cfg, w)) && gc.expired == []
  {
    var start, input := SmallStore(cfg, w, file), ListingInput(cfg, w, file);
    RootsMarked(cfg, w, file);
    var gc1 := MarkPhase(cfg, IDLE, start, input);
    SmallStoreIsCovered(cfg, w, file, gc1);
    OneFilePage(cfg, w, file);
    hide MarkPhase, RootsAreCovered, NextPage, ProtectedRefs, SmallStore;
    assert ExpireLoop(gc1, start.disk, 0, input.pageSize) == (gc1, start.disk);
  }

  lemma RootsCover(cfg: Config, w: World, gc: GcState)
    requires gc.retained == Listed(ProtectedRefs(cfg, w)) && gc.expired == []
    ensures RootsAreCovered(cfg, gc, w)
  {
    hide StrongRoots, Terminal, Tail, WithinTtl;
    forall ref ensures G.Protected(cfg, w, ref) ==> Covers(gc, w.disk.manifests, ref) {}
  }

  lemma PendingIsTaken(cfg: Config, w: World, gc: GcState, file: BlobFile, input: Input)
    requires gc.stage == Sweep && gc.pending == [file] && file.hash !in gc.marked && RootsAreCovered(cfg, gc, w)
    requires file in w.disk.blobs && !WithinGrace(cfg, w, file) && input.pageSize > 0 && input.sweepTurns > 0
    ensures file !in Slice(cfg, gc, w, input).disk.blobs
  {
    hide RootsAreCovered;
    var (gc', disk') := SweepOne(cfg, gc, w.disk, w.now);
    assert SweepLoop(cfg, gc, w.disk, w.now, input.sweepTurns, input.pageSize) == (gc', disk');
  }

  /** After this history, this slice removes the file. */
  ghost predicate TakesFile(cfg: Config, w: World, file: BlobFile, start: World, history: seq<G.Event>, gc: GcState,
                            input: Input) {
    && Reached(cfg, w, gc, start, history) && SoundListings(gc, w.disk, input)
    && file !in Slice(cfg, gc, w, input).disk.blobs
  }

  lemma ReachedIsInv(cfg: Config, w: World, gc: GcState, start: World, history: seq<G.Event>)
    requires Reached(cfg, w, gc, start, history)
    ensures G.Inv(gc, w.disk.manifests)
  {
    G.InvAlongRun(cfg, G.Node(start, IDLE), history);
  }

  /** A blob file, of a published blob or any other: after some history of the store a
      slice can remove it exactly when it is past the grace and no manifest of a
      protected root names it. */
  lemma FileIsTakenIff(cfg: Config, w: World, file: BlobFile)
    requires file in w.disk.blobs
    ensures (exists start, history, gc, input :: TakesFile(cfg, w, file, start, history, gc, input)) <==>
              !WithinGrace(cfg, w, file) && !NamedByRoot(cfg, w, file.hash)
  {
    hide Slice, Reached, NamedByRoot, G.Protected, G.Inv, RootsAreCovered, SmallStore, ListingInput, SoundListings;
    if !WithinGrace(cfg, w, file) && !NamedByRoot(cfg, w, file.hash) {
      var start, first, input := SmallStore(cfg, w, file), ListingInput(cfg, w, file), OneByOne(w.disk);
      FileIsPending(cfg, w, file);
      SmallStoreGrows(cfg, w, file);
      ReachedAfterSlice(cfg, w, start, first);
      var gc := Slice(cfg, IDLE, start, first).gc;
      RootsCover(cfg, w, gc);
      OneByOneIsSound(gc, w.disk);
      PendingIsTaken(cfg, w, gc, file, input);
      assert TakesFile(cfg, w, file, start, [G.RunSlice(first), G.Outside(w)], gc, input);
    } else {
      forall start, history, gc, input ensures !TakesFile(cfg, w, file, start, history, gc, input) {
        if Reached(cfg, w, gc, start, history) && SoundListings(gc, w.disk, input) {
          ReachedIsInv(cfg, w, gc, start, history);
          FileIsSpared(cfg, w, gc, input, file);
        }
      }
    }
  }

  lemma SmallStoreGrows(cfg: Config, w: World, file: BlobFile)
    requires file in w.disk.blobs
    ensures var start := SmallStore(cfg, w, file);
            && IsListing(ListingInput(cfg, w, file).manifestListing, start.disk.manifests.Keys)
            && start.disk.manifests.Keys <= w.disk.manifests.Keys && start.disk.blobs.Keys <= w.disk.blobs.Keys
  {
    assert SmallStore(cfg, w, file).disk.manifests.Keys == ProtectedRefs(cfg, w);
  }

  lemma FileIsSpared(cfg: Config, w: World, gc: GcState, input: Input, file: BlobFile)
    requires file in w.disk.blobs && (WithinGrace(cfg, w, file) || NamedByRoot(cfg, w, file.hash))
    requires G.Inv(gc, w.disk.manifests) && SoundListings(gc, w.disk, input)
    ensures file in Slice(cfg, gc, w, input).disk.blobs
  {
    hide Slice, G.Inv, G.Protected;
    if WithinGrace(cfg, w, file) {
      G.SliceSparesRecent(cfg, gc, w, input, file);
    } else {
      var ref :| ref in w.disk.manifests && G.Protected(cfg, w, ref) && file.hash in Blobs(ref);
      G.SliceIsSafe(cfg, gc, w, input, ref);
    }
  }

  // ---- manifests ----

  /** The same manifests, all but one of them pinned. */
  function AllButOnePinned(w: World, ref: Ref): World {
    World(Disk(w.disk.manifests, map[], {}), w.disk.manifests.Keys - {ref}, [], w.now)
  }

  /** The one that is not pinned comes last, and there is no time for it. */
  ghost function AllButOneInput(w: World, ref: Ref): Input {
    var names := Listed(w.disk.manifests.Keys - {ref});
    Input(|names|, |names|, 0, 0, 0, names + [ref], [], (shard: Shard) => [])
  }

  lemma AllButOneListed(w: World, ref: Ref)
    requires ref in w.disk.manifests
    ensures IsListing(AllButOneInput(w, ref).manifestListing, w.disk.manifests.Keys)
  {}

  lemma OneIsLeft(cfg: Config, w: World, ref: Ref)
    requires ref in w.disk.manifests && !Young(cfg, w, ref)
    ensures var out := Slice(cfg, IDLE, AllButOnePinned(w, ref), AllButOneInput(w, ref));
            && out.gc.stage == Classify && out.gc.manifestDir == [ref] && out.gc.expired == []
            && out.gc.retained == Listed(w.disk.manifests.Keys - {ref})
            && out.gc.markCursor == 0 && out.gc.expireCursor == 0
            && !Retains(cfg, out.gc, w.disk.manifests, w.now, ref)
  {
    var start, input := AllButOnePinned(w, ref), AllButOneInput(w, ref);
    var names := Listed(w.disk.manifests.Keys - {ref});
    var begun := Begin(cfg, start, names + [ref]);
    ClassifyStrong(cfg, begun, start, names, [ref], 0, 0);
    assert [] + names == names;
    var left := begun.(manifestDir := [ref], retained := names);
    assert ClassifyLoop(cfg, left, start, 0, 0) == (left, 0);
    assert MarkPhase(cfg, IDLE, start, input) == left;
  }

  lemma ClassifyingEnds(cfg: Config, w: World, gc: GcState, input: Input, ref: Ref)
    requires gc.stage == Classify && gc.manifestDir == [ref] && gc.expired == []
    requires gc.markCursor == 0 && gc.expireCursor == 0 && !Retains(cfg, gc, w.disk.manifests, w.now, ref)
    requires input.classifyTurns == 2 && input.markTurns == |gc.retained| && input.pageSize == |gc.retained| + 2
    ensures var gc1 := MarkPhase(cfg, gc, w, input);
            gc1.stage == Expire && gc1.expired == [ref] && gc1.expireCursor == 0 && gc1.retained == gc.retained
  {
    var n := |gc.retained|;
    var one := ClassifyOne(cfg, gc, w);
    assert one.expired == [ref];
    assert ClassifyLoop(cfg, one, w, 1, n + 1) == (one.(stage := Mark), n + 1);
    assert ClassifyLoop(cfg, gc, w, 2, n + 2) == ClassifyLoop(cfg, one, w, 1, n + 1);
    MarkLoopEnds(one.(stage := Mark), w, n, n + 1, Hash(0, 0));
  }

  /** The expire loop removes the manifests listed from its cursor on, as far as it
      gets, and no others. */
  lemma {:induction false} ExpireTakes(gc: GcState, disk: Disk, turns: nat, room: nat, ref: Ref)
    requires gc.expireCursor <= |gc.expired|
    ensures var left := gc.expired[gc.expireCursor..];
            var disk' := ExpireLoop(gc, disk, turns, room).1;
            && (ref in disk.manifests && ref !in left ==> ref in disk'.manifests)
            && (turns >= |left| && room >= |left| && (ref !in disk.manifests || ref in left) ==>
                  ref !in disk'.manifests)
    decreases turns
  {
    var k := gc.expireCursor;
    if turns > 0 && room > 0 && k < |gc.expired| {
      assert gc.expired[k..] == [gc.expired[k]] + gc.expired[k + 1..];
      ExpireTakes(gc.(expireCursor := k + 1), disk.(manifests := disk.manifests - {gc.expired[k]}), turns - 1, room - 1,
                  ref);
    }
  }

  lemma OthersCover(cfg: Config, w: World, gc: GcState, ref: Ref)
    requires !G.Protected(cfg, w, ref) && gc.retained == Listed(w.disk.manifests.Keys - {ref}) && gc.expired == [ref]
    ensures RootsAreCovered(cfg, gc, w)
  {
    hide StrongRoots, Terminal, Tail;
    forall r ensures G.Protected(cfg, w, r) ==> Covers(gc, w.disk.manifests, r) {}
  }

  lemma ExpiredIsTaken(cfg: Config, w: World, gc: GcState, input: Input, ref: Ref)
    requires gc.stage != Sweep && input.expireTurns > 0 && input.pageSize > 0
    requires var gc1 := MarkPhase(cfg, gc, w, input);
             && gc1.stage == Expire && gc1.expired == [ref] && gc1.expireCursor == 0 && RootsAreCovered(cfg, gc1, w)
    ensures ref !in Slice(cfg, gc, w, input).disk.manifests
  {
    hide MarkPhase, RootsAreCovered, SweepPhase;
    var gc1 := MarkPhase(cfg, gc, w, input);
    var (gc2, disk) := ExpireLoop(gc1, w.disk, input.expireTurns, input.pageSize);
    ExpireTakes(gc1, w.disk, input.expireTurns, input.pageSize, ref);
    G.SweepPhaseKeepsMarked(cfg, gc2.(stage := Sweep, pending := []), w, disk, input);
  }

  /** After this history, this slice removes the manifest, which was not listed before. */
  ghost predicate TakesManifest(cfg: Config, w: World, ref: Ref, start: World, history: seq<G.Event>, gc: GcState,
                                input: Input) {
    && Reached(cfg, w, gc, start, history) && SoundListings(gc, w.disk, input)
    && ref !in gc.expired && ref !in Slice(cfg, gc, w, input).disk.manifests
  }

  lemma AgedIsTaken(cfg: Config, w: World, ref: Ref)
      returns (start: World, history: seq<G.Event>, gc: GcState, input: Input)
    requires ref in w.disk.manifests && !G.Protected(cfg, w, ref) && !Young(cfg, w, ref)
    ensures TakesManifest(cfg, w, ref, start, history, gc, input)
  {
    hide Slice, Reached, G.Protected, RootsAreCovered, MarkPhase, SoundListings, AllButOneInput, Young, Retains;
    start := AllButOnePinned(w, ref);
    var first := AllButOneInput(w, ref);
    OneIsLeft(cfg, w, ref);
    AllButOneListed(w, ref);
    ReachedAfterSlice(cfg, w, start, first);
    gc, history := Slice(cfg, IDLE, start, first).gc, [G.RunSlice(first), G.Outside(w)];
    var n := |gc.retained|;
    input := OneByOne(w.disk).(pageSize := n + 2, classifyTurns := 2, markTurns := n);
    OtherBudget(w.disk, gc, input);
    ClassifyingEnds(cfg, w, gc, input, ref);
    OthersCover(cfg, w, MarkPhase(cfg, gc, w, input), ref);
    ExpiredIsTaken(cfg, w, gc, input, ref);
  }

  lemma OtherBudget(disk: Disk, gc: GcState, input: Input)
    requires input.manifestListing == OneByOne(disk).manifestListing
    requires input.flatListing == OneByOne(disk).flatListing && input.shardListing == OneByOne(disk).shardListing
    ensures SoundListings(gc, disk, input)
  {
    OneByOneIsSound(gc, disk);
  }

  /** A manifest that the mark has not listed as expired: after some history of the
      store a slice can remove it exactly when it is not a protected root and past the
      grace. Together with FileIsTakenIff, this is the grace a snapshot needs until it
      is a root. */
  lemma ManifestIsTakenIff(cfg: Config, w: World, ref: Ref)
    requires ref in w.disk.manifests
    ensures (exists start, history, gc, input :: TakesManifest(cfg, w, ref, start, history, gc, input)) <==>
              !G.Protected(cfg, w, ref) && !Young(cfg, w, ref)
  {
    hide Slice, Reached, G.Protected, Young, G.Inv, SoundListings;
    if !G.Protected(cfg, w, ref) && !Young(cfg, w, ref) {
      var start, history, gc, input := AgedIsTaken(cfg, w, ref);
    } else {
      forall start, history, gc, input ensures !TakesManifest(cfg, w, ref, start, history, gc, input) {
        if Reached(cfg, w, gc, start, history) && SoundListings(gc, w.disk, input) && ref !in gc.expired {
          ReachedIsInv(cfg, w, gc, start, history);
          ManifestIsSpared(cfg, w, gc, input, ref);
        }
      }
    }
  }

  lemma ManifestIsSpared(cfg: Config, w: World, gc: GcState, input: Input, ref: Ref)
    requires ref in w.disk.manifests && (G.Protected(cfg, w, ref) || Young(cfg, w, ref)) && ref !in gc.expired
    requires G.Inv(gc, w.disk.manifests) && SoundListings(gc, w.disk, input)
    ensures ref in Slice(cfg, gc, w, input).disk.manifests
  {
    hide Slice, G.Inv, G.Protected, Young;
    if G.Protected(cfg, w, ref) {
      G.SliceIsSafe(cfg, gc, w, input, ref);
    } else {
      SliceSparesYoung(cfg, gc, w, input, ref);
    }
  }

  /** A manifest that the mark has listed as expired, published again or not: a slice
      can remove it exactly when it is still ahead of the expire cursor and the roots
      are covered. Its grace plays no part. */
  lemma ListedIsTakenIff(cfg: Config, w: World, gc: GcState, ref: Ref)
    requires G.Inv(gc, w.disk.manifests) && gc.stage == Expire && gc.expireCursor <= |gc.expired|
    requires ref in w.disk.manifests
    ensures (exists input :: SoundListings(gc, w.disk, input) && ref !in Slice(cfg, gc, w, input).disk.manifests) <==>
              RootsAreCovered(cfg, gc, w) && ref in gc.expired[gc.expireCursor..]
  {
    hide RootsAreCovered, SweepPhase, ExpireLoop;
    forall input: Input ensures RootsAreCovered(cfg, gc, w) ==>
        (ref in ExpireLoop(gc, w.disk, input.expireTurns, input.pageSize).1.manifests <==>
         ref in Slice(cfg, gc, w, input).disk.manifests)
    {
      var (gc2, disk) := ExpireLoop(gc, w.disk, input.expireTurns, input.pageSize);
      G.SweepPhaseKeepsMarked(cfg, gc2.(stage := Sweep, pending := []), w, disk, input);
    }
    forall input: Input | ref !in gc.expired[gc.expireCursor..] ensures ref in Slice(cfg, gc, w, input).disk.manifests {
      ExpireTakes(gc, w.disk, input.expireTurns, input.pageSize, ref);
    }
    if RootsAreCovered(cfg, gc, w) && ref in gc.expired[gc.expireCursor..] {
      var input := OneByOne(w.disk).(pageSize := |gc.expired|, expireTurns := |gc.expired|);
      OneByOneIsSound(gc, w.disk);
      ExpireTakes(gc, w.disk, input.expireTurns, input.pageSize, ref);
      assert SoundListings(gc, w.disk, input);
    }
  }
}
