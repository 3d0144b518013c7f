/** Runs in which a capture loses what it publishes, for every configuration. */
module SnapshotCaptureFaults {
  import opened SnapshotTypes
  import opened SnapshotGc
  import opened SnapshotGcExact
  import opened SnapshotCaptureGc
  import opened SnapshotCaptureGcExact
  import opened SnapshotGraceExact
  import C = SnapshotCapture
  import G = SnapshotGcSafety

  const EMPTY_STORE := World(Disk(map[], map[], {}), {}, [], 0)
  const BLOB := Hash(0, 0)

  lemma OneMore(cfg: Config, steps: seq<Step>, s: State, step: Step) returns (steps': seq<Step>, s': State)
    requires Legal(cfg, Start(EMPTY_STORE), steps) && After(cfg, Start(EMPTY_STORE), steps) == s && Enabled(s, step)
    ensures Legal(cfg, Start(EMPTY_STORE), steps') && After(cfg, Start(EMPTY_STORE), steps') == s'
    ensures s' == Apply(cfg, s, step) && steps' == steps + [step]
  {
    Extended(cfg, Start(EMPTY_STORE), steps, step);
    steps', s' := steps + [step], Apply(cfg, s, step);
  }

  lemma NoSteps(cfg: Config, s: State)
    ensures Legal(cfg, s, []) && After(cfg, s, []) == s
  {}

  lemma StartWalk(cfg: Config, steps: seq<Step>, s: State, id: CaptureId) returns (steps': seq<Step>, s': State)
    requires Legal(cfg, Start(EMPTY_STORE), steps) && After(cfg, Start(EMPTY_STORE), steps) == s
    requires C.Enabled(s.store, C.Begin(id))
    ensures Legal(cfg, Start(EMPTY_STORE), steps') && After(cfg, Start(EMPTY_STORE), steps') == s'
    ensures s'.world == s.world && s'.gc == s.gc && s'.stagedAt == s.stagedAt[id := map[]]
    ensures s'.store.staging == s.store.staging[id := {}] && s'.store.temps == s.store.temps
    ensures s'.store.journals.Keys == s.store.journals.Keys + {id}
    ensures s'.store.active == s.store.active[id := C.Capture(C.Walking, [], [], 0)]
  {
    hide Legal, After;
    steps', s' := OneMore(cfg, steps, s, Own(C.Begin(id)));
    steps', s' := OneMore(cfg, steps', s', Own(C.MakeStaging(id)));
    steps', s' := OneMore(cfg, steps', s', Own(C.JournalWalk(id)));
  }

  /** A capture of one file, up to its walk. */
  lemma Walk(cfg: Config, steps: seq<Step>, s: State, id: CaptureId) returns (steps': seq<Step>, s': State)
    requires Legal(cfg, Start(EMPTY_STORE), steps) && After(cfg, Start(EMPTY_STORE), steps) == s
    requires C.Enabled(s.store, C.Begin(id))
    ensures Legal(cfg, Start(EMPTY_STORE), steps') && After(cfg, Start(EMPTY_STORE), steps') == s'
    ensures s'.world == s.world && s'.gc == s.gc
    ensures s'.store.staging == s.store.staging[id := {BLOB}] && s'.store.temps == s.store.temps
    ensures s'.store.journals.Keys == s.store.journals.Keys + {id}
    ensures s'.store.active == s.store.active[id := C.Capture(C.Walking, [File("f", BLOB)], [BLOB], 0)]
    ensures StagedTime(s', id, BLOB) == s.world.now
    ensures forall other :: other != id ==> StagedTime(s', other, BLOB) == StagedTime(s, other, BLOB)
  {
    hide Legal, After;
    steps', s' := StartWalk(cfg, steps, s, id);
    assert {} + {BLOB} == {BLOB};
    steps', s' := OneMore(cfg, steps', s', Own(C.StageFile(id, "f", BLOB)));
    assert [] + [File("f", BLOB)] == [File("f", BLOB)] && [] + [BLOB] == [BLOB];
    assert s'.store.staging[id] == {BLOB};
    assert s'.store.staging == s.store.staging[id := {BLOB}];
  }

  /** The walk ends and the blob is published. */
  lemma Publish(cfg: Config, steps: seq<Step>, s: State, id: CaptureId) returns (steps': seq<Step>, s': State)
    requires Legal(cfg, Start(EMPTY_STORE), steps) && After(cfg, Start(EMPTY_STORE), steps) == s
    requires id in s.store.staging && s.store.staging[id] == {BLOB}
    requires id in s.store.active && s.store.active[id] == C.Capture(C.Walking, [File("f", BLOB)], [BLOB], 0)
    ensures Legal(cfg, Start(EMPTY_STORE), steps') && After(cfg, Start(EMPTY_STORE), steps') == s'
    ensures s'.gc == s.gc && s'.stagedAt == s.stagedAt
    ensures s'.world == s.world.(disk := s'.world.disk) && s'.world.disk.manifests == s.world.disk.manifests
    ensures s'.world.disk.blobs == s.world.disk.blobs[Sharded(BLOB) := StagedTime(s, id, BLOB)]
    ensures BLOB.shard in s'.world.disk.shards
    ensures s'.store.active == s.store.active[id := C.Capture(C.Publishing, [File("f", BLOB)], [BLOB], 1)]
    ensures forall other :: other != id ==>
              other in s.store.staging ==>
                other in s'.store.staging && s'.store.staging[other] == s.store.staging[other]
  {
    hide Legal, After;
    steps', s' := OneMore(cfg, steps, s, Own(C.FinishWalk(id, [File("f", BLOB)])));
    steps', s' := OneMore(cfg, steps', s', Own(C.PublishBlob(id)));
  }

  lemma AloneInStore(cfg: Config, s: State, id: CaptureId)
    requires s.world.baselines == {} && s.world.rows == [] && s.world.disk.manifests == map[]
    requires s.world.disk.blobs.Keys == {Sharded(BLOB)} && s.world.disk.shards != {}
    requires id in s.store.active && s.store.active[id] == C.Capture(C.Publishing, [File("f", BLOB)], [BLOB], 1)
    ensures AtRisk(s, id, BLOB) && NoTornRoot(cfg, s.world) && !Reachable(cfg, s.world, BLOB)
    ensures Doomed(cfg, s.world, BLOB) <==> !WithinGrace(cfg, s.world, Sharded(BLOB))
  {
    assert [BLOB][..1] == [BLOB];
  }

  /** The whole run, with the collection and the rest of the capture. */
  lemma BrokenRun(cfg: Config, run: seq<Step>, s: State, schedule: Schedule, n: nat, steps: seq<Step>)
      returns (whole: seq<Step>)
    requires Legal(cfg, Start(EMPTY_STORE), run) && s == After(cfg, Start(EMPTY_STORE), run)
    requires Breaks(cfg, s, 0, BLOB, schedule, n, steps)
    ensures whole == run + (Slices(schedule, n + 1) + steps)
    ensures Legal(cfg, Start(EMPTY_STORE), whole) && Incomplete(After(cfg, Start(EMPTY_STORE), whole), 0, BLOB)
  {
    hide Legal, After, Incomplete, Collection, Slices;
    Joined(cfg, s, Slices(schedule, n + 1), steps);
    Joined(cfg, Start(EMPTY_STORE), run, Slices(schedule, n + 1) + steps);
    whole := run + (Slices(schedule, n + 1) + steps);
  }

  /** No grace is long enough: for every configuration there is a run in which a
      capture whose walk takes that long is broken by a collection that comes between
      its blobs and its manifest. */
  lemma EveryGraceCanBeOutlasted(cfg: Config) returns (run: seq<Step>)
    ensures Legal(cfg, Start(EMPTY_STORE), run) && Incomplete(After(cfg, Start(EMPTY_STORE), run), 0, BLOB)
  {
    hide Legal, After, Breaks, AtRisk, NoTornRoot, Doomed, Incomplete;
    var s := Start(EMPTY_STORE);
    NoSteps(cfg, s);
    run, s := Walk(cfg, [], s, 0);
    run, s := OneMore(cfg, run, s, Wait(if cfg.orphanGraceMs > 0 then cfg.orphanGraceMs else 0));
    run, s := Publish(cfg, run, s, 0);
    AloneInStore(cfg, s, 0);
    CollectionBreaksIff(cfg, EMPTY_STORE, run, 0, BLOB);
    var schedule: Schedule, n: nat, steps :| Breaks(cfg, s, 0, BLOB, schedule, n, steps);
    run := BrokenRun(cfg, run, s, schedule, n, steps);
  }

  /** Capture 1 has staged a content at time 0; capture 0 has staged and published the
      same content just now, when the grace has passed. */
  lemma TwoCaptures(cfg: Config) returns (run: seq<Step>, s: State)
    requires cfg.orphanGraceMs > 0
    ensures Legal(cfg, Start(EMPTY_STORE), run) && After(cfg, Start(EMPTY_STORE), run) == s
    ensures s.gc == IDLE && s.world.now == cfg.orphanGraceMs
    ensures s.world.baselines == {} && s.world.rows == [] && s.world.disk.manifests == map[]
    ensures s.world.disk.blobs == map[Sharded(BLOB) := cfg.orphanGraceMs] && BLOB.shard in s.world.disk.shards
    ensures 0 in s.store.active && s.store.active[0] == C.Capture(C.Publishing, [File("f", BLOB)], [BLOB], 1)
    ensures 1 in s.store.active && s.store.active[1] == C.Capture(C.Publishing, [File("f", BLOB)], [BLOB], 0)
    ensures 1 in s.store.staging && s.store.staging[1] == {BLOB}
    ensures StagedTime(s, 0, BLOB) == cfg.orphanGraceMs && StagedTime(s, 1, BLOB) == 0
  {
    hide Legal, After;
    s := Start(EMPTY_STORE);
    NoSteps(cfg, s);
    run, s := Walk(cfg, [], s, 1);
    run, s := OneMore(cfg, run, s, Own(C.FinishWalk(1, [File("f", BLOB)])));
    run, s := OneMore(cfg, run, s, Wait(cfg.orphanGraceMs));
    assert StagedTime(s, 1, BLOB) == 0;
    run, s := Walk(cfg, run, s, 0);
    run, s := Publish(cfg, run, s, 0);
  }

  /** Nor is a short capture safe when others are long. First capture 0 is within the
      grace and no collection can break it; then capture 1 publishes its old copy over
      the new one, a collection comes, and capture 0 ends in an incomplete manifest. */
  lemma AgedCopyBreaksCapture(cfg: Config) returns (first: seq<Step>, rest: seq<Step>)
    requires cfg.orphanGraceMs > 0
    ensures var run := first + [Own(C.PublishBlob(1))] + rest;
            && Legal(cfg, Start(EMPTY_STORE), first) && Legal(cfg, Start(EMPTY_STORE), run)
            && !Breakable(cfg, After(cfg, Start(EMPTY_STORE), first), 0, BLOB)
            && Incomplete(After(cfg, Start(EMPTY_STORE), run), 0, BLOB)
  {
    hide Legal, After, Breaks, AtRisk, NoTornRoot, Doomed, Apply, Reachable, Incomplete, Slices;
    var s, t, run;
    first, s := TwoCaptures(cfg);
    AloneInStore(cfg, s, 0);
    PublishingExposesIff(cfg, EMPTY_STORE, first, 1, 0, BLOB);
    run, t := OneMore(cfg, first, s, Own(C.PublishBlob(1)));
    var schedule: Schedule, n: nat, steps :| Breaks(cfg, t, 0, BLOB, schedule, n, steps);
    var whole := BrokenRun(cfg, run, t, schedule, n, steps);
    rest := Slices(schedule, n + 1) + steps;
  }

  // ---- published again, and removed ----

  const EMPTY_REF := Ref([])

  lemma WalkNothing(cfg: Config, steps: seq<Step>, s: State, id: CaptureId) returns (steps': seq<Step>, s': State)
    requires Legal(cfg, Start(EMPTY_STORE), steps) && After(cfg, Start(EMPTY_STORE), steps) == s
    requires C.Enabled(s.store, C.Begin(id))
    ensures Legal(cfg, Start(EMPTY_STORE), steps') && After(cfg, Start(EMPTY_STORE), steps') == s'
    ensures id in s'.store.active && s'.store.active[id] == C.Capture(C.Publishing, [], [], 0)
    ensures s'.gc == s.gc && s'.world == s.world && Untouched(s, s', id)
  {
    hide Legal, After;
    steps', s' := OneMore(cfg, steps, s, Own(C.Begin(id)));
    steps', s' := OneMore(cfg, steps', s', Own(C.MakeStaging(id)));
    steps', s' := OneMore(cfg, steps', s', Own(C.JournalWalk(id)));
    steps', s' := OneMore(cfg, steps', s', Own(C.FinishWalk(id, [])));
  }

  /** No file of another capture is made or removed. */
  ghost predicate Untouched(s: State, s': State, id: CaptureId) {
    forall other :: other != id && C.Enabled(s.store, C.Begin(other)) ==> C.Enabled(s'.store, C.Begin(other))
  }

  lemma StageNothing(cfg: Config, steps: seq<Step>, s: State, id: CaptureId) returns (steps': seq<Step>, s': State)
    requires Legal(cfg, Start(EMPTY_STORE), steps) && After(cfg, Start(EMPTY_STORE), steps) == s
    requires id in s.store.active && s.store.active[id] == C.Capture(C.Publishing, [], [], 0)
    ensures Legal(cfg, Start(EMPTY_STORE), steps') && After(cfg, Start(EMPTY_STORE), steps') == s'
    ensures id in s'.store.active && s'.store.active[id] == C.Capture(C.ManifestStaged, [], [], 0)
    ensures s'.gc == s.gc && s'.world == s.world && Untouched(s, s', id)
    ensures TempTime(s', id) == s.world.now
  {
    hide Legal, After;
    steps', s' := OneMore(cfg, steps, s, Own(C.AnnounceManifest(id)));
    steps', s' := OneMore(cfg, steps', s', Own(C.StageManifest(id)));
  }

  lemma LandNothing(cfg: Config, steps: seq<Step>, s: State, id: CaptureId) returns (steps': seq<Step>, s': State)
    requires Legal(cfg, Start(EMPTY_STORE), steps) && After(cfg, Start(EMPTY_STORE), steps) == s
    requires id in s.store.active && s.store.active[id] == C.Capture(C.ManifestStaged, [], [], 0)
    requires TempTime(s, id) == s.world.now
    ensures Legal(cfg, Start(EMPTY_STORE), steps') && After(cfg, Start(EMPTY_STORE), steps') == s'
    ensures C.In(s'.store, id, C.ManifestPublished) && s'.store.active[id].entries == []
    ensures s'.world == s.world.(disk := s.world.disk.(manifests := s.world.disk.manifests[EMPTY_REF := s.world.now]))
    ensures s'.gc == s.gc && Untouched(s, s', id)
  {
    hide Legal, After;
    steps', s' := OneMore(cfg, steps, s, Own(C.PublishManifest(id)));
  }

  /** A whole capture of an empty directory. */
  lemma CaptureNothing(cfg: Config, steps: seq<Step>, s: State, id: CaptureId) returns (steps': seq<Step>, s': State)
    requires Legal(cfg, Start(EMPTY_STORE), steps) && After(cfg, Start(EMPTY_STORE), steps) == s
    requires C.Enabled(s.store, C.Begin(id))
    ensures Legal(cfg, Start(EMPTY_STORE), steps') && After(cfg, Start(EMPTY_STORE), steps') == s'
    ensures C.In(s'.store, id, C.ManifestPublished) && s'.store.active[id].entries == []
    ensures s'.world == s.world.(disk := s.world.disk.(manifests := s.world.disk.manifests[EMPTY_REF := s.world.now]))
    ensures s'.gc == s.gc && Untouched(s, s', id)
  {
    hide Legal, After, C.Enabled;
    steps', s' := WalkNothing(cfg, steps, s, id);
    steps', s' := StageNothing(cfg, steps', s', id);
    steps', s' := LandNothing(cfg, steps', s', id);
  }

  lemma ListsExpired(cfg: Config, w: World, input: Input)
    requires w.baselines == {} && w.rows == []
    requires w.disk.manifests == map[EMPTY_REF := 0] && w.now >= cfg.orphanGraceMs
    requires input.manifestListing == [EMPTY_REF] && input.pageSize == 2 && input.classifyTurns == 2
    ensures var gc := MarkPhase(cfg, IDLE, w, input);
            gc.stage == Expire && gc.expired == [EMPTY_REF] && gc.expireCursor == 0
  {
    var gc := Begin(cfg, w, [EMPTY_REF]);
    var one := ClassifyOne(cfg, gc, w);
    assert one.expired == [EMPTY_REF] && one.manifestDir == [];
    assert ClassifyLoop(cfg, one, w, 1, 1) == (one.(stage := Mark), 1);
    assert ClassifyLoop(cfg, gc, w, 2, 2) == ClassifyLoop(cfg, one, w, 1, 1);
  }

  /** A slice that classifies an aged manifest no root needs, and then has no time left. */
  lemma ListedOnly(cfg: Config, w: World) returns (input: Input)
    requires w.baselines == {} && w.rows == [] && w.disk.blobs == map[]
    requires w.disk.manifests == map[EMPTY_REF := 0] && w.now >= cfg.orphanGraceMs
    ensures SoundListings(IDLE, w.disk, input)
    ensures var out := Slice(cfg, IDLE, w, input);
            out.disk == w.disk && out.gc.stage == Expire && out.gc.expired == [EMPTY_REF] && out.gc.expireCursor == 0
  {
    hide MarkPhase, OneByOne, SoundListings, RootsAreCovered;
    input := OneByOne(w.disk).(manifestListing := [EMPTY_REF], pageSize := 2, classifyTurns := 2, expireTurns := 0);
    OtherListing(w.disk, input);
    ListsExpired(cfg, w, input);
    NoRootsAreCovered(cfg, MarkPhase(cfg, IDLE, w, input), w);
  }

  lemma OtherListing(disk: Disk, input: Input)
    requires disk.manifests.Keys == {EMPTY_REF} && input.manifestListing == [EMPTY_REF]
    requires input.flatListing == OneByOne(disk).flatListing && input.shardListing == OneByOne(disk).shardListing
    ensures SoundListings(IDLE, disk, input)
  {
    OneByOneIsSound(IDLE, disk);
  }

  /** The grace does not protect a manifest that is published again while the mark in
      progress has it on its expired list: the next slice removes it, although it has
      just landed and its capture has succeeded. */
  lemma RepublishedIsRemoved(cfg: Config) returns (run: seq<Step>, input: Input)
    requires cfg.orphanGraceMs > 0
    ensures Legal(cfg, Start(EMPTY_STORE), run)
    ensures var s := After(cfg, Start(EMPTY_STORE), run);
            && C.In(s.store, 1, C.ManifestPublished) && Ref(s.store.active[1].entries) == EMPTY_REF
            && EMPTY_REF in s.world.disk.manifests && s.world.disk.manifests[EMPTY_REF] == s.world.now
            && Enabled(s, RunSlice(input))
            && EMPTY_REF !in Apply(cfg, s, RunSlice(input)).world.disk.manifests
  {
    hide Legal, After, Slice, SoundListings, RootsAreCovered;
    var s := Start(EMPTY_STORE);
    NoSteps(cfg, s);
    run, s := CaptureNothing(cfg, [], s, 0);
    run, s := OneMore(cfg, run, s, Wait(cfg.orphanGraceMs));
    assert s.world.disk.manifests == map[EMPTY_REF := 0];
    input := ListedOnly(cfg, s.world);
    run, s := OneMore(cfg, run, s, RunSlice(input));
    run, s := CaptureNothing(cfg, run, s, 1);
    StateAfter(cfg, EMPTY_STORE, run);
    NoRootsAreCovered(cfg, s.gc, s.world);
    ListedIsTakenIff(cfg, s.world, s.gc, EMPTY_REF);
    input :| SoundListings(s.gc, s.world.disk, input) && EMPTY_REF !in Slice(cfg, s.gc, s.world, input).disk.manifests;
  }

  lemma NoRootsAreCovered(cfg: Config, gc: GcState, w: World)
    requires w.baselines == {} && w.rows == []
    ensures RootsAreCovered(cfg, gc, w)
  {}
}
