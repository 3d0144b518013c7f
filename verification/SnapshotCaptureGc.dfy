/** Captures, the collector and changing roots in one run
    (src/filesystem-snapshot-store.ts): what keeps a snapshot readable from the
    moment its blobs are published.

    A capture publishes its blobs first and its manifest last, and does not look
    again at blobs it published itself. A published file keeps the modification
    time of the staged file that was renamed onto it. A collection is the slices of
    SnapshotGc, each of them one step. */
module SnapshotCaptureGc {
  import opened SnapshotTypes
  import opened SnapshotGc
  import opened SnapshotGcSafety
  import opened SnapshotGcExact
  import C = SnapshotCapture

  type CaptureId = C.CaptureId

  /** The captures with their view of the store, the times of their staged files,
      the files and roots themselves, and the collector's memory. */
  datatype State = State(
    store: C.State, stagedAt: map<CaptureId, map<Hash, int>>, tempAt: map<CaptureId, int>, world: World, gc: GcState)

  datatype Step =
    | Own(step: C.Step)
    | Wait(until: int)
    | Roots(baselines: set<Ref>, rows: seq<DbRow>)
    | RunSlice(input: Input)

  function Hashes(disk: Disk): set<Hash> {
    set file | file in disk.blobs :: file.hash
  }

  function Synced(store: C.State, disk: Disk): C.State {
    store.(blobs := Hashes(disk), manifests := disk.manifests.Keys)
  }

  /** A process started on any store, with any roots. */
  function Start(w: World): State {
    State(Synced(C.EMPTY, w.disk), map[], map[], w, IDLE)
  }

  function StagedTime(s: State, id: CaptureId, hash: Hash): int {
    if id in s.stagedAt && hash in s.stagedAt[id] then s.stagedAt[id][hash] else 0
  }

  function TempTime(s: State, id: CaptureId): int {
    if id in s.tempAt then s.tempAt[id] else 0
  }

  ghost predicate Enabled(s: State, step: Step) {
    match step
    case Own(own) => C.Enabled(s.store, own)
    case Wait(until) => s.world.now <= until
    case Roots(_, _) => true
    case RunSlice(input) => SoundListings(s.gc, s.world.disk, input)
  }

  /** Staging notes the time of the first copy of a content. */
  function Noted(s: State, own: C.Step): State
    requires C.Enabled(s.store, own)
  {
    match own
    case Begin(id) => s.(stagedAt := s.stagedAt[id := map[]])
    case StageFile(id, _, hash) =>
      if hash in s.store.active[id].hashes then s
      else
        var times := if id in s.stagedAt then s.stagedAt[id] else map[];
        s.(stagedAt := s.stagedAt[id := times[hash := s.world.now]])
    case StageManifest(id) => s.(tempAt := s.tempAt[id := s.world.now])
    case Crash(_) => s.(gc := IDLE)
    case _ => s
  }

  /** The renames onto final paths. */
  function Renamed(s: State, own: C.Step): Disk
    requires C.Enabled(s.store, own)
  {
    var disk := s.world.disk;
    match own
    case PublishBlob(id) =>
      var hash := s.store.active[id].hashes[s.store.active[id].published];
      disk.(blobs := disk.blobs[Sharded(hash) := StagedTime(s, id, hash)], shards := disk.shards + {hash.shard})
    case PublishManifest(id) =>
      disk.(manifests := disk.manifests[Ref(s.store.active[id].entries) := TempTime(s, id)])
    case _ => disk
  }

  ghost function Apply(cfg: Config, s: State, step: Step): State
    requires Enabled(s, step)
  {
    match step
    case Own(own) =>
      Noted(s, own).(store := C.Apply(s.store, own), world := s.world.(disk := Renamed(s, own)))
    case Wait(until) => s.(world := s.world.(now := until))
    case Roots(baselines, rows) => s.(world := s.world.(baselines := baselines, rows := rows))
    case RunSlice(input) =>
      var out := Slice(cfg, s.gc, s.world, input);
      s.(store := Synced(s.store, out.disk), world := s.world.(disk := out.disk), gc := out.gc)
  }

  ghost predicate Legal(cfg: Config, s: State, steps: seq<Step>)
    decreases |steps|
  {
    steps != [] ==> Enabled(s, steps[0]) && Legal(cfg, Apply(cfg, s, steps[0]), steps[1..])
  }

  ghost function After(cfg: Config, s: State, steps: seq<Step>): State
    requires Legal(cfg, s, steps)
    decreases |steps|
  {
    if steps == [] then s else After(cfg, Apply(cfg, s, steps[0]), steps[1..])
  }

  // ---- the invariant ----

  predicate OnDisk(disk: Disk, hash: Hash) {
    Sharded(hash) in disk.blobs || Flat(hash) in disk.blobs
  }

  /** The captures see the files there are, and the collector's memory fits them. */
  ghost predicate Coupled(s: State) {
    && C.AllShaped(s.store)
    && s.store == Synced(s.store, s.world.disk)
    && Inv(s.gc, s.world.disk.manifests)
  }

  lemma HashesAreOnDisk(disk: Disk, hash: Hash)
    ensures hash in Hashes(disk) <==> OnDisk(disk, hash)
  {
    if hash in Hashes(disk) { var file :| file in disk.blobs && file.hash == hash; }
    if Sharded(hash) in disk.blobs { assert Sharded(hash).hash in Hashes(disk); }
    if Flat(hash) in disk.blobs { assert Flat(hash).hash in Hashes(disk); }
  }

  lemma SyncedKeepsShape(store: C.State, disk: Disk)
    requires C.AllShaped(store)
    ensures C.AllShaped(Synced(store, disk))
  {
    var t := Synced(store, disk);
    forall id | id in t.active ensures C.CaptureShape(t, id, t.active[id]) {
      C.ShapeFollows(store, t, id, store.active[id]);
    }
  }

  lemma RenamesAreSeen(s: State, own: C.Step)
    requires s.store == Synced(s.store, s.world.disk) && C.Enabled(s.store, own)
    ensures C.Apply(s.store, own) == Synced(C.Apply(s.store, own), Renamed(s, own))
  {
    var disk := Renamed(s, own);
    var t := C.Apply(s.store, own);
    forall hash ensures hash in t.blobs <==> hash in Hashes(disk) {
      HashesAreOnDisk(disk, hash);
      HashesAreOnDisk(s.world.disk, hash);
    }
    assert t.blobs == Hashes(disk);
    assert t.manifests == disk.manifests.Keys;
  }

  /** A capture's own step only adds files. */
  lemma RenamesOnlyAdd(s: State, own: C.Step)
    requires C.Enabled(s.store, own)
    ensures var disk, was := Renamed(s, own), s.world.disk;
            was.manifests.Keys <= disk.manifests.Keys && was.blobs.Keys <= disk.blobs.Keys && was.shards <= disk.shards
  {}

  lemma OwnKeepsCoupled(cfg: Config, s: State, own: C.Step)
    requires Coupled(s) && C.Enabled(s.store, own)
    ensures Coupled(Apply(cfg, s, Own(own)))
  {
    C.StepKeepsShape(s.store, own);
    RenamesAreSeen(s, own);
    RenamesOnlyAdd(s, own);
    hide C.AllShaped, C.Apply, C.Enabled, Renamed, Synced;
  }

  lemma StepKeepsCoupled(cfg: Config, s: State, step: Step)
    requires Coupled(s) && Enabled(s, step)
    ensures Coupled(Apply(cfg, s, step))
  {
    match step
    case Own(own) => OwnKeepsCoupled(cfg, s, own);
    case Wait(_) =>
    case Roots(_, _) =>
    case RunSlice(input) =>
      hide C.AllShaped, Slice;
      SliceIsSafe(cfg, s.gc, s.world, input, Ref([]));
      SyncedKeepsShape(s.store, Slice(cfg, s.gc, s.world, input).disk);
  }

  lemma {:induction false} CoupledAlongRun(cfg: Config, s: State, steps: seq<Step>)
    requires Coupled(s) && Legal(cfg, s, steps)
    ensures Coupled(After(cfg, s, steps))
    decreases |steps|
  {
    hide Coupled, Apply, Enabled;
    if steps != [] {
      StepKeepsCoupled(cfg, s, steps[0]);
      CoupledAlongRun(cfg, Apply(cfg, s, steps[0]), steps[1..]);
    }
  }

  // ---- until the manifest lands ----

  /** The capture has published the blob and relies on it being there. */
  predicate Relies(s: State, id: CaptureId, hash: Hash) {
    && id in s.store.active
    && var c := s.store.active[id];
       C.Past(c.phase) && c.published <= |c.hashes| && hash in c.hashes[..c.published]
  }

  ghost predicate BlobsThere(s: State) {
    forall id, hash :: Relies(s, id, hash) ==> OnDisk(s.world.disk, hash)
  }

  predicate WithinGrace(cfg: Config, w: World, file: BlobFile) {
    file in w.disk.blobs && Recent(cfg, w.disk.blobs, w.now, file)
  }

  ghost predicate NamedByRoot(cfg: Config, w: World, hash: Hash) {
    exists ref :: ref in w.disk.manifests && Protected(cfg, w, ref) && hash in Blobs(ref)
  }

  /** No slice can take the blob: it has a file within the grace, or a manifest of a
      protected root names it. */
  ghost predicate Spared(cfg: Config, w: World, hash: Hash) {
    WithinGrace(cfg, w, Sharded(hash)) || WithinGrace(cfg, w, Flat(hash)) || NamedByRoot(cfg, w, hash)
  }

  /** At every slice, every blob that a capture relies on is spared. */
  ghost predicate Covered(cfg: Config, s: State, steps: seq<Step>)
    requires Legal(cfg, s, steps)
    decreases |steps|
  {
    steps != [] ==>
      && (steps[0].RunSlice? ==> forall id, hash :: Relies(s, id, hash) ==> Spared(cfg, s.world, hash))
      && Covered(cfg, Apply(cfg, s, steps[0]), steps[1..])
  }

  lemma SliceSparesHash(cfg: Config, gc: GcState, w: World, input: Input, hash: Hash)
    requires Inv(gc, w.disk.manifests) && SoundListings(gc, w.disk, input)
    requires OnDisk(w.disk, hash) && Spared(cfg, w, hash)
    ensures OnDisk(Slice(cfg, gc, w, input).disk, hash)
  {
    hide Slice, Inv, Protected;
    if WithinGrace(cfg, w, Sharded(hash)) {
      SliceSparesRecent(cfg, gc, w, input, Sharded(hash));
    } else if WithinGrace(cfg, w, Flat(hash)) {
      SliceSparesRecent(cfg, gc, w, input, Flat(hash));
    } else {
      var ref :| ref in w.disk.manifests && Protected(cfg, w, ref) && hash in Blobs(ref);
      SliceIsSafe(cfg, gc, w, input, ref);
    }
  }

  lemma PublishingIsRelied(s: State, id: CaptureId, hash: Hash)
    requires C.AllShaped(s.store) && C.Enabled(s.store, C.PublishBlob(id))
    requires Relies(s.(store := C.Apply(s.store, C.PublishBlob(id))), id, hash)
    ensures Relies(s, id, hash) || Sharded(hash) in Renamed(s, C.PublishBlob(id)).blobs
  {
    hide C.AllShaped;
    var c := s.store.active[id];
    assert c.hashes[..c.published + 1] == c.hashes[..c.published] + [c.hashes[c.published]];
  }

  /** A capture comes to rely on a blob only by publishing it. */
  lemma RelianceGrows(s: State, own: C.Step, id: CaptureId, hash: Hash)
    requires C.AllShaped(s.store) && C.Enabled(s.store, own)
    requires Relies(s.(store := C.Apply(s.store, own)), id, hash)
    ensures Relies(s, id, hash) || Sharded(hash) in Renamed(s, own).blobs
  {
    if C.Own(own) && own.id == id {
      if own.PublishBlob? {
        PublishingIsRelied(s, id, hash);
      } else {
        C.OwnerIsActive(s.store, own);
        assert id in s.store.active ==> C.CaptureShape(s.store, id, s.store.active[id]);
        hide C.AllShaped, C.CaptureShape, Renamed;
      }
    }
  }

  lemma OwnKeepsBlobs(cfg: Config, s: State, own: C.Step)
    requires C.AllShaped(s.store) && BlobsThere(s) && C.Enabled(s.store, own)
    ensures BlobsThere(Apply(cfg, s, Own(own)))
  {
    hide C.AllShaped, Renamed;
    var t := Apply(cfg, s, Own(own));
    RenamesOnlyAdd(s, own);
    forall id, hash | Relies(t, id, hash) ensures OnDisk(t.world.disk, hash) {
      RelianceGrows(s, own, id, hash);
    }
  }

  lemma StepKeepsBlobs(cfg: Config, s: State, step: Step)
    requires Coupled(s) && BlobsThere(s) && Enabled(s, step)
    requires step.RunSlice? ==> forall id, hash :: Relies(s, id, hash) ==> Spared(cfg, s.world, hash)
    ensures BlobsThere(Apply(cfg, s, step))
  {
    hide Slice, Spared, C.AllShaped, Inv;
    var t := Apply(cfg, s, step);
    if step.Own? {
      OwnKeepsBlobs(cfg, s, step.step);
    } else {
      forall id, hash | Relies(t, id, hash) ensures OnDisk(t.world.disk, hash) {
        assert Relies(s, id, hash);
        if step.RunSlice? { SliceSparesHash(cfg, s.gc, s.world, step.input, hash); }
      }
    }
  }

  lemma {:induction false} BlobsAlongRun(cfg: Config, s: State, steps: seq<Step>)
    requires Coupled(s) && BlobsThere(s) && Legal(cfg, s, steps) && Covered(cfg, s, steps)
    ensures BlobsThere(After(cfg, s, steps))
    decreases |steps|
  {
    hide Coupled, BlobsThere, Apply, Enabled;
    if steps != [] {
      StepKeepsCoupled(cfg, s, steps[0]);
      StepKeepsBlobs(cfg, s, steps[0]);
      BlobsAlongRun(cfg, Apply(cfg, s, steps[0]), steps[1..]);
    }
  }

  lemma StartIsCoupled(w: World)
    ensures Coupled(Start(w)) && BlobsThere(Start(w))
  {}

  /** Whatever slices, root changes and other captures come in between: while every
      slice finds the blobs that captures have published spared, every capture that
      has published its blobs has them all on disk, its manifest landed or not. */
  lemma GraceProtectsCaptures(cfg: Config, w: World, steps: seq<Step>, id: CaptureId)
    requires Legal(cfg, Start(w), steps) && Covered(cfg, Start(w), steps)
    ensures var s := After(cfg, Start(w), steps);
            id in s.store.active && C.Past(s.store.active[id].phase) && s.store.active[id].phase != C.Publishing ==>
              forall hash :: hash in Blobs(Ref(s.store.active[id].entries)) ==> OnDisk(s.world.disk, hash)
  {
    StartIsCoupled(w);
    CoupledAlongRun(cfg, Start(w), steps);
    BlobsAlongRun(cfg, Start(w), steps);
    var s := After(cfg, Start(w), steps);
    if id in s.store.active && C.Past(s.store.active[id].phase) && s.store.active[id].phase != C.Publishing {
      var c := s.store.active[id];
      assert C.CaptureShape(s.store, id, c);
      assert c.hashes[..c.published] == c.hashes;
      forall hash | hash in Blobs(Ref(c.entries)) ensures OnDisk(s.world.disk, hash) {
        var e :| e in c.entries && e.File? && e.sha256 == hash;
        assert Relies(s, id, hash);
      }
    }
  }

  // ---- from the manifest on ----

  predicate Young(cfg: Config, w: World, ref: Ref)
    requires ref in w.disk.manifests
  {
    w.now - w.disk.manifests[ref] < cfg.orphanGraceMs
  }

  /** No slice can take the snapshot. It is a protected root, or the mark in progress
      retains it, or the mark does not know it: then its manifest is within the grace
      and its blobs are spared. */
  ghost predicate Sheltered(cfg: Config, w: World, gc: GcState, ref: Ref)
    requires ref in w.disk.manifests
  {
    || Protected(cfg, w, ref)
    || Retaining(cfg, w, gc, ref)
    || (ref !in gc.expired && Young(cfg, w, ref) && forall hash :: hash in Blobs(ref) ==> Spared(cfg, w, hash))
  }

  /** A slice removes no manifest within the grace unless the mark has listed it as
      expired. */
  lemma SliceSparesYoung(cfg: Config, gc: GcState, w: World, input: Input, ref: Ref)
    requires Inv(gc, w.disk.manifests) && SoundListings(gc, w.disk, input)
    requires ref in w.disk.manifests && Young(cfg, w, ref) && ref !in gc.expired
    ensures ref in Slice(cfg, gc, w, input).disk.manifests
  {
    if gc.stage != Sweep { MarkPhaseSparesYoung(cfg, gc, w, input, ref); }
    var gc1 := if gc.stage == Sweep then gc else MarkPhase(cfg, gc, w, input);
    ExpireDeletes(gc1, w.disk, input.expireTurns, input.pageSize);
    var (gc2, disk) := ExpireLoop(gc1, w.disk, input.expireTurns, input.pageSize);
    SweepPhaseKeepsMarked(cfg, gc1, w, w.disk, input);
    SweepPhaseKeepsMarked(cfg, gc2.(stage := Sweep, pending := []), w, disk, input);
  }

  lemma MarkPhaseSparesYoung(cfg: Config, gc: GcState, w: World, input: Input, ref: Ref)
    requires ref in w.disk.manifests && Young(cfg, w, ref) && ref !in gc.expired
    ensures ref !in MarkPhase(cfg, gc, w, input).expired
  {
    var begun := if gc.stage == Idle then Begin(cfg, w, input.manifestListing) else gc;
    ClassifySparesYoung(cfg, begun, w, input.classifyTurns, input.pageSize, ref);
    var (classified, room) := ClassifyLoop(cfg, begun, w, input.classifyTurns, input.pageSize);
    MarkMarks(classified, w, input.markTurns, room);
  }

  lemma {:induction false} ClassifySparesYoung(cfg: Config, gc: GcState, w: World, turns: nat, room: nat, ref: Ref)
    requires ref in w.disk.manifests && Young(cfg, w, ref) && ref !in gc.expired
    ensures ref !in ClassifyLoop(cfg, gc, w, turns, room).0.expired
    decreases turns
  {
    if gc.stage == Classify && turns > 0 && room > 0 && gc.manifestDir != [] {
      ClassifySparesYoung(cfg, ClassifyOne(cfg, gc, w), w, turns - 1, room - 1, ref);
    }
  }

  lemma SliceShelters(cfg: Config, gc: GcState, w: World, input: Input, ref: Ref)
    requires Inv(gc, w.disk.manifests) && SoundListings(gc, w.disk, input)
    requires Intact(w.disk, ref) && Sheltered(cfg, w, gc, ref)
    ensures Intact(Slice(cfg, gc, w, input).disk, ref)
  {
    hide Slice, Inv, Retaining, Protected, Young;
    if Protected(cfg, w, ref) {
      SliceIsSafe(cfg, gc, w, input, ref);
    } else if Retaining(cfg, w, gc, ref) {
      SliceKeepsRetained(cfg, gc, w, input, ref);
    } else {
      SliceSparesYoung(cfg, gc, w, input, ref);
      forall hash | hash in Blobs(ref) ensures OnDisk(Slice(cfg, gc, w, input).disk, hash) {
        SliceSparesHash(cfg, gc, w, input, hash);
      }
    }
  }

  ghost predicate ShelteredAtSlices(cfg: Config, s: State, steps: seq<Step>, ref: Ref)
    requires Legal(cfg, s, steps)
    decreases |steps|
  {
    steps != [] ==>
      && (steps[0].RunSlice? ==> ref in s.world.disk.manifests && Sheltered(cfg, s.world, s.gc, ref))
      && ShelteredAtSlices(cfg, Apply(cfg, s, steps[0]), steps[1..], ref)
  }

  lemma StepKeepsIntact(cfg: Config, s: State, step: Step, ref: Ref)
    requires Coupled(s) && Enabled(s, step) && Intact(s.world.disk, ref)
    requires step.RunSlice? ==> Sheltered(cfg, s.world, s.gc, ref)
    ensures Intact(Apply(cfg, s, step).world.disk, ref)
  {
    hide Slice, Sheltered, Inv, C.AllShaped, Renamed;
    if step.Own? { RenamesOnlyAdd(s, step.step); }
    if step.RunSlice? { SliceShelters(cfg, s.gc, s.world, step.input, ref); }
  }

  lemma {:induction false} IntactAlongRun(cfg: Config, s: State, steps: seq<Step>, ref: Ref)
    requires Coupled(s) && Legal(cfg, s, steps) && Intact(s.world.disk, ref)
    requires ShelteredAtSlices(cfg, s, steps, ref)
    ensures Intact(After(cfg, s, steps).world.disk, ref)
    decreases |steps|
  {
    hide Coupled, Intact, Sheltered, Apply, Enabled;
    if steps != [] {
      StepKeepsCoupled(cfg, s, steps[0]);
      StepKeepsIntact(cfg, s, steps[0], ref);
      IntactAlongRun(cfg, Apply(cfg, s, steps[0]), steps[1..], ref);
    }
  }

  lemma LandsIntact(cfg: Config, s: State, id: CaptureId)
    requires Coupled(s) && BlobsThere(s) && C.Enabled(s.store, C.PublishManifest(id))
    ensures Intact(Apply(cfg, s, Own(C.PublishManifest(id))).world.disk, Ref(s.store.active[id].entries))
  {
    var c := s.store.active[id];
    assert C.CaptureShape(s.store, id, c);
    assert c.hashes[..c.published] == c.hashes;
    forall hash | hash in Blobs(Ref(c.entries)) ensures OnDisk(s.world.disk, hash) {
      var e :| e in c.entries && e.File? && e.sha256 == hash;
      assert Relies(s, id, hash);
    }
  }

  /** A captured snapshot stays readable from the moment its manifest lands: its blobs
      were spared at every slice before, and from then on it is sheltered at every
      slice, first by the grace, then by being a root. Everything else may happen in
      between: other captures, root changes, restarts of mark and process, time. */
  lemma CaptureStaysIntact(cfg: Config, w: World, before: seq<Step>, id: CaptureId, rest: seq<Step>)
    requires Legal(cfg, Start(w), before) && Covered(cfg, Start(w), before)
    requires C.Enabled(After(cfg, Start(w), before).store, C.PublishManifest(id))
    requires var s := After(cfg, Start(w), before);
             var t := Apply(cfg, s, Own(C.PublishManifest(id)));
             Legal(cfg, t, rest) && ShelteredAtSlices(cfg, t, rest, Ref(s.store.active[id].entries))
    ensures var s := After(cfg, Start(w), before);
            var t := Apply(cfg, s, Own(C.PublishManifest(id)));
            Intact(After(cfg, t, rest).world.disk, Ref(s.store.active[id].entries))
  {
    hide Coupled, BlobsThere, Intact, ShelteredAtSlices, Legal, After, Apply, Covered;
    StartIsCoupled(w);
    CoupledAlongRun(cfg, Start(w), before);
    BlobsAlongRun(cfg, Start(w), before);
    var s := After(cfg, Start(w), before);
    LandsIntact(cfg, s, id);
    StepKeepsCoupled(cfg, s, Own(C.PublishManifest(id)));
    IntactAlongRun(cfg, Apply(cfg, s, Own(C.PublishManifest(id))), rest, Ref(s.store.active[id].entries));
  }
}
