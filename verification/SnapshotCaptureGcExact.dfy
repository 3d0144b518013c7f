/** How exact the conditions of SnapshotCaptureGc are: when a collection breaks a
    capture, when one capture exposes another, and when it takes a snapshot. */
module SnapshotCaptureGcExact {
  import opened SnapshotTypes
  import opened SnapshotGc
  import opened SnapshotGcExact
  import opened SnapshotCaptureGc
  import C = SnapshotCapture
  import G = SnapshotGcSafety
  import T = TerminalTail

  // ---- a whole collection in a run ----

  lemma {:induction false} Extended(cfg: Config, s: State, steps: seq<Step>, step: Step)
    requires Legal(cfg, s, steps) && Enabled(After(cfg, s, steps), step)
    ensures Legal(cfg, s, steps + [step])
    ensures After(cfg, s, steps + [step]) == Apply(cfg, After(cfg, s, steps), step)
    decreases |steps|
  {
    hide Apply, Enabled;
    if steps == [] {
      assert [step][1..] == [];
    } else {
      assert (steps + [step])[1..] == steps[1..] + [step];
      Extended(cfg, Apply(cfg, s, steps[0]), steps[1..], step);
    }
  }

  lemma {:induction false} Joined(cfg: Config, s: State, first: seq<Step>, second: seq<Step>)
    requires Legal(cfg, s, first) && Legal(cfg, After(cfg, s, first), second)
    ensures Legal(cfg, s, first + second)
    ensures After(cfg, s, first + second) == After(cfg, After(cfg, s, first), second)
    decreases |first|
  {
    hide Apply, Enabled;
    if first == [] {
      assert first + second == second;
    } else {
      assert (first + second)[1..] == first[1..] + second;
      Joined(cfg, Apply(cfg, s, first[0]), first[1..], second);
    }
  }

  /** The first `n` slices of a schedule. */
  function Slices(schedule: Schedule, n: nat): seq<Step> {
    if n == 0 then [] else Slices(schedule, n - 1) + [RunSlice(schedule(n - 1).input)]
  }

  /** From its first slice to its last, with roots and clock as they are in `w`. */
  ghost predicate Collection(cfg: Config, w: World, schedule: Schedule, n: nat) {
    && Fair(cfg, w, schedule)
    && (forall i: nat :: schedule(i).now == w.now)
    && !HasMore(cfg, w, schedule, n) && forall k :: 0 <= k < n ==> HasMore(cfg, w, schedule, k)
  }

  /** The state with the collector's memory and files replaced. */
  function With(s: State, m: Memory): State {
    s.(store := Synced(s.store, m.disk), world := s.world.(disk := m.disk), gc := m.gc)
  }

  lemma {:induction false} SlicesRun(cfg: Config, s: State, schedule: Schedule, n: nat)
    requires Coupled(s) && s.gc.stage == Idle
    requires Fair(cfg, s.world, schedule) && forall i: nat :: schedule(i).now == s.world.now
    ensures Legal(cfg, s, Slices(schedule, n))
    ensures After(cfg, s, Slices(schedule, n)) == With(s, Run(cfg, s.world, schedule, n))
  {
    hide Slice, SoundListings;
    if n > 0 {
      SlicesRun(cfg, s, schedule, n - 1);
      var m := Run(cfg, s.world, schedule, n - 1);
      assert SoundListings(m.gc, m.disk, schedule(n - 1).input);
      assert With(s, m).world == SnapshotGcExact.At(s.world, m.disk, schedule(n - 1).now);
      Extended(cfg, s, Slices(schedule, n - 1), RunSlice(schedule(n - 1).input));
    }
  }

  lemma WellFormedAfterStep(cfg: Config, s: State, step: Step)
    requires WellFormed(s.world.disk) && Enabled(s, step)
    ensures WellFormed(Apply(cfg, s, step).world.disk)
  {
    hide Slice;
    if step.RunSlice? {
      G.SliceOnlyDeletes(cfg, s.gc, s.world, step.input);
    }
  }

  lemma {:induction false} WellFormedAlongRun(cfg: Config, s: State, steps: seq<Step>)
    requires WellFormed(s.world.disk) && Legal(cfg, s, steps)
    ensures WellFormed(After(cfg, s, steps).world.disk)
    decreases |steps|
  {
    hide Apply, Enabled, WellFormed;
    if steps != [] {
      WellFormedAfterStep(cfg, s, steps[0]);
      WellFormedAlongRun(cfg, Apply(cfg, s, steps[0]), steps[1..]);
    }
  }

  // ---- a capture that goes on alone ----

  ghost predicate Alone(steps: seq<Step>, id: CaptureId) {
    forall step :: step in steps ==> step.Own? && C.Own(step.step) && step.step.id == id
  }

  /** The capture has published its manifest although a blob it names is missing. */
  predicate Incomplete(s: State, id: CaptureId, hash: Hash) {
    && C.In(s.store, id, C.ManifestPublished)
    && Ref(s.store.active[id].entries) in s.world.disk.manifests
    && hash in Blobs(Ref(s.store.active[id].entries)) && !OnDisk(s.world.disk, hash)
  }

  lemma {:induction false} AloneKeepsBlob(cfg: Config, s: State, steps: seq<Step>, id: CaptureId, hash: Hash)
    requires Legal(cfg, s, steps) && Alone(steps, id) && OnDisk(s.world.disk, hash)
    ensures OnDisk(After(cfg, s, steps).world.disk, hash)
    decreases |steps|
  {
    if steps != [] {
      assert steps[0] in steps;
      RenamesOnlyAdd(s, steps[0].step);
      hide Renamed, Noted, C.Apply;
      AloneKeepsBlob(cfg, Apply(cfg, s, steps[0]), steps[1..], id, hash);
    }
  }

  predicate BeforeManifest(s: State, id: CaptureId) {
    id in s.store.active && s.store.active[id].phase in {C.Publishing, C.ManifestAnnounced, C.ManifestStaged}
  }

  /** The capture goes on with a hash that it has published and lost. */
  ghost predicate Lost(s: State, id: CaptureId, hash: Hash) {
    && BeforeManifest(s, id) && Relies(s, id, hash) && !OnDisk(s.world.disk, hash)
    && hash in Blobs(Ref(s.store.active[id].entries))
  }

  /** The next step of a capture on its way to publishing its manifest. */
  function Next(s: State, id: CaptureId): C.Step
    requires id in s.store.active
  {
    var c := s.store.active[id];
    match c.phase
    case Publishing => if c.published < |c.hashes| then C.PublishBlob(id) else C.AnnounceManifest(id)
    case ManifestAnnounced => C.StageManifest(id)
    case _ => C.PublishManifest(id)
  }

  lemma NextIsEnabled(s: State, id: CaptureId)
    requires C.AllShaped(s.store) && BeforeManifest(s, id)
    ensures C.Enabled(s.store, Next(s, id)) && C.Own(Next(s, id)) && Next(s, id).id == id
  {
    var c := s.store.active[id];
    assert C.CaptureShape(s.store, id, c);
    if c.phase == C.ManifestStaged { assert c.hashes[..c.published] == c.hashes; }
  }

  lemma PublishKeepsLost(cfg: Config, s: State, id: CaptureId, hash: Hash)
    requires C.AllShaped(s.store) && Lost(s, id, hash) && C.Enabled(s.store, C.PublishBlob(id))
    ensures Lost(Apply(cfg, s, Own(C.PublishBlob(id))), id, hash)
  {
    var c := s.store.active[id];
    assert C.CaptureShape(s.store, id, c);
    hide C.AllShaped, C.CaptureShape, Enabled;
    assert c.hashes[..c.published + 1] == c.hashes[..c.published] + [c.hashes[c.published]];
    var k :| 0 <= k < c.published && c.hashes[k] == hash;
    assert hash != c.hashes[c.published];
  }

  lemma NextKeepsLost(cfg: Config, s: State, id: CaptureId, hash: Hash)
    requires C.AllShaped(s.store) && Lost(s, id, hash) && C.Enabled(s.store, Next(s, id))
    ensures var t := Apply(cfg, s, Own(Next(s, id)));
            if s.store.active[id].phase == C.ManifestStaged then Incomplete(t, id, hash) else Lost(t, id, hash)
  {
    hide C.AllShaped;
    if Next(s, id).PublishBlob? { PublishKeepsLost(cfg, s, id, hash); }
  }

  /** Steps left until the manifest is renamed. */
  function Left(c: C.Capture): nat {
    match c.phase
    case Publishing => 3 + (if c.published < |c.hashes| then |c.hashes| - c.published else 0)
    case ManifestAnnounced => 2
    case ManifestStaged => 1
    case _ => 0
  }

  lemma NextIsFewer(cfg: Config, s: State, id: CaptureId)
    requires BeforeManifest(s, id) && C.Enabled(s.store, Next(s, id))
    ensures var t := Apply(cfg, s, Own(Next(s, id)));
            id in t.store.active && Left(t.store.active[id]) < Left(s.store.active[id])
  {}

  lemma {:induction false} LostBecomesIncomplete(cfg: Config, s: State, id: CaptureId, hash: Hash)
      returns (steps: seq<Step>)
    requires C.AllShaped(s.store) && Lost(s, id, hash)
    ensures Legal(cfg, s, steps) && Alone(steps, id) && Incomplete(After(cfg, s, steps), id, hash)
    decreases Left(s.store.active[id])
  {
    hide C.AllShaped, Incomplete, C.Apply, C.Enabled, Renamed, Noted;
    var own := Next(s, id);
    NextIsEnabled(s, id);
    NextKeepsLost(cfg, s, id, hash);
    C.StepKeepsShape(s.store, own);
    NextIsFewer(cfg, s, id);
    var t := Apply(cfg, s, Own(own));
    var rest := [];
    if s.store.active[id].phase != C.ManifestStaged { rest := LostBecomesIncomplete(cfg, t, id, hash); }
    steps := [Own(own)] + rest;
    assert steps[1..] == rest;
  }

  // ---- when a collection breaks a capture ----

  /** The capture has published the blob, which is there, but not its manifest. */
  ghost predicate AtRisk(s: State, id: CaptureId, hash: Hash) {
    BeforeManifest(s, id) && Relies(s, id, hash) && OnDisk(s.world.disk, hash)
  }

  /** Every file of the blob is enumerated and past the grace, and no manifest that the
      retention rule keeps names it. */
  ghost predicate Doomed(cfg: Config, w: World, hash: Hash) {
    && !Reachable(cfg, w, hash)
    && forall file :: file in w.disk.blobs && file.hash == hash ==>
         Enumerable(w.disk, file) && !Recent(cfg, w.disk.blobs, w.now, file)
  }

  ghost predicate NoTornRoot(cfg: Config, w: World) {
    forall ref :: !Torn(cfg, w, ref)
  }

  /** The collection, and then the capture alone, end in an incomplete manifest. */
  ghost predicate Breaks(cfg: Config, s: State, id: CaptureId, hash: Hash, schedule: Schedule, n: nat,
                         steps: seq<Step>) {
    && Collection(cfg, s.world, schedule, n)
    && Legal(cfg, s, Slices(schedule, n + 1)) && Alone(steps, id)
    && var t := After(cfg, s, Slices(schedule, n + 1));
       Legal(cfg, t, steps) && Incomplete(After(cfg, t, steps), id, hash)
  }

  /** Some collection breaks the capture. */
  ghost predicate Breakable(cfg: Config, s: State, id: CaptureId, hash: Hash) {
    exists schedule: Schedule, n: nat, steps :: Breaks(cfg, s, id, hash, schedule, n, steps)
  }

  lemma GoneIffDoomed(cfg: Config, w: World, schedule: Schedule, n: nat, hash: Hash)
    requires WellFormed(w.disk) && Collection(cfg, w, schedule, n) && OnDisk(w.disk, hash)
    ensures !OnDisk(Run(cfg, w, schedule, n + 1).disk, hash) <==> Doomed(cfg, w, hash)
  {
    hide Run, HasMore, Reachable, Fair, Enumerable;
    FixedClockIsExact(cfg, w, schedule, n);
    var disk := Run(cfg, w, schedule, n + 1).disk;
    forall file ensures file in disk.blobs <==> file in w.disk.blobs && BlobKept(cfg, w, file) {
      assert file in disk.blobs.Keys <==> file in w.disk.blobs && BlobKept(cfg, w, file);
    }
  }

  lemma AtRiskIsNamed(s: State, id: CaptureId, hash: Hash)
    requires C.AllShaped(s.store) && AtRisk(s, id, hash)
    ensures hash in Blobs(Ref(s.store.active[id].entries))
  {
    assert C.CaptureShape(s.store, id, s.store.active[id]);
  }

  /** Each collection decides it: the capture that goes on after it can end in an
      incomplete manifest exactly when the blob was doomed. */
  lemma EachCollectionBreaksIff(cfg: Config, s: State, id: CaptureId, hash: Hash, schedule: Schedule, n: nat)
    requires Coupled(s) && WellFormed(s.world.disk) && s.gc.stage == Idle && AtRisk(s, id, hash)
    requires Collection(cfg, s.world, schedule, n)
    ensures (exists steps :: Breaks(cfg, s, id, hash, schedule, n, steps)) <==> Doomed(cfg, s.world, hash)
  {
    hide Slice, Run, Incomplete, Doomed, HasMore, Fair, C.AllShaped, G.Inv, WellFormed;
    SlicesRun(cfg, s, schedule, n + 1);
    GoneIffDoomed(cfg, s.world, schedule, n, hash);
    var t := After(cfg, s, Slices(schedule, n + 1));
    if Doomed(cfg, s.world, hash) {
      AtRiskIsNamed(s, id, hash);
      SyncedKeepsShape(s.store, t.world.disk);
      var steps := LostBecomesIncomplete(cfg, t, id, hash);
      assert Breaks(cfg, s, id, hash, schedule, n, steps);
    } else {
      forall steps ensures !Breaks(cfg, s, id, hash, schedule, n, steps) {
        if Alone(steps, id) && Legal(cfg, t, steps) {
          AloneKeepsBlob(cfg, t, steps, id, hash);
          NotIncomplete(After(cfg, t, steps), id, hash);
        }
      }
    }
  }

  lemma NotIncomplete(s: State, id: CaptureId, hash: Hash)
    requires OnDisk(s.world.disk, hash)
    ensures !Incomplete(s, id, hash)
  {}

  lemma CollectionExists(cfg: Config, w: World) returns (schedule: Schedule, n: nat)
    requires WellFormed(w.disk) && NoTornRoot(cfg, w)
    ensures Collection(cfg, w, schedule, n)
  {
    hide Fair, Run, HasMore, Torn;
    schedule := FairExists(cfg, w, _ => w.now);
    forall k: nat, ref ensures !Torn(cfg, WorldAt(w, schedule, k), ref) {
      assert WorldAt(w, schedule, k) == w;
    }
    var j;
    j, n := Completes(cfg, w, schedule, 0);
  }

  lemma StateAfter(cfg: Config, w: World, run: seq<Step>)
    requires WellFormed(w.disk) && Legal(cfg, Start(w), run)
    ensures var s := After(cfg, Start(w), run); Coupled(s) && WellFormed(s.world.disk)
  {
    hide Coupled;
    StartIsCoupled(w);
    CoupledAlongRun(cfg, Start(w), run);
    WellFormedAlongRun(cfg, Start(w), run);
  }

  lemma BreakableIff(cfg: Config, s: State, id: CaptureId, hash: Hash)
    requires Coupled(s) && WellFormed(s.world.disk) && s.gc.stage == Idle && AtRisk(s, id, hash)
    ensures Breakable(cfg, s, id, hash) <==> NoTornRoot(cfg, s.world) && Doomed(cfg, s.world, hash)
  {
    hide Coupled, AtRisk, Doomed, Legal, Alone, After, Incomplete, Torn, Fair, HasMore, Run, WellFormed;
    if NoTornRoot(cfg, s.world) {
      var schedule, n := CollectionExists(cfg, s.world);
      EachCollectionBreaksIff(cfg, s, id, hash, schedule, n);
    }
    if schedule: Schedule, n: nat, steps :| Breaks(cfg, s, id, hash, schedule, n, steps) {
      CompletesIffNoTornRoot(cfg, s.world, schedule);
      EachCollectionBreaksIff(cfg, s, id, hash, schedule, n);
    }
  }

  /** In every reachable state between two collections, for a capture that has
      published a blob but not its manifest: a collection can make it publish an
      incomplete manifest exactly when no root is torn, the blob's files are all
      enumerated and past the grace, and no manifest that the retention rule keeps
      names it. */
  lemma CollectionBreaksIff(cfg: Config, w: World, run: seq<Step>, id: CaptureId, hash: Hash)
    requires WellFormed(w.disk) && Legal(cfg, Start(w), run)
    requires var s := After(cfg, Start(w), run); s.gc.stage == Idle && AtRisk(s, id, hash)
    ensures var s := After(cfg, Start(w), run);
            Breakable(cfg, s, id, hash) <==> NoTornRoot(cfg, s.world) && Doomed(cfg, s.world, hash)
  {
    StateAfter(cfg, w, run);
    BreakableIff(cfg, After(cfg, Start(w), run), id, hash);
  }

  // ---- when one capture exposes another ----

  /** The files of blobs play no part in what is a root, torn or kept. */
  lemma RootsIgnoreBlobs(cfg: Config, w: World, w': World)
    requires w' == w.(disk := w.disk.(blobs := w'.disk.blobs, shards := w'.disk.shards))
    ensures NoTornRoot(cfg, w) <==> NoTornRoot(cfg, w')
    ensures forall hash :: Reachable(cfg, w, hash) <==> Reachable(cfg, w', hash)
  {
    hide RowRoots, T.TailRefs, AgeByRef;
    forall ref ensures G.Kept(cfg, w, ref) <==> G.Kept(cfg, w', ref) {}
    forall ref ensures Torn(cfg, w, ref) <==> Torn(cfg, w', ref) {}
    forall hash ensures Reachable(cfg, w, hash) <==> Reachable(cfg, w', hash) {}
  }

  /** Publishing a blob that is already there gives it the age of the publisher's own
      staged copy. So one capture's publication exposes another capture, which no
      collection could break before, exactly when the file it replaces is within the
      grace and its own copy was staged too long ago for it, provided nothing else
      protects the blob: a kept manifest, a flat copy, or a torn root that keeps the
      collector from ending. */
  lemma PublishingExposesIff(cfg: Config, w: World, run: seq<Step>, id: CaptureId, other: CaptureId, hash: Hash)
    requires WellFormed(w.disk) && Legal(cfg, Start(w), run)
    requires var s := After(cfg, Start(w), run);
             && s.gc.stage == Idle && AtRisk(s, other, hash) && other != id
             && C.Enabled(s.store, C.PublishBlob(id)) && s.store.active[id].hashes[s.store.active[id].published] == hash
    ensures var s := After(cfg, Start(w), run);
            var t := Apply(cfg, s, Own(C.PublishBlob(id)));
            && AtRisk(t, other, hash)
            && (WithinGrace(cfg, s.world, Sharded(hash)) && !WithinGrace(cfg, t.world, Sharded(hash)) <==>
                  && WithinGrace(cfg, s.world, Sharded(hash))
                  && s.world.now - StagedTime(s, id, hash) >= cfg.orphanGraceMs)
            && (!Breakable(cfg, s, other, hash) && Breakable(cfg, t, other, hash) <==>
                  && WithinGrace(cfg, s.world, Sharded(hash))
                  && s.world.now - StagedTime(s, id, hash) >= cfg.orphanGraceMs
                  && !Reachable(cfg, s.world, hash) && Flat(hash) !in s.world.disk.blobs && NoTornRoot(cfg, s.world))
  {
    hide Breakable, Reachable, NoTornRoot, Coupled, Torn;
    var s := After(cfg, Start(w), run);
    var t := Apply(cfg, s, Own(C.PublishBlob(id)));
    StateAfter(cfg, w, run);
    BreakableIff(cfg, s, other, hash);
    StepKeepsCoupled(cfg, s, Own(C.PublishBlob(id)));
    WellFormedAfterStep(cfg, s, Own(C.PublishBlob(id)));
    assert AtRisk(t, other, hash);
    BreakableIff(cfg, t, other, hash);
    RootsIgnoreBlobs(cfg, s.world, t.world);
    DoomedFiles(cfg, s.world, hash);
    DoomedFiles(cfg, t.world, hash);
  }

  lemma DoomedFiles(cfg: Config, w: World, hash: Hash)
    ensures Doomed(cfg, w, hash) <==>
              && !Reachable(cfg, w, hash)
              && (Sharded(hash) in w.disk.blobs ==> w.disk.shards != {} && !WithinGrace(cfg, w, Sharded(hash)))
              && (Flat(hash) in w.disk.blobs ==> w.disk.shards == {} && !WithinGrace(cfg, w, Flat(hash)))
  {}

  // ---- when a collection takes a snapshot ----

  /** Some row or baseline refers to the snapshot. */
  ghost predicate IsRoot(w: World, ref: Ref) {
    ref in StrongRoots(w) || exists e :: e in Terminal(w) && e.ref == ref
  }

  lemma KeptUnlessRoot(cfg: Config, w: World, ref: Ref)
    requires ref in w.disk.manifests && !IsRoot(w, ref)
    ensures G.Kept(cfg, w, ref) <==> Young(cfg, w, ref)
  {
    hide TerminalRoots, RowRoots;
    AgeByRefIsLast(Terminal(w), ref);
    forall e | e in T.First(T.Sorted(Terminal(w)), cfg.retainPerWorkspace) ensures e in Terminal(w) {
      assert e in T.Sorted(Terminal(w));
    }
  }

  lemma KeptBlobsStay(cfg: Config, w: World, schedule: Schedule, n: nat, ref: Ref)
    requires WellFormed(w.disk) && Collection(cfg, w, schedule, n) && G.Intact(w.disk, ref) && G.Kept(cfg, w, ref)
    ensures forall hash :: hash in Blobs(ref) ==> OnDisk(Run(cfg, w, schedule, n + 1).disk, hash)
  {
    hide G.Kept, Run, Collection;
    forall hash | hash in Blobs(ref) ensures OnDisk(Run(cfg, w, schedule, n + 1).disk, hash) {
      assert Reachable(cfg, w, hash);
      GoneIffDoomed(cfg, w, schedule, n, hash);
    }
  }

  /** In every reachable state between two collections: a collection leaves a readable
      snapshot readable exactly when the retention rule keeps it; and while nothing
      refers to the snapshot, that is as long as its manifest is within the grace. */
  lemma SnapshotSurvivesIff(cfg: Config, w: World, run: seq<Step>, ref: Ref, schedule: Schedule, n: nat)
    requires WellFormed(w.disk) && Legal(cfg, Start(w), run)
    requires var s := After(cfg, Start(w), run);
             s.gc.stage == Idle && G.Intact(s.world.disk, ref) && Collection(cfg, s.world, schedule, n)
    ensures var s := After(cfg, Start(w), run);
            && Legal(cfg, s, Slices(schedule, n + 1))
            && (G.Intact(After(cfg, s, Slices(schedule, n + 1)).world.disk, ref) <==> G.Kept(cfg, s.world, ref))
            && (!IsRoot(s.world, ref) ==> (G.Kept(cfg, s.world, ref) <==> Young(cfg, s.world, ref)))
  {
    hide Run, G.Kept, Coupled, WellFormed, IsRoot, Young, HasMore;
    StateAfter(cfg, w, run);
    var s := After(cfg, Start(w), run);
    SlicesRun(cfg, s, schedule, n + 1);
    FixedClockIsExact(cfg, s.world, schedule, n);
    if G.Kept(cfg, s.world, ref) { KeptBlobsStay(cfg, s.world, schedule, n, ref); }
    if !IsRoot(s.world, ref) { KeptUnlessRoot(cfg, s.world, ref); }
  }
}
