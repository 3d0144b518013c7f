/** Capture transactions of the snapshot store (`doCapture` and startup
    reconciliation in src/filesystem-snapshot-store.ts).

    Every step is one file-system effect of one capture. Any number of captures
    interleave their steps, share blobs, fail, and are cut off by a crash. No
    garbage collection runs. Renames are atomic. */
module SnapshotCapture {
  import opened Common
  import opened SnapshotTypes

  type CaptureId = nat

  /** The state recorded in a transaction journal; Corrupt is a torn write. */
  datatype Journal = JWalking | JPublishedBlobs | JPublishedManifest | JCommitted | JCorrupt

  datatype Phase =
    | Starting            // transactions directory made
    | Staged              // staging directory made
    | Walking             // first journal record written
    | Publishing          // walk finished, moving staged blobs to their final paths
    | ManifestAnnounced   // all blobs moved, journal says the manifest is next
    | ManifestStaged      // temporary manifest file written
    | ManifestPublished   // manifest renamed into place
    | Committed           // journal says committed
    | Cleaning            // staging directory removed, journal still there

  /** A capture in progress. `hashes` are the keys of stagedByHash, in order. */
  datatype Capture = Capture(phase: Phase, entries: seq<ManifestEntry>, hashes: seq<Hash>, published: nat)

  datatype State = State(
    blobs: set<Hash>,
    manifests: set<Ref>,
    staging: map<CaptureId, set<Hash>>,
    journals: map<CaptureId, Journal>,
    temps: set<CaptureId>,
    transactionsDir: bool,
    active: map<CaptureId, Capture>)

  const EMPTY := State({}, {}, map[], map[], {}, false, map[])

  datatype Step =
    | Begin(id: CaptureId)
    | MakeStaging(id: CaptureId)
    | JournalWalk(id: CaptureId)
    | StageFile(id: CaptureId, path: string, hash: Hash)
    | StageLink(id: CaptureId, path: string, target: string)
    | AbortWalk(id: CaptureId)
    | FinishWalk(id: CaptureId, sorted: seq<ManifestEntry>)
    | PublishBlob(id: CaptureId)
    | AnnounceManifest(id: CaptureId)
    | StageManifest(id: CaptureId)
    | PublishManifest(id: CaptureId)
    | Commit(id: CaptureId)
    | RemoveStaging(id: CaptureId)
    | RemoveJournal(id: CaptureId)
    | Fail(id: CaptureId)
    | Crash(torn: set<CaptureId>)
    | ClearStaging(id: CaptureId)
    | ClearJournal(id: CaptureId)

  /** The check made just before the manifest lands: each file's blob was
      published by this capture or is found on disk. */
  predicate BlobsVerified(s: State, c: Capture)
    requires c.published <= |c.hashes|
  {
    forall e :: e in c.entries && e.File? ==> e.sha256 in c.hashes[..c.published] || e.sha256 in s.blobs
  }

  predicate In(s: State, id: CaptureId, phase: Phase) {
    id in s.active && s.active[id].phase == phase
  }

  predicate Enabled(s: State, step: Step) {
    match step
    case Begin(id) => id !in s.active && id !in s.staging && id !in s.journals && id !in s.temps
    case MakeStaging(id) => In(s, id, Starting)
    case JournalWalk(id) => In(s, id, Staged) && id in s.staging
    case StageFile(id, _, _) => In(s, id, Walking) && id in s.staging
    case StageLink(id, _, _) => In(s, id, Walking)
    case AbortWalk(id) => In(s, id, Walking)
    case FinishWalk(id, sorted) => In(s, id, Walking) && multiset(sorted) == multiset(s.active[id].entries)
    case PublishBlob(id) =>
      && In(s, id, Publishing) && s.active[id].published < |s.active[id].hashes|
      && id in s.staging && s.active[id].hashes[s.active[id].published] in s.staging[id]
    case AnnounceManifest(id) => In(s, id, Publishing) && s.active[id].published == |s.active[id].hashes|
    case StageManifest(id) => In(s, id, ManifestAnnounced)
    case PublishManifest(id) =>
      In(s, id, ManifestStaged) && s.active[id].published <= |s.active[id].hashes| && BlobsVerified(s, s.active[id])
    case Commit(id) => In(s, id, ManifestPublished)
    case RemoveStaging(id) => In(s, id, Committed)
    case RemoveJournal(id) => In(s, id, Cleaning)
    case Fail(id) => id in s.active
    case Crash(_) => true
    case ClearStaging(id) => s.active == map[] && s.transactionsDir
    case ClearJournal(id) => s.active == map[] && s.transactionsDir
  }

  function Advance(s: State, id: CaptureId, phase: Phase): State
    requires id in s.active
  {
    s.(active := s.active[id := s.active[id].(phase := phase)])
  }

  function Apply(s: State, step: Step): State
    requires Enabled(s, step)
  {
    match step
    case Begin(id) => s.(transactionsDir := true, active := s.active[id := Capture(Starting, [], [], 0)])
    case MakeStaging(id) => Advance(s, id, Staged).(staging := s.staging[id := {}])
    case JournalWalk(id) => Advance(s, id, Walking).(journals := s.journals[id := JWalking])
    case StageFile(id, path, hash) =>
      var c := s.active[id];
      s.(staging := s.staging[id := s.staging[id] + {hash}],
         active := s.active[id := c.(entries := c.entries + [File(path, hash)],
                                     hashes := if hash in c.hashes then c.hashes else c.hashes + [hash])])
    case StageLink(id, path, target) =>
      var c := s.active[id];
      s.(active := s.active[id := c.(entries := c.entries + [Symlink(path, target)])])
    case AbortWalk(id) => Advance(s, id, Cleaning).(staging := s.staging - {id})
    case FinishWalk(id, sorted) =>
      s.(journals := s.journals[id := JPublishedBlobs],
         active := s.active[id := s.active[id].(phase := Publishing, entries := sorted)])
    case PublishBlob(id) =>
      var c := s.active[id];
      var hash := c.hashes[c.published];
      s.(blobs := s.blobs + {hash},
         staging := s.staging[id := s.staging[id] - {hash}],
         active := s.active[id := c.(published := c.published + 1)])
    case AnnounceManifest(id) => Advance(s, id, ManifestAnnounced).(journals := s.journals[id := JPublishedManifest])
    case StageManifest(id) => Advance(s, id, ManifestStaged).(temps := s.temps + {id})
    case PublishManifest(id) =>
      Advance(s, id, ManifestPublished).(manifests := s.manifests + {Ref(s.active[id].entries)},
                                           temps := s.temps - {id})
    case Commit(id) => Advance(s, id, Committed).(journals := s.journals[id := JCommitted])
    case RemoveStaging(id) => Advance(s, id, Cleaning).(staging := s.staging - {id})
    case RemoveJournal(id) => s.(journals := s.journals - {id}, active := s.active - {id})
    case Fail(id) => s.(active := s.active - {id})
    case Crash(torn) =>
      s.(active := map[],
         journals := map id | id in s.journals :: if id in torn && id in s.active then JCorrupt else s.journals[id])
    case ClearStaging(id) => s.(staging := s.staging - {id})
    case ClearJournal(id) => s.(journals := s.journals - {id})
  }

  /** What startup reconciliation leaves: with no transactions directory it
      returns at once, otherwise every staging directory and journal goes. */
  function Reconciled(s: State): State {
    if s.transactionsDir then s.(staging := map[], journals := map[]) else s
  }

  ghost predicate Legal(s: State, steps: seq<Step>)
    decreases |steps|
  {
    steps != [] ==> Enabled(s, steps[0]) && Legal(Apply(s, steps[0]), steps[1..])
  }

  ghost function After(s: State, steps: seq<Step>): State
    requires Legal(s, steps)
    decreases |steps|
  {
    if steps == [] then s else After(Apply(s, steps[0]), steps[1..])
  }

  /** Crash consistency: every manifest can be read back completely. */
  ghost predicate ManifestsComplete(s: State) {
    forall ref :: ref in s.manifests ==> Blobs(ref) <= s.blobs
  }

  // ---- the invariant ----

  predicate Past(phase: Phase) {
    phase in {Publishing, ManifestAnnounced, ManifestStaged, ManifestPublished, Committed}
  }

  /** What a capture's own files and memory look like, whatever others do to the
      published files. */
  ghost predicate CaptureShape(s: State, id: CaptureId, c: Capture) {
    && c.published <= |c.hashes|
    && Distinct(c.hashes)
    && (forall e :: e in c.entries && e.File? ==> e.sha256 in c.hashes)
    && (forall hash :: hash in c.hashes ==> hash in Blobs(Ref(c.entries)))
    && (c.phase in {Starting, Staged} ==> c.entries == [] && c.hashes == [])
    && (c.phase in {Starting, Staged, Walking} ==> c.published == 0)
    && (c.phase == Staged || c.phase == Walking || Past(c.phase) ==>
          id in s.staging && forall i :: c.published <= i < |c.hashes| ==> c.hashes[i] in s.staging[id])
    && (Past(c.phase) && c.phase != Publishing ==> c.published == |c.hashes|)
    && (c.phase == ManifestStaged <==> id in s.temps)
  }

  /** What it has published is on disk. */
  ghost predicate CapturePublished(s: State, c: Capture) {
    && c.published <= |c.hashes|
    && (Past(c.phase) ==> forall i :: 0 <= i < c.published ==> c.hashes[i] in s.blobs)
    && (c.phase in {ManifestPublished, Committed} ==> Ref(c.entries) in s.manifests)
  }

  ghost predicate AllShaped(s: State) {
    && (s.staging != map[] || s.journals != map[] || s.active != map[] ==> s.transactionsDir)
    && forall id :: id in s.active ==> CaptureShape(s, id, s.active[id])
  }

  ghost predicate Inv(s: State) {
    AllShaped(s) && ManifestsComplete(s) && forall id :: id in s.active ==> CapturePublished(s, s.active[id])
  }

  /** A step by one capture. */
  predicate Own(step: Step) {
    !step.Crash? && !step.ClearStaging? && !step.ClearJournal?
  }

  lemma OthersUntouched(s: State, step: Step, id: CaptureId)
    requires Enabled(s, step) && Own(step) && id != step.id && id in s.active
    ensures var t := Apply(s, step);
            && id in t.active && t.active[id] == s.active[id]
            && s.blobs <= t.blobs && s.manifests <= t.manifests
            && (id in s.staging ==> id in t.staging && t.staging[id] == s.staging[id])
            && (id in s.temps <==> id in t.temps)
  {}

  lemma FinishWalkKeepsShape(s: State, id: CaptureId, sorted: seq<ManifestEntry>)
    requires Enabled(s, FinishWalk(id, sorted)) && CaptureShape(s, id, s.active[id])
    ensures var t := Apply(s, FinishWalk(id, sorted)); CaptureShape(t, id, t.active[id])
  {
    var c := s.active[id];
    forall e | e in sorted && e.File? ensures e.sha256 in c.hashes {
      assert e in multiset(sorted);
      assert e in c.entries;
    }
    forall e | e in c.entries ensures e in sorted {
      assert e in multiset(c.entries);
    }
  }

  lemma PublishKeepsShape(s: State, id: CaptureId)
    requires Enabled(s, PublishBlob(id)) && CaptureShape(s, id, s.active[id])
    ensures var t := Apply(s, PublishBlob(id)); CaptureShape(t, id, t.active[id])
  {
    var c, t := s.active[id], Apply(s, PublishBlob(id));
    forall i | c.published + 1 <= i < |c.hashes| ensures c.hashes[i] in t.staging[id] {
      assert c.hashes[i] != c.hashes[c.published];
    }
  }

  lemma StageFileKeepsShape(s: State, id: CaptureId, path: string, hash: Hash)
    requires Enabled(s, StageFile(id, path, hash)) && CaptureShape(s, id, s.active[id])
    ensures var t := Apply(s, StageFile(id, path, hash)); CaptureShape(t, id, t.active[id])
  {
    var c, t := s.active[id], Apply(s, StageFile(id, path, hash));
    var c' := t.active[id];
    forall h ensures h in Blobs(Ref(c'.entries)) <==> h == hash || h in Blobs(Ref(c.entries)) {
      if h == hash { assert c'.entries[|c.entries|] == File(path, hash); }
      if e :| e in c.entries && e.File? && e.sha256 == h { assert e in c'.entries; }
    }
  }

  lemma WalkKeepsShape(s: State, step: Step)
    requires Enabled(s, step) && (step.MakeStaging? || step.JournalWalk? || step.StageLink? || step.AbortWalk?)
    requires CaptureShape(s, step.id, s.active[step.id])
    ensures var t := Apply(s, step); CaptureShape(t, step.id, t.active[step.id])
  {
    if step.StageLink? {
      var c, t := s.active[step.id], Apply(s, step);
      BlobsGrow(c.entries, t.active[step.id].entries);
    }
  }

  lemma BlobsGrow(entries: seq<ManifestEntry>, more: seq<ManifestEntry>)
    requires entries <= more
    ensures Blobs(Ref(entries)) <= Blobs(Ref(more))
  {
    forall e | e in entries ensures e in more {}
  }

  lemma LandingKeepsShape(s: State, step: Step)
    requires Enabled(s, step)
    requires step.AnnounceManifest? || step.StageManifest? || step.PublishManifest? || step.Commit?
               || step.RemoveStaging?
    requires CaptureShape(s, step.id, s.active[step.id])
    ensures var t := Apply(s, step); CaptureShape(t, step.id, t.active[step.id])
  {}

  /** The capture that starts, and the ones that end. */
  lemma BoundaryKeepsShape(s: State, step: Step)
    requires Enabled(s, step) && (step.Begin? || step.RemoveJournal? || step.Fail?)
    ensures var t := Apply(s, step); step.id in t.active ==> CaptureShape(t, step.id, t.active[step.id])
  {}

  lemma OwnerIsActive(s: State, step: Step)
    requires Enabled(s, step) && Own(step)
    ensures step.id in s.active <==> !step.Begin?
  {}

  lemma OwnKeepsShape(s: State, step: Step)
    requires AllShaped(s) && Enabled(s, step) && Own(step)
    ensures var t := Apply(s, step); step.id in t.active ==> CaptureShape(t, step.id, t.active[step.id])
  {
    hide CaptureShape, Apply, Enabled;
    if step.Begin? || step.RemoveJournal? || step.Fail? {
      BoundaryKeepsShape(s, step);
    } else {
      OwnerIsActive(s, step);
      if step.FinishWalk? {
        FinishWalkKeepsShape(s, step.id, step.sorted);
      } else if step.PublishBlob? {
        PublishKeepsShape(s, step.id);
      } else if step.StageFile? {
        StageFileKeepsShape(s, step.id, step.path, step.hash);
      } else if step.MakeStaging? || step.JournalWalk? || step.StageLink? || step.AbortWalk? {
        WalkKeepsShape(s, step);
      } else {
        LandingKeepsShape(s, step);
      }
    }
  }

  lemma ShapeFollows(s: State, t: State, id: CaptureId, c: Capture)
    requires CaptureShape(s, id, c)
    requires id in s.staging ==> id in t.staging && t.staging[id] == s.staging[id]
    requires id in s.temps <==> id in t.temps
    ensures CaptureShape(t, id, c)
  {}

  /** The shape needs nothing but the capture's own files. */
  lemma StepKeepsShape(s: State, step: Step)
    requires AllShaped(s) && Enabled(s, step)
    ensures AllShaped(Apply(s, step))
  {
    hide CaptureShape;
    var t := Apply(s, step);
    if Own(step) {
      OwnKeepsShape(s, step);
      forall id | id in t.active ensures CaptureShape(t, id, t.active[id]) {
        if id != step.id {
          OthersUntouched(s, step, id);
          ShapeFollows(s, t, id, s.active[id]);
        }
      }
    }
  }

  lemma OwnKeepsPublished(s: State, step: Step)
    requires AllShaped(s) && Enabled(s, step) && Own(step)
    requires step.id in s.active ==> CapturePublished(s, s.active[step.id])
    ensures var t := Apply(s, step); step.id in t.active ==> CapturePublished(t, t.active[step.id])
  {
    assert step.id in s.active ==> CaptureShape(s, step.id, s.active[step.id]);
  }

  /** A published manifest is complete when what its capture published is on disk. */
  lemma PublishedIsComplete(s: State, id: CaptureId)
    requires id in s.active && CaptureShape(s, id, s.active[id])
    requires Past(s.active[id].phase) && s.active[id].phase != Publishing
    ensures CapturePublished(s, s.active[id]) ==> Blobs(Ref(s.active[id].entries)) <= s.blobs
  {
    var c := s.active[id];
    forall hash | hash in Blobs(Ref(c.entries)) && CapturePublished(s, c) ensures hash in s.blobs {
      var e :| e in c.entries && e.File? && e.sha256 == hash;
      assert e.sha256 in c.hashes;
    }
  }

  lemma StepKeepsManifests(s: State, step: Step)
    requires Inv(s) && Enabled(s, step)
    ensures ManifestsComplete(Apply(s, step))
  {
    var t := Apply(s, step);
    assert s.blobs <= t.blobs;
    if step.PublishManifest? {
      assert CaptureShape(s, step.id, s.active[step.id]) && CapturePublished(s, s.active[step.id]);
      PublishedIsComplete(s, step.id);
    }
  }

  lemma PublishedFollows(s: State, t: State, c: Capture)
    requires CapturePublished(s, c) && s.blobs <= t.blobs && s.manifests <= t.manifests
    ensures CapturePublished(t, c)
  {}

  lemma StepKeepsPublished(s: State, step: Step)
    requires Inv(s) && Enabled(s, step)
    ensures var t := Apply(s, step); forall id :: id in t.active ==> CapturePublished(t, t.active[id])
  {
    var t := Apply(s, step);
    hide CaptureShape, ManifestsComplete, CapturePublished;
    if Own(step) {
      OwnKeepsPublished(s, step);
      forall id | id in t.active ensures CapturePublished(t, t.active[id]) {
        if id != step.id {
          OthersUntouched(s, step, id);
          PublishedFollows(s, t, s.active[id]);
        }
      }
    } else {
      forall id | id in t.active ensures CapturePublished(t, t.active[id]) {
        PublishedFollows(s, t, s.active[id]);
      }
    }
  }

  lemma StepKeepsInv(s: State, step: Step)
    requires Inv(s) && Enabled(s, step)
    ensures Inv(Apply(s, step))
  {
    hide Apply, Enabled, CaptureShape, CapturePublished, ManifestsComplete;
    StepKeepsShape(s, step);
    StepKeepsManifests(s, step);
    StepKeepsPublished(s, step);
  }

  lemma {:induction false} InvAlongRun(s: State, steps: seq<Step>)
    requires Inv(s) && Legal(s, steps)
    ensures Inv(After(s, steps))
    decreases |steps|
  {
    hide Inv, Apply, Enabled;
    if steps != [] {
      StepKeepsInv(s, steps[0]);
      InvAlongRun(Apply(s, steps[0]), steps[1..]);
    }
  }

  /** Whatever captures interleave and wherever a crash cuts them off, every
      manifest in the store names only blobs in the store; and reconciliation,
      once nothing is active, leaves no staging and no journal while keeping
      every published blob and manifest. */
  lemma CaptureIsCrashConsistent(steps: seq<Step>)
    requires Legal(EMPTY, steps)
    ensures var s := After(EMPTY, steps);
            && ManifestsComplete(s)
            && (s.active == map[] ==>
                  var t := Reconciled(s);
                  && t.staging == map[] && t.journals == map[]
                  && t.blobs == s.blobs && t.manifests == s.manifests)
  {
    InvAlongRun(EMPTY, steps);
  }

  /** A capture is never stuck by its own doing: before the manifest lands, its
      next staged blob is there to publish and its final check succeeds; and a
      committed capture's manifest is in the store with all its blobs. */
  lemma CaptureProceeds(steps: seq<Step>, id: CaptureId)
    requires Legal(EMPTY, steps)
    ensures var s := After(EMPTY, steps);
            && (In(s, id, Publishing) ==> Enabled(s, PublishBlob(id)) || Enabled(s, AnnounceManifest(id)))
            && (In(s, id, ManifestStaged) ==> Enabled(s, PublishManifest(id)))
            && (In(s, id, Committed) ==>
                  Ref(s.active[id].entries) in s.manifests && Blobs(Ref(s.active[id].entries)) <= s.blobs)
  {
    hide Legal, After;
    InvAlongRun(EMPTY, steps) by { EmptyInv(); }
    var s := After(EMPTY, steps);
    if id in s.active {
      hide AllShaped, ManifestsComplete;
      assert CaptureShape(s, id, s.active[id]) && CapturePublished(s, s.active[id]) by { Members(s, id); }
      if s.active[id].phase in {ManifestStaged, Committed} { PublishedIsComplete(s, id); }
      if In(s, id, ManifestStaged) { VerifiedWhenPublished(s, s.active[id]); }
    }
  }

  lemma EmptyInv()
    ensures Inv(EMPTY)
  {}

  lemma Members(s: State, id: CaptureId)
    requires Inv(s) && id in s.active
    ensures CaptureShape(s, id, s.active[id]) && CapturePublished(s, s.active[id])
  {}

  lemma VerifiedWhenPublished(s: State, c: Capture)
    requires c.published <= |c.hashes| && Blobs(Ref(c.entries)) <= s.blobs
    ensures BlobsVerified(s, c)
  {
    forall e | e in c.entries && e.File? ensures e.sha256 in s.blobs {
      assert e.sha256 in Blobs(Ref(c.entries));
    }
  }

  // ---- temporary manifests ----

  /** The capture was cut off, by a crash or by an error of its own, between
      writing its temporary manifest and renaming it. */
  ghost predicate Interrupted(s: State, steps: seq<Step>, id: CaptureId)
    requires Legal(s, steps)
    decreases |steps|
  {
    steps != [] &&
      (|| (In(s, id, ManifestStaged) && (steps[0].Crash? || steps[0] == Fail(id)))
       || Interrupted(Apply(s, steps[0]), steps[1..], id))
  }

  /** A temporary manifest that no capture owns any more. */
  predicate Stray(s: State, id: CaptureId) {
    id in s.temps && id !in s.active
  }

  lemma StrayAfterStep(s: State, step: Step, id: CaptureId)
    requires AllShaped(s) && Enabled(s, step)
    ensures Stray(Apply(s, step), id) <==>
              Stray(s, id) || (In(s, id, ManifestStaged) && (step.Crash? || step == Fail(id)))
  {
    assert id in s.active ==> CaptureShape(s, id, s.active[id]);
  }

  lemma {:induction false} StrayAfterRun(s: State, steps: seq<Step>, id: CaptureId)
    requires AllShaped(s) && Legal(s, steps)
    ensures Stray(After(s, steps), id) <==> Stray(s, id) || Interrupted(s, steps, id)
    decreases |steps|
  {
    hide Apply, Enabled, AllShaped, Stray;
    if steps != [] {
      StrayAfterStep(s, steps[0], id);
      StepKeepsShape(s, steps[0]);
      StrayAfterRun(Apply(s, steps[0]), steps[1..], id);
    }
  }

  /** Reconciliation does not look for temporary manifest files: whenever nothing is
      active, those left are exactly the ones of interrupted captures, with or
      without a crash, and reconciliation leaves them all. */
  lemma TemporaryManifestSurvives(steps: seq<Step>, id: CaptureId)
    requires Legal(EMPTY, steps) && After(EMPTY, steps).active == map[]
    ensures id in Reconciled(After(EMPTY, steps)).temps <==> Interrupted(EMPTY, steps, id)
  {
    StrayAfterRun(EMPTY, steps, id);
  }

  /** It does happen: an empty capture that fails after staging its manifest. */
  lemma SomeTemporaryManifestSurvives() returns (steps: seq<Step>)
    ensures Legal(EMPTY, steps) && (forall step :: step in steps ==> !step.Crash?)
    ensures var s := After(EMPTY, steps); s.active == map[] && 0 in Reconciled(s).temps
  {
    hide Legal, After;
    var s := EMPTY;
    steps := [];
    NoSteps(EMPTY);
    steps, s := OneMore(steps, s, Begin(0));
    steps, s := OneMore(steps, s, MakeStaging(0));
    steps, s := OneMore(steps, s, JournalWalk(0));
    steps, s := OneMore(steps, s, FinishWalk(0, []));
    steps, s := OneMore(steps, s, AnnounceManifest(0));
    steps, s := OneMore(steps, s, StageManifest(0));
    steps, s := OneMore(steps, s, Fail(0));
  }

  lemma NoSteps(s: State)
    ensures Legal(s, []) && After(s, []) == s
  {}

  lemma {:induction false} Extended(s: State, steps: seq<Step>, step: Step)
    requires Legal(s, steps) && Enabled(After(s, steps), step)
    ensures Legal(s, steps + [step]) && After(s, steps + [step]) == Apply(After(s, steps), step)
    decreases |steps|
  {
    hide Apply, Enabled;
    if steps == [] {
      assert [step][1..] == [];
    } else {
      assert (steps + [step])[1..] == steps[1..] + [step];
      Extended(Apply(s, steps[0]), steps[1..], step);
    }
  }

  lemma OneMore(steps: seq<Step>, s: State, step: Step) returns (steps': seq<Step>, s': State)
    requires Legal(EMPTY, steps) && After(EMPTY, steps) == s && Enabled(s, step)
    ensures Legal(EMPTY, steps') && After(EMPTY, steps') == s' && s' == Apply(s, step)
    ensures steps' == steps + [step]
  {
    Extended(EMPTY, steps, step);
    steps', s' := steps + [step], Apply(s, step);
  }

  // ---- the store, updated in place ----

  lemma AfterPublishing(s: State, id: CaptureId)
    requires AllShaped(s) && Enabled(s, PublishBlob(id))
    ensures var t := Apply(s, PublishBlob(id));
            AllShaped(t) && (Enabled(t, PublishBlob(id)) || Enabled(t, AnnounceManifest(id)))
    ensures id in s.active && id in s.staging && s.active[id].published < |s.active[id].hashes|
  {
    var t := Apply(s, PublishBlob(id));
    StepKeepsShape(s, PublishBlob(id));
    assert CaptureShape(t, id, t.active[id]);
  }

  /** Both removals for one journal, in either order. */
  lemma Cleared(start: State, steps: seq<Step>, s: State, id: CaptureId, journalFirst: bool) returns (more: seq<Step>)
    requires Legal(start, steps) && After(start, steps) == s && s.active == map[] && s.transactionsDir
    requires forall step :: step in steps ==> step.ClearStaging? || step.ClearJournal?
    ensures Legal(start, more) && After(start, more) == s.(staging := s.staging - {id}, journals := s.journals - {id})
    ensures forall step :: step in more ==> step.ClearStaging? || step.ClearJournal?
  {
    hide Legal, After;
    var first := if journalFirst then ClearJournal(id) else ClearStaging(id);
    var second := if journalFirst then ClearStaging(id) else ClearJournal(id);
    Extended(start, steps, first);
    Extended(start, steps + [first], second);
    more := steps + [first] + [second];
  }

  class CaptureStore {
    var blobs: set<Hash>
    var manifests: set<Ref>
    var staging: map<CaptureId, set<Hash>>
    var journals: map<CaptureId, Journal>
    var temps: set<CaptureId>
    var transactionsDir: bool
    var active: map<CaptureId, Capture>

    function Model(): State
      reads this
    {
      State(blobs, manifests, staging, journals, temps, transactionsDir, active)
    }

    constructor ()
      ensures Model() == EMPTY
    {
      blobs, manifests, staging, journals, temps, transactionsDir, active := {}, {}, map[], map[], {}, false, map[];
    }

    /** `publishBlob`: the staged file moves to its final path, replacing or joining
        whatever copy is there. Nothing published is lost, nobody else's staging is
        touched, and the capture can go on. */
    method PublishStagedBlob(id: CaptureId)
      requires AllShaped(Model()) && Enabled(Model(), PublishBlob(id))
      modifies this`blobs, this`staging, this`active
      ensures Model() == Apply(old(Model()), PublishBlob(id))
      ensures old(active)[id].hashes[old(active)[id].published] in blobs && old(blobs) <= blobs
      ensures forall other :: other != id ==>
                && (other in staging <==> other in old(staging))
                      && (other in staging ==> staging[other] == old(staging)[other])
                && (other in active <==> other in old(active))
                      && (other in active ==> active[other] == old(active)[other])
      ensures AllShaped(Model())
      ensures Enabled(Model(), PublishBlob(id)) || Enabled(Model(), AnnounceManifest(id))
    {
      AfterPublishing(Model(), id);
      hide CaptureShape, AllShaped, Enabled;
      var c := active[id];
      var hash := c.hashes[c.published];
      blobs := blobs + {hash};
      staging := staging[id := staging[id] - {hash}];
      active := active[id := c.(published := c.published + 1)];
    }

    /** `publishManifestNoClobber`: verify every blob, then rename. */
    method PublishStagedManifest(id: CaptureId) returns (ok: bool)
      requires In(Model(), id, ManifestStaged) && active[id].published <= |active[id].hashes|
      modifies this`manifests, this`temps, this`active
      ensures ok == Enabled(old(Model()), PublishManifest(id))
      ensures ok <==> var c := old(active)[id];
                      forall e :: e in c.entries && e.File? ==>
                        e.sha256 in c.hashes[..c.published] || e.sha256 in old(blobs)
      ensures ok ==> Model() == Apply(old(Model()), PublishManifest(id))
      ensures !ok ==> Model() == Apply(old(Model()), Fail(id))
    {
      var c := active[id];
      var publishedHashes := Elements(c.hashes[..c.published]);
      for i := 0 to |c.entries|
        invariant Model() == old(Model())
        invariant forall j :: 0 <= j < i && c.entries[j].File? ==>
                    c.entries[j].sha256 in publishedHashes || c.entries[j].sha256 in blobs
      {
        if c.entries[i].File? && c.entries[i].sha256 !in publishedHashes && c.entries[i].sha256 !in blobs {
          assert c.entries[i] in c.entries;
          active := active - {id};
          return false;
        }
      }
      manifests, temps := manifests + {Ref(c.entries)}, temps - {id};
      active := active[id := c.(phase := ManifestPublished)];
      return true;
    }

    /** `runStartupReconciliation`: first by journal, then the staging directories
        no journal names, one removal after another. */
    method RunStartupReconciliation() returns (removed: nat, ghost steps: seq<Step>)
      requires active == map[]
      modifies this`staging, this`journals
      ensures Model() == Reconciled(old(Model()))
      ensures Legal(old(Model()), steps) && Model() == After(old(Model()), steps)
      ensures forall step :: step in steps ==> step.ClearStaging? || step.ClearJournal?
    {
      hide Legal, After;
      steps := [];
      NoSteps(Model());
      removed := 0;
      if !transactionsDir { return; }
      var files := journals.Keys;
      while files != {}
        invariant files == journals.Keys
        invariant Model() == old(Model()).(staging := staging, journals := journals)
        invariant Legal(old(Model()), steps) && Model() == After(old(Model()), steps)
        invariant forall step :: step in steps ==> step.ClearStaging? || step.ClearJournal?
        decreases files
      {
        var id :| id in files;
        files := files - {id};
        steps := Cleared(old(Model()), steps, Model(), id, journals[id] == JCommitted);
        if journals[id] == JCommitted {
          journals := journals - {id};
          staging := staging - {id};
        } else {
          staging := staging - {id};
          journals := journals - {id};
        }
        removed := removed + 1;
      }
      var entries := staging.Keys;
      while entries != {}
        invariant entries == staging.Keys
        invariant Model() == old(Model()).(staging := staging, journals := map[])
        invariant Legal(old(Model()), steps) && Model() == After(old(Model()), steps)
        invariant forall step :: step in steps ==> step.ClearStaging? || step.ClearJournal?
        decreases entries
      {
        var id :| id in entries;
        entries := entries - {id};
        Extended(old(Model()), steps, ClearStaging(id));
        steps := steps + [ClearStaging(id)];
        staging := staging - {id};
        removed := removed + 1;
      }
    }
  }
}
