/** What a capture leaves behind, told from the steps it took: its manifest lists what
    its walk met, its journal says how far it is, and an ended capture leaves no file
    of its own. */
module SnapshotCaptureTrace {
  import opened Common
  import opened SnapshotTypes
  import opened SnapshotCapture

  /** What a step adds to the walk of a capture. */
  function Met(step: Step, id: CaptureId): multiset<ManifestEntry> {
    if step.StageFile? && step.id == id then multiset{File(step.path, step.hash)}
    else if step.StageLink? && step.id == id then multiset{Symlink(step.path, step.target)}
    else multiset{}
  }

  /** The files and links that the walk of a capture has met since it began. */
  function Walked(steps: seq<Step>, id: CaptureId): multiset<ManifestEntry> {
    if steps == [] || steps[|steps| - 1] == Begin(id) then multiset{}
    else Walked(steps[..|steps| - 1], id) + Met(steps[|steps| - 1], id)
  }

  /** The journal of a capture says how far it is. */
  ghost predicate JournalTells(s: State, id: CaptureId, phase: Phase) {
    match phase
    case Starting => id !in s.journals && id !in s.staging
    case Staged => id !in s.journals
    case Walking => id in s.journals && s.journals[id] == JWalking
    case Publishing => id in s.journals && s.journals[id] == JPublishedBlobs
    case Committed => id in s.journals && s.journals[id] == JCommitted
    case Cleaning => id in s.journals && s.journals[id] in {JCommitted, JWalking} && id !in s.staging
    case _ => id in s.journals && s.journals[id] == JPublishedManifest
  }

  ghost predicate Traced(s: State, steps: seq<Step>, id: CaptureId) {
    id in s.active ==>
      && multiset(s.active[id].entries) == Walked(steps, id)
      && JournalTells(s, id, s.active[id].phase)
      && (s.active[id].phase != ManifestStaged ==> id !in s.temps)
  }

  /** The manifest landed at some step, with what the walk of that capture had met. */
  ghost predicate LandedAt(steps: seq<Step>, n: nat, ref: Ref) {
    && n < |steps| && steps[n].PublishManifest?
    && multiset(ref.entries) == Walked(steps[..n], steps[n].id)
  }

  ghost predicate Landed(steps: seq<Step>, ref: Ref) {
    exists n :: LandedAt(steps, n, ref)
  }

  ghost predicate AllTraced(s: State, steps: seq<Step>) {
    (forall id :: Traced(s, steps, id)) && forall ref :: ref in s.manifests ==> Landed(steps, ref)
  }

  lemma WalkedMore(steps: seq<Step>, step: Step, id: CaptureId)
    ensures Walked(steps + [step], id) == if step == Begin(id) then multiset{} else Walked(steps, id) + Met(step, id)
  {
    assert (steps + [step])[..|steps|] == steps;
  }

  lemma LandedStays(steps: seq<Step>, step: Step, ref: Ref)
    requires Landed(steps, ref)
    ensures Landed(steps + [step], ref)
  {
    var n: nat :| LandedAt(steps, n, ref);
    assert (steps + [step])[..n] == steps[..n];
    assert LandedAt(steps + [step], n, ref);
  }

  lemma LandsNow(s: State, steps: seq<Step>, id: CaptureId)
    requires Traced(s, steps, id) && Enabled(s, PublishManifest(id))
    ensures Landed(steps + [PublishManifest(id)], Ref(s.active[id].entries))
  {
    assert (steps + [PublishManifest(id)])[..|steps|] == steps;
    assert LandedAt(steps + [PublishManifest(id)], |steps|, Ref(s.active[id].entries));
  }

  lemma OwnTraced(s: State, steps: seq<Step>, step: Step)
    requires Enabled(s, step) && Own(step) && Traced(s, steps, step.id)
    ensures Traced(Apply(s, step), steps + [step], step.id)
  {
    hide Walked, Apply, Enabled, JournalTells;
    OwnWalk(s, steps, step);
    OwnJournal(s, steps, step);
  }

  lemma OwnWalk(s: State, steps: seq<Step>, step: Step)
    requires Enabled(s, step) && Own(step)
    requires step.id in s.active ==> multiset(s.active[step.id].entries) == Walked(steps, step.id)
    ensures var t := Apply(s, step);
            step.id in t.active ==> multiset(t.active[step.id].entries) == Walked(steps + [step], step.id)
  {
    WalkedMore(steps, step, step.id);
    hide Walked;
    match step
    case StageFile(id, path, hash) =>
      assert multiset(s.active[id].entries + [File(path, hash)])
          == multiset(s.active[id].entries) + multiset{File(path, hash)};
    case StageLink(id, path, target) =>
      assert multiset(s.active[id].entries + [Symlink(path, target)])
          == multiset(s.active[id].entries) + multiset{Symlink(path, target)};
    case _ =>
  }

  lemma OwnJournal(s: State, steps: seq<Step>, step: Step)
    requires Enabled(s, step) && Own(step)
    requires step.id in s.active ==>
               JournalTells(s, step.id, s.active[step.id].phase)
               && (s.active[step.id].phase != ManifestStaged ==> step.id !in s.temps)
    ensures var t := Apply(s, step);
            step.id in t.active ==>
              JournalTells(t, step.id, t.active[step.id].phase)
              && (t.active[step.id].phase != ManifestStaged ==> step.id !in t.temps)
  {}

  lemma OtherTraced(s: State, steps: seq<Step>, step: Step, id: CaptureId)
    requires Enabled(s, step) && Traced(s, steps, id) && (Own(step) ==> step.id != id)
    ensures Traced(Apply(s, step), steps + [step], id)
  {
    WalkedMore(steps, step, id);
    OtherIsLeft(s, step, id);
    hide Walked, Apply, Enabled;
  }

  lemma OtherIsLeft(s: State, step: Step, id: CaptureId)
    requires Enabled(s, step) && (Own(step) ==> step.id != id)
    ensures var t := Apply(s, step);
            id in t.active ==>
              && id in s.active && t.active[id] == s.active[id]
              && (id in s.staging <==> id in t.staging) && (id in s.temps <==> id in t.temps)
              && (id in s.journals <==> id in t.journals)
              && (id in s.journals ==> t.journals[id] == s.journals[id])
    ensures step.StageFile? || step.StageLink? || step.Begin? ==> Own(step)
  {}

  lemma StepTraced(s: State, steps: seq<Step>, step: Step)
    requires AllTraced(s, steps) && Enabled(s, step)
    ensures AllTraced(Apply(s, step), steps + [step])
  {
    var t := Apply(s, step);
    hide Traced, Landed;
    forall id ensures Traced(t, steps + [step], id) {
      if Own(step) && step.id == id { OwnTraced(s, steps, step); } else { OtherTraced(s, steps, step, id); }
    }
    forall ref | ref in t.manifests ensures Landed(steps + [step], ref) {
      if ref in s.manifests {
        LandedStays(steps, step, ref);
      } else {
        LandsNow(s, steps, step.id);
      }
    }
  }

  lemma {:induction false} TracedAlongRun(s: State, done: seq<Step>, steps: seq<Step>)
    requires AllTraced(s, done) && Legal(s, steps)
    ensures AllTraced(After(s, steps), done + steps)
    decreases |steps|
  {
    hide AllTraced, Apply, Enabled;
    if steps == [] {
      assert done + [] == done;
    } else {
      StepTraced(s, done, steps[0]);
      TracedAlongRun(Apply(s, steps[0]), done + [steps[0]], steps[1..]);
      HeadAndRest(steps);
      Assoc(done, [steps[0]], steps[1..]);
    }
  }

  /** Over every run: each manifest in the store lists exactly the files and links that
      the walk of its capture met, each as often as it was met; the journal of a capture
      under way says how far it is; and a capture that has ended leaves no staging
      directory, no journal and no temporary manifest. */
  lemma ManifestsAreWhatWasWalked(steps: seq<Step>)
    requires Legal(EMPTY, steps)
    ensures var s := After(EMPTY, steps);
            && (forall ref :: ref in s.manifests ==>
                  exists n: nat :: n < |steps| && steps[n].PublishManifest?
                                   && multiset(ref.entries) == Walked(steps[..n], steps[n].id))
            && (forall id :: id in s.active ==> JournalTells(s, id, s.active[id].phase))
            && forall id :: Enabled(s, RemoveJournal(id)) ==>
                 var t := Apply(s, RemoveJournal(id));
                 id !in t.active && id !in t.staging && id !in t.journals && id !in t.temps
  {
    hide Walked;
    TracedAlongRun(EMPTY, [], steps);
    LeftUnit(steps);
    var s := After(EMPTY, steps);
    forall ref | ref in s.manifests
      ensures exists n: nat :: n < |steps| && steps[n].PublishManifest?
                               && multiset(ref.entries) == Walked(steps[..n], steps[n].id)
    {
      assert Landed(steps, ref);
      var n: nat :| LandedAt(steps, n, ref);
    }
    forall id | id in s.active ensures JournalTells(s, id, s.active[id].phase) { assert Traced(s, steps, id); }
    forall id | Enabled(s, RemoveJournal(id))
      ensures var t := Apply(s, RemoveJournal(id));
              id !in t.active && id !in t.staging && id !in t.journals && id !in t.temps
    {
      assert Traced(s, steps, id);
    }
  }
}
