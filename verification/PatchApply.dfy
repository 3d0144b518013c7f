/** The staged overlay of `applyPatch` (src/apply-patch.ts) refines running the
    actions one by one on the files. */
module PatchApply {
  import opened Common
  import opened PatchText
  import opened PatchHunks
  import opened PatchParser

  type Path = string

  datatype TextFile = TextFile(content: string, mode: nat)

  type Files = map<Path, TextFile>

  /** The mode of a file created without one. */
  const DEFAULT_MODE := 420

  /** How a patch path becomes a canonical path, or is refused
      (`resolveConfinedPath`). */
  type Resolver = string -> Option<Path>

  // ---- one by one ----

  /** One action on plain files; None when it fails. */
  ghost function RunAction(resolve: Resolver, files: Files, action: Action): Option<Files> {
    var target := resolve(action.path);
    if target.None? then None
    else
      var path := target.value;
      match action
      case AddFile(_, content) => Some(files[path := TextFile(content, if path in files then files[path].mode
                                                                else DEFAULT_MODE)])
      case DeleteFile(_) => if path in files then Some(files - {path}) else None
      case UpdateFile(_, moveTo, hunks) =>
        if path !in files then None
        else
          var updated := Patched(files[path].content, hunks);
          if updated.None? then None
          else if moveTo == "" then Some(files[path := TextFile(updated.value, files[path].mode)])
          else
            var destination := resolve(moveTo);
            if destination.None? then None
            else Some((files - {path})[destination.value := TextFile(updated.value, files[path].mode)])
  }

  ghost function RunActions(resolve: Resolver, files: Files, actions: seq<Action>): Option<Files>
    decreases |actions|
  {
    if actions == [] then Some(files)
    else
      match RunAction(resolve, files, actions[0])
      case None => None
      case Some(files') => RunActions(resolve, files', actions[1..])
  }

  // ---- staged ----

  /** An entry of the staged map: a planned (or merely read) file, or null. */
  datatype StagedFile = Gone | Planned(content: string, mode: Option<nat>)

  type Staged = map<Path, StagedFile>

  function Disk(files: Files, path: Path): StagedFile {
    if path in files then Planned(files[path].content, Some(files[path].mode)) else Gone
  }

  /** `readStagedOptional`: through the overlay, remembering what was read. */
  function ReadStaged(files: Files, staged: Staged, path: Path): (StagedFile, Staged) {
    if path in staged then (staged[path], staged)
    else (Disk(files, path), staged[path := Disk(files, path)])
  }

  ghost function StageAction(resolve: Resolver, files: Files, staged: Staged, action: Action): Option<Staged> {
    var target := resolve(action.path);
    if target.None? then None
    else
      var path := target.value;
      var (file, staged1) := ReadStaged(files, staged, path);
      match action
      case AddFile(_, content) => Some(staged1[path := Planned(content, if file.Gone? then None else file.mode)])
      case DeleteFile(_) => if file.Gone? then None else Some(staged1[path := Gone])
      case UpdateFile(_, moveTo, hunks) =>
        if file.Gone? then None
        else
          var updated := Patched(file.content, hunks);
          if updated.None? then None
          else if moveTo == "" then Some(staged1[path := Planned(updated.value, file.mode)])
          else
            var destination := resolve(moveTo);
            if destination.None? then None
            else if destination.value == path then Some((staged1 - {path})[path := Planned(updated.value, file.mode)])
            else
              var (_, staged2) := ReadStaged(files, staged1, destination.value);
              Some(staged2[destination.value := Planned(updated.value, file.mode)][path := Gone])
  }

  ghost function StageActions(resolve: Resolver, files: Files, staged: Staged, actions: seq<Action>): Option<Staged>
    decreases |actions|
  {
    if actions == [] then Some(staged)
    else
      match StageAction(resolve, files, staged, actions[0])
      case None => None
      case Some(staged') => StageActions(resolve, files, staged', actions[1..])
  }

  function Written(file: StagedFile): TextFile
    requires file.Planned?
  {
    TextFile(file.content, if file.mode.Some? then file.mode.value else DEFAULT_MODE)
  }

  /** The files as seen through the overlay. */
  function View(files: Files, staged: Staged): Files {
    map path | path in files.Keys + staged.Keys && (path in staged ==> staged[path].Planned?) ::
      if path in staged then Written(staged[path]) else files[path]
  }

  lemma ReadingIsInvisible(files: Files, staged: Staged, path: Path)
    ensures var (file, staged') := ReadStaged(files, staged, path);
            && View(files, staged') == View(files, staged)
            && path in staged' && staged'[path] == file
            && (file.Gone? <==> path !in View(files, staged))
            && (file.Planned? ==> View(files, staged)[path] == Written(file))
  {}

  lemma PlanningIsWriting(files: Files, staged: Staged, path: Path, file: StagedFile)
    requires file.Planned?
    ensures View(files, staged[path := file]) == View(files, staged)[path := Written(file)]
  {}

  lemma PlanningIsDeleting(files: Files, staged: Staged, path: Path)
    ensures View(files, staged[path := Gone]) == View(files, staged) - {path}
  {}

  /** A move onto the path it came from is an update in place. */
  lemma MoveOntoItself(view: Files, staged: Staged, path: Path, next: StagedFile)
    requires next.Planned?
    ensures (staged - {path})[path := next] == staged[path := next]
    ensures (view - {path})[path := Written(next)] == view[path := Written(next)]
  {}

  /** A move plans the destination and drops the source, in either order. */
  lemma PlanningIsMoving(files: Files, staged: Staged, path: Path, destination: Path, next: StagedFile)
    requires next.Planned? && destination != path
    ensures var (_, read) := ReadStaged(files, staged, destination);
            View(files, read[destination := next][path := Gone])
              == (View(files, staged) - {path})[destination := Written(next)]
  {
    ReadingIsInvisible(files, staged, destination);
    var (_, read) := ReadStaged(files, staged, destination);
    PlanningIsWriting(files, read, destination, next);
    PlanningIsDeleting(files, read[destination := next], path);
    var view := View(files, staged);
    assert view[destination := Written(next)] - {path} == (view - {path})[destination := Written(next)];
  }

  /** One staged action is one action on the view, and fails with it. */
  lemma StageRefinesRun(resolve: Resolver, files: Files, staged: Staged, action: Action)
    ensures var s, r := StageAction(resolve, files, staged, action), RunAction(resolve, View(files, staged), action);
            && s.Some? == r.Some?
            && (s.Some? ==> View(files, s.value) == r.value)
  {
    hide View, ReadStaged, Patched;
    var target := resolve(action.path);
    if target.Some? {
      var path := target.value;
      ReadingIsInvisible(files, staged, path);
      var (file, staged1) := ReadStaged(files, staged, path);
      match action
      case AddFile(_, content) =>
        PlanningIsWriting(files, staged1, path, Planned(content, if file.Gone? then None else file.mode));
      case DeleteFile(_) => PlanningIsDeleting(files, staged1, path);
      case UpdateFile(_, moveTo, hunks) =>
        if file.Planned? && Patched(file.content, hunks).Some? {
          var next := Planned(Patched(file.content, hunks).value, file.mode);
          PlanningIsWriting(files, staged1, path, next);
          if moveTo != "" && resolve(moveTo).Some? {
            var destination := resolve(moveTo).value;
            if destination == path {
              MoveOntoItself(View(files, staged), staged1, path, next);
            } else {
              PlanningIsMoving(files, staged1, path, destination, next);
            }
          }
        }
    }
  }

  /** The whole list of actions: staging it and running it agree, on failure as
      on the resulting files. */
  lemma {:induction false} StagingRefinesRunning(resolve: Resolver, files: Files, staged: Staged, actions: seq<Action>)
    ensures var s, r := StageActions(resolve, files, staged, actions),
              RunActions(resolve, View(files, staged), actions);
            && s.Some? == r.Some?
            && (s.Some? ==> View(files, s.value) == r.value)
    decreases |actions|
  {
    if actions != [] {
      StageRefinesRun(resolve, files, staged, actions[0]);
      var s := StageAction(resolve, files, staged, actions[0]);
      if s.Some? { StagingRefinesRunning(resolve, files, s.value, actions[1..]); }
    }
  }

  lemma NothingStaged(files: Files)
    ensures View(files, map[]) == files
  {}

  // ---- the workspace ----

  class Workspace {
    const resolve: Resolver
    var files: Files

    constructor (resolve: Resolver, files: Files)
      ensures this.resolve == resolve && this.files == files
    {
      this.resolve, this.files := resolve, files;
    }

    /** One turn of the staging loop. */
    method Stage(staged: Staged, action: Action) returns (r: Option<Staged>)
      ensures r == StageAction(resolve, files, staged, action)
    {
      var target := resolve(action.path);
      if target.None? { return None; }
      var path := target.value;
      var (file, next) := ReadStaged(files, staged, path);
      match action {
        case AddFile(_, content) =>
          return Some(next[path := Planned(content, if file.Gone? then None else file.mode)]);
        case DeleteFile(_) =>
          if file.Gone? { return None; }
          return Some(next[path := Gone]);
        case UpdateFile(_, moveTo, hunks) =>
          if file.Gone? { return None; }
          var updated := ApplyHunks(file.content, hunks);
          if updated.None? { return None; }
          if moveTo == "" { return Some(next[path := Planned(updated.value, file.mode)]); }
          var destination := resolve(moveTo);
          if destination.None? { return None; }
          var same := destination.value == path;
          if !same {
            var (_, read) := ReadStaged(files, next, destination.value);
            next := read;
          } else {
            next := next - {path};
          }
          next := next[destination.value := Planned(updated.value, file.mode)];
          if !same { next := next[path := Gone]; }
          return Some(next);
      }
    }

    /** The commit: all writes, then all deletions. */
    method Commit(staged: Staged)
      modifies this`files
      ensures files == View(old(files), staged)
    {
      var left := staged.Keys;
      while left != {}
        invariant left <= staged.Keys
        invariant forall path :: path in files <==>
                    path in old(files) || (path in staged && path !in left && staged[path].Planned?)
        invariant forall path :: path in files ==>
                    files[path] == if path in staged && path !in left && staged[path].Planned?
                      then Written(staged[path]) else old(files)[path]
        decreases left
      {
        var path :| path in left;
        left := left - {path};
        if staged[path].Planned? { files := files[path := Written(staged[path])]; }
      }
      left := staged.Keys;
      while left != {}
        invariant left <= staged.Keys
        invariant forall path :: path in files <==>
                    (path in old(files) || path in staged) && !(path in staged && path !in left && staged[path].Gone?)
                    && (path in old(files) || staged[path].Planned?)
        invariant forall path :: path in files ==>
                    files[path] == if path in staged && staged[path].Planned? then Written(staged[path])
                      else old(files)[path]
        decreases left
      {
        var path :| path in left;
        left := left - {path};
        if staged[path].Gone? { files := files - {path}; }
      }
      assert files == View(old(files), staged);
    }

    /** `applyPatch`: a patch that parses and whose actions all succeed leaves the
        files that running its actions in order leaves; any other patch leaves the
        files alone. */
    method ApplyPatch(patch: string) returns (ok: bool)
      modifies this`files
      ensures ok <==> Parse(patch).Ok? && RunActions(resolve, old(files), Parse(patch).value).Some?
      ensures ok ==> files == RunActions(resolve, old(files), Parse(patch).value).value
      ensures !ok ==> files == old(files)
    {
      hide View, Parse, StageAction, RunAction, RunActions;
      var parsed := ParsePatch(patch);
      if parsed.Err? { return false; }
      var actions := parsed.value;
      NothingStaged(files);
      StagingRefinesRunning(resolve, files, map[], actions);
      var staged: Staged := map[];
      for n := 0 to |actions|
        invariant files == old(files)
        invariant StageActions(resolve, files, staged, actions[n..]) == StageActions(resolve, files, map[], actions)
      {
        assert actions[n..][0] == actions[n] && actions[n..][1..] == actions[n + 1..];
        var next := Stage(staged, actions[n]);
        if next.None? { return false; }
        staged := next.value;
      }
      assert actions[|actions|..] == [];
      Commit(staged);
      return true;
    }
  }
}
