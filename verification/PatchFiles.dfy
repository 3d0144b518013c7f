/** What a patch does to a workspace, file by file. */
module PatchFiles {
  import opened Common
  import opened PatchText
  import opened PatchHunks
  import opened PatchParser
  import opened PatchApply

  /** The files agree everywhere but at these paths. */
  ghost predicate SameBut(a: Files, b: Files, paths: set<Path>) {
    forall path :: path !in paths ==> (path in a <==> path in b) && (path in a ==> a[path] == b[path])
  }

  /** An added file has the given text; it keeps the mode of the file it replaces, and a
      new one is readable by all and writable by its owner. */
  lemma AddDoes(resolve: Resolver, files: Files, path: string, content: string, at: Path)
    requires resolve(path) == Some(at)
    ensures var after := RunAction(resolve, files, AddFile(path, content));
            && after.Some? && SameBut(files, after.value, {at}) && at in after.value
            && after.value[at].content == content
            && after.value[at].mode == (if at in files then files[at].mode else 6 * 64 + 4 * 8 + 4)
  {}

  /** A deleted file must be there, and is gone. */
  lemma DeleteDoes(resolve: Resolver, files: Files, path: string, at: Path)
    requires resolve(path) == Some(at)
    ensures var after := RunAction(resolve, files, DeleteFile(path));
            && (after.Some? <==> at in files)
            && (after.Some? ==> SameBut(files, after.value, {at}) && at !in after.value)
  {}

  /** An updated file must be there and its hunks must all be found; it has the patched
      text and its old mode, at the destination if there is one and then no longer at
      its old path. */
  lemma UpdateDoes(resolve: Resolver, files: Files, path: string, moveTo: string, hunks: seq<Hunk>, at: Path)
      returns (to: Path)
    requires resolve(path) == Some(at)
    ensures moveTo == "" ==> to == at
    ensures moveTo != "" && resolve(moveTo).Some? ==> resolve(moveTo) == Some(to)
    ensures var after := RunAction(resolve, files, UpdateFile(path, moveTo, hunks));
            && (after.Some? <==> at in files && Patched(files[at].content, hunks).Some?
                                 && (moveTo != "" ==> resolve(moveTo).Some?))
            && (after.Some? ==>
                  && SameBut(files, after.value, {at, to}) && to in after.value
                  && (at in after.value <==> at == to)
                  && Some(after.value[to].content) == Patched(files[at].content, hunks)
                  && after.value[to].mode == files[at].mode)
  {
    hide Patched;
    to := if moveTo == "" || resolve(moveTo).None? then at else resolve(moveTo).value;
  }

  /** A path that is refused fails its action. */
  lemma RefusedPathFails(resolve: Resolver, files: Files, action: Action)
    requires resolve(action.path) == None
    ensures RunAction(resolve, files, action) == None
  {}

  /** The action names the path. */
  ghost predicate Names(resolve: Resolver, action: Action, path: Path) {
    || resolve(action.path) == Some(path)
    || (action.UpdateFile? && action.moveTo != "" && resolve(action.moveTo) == Some(path))
  }

  lemma {:induction false} OneMoreAction(resolve: Resolver, files: Files, actions: seq<Action>, action: Action)
    ensures RunActions(resolve, files, actions + [action])
              == match RunActions(resolve, files, actions)
                 case None => None
                 case Some(after) => RunAction(resolve, after, action)
    decreases |actions|
  {
    hide RunAction;
    if actions == [] {
      assert ([] + [action])[1..] == [];
    } else {
      assert (actions + [action])[1..] == actions[1..] + [action];
      var after := RunAction(resolve, files, actions[0]);
      if after.Some? { OneMoreAction(resolve, after.value, actions[1..], action); }
    }
  }

  lemma OneActionLeaves(resolve: Resolver, files: Files, action: Action, path: Path)
    requires RunAction(resolve, files, action).Some? && !Names(resolve, action, path)
    ensures SameAt(files, RunAction(resolve, files, action).value, path)
  {
    hide Patched;
  }

  ghost predicate SameAt(a: Files, b: Files, path: Path) {
    (path in a <==> path in b) && (path in a ==> a[path] == b[path])
  }

  /** A patch leaves every file alone that none of its actions names. */
  lemma {:induction false} OthersAreLeftAlone(resolve: Resolver, files: Files, actions: seq<Action>, path: Path)
    requires RunActions(resolve, files, actions).Some?
    requires forall action :: action in actions ==> !Names(resolve, action, path)
    ensures SameAt(files, RunActions(resolve, files, actions).value, path)
    decreases |actions|
  {
    hide RunAction, Names;
    if actions != [] {
      assert actions[0] in actions;
      OneActionLeaves(resolve, files, actions[0], path);
      OthersAreLeftAlone(resolve, RunAction(resolve, files, actions[0]).value, actions[1..], path);
    }
  }

  /** After any actions, what the last one on a file says is what is there: an added
      file has just the added text and a deleted one is gone, whatever the actions
      after it do elsewhere. */
  lemma LastWord(resolve: Resolver, files: Files, before: seq<Action>, action: Action, after: seq<Action>, at: Path)
    requires RunActions(resolve, files, before + [action] + after).Some?
    requires resolve(action.path) == Some(at) && forall later :: later in after ==> !Names(resolve, later, at)
    ensures var result := RunActions(resolve, files, before + [action] + after).value;
            && (action.AddFile? ==> at in result && result[at].content == action.content)
            && (action.DeleteFile? ==> at !in result)
  {
    hide RunAction, Names, SameAt;
    RunsOn(resolve, files, before + [action], after);
    OneMoreAction(resolve, files, before, action);
    var files1 := RunActions(resolve, files, before).value;
    var files2 := RunAction(resolve, files1, action).value;
    OthersAreLeftAlone(resolve, files2, after, at);
    assert SameAt(files2, RunActions(resolve, files2, after).value, at);
    match action
    case AddFile(path, content) => AddDoes(resolve, files1, path, content, at);
      Same(files2, RunActions(resolve, files2, after).value, at);
    case DeleteFile(path) => DeleteDoes(resolve, files1, path, at);
      Same(files2, RunActions(resolve, files2, after).value, at);
    case UpdateFile(_, _, _) =>
  }

  lemma Same(a: Files, b: Files, path: Path)
    requires SameAt(a, b, path)
    ensures (path in a <==> path in b) && (path in a ==> a[path] == b[path])
  {}

  lemma {:induction false} RunsOn(resolve: Resolver, files: Files, a: seq<Action>, b: seq<Action>)
    ensures RunActions(resolve, files, a + b)
              == match RunActions(resolve, files, a)
                 case None => None
                 case Some(after) => RunActions(resolve, after, b)
    decreases |a|
  {
    hide RunAction;
    if a == [] {
      LeftUnit(b);
    } else {
      assert (a + b)[1..] == a[1..] + b;
      var after := RunAction(resolve, files, a[0]);
      if after.Some? { RunsOn(resolve, after.value, a[1..], b); }
    }
  }
}
