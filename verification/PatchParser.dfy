/** The patch format: `parsePatch` and `patchLines` of src/apply-patch.ts, and a
    printer of the same format. */
module PatchParser {
  import opened Common
  import opened PatchText
  import opened PatchHunks

  datatype Result<+T> = Ok(value: T) | Err

  /** An absent move destination is the empty path (both are falsy in `applyPatch`). */
  datatype Action =
    | AddFile(path: string, content: string)
    | DeleteFile(path: string)
    | UpdateFile(path: string, moveTo: string, hunks: seq<Hunk>)

  const BEGIN := "*** Begin Patch"
  const END := "*** End Patch"
  const ADD := "*** Add File: "
  const DELETE := "*** Delete File: "
  const UPDATE := "*** Update File: "
  const MOVE := "*** Move to: "
  const ENVIRONMENT := "*** Environment ID: "
  const END_OF_FILE := "*** End of File"
  const NO_NEWLINE := "\\ No newline at end of file"

  predicate TopLevel(line: string) {
    var trimmed := Trim(line);
    StartsWith(trimmed, ADD) || StartsWith(trimmed, DELETE) || StartsWith(trimmed, UPDATE)
      || StartsWith(trimmed, ENVIRONMENT)
  }

  // ---- the grammar ----

  /** The body of an added file: lines up to the next header, each after a +. */
  function AddBody(lines: seq<string>): Result<(seq<string>, seq<string>)> {
    if lines == [] || TopLevel(lines[0]) then Ok(([], lines))
    else if !StartsWith(lines[0], "+") then Err
    else
      match AddBody(lines[1..])
      case Err => Err
      case Ok((content, rest)) => Ok(([lines[0][1..]] + content, rest))
  }

  datatype Current = NoHunk | InHunk(hunk: Hunk)

  /** Closing the current hunk: it must not be empty. */
  function Finished(current: Current): Result<seq<Hunk>> {
    if current.NoHunk? then Ok([]) else if current.hunk.lines == [] then Err else Ok([current.hunk])
  }

  function Push(current: Current, kind: LineKind, text: string): Current {
    var hunk := if current.NoHunk? then Hunk([], "", false) else current.hunk;
    InHunk(hunk.(lines := hunk.lines + [HunkLine(kind, text)]))
  }

  datatype Turn = Stop | Fail | Continue(done: seq<Hunk>, current: Current)

  /** What one line does to the hunks of an update. */
  function ReadHunkLine(line: string, current: Current): Turn {
    var trimmed := Trim(line);
    if current.NoHunk? && trimmed == "" then Continue([], current)
    else if trimmed == END_OF_FILE then
      if current.NoHunk? then Fail else Continue([], InHunk(current.hunk.(endOfFile := true)))
    else if (current.NoHunk? || !StartsWith(line, " ")) && TopLevel(line) then Stop
    else if StartsWith(trimmed, "@@") && !StartsWith(line, " ") then
      match Finished(current)
      case Err => Fail
      case Ok(done) => Continue(done, InHunk(Hunk([], Trim(trimmed[2..]), false)))
    else if StartsWith(line, " ") then Continue([], Push(current, Context, line[1..]))
    else if StartsWith(line, "+") then Continue([], Push(current, Add, line[1..]))
    else if StartsWith(line, "-") then Continue([], Push(current, Remove, line[1..]))
    else if line == NO_NEWLINE then Continue([], if current.NoHunk? then InHunk(Hunk([], "", false)) else current)
    else Fail
  }

  function WithRest(done: Result<seq<Hunk>>, rest: seq<string>): Result<(seq<Hunk>, seq<string>)> {
    match done case Err => Err case Ok(hunks) => Ok((hunks, rest))
  }

  function After(done: seq<Hunk>, r: Result<(seq<Hunk>, seq<string>)>): Result<(seq<Hunk>, seq<string>)> {
    match r case Err => Err case Ok((hunks, rest)) => Ok((done + hunks, rest))
  }

  function HunkBody(lines: seq<string>, current: Current): Result<(seq<Hunk>, seq<string>)> {
    if lines == [] then WithRest(Finished(current), [])
    else
      match ReadHunkLine(lines[0], current)
      case Stop => WithRest(Finished(current), lines)
      case Fail => Err
      case Continue(done, next) => After(done, HunkBody(lines[1..], next))
  }

  /** One action, or None for a line that carries none. */
  function ParseOne(lines: seq<string>): Result<(Option<Action>, seq<string>)>
    requires lines != []
  {
    var header := Trim(lines[0]);
    var rest := lines[1..];
    if header == "" then Ok((None, rest))
    else if StartsWith(header, ENVIRONMENT) then
      if Trim(header[|ENVIRONMENT|..]) == "" then Err else Ok((None, rest))
    else if StartsWith(header, ADD) then
      match AddBody(rest)
      case Err => Err
      case Ok((content, rest')) =>
        if content == [] then Err else Ok((Some(AddFile(header[|ADD|..], Join(content) + "\n")), rest'))
    else if StartsWith(header, DELETE) then Ok((Some(DeleteFile(header[|DELETE|..])), rest))
    else if StartsWith(header, UPDATE) then
      var moves := rest != [] && StartsWith(Trim(rest[0]), MOVE);
      var moveTo := if moves then Trim(rest[0])[|MOVE|..] else "";
      match HunkBody(if moves then rest[1..] else rest, NoHunk)
      case Err => Err
      case Ok((hunks, rest')) =>
        if hunks == [] && moveTo == "" then Err else Ok((Some(UpdateFile(header[|UPDATE|..], moveTo, hunks)), rest'))
    else Err
  }

  lemma {:induction false} AddBodyShrinks(lines: seq<string>)
    ensures AddBody(lines).Ok? ==> |AddBody(lines).value.1| <= |lines|
  {
    if lines != [] { AddBodyShrinks(lines[1..]); }
  }

  lemma {:induction false} HunkBodyShrinks(lines: seq<string>, current: Current)
    ensures HunkBody(lines, current).Ok? ==> |HunkBody(lines, current).value.1| <= |lines|
  {
    if lines != [] {
      match ReadHunkLine(lines[0], current)
      case Continue(_, next) => HunkBodyShrinks(lines[1..], next);
      case _ =>
    }
  }

  lemma ParseOneShrinks(lines: seq<string>)
    requires lines != []
    ensures ParseOne(lines).Ok? ==> |ParseOne(lines).value.1| < |lines|
  {
    hide ReadHunkLine, Trim, TopLevel;
    var rest := lines[1..];
    AddBodyShrinks(rest);
    HunkBodyShrinks(rest, NoHunk);
    if rest != [] { HunkBodyShrinks(rest[1..], NoHunk); }
  }

  function Prepend(head: seq<Action>, r: Result<seq<Action>>): Result<seq<Action>> {
    match r case Err => Err case Ok(actions) => Ok(head + actions)
  }

  function Listed(action: Option<Action>): seq<Action> {
    match action case None => [] case Some(a) => [a]
  }

  function ParseActions(lines: seq<string>): Result<seq<Action>>
    decreases |lines|
  {
    if lines == [] then Ok([])
    else
      ParseOneShrinks(lines);
      match ParseOne(lines)
      case Err => Err
      case Ok((action, rest)) => Prepend(Listed(action), ParseActions(rest))
  }

  predicate HeredocStart(line: string) {
    line == "<<EOF" || line == "<<'EOF'" || line == "<<\"EOF\""
  }

  /** `patchLines`: normalise, trim, split, and unwrap a heredoc. */
  function PatchLines(patch: string): seq<string> {
    var lines := Split(Trim(DropCr(patch)));
    var first, last := Trim(lines[0]), Trim(lines[|lines| - 1]);
    if HeredocStart(first) && |last| >= 3 && last[|last| - 3..] == "EOF" && |lines| >= 4
    then lines[1..|lines| - 1] else lines
  }

  function Parse(patch: string): Result<seq<Action>> {
    var lines := PatchLines(patch);
    if |lines| < 2 || Trim(lines[0]) != BEGIN || Trim(lines[|lines| - 1]) != END then Err
    else
      match ParseActions(lines[1..|lines| - 1])
      case Err => Err
      case Ok(actions) => if actions == [] then Err else Ok(actions)
  }

  // ---- the parser as a loop over an index ----

  /** `parsePatch`: an index over the lines and a mutable current hunk. */
  method ParsePatch(patch: string) returns (r: Result<seq<Action>>)
    ensures r == Parse(patch)
  {
    hide ReadHunkLine, Trim, TopLevel, HunkBody, AddBody, ParseOne, PatchLines;
    var all := PatchLines(patch);
    if |all| < 2 || Trim(all[0]) != BEGIN || Trim(all[|all| - 1]) != END { return Err; }
    var lines := all[1..|all| - 1];
    var actions: seq<Action>, index: nat := [], 0;
    assert lines[0..] == lines;
    assert Prepend([], ParseActions(lines)) == ParseActions(lines) by {
      if ParseActions(lines).Ok? { assert [] + ParseActions(lines).value == ParseActions(lines).value; }
    }
    while index < |lines|
      invariant index <= |lines|
      invariant Prepend(actions, ParseActions(lines[index..])) == ParseActions(lines)
    {
      ghost var start := index;
      assert lines[start..][0] == lines[start] && lines[start..][1..] == lines[start + 1..];
      ParseOneShrinks(lines[start..]);
      var action;
      index, action := ReadAction(lines, index);
      if action.Err? { return Err; }
      ghost var rest := ParseActions(lines[index..]);
      if rest.Ok? { Assoc(actions, Listed(action.value), rest.value); }
      actions := actions + Listed(action.value);
    }
    assert lines[index..] == [] && actions + [] == actions;
    if |actions| == 0 { return Err; }
    return Ok(actions);
  }

  method ReadAction(lines: seq<string>, at: nat) returns (index: nat, action: Result<Option<Action>>)
    requires at < |lines|
    ensures action.Err? ==> ParseOne(lines[at..]).Err?
    ensures action.Ok? ==> at < index <= |lines| && ParseOne(lines[at..]) == Ok((action.value, lines[index..]))
  {
    hide ReadHunkLine, Trim, TopLevel, HunkBody, AddBody;
    var header := Trim(lines[at]);
    index := at + 1;
    assert lines[at..][0] == lines[at] && lines[at..][1..] == lines[index..];
    if header == "" { return index, Ok(None); }
    if StartsWith(header, ENVIRONMENT) {
      if Trim(header[|ENVIRONMENT|..]) == "" { return index, Err; }
      return index, Ok(None);
    }
    if StartsWith(header, ADD) {
      var content;
      index, content := ReadAddBody(lines, index);
      if content.Err? || |content.value| == 0 { return index, Err; }
      return index, Ok(Some(AddFile(header[|ADD|..], Join(content.value) + "\n")));
    }
    if StartsWith(header, DELETE) { return index, Ok(Some(DeleteFile(header[|DELETE|..]))); }
    if StartsWith(header, UPDATE) {
      var moveTo := "";
      if index < |lines| && StartsWith(Trim(lines[index]), MOVE) {
        moveTo := Trim(lines[index])[|MOVE|..];
        assert lines[index..][0] == lines[index] && lines[index..][1..] == lines[index + 1..];
        index := index + 1;
      }
      var hunks;
      index, hunks := ReadHunks(lines, index);
      if hunks.Err? || (|hunks.value| == 0 && moveTo == "") { return index, Err; }
      return index, Ok(Some(UpdateFile(header[|UPDATE|..], moveTo, hunks.value)));
    }
    return index, Err;
  }

  method ReadAddBody(lines: seq<string>, at: nat) returns (index: nat, content: Result<seq<string>>)
    requires at <= |lines|
    ensures content.Err? ==> AddBody(lines[at..]).Err?
    ensures content.Ok? ==> at <= index <= |lines| && AddBody(lines[at..]) == Ok((content.value, lines[index..]))
  {
    hide TopLevel;
    var read: seq<string> := [];
    index := at;
    if AddBody(lines[at..]).Ok? { assert [] + AddBody(lines[at..]).value.0 == AddBody(lines[at..]).value.0; }
    while index < |lines| && !TopLevel(lines[index])
      invariant at <= index <= |lines|
      invariant AddBody(lines[at..]) == match AddBody(lines[index..])
                                        case Err => Err
                                        case Ok((c, rest)) => Ok((read + c, rest))
    {
      var line := lines[index];
      assert lines[index..][0] == line && lines[index..][1..] == lines[index + 1..];
      if !StartsWith(line, "+") { return index, Err; }
      index := index + 1;
      ghost var more := AddBody(lines[index..]);
      if more.Ok? { assert read + ([line[1..]] + more.value.0) == (read + [line[1..]]) + more.value.0; }
      read := read + [line[1..]];
    }
    assert read + [] == read;
    return index, Ok(read);
  }

  method ReadHunks(lines: seq<string>, at: nat) returns (index: nat, hunks: Result<seq<Hunk>>)
    requires at <= |lines|
    ensures hunks.Err? ==> HunkBody(lines[at..], NoHunk).Err?
    ensures hunks.Ok? ==> at <= index <= |lines| && HunkBody(lines[at..], NoHunk) == Ok((hunks.value, lines[index..]))
  {
    hide ReadHunkLine;
    var done: seq<Hunk>, current: Current := [], NoHunk;
    index := at;
    ghost var whole := HunkBody(lines[at..], NoHunk);
    if whole.Ok? { assert [] + whole.value.0 == whole.value.0; }
    while index < |lines|
      invariant at <= index <= |lines|
      invariant After(done, HunkBody(lines[index..], current)) == whole
    {
      assert lines[index..][0] == lines[index] && lines[index..][1..] == lines[index + 1..];
      var turn := ReadHunkLine(lines[index], current);
      if turn.Stop? { break; }
      if turn.Fail? { return index, Err; }
      index := index + 1;
      ghost var more := HunkBody(lines[index..], turn.current);
      if more.Ok? { assert done + (turn.done + more.value.0) == (done + turn.done) + more.value.0; }
      done, current := done + turn.done, turn.current;
    }
    var last := Finished(current);
    if last.Err? { return index, Err; }
    assert index == |lines| ==> lines[index..] == [];
    return index, Ok(done + last.value);
  }

  // ---- printing ----

  function PrintHunkLine(line: HunkLine): string {
    (match line.kind case Context => " " case Add => "+" case Remove => "-") + line.text
  }

  function PrintHunkLines(lines: seq<HunkLine>): seq<string> {
    if lines == [] then [] else [PrintHunkLine(lines[0])] + PrintHunkLines(lines[1..])
  }

  function HunkHeader(hunk: Hunk): string {
    if hunk.changeContext == "" then "@@" else "@@ " + hunk.changeContext
  }

  /** A hunk, always with an explicit @@ line. */
  function PrintHunk(hunk: Hunk): seq<string> {
    [HunkHeader(hunk)] + PrintHunkLines(hunk.lines) + if hunk.endOfFile then [END_OF_FILE] else []
  }

  function PrintHunks(hunks: seq<Hunk>): seq<string> {
    if hunks == [] then [] else PrintHunk(hunks[0]) + PrintHunks(hunks[1..])
  }

  function Plus(lines: seq<string>): seq<string> {
    if lines == [] then [] else ["+" + lines[0]] + Plus(lines[1..])
  }

  /** The lines of a file that ends with a newline. */
  function BodyLines(content: string): seq<string> {
    Split(if content == "" then "" else content[..|content| - 1])
  }

  function PrintAction(action: Action): seq<string> {
    match action
    case AddFile(path, content) => [ADD + path] + Plus(BodyLines(content))
    case DeleteFile(path) => [DELETE + path]
    case UpdateFile(path, moveTo, hunks) =>
      [UPDATE + path] + (if moveTo == "" then [] else [MOVE + moveTo]) + PrintHunks(hunks)
  }

  function PrintActions(actions: seq<Action>): seq<string> {
    if actions == [] then [] else PrintAction(actions[0]) + PrintActions(actions[1..])
  }

  function Print(actions: seq<Action>): string {
    Join([BEGIN] + PrintActions(actions) + [END])
  }

  // ---- what can be printed ----

  predicate EndsInk(s: string) { s != "" && !IsSpace(s[|s| - 1]) }

  /** A path the header line can carry. */
  predicate PathOk(path: string) { EndsInk(path) && '\n' !in path }

  predicate HunkLineOk(line: HunkLine) {
    CleanLine(line.text) && (line.kind == Context ==> Trim(" " + line.text) != END_OF_FILE)
  }

  predicate ContextOk(context: string) {
    context == "" || (EndsInk(context) && !IsSpace(context[0]) && '\n' !in context)
  }

  predicate HunkOk(hunk: Hunk) {
    hunk.lines != [] && (forall line :: line in hunk.lines ==> HunkLineOk(line)) && ContextOk(hunk.changeContext)
  }

  predicate ActionOk(action: Action) {
    PathOk(action.path) &&
    match action
    case AddFile(_, content) =>
      content != "" && content[|content| - 1] == '\n' && forall line :: line in BodyLines(content) ==> CleanLine(line)
    case DeleteFile(_) => true
    case UpdateFile(_, moveTo, hunks) =>
      && (moveTo == "" || PathOk(moveTo))
      && (forall hunk :: hunk in hunks ==> HunkOk(hunk))
      && (hunks != [] || moveTo != "")
  }

  // ---- the round trip ----

  lemma TrimOfInk(s: string)
    requires EndsInk(s) && !IsSpace(s[0])
    ensures Trim(s) == s
  {
    TrimOfHead(s);
    TrimEndKeeps(s);
  }

  lemma HeaderLine(keyword: string, path: string)
    requires keyword in {ADD, DELETE, UPDATE, MOVE} && PathOk(path)
    ensures Trim(keyword + path) == keyword + path && (keyword != MOVE ==> TopLevel(keyword + path))
              && CleanLine(keyword + path)
  {
    var line := keyword + path;
    assert line[|line| - 1] == path[|path| - 1];
    TrimOfInk(line);
    assert keyword <= line;
  }

  /** A line that starts with a mark other than '*' is no header of any kind. */
  lemma MarkedLine(line: string)
    requires line != "" && line[0] in "+-@"
    ensures !TopLevel(line) && Trim(line) != END_OF_FILE && Trim(line) != "" && Trim(line)[0] == line[0]
    ensures line[0] != '@' ==> !StartsWith(Trim(line), "@@")
  {
    TrimOfHead(line);
  }

  lemma {:induction false} AddBodyRoundTrip(lines: seq<string>, tail: seq<string>)
    requires tail == [] || TopLevel(tail[0])
    ensures AddBody(Plus(lines) + tail) == Ok((lines, tail))
  {
    hide AddBody, TopLevel;
    if lines == [] {
      LeftUnit(tail);
      AddBodyEnds(tail);
    } else {
      Assoc(["+" + lines[0]], Plus(lines[1..]), tail);
      AddBodyRoundTrip(lines[1..], tail);
      AddBodyLine(lines[0], Plus(lines[1..]) + tail);
      HeadAndRest(lines);
    }
  }

  lemma AddBodyEnds(tail: seq<string>)
    requires tail == [] || TopLevel(tail[0])
    ensures AddBody(tail) == Ok(([], tail))
  {}

  lemma AddBodyLine(line: string, rest: seq<string>)
    requires AddBody(rest).Ok?
    ensures AddBody(["+" + line] + rest) == Ok(([line] + AddBody(rest).value.0, AddBody(rest).value.1))
  {
    MarkedLine("+" + line);
    hide TopLevel;
    assert (["+" + line] + rest)[1..] == rest && ("+" + line)[1..] == line;
  }

  lemma HunkLineRead(line: HunkLine, hunk: Hunk)
    requires HunkLineOk(line)
    ensures ReadHunkLine(PrintHunkLine(line), InHunk(hunk)) == Continue([], InHunk(hunk.(lines := hunk.lines + [line])))
  {
    var printed := PrintHunkLine(line);
    assert printed[1..] == line.text;
    if line.kind != Context { MarkedLine(printed); }
  }

  lemma HunkHeaderTrims(hunk: Hunk)
    requires ContextOk(hunk.changeContext)
    ensures var printed := HunkHeader(hunk);
            && |printed| >= 2 && Trim(printed) == printed && printed != END_OF_FILE && !TopLevel(printed)
            && StartsWith(printed, "@@") && !StartsWith(printed, " ") && Trim(printed[2..]) == hunk.changeContext
  {
    var printed := HunkHeader(hunk);
    assert printed[|printed| - 1] == if hunk.changeContext == "" then '@'
             else hunk.changeContext[|hunk.changeContext| - 1];
    MarkedLine(printed);
    TrimOfInk(printed);
    assert printed[0] == '@' && printed[1] == '@';
    if hunk.changeContext != "" {
      var padded := " " + hunk.changeContext;
      assert printed[2..] == padded;
      assert padded[1..] == hunk.changeContext;
      TrimEndKeeps(padded);
      assert Trim(padded) == TrimStart(hunk.changeContext) == hunk.changeContext;
    } else {
      assert printed[2..] == "" && Trim("") == "";
    }
  }

  lemma HunkHeaderRead(hunk: Hunk, current: Current)
    requires ContextOk(hunk.changeContext) && Finished(current).Ok?
    ensures ReadHunkLine(HunkHeader(hunk), current)
              == Continue(Finished(current).value, InHunk(Hunk([], hunk.changeContext, false)))
  {
    HunkHeaderTrims(hunk);
    hide HunkHeader, Finished, TopLevel, StartsWith, Trim;
  }

  lemma EndOfFileRead(hunk: Hunk)
    ensures ReadHunkLine(END_OF_FILE, InHunk(hunk)) == Continue([], InHunk(hunk.(endOfFile := true)))
  {
    assert END_OF_FILE[|END_OF_FILE| - 1] == 'e';
    TrimOfInk(END_OF_FILE);
  }

  lemma {:induction false} HunkLinesRoundTrip(lines: seq<HunkLine>, hunk: Hunk, tail: seq<string>)
    requires forall line :: line in lines ==> HunkLineOk(line)
    ensures HunkBody(PrintHunkLines(lines) + tail, InHunk(hunk))
              == HunkBody(tail, InHunk(hunk.(lines := hunk.lines + lines)))
  {
    hide ReadHunkLine, HunkLineOk;
    var all := PrintHunkLines(lines) + tail;
    if lines == [] {
      assert all == tail && hunk.lines + lines == hunk.lines;
    } else {
      HunkLineRead(lines[0], hunk);
      assert all[0] == PrintHunkLine(lines[0]) && all[1..] == PrintHunkLines(lines[1..]) + tail;
      var next := hunk.(lines := hunk.lines + [lines[0]]);
      HunkLinesRoundTrip(lines[1..], next, tail);
      assert next.lines + lines[1..] == hunk.lines + lines;
      NothingDone(HunkBody(all[1..], InHunk(next)));
    }
  }

  lemma NothingDone(r: Result<(seq<Hunk>, seq<string>)>)
    ensures After([], r) == r
  {
    if r.Ok? { assert [] + r.value.0 == r.value.0; }
  }

  /** The line that follows an action: another action's header, or none. */
  ghost predicate HeaderOrEnd(tail: seq<string>) {
    tail == [] || (TopLevel(tail[0]) && tail[0] != "" && tail[0][0] == '*' && Trim(tail[0]) != END_OF_FILE
                     && !StartsWith(Trim(tail[0]), MOVE))
  }

  /** One line that the body reads and goes on from. */
  lemma ReadOn(line: string, rest: seq<string>, current: Current, done: seq<Hunk>, next: Current)
    requires ReadHunkLine(line, current) == Continue(done, next)
    ensures HunkBody([line] + rest, current) == After(done, HunkBody(rest, next))
  {
    hide ReadHunkLine;
    assert ([line] + rest)[1..] == rest;
  }

  lemma HunkRoundTrip(hunk: Hunk, current: Current, rest: seq<string>)
    requires HunkOk(hunk) && Finished(current).Ok?
    ensures HunkBody(PrintHunk(hunk) + rest, current) == After(Finished(current).value, HunkBody(rest, InHunk(hunk)))
  {
    hide ReadHunkLine, HunkLineOk, HunkBody, PrintHunkLines, HunkHeader;
    var marker := if hunk.endOfFile then [END_OF_FILE] else [];
    var body := PrintHunkLines(hunk.lines) + (marker + rest);
    Assoc([HunkHeader(hunk)], PrintHunkLines(hunk.lines), marker);
    Assoc([HunkHeader(hunk)], PrintHunkLines(hunk.lines) + marker, rest);
    Assoc(PrintHunkLines(hunk.lines), marker, rest);
    HunkHeaderRead(hunk, current);
    var started := Hunk([], hunk.changeContext, false);
    ReadOn(HunkHeader(hunk), body, current, Finished(current).value, InHunk(started));
    HunkLinesRoundTrip(hunk.lines, started, marker + rest);
    LeftUnit(hunk.lines);
    if hunk.endOfFile {
      EndOfFileRead(started.(lines := hunk.lines));
      ReadOn(END_OF_FILE, rest, InHunk(started.(lines := hunk.lines)), [], InHunk(hunk));
      NothingDone(HunkBody(rest, InHunk(hunk)));
    } else {
      LeftUnit(rest);
    }
  }

  lemma {:induction false} HunksRoundTrip(hunks: seq<Hunk>, current: Current, tail: seq<string>)
    requires forall hunk :: hunk in hunks ==> HunkOk(hunk)
    requires Finished(current).Ok? && HeaderOrEnd(tail)
    ensures HunkBody(PrintHunks(hunks) + tail, current) == Ok((Finished(current).value + hunks, tail))
    decreases |hunks|
  {
    hide ReadHunkLine, HunkLineOk, TopLevel, PrintHunk;
    if hunks == [] {
      LeftUnit(tail);
      assert Finished(current).value + [] == Finished(current).value;
      if tail != [] { StopsAt(tail[0], current); }
    } else {
      var hunk, rest := hunks[0], PrintHunks(hunks[1..]) + tail;
      assert HunkOk(hunk);
      HunkRoundTrip(hunk, current, rest);
      Assoc(PrintHunk(hunk), PrintHunks(hunks[1..]), tail);
      HunksRoundTrip(hunks[1..], InHunk(hunk), tail);
      HeadAndRest(hunks);
      Assoc(Finished(current).value, [hunk], hunks[1..]);
    }
  }

  lemma StopsAt(line: string, current: Current)
    requires TopLevel(line) && line != "" && line[0] == '*' && Trim(line) != END_OF_FILE
    ensures ReadHunkLine(line, current) == Stop
  {
    TrimOfHead(line);
  }

  function Keyword(action: Action): string {
    match action case AddFile(_, _) => ADD case DeleteFile(_) => DELETE case UpdateFile(_, _, _) => UPDATE
  }

  lemma FirstLine(action: Action)
    ensures PrintAction(action) != [] && PrintAction(action)[0] == Keyword(action) + action.path
  {}

  lemma HeaderStops(keyword: string, path: string, tail: seq<string>)
    requires keyword in {ADD, DELETE, UPDATE} && PathOk(path)
    requires tail != [] && tail[0] == keyword + path
    ensures HeaderOrEnd(tail)
  {
    HeaderLine(keyword, path);
    hide Trim, TopLevel;
    var line := keyword + path;
    assert line[4] == keyword[4];
  }

  /** What follows an action is the next one's header, or the end. */
  lemma NextHeader(actions: seq<Action>)
    requires forall action :: action in actions ==> ActionOk(action)
    ensures HeaderOrEnd(PrintActions(actions))
  {
    if actions != [] {
      var action := actions[0];
      assert action in actions && ActionOk(action);
      FirstLine(action);
      HeaderStops(Keyword(action), action.path, PrintActions(actions));
    }
  }

  lemma HeaderKind(keyword: string, path: string)
    requires keyword in {ADD, DELETE, UPDATE, MOVE} && PathOk(path)
    ensures var line := keyword + path;
            && Trim(line) == line && line[|keyword|..] == path && line != ""
            && forall k :: k in {ENVIRONMENT, ADD, DELETE, UPDATE, MOVE} ==> (StartsWith(line, k) <==> k == keyword)
  {
    var line := keyword + path;
    HeaderLine(keyword, path);
    assert keyword <= line;
    assert line[4] == keyword[4];
    assert ENVIRONMENT[4] == 'E' && ADD[4] == 'A' && DELETE[4] == 'D' && UPDATE[4] == 'U' && MOVE[4] == 'M';
  }

  lemma ParseDelete(path: string, tail: seq<string>)
    requires PathOk(path)
    ensures ParseOne([DELETE + path] + tail) == Ok((Some(DeleteFile(path)), tail))
  {
    HeaderKind(DELETE, path);
    hide Trim, TopLevel, StartsWith, HunkBody, AddBody, PathOk;
    var all := [DELETE + path] + tail;
    assert all[0] == DELETE + path && all[1..] == tail;
    assert !StartsWith(all[0], ENVIRONMENT) && !StartsWith(all[0], ADD) && StartsWith(all[0], DELETE);
  }

  lemma AddBodyRead(content: string, tail: seq<string>)
    requires content != "" && content[|content| - 1] == '\n' && HeaderOrEnd(tail)
    ensures AddBody(Plus(BodyLines(content)) + tail) == Ok((BodyLines(content), tail))
    ensures Join(BodyLines(content)) + "\n" == content && BodyLines(content) != []
  {
    var text := content[..|content| - 1];
    assert text + "\n" == content;
    assert BodyLines(content) == Split(text);
    JoinSplit(text);
    hide Split, Join, Plus, AddBody, BodyLines;
    AddBodyRoundTrip(BodyLines(content), tail);
  }

  lemma ParseAdd(path: string, content: string, tail: seq<string>)
    requires ActionOk(AddFile(path, content)) && HeaderOrEnd(tail)
    ensures ParseOne([ADD + path] + (Plus(BodyLines(content)) + tail)) == Ok((Some(AddFile(path, content)), tail))
  {
    AddBodyRead(content, tail);
    HeaderKind(ADD, path);
    hide Trim, TopLevel, StartsWith, HunkBody, AddBody, PathOk, Plus, BodyLines, Join;
    var all := [ADD + path] + (Plus(BodyLines(content)) + tail);
    assert all[0] == ADD + path && all[1..] == Plus(BodyLines(content)) + tail;
    assert !StartsWith(all[0], ENVIRONMENT) && StartsWith(all[0], ADD);
  }

  /** Whether the line after an update header is a move line. */
  lemma MoveLine(moveTo: string, hunks: seq<Hunk>, tail: seq<string>)
    requires (moveTo == "" || PathOk(moveTo)) && HeaderOrEnd(tail)
    requires hunks == [] ==> moveTo != ""
    ensures var rest := (if moveTo == "" then [] else [MOVE + moveTo]) + (PrintHunks(hunks) + tail);
            && rest != []
            && (StartsWith(Trim(rest[0]), MOVE) <==> moveTo != "")
            && (if moveTo == "" then rest == PrintHunks(hunks) + tail
                else rest[1..] == PrintHunks(hunks) + tail && Trim(rest[0])[|MOVE|..] == moveTo)
  {
    if moveTo != "" {
      HeaderKind(MOVE, moveTo);
    } else {
      assert (PrintHunks(hunks) + tail)[0] == HunkHeader(hunks[0]);
      MarkedLine(HunkHeader(hunks[0]));
    }
  }

  lemma ParseUpdate(path: string, moveTo: string, hunks: seq<Hunk>, tail: seq<string>)
    requires ActionOk(UpdateFile(path, moveTo, hunks)) && HeaderOrEnd(tail)
    ensures ParseOne([UPDATE + path] + ((if moveTo == "" then [] else [MOVE + moveTo]) + (PrintHunks(hunks) + tail)))
         == Ok((Some(UpdateFile(path, moveTo, hunks)), tail))
  {
    HeaderKind(UPDATE, path);
    MoveLine(moveTo, hunks, tail);
    HunksRoundTrip(hunks, NoHunk, tail);
    assert [] + hunks == hunks;
    hide Trim, TopLevel, StartsWith, HunkBody, AddBody, PathOk, PrintHunks, HunkOk;
    var rest := (if moveTo == "" then [] else [MOVE + moveTo]) + (PrintHunks(hunks) + tail);
    var all := [UPDATE + path] + rest;
    assert all[0] == UPDATE + path && all[1..] == rest;
    assert !StartsWith(all[0], ENVIRONMENT) && !StartsWith(all[0], ADD) && !StartsWith(all[0], DELETE)
             && StartsWith(all[0], UPDATE);
  }

  lemma ParseOneRoundTrip(action: Action, tail: seq<string>)
    requires ActionOk(action) && HeaderOrEnd(tail)
    ensures ParseOne(PrintAction(action) + tail) == Ok((Some(action), tail))
  {
    hide ParseOne, ActionOk, HeaderOrEnd, PrintHunks, Plus, BodyLines;
    var all := PrintAction(action) + tail;
    match action
    case DeleteFile(path) =>
      PathIsOk(action);
      ParseDelete(path, tail);
    case AddFile(path, content) =>
      assert all == [ADD + path] + (Plus(BodyLines(content)) + tail);
      ParseAdd(path, content, tail);
    case UpdateFile(path, moveTo, hunks) =>
      assert all == [UPDATE + path] + ((if moveTo == "" then [] else [MOVE + moveTo]) + (PrintHunks(hunks) + tail));
      ParseUpdate(path, moveTo, hunks, tail);
  }

  lemma PathIsOk(action: Action)
    requires ActionOk(action)
    ensures PathOk(action.path)
  {}

  lemma {:induction false} ActionsRoundTrip(actions: seq<Action>)
    requires forall action :: action in actions ==> ActionOk(action)
    ensures ParseActions(PrintActions(actions)) == Ok(actions)
  {
    if actions != [] {
      hide ParseOne, HeaderOrEnd, ActionOk;
      NextHeader(actions[1..]);
      ParseOneRoundTrip(actions[0], PrintActions(actions[1..]));
      ActionsRoundTrip(actions[1..]);
      assert [actions[0]] + actions[1..] == actions;
      assert PrintActions(actions) != [] by { assert |PrintAction(actions[0])| > 0; }
    }
  }

  lemma {:induction false} PrintedLinesAreClean(actions: seq<Action>)
    requires forall action :: action in actions ==> ActionOk(action)
    ensures forall line :: line in PrintActions(actions) ==> CleanLine(line)
  {
    if actions != [] {
      PrintedLinesAreClean(actions[1..]);
      PrintedActionIsClean(actions[0]);
    }
  }

  lemma PrintedActionIsClean(action: Action)
    requires ActionOk(action)
    ensures forall line :: line in PrintAction(action) ==> CleanLine(line)
  {
    match action
    case DeleteFile(path) => HeaderLine(DELETE, path);
    case AddFile(path, content) => HeaderLine(ADD, path); PlusIsClean(BodyLines(content));
    case UpdateFile(path, moveTo, hunks) =>
      HeaderLine(UPDATE, path);
      if moveTo != "" { HeaderLine(MOVE, moveTo); }
      PrintedHunksAreClean(hunks);
  }

  lemma {:induction false} PlusIsClean(lines: seq<string>)
    requires forall line :: line in lines ==> CleanLine(line)
    ensures forall line :: line in Plus(lines) ==> CleanLine(line)
  {
    if lines != [] {
      PlusIsClean(lines[1..]);
      assert CleanLine(lines[0]);
      assert CleanLine("+" + lines[0]) by { MarkIsClean("+", lines[0]); }
    }
  }

  lemma MarkIsClean(mark: string, text: string)
    requires CleanLine(text) && mark != "" && CleanLine(mark)
    ensures CleanLine(mark + text)
  {
    var s := mark + text;
    if text != "" { assert s[|s| - 1] == text[|text| - 1]; } else { assert s == mark; }
  }

  lemma {:induction false} PrintedHunksAreClean(hunks: seq<Hunk>)
    requires forall hunk :: hunk in hunks ==> HunkOk(hunk)
    ensures forall line :: line in PrintHunks(hunks) ==> CleanLine(line)
  {
    if hunks != [] {
      PrintedHunksAreClean(hunks[1..]);
      var hunk := hunks[0];
      assert HunkOk(hunk);
      HunkLinesAreClean(hunk.lines);
      var header := HunkHeader(hunk);
      if hunk.changeContext != "" {
        assert header[|header| - 1] == hunk.changeContext[|hunk.changeContext| - 1];
        assert CleanLine(hunk.changeContext);
        MarkIsClean("@@ ", hunk.changeContext);
      }
      assert CleanLine(header);
    }
  }

  lemma {:induction false} HunkLinesAreClean(lines: seq<HunkLine>)
    requires forall line :: line in lines ==> HunkLineOk(line)
    ensures forall line :: line in PrintHunkLines(lines) ==> CleanLine(line)
  {
    if lines != [] {
      HunkLinesAreClean(lines[1..]);
      assert HunkLineOk(lines[0]);
      MarkIsClean(match lines[0].kind case Context => " " case Add => "+" case Remove => "-", lines[0].text);
    }
  }

  lemma TextShape(body: seq<string>)
    ensures var text := Join([BEGIN] + body + [END]); text != "" && text[0] == '*' && text[|text| - 1] == 'h'
  {
    var text := Join([BEGIN] + body + [END]);
    JoinConcat([BEGIN] + body, [END]);
    var head := Join([BEGIN] + body);
    assert text == head + "\n" + END;
    assert text[|text| - 1] == END[|END| - 1] == 'h';
    if body != [] { JoinConcat([BEGIN], body); }
    assert head[0] == BEGIN[0];
  }

  /** Normalising, trimming and splitting a text gives the lines it was made of. */
  lemma TextLines(lines: seq<string>)
    requires lines != [] && forall line :: line in lines ==> CleanLine(line)
    requires EndsInk(Join(lines)) && !IsSpace(Join(lines)[0])
    ensures Split(Trim(DropCr(Join(lines)))) == lines
  {
    JoinIsClean(lines);
    SplitJoin(lines);
    DropCrOfClean(Join(lines));
    TrimOfInk(Join(lines));
  }

  lemma PrintedLines(body: seq<string>)
    requires forall line :: line in body ==> CleanLine(line)
    ensures PatchLines(Join([BEGIN] + body + [END])) == [BEGIN] + body + [END]
  {
    TextShape(body);
    MarkersAreTrimmed();
    assert CleanLine(BEGIN) && CleanLine(END) && !HeredocStart(BEGIN) by { assert BEGIN[0] == '*'; }
    assert !IsSpace('*') && !IsSpace('h');
    hide Trim, Split, DropCr, Join, HeredocStart, CleanLine, IsSpace;
    var lines := [BEGIN] + body + [END];
    forall line | line in lines ensures CleanLine(line) {}
    TextLines(lines);
    assert lines[0] == BEGIN;
  }

  lemma MarkersAreTrimmed()
    ensures Trim(BEGIN) == BEGIN && Trim(END) == END
  {
    assert END[|END| - 1] == 'h' && BEGIN[|BEGIN| - 1] == 'h';
    TrimOfInk(BEGIN);
    TrimOfInk(END);
  }

  /** The round trip: parsing a printed patch gives back its actions. */
  lemma ParsePrint(actions: seq<Action>)
    requires actions != [] && forall action :: action in actions ==> ActionOk(action)
    ensures Parse(Print(actions)) == Ok(actions)
  {
    PrintedLinesAreClean(actions);
    PrintedLines(PrintActions(actions));
    MarkersAreTrimmed();
    ActionsRoundTrip(actions);
    hide ActionOk, PatchLines, ParseActions, PrintActions, Trim;
    var lines := [BEGIN] + PrintActions(actions) + [END];
    assert lines[1..|lines| - 1] == PrintActions(actions);
  }
}
