/** The patch format, line by line and in its own words: what each line of a patch
    means, and which patches are refused. Together with what trimming and splitting
    are, these laws leave the parser no freedom. */
module PatchFormat {
  import opened Common
  import opened PatchText
  import opened PatchHunks
  import opened PatchParser
  import opened PatchEffect

  // ---- white space and lines ----

  /** White space and line terminators of ECMAScript, by their codes. */
  lemma SpaceIs(c: char)
    ensures IsSpace(c) <==>
            || c as int in {9, 10, 11, 12, 13, 32, 0xA0, 0x1680, 0x2028, 0x2029, 0x202F, 0x205F, 0x3000, 0xFEFF}
            || 0x2000 <= c as int <= 0x200A
  {}

  /** Trimming takes white space off both ends, and all of it. */
  lemma TrimIs(s: string, t: string)
    ensures Trim(s) == t <==>
            && (exists p, q :: s == p + t + q && Blank(p) && Blank(q))
            && (t == "" || (!IsSpace(t[0]) && !IsSpace(t[|t| - 1])))
  {
    hide IsSpace;
    if Trim(s) == t {
      TrimEndSplits(s);
      TrimStartSplits(TrimEnd(s));
      var n := |TrimEnd(s)| - |t|;
      assert s == TrimEnd(s)[..n] + t + s[|TrimEnd(s)|..];
      LastOfTrim(TrimEnd(s));
    }
    if t == "" || (!IsSpace(t[0]) && !IsSpace(t[|t| - 1])) {
      if p, q :| s == p + t + q && Blank(p) && Blank(q) {
        TrimDrops(p, t, q);
        if t != "" { TrimOfInk(t); }
      }
    }
  }

  lemma {:induction false} LastOfTrim(s: string)
    requires s == TrimEnd(s)
    ensures TrimStart(s) != "" ==> TrimStart(s)[|TrimStart(s)| - 1] == s[|s| - 1] && !IsSpace(s[|s| - 1])
  {
    TrimStartSplits(s);
    TrimEndKeeps(s);
  }

  /** Lines are joined by newlines, and a text has just one list of lines. */
  lemma LinesAre(s: string, lines: seq<string>)
    ensures Join(["", ""]) == "\n" && (lines != [] ==> Join(lines + [s]) == Join(lines) + "\n" + s) && Join([s]) == s
    ensures Split(s) == lines <==> lines != [] && Join(lines) == s && forall line :: line in lines ==> '\n' !in line
  {
    if lines != [] { JoinConcat(lines, [s]); }
    JoinSplit(s);
    if lines != [] && Join(lines) == s && forall line :: line in lines ==> '\n' !in line { SplitJoin(lines); }
  }

  /** Line endings: every carriage return before a newline goes, and nothing else does;
      going back, one is put before every newline. */
  lemma {:induction false} EndingsAre(a: string, b: string)
    ensures DropCr(a + "\r\n" + b) == DropCr(a) + "\n" + DropCr(b)
    ensures AddCr(a + "\n" + b) == AddCr(a) + "\r\n" + AddCr(b)
    ensures (forall i :: 0 <= i < |a| - 1 ==> !(a[i] == '\r' && a[i + 1] == '\n')) ==> DropCr(a) == a
    ensures '\n' !in a ==> AddCr(a) == a
  {
    DropsEach(a, b);
    AddsEach(a, b);
    if forall i :: 0 <= i < |a| - 1 ==> !(a[i] == '\r' && a[i + 1] == '\n') { DropCrOfClean(a); }
    if '\n' !in a { AddsNone(a); }
  }

  lemma {:induction false} DropsEach(a: string, b: string)
    ensures DropCr(a + "\r\n" + b) == DropCr(a) + "\n" + DropCr(b)
    decreases |a|
  {
    var s := a + "\r\n" + b;
    if a == "" {
      assert s[2..] == b;
    } else if |a| >= 2 && a[0] == '\r' && a[1] == '\n' {
      assert s[2..] == a[2..] + "\r\n" + b;
      DropsEach(a[2..], b);
    } else {
      assert s[1..] == a[1..] + "\r\n" + b;
      assert |a| == 1 ==> s[1] == '\r';
      DropsEach(a[1..], b);
    }
  }

  lemma {:induction false} AddsEach(a: string, b: string)
    ensures AddCr(a + "\n" + b) == AddCr(a) + "\r\n" + AddCr(b)
  {
    var s := a + "\n" + b;
    if a == "" {
      assert s[1..] == b;
    } else {
      assert s[1..] == a[1..] + "\n" + b;
      AddsEach(a[1..], b);
    }
  }

  lemma {:induction false} AddsNone(a: string)
    requires '\n' !in a
    ensures AddCr(a) == a
  {
    if a != "" {
      assert a[0] in a;
      AddsNone(a[1..]);
    }
  }

  /** The lines of a file: joined again they are its text with plain newlines, but for
      a last one. */
  lemma FileLinesAre(content: string)
    ensures var lines, text := FileLines(content), DropCr(content);
            && (text != "" && text[|text| - 1] == '\n' ==>
                  lines != [] && Join(lines) + "\n" == text)
            && (text == "" || text[|text| - 1] != '\n' ==> lines != [] && Join(lines) == text)
            && forall line :: line in lines ==> '\n' !in line
  {
    var text := DropCr(content);
    var all := Split(text);
    hide DropCr, Split;
    JoinSplit(text);
    if text != "" && text[|text| - 1] == '\n' {
      LastLineIsEmpty(text, all);
      var lines := all[..|all| - 1];
      assert all == lines + [""];
      JoinConcat(lines, [""]);
      forall line | line in lines ensures '\n' !in line { assert line in all; }
    }
  }

  lemma LastLineIsEmpty(text: string, all: seq<string>)
    requires all != [] && Join(all) == text && (forall line :: line in all ==> '\n' !in line)
    requires text != "" && text[|text| - 1] == '\n'
    ensures |all| > 1 && all[|all| - 1] == ""
  {
    var init, last := all[..|all| - 1], all[|all| - 1];
    assert all == init + [last] && last in all;
    if last != "" { NoNewlineAtEnd(last); }
    if init != [] { JoinConcat(init, [last]); }
  }

  lemma NoNewlineAtEnd(line: string)
    requires line != "" && '\n' !in line
    ensures line[|line| - 1] != '\n'
  {}

  // ---- the envelope ----

  /** The lines of a patch: its text with plain newlines, trimmed, and a here-document
      of at least four lines around them taken off. */
  lemma PatchLinesAre(patch: string, lines: seq<string>)
    requires lines == Split(Trim(DropCr(patch)))
    ensures PatchLines(patch)
              == if HereDocument(Trim(lines[0])) && EndsInEof(Trim(lines[|lines| - 1])) && |lines| >= 4
                 then lines[1..|lines| - 1] else lines
  {
    hide Trim, DropCr, Split, HereDocument, HeredocStart, EndsInEof;
    EnvelopeIs(Trim(lines[0]), Trim(lines[|lines| - 1]));
  }

  ghost predicate HereDocument(line: string) {
    line == "<<EOF" || line == "<<'EOF'" || line == "<<\"EOF\""
  }

  ghost predicate EndsInEof(line: string) {
    exists p :: line == p + "EOF"
  }

  lemma EnvelopeIs(first: string, last: string)
    ensures HereDocument(first) <==> HeredocStart(first)
    ensures EndsInEof(last) <==> |last| >= 3 && last[|last| - 3..] == "EOF"
  {
    if |last| >= 3 && last[|last| - 3..] == "EOF" { assert last == last[..|last| - 3] + "EOF"; }
  }

  /** A patch is read as the actions between its first and its last line, which must be
      the markers; a patch without a marker, with a line that is refused, or without
      any action is refused. */
  lemma PatchIs(patch: string)
    ensures var lines := PatchLines(patch);
            if |lines| >= 2 && Trim(lines[0]) == "*** Begin Patch" && Trim(lines[|lines| - 1]) == "*** End Patch"
               && ParseActions(lines[1..|lines| - 1]) !in {Err, Ok([])}
            then Parse(patch) == ParseActions(lines[1..|lines| - 1])
            else Parse(patch) == Err
  {
    hide PatchLines, Trim, ParseActions;
  }

  // ---- headers ----

  /** The line begins an action, or gives the environment. */
  ghost predicate Header(line: string) {
    exists rest :: Trim(line) in {"*** Add File: " + rest, "*** Delete File: " + rest, "*** Update File: " + rest,
                                  "*** Environment ID: " + rest}
  }

  lemma HeaderIs(line: string)
    ensures TopLevel(line) <==> Header(line)
  {
    hide Trim;
    var t := Trim(line);
    if Header(line) {
      var rest :| t in {"*** Add File: " + rest, "*** Delete File: " + rest, "*** Update File: " + rest,
                        "*** Environment ID: " + rest};
    }
    if TopLevel(line) {
      Prefixes(t, ADD);
      Prefixes(t, DELETE);
      Prefixes(t, UPDATE);
      Prefixes(t, ENVIRONMENT);
      var keyword := if StartsWith(t, ADD) then ADD else if StartsWith(t, DELETE) then DELETE
                     else if StartsWith(t, UPDATE) then UPDATE else ENVIRONMENT;
      var rest := t[|keyword|..];
      assert t == keyword + rest;
      assert t in {"*** Add File: " + rest, "*** Delete File: " + rest, "*** Update File: " + rest,
                   "*** Environment ID: " + rest};
    }
  }

  lemma Prefixes(t: string, keyword: string)
    ensures StartsWith(t, keyword) <==> exists rest :: t == keyword + rest
    ensures StartsWith(t, keyword) ==> t == keyword + t[|keyword|..]
  {
    if StartsWith(t, keyword) { assert t == keyword + t[|keyword|..]; }
  }

  // ---- what each line means ----

  /** Lines that carry no action: blank ones, and an environment, which must be named. */
  lemma LinesWithoutAction(line: string, rest: seq<string>, id: string)
    ensures ParseActions([]) == Ok([])
    ensures Trim(line) == "" ==> ParseActions([line] + rest) == ParseActions(rest)
    ensures Trim(line) == "*** Environment ID: " + id ==>
              ParseActions([line] + rest) == if Trim(id) == "" then Err else ParseActions(rest)
  {
    hide Trim;
    assert ([line] + rest)[1..] == rest;
    NothingFirst(ParseActions(rest));
  }

  lemma NothingFirst(r: Result<seq<Action>>)
    ensures Prepend([], r) == r
  {
    if r.Ok? { LeftUnit(r.value); }
  }

  /** The keyword at the front of a header is the only one. */
  lemma KeywordIs(t: string, path: string)
    ensures t == "*** Add File: " + path ==>
              StartsWith(t, ADD) && t[|ADD|..] == path && !StartsWith(t, ENVIRONMENT)
    ensures t == "*** Delete File: " + path ==>
              StartsWith(t, DELETE) && t[|DELETE|..] == path && !StartsWith(t, ENVIRONMENT) && !StartsWith(t, ADD)
    ensures t == "*** Update File: " + path ==>
              StartsWith(t, UPDATE) && t[|UPDATE|..] == path && !StartsWith(t, ENVIRONMENT) && !StartsWith(t, ADD)
              && !StartsWith(t, DELETE)
  {
    if t == ADD + path { assert t[4] == 'A'; }
    if t == DELETE + path { assert t[4] == 'D'; }
    if t == UPDATE + path { assert t[4] == 'U'; }
  }

  lemma FirstAction(line: string, rest: seq<string>)
    ensures ParseActions([line] + rest)
              == match ParseOne([line] + rest)
                 case Err => Err
                 case Ok((action, after)) => Prepend(PatchParser.Listed(action), ParseActions(after))
  {}

  lemma DeleteIs(line: string, rest: seq<string>, path: string)
    requires Trim(line) == "*** Delete File: " + path
    ensures ParseActions([line] + rest) == Prepend([DeleteFile(path)], ParseActions(rest))
  {
    KeywordIs(Trim(line), path);
    FirstAction(line, rest);
    hide Trim, ParseActions, StartsWith;
    assert ([line] + rest)[1..] == rest;
  }

  /** A line that is none of these is refused. */
  lemma OtherLinesAreRefused(line: string, rest: seq<string>)
    requires Trim(line) != "" && !Header(line)
    ensures ParseActions([line] + rest) == Err
  {
    HeaderIs(line);
    hide Trim, Header, StartsWith;
    assert ([line] + rest)[1..] == rest;
  }

  /** The lines of an added file, each behind its plus sign. */
  ghost predicate Plussed(lines: seq<string>, content: seq<string>) {
    |lines| == |content| && forall i :: 0 <= i < |lines| ==> lines[i] == "+" + content[i]
  }

  ghost predicate Ends(rest: seq<string>) {
    rest == [] || Header(rest[0])
  }

  lemma {:induction false} AddedLines(body: seq<string>, content: seq<string>, rest: seq<string>)
    requires Plussed(body, content)
    ensures Ends(rest) ==> AddBody(body + rest) == Ok((content, rest))
    ensures !Ends(rest) && !("+" <= rest[0]) ==> AddBody(body + rest) == Err
  {
    hide Trim, Header, TopLevel;
    if body == [] {
      LeftUnit(rest);
      if rest != [] { HeaderIs(rest[0]); }
    } else {
      assert (body + rest)[1..] == body[1..] + rest;
      ChangeIsNoHeader(body[0]);
      AddedLines(body[1..], content[1..], rest);
      HeadAndRest(content);
      assert body[0][1..] == content[0];
    }
  }

  /** An added file: the lines behind plus signs, each ended by a newline, up to the next
      header or the end; at least one, and nothing else between. */
  lemma AddIs(line: string, path: string, body: seq<string>, content: seq<string>, rest: seq<string>)
    requires Trim(line) == "*** Add File: " + path && Plussed(body, content)
    ensures Ends(rest) ==>
              ParseActions([line] + body + rest)
                == if content == [] then Err
                   else Prepend([AddFile(path, Join(content) + "\n")], ParseActions(rest))
    ensures !Ends(rest) && !("+" <= rest[0]) ==> ParseActions([line] + body + rest) == Err
  {
    var lines := [line] + (body + rest);
    assert [line] + body + rest == lines && lines[1..] == body + rest;
    KeywordIs(Trim(line), path);
    FirstAction(line, body + rest);
    hide Trim, AddBody, Ends, ParseActions, StartsWith, Join;
    AddedLines(body, content, rest);
  }

  // ---- an update ----

  /** The lines of an update are read one by one; what they come to is the hunks, or a
      refusal. A move destination may stand on the first of them. An update must have a
      hunk or a destination. */
  lemma UpdateIs(line: string, path: string, rest: seq<string>)
    requires Trim(line) == "*** Update File: " + path
    ensures forall moveTo :: rest != [] && Trim(rest[0]) == "*** Move to: " + moveTo ==>
              ParseActions([line] + rest) == Updated(path, moveTo, HunkBody(rest[1..], NoHunk))
    ensures rest == [] || (forall moveTo :: Trim(rest[0]) != "*** Move to: " + moveTo) ==>
              ParseActions([line] + rest) == Updated(path, "", HunkBody(rest, NoHunk))
  {
    KeywordIs(Trim(line), path);
    FirstAction(line, rest);
    hide Trim, HunkBody, ParseActions, StartsWith;
    assert ([line] + rest)[1..] == rest;
    if rest != [] {
      Prefixes(Trim(rest[0]), MOVE);
      forall moveTo | Trim(rest[0]) == "*** Move to: " + moveTo
        ensures StartsWith(Trim(rest[0]), MOVE) && Trim(rest[0])[|MOVE|..] == moveTo
      {}
    }
  }

  ghost function Updated(path: string, moveTo: string, body: Result<(seq<Hunk>, seq<string>)>): Result<seq<Action>> {
    match body
    case Err => Err
    case Ok((hunks, rest)) =>
      if hunks == [] && moveTo == "" then Err else Prepend([UpdateFile(path, moveTo, hunks)], ParseActions(rest))
  }

  /** A hunk that is being read counts when it is closed, if it has any lines; an empty
      one is refused. */
  lemma ClosingIs(hunk: Hunk, rest: seq<string>)
    requires Ends(rest) && (rest == [] || (Trim(rest[0]) != "*** End of File" && !(" " <= rest[0])))
    ensures HunkBody(rest, NoHunk) == Ok(([], rest))
    ensures HunkBody(rest, InHunk(hunk)) == if hunk.lines == [] then Err else Ok(([hunk], rest))
  {
    if rest != [] {
      HeaderIs(rest[0]);
      HeaderIsNotBlank(rest[0]);
    }
  }

  lemma HeaderIsNotBlank(line: string)
    requires Header(line)
    ensures Trim(line) != ""
  {
    hide Trim;
  }

  ghost function Reading(current: Current): Hunk {
    match current case InHunk(hunk) => hunk case NoHunk => Hunk([], "", false)
  }

  ghost function WithLine(current: Current, kind: LineKind, text: string): Current {
    var hunk := Reading(current);
    InHunk(hunk.(lines := hunk.lines + [HunkLine(kind, text)]))
  }

  /** The lines of a hunk: an added line behind a plus and a removed one behind a minus.
      They begin a hunk if none is being read. */
  lemma ChangeIs(text: string, current: Current, rest: seq<string>)
    ensures HunkBody(["+" + text] + rest, current) == HunkBody(rest, WithLine(current, Add, text))
    ensures HunkBody(["-" + text] + rest, current) == HunkBody(rest, WithLine(current, Remove, text))
  {
    hide Trim, HunkBody, WithLine;
    ChangeTurn("+", text, current, Add);
    ReadOn("+" + text, rest, current, [], WithLine(current, Add, text));
    PatchParser.NothingDone(HunkBody(rest, WithLine(current, Add, text)));
    ChangeTurn("-", text, current, Remove);
    ReadOn("-" + text, rest, current, [], WithLine(current, Remove, text));
    PatchParser.NothingDone(HunkBody(rest, WithLine(current, Remove, text)));
  }

  lemma ChangeTurn(mark: string, text: string, current: Current, kind: LineKind)
    requires (mark == "+" && kind == Add) || (mark == "-" && kind == Remove)
    ensures ReadHunkLine(mark + text, current) == Continue([], WithLine(current, kind, text))
  {
    var line := mark + text;
    ChangeIsNoHeader(line);
    hide Trim, TopLevel;
    assert line[0] == mark[0] && line[1..] == text;
  }

  lemma ChangeIsNoHeader(line: string)
    requires "+" <= line || "-" <= line
    ensures !TopLevel(line) && Trim(line) != "" && Trim(line)[0] == line[0] && Trim(line) != END_OF_FILE
    ensures !StartsWith(Trim(line), "@@")
  {
    TrimOfHead(line);
  }

  /** A context line behind a space. Inside a hunk it may look like anything but the
      end-of-file marker; outside, it must be neither blank nor a header. */
  lemma ContextIs(text: string, current: Current, rest: seq<string>)
    requires Trim(text) != "*** End of File"
    requires current.NoHunk? ==> Trim(text) != "" && !Header(" " + text)
    ensures HunkBody([" " + text] + rest, current) == HunkBody(rest, WithLine(current, Context, text))
  {
    var line := " " + text;
    SpaceInFront(text);
    HeaderIs(line);
    assert line[1..] == text;
    ContextTurn(text, current);
    hide ReadHunkLine, HunkBody, Trim, Header, WithLine;
    ReadOn(line, rest, current, [], WithLine(current, Context, text));
    PatchParser.NothingDone(HunkBody(rest, WithLine(current, Context, text)));
  }

  lemma ContextTurn(text: string, current: Current)
    requires Trim(" " + text) != END_OF_FILE
    requires current.NoHunk? ==> Trim(" " + text) != "" && !TopLevel(" " + text)
    ensures ReadHunkLine(" " + text, current) == Continue([], WithLine(current, Context, text))
  {
    hide Trim, TopLevel;
    assert (" " + text)[1..] == text;
  }

  lemma SpaceInFront(text: string)
    ensures Trim(" " + text) == Trim(text)
  {
    TrimDrops(" ", text, "");
    assert " " + text + "" == " " + text;
  }

  ghost function Following(hunk: Hunk, body: Result<(seq<Hunk>, seq<string>)>): Result<(seq<Hunk>, seq<string>)> {
    match body case Err => Err case Ok((hunks, rest)) => Ok(([hunk] + hunks, rest))
  }

  /** A line that begins with two at signs closes the hunk being read and begins the
      next one; what stands after the signs, trimmed, is its change context. */
  lemma HunkHeaderIs(line: string, context: string, current: Current, rest: seq<string>)
    requires Trim(line) == "@@" + context && !(" " <= line)
    ensures var more := HunkBody(rest, InHunk(Hunk([], Trim(context), false)));
            HunkBody([line] + rest, current)
              == match current
                 case NoHunk => more
                 case InHunk(hunk) => if hunk.lines == [] then Err else Following(hunk, more)
  {
    HeaderTurn(line, context, current);
    hide Trim, HunkBody, ReadHunkLine;
    var next := InHunk(Hunk([], Trim(context), false));
    PatchParser.NothingDone(HunkBody(rest, next));
    if current.InHunk? && current.hunk.lines == [] {
      RefuseOn(line, rest, current);
    } else {
      ReadOn(line, rest, current, if current.NoHunk? then [] else [current.hunk], next);
    }
  }

  lemma HeaderTurn(line: string, context: string, current: Current)
    requires Trim(line) == "@@" + context && !(" " <= line)
    ensures ReadHunkLine(line, current)
              == if current.InHunk? && current.hunk.lines == [] then Fail
                 else Continue(if current.NoHunk? then [] else [current.hunk], InHunk(Hunk([], Trim(context), false)))
  {
    assert Trim(line)[0] == '@' && Trim(line)[2..] == context;
    hide Trim;
  }

  lemma RefuseOn(line: string, rest: seq<string>, current: Current)
    requires ReadHunkLine(line, current) == Fail
    ensures HunkBody([line] + rest, current) == Err
  {
    hide ReadHunkLine;
    assert ([line] + rest)[1..] == rest;
  }

  /** The end-of-file marker belongs to the hunk being read and is refused outside one;
      blank lines between hunks mean nothing, and neither does the note on a missing
      newline, except that it begins a hunk. */
  lemma MarkersAre(line: string, current: Current, rest: seq<string>)
    ensures Trim(line) == "*** End of File" ==>
              HunkBody([line] + rest, current)
                == match current
                   case NoHunk => Err
                   case InHunk(hunk) => HunkBody(rest, InHunk(hunk.(endOfFile := true)))
    ensures Trim(line) == "" && current.NoHunk? ==> HunkBody([line] + rest, current) == HunkBody(rest, NoHunk)
    ensures line == "\\ No newline at end of file" ==>
              HunkBody([line] + rest, current) == HunkBody(rest, InHunk(Reading(current)))
  {
    if line == NO_NEWLINE { TrimOfInk(line); }
    hide Trim, HunkBody;
    assert line == NO_NEWLINE ==> line[0] == '\\';
    PatchParser.NothingDone(HunkBody(rest, NoHunk));
    PatchParser.NothingDone(HunkBody(rest, InHunk(Reading(current))));
    if Trim(line) == "*** End of File" {
      if current.NoHunk? {
        RefuseOn(line, rest, current);
      } else {
        var next := InHunk(current.hunk.(endOfFile := true));
        PatchParser.NothingDone(HunkBody(rest, next));
        ReadOn(line, rest, current, [], next);
      }
    } else if Trim(line) == "" && current.NoHunk? {
      ReadOn(line, rest, current, [], NoHunk);
    } else if line == NO_NEWLINE {
      ReadOn(line, rest, current, [], InHunk(Reading(current)));
    }
  }

  /** Any other line of an update is refused. */
  lemma OtherHunkLinesAreRefused(line: string, current: Current, rest: seq<string>)
    requires !("+" <= line) && !("-" <= line) && !(" " <= line)
    requires !Header(line) && !("@@" <= Trim(line)) && Trim(line) != "*** End of File"
    requires (Trim(line) == "" ==> current.InHunk?) && line != "\\ No newline at end of file"
    ensures HunkBody([line] + rest, current) == Err
  {
    HeaderIs(line);
    hide Trim, Header;
    RefuseOn(line, rest, current);
  }
}
