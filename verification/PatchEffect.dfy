/** What an applied hunk does to the lines of a file, told by counting the lines of
    the hunk: which lines it needs, which it leaves, and where they come to stand. */
module PatchEffect {
  import opened Common
  import opened PatchText
  import opened PatchHunks

  /** How many of the lines have one of these kinds. */
  function Count(lines: seq<HunkLine>, kinds: set<LineKind>): nat {
    if lines == [] then 0 else (if lines[0].kind in kinds then 1 else 0) + Count(lines[1..], kinds)
  }

  const OLD: set<LineKind> := {Context, Remove}
  const NEW: set<LineKind> := {Context, Add}

  /** A list of texts holds the lines of these kinds, each at the place given by the
      number of such lines before it, and nothing else. */
  ghost predicate Holds(texts: seq<string>, lines: seq<HunkLine>, kinds: set<LineKind>) {
    && |texts| == Count(lines, kinds)
    && forall i :: 0 <= i < |lines| && lines[i].kind in kinds ==>
         Count(lines[..i], kinds) < |texts| && texts[Count(lines[..i], kinds)] == lines[i].text
  }

  lemma {:induction false} HoldsMore(texts: seq<string>, lines: seq<HunkLine>, line: HunkLine, kinds: set<LineKind>)
    requires Holds(texts, lines, kinds)
    ensures Holds((if line.kind in kinds then [line.text] else []) + texts, [line] + lines, kinds)
  {
    var all := [line] + lines;
    assert all[1..] == lines;
    var head := if line.kind in kinds then [line.text] else [];
    forall i | 0 <= i < |all| && all[i].kind in kinds
      ensures Count(all[..i], kinds) < |head + texts| && (head + texts)[Count(all[..i], kinds)] == all[i].text
    {
      if i > 0 {
        assert all[..i][1..] == lines[..i - 1] && all[..i][0] == line;
        assert all[i] == lines[i - 1];
      }
    }
  }

  /** The lines a hunk looks for are its context and removed lines, in order. */
  lemma {:induction false} OldLinesAre(lines: seq<HunkLine>)
    ensures Holds(OldLines(lines), lines, OLD)
  {
    if lines != [] {
      OldLinesAre(lines[1..]);
      HoldsMore(OldLines(lines[1..]), lines[1..], lines[0], OLD);
      HeadAndRest(lines);
    }
  }

  /** The lines it leaves are its context and added lines, in order. */
  lemma {:induction false} NewLinesAre(lines: seq<HunkLine>)
    ensures Holds(NewLines(lines), lines, NEW)
  {
    if lines != [] {
      NewLinesAre(lines[1..]);
      HoldsMore(NewLines(lines[1..]), lines[1..], lines[0], NEW);
      HeadAndRest(lines);
    }
  }

  /** The same lines with added and removed ones exchanged. */
  function Exchanged(lines: seq<HunkLine>): seq<HunkLine> {
    if lines == [] then []
    else
      var kind := match lines[0].kind case Context => Context case Add => Remove case Remove => Add;
      [HunkLine(kind, lines[0].text)] + Exchanged(lines[1..])
  }

  /** Exchanging added and removed lines exchanges what is looked for and what is left. */
  lemma {:induction false} ExchangeReverses(lines: seq<HunkLine>)
    ensures OldLines(Exchanged(lines)) == NewLines(lines) && NewLines(Exchanged(lines)) == OldLines(lines)
  {
    if lines != [] {
      ExchangeReverses(lines[1..]);
      assert Exchanged(lines)[1..] == Exchanged(lines[1..]);
    }
  }

  // ---- a whole file ----

  /** By how much the hunks before `j` have moved the lines after them. */
  function Shift(hunks: seq<Hunk>, j: nat): int
    requires j <= |hunks|
  {
    if j == 0 then 0
    else Shift(hunks, j - 1) + Count(hunks[j - 1].lines, NEW) - Count(hunks[j - 1].lines, OLD)
  }

  function Needs(hunk: Hunk): nat { Count(hunk.lines, OLD) }

  /** Line `o` of the original, from `cursor` on, is before hunk `j` and after all
      the ones before it. */
  ghost predicate Between(original: seq<string>, cursor: nat, hunks: seq<Hunk>, starts: seq<nat>, j: nat, o: nat)
    requires |starts| == |hunks|
  {
    && j <= |hunks| && cursor <= o < |original|
    && (j < |hunks| ==> o < starts[j])
    && (j > 0 ==> starts[j - 1] + Needs(hunks[j - 1]) <= o)
  }

  /** Each line from `cursor` on that no hunk covers stands where the hunks before it
      have moved it. */
  ghost predicate GapsStay(original: seq<string>, cursor: nat, hunks: seq<Hunk>, starts: seq<nat>,
                           result: seq<string>)
    requires |starts| == |hunks|
  {
    forall j: nat, o: nat :: Between(original, cursor, hunks, starts, j, o) ==>
      0 <= o - cursor + Shift(hunks, j) < |result| && result[o - cursor + Shift(hunks, j)] == original[o]
  }

  /** Line `i` of hunk `j`, kept or added, stands at its place in the result. */
  ghost predicate StandsAt(cursor: nat, hunks: seq<Hunk>, starts: seq<nat>, result: seq<string>, j: nat, i: nat)
    requires |starts| == |hunks| && j < |hunks| && i < |hunks[j].lines|
  {
    var at := starts[j] - cursor + Shift(hunks, j) + Count(hunks[j].lines[..i], NEW);
    0 <= at < |result| && result[at] == hunks[j].lines[i].text
  }

  /** In place of what a hunk covers stand its context and added lines. */
  ghost predicate HunksStand(cursor: nat, hunks: seq<Hunk>, starts: seq<nat>, result: seq<string>)
    requires |starts| == |hunks|
  {
    forall j: nat, i: nat :: j < |hunks| && i < |hunks[j].lines| && hunks[j].lines[i].kind in NEW ==>
      StandsAt(cursor, hunks, starts, result, j, i)
  }

  ghost predicate Effect(original: seq<string>, cursor: nat, hunks: seq<Hunk>, starts: seq<nat>,
                         result: seq<string>)
    requires |starts| == |hunks|
  {
    && |result| == |original| - cursor + Shift(hunks, |hunks|)
    && GapsStay(original, cursor, hunks, starts, result)
    && HunksStand(cursor, hunks, starts, result)
  }

  /** The first hunk is one of a longer list that was cut before it. */
  lemma {:induction false} ShiftOfRest(hunks: seq<Hunk>, j: nat)
    requires 0 < j <= |hunks|
    ensures Shift(hunks, j)
              == Count(hunks[0].lines, NEW) - Count(hunks[0].lines, OLD) + Shift(hunks[1..], j - 1)
  {
    if j > 1 { ShiftOfRest(hunks, j - 1); }
  }

  lemma {:induction false} RegionsMatch(original: seq<string>, cursor: nat, hunks: seq<Hunk>, starts: seq<nat>)
    requires Regions(original, cursor, hunks, starts)
    ensures |starts| == |hunks| && cursor <= |original| && forall k :: 0 <= k < |starts| ==> cursor <= starts[k]
    decreases |hunks|
  {
    if hunks != [] {
      RegionsMatch(original, starts[0] + |OldLines(hunks[0].lines)|, hunks[1..], starts[1..]);
    }
  }

  /** One more hunk in front. */
  lemma GapsStayMore(original: seq<string>, cursor: nat, hunks: seq<Hunk>, starts: seq<nat>, newLines: seq<string>,
                     rest: seq<string>)
    requires hunks != [] && |starts| == |hunks| && cursor <= starts[0]
    requires starts[0] + Needs(hunks[0]) <= |original| && |newLines| == Count(hunks[0].lines, NEW)
    requires forall k :: 1 <= k < |starts| ==> starts[0] + Needs(hunks[0]) <= starts[k]
    requires GapsStay(original, starts[0] + Needs(hunks[0]), hunks[1..], starts[1..], rest)
    ensures GapsStay(original, cursor, hunks, starts, original[cursor..starts[0]] + newLines + rest)
  {
    var next := starts[0] + Needs(hunks[0]);
    var result := original[cursor..starts[0]] + newLines + rest;
    forall j: nat, o: nat | Between(original, cursor, hunks, starts, j, o)
      ensures 0 <= o - cursor + Shift(hunks, j) < |result| && result[o - cursor + Shift(hunks, j)] == original[o]
    {
      if j > 0 {
        ShiftOfRest(hunks, j);
        assert next <= o;
        assert Between(original, next, hunks[1..], starts[1..], j - 1, o);
        assert rest[o - next + Shift(hunks[1..], j - 1)] == original[o];
      }
    }
  }

  lemma HunksStandMore(original: seq<string>, cursor: nat, hunks: seq<Hunk>, starts: seq<nat>, newLines: seq<string>,
                       rest: seq<string>)
    requires hunks != [] && |starts| == |hunks| && cursor <= starts[0] <= |original|
    requires Holds(newLines, hunks[0].lines, NEW)
    requires HunksStand(starts[0] + Needs(hunks[0]), hunks[1..], starts[1..], rest)
    ensures HunksStand(cursor, hunks, starts, original[cursor..starts[0]] + newLines + rest)
  {
    var next := starts[0] + Needs(hunks[0]);
    var result := original[cursor..starts[0]] + newLines + rest;
    forall j: nat, i: nat | j < |hunks| && i < |hunks[j].lines| && hunks[j].lines[i].kind in NEW
      ensures StandsAt(cursor, hunks, starts, result, j, i)
    {
      if j == 0 {
        assert newLines[Count(hunks[0].lines[..i], NEW)] == hunks[0].lines[i].text;
      } else {
        ShiftOfRest(hunks, j);
        assert hunks[1..][j - 1] == hunks[j];
        assert StandsAt(next, hunks[1..], starts[1..], rest, j - 1, i);
      }
    }
  }

  /** What the decomposition of a file assembles. */
  lemma {:induction false} AssembledIs(original: seq<string>, cursor: nat, hunks: seq<Hunk>, starts: seq<nat>)
    requires Regions(original, cursor, hunks, starts)
    ensures |starts| == |hunks| && cursor <= |original|
    ensures Effect(original, cursor, hunks, starts, Assembled(original, cursor, hunks, starts))
    decreases |hunks|
  {
    hide Placed, OldLines, NewLines, GapsStay, HunksStand, Holds;
    RegionsMatch(original, cursor, hunks, starts);
    if hunks == [] {
      NothingMoves(original, cursor);
    } else {
      var newLines, next := NewLines(hunks[0].lines), starts[0] + |OldLines(hunks[0].lines)|;
      OldLinesAre(hunks[0].lines);
      NewLinesAre(hunks[0].lines);
      HoldsCount(OldLines(hunks[0].lines), hunks[0].lines, OLD);
      HoldsCount(newLines, hunks[0].lines, NEW);
      AssembledIs(original, next, hunks[1..], starts[1..]);
      RegionsMatch(original, next, hunks[1..], starts[1..]);
      var rest := Assembled(original, next, hunks[1..], starts[1..]);
      GapsStayMore(original, cursor, hunks, starts, newLines, rest);
      HunksStandMore(original, cursor, hunks, starts, newLines, rest);
      ShiftOfRest(hunks, |hunks|);
    }
  }

  lemma HoldsCount(texts: seq<string>, lines: seq<HunkLine>, kinds: set<LineKind>)
    requires Holds(texts, lines, kinds)
    ensures |texts| == Count(lines, kinds)
  {}

  lemma NothingMoves(original: seq<string>, cursor: nat)
    requires cursor <= |original|
    ensures Effect(original, cursor, [], [], original[cursor..])
  {}

  /** The hunk holds only context lines, and they match exactly where it stands. */
  ghost predicate OnlyContext(original: seq<string>, hunk: Hunk, start: nat) {
    && start + |hunk.lines| <= |original|
    && forall i :: 0 <= i < |hunk.lines| ==>
         hunk.lines[i].kind == Context && hunk.lines[i].text == original[start + i]
  }

  lemma {:induction false} ContextLines(lines: seq<HunkLine>)
    requires forall i :: 0 <= i < |lines| ==> lines[i].kind == Context
    ensures OldLines(lines) == NewLines(lines) && |OldLines(lines)| == |lines|
    ensures forall i :: 0 <= i < |lines| ==> OldLines(lines)[i] == lines[i].text
  {
    if lines != [] { ContextLines(lines[1..]); }
  }

  /** Hunks that only give context leave the file's lines as they are. */
  lemma {:induction false} ContextChangesNothing(original: seq<string>, cursor: nat, hunks: seq<Hunk>,
                                                 starts: seq<nat>)
    requires Regions(original, cursor, hunks, starts) && |starts| == |hunks|
    requires forall j :: 0 <= j < |hunks| ==> OnlyContext(original, hunks[j], starts[j])
    ensures Assembled(original, cursor, hunks, starts) == original[cursor..]
    decreases |hunks|
  {
    hide Placed;
    if hunks != [] {
      var lines := hunks[0].lines;
      var next := starts[0] + |OldLines(lines)|;
      ContextLines(lines);
      assert OnlyContext(original, hunks[0], starts[0]);
      ContextChangesNothing(original, next, hunks[1..], starts[1..]);
      assert NewLines(lines) == original[starts[0]..next];
      RegionsMatch(original, next, hunks[1..], starts[1..]);
      assert original[cursor..] == original[cursor..starts[0]] + original[starts[0]..next] + original[next..];
    }
  }

  /** The patched text: its lines are the file's with the effect of the hunks, joined
      and ended by newlines, with carriage returns if and only if the file has them. */
  lemma PatchedIs(content: string, hunks: seq<Hunk>) returns (starts: seq<nat>, lines: seq<string>)
    requires Patched(content, hunks).Some?
    ensures Regions(FileLines(content), 0, hunks, starts) && |starts| == |hunks|
    ensures Effect(FileLines(content), 0, hunks, starts, lines)
    ensures (forall i :: 0 <= i < |content| - 1 ==> !(content[i] == '\r' && content[i + 1] == '\n')) ==>
              Patched(content, hunks) == Some(Join(lines) + "\n")
    ensures (exists i :: 0 <= i < |content| - 1 && content[i] == '\r' && content[i + 1] == '\n') ==>
              Patched(content, hunks) == Some(AddCr(Join(lines) + "\n"))
  {
    hide Regions, Assembled, Effect, FileLines;
    starts :| Regions(FileLines(content), 0, hunks, starts);
    forall s | Regions(FileLines(content), 0, hunks, s) ensures s == starts {
      RegionsAreUnique(FileLines(content), 0, hunks, s, starts);
    }
    lines := Assembled(FileLines(content), 0, hunks, starts);
    AssembledIs(FileLines(content), 0, hunks, starts);
  }

  // ---- where a hunk may stand ----

  ghost predicate Blank(s: string) {
    forall i :: 0 <= i < |s| ==> IsSpace(s[i])
  }

  /** Equal; equal but for white space at the end; equal but for white space at both ends. */
  ghost predicate Alike(level: Level, a: string, b: string) {
    if level == 0 then a == b
    else if level == 1 then exists c, s, t :: a == c + s && b == c + t && Blank(s) && Blank(t)
    else exists c, p, s, q, t :: a == p + c + s && b == q + c + t && Blank(p) && Blank(s) && Blank(q) && Blank(t)
  }

  lemma {:induction false} TrimEndSplits(a: string)
    ensures a == TrimEnd(a) + a[|TrimEnd(a)|..] && Blank(a[|TrimEnd(a)|..])
  {
    hide IsSpace, Blank;
    if a != "" && IsSpace(a[|a| - 1]) {
      var init := a[..|a| - 1];
      TrimEndSplits(init);
      var kept := TrimEnd(init);
      assert a[|kept|..] == init[|kept|..] + [a[|a| - 1]];
      BlankMore(init[|kept|..], a[|a| - 1]);
    } else {
      assert a[|a|..] == "";
      BlankNothing();
    }
  }

  lemma BlankMore(s: string, c: char)
    requires Blank(s) && IsSpace(c)
    ensures Blank(s + [c])
  {
    hide IsSpace;
  }

  lemma BlankNothing()
    ensures Blank("")
  {}

  lemma {:induction false} TrimEndUpTo(a: string, n: nat)
    requires n <= |a| && forall i :: n <= i < |a| ==> IsSpace(a[i])
    ensures TrimEnd(a) == TrimEnd(a[..n])
  {
    hide IsSpace;
    if n == |a| {
      assert a[..n] == a;
    } else {
      var init := a[..|a| - 1];
      TrimEndUpTo(init, n);
      assert init[..n] == a[..n];
    }
  }

  lemma TrimEndDrops(c: string, s: string)
    requires Blank(s)
    ensures TrimEnd(c + s) == TrimEnd(c)
  {
    hide IsSpace, TrimEnd;
    TrimEndUpTo(c + s, |c|);
    assert (c + s)[..|c|] == c;
  }

  lemma {:induction false} TrimStartSplits(a: string)
    ensures var n := |a| - |TrimStart(a)|; 0 <= n && a == a[..n] + TrimStart(a) && Blank(a[..n])
  {
    hide IsSpace, Blank;
    if a != "" && IsSpace(a[0]) {
      TrimStartSplits(a[1..]);
      var n := |a[1..]| - |TrimStart(a[1..])|;
      assert a[..n + 1] == [a[0]] + a[1..][..n];
      BlankBefore(a[0], a[1..][..n]);
    } else {
      assert a[..0] == "";
      BlankNothing();
    }
  }

  lemma BlankBefore(c: char, s: string)
    requires Blank(s) && IsSpace(c)
    ensures Blank([c] + s)
  {
    hide IsSpace;
  }

  lemma {:induction false} TrimStartDrops(p: string, c: string)
    requires Blank(p)
    ensures TrimStart(p + c) == TrimStart(c)
    decreases |p|
  {
    if p == "" {
      assert p + c == c;
    } else {
      assert (p + c)[1..] == p[1..] + c && IsSpace(p[0]);
      TrimStartDrops(p[1..], c);
    }
  }

  /** Trimming both ends in one order or the other. */
  lemma TrimDrops(p: string, c: string, s: string)
    requires Blank(p) && Blank(s)
    ensures Trim(p + c + s) == Trim(c)
  {
    TrimEndDrops(p + c, s);
    TrimEndSplits(c);
    var tail := c[|TrimEnd(c)|..];
    assert p + c == (p + TrimEnd(c)) + tail;
    TrimEndDrops(p + TrimEnd(c), tail);
    if TrimEnd(c) == "" {
      assert p + TrimEnd(c) == p && "" + p == p;
      TrimEndDrops("", p);
    } else {
      var kept := p + TrimEnd(c);
      assert kept[|kept| - 1] == TrimEnd(c)[|TrimEnd(c)| - 1];
      TrimEndKeeps(kept);
      TrimStartDrops(p, TrimEnd(c));
    }
  }

  /** The three levels of the search. */
  lemma LevelsAre(level: Level, a: string, b: string)
    ensures SameLine(level, a, b) <==> Alike(level, a, b)
  {
    hide IsSpace;
    if level == 1 {
      if SameLine(level, a, b) {
        TrimEndSplits(a);
        TrimEndSplits(b);
      }
      if c, s, t :| a == c + s && b == c + t && Blank(s) && Blank(t) {
        TrimEndDrops(c, s);
        TrimEndDrops(c, t);
      }
    } else if level == 2 {
      if SameLine(level, a, b) { TrimmedAlike(a, b); }
      if c, p, s, q, t :| a == p + c + s && b == q + c + t && Blank(p) && Blank(s) && Blank(q) && Blank(t) {
        TrimDrops(p, c, s);
        TrimDrops(q, c, t);
      }
    }
  }

  lemma TrimmedAlike(a: string, b: string)
    requires Trim(a) == Trim(b)
    ensures Alike(2, a, b)
  {
    hide IsSpace;
    TrimEndSplits(a);
    TrimEndSplits(b);
    TrimStartSplits(TrimEnd(a));
    TrimStartSplits(TrimEnd(b));
    var c := Trim(a);
    var p, q := TrimEnd(a)[..|TrimEnd(a)| - |c|], TrimEnd(b)[..|TrimEnd(b)| - |c|];
    assert a == p + c + a[|TrimEnd(a)|..] && b == q + c + b[|TrimEnd(b)|..];
  }

  /** The texts stand in the file from `at` on. */
  ghost predicate StandIn(level: Level, original: seq<string>, texts: seq<string>, at: int) {
    && 0 <= at <= |original| - |texts|
    && forall k :: 0 <= k < |texts| ==> Alike(level, original[at + k], texts[k])
  }

  /** The first place from `from` on where the texts stand, at the strictest level at
      which they stand anywhere; at the end of the file when they must end it. */
  ghost predicate FirstPlace(original: seq<string>, texts: seq<string>, from: nat, atEnd: bool, at: int) {
    exists level: Level ::
      && from <= at && (atEnd ==> at == |original| - |texts|) && StandIn(level, original, texts, at)
      && (forall earlier | from <= earlier < at && (atEnd ==> earlier == |original| - |texts|) ::
            !StandIn(level, original, texts, earlier))
      && (forall stricter: Level, other: int
            | stricter < level && from <= other && (atEnd ==> other == |original| - |texts|) ::
            !StandIn(stricter, original, texts, other))
  }

  lemma MatchIsStanding(original: seq<string>, texts: seq<string>, at: int, level: Level)
    ensures MatchAt(original, texts, at, level) <==> StandIn(level, original, texts, at)
  {
    hide SameLine, Alike;
    if MatchAt(original, texts, at, level) {
      forall k | 0 <= k < |texts| ensures Alike(level, original[at + k], texts[k]) {
        LevelsAre(level, original[at + k], texts[k]);
      }
    }
    if StandIn(level, original, texts, at) {
      forall k | 0 <= k < |texts| ensures SameLine(level, original[at + k], texts[k]) {
        LevelsAre(level, original[at + k], texts[k]);
      }
    }
  }

  lemma FoundIsFirstPlace(original: seq<string>, texts: seq<string>, from: nat, atEnd: bool, at: int)
    requires texts != [] && Found(original, texts, from, atEnd, at) && at >= 0
    ensures FirstPlace(original, texts, from, atEnd, at)
  {
    hide MatchAt, StandIn;
    forall level: Level, index ensures MatchAt(original, texts, index, level) <==>
                                       StandIn(level, original, texts, index)
    {
      MatchIsStanding(original, texts, index, level);
    }
    forall level: Level, index ensures StandIn(level, original, texts, index) ==> index <= |original| - |texts| {
      StandingIsInside(level, original, texts, index);
    }
    var level: Level :| FirstMatch(original, texts, from, atEnd, level, at);
    forall stricter: Level, other | stricter < level && from <= other && (atEnd ==> other == |original| - |texts|)
      ensures !StandIn(stricter, original, texts, other)
    {
      NoneStands(original, texts, from, atEnd, stricter, other);
    }
    forall earlier | from <= earlier < at && (atEnd ==> earlier == |original| - |texts|)
      ensures !StandIn(level, original, texts, earlier)
    {
      assert !(earlier <= |original| - |texts|) || Allowed(original, texts, from, atEnd, earlier);
    }
  }

  lemma NoneStands(original: seq<string>, texts: seq<string>, from: nat, atEnd: bool, level: Level, at: int)
    requires NoMatch(original, texts, from, atEnd, level)
    requires from <= at && (atEnd ==> at == |original| - |texts|)
    ensures !StandIn(level, original, texts, at)
  {
    hide MatchAt, StandIn;
    MatchIsStanding(original, texts, at, level);
    StandingIsInside(level, original, texts, at);
    assert !(at <= |original| - |texts|) || Allowed(original, texts, from, atEnd, at);
  }

  lemma StandingIsInside(level: Level, original: seq<string>, texts: seq<string>, at: int)
    ensures StandIn(level, original, texts, at) ==> at <= |original| - |texts|
  {}

  /** Where a hunk stands. With a change context, the search begins on the line after
      the first place of that context; without one, at the cursor. From there the hunk
      stands at the first place of the lines it looks for; a hunk that looks for
      nothing stands where the search begins, or at the end of the file if it is
      marked so. */
  lemma PlacedIs(original: seq<string>, hunk: Hunk, cursor: nat, start: nat) returns (from: nat)
    requires Placed(original, hunk, cursor, start)
    ensures if hunk.changeContext == "" then from == cursor
            else from > cursor && FirstPlace(original, [hunk.changeContext], cursor, false, from - 1)
    ensures Needs(hunk) > 0 ==> FirstPlace(original, OldLines(hunk.lines), from, hunk.endOfFile, start)
    ensures Needs(hunk) == 0 ==> start == if hunk.endOfFile then |original| else from
  {
    hide Found, FirstPlace, OldLines;
    OldLinesAre(hunk.lines);
    HoldsCount(OldLines(hunk.lines), hunk.lines, OLD);
    from :| AfterContext(original, hunk, cursor, from) && OldLinesAt(original, hunk, from, start);
    if hunk.changeContext != "" { FoundIsFirstPlace(original, [hunk.changeContext], cursor, false, from - 1); }
    if Needs(hunk) > 0 {
      FoundIsFirstPlace(original, OldLines(hunk.lines), from, hunk.endOfFile, start);
    } else if !hunk.endOfFile {
      FoundNothing(original, from, start);
    }
  }

  lemma FoundNothing(original: seq<string>, from: nat, at: int)
    requires Found(original, [], from, false, at)
    ensures at == from
  {}
}
