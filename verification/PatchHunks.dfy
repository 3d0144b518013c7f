/** Applying update hunks to a text file: `splitFile`, `findSequence` and
    `applyHunks` of src/apply-patch.ts. */
module PatchHunks {
  import opened Common
  import opened PatchText

  datatype LineKind = Context | Add | Remove
  datatype HunkLine = HunkLine(kind: LineKind, text: string)

  /** An absent change context is the empty string (both are falsy in `applyHunks`). */
  datatype Hunk = Hunk(lines: seq<HunkLine>, changeContext: string, endOfFile: bool)

  function OldLines(lines: seq<HunkLine>): seq<string> {
    if lines == [] then [] else (if lines[0].kind != Add then [lines[0].text] else []) + OldLines(lines[1..])
  }

  function NewLines(lines: seq<HunkLine>): seq<string> {
    if lines == [] then [] else (if lines[0].kind != Remove then [lines[0].text] else []) + NewLines(lines[1..])
  }

  // ---- matching ----

  /** Exact, ignoring trailing space, ignoring surrounding space. */
  type Level = n: nat | n < 3

  function Normalize(level: Level, s: string): string {
    if level == 0 then s else if level == 1 then TrimEnd(s) else Trim(s)
  }

  predicate SameLine(level: Level, a: string, b: string) {
    Normalize(level, a) == Normalize(level, b)
  }

  predicate MatchAt(haystack: seq<string>, needle: seq<string>, index: int, level: Level) {
    && 0 <= index && index + |needle| <= |haystack|
    && forall k :: 0 <= k < |needle| ==> SameLine(level, haystack[index + k], needle[k])
  }

  /** Where the search may land. */
  predicate Allowed(haystack: seq<string>, needle: seq<string>, from: nat, endOfFile: bool, index: int) {
    from <= index <= |haystack| - |needle| && (endOfFile ==> index == |haystack| - |needle|)
  }

  ghost predicate NoMatch(haystack: seq<string>, needle: seq<string>, from: nat, endOfFile: bool, level: Level) {
    forall index :: Allowed(haystack, needle, from, endOfFile, index) ==> !MatchAt(haystack, needle, index, level)
  }

  /** `index` is the first allowed match at `level`, and no stricter level matches anywhere. */
  ghost predicate FirstMatch(haystack: seq<string>, needle: seq<string>, from: nat, endOfFile: bool, level: Level,
                             index: int) {
    && Allowed(haystack, needle, from, endOfFile, index)
    && MatchAt(haystack, needle, index, level)
    && (forall earlier :: from <= earlier < index && Allowed(haystack, needle, from, endOfFile, earlier)
          ==> !MatchAt(haystack, needle, earlier, level))
    && (forall stricter: Level :: stricter < level ==> NoMatch(haystack, needle, from, endOfFile, stricter))
  }

  /** What `findSequence` must return: the cursor for an empty needle, otherwise
      the first match under the strictest level that matches anywhere, or -1. */
  ghost predicate Found(haystack: seq<string>, needle: seq<string>, from: nat, endOfFile: bool, index: int) {
    if needle == [] then index == from
    else if index >= 0 then exists level: Level :: FirstMatch(haystack, needle, from, endOfFile, level, index)
    else index == -1 && forall level: Level :: NoMatch(haystack, needle, from, endOfFile, level)
  }

  lemma FoundIsUnique(haystack: seq<string>, needle: seq<string>, from: nat, endOfFile: bool, i: int, j: int)
    requires Found(haystack, needle, from, endOfFile, i) && Found(haystack, needle, from, endOfFile, j)
    ensures i == j
  {
    hide SameLine;
    if needle != [] {
      FoundIsFirst(haystack, needle, from, endOfFile, i, j);
      FoundIsFirst(haystack, needle, from, endOfFile, j, i);
    }
  }

  lemma FoundIsFirst(haystack: seq<string>, needle: seq<string>, from: nat, endOfFile: bool, i: int, j: int)
    requires needle != [] && Found(haystack, needle, from, endOfFile, i) && Found(haystack, needle, from, endOfFile, j)
    ensures i >= 0 ==> j >= i
  {
    hide SameLine;
    if i >= 0 {
      var a: Level :| FirstMatch(haystack, needle, from, endOfFile, a, i);
      assert j < 0 ==> NoMatch(haystack, needle, from, endOfFile, a);
      if j >= 0 {
        var b: Level :| FirstMatch(haystack, needle, from, endOfFile, b, j);
        assert a < b ==> NoMatch(haystack, needle, from, endOfFile, a);
        assert b < a ==> NoMatch(haystack, needle, from, endOfFile, b);
      }
    }
  }

  /** The search sees only what lies at or after the cursor. */
  lemma FoundShifts(haystack: seq<string>, other: seq<string>, needle: seq<string>, from: nat, from': nat,
                    endOfFile: bool, index: int)
    requires from <= |haystack| && from' <= |other| && haystack[from..] == other[from'..]
    requires Found(haystack, needle, from, endOfFile, index)
    ensures Found(other, needle, from', endOfFile, if index < 0 then -1 else index - from + from')
  {
    hide SameLine;
    assert |haystack| - from == |other| - from';
    assert forall k :: from <= k < |haystack| ==> haystack[k] == haystack[from..][k - from] == other[k - from + from'];
    forall i, level: Level
      ensures Allowed(other, needle, from', endOfFile, i) <==>
                Allowed(haystack, needle, from, endOfFile, i - from' + from)
      ensures Allowed(other, needle, from', endOfFile, i) ==>
                (MatchAt(other, needle, i, level) <==> MatchAt(haystack, needle, i - from' + from, level))
    {
      if Allowed(other, needle, from', endOfFile, i) {
        assert MatchAt(other, needle, i, level) ==> forall k :: 0 <= k < |needle| ==>
                                                      haystack[i - from' + from + k] == other[i + k]
                                                        && SameLine(level, other[i + k], needle[k]);
      }
    }
    if needle != [] {
      if index >= 0 {
        var level: Level :| FirstMatch(haystack, needle, from, endOfFile, level, index);
        forall stricter: Level | stricter < level ensures NoMatch(other, needle, from', endOfFile, stricter) {
          assert NoMatch(haystack, needle, from, endOfFile, stricter);
        }
        assert FirstMatch(other, needle, from', endOfFile, level, index - from + from');
      } else {
        forall level: Level ensures NoMatch(other, needle, from', endOfFile, level) {
          assert NoMatch(haystack, needle, from, endOfFile, level);
        }
      }
    }
  }

  method Matches(haystack: seq<string>, needle: seq<string>, index: nat, level: Level) returns (r: bool)
    requires index + |needle| <= |haystack|
    ensures r == MatchAt(haystack, needle, index, level)
  {
    hide Normalize;
    for offset := 0 to |needle|
      invariant forall k :: 0 <= k < offset ==> SameLine(level, haystack[index + k], needle[k])
    {
      if !SameLine(level, haystack[index + offset], needle[offset]) { return false; }
    }
    return true;
  }

  /** `findSequence`. */
  method FindSequence(haystack: seq<string>, needle: seq<string>, from: nat, endOfFile: bool) returns (r: int)
    requires from <= |haystack|
    ensures Found(haystack, needle, from, endOfFile, r)
    ensures r >= 0 ==> from <= r <= |haystack| - |needle|
    ensures r >= -1
  {
    hide SameLine;
    if |needle| == 0 { return from; }
    for n := 0 to 3
      invariant forall level: Level :: level < n ==> NoMatch(haystack, needle, from, endOfFile, level)
    {
      var level: Level := n;
      var index, end := if endOfFile then |haystack| - |needle| else from, |haystack| - |needle|;
      while index <= end
        invariant (if endOfFile then end else from) <= index
        invariant forall i :: i < index && Allowed(haystack, needle, from, endOfFile, i) ==>
                    !MatchAt(haystack, needle, i, level)
        decreases end - index
      {
        if index >= from {
          var matched := Matches(haystack, needle, index, level);
          if matched {
            assert FirstMatch(haystack, needle, from, endOfFile, level, index);
            return index;
          }
        }
        index := index + 1;
      }
      assert NoMatch(haystack, needle, from, endOfFile, level);
    }
    return -1;
  }

  // ---- the decomposition ----

  /** Where the search for the old lines begins: after the change context, if any. */
  ghost predicate AfterContext(original: seq<string>, hunk: Hunk, cursor: nat, from: nat) {
    && cursor <= from <= |original|
    && if hunk.changeContext == "" then from == cursor
       else cursor < from && Found(original, [hunk.changeContext], cursor, false, from - 1)
  }

  /** Where the old lines are: at the end for a pure end-of-file addition. */
  ghost predicate OldLinesAt(original: seq<string>, hunk: Hunk, from: nat, start: nat) {
    var old' := OldLines(hunk.lines);
    if hunk.endOfFile && old' == [] then start == |original| else Found(original, old', from, hunk.endOfFile, start)
  }

  /** A hunk's region may start at `start` when the search begins at `cursor`. */
  ghost predicate Placed(original: seq<string>, hunk: Hunk, cursor: nat, start: nat) {
    exists from: nat :: AfterContext(original, hunk, cursor, from) && OldLinesAt(original, hunk, from, start)
  }

  /** Disjoint increasing regions of the original lines, one for each hunk. */
  ghost predicate Regions(original: seq<string>, cursor: nat, hunks: seq<Hunk>, starts: seq<nat>)
    decreases |hunks|
  {
    if hunks == [] then starts == [] && cursor <= |original|
    else
      && starts != []
      && cursor <= starts[0] && starts[0] + |OldLines(hunks[0].lines)| <= |original|
      && Placed(original, hunks[0], cursor, starts[0])
      && Regions(original, starts[0] + |OldLines(hunks[0].lines)|, hunks[1..], starts[1..])
  }

  /** g0,n0,g1,n1,...,gn: the gaps of the original with the new lines between. */
  ghost function Assembled(original: seq<string>, cursor: nat, hunks: seq<Hunk>, starts: seq<nat>): seq<string>
    requires Regions(original, cursor, hunks, starts)
    decreases |hunks|
  {
    if hunks == [] then original[cursor..]
    else
      original[cursor..starts[0]] + NewLines(hunks[0].lines)
      + Assembled(original, starts[0] + |OldLines(hunks[0].lines)|, hunks[1..], starts[1..])
  }

  /** The regions are determined by the search rules. */
  lemma {:induction false} RegionsAreUnique(original: seq<string>, cursor: nat, hunks: seq<Hunk>, s: seq<nat>,
                                            t: seq<nat>)
    requires Regions(original, cursor, hunks, s) && Regions(original, cursor, hunks, t)
    ensures s == t
    decreases |hunks|
  {
    if hunks != [] {
      PlacedIsUnique(original, hunks[0], cursor, s[0], t[0]);
      RegionsAreUnique(original, s[0] + |OldLines(hunks[0].lines)|, hunks[1..], s[1..], t[1..]);
    }
  }

  lemma PlacedIsUnique(original: seq<string>, hunk: Hunk, cursor: nat, s: nat, t: nat)
    requires Placed(original, hunk, cursor, s) && Placed(original, hunk, cursor, t)
    ensures s == t
  {
    var a: nat :| AfterContext(original, hunk, cursor, a) && OldLinesAt(original, hunk, a, s);
    var b: nat :| AfterContext(original, hunk, cursor, b) && OldLinesAt(original, hunk, b, t);
    hide Found;
    ContextIsUnique(original, hunk, cursor, a, b);
    OldLinesAtIsUnique(original, hunk, a, s, t);
  }

  lemma ContextIsUnique(original: seq<string>, hunk: Hunk, cursor: nat, a: nat, b: nat)
    requires AfterContext(original, hunk, cursor, a) && AfterContext(original, hunk, cursor, b)
    ensures a == b
  {
    hide Found;
    if hunk.changeContext != "" { FoundIsUnique(original, [hunk.changeContext], cursor, false, a - 1, b - 1); }
  }

  lemma OldLinesAtIsUnique(original: seq<string>, hunk: Hunk, from: nat, s: nat, t: nat)
    requires OldLinesAt(original, hunk, from, s) && OldLinesAt(original, hunk, from, t)
    ensures s == t
  {
    hide Found;
    var old' := OldLines(hunk.lines);
    if !(hunk.endOfFile && old' == []) { FoundIsUnique(original, old', from, hunk.endOfFile, s, t); }
  }

  lemma FoundGives(haystack: seq<string>, needle: seq<string>, from: nat, endOfFile: bool, index: nat)
      returns (level: Level)
    requires needle != [] && Found(haystack, needle, from, endOfFile, index)
    ensures FirstMatch(haystack, needle, from, endOfFile, level, index)
  {
    level :| FirstMatch(haystack, needle, from, endOfFile, level, index);
  }

  /** An end-of-file hunk's region ends at the last line. */
  lemma EndOfFileRegion(original: seq<string>, hunk: Hunk, cursor: nat, start: nat)
    requires Placed(original, hunk, cursor, start) && hunk.endOfFile
    ensures start + |OldLines(hunk.lines)| == |original|
  {
    hide SameLine;
    var from: nat :| AfterContext(original, hunk, cursor, from) && OldLinesAt(original, hunk, from, start);
    if OldLines(hunk.lines) != [] {
      var level := FoundGives(original, OldLines(hunk.lines), from, true, start);
    }
  }

  /** Some hunk cannot be placed once the ones before it are. */
  ghost predicate Unplaceable(original: seq<string>, cursor: nat, hunks: seq<Hunk>)
    decreases |hunks|
  {
    && hunks != []
    && ((forall start: nat :: !Placed(original, hunks[0], cursor, start))
        || exists start: nat :: Placed(original, hunks[0], cursor, start)
             && Unplaceable(original, start + |OldLines(hunks[0].lines)|, hunks[1..]))
  }

  // ---- the loop over a spliced array ----

  /** The part of `lines` at or after `cursor` is a suffix of the original. */
  ghost predicate Aligned(original: seq<string>, at: nat, lines: seq<string>, cursor: nat) {
    at <= |original| && cursor <= |lines| && lines[cursor..] == original[at..]
  }

  /** The search for the change context in the spliced array, seen in the original. */
  method SkipContext(ghost original: seq<string>, ghost at: nat, lines: seq<string>, cursor: nat, hunk: Hunk)
      returns (from: int)
    requires Aligned(original, at, lines, cursor)
    ensures from >= 0 ==> cursor <= from <= |lines| && AfterContext(original, hunk, at, from - cursor + at)
    ensures from < 0 ==> forall f: nat :: !AfterContext(original, hunk, at, f)
  {
    hide Found;
    if hunk.changeContext == "" { return cursor; }
    var contextIndex := FindSequence(lines, [hunk.changeContext], cursor, false);
    FoundShifts(lines, original, [hunk.changeContext], cursor, at, false, contextIndex);
    if contextIndex < 0 {
      forall f: nat ensures !AfterContext(original, hunk, at, f) {
        if AfterContext(original, hunk, at, f) {
          FoundIsUnique(original, [hunk.changeContext], at, false, f - 1, -1);
        }
      }
      return -1;
    }
    return contextIndex + 1;
  }

  /** Placing one hunk in the spliced array, seen in the original. */
  method PlaceHunk(ghost original: seq<string>, ghost at: nat, lines: seq<string>, cursor: nat, hunk: Hunk)
      returns (index: int)
    requires Aligned(original, at, lines, cursor)
    ensures index >= 0 ==> cursor <= index <= |lines| - |OldLines(hunk.lines)|
                             && Placed(original, hunk, at, index - cursor + at)
    ensures index < 0 ==> forall start: nat :: !Placed(original, hunk, at, start)
  {
    hide Found, AfterContext;
    var from := SkipContext(original, at, lines, cursor, hunk);
    if from < 0 { return -1; }
    ghost var from' := from - cursor + at;
    assert lines[from..] == original[from'..] by {
      assert lines[from..] == lines[cursor..][from - cursor..];
      assert original[from'..] == original[at..][from - cursor..];
    }
    var oldLines := OldLines(hunk.lines);
    if hunk.endOfFile && |oldLines| == 0 {
      index := |lines|;
    } else {
      index := FindSequence(lines, oldLines, from, hunk.endOfFile);
      FoundShifts(lines, original, oldLines, from, from', hunk.endOfFile, index);
    }
    if index < 0 {
      forall start: nat ensures !Placed(original, hunk, at, start) {
        if Placed(original, hunk, at, start) {
          var f: nat :| AfterContext(original, hunk, at, f) && OldLinesAt(original, hunk, f, start);
          ContextIsUnique(original, hunk, at, f, from');
          FoundIsUnique(original, oldLines, f, hunk.endOfFile, start, -1);
        }
      }
      return -1;
    }
    assert OldLinesAt(original, hunk, from', index - cursor + at);
  }

  /** `before` and `starts` are the assembled prefix for the first `n` hunks. */
  ghost predicate PrefixDone(original: seq<string>, hunks: seq<Hunk>, n: nat, at: nat, before: seq<string>,
                             starts: seq<nat>)
    requires n <= |hunks|
  {
    forall rest :: Regions(original, at, hunks[n..], rest) ==>
      && Regions(original, 0, hunks, starts + rest)
      && before + Assembled(original, at, hunks[n..], rest) == Assembled(original, 0, hunks, starts + rest)
  }

  lemma PrefixGrows(original: seq<string>, hunks: seq<Hunk>, n: nat, at: nat, before: seq<string>, starts: seq<nat>,
                    start: nat)
    requires n < |hunks| && PrefixDone(original, hunks, n, at, before, starts)
    requires at <= start && start + |OldLines(hunks[n].lines)| <= |original| && Placed(original, hunks[n], at, start)
    ensures PrefixDone(original, hunks, n + 1, start + |OldLines(hunks[n].lines)|,
                       before + original[at..start] + NewLines(hunks[n].lines), starts + [start])
  {
    hide Placed, OldLines, NewLines, Regions, Assembled;
    var next, newLines := start + |OldLines(hunks[n].lines)|, NewLines(hunks[n].lines);
    forall rest | Regions(original, next, hunks[n + 1..], rest)
      ensures Regions(original, 0, hunks, (starts + [start]) + rest)
      ensures (before + original[at..start] + newLines) + Assembled(original, next, hunks[n + 1..], rest)
           == Assembled(original, 0, hunks, (starts + [start]) + rest)
    {
      OneMoreRegion(original, hunks, n, at, start, rest);
      assert (starts + [start]) + rest == starts + ([start] + rest);
      var tail := Assembled(original, next, hunks[n + 1..], rest);
      assert before + (original[at..start] + newLines + tail) == (before + original[at..start] + newLines) + tail;
    }
  }

  lemma OneMoreRegion(original: seq<string>, hunks: seq<Hunk>, n: nat, at: nat, start: nat, rest: seq<nat>)
    requires n < |hunks|
    requires at <= start && start + |OldLines(hunks[n].lines)| <= |original| && Placed(original, hunks[n], at, start)
    requires Regions(original, start + |OldLines(hunks[n].lines)|, hunks[n + 1..], rest)
    ensures Regions(original, at, hunks[n..], [start] + rest)
    ensures Assembled(original, at, hunks[n..], [start] + rest)
              == original[at..start] + NewLines(hunks[n].lines)
                   + Assembled(original, start + |OldLines(hunks[n].lines)|, hunks[n + 1..], rest)
  {
    hide Placed, OldLines, NewLines;
    assert hunks[n..][0] == hunks[n] && hunks[n..][1..] == hunks[n + 1..];
    assert ([start] + rest)[1..] == rest;
  }

  lemma NothingDone(original: seq<string>, hunks: seq<Hunk>)
    ensures Aligned(original, 0, original, 0) && PrefixDone(original, hunks, 0, 0, original[..0], [])
  {
    hide Regions, Assembled;
    assert hunks[0..] == hunks;
    forall rest: seq<nat> ensures [] + rest == rest {}
    forall tail: seq<string> ensures original[..0] + tail == tail {}
  }

  lemma AllDone(original: seq<string>, hunks: seq<Hunk>, at: nat, lines: seq<string>, cursor: nat, starts: seq<nat>)
    requires Aligned(original, at, lines, cursor) && PrefixDone(original, hunks, |hunks|, at, lines[..cursor], starts)
    ensures Regions(original, 0, hunks, starts) && lines == Assembled(original, 0, hunks, starts)
  {
    assert Regions(original, at, hunks[|hunks|..], []);
    assert starts + [] == starts;
    assert lines[..cursor] + lines[cursor..] == lines;
  }

  lemma NowUnplaceable(original: seq<string>, hunks: seq<Hunk>, n: nat, at: nat)
    requires n < |hunks| && forall start: nat :: !Placed(original, hunks[n], at, start)
    ensures Unplaceable(original, at, hunks[n..])
  {
    hide Placed;
    assert hunks[n..][0] == hunks[n];
  }

  lemma StillUnplaceable(original: seq<string>, hunks: seq<Hunk>, n: nat, at: nat, start: nat)
    requires n < |hunks| && Placed(original, hunks[n], at, start)
    requires Unplaceable(original, start + |OldLines(hunks[n].lines)|, hunks[n + 1..])
    ensures Unplaceable(original, at, hunks[n..])
  {
    hide Placed, OldLines;
    assert hunks[n..][0] == hunks[n] && hunks[n..][1..] == hunks[n + 1..];
  }

  /** One splice: the untouched suffix stays aligned, the prefix grows by the
      region before the hunk and the hunk's new lines. */
  lemma SpliceKeepsAligned(original: seq<string>, at: nat, lines: seq<string>, cursor: nat, index: nat, size: nat,
                           newLines: seq<string>)
    requires Aligned(original, at, lines, cursor)
    requires cursor <= index && index + size <= |lines|
    ensures var start := index - cursor + at;
            var spliced := lines[..index] + newLines + lines[index + size..];
            && start + size <= |original|
            && Aligned(original, start + size, spliced, index + |newLines|)
            && spliced[..index + |newLines|] == lines[..cursor] + original[at..start] + newLines
  {
    var start := index - cursor + at;
    assert |lines[cursor..]| == |original[at..]|;
    assert lines[cursor..index] == lines[cursor..][..index - cursor] == original[at..][..index - cursor]
             == original[at..start];
    assert lines[index + size..] == lines[cursor..][index + size - cursor..]
        == original[at..][start + size - at..] == original[start + size..];
    assert lines[..index] == lines[..cursor] + lines[cursor..index];
  }

  /** The body of `applyHunks` on lines. It succeeds exactly when every hunk can
      be placed, and the result is then the assembled decomposition. */
  method ApplyToLines(original: seq<string>, hunks: seq<Hunk>)
      returns (result: Option<seq<string>>, ghost starts: seq<nat>)
    ensures result.Some? ==> Regions(original, 0, hunks, starts)
                               && result.value == Assembled(original, 0, hunks, starts)
    ensures result.None? ==> Unplaceable(original, 0, hunks)
  {
    hide Placed, OldLines, NewLines, PrefixDone, Unplaceable;
    var lines, cursor: nat := original, 0;
    ghost var at: nat := 0;
    starts := [];
    NothingDone(original, hunks);
    for n := 0 to |hunks|
      invariant Aligned(original, at, lines, cursor)
      invariant Unplaceable(original, at, hunks[n..]) ==> Unplaceable(original, 0, hunks)
      invariant PrefixDone(original, hunks, n, at, lines[..cursor], starts)
    {
      var hunk := hunks[n];
      var oldLines, newLines := OldLines(hunk.lines), NewLines(hunk.lines);
      var index := PlaceHunk(original, at, lines, cursor, hunk);
      if index < 0 {
        NowUnplaceable(original, hunks, n, at);
        return None, [];
      }
      ghost var start := index - cursor + at;
      ghost var next := start + |oldLines|;
      SpliceKeepsAligned(original, at, lines, cursor, index, |oldLines|, newLines);
      PrefixGrows(original, hunks, n, at, lines[..cursor], starts, start);
      if Unplaceable(original, next, hunks[n + 1..]) { StillUnplaceable(original, hunks, n, at, start); }
      lines := lines[..index] + newLines + lines[index + |oldLines|..];
      cursor := index + |newLines|;
      starts, at := starts + [start], next;
    }
    AllDone(original, hunks, at, lines, cursor, starts);
    result := Some(lines);
  }

  /** No list of hunks both decomposes the file and fails. */
  lemma {:induction false} PlaceableOrNot(original: seq<string>, cursor: nat, hunks: seq<Hunk>, starts: seq<nat>)
    requires Regions(original, cursor, hunks, starts)
    ensures !Unplaceable(original, cursor, hunks)
    decreases |hunks|
  {
    hide Placed;
    if hunks != [] {
      PlaceableOrNot(original, starts[0] + |OldLines(hunks[0].lines)|, hunks[1..], starts[1..]);
      forall start: nat | Placed(original, hunks[0], cursor, start)
        ensures !Unplaceable(original, start + |OldLines(hunks[0].lines)|, hunks[1..])
      {
        PlacedIsUnique(original, hunks[0], cursor, start, starts[0]);
      }
    }
  }

  // ---- whole files ----

  /** The lines of a file and its line ending, as `splitFile` gives them. */
  function FileLines(content: string): seq<string> {
    var normalized := DropCr(content);
    var lines := Split(normalized);
    if normalized != "" && normalized[|normalized| - 1] == '\n' then lines[..|lines| - 1] else lines
  }

  function Render(lines: seq<string>, crlf: bool): string {
    var normalized := Join(lines) + "\n";
    if crlf then AddCr(normalized) else normalized
  }

  /** Writing lines and reading them back gives the lines and the line ending. */
  lemma ReadBack(lines: seq<string>, crlf: bool)
    requires lines != [] && forall line :: line in lines ==> CleanLine(line)
    ensures FileLines(Render(lines, crlf)) == lines && HasCrlf(Render(lines, crlf)) == crlf
  {
    var normalized := Join(lines) + "\n";
    Terminated(lines);
    hide CleanLine, DropCr, AddCr, Split, Join;
    JoinIsClean(lines + [""]);
    DropCrOfClean(normalized);
    DropAddCr(normalized);
    AddCrHasCrlf(normalized);
    SplitTerminated(lines);
  }

  /** A final newline is an empty last line. */
  lemma Terminated(lines: seq<string>)
    requires lines != [] && forall line :: line in lines ==> CleanLine(line)
    ensures Join(lines + [""]) == Join(lines) + "\n" && forall line :: line in lines + [""] ==> CleanLine(line)
  {
    JoinConcat(lines, [""]);
    assert Join([""]) == "";
    assert Join(lines) + "\n" + "" == Join(lines) + "\n";
  }

  lemma SplitTerminated(lines: seq<string>)
    requires lines != [] && forall line :: line in lines ==> CleanLine(line)
    ensures var split := Split(Join(lines) + "\n"); split == lines + [""] && split[..|split| - 1] == lines
  {
    Terminated(lines);
    SplitJoin(lines + [""]);
  }

  /** The text a list of hunks makes of a file, if they can all be placed. */
  ghost function Patched(content: string, hunks: seq<Hunk>): Option<string> {
    var lines := FileLines(content);
    if starts :| Regions(lines, 0, hunks, starts)
      then Some(Render(Assembled(lines, 0, hunks, starts), HasCrlf(content))) else None
  }

  /** `applyHunks`: the patched file is the decomposition of its lines, rendered
      with the file's own line ending. */
  method ApplyHunks(content: string, hunks: seq<Hunk>) returns (result: Option<string>)
    ensures result == Patched(content, hunks)
    ensures result.None? <==> Unplaceable(FileLines(content), 0, hunks)
  {
    hide Placed, OldLines, NewLines;
    var lines, starts := ApplyToLines(FileLines(content), hunks);
    if lines.None? {
      forall s ensures !Regions(FileLines(content), 0, hunks, s) {
        if Regions(FileLines(content), 0, hunks, s) { PlaceableOrNot(FileLines(content), 0, hunks, s); }
      }
      return None;
    }
    PlaceableOrNot(FileLines(content), 0, hunks, starts);
    forall s | Regions(FileLines(content), 0, hunks, s) ensures s == starts {
      RegionsAreUnique(FileLines(content), 0, hunks, s, starts);
    }
    result := Some(Render(lines.value, HasCrlf(content)));
  }
}
