/** The string operations the patch engine (src/apply-patch.ts) relies on:
    trimming, line splitting and joining, and CRLF normalisation. */
module PatchText {

  /** ECMAScript white space and line terminators, as String.prototype.trim drops them. */
  predicate IsSpace(c: char) {
    c in " \t\n\r" || c in ['\U{0B}', '\U{0C}', '\U{A0}', '\U{1680}', '\U{2028}', '\U{2029}', '\U{202F}', '\U{205F}',
                              '\U{3000}', '\U{FEFF}']
    || '\U{2000}' <= c <= '\U{200A}'
  }

  function TrimStart(s: string): (r: string)
    ensures r != "" ==> !IsSpace(r[0])
  {
    if s != "" && IsSpace(s[0]) then TrimStart(s[1..]) else s
  }

  function TrimEnd(s: string): (r: string)
    ensures r <= s
    ensures r != "" ==> !IsSpace(r[|r| - 1])
  {
    if s != "" && IsSpace(s[|s| - 1]) then TrimEnd(s[..|s| - 1]) else s
  }

  function Trim(s: string): string {
    TrimStart(TrimEnd(s))
  }

  predicate StartsWith(s: string, prefix: string) {
    prefix <= s
  }

  /** s.split("\n") */
  function Split(s: string): (lines: seq<string>)
    ensures |lines| > 0
    ensures forall line :: line in lines ==> '\n' !in line
  {
    if s == "" then [""]
    else if s[0] == '\n' then [""] + Split(s[1..])
    else var rest := Split(s[1..]); [[s[0]] + rest[0]] + rest[1..]
  }

  /** lines.join("\n") */
  function Join(lines: seq<string>): string {
    if lines == [] then "" else if |lines| == 1 then lines[0] else lines[0] + "\n" + Join(lines[1..])
  }

  /** s.replace(/\r\n/g, "\n") */
  function DropCr(s: string): string {
    if s == "" then ""
    else if |s| >= 2 && s[0] == '\r' && s[1] == '\n' then "\n" + DropCr(s[2..])
    else [s[0]] + DropCr(s[1..])
  }

  /** s.replace(/\n/g, "\r\n") */
  function AddCr(s: string): string {
    if s == "" then "" else (if s[0] == '\n' then "\r\n" else [s[0]]) + AddCr(s[1..])
  }

  predicate HasCrlf(s: string) {
    exists i :: 0 <= i < |s| - 1 && s[i] == '\r' && s[i + 1] == '\n'
  }

  /** A line that survives joining, CRLF normalisation and splitting. */
  predicate CleanLine(line: string) {
    '\n' !in line && (line == "" || line[|line| - 1] != '\r')
  }

  lemma {:induction false} JoinSplit(s: string)
    ensures Join(Split(s)) == s
  {
    if s != "" {
      JoinSplit(s[1..]);
      var rest := Split(s[1..]);
      if s[0] == '\n' {
        assert Split(s)[1..] == rest;
      } else if |rest| > 1 {
        assert Split(s)[1..] == rest[1..];
        assert Join(Split(s)) == [s[0]] + (rest[0] + "\n" + Join(rest[1..]));
      }
    }
  }

  lemma {:induction false} SplitOfLine(line: string, tail: string)
    requires '\n' !in line
    ensures Split(line + "\n" + tail) == [line] + Split(tail)
    ensures Split(line) == [line]
  {
    var s := line + "\n" + tail;
    if line == "" {
      assert s[1..] == tail;
    } else {
      assert s[1..] == line[1..] + "\n" + tail;
      SplitOfLine(line[1..], tail);
      assert line[0] != '\n' by { assert line[0] in line; }
      assert [line[0]] + line[1..] == line;
      assert ([line[1..]] + Split(tail))[1..] == Split(tail);
    }
  }

  lemma {:induction false} SplitJoin(lines: seq<string>)
    requires lines != [] && forall line :: line in lines ==> '\n' !in line
    ensures Split(Join(lines)) == lines
  {
    hide Split;
    if |lines| == 1 {
      SplitOfLine(lines[0], "");
      assert [lines[0]] == lines;
    } else {
      SplitJoin(lines[1..]) by { assert forall line :: line in lines[1..] ==> line in lines; }
      SplitOfLine(lines[0], Join(lines[1..]));
      assert [lines[0]] + lines[1..] == lines;
    }
  }

  lemma {:induction false} JoinConcat(a: seq<string>, b: seq<string>)
    requires a != [] && b != []
    ensures Join(a + b) == Join(a) + "\n" + Join(b)
  {
    if |a| == 1 {
      assert (a + b)[1..] == b;
    } else {
      assert (a + b)[1..] == a[1..] + b;
      JoinConcat(a[1..], b);
      assert Join(a + b) == a[0] + "\n" + (Join(a[1..]) + "\n" + Join(b));
      assert a[0] + "\n" + (Join(a[1..]) + "\n" + Join(b)) == (a[0] + "\n" + Join(a[1..])) + "\n" + Join(b);
    }
  }

  lemma {:induction false} DropCrOfClean(s: string)
    requires !HasCrlf(s)
    ensures DropCr(s) == s
  {
    if s != "" {
      if |s| >= 2 && s[0] == '\r' { assert s[1] != '\n'; }
      assert !HasCrlf(s[1..]) by {
        forall i | 0 <= i < |s[1..]| - 1 ensures !(s[1..][i] == '\r' && s[1..][i + 1] == '\n') {
          assert s[i + 1] == s[1..][i] && s[i + 2] == s[1..][i + 1];
        }
      }
      DropCrOfClean(s[1..]);
    }
  }

  /** Joining clean lines never makes a CRLF. */
  lemma {:induction false} JoinIsClean(lines: seq<string>)
    requires lines != [] && forall line :: line in lines ==> CleanLine(line)
    ensures !HasCrlf(Join(lines))
  {
    var s := Join(lines);
    assert lines[0] in lines && CleanLine(lines[0]);
    if |lines| > 1 {
      JoinIsClean(lines[1..]);
      var line, tail := lines[0], Join(lines[1..]);
      assert s == line + "\n" + tail;
      forall i | 0 <= i < |s| - 1 ensures !(s[i] == '\r' && s[i + 1] == '\n') {
        if i > |line| { assert s[i] == tail[i - |line| - 1] && s[i + 1] == tail[i - |line|]; }
        else if i < |line| { assert s[i] == line[i]; if i + 1 < |line| { assert s[i + 1] in line; } }
      }
    } else {
      forall i | 0 <= i < |s| - 1 ensures !(s[i] == '\r' && s[i + 1] == '\n') {
        assert s[i + 1] in lines[0];
      }
    }
  }

  /** Adding CRs to text that has none before a newline is undone by dropping them. */
  lemma {:induction false} DropAddCr(s: string)
    requires !HasCrlf(s)
    ensures DropCr(AddCr(s)) == s
  {
    if s != "" {
      assert !HasCrlf(s[1..]) by {
        forall i | 0 <= i < |s[1..]| - 1 ensures !(s[1..][i] == '\r' && s[1..][i + 1] == '\n') {
          assert s[i + 1] == s[1..][i] && s[i + 2] == s[1..][i + 1];
        }
      }
      DropAddCr(s[1..]);
      var t := AddCr(s);
      if s[0] == '\n' {
        assert t == "\r\n" + AddCr(s[1..]) && t[2..] == AddCr(s[1..]);
      } else {
        assert t[1..] == AddCr(s[1..]);
        if |t| >= 2 && s[0] == '\r' { assert s[1] != '\n' && t[1] == AddCr(s[1..])[0]; }
      }
    }
  }

  lemma {:induction false} AddCrHasCrlf(s: string)
    requires '\n' in s
    ensures HasCrlf(AddCr(s))
  {
    var t := AddCr(s);
    if s[0] == '\n' {
      assert t[0] == '\r' && t[1] == '\n';
    } else {
      AddCrHasCrlf(s[1..]);
      var i :| 0 <= i < |t[1..]| - 1 && t[1..][i] == '\r' && t[1..][i + 1] == '\n';
      assert t[i + 1] == '\r' && t[i + 2] == '\n';
    }
  }

  lemma {:induction false} TrimEndKeeps(s: string)
    ensures TrimEnd(s) == s <==> s == "" || !IsSpace(s[|s| - 1])
  {}

  /** A non-space in front survives trimming; only the end is cut. */
  lemma {:induction false} TrimOfHead(s: string)
    requires s != "" && !IsSpace(s[0])
    ensures TrimEnd(s) != "" && TrimEnd(s)[0] == s[0] && Trim(s) == TrimEnd(s)
  {
    if IsSpace(s[|s| - 1]) { TrimOfHead(s[..|s| - 1]); }
  }
}
