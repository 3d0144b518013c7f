/** The final result is valid JSON, and reads back as the document it was made from. */
module AcpValidity {
  import opened Common
  import opened AcpResult
  import opened AcpDocument
  import U = CodeUnits
  import C = CanonicalJson

  /** A value as the host hands it over: its strings are UTF-16, its numbers rendered
      numbers, and the keys of an object differ. */
  ghost predicate Sound(v: Json) {
    match v
    case Number(lexeme) => lexeme != [] && forall u :: u in lexeme ==> C.NumberUnit(u)
    case Str(text) => Proper(text)
    case Arr(items) => forall i :: 0 <= i < |items| ==> Sound(items[i])
    case Obj(fields) =>
      && (forall i :: 0 <= i < |fields| ==> Proper(fields[i].0) && Sound(fields[i].1))
      && forall i, j :: 0 <= i < j < |fields| ==> fields[i].0 != fields[j].0
    case _ => true
  }

  lemma ProperRest(text: Text)
    requires Proper(text) && text != []
    ensures Proper(text[1..])
  {}

  /** Different texts have different code units. */
  lemma {:induction false} UnitsDiffer(a: Text, b: Text)
    requires Proper(a) && Proper(b) && Units(a) == Units(b)
    ensures a == b
  {
    if a != [] { FirstUnit(a); }
    if b != [] { FirstUnit(b); }
    if a != [] && b != [] {
      SameHead(a, b);
      assert Units(a)[|UnitsOf(a[0])|..] == Units(a[1..]) && Units(b)[|UnitsOf(b[0])|..] == Units(b[1..]);
      ProperRest(a);
      ProperRest(b);
      UnitsDiffer(a[1..], b[1..]);
      HeadAndRest(a);
      HeadAndRest(b);
    }
  }

  lemma SameHead(a: Text, b: Text)
    requires Proper(a) && Proper(b) && a != [] && b != [] && Units(a) == Units(b)
    ensures a[0] == b[0]
  {
    FirstUnit(a);
    FirstUnit(b);
    if a[0] < 0x10000 <= b[0] {
      LoneHalf(a, b);
    } else if b[0] < 0x10000 <= a[0] {
      LoneHalf(b, a);
    } else if a[0] >= 0x10000 && b[0] >= 0x10000 {
      assert Units(a)[1] == UnitsOf(a[0])[1] && Units(b)[1] == UnitsOf(b[0])[1];
    }
  }

  /** Half a pair is not followed by the other half. */
  lemma LoneHalf(a: Text, b: Text)
    requires Proper(a) && a != [] && b != [] && a[0] < 0x10000 <= b[0]
    ensures Units(a) != Units(b)
  {
    FirstUnit(a);
    FirstUnit(b);
    assert |Units(b)| > 1 && Units(b)[1] == UnitsOf(b[0])[1];
    assert Units(a)[1..] == Units(a[1..]);
    if |a| > 1 { FirstUnit(a[1..]); }
  }

  lemma {:induction false} ItemsAre(items: seq<Json>)
    ensures |ItemsInUnits(items)| == |items|
    ensures forall i :: 0 <= i < |items| ==> ItemsInUnits(items)[i] == InUnits(items[i])
  {
    if items != [] { ItemsAre(items[1..]); }
  }

  lemma {:induction false} FieldsAre(fields: Source)
    ensures |FieldsInUnits(fields)| == |fields|
    ensures forall i :: 0 <= i < |fields| ==>
              FieldsInUnits(fields)[i] == (Units(fields[i].0), InUnits(fields[i].1))
  {
    if fields != [] { FieldsAre(fields[1..]); }
  }

  /** A sound value is well formed as code units. */
  lemma {:induction false} SoundIsWellFormed(v: Json)
    requires Sound(v)
    ensures ProperJson(v) && C.WellFormed(InUnits(v))
  {
    match v
    case Number(lexeme) => AsciiUnits(lexeme);
    case Arr(items) =>
      ItemsAre(items);
      forall i | 0 <= i < |items| ensures ProperJson(items[i]) && C.WellFormed(InUnits(items[i])) {
        SoundIsWellFormed(items[i]);
      }
    case Obj(fields) =>
      FieldsAre(fields);
      forall i | 0 <= i < |fields| ensures ProperJson(fields[i].1) && C.WellFormed(InUnits(fields[i].1)) {
        SoundIsWellFormed(fields[i].1);
      }
      forall i, j | 0 <= i < j < |fields| ensures Units(fields[i].0) != Units(fields[j].0) {
        if Units(fields[i].0) == Units(fields[j].0) { UnitsDiffer(fields[i].0, fields[j].0); }
      }
    case _ =>
  }

  // ---- everything that is serialized is sound ----

  lemma {:induction false} PutIsSound(source: Source, key: Text, value: Json)
    requires Sound(Obj(source)) && Proper(key) && Sound(value)
    ensures Sound(Obj(Put(source, key, value)))
  {
    hide Sound, Proper;
    if source == [] {
      NothingIsSound();
      OneMoreIsSound((key, value), []);
      assert [(key, value)] + [] == [(key, value)];
    } else {
      var rest := source[1..];
      RestIsSound(source);
      if source[0].0 == key {
        OneMoreIsSound((key, value), rest);
      } else {
        PutIsSound(rest, key, value);
        PutMembers(rest, key, value);
        forall f | f in Put(rest, key, value) ensures f.0 != source[0].0 {
          if f.0 != key {
            var i :| 0 <= i < |rest| && rest[i].0 == f.0;
            assert rest[i] in rest;
          }
        }
        OneMoreIsSound(source[0], Put(rest, key, value));
      }
    }
  }

  lemma RestIsSound(source: Source)
    requires Sound(Obj(source)) && source != []
    ensures Sound(Obj(source[1..])) && Proper(source[0].0) && Sound(source[0].1)
    ensures forall f :: f in source[1..] ==> f.0 != source[0].0
  {
    hide Proper;
  }

  lemma {:induction false} PutMembers(source: Source, key: Text, value: Json)
    ensures forall f :: f in Put(source, key, value) ==>
              f.0 == key || exists i :: 0 <= i < |source| && source[i].0 == f.0
  {
    if source != [] {
      PutMembers(source[1..], key, value);
      forall f | f in Put(source, key, value)
        ensures f.0 == key || exists i :: 0 <= i < |source| && source[i].0 == f.0
      {
        if f != source[0] && f.0 != key {
          assert f in source[1..] || f in Put(source[1..], key, value);
          if f in source[1..] {
            var i :| 0 <= i < |source[1..]| && source[1..][i] == f;
            assert source[i + 1].0 == f.0;
          } else {
            var i :| 0 <= i < |source[1..]| && source[1..][i].0 == f.0;
            assert source[i + 1].0 == f.0;
          }
        }
      }
    }
  }

  lemma CleanIsProper(text: Text)
    ensures Proper(Clean(text))
  {}

  lemma ProperCut(text: Text, maxBytes: nat)
    requires Proper(text)
    ensures Proper(Truncated(text, maxBytes))
  {
    CleanIsProper(text[TailStart(text, maxBytes)..]);
  }

  lemma NamesAreProper(s: string)
    ensures Proper(Name(s))
  {}

  lemma PairIsSound(s: string, v: Json, t: string, w: Json)
    requires |s| != |t| && Sound(v) && Sound(w)
    ensures Sound(Obj([(Name(s), v), (Name(t), w)]))
  {
    NamesAreProper(s);
    NamesAreProper(t);
    assert |Name(s)| != |Name(t)|;
  }

  lemma OneIsSound(v: Json)
    requires Sound(v)
    ensures Sound(Arr([v]))
  {}

  lemma NameIsSound(s: string)
    ensures Sound(Str(Name(s)))
  {}

  lemma TextIsSound(text: Text)
    requires Proper(text)
    ensures Sound(Str(text))
  {}

  lemma OutputIsSound(text: Text)
    requires Proper(text)
    ensures Sound(FinalOutput(text))
  {
    hide Name, Sound, Proper, FinalOutput;
    OutputIs(text);
    NameIsSound("agent");
    NameIsSound("text/plain");
    TextIsSound(text);
    var part := Obj([(Name("content_type"), Str(Name("text/plain"))), (Name("content"), Str(text))]);
    PairIsSound("content_type", Str(Name("text/plain")), "content", Str(text));
    OneIsSound(part);
    PairIsSound("role", Str(Name("agent")), "parts", Arr([part]));
    OneIsSound(Obj([(Name("role"), Str(Name("agent"))), (Name("parts"), Arr([part]))]));
  }

  // ---- the compact document and the default output ----

  lemma {:induction false} LookupIsSound(source: Source, key: Text)
    requires Sound(Obj(source)) && Lookup(source, key).Some?
    ensures Sound(Lookup(source, key).value)
  {
    if source[0].0 != key { LookupIsSound(source[1..], key); }
  }

  lemma KeptIsSound(source: Source, name: string)
    requires Sound(Obj(source))
    ensures |KeptField(source, name)| <= 1
    ensures forall f :: f in KeptField(source, name) ==> f.0 == Chars(name) && Sound(f.1)
  {
    hide Chars, Lookup, Truncated;
    if Lookup(source, Chars(name)).Some? {
      LookupIsSound(source, Chars(name));
      match Lookup(source, Chars(name)).value
      case Str(text) => ProperCut(text, COMPACT_VALUE_BYTES);
      case _ =>
    }
  }

  /** Lists of names of which no two read the same. */
  ghost predicate Different(names: seq<string>) {
    && (forall i :: 0 <= i < |names| ==> Plain(names[i]))
    && forall i, j :: 0 <= i < j < |names| ==> names[i] != names[j]
  }

  ghost predicate Plain(s: string) {
    forall c :: c in s ==> c as int < 0x80
  }

  lemma SameName(s: string, t: string)
    requires Plain(s) && Plain(t) && Chars(s) == Chars(t)
    ensures s == t && Proper(Chars(s))
  {
    hide Chars;
    CharsAre(s);
    CharsAre(t);
    assert |Name(s)| == |s| && |Name(t)| == |t|;
    forall i | 0 <= i < |s| ensures s[i] == t[i] {
      assert s[i] in s && t[i] in t;
      assert Name(s)[i] == s[i] as int && Name(t)[i] == t[i] as int;
    }
  }

  lemma {:induction false} CompactIsSound(source: Source, names: seq<string>)
    requires Sound(Obj(source)) && Different(names)
    ensures Sound(Obj(CompactFields(source, names)))
    ensures forall f :: f in CompactFields(source, names) ==>
              exists i :: 0 <= i < |names| && f.0 == Chars(names[i])
  {
    hide KeptField, Chars, Plain, Proper, Sound;
    if names == [] {
      NothingIsSound();
    } else {
      var name, rest := names[0], names[1..];
      KeptIsSound(source, name);
      CompactIsSound(source, rest);
      SameName(name, name);
      var kept, more := KeptField(source, name), CompactFields(source, rest);
      forall f | f in more ensures f.0 != Chars(name) && exists i :: 0 <= i < |names| && f.0 == Chars(names[i]) {
        var i :| 0 <= i < |rest| && f.0 == Chars(rest[i]);
        assert rest[i] == names[i + 1];
        if f.0 == Chars(name) { SameName(name, rest[i]); }
      }
      if kept == [] {
        LeftUnit(more);
      } else {
        assert kept == [kept[0]];
        assert kept[0] in kept;
        OneMoreIsSound(kept[0], more);
        assert kept[0].0 == Chars(names[0]);
      }
    }
  }

  lemma NothingIsSound()
    ensures Sound(Obj([]))
  {}

  lemma OneMoreIsSound(f: (Text, Json), more: Source)
    requires Proper(f.0) && Sound(f.1) && Sound(Obj(more)) && forall g :: g in more ==> g.0 != f.0
    ensures Sound(Obj([f] + more))
  {
    var all := [f] + more;
    forall i, j | 0 <= i < j < |all| ensures all[i].0 != all[j].0 {
      assert all[j] == more[j - 1];
      if i > 0 { assert all[i] == more[i - 1]; } else { assert more[j - 1] in more; }
    }
  }

  lemma KeysAreDifferent()
    ensures Different(COMPACT_KEYS)
  {}

  lemma {:induction false} JoinedIsProper(lines: seq<Text>)
    requires forall line :: line in lines ==> Proper(line)
    ensures Proper(JoinLines(lines))
  {
    if lines != [] {
      assert lines[0] in lines;
      if |lines| > 1 {
        forall line | line in lines[1..] ensures Proper(line) { assert line in lines; }
        JoinedIsProper(lines[1..]);
        LineIsProper(lines[0], JoinLines(lines[1..]));
      }
    }
  }

  lemma LineIsProper(line: Text, rest: Text)
    requires Proper(line) && Proper(rest)
    ensures Proper(line + [0x0A] + rest)
  {}

  lemma {:induction false} ContentsAreProper(parts: seq<Json>)
    requires forall i :: 0 <= i < |parts| ==> Sound(parts[i])
    ensures forall text :: text in Contents(parts) ==> Proper(text)
  {
    hide Lookup, Chars, Proper;
    if parts != [] {
      ContentsAreProper(parts[1..]);
      match parts[0]
      case Obj(fields) =>
        if Lookup(fields, Chars(CONTENT)).Some? { LookupIsSound(fields, Chars(CONTENT)); }
      case _ =>
    }
  }

  lemma {:induction false} AllContentsAreProper(messages: seq<Json>)
    requires forall i :: 0 <= i < |messages| ==> Sound(messages[i])
    ensures forall text :: text in AllContents(messages) ==> Proper(text)
  {
    hide Lookup, Chars, Proper, Contents;
    if messages != [] {
      AllContentsAreProper(messages[1..]);
      match messages[0]
      case Obj(fields) =>
        match Lookup(fields, Chars(PARTS)) {
          case Some(v) =>
            LookupIsSound(fields, Chars(PARTS));
            if v.Arr? { ContentsAreProper(v.items); }
          case None =>
        }
      case _ =>
    }
  }

  lemma OutputTextIsProper(source: Source)
    requires Sound(Obj(source))
    ensures Proper(AcpOutputText(Lookup(source, Chars(OUTPUT))))
  {
    hide Lookup, Chars, Proper, AllContents, JoinLines;
    match Lookup(source, Chars(OUTPUT))
    case Some(v) =>
      LookupIsSound(source, Chars(OUTPUT));
      if v.Arr? {
        AllContentsAreProper(v.items);
        JoinedIsProper(AllContents(v.items));
      } else {
        NothingIsProper();
      }
    case None => NothingIsProper();
  }

  lemma NothingIsProper()
    ensures Proper([])
  {}

  // ---- main result ----

  /** The final result is valid JSON: read again, its text gives back the document,
      with nothing left over, and the document is the kept fields around the output. */
  lemma FinalResultReadsBack(result: Json, finalOutput: Option<Text>, r: Text)
      returns (fields: Source, shown: Text)
    requires IsFinal(result, finalOutput, r) && Sound(result) && (finalOutput.Some? ==> Proper(finalOutput.value))
    ensures C.ReadValue(Units(r)) == Some((InUnits(Obj(Put(fields, Name("output"), FinalOutput(shown)))), []))
    ensures AcpOutputText(Lookup(Put(fields, Name("output"), FinalOutput(shown)), Name("output"))) == shown
    ensures r == Stringify(Obj(Put(fields, Name("output"), FinalOutput(shown))))
  {
    hide Name, Chars, Sound, Proper, Lookup, Truncated, Fits, Stringify, FinalOutput, CompactFields, C.ReadValue;
    NamesAre();
    var source := SourceOf(result);
    SourceIsSound(result);
    KeysAreDifferent();
    CompactIsSound(source, COMPACT_KEYS);
    OutputTextIsProper(source);
    var text := if finalOutput.Some? then finalOutput.value else AcpOutputText(Lookup(source, Chars(OUTPUT)));
    fields := if Fits(source, []) then source else Compact(source);
    CompactFits(source);
    if Fits(fields, text) {
      shown := text;
    } else {
      var k :| LongestTail(fields, text, k) && r == SerializedUtf8(fields, Clean(text[k..]));
      shown := Clean(text[k..]);
      CleanIsProper(text[k..]);
    }
    OutputReadsBack(fields, shown);
    OutputIsSound(shown);
    NamesAreProper("output");
    PutIsSound(fields, Name("output"), FinalOutput(shown));
    DocumentReadsBack(Obj(Put(fields, Name("output"), FinalOutput(shown))));
  }

  lemma SourceIsSound(result: Json)
    requires Sound(result)
    ensures Sound(Obj(SourceOf(result)))
  {}

  lemma DocumentReadsBack(v: Json)
    requires Sound(v)
    ensures C.ReadValue(Units(Stringify(v))) == Some((InUnits(v), []))
  {
    hide C.ReadValue, Stringify, Units, InUnits;
    SoundIsWellFormed(v);
    StringifyIsPrint(v);
    C.ReadPrinted(InUnits(v), []);
    assert C.Print(InUnits(v)) + [] == C.Print(InUnits(v));
  }
}
