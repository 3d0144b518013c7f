/** The final result of a run as a document: its text is JSON, its bytes are UTF-8,
    its output is the end of the run's output, and its other fields are those of the
    result, told by their names and limits. */
module AcpDocument {
  import opened Common
  import opened AcpResult
  import U = CodeUnits
  import C = CanonicalJson

  // ---- the text is what JSON.stringify prints ----

  /** The UTF-16 code units of a code point. */
  function UnitsOf(p: Point): U.Text {
    if p < 0x10000 then [p] else [0xD800 + (p - 0x10000) / 0x400, 0xDC00 + (p - 0x10000) % 0x400]
  }

  function Units(text: Text): U.Text {
    if text == [] then [] else UnitsOf(text[0]) + Units(text[1..])
  }

  /** No two points of a text are the halves of a surrogate pair. */
  predicate Proper(text: Text) {
    forall i, j :: 0 <= i && j == i + 1 < |text| ==> !(0xD800 <= text[i] < 0xDC00 <= text[j] < 0xE000)
  }

  predicate ProperJson(v: Json) {
    match v
    case Str(text) => Proper(text)
    case Arr(items) => forall i :: 0 <= i < |items| ==> ProperJson(items[i])
    case Obj(fields) => forall i :: 0 <= i < |fields| ==> Proper(fields[i].0) && ProperJson(fields[i].1)
    case _ => true
  }

  /** The same value with its strings as code units. */
  function InUnits(v: Json): C.Json {
    match v
    case Null => C.Null
    case Bool(b) => C.Bool(b)
    case Number(lexeme) => C.Number(Units(lexeme))
    case Str(text) => C.Str(Units(text))
    case Arr(items) => C.Arr(ItemsInUnits(items))
    case Obj(fields) => C.Obj(FieldsInUnits(fields))
  }

  function ItemsInUnits(items: seq<Json>): seq<C.Json> {
    if items == [] then [] else [InUnits(items[0])] + ItemsInUnits(items[1..])
  }

  function FieldsInUnits(fields: seq<(Text, Json)>): seq<(U.Text, C.Json)> {
    if fields == [] then [] else [FieldInUnits(fields[0])] + FieldsInUnits(fields[1..])
  }

  function FieldInUnits(field: (Text, Json)): (U.Text, C.Json) {
    (Units(field.0), InUnits(field.1))
  }

  lemma {:induction false} UnitsConcat(a: Text, b: Text)
    ensures Units(a + b) == Units(a) + Units(b)
  {
    if a == [] {
      LeftUnit(b);
      LeftUnit(Units(b));
    } else {
      assert (a + b)[1..] == a[1..] + b;
      UnitsConcat(a[1..], b);
      Assoc(UnitsOf(a[0]), Units(a[1..]), Units(b));
    }
  }

  lemma OneUnit(p: Point)
    ensures Units([p]) == UnitsOf(p)
  {
    assert [p][1..] == [];
    assert UnitsOf(p) + [] == UnitsOf(p);
  }

  lemma UnitsOfThree(a: Text, b: Text, c: Text)
    ensures Units(a + b + c) == Units(a) + Units(b) + Units(c)
  {
    UnitsConcat(a + b, c);
    UnitsConcat(a, b);
  }

  lemma {:induction false} AsciiUnits(text: Text)
    requires forall p :: p in text ==> p < 0x10000
    ensures Units(text) == text
  {
    if text != [] {
      assert text[0] in text;
      forall p | p in text[1..] ensures p < 0x10000 { assert p in text; }
      AsciiUnits(text[1..]);
      HeadAndRest(text);
    }
  }

  lemma HexUnits(d: int)
    requires 0 <= d < 16
    ensures Hex(d) == C.Hex(d)
  {}

  lemma PointEscapes(p: Point)
    ensures p < 0x10000 ==> Units(EscapePoint(p)) == C.EscapeUnit(p)
    ensures p >= 0x10000 ==> Units(EscapePoint(p)) == UnitsOf(p)
  {
    if p < 0x10000 {
      if p < 0x20 || Surrogate(p) {
        HexUnits(p / 4096);
        HexUnits(p / 256 % 16);
        HexUnits(p / 16 % 16);
        HexUnits(p % 16);
      }
      assert EscapePoint(p) == C.EscapeUnit(p);
      AsciiUnits(EscapePoint(p));
    } else {
      OneUnit(p);
    }
  }

  lemma {:induction false} EscapeInUnits(text: Text)
    requires Proper(text)
    ensures Units(Escape(text)) == C.Escape(Units(text))
  {
    hide EscapePoint, C.EscapeUnit;
    if text != [] {
      var p, rest := text[0], text[1..];
      EscapeInUnits(rest);
      PointEscapes(p);
      UnitsConcat(EscapePoint(p), Escape(rest));
      if p < 0x10000 {
        assert Units(text) == [p] + Units(rest);
        assert Units(text)[1..] == Units(rest);
        if rest != [] { FirstUnit(rest); }
      } else {
        assert Units(text)[2..] == Units(rest);
      }
    }
  }

  /** The first code unit of a text is its first point, or a high half. */
  lemma FirstUnit(text: Text)
    requires text != []
    ensures Units(text) != []
    ensures if text[0] < 0x10000 then Units(text)[0] == text[0] else 0xD800 <= Units(text)[0] < 0xDC00
  {}

  lemma QuoteInUnits(text: Text)
    requires Proper(text)
    ensures Units(Quote(text)) == C.Quote(Units(text))
  {
    hide Escape, C.Escape, Units;
    EscapeInUnits(text);
    OneUnit(0x22);
    UnitsOfThree([0x22], Escape(text), [0x22]);
  }

  lemma Words()
    ensures Units(Chars(NULL)) == C.NULL && Units(Chars(TRUE)) == C.TRUE && Units(Chars(FALSE)) == C.FALSE
  {
    hide Units, Chars;
    CharsAre(NULL);
    CharsAre(TRUE);
    CharsAre(FALSE);
    AsciiUnits(Name(NULL));
    AsciiUnits(Name(TRUE));
    AsciiUnits(Name(FALSE));
    assert Name(NULL) == C.NULL && Name(TRUE) == C.TRUE && Name(FALSE) == C.FALSE;
  }

  /** The text of a document is the one that JSON.stringify prints. */
  lemma {:induction false} StringifyIsPrint(v: Json)
    requires ProperJson(v)
    ensures Units(Stringify(v)) == C.Print(InUnits(v))
    decreases v, 1
  {
    hide Units, Items, Fields, Quote, C.Quote, C.Commas;
    match v
    case Arr(items) =>
      ItemsArePrinted(items);
      OneUnit(0x5B);
      OneUnit(0x5D);
      UnitsOfThree([0x5B], Items(items), [0x5D]);
    case Obj(fields) =>
      FieldsArePrinted(fields);
      OneUnit(0x7B);
      OneUnit(0x7D);
      UnitsOfThree([0x7B], Fields(fields), [0x7D]);
    case Str(text) => QuoteInUnits(text);
    case _ => Words();
  }

  lemma {:induction false} ItemsArePrinted(items: seq<Json>)
    requires forall i :: 0 <= i < |items| ==> ProperJson(items[i])
    ensures Units(Items(items)) == C.Commas(C.PrintItems(ItemsInUnits(items)))
    decreases items, 0
  {
    hide Stringify, C.Print;
    if items != [] {
      StringifyIsPrint(items[0]);
      ItemsArePrinted(items[1..]);
      var head, texts := C.Print(InUnits(items[0])), C.PrintItems(ItemsInUnits(items[1..]));
      assert ItemsInUnits(items)[1..] == ItemsInUnits(items[1..]);
      assert C.PrintItems(ItemsInUnits(items)) == [head] + texts;
      if |items| == 1 {
        assert items[1..] == [];
      } else {
        assert ([head] + texts)[1..] == texts;
        OneUnit(COMMA);
        UnitsOfThree(Stringify(items[0]), [COMMA], Items(items[1..]));
        SameLength(items);
      }
    }
  }

  lemma {:induction false} SameLength(items: seq<Json>)
    ensures |ItemsInUnits(items)| == |items|
  {
    if items != [] { SameLength(items[1..]); }
  }

  lemma FieldIsPrinted(field: (Text, Json))
    requires Proper(field.0) && ProperJson(field.1)
    ensures Units(Field(field)) == C.Member(Units(field.0), C.Print(InUnits(field.1)))
    decreases field, 2
  {
    hide Units, Stringify, C.Print, Quote, C.Quote;
    StringifyIsPrint(field.1);
    QuoteInUnits(field.0);
    OneUnit(0x3A);
    UnitsOfThree(Quote(field.0), [0x3A], Stringify(field.1));
  }

  lemma {:induction false} FieldsArePrinted(fields: seq<(Text, Json)>)
    requires forall i :: 0 <= i < |fields| ==> Proper(fields[i].0) && ProperJson(fields[i].1)
    ensures Units(Fields(fields)) == C.Commas(C.Members(C.PrintFields(FieldsInUnits(fields))))
    ensures |C.Members(C.PrintFields(FieldsInUnits(fields)))| == |fields|
    decreases fields, 0
  {
    hide Stringify, C.Print, Units, Field, C.Member, C.Commas, Fields;
    if fields == [] {
      NoFieldsPrinted();
    } else {
      FieldIsPrinted(fields[0]);
      FieldsArePrinted(fields[1..]);
      var head := C.Member(Units(fields[0].0), C.Print(InUnits(fields[0].1)));
      var texts := C.Members(C.PrintFields(FieldsInUnits(fields[1..])));
      MembersSplit(fields);
      CommasOf(head, texts);
      if |fields| == 1 {
        assert fields[1..] == [];
        OneField(fields);
      } else {
        MoreFields(fields);
        OneUnit(COMMA);
        UnitsOfThree(Field(fields[0]), [COMMA], Fields(fields[1..]));
      }
    }
  }

  lemma NoFieldsPrinted()
    ensures Units(Fields([])) == C.Commas(C.Members(C.PrintFields(FieldsInUnits([]))))
    ensures C.Members(C.PrintFields(FieldsInUnits([]))) == []
  {}

  lemma OneField(fields: Source)
    requires |fields| == 1
    ensures Fields(fields) == Field(fields[0])
  {}

  lemma MoreFields(fields: Source)
    requires |fields| > 1
    ensures Fields(fields) == Field(fields[0]) + [COMMA] + Fields(fields[1..])
  {}

  lemma CommasOf(head: U.Text, texts: seq<U.Text>)
    ensures C.Commas([head] + texts) == if texts == [] then head else head + [C.COMMA] + C.Commas(texts)
  {
    assert ([head] + texts)[1..] == texts;
  }

  lemma MembersSplit(fields: Source)
    requires fields != []
    ensures C.Members(C.PrintFields(FieldsInUnits(fields)))
              == [C.Member(Units(fields[0].0), C.Print(InUnits(fields[0].1)))]
                   + C.Members(C.PrintFields(FieldsInUnits(fields[1..])))
  {
    hide C.Print, Units, C.Member;
    var field, rest := FieldInUnits(fields[0]), FieldsInUnits(fields[1..]);
    assert FieldsInUnits(fields) == [field] + rest && ([field] + rest)[1..] == rest;
    var printed, texts := (field.0, C.Print(field.1)), C.PrintFields(rest);
    assert C.PrintField(field) == printed;
    assert C.PrintFields([field] + rest) == [printed] + texts && ([printed] + texts)[1..] == texts;
  }

  // ---- names and limits ----

  /** A name in plain characters. */
  function Name(s: string): Text {
    seq(|s|, i requires 0 <= i < |s| => if s[i] as int < 0x80 then s[i] as int else 0)
  }

  lemma {:induction false} CharsAre(s: string)
    requires forall c :: c in s ==> c as int < 0x80
    ensures Chars(s) == Name(s)
  {
    if s != "" {
      assert s[0] in s;
      forall c | c in s[1..] ensures c as int < 0x80 { assert c in s; }
      CharsAre(s[1..]);
      assert Name(s) == [s[0] as int] + Name(s[1..]);
    }
  }

  lemma NamesAre()
    ensures Chars(OUTPUT) == Name("output") && Chars(ROLE) == Name("role") && Chars(AGENT) == Name("agent")
    ensures Chars(PARTS) == Name("parts") && Chars(CONTENT_TYPE) == Name("content_type")
    ensures Chars(TEXT_PLAIN) == Name("text/plain") && Chars(CONTENT) == Name("content")
  {
    hide Chars, Name;
    CharsAre(OUTPUT);
    CharsAre(ROLE);
    CharsAre(AGENT);
    CharsAre(PARTS);
    CharsAre(CONTENT_TYPE);
    CharsAre(TEXT_PLAIN);
    CharsAre(CONTENT);
  }

  /** The one message that stands for the output. */
  lemma OutputIs(text: Text)
    ensures FinalOutput(text) ==
            Arr([Obj([(Name("role"), Str(Name("agent"))),
                      (Name("parts"), Arr([Obj([(Name("content_type"), Str(Name("text/plain"))),
                                                (Name("content"), Str(text))])]))])])
  {
    hide Chars, Name;
    NamesAre();
  }

  // ---- setting a field ----

  /** Setting a field gives it the value and leaves every other as it was; a new one
      comes last, and an old one keeps its place. */
  lemma {:induction false} PutIs(source: Source, key: Text, value: Json)
    ensures Lookup(Put(source, key, value), key) == Some(value)
    ensures forall other :: other != key ==> Lookup(Put(source, key, value), other) == Lookup(source, other)
    ensures (forall i :: 0 <= i < |source| ==> source[i].0 != key) ==>
              Put(source, key, value) == source + [(key, value)]
    ensures (exists i :: 0 <= i < |source| && source[i].0 == key) ==>
              && |Put(source, key, value)| == |source|
              && forall i :: 0 <= i < |source| ==> Put(source, key, value)[i].0 == source[i].0
  {
    if source != [] {
      PutIs(source[1..], key, value);
      if source[0].0 != key && exists i :: 0 <= i < |source| && source[i].0 == key {
        var i :| 0 <= i < |source| && source[i].0 == key;
        assert source[1..][i - 1].0 == key;
      }
    }
  }

  /** A field is found by the first entry of its name. */
  lemma {:induction false} LookupIs(source: Source, key: Text, value: Json)
    ensures Lookup(source, key) == Some(value) <==>
            exists i :: 0 <= i < |source| && source[i] == (key, value) && forall j :: 0 <= j < i ==> source[j].0 != key
  {
    if source != [] {
      if source[0].0 != key {
        LookupIs(source[1..], key, value);
        if i :| 0 <= i < |source| && source[i] == (key, value) && forall j :: 0 <= j < i ==> source[j].0 != key {
          assert source[1..][i - 1] == (key, value)
                 && forall j :: 0 <= j < i - 1 ==> source[1..][j] == source[j + 1];
        }
        if i :| 0 <= i < |source[1..]| && source[1..][i] == (key, value)
                && forall j :: 0 <= j < i ==> source[1..][j].0 != key {
          assert source[i + 1] == (key, value)
                 && forall j :: 1 <= j < i + 1 ==> source[j] == source[1..][j - 1];
        }
      } else if source[0].1 == value {
        assert source[0] == (key, value);
      }
    }
  }

  // ---- the output text of a result ----

  /** The texts of several parts, and of several messages, are theirs one after another. */
  lemma {:induction false} ContentsConcat(a: seq<Json>, b: seq<Json>)
    ensures Contents(a + b) == Contents(a) + Contents(b)
  {
    hide PartText;
    if a == [] {
      LeftUnit(b);
      LeftUnit(Contents(b));
    } else {
      assert (a + b)[1..] == a[1..] + b;
      ContentsConcat(a[1..], b);
      Assoc(PartText(a[0]), Contents(a[1..]), Contents(b));
    }
  }

  lemma {:induction false} AllContentsConcat(a: seq<Json>, b: seq<Json>)
    ensures AllContents(a + b) == AllContents(a) + AllContents(b)
  {
    hide MessageTexts;
    if a == [] {
      LeftUnit(b);
      LeftUnit(AllContents(b));
    } else {
      assert (a + b)[1..] == a[1..] + b;
      AllContentsConcat(a[1..], b);
      Assoc(MessageTexts(a[0]), AllContents(a[1..]), AllContents(b));
    }
  }

  /** A part has one text when it is an object with a string as its content, and none
      otherwise; a message has those of its parts when it is an object with a list of
      them, and none otherwise. */
  lemma ContentsOfOne(v: Json)
    ensures Contents([]) == [] && AllContents([]) == []
    ensures (exists fields, text :: v == Obj(fields) && Lookup(fields, Name("content")) == Some(Str(text))
                                    && Contents([v]) == [text])
            || (Contents([v]) == []
                && forall fields, text :: v == Obj(fields) ==> Lookup(fields, Name("content")) != Some(Str(text)))
    ensures (exists fields, parts :: v == Obj(fields) && Lookup(fields, Name("parts")) == Some(Arr(parts))
                                     && AllContents([v]) == Contents(parts))
            || (AllContents([v]) == []
                && forall fields, parts :: v == Obj(fields) ==> Lookup(fields, Name("parts")) != Some(Arr(parts)))
  {
    hide Chars, Name, Lookup;
    NamesAre();
    assert [v][1..] == [];
  }

  /** The texts are joined by newlines. */
  lemma {:induction false} JoinedBy(lines: seq<Text>, last: Text)
    ensures JoinLines([]) == [] && JoinLines([last]) == last
    ensures lines != [] ==> JoinLines(lines + [last]) == JoinLines(lines) + Name("\n") + last
  {
    assert Name("\n") == [0x0A];
    if lines != [] {
      assert (lines + [last])[1..] == lines[1..] + [last];
      if |lines| > 1 {
        JoinedBy(lines[1..], last);
        var first, mid := lines[0] + [0x0A], JoinLines(lines[1..]);
        assert first + (mid + [0x0A] + last) == (first + mid) + [0x0A] + last;
      } else {
        assert lines[1..] + [last] == [last];
      }
    }
  }

  /** Only a list of messages has an output text. */
  lemma OutputTextIs(value: Option<Json>)
    ensures forall messages :: value == Some(Arr(messages)) ==> AcpOutputText(value) == JoinLines(AllContents(messages))
    ensures (forall messages :: value != Some(Arr(messages))) ==> AcpOutputText(value) == []
  {}

  // ---- bytes ----

  /** The bytes of a character, by the table of section 3 of RFC 3629; half a surrogate
      pair counts as U+FFFD. */
  ghost predicate IsUtf8(s: int, bytes: seq<Byte>) {
    && (s <= 0x7F ==> bytes == [s])
    && (0x80 <= s <= 0x7FF ==>
          && |bytes| == 2 && 0xC0 <= bytes[0] <= 0xDF && 0x80 <= bytes[1] <= 0xBF
          && s == (bytes[0] as int - 0xC0) * 0x40 + (bytes[1] as int - 0x80))
    && (0x800 <= s <= 0xFFFF ==>
          && |bytes| == 3 && 0xE0 <= bytes[0] <= 0xEF && 0x80 <= bytes[1] <= 0xBF && 0x80 <= bytes[2] <= 0xBF
          && s == (bytes[0] as int - 0xE0) * 0x1000 + (bytes[1] as int - 0x80) * 0x40 + (bytes[2] as int - 0x80))
    && (0x10000 <= s ==>
          && |bytes| == 4 && 0xF0 <= bytes[0] <= 0xF7 && 0x80 <= bytes[1] <= 0xBF && 0x80 <= bytes[2] <= 0xBF
          && 0x80 <= bytes[3] <= 0xBF
          && s == (bytes[0] as int - 0xF0) * 0x40000 + (bytes[1] as int - 0x80) * 0x1000
                  + (bytes[2] as int - 0x80) * 0x40 + (bytes[3] as int - 0x80))
  }

  lemma Utf8Is(p: Point)
    ensures IsUtf8(if 0xD800 <= p <= 0xDFFF then 0xFFFD else p, EncodePoint(p))
  {
    hide IsUtf8, EncodePoint;
    var s := Scalar(p);
    if 0x10000 <= s { FourBytes(p); } else if 0x800 <= s { ThreeBytes(p); } else { FewBytes(p); }
  }

  lemma FourBytes(p: Point)
    requires Scalar(p) >= 0x10000
    ensures IsUtf8(p, EncodePoint(p)) && p == Scalar(p) && !(0xD800 <= p <= 0xDFFF)
  {
    FourthDigit(p);
    DigitsOfFour(p);
  }

  lemma ThreeBytes(p: Point)
    requires 0x800 <= Scalar(p) <= 0xFFFF
    ensures IsUtf8(Scalar(p), EncodePoint(p))
  {
    var s := Scalar(p);
    var bytes := EncodePoint(p);
    hide EncodePoint, Scalar;
    ThreeDigits(s);
    assert bytes == [0xE0 + s / 4096, 0x80 + s / 64 % 64, 0x80 + s % 64] by { ThreeBytesAre(p); }
  }

  lemma ThreeBytesAre(p: Point)
    requires 0x800 <= Scalar(p) <= 0xFFFF
    ensures var s := Scalar(p); EncodePoint(p) == [0xE0 + s / 4096, 0x80 + s / 64 % 64, 0x80 + s % 64]
  {}

  lemma ThreeDigits(s: int)
    requires 0x800 <= s <= 0xFFFF
    ensures 0 <= s / 4096 <= 15 && 0 <= s / 64 % 64 < 64 && 0 <= s % 64 < 64
    ensures s == s / 4096 * 0x1000 + s / 64 % 64 * 0x40 + s % 64
  {}

  lemma FewBytes(p: Point)
    requires Scalar(p) < 0x800
    ensures IsUtf8(Scalar(p), EncodePoint(p))
  {}

  /** A text of several characters is encoded one by one; decoded again, it is the
      same but for halves of surrogate pairs. */
  lemma BytesAre(text: Text, p: Point)
    ensures Encode([]) == [] && Encode(text + [p]) == Encode(text) + EncodePoint(p)
    ensures |Decode(Encode(text))| == |text|
    ensures forall i :: 0 <= i < |text| ==>
              Decode(Encode(text))[i] == if 0xD800 <= text[i] <= 0xDFFF then 0xFFFD else text[i]
  {
    EncodeConcat(text, [p]);
    assert [p][1..] == [];
    assert EncodePoint(p) + [] == EncodePoint(p);
    DecodeEncode(text);
  }

  /** Cutting a text to a number of bytes leaves it as it is when it has no more; otherwise
      it leaves the longest end that has no more, as UTF-8 has it. */
  lemma CutIs(text: Text, maxBytes: nat) returns (k: nat)
    ensures |Encode(text)| <= maxBytes ==> Truncated(text, maxBytes) == text
    ensures |Encode(text)| > maxBytes ==>
              && 0 < k <= |text| && Truncated(text, maxBytes) == Decode(Encode(text[k..]))
              && |Encode(text[k..])| <= maxBytes
              && forall j :: 0 <= j < k ==> |Encode(text[j..])| > maxBytes
  {
    hide Encode, Size, Clean, Decode;
    EncodedSize(text);
    k := TailStart(text, maxBytes);
    assert text[0..] == text;
    EncodedSize(text[k..]);
    DecodeEncode(text[k..]);
    forall j | 0 <= j < k ensures |Encode(text[j..])| > maxBytes { EncodedSize(text[j..]); }
  }

  // ---- the compact document ----

  /** What the compact document keeps of a field: nothing of a list, an object or an
      absent one, the last 4096 bytes of a string, and any other value as it is. */
  ghost predicate Keeps(source: Source, name: string, kept: Source) {
    match Lookup(source, Name(name))
    case None => kept == []
    case Some(Arr(_)) => kept == []
    case Some(Obj(_)) => kept == []
    case Some(Str(text)) => kept == [(Name(name), Str(Truncated(text, 4096)))]
    case Some(other) => kept == [(Name(name), other)]
  }

  lemma KeptIs(source: Source, name: string)
    requires forall c :: c in name ==> c as int < 0x80
    ensures Keeps(source, name, KeptField(source, name))
  {
    hide Name, Chars, Truncated, Lookup;
    CharsAre(name);
  }

  lemma CompactIs(source: Source) returns (runId: Source, remoteRunId: Source, status: Source, accepted: Source,
                                           mode: Source, error: Source)
    ensures Compact(source) == runId + remoteRunId + status + accepted + mode + error
    ensures Keeps(source, "run_id", runId) && Keeps(source, "remote_run_id", remoteRunId)
    ensures Keeps(source, "status", status) && Keeps(source, "accepted", accepted)
    ensures Keeps(source, "mode", mode) && Keeps(source, "error", error)
  {
    hide Keeps, KeptField;
    KeptIs(source, "run_id");
    KeptIs(source, "remote_run_id");
    KeptIs(source, "status");
    KeptIs(source, "accepted");
    KeptIs(source, "mode");
    KeptIs(source, "error");
    runId, remoteRunId := KeptField(source, "run_id"), KeptField(source, "remote_run_id");
    status, accepted := KeptField(source, "status"), KeptField(source, "accepted");
    mode, error := KeptField(source, "mode"), KeptField(source, "error");
    SixFields(source);
  }

  lemma SixFields(source: Source)
    ensures Compact(source)
              == KeptField(source, "run_id") + KeptField(source, "remote_run_id") + KeptField(source, "status")
                 + KeptField(source, "accepted") + KeptField(source, "mode") + KeptField(source, "error")
  {
    hide KeptField, CompactFields;
    var four: seq<string> := ["status", "accepted", "mode", "error"];
    assert COMPACT_KEYS[1..][1..] == four;
    NextKey(source, COMPACT_KEYS);
    NextKey(source, COMPACT_KEYS[1..]);
    FourFields(source, four);
    var a, b, rest := KeptField(source, "run_id"), KeptField(source, "remote_run_id"), CompactFields(source, four);
    assert a + (b + rest) == (a + b) + rest;
    var c, d := KeptField(source, "status"), KeptField(source, "accepted");
    var e, f := KeptField(source, "mode"), KeptField(source, "error");
    assert (a + b) + (c + (d + (e + f))) == a + b + c + d + e + f;
  }

  lemma FourFields(source: Source, four: seq<string>)
    requires four == ["status", "accepted", "mode", "error"]
    ensures CompactFields(source, four)
              == KeptField(source, "status") + (KeptField(source, "accepted")
                                                  + (KeptField(source, "mode") + KeptField(source, "error")))
  {
    hide KeptField, CompactFields;
    assert four[1..] == ["accepted", "mode", "error"] && four[2..] == ["mode", "error"] && four[3..] == ["error"];
    NextKey(source, four);
    NextKey(source, four[1..]);
    assert four[1..][1..] == four[2..] && four[2..][1..] == four[3..] && four[3..][1..] == [];
    NextKey(source, four[2..]);
    NextKey(source, four[3..]);
    NoKeysLeft(source, KeptField(source, "error"));
  }

  // ---- the final result ----

  /** The document of some fields around an output, as bytes. */
  function Document(fields: Source, output: Text): seq<Byte> {
    Encode(Stringify(Obj(Put(fields, Name("output"), FinalOutput(output)))))
  }

  const BUDGET := 2 * 1024 * 1024

  lemma FitsIsBudget(fields: Source, output: Text)
    ensures Fits(fields, output) <==> |Document(fields, output)| <= BUDGET
    ensures SerializedUtf8(fields, output) == Stringify(Obj(Put(fields, Name("output"), FinalOutput(output))))
  {
    hide Encode, Stringify, Size, Chars, Name;
    NamesAre();
    EncodedSize(SerializedUtf8(fields, output));
  }

  /** The final result of a run has at most two mebibytes. It keeps all fields of the
      result, or the compact ones if the others alone are too many; and its output is
      the whole output if that fits, and otherwise the longest end of it that does. */
  lemma FinalResultIs(result: Json, finalOutput: Option<Text>, r: Text)
      returns (fields: Source, text: Text, shown: Text)
    requires IsFinal(result, finalOutput, r)
    ensures |Encode(r)| <= BUDGET && Encode(r) == Document(fields, shown)
    ensures match finalOutput
            case Some(given) => text == given
            case None => forall source :: result == Obj(source) ==>
                           text == AcpOutputText(Lookup(source, Name("output")))
    ensures finalOutput == None && !result.Obj? ==> text == []
    ensures forall source :: result == Obj(source) ==>
              fields == if |Document(source, [])| <= BUDGET then source else Compact(source)
    ensures !result.Obj? ==> fields == []
    ensures if |Document(fields, text)| <= BUDGET then shown == text
            else exists k :: 1 <= k <= |text| && shown == Decode(Encode(text[k..]))
                             && forall j :: 1 <= j < k ==> |Document(fields, Decode(Encode(text[j..])))| > BUDGET
  {
    hide Encode, Stringify, Size, Chars, Name, Decode, Fits, SerializedUtf8, Document, Lookup, CompactFields;
    NamesAre();
    var source := SourceOf(result);
    text := if finalOutput.Some? then finalOutput.value else AcpOutputText(Lookup(source, Chars(OUTPUT)));
    if finalOutput == None && !result.Obj? { NothingInNothing(); }
    FitsIsBudget(source, []);
    if !result.Obj? { CompactNothing(COMPACT_KEYS); }
    fields := if Fits(source, []) then source else Compact(source);
    CompactFits(source);
    FitsIsBudget(fields, text);
    if Fits(fields, text) {
      shown := text;
    } else {
      var k :| LongestTail(fields, text, k) && r == SerializedUtf8(fields, Clean(text[k..]));
      shown := Clean(text[k..]);
      TailsAre(fields, text, k);
    }
    FitsIsBudget(fields, shown);
    DocumentIs(fields, shown);
  }

  lemma DocumentIs(fields: Source, output: Text)
    ensures Document(fields, output) == Encode(Stringify(Obj(Put(fields, Name("output"), FinalOutput(output)))))
  {}

  lemma NothingInNothing()
    ensures Lookup([], Chars(OUTPUT)) == None && AcpOutputText(None) == []
  {}

  lemma {:induction false} CompactNothing(keys: seq<string>)
    ensures CompactFields([], keys) == []
  {
    if keys != [] { CompactNothing(keys[1..]); }
  }

  lemma TailsAre(fields: Source, text: Text, k: int)
    requires LongestTail(fields, text, k)
    ensures Clean(text[k..]) == Decode(Encode(text[k..]))
    ensures forall j :: 1 <= j < k ==> |Document(fields, Decode(Encode(text[j..])))| > BUDGET
  {
    hide Encode, Decode, Fits, Document;
    DecodeEncode(text[k..]);
    forall j | 1 <= j < k ensures |Document(fields, Decode(Encode(text[j..])))| > BUDGET {
      DecodeEncode(text[j..]);
      FitsIsBudget(fields, Clean(text[j..]));
    }
  }
}
