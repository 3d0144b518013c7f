/** The text that is printed for a JSON value, character by character, as section 7 of
    RFC 8259 and JSON.stringify have it, and the order of canonical keys. */
module JsonText {
  import opened Common
  import opened CodeUnits
  import opened CanonicalJson

  function Ascii(s: string): Text {
    seq(|s|, i requires 0 <= i < |s| => if s[i] as int < 0x80 then s[i] as int else 0)
  }

  // ---- strings ----

  const HEX_DIGITS := "0123456789abcdef"

  function HexDigit(d: int): Unit
    requires 0 <= d < 16
  {
    HEX_DIGITS[d] as int
  }

  predicate Surrogate(u: Unit) {
    0xD800 <= u <= 0xDFFF
  }

  lemma HexIs(d: int)
    requires 0 <= d < 16
    ensures Hex(d) == HexDigit(d)
  {}

  lemma EscapeSingle(u: Unit)
    ensures Escape([u]) == EscapeUnit(u)
  {
    assert [u][1..] == [];
    assert EscapeUnit(u) + [] == EscapeUnit(u);
  }

  /** One character inside a string. */
  lemma EscapeOne(u: Unit)
    ensures u == '\"' as int ==> Escape([u]) == Ascii("\\\"")
    ensures u == '\\' as int ==> Escape([u]) == Ascii("\\\\")
    ensures u == 0x08 ==> Escape([u]) == Ascii("\\b")
    ensures u == 0x09 ==> Escape([u]) == Ascii("\\t")
    ensures u == 0x0A ==> Escape([u]) == Ascii("\\n")
    ensures u == 0x0C ==> Escape([u]) == Ascii("\\f")
    ensures u == 0x0D ==> Escape([u]) == Ascii("\\r")
    ensures u < 0x20 && u !in {0x08, 0x09, 0x0A, 0x0C, 0x0D} ==>
              Escape([u]) == Ascii("\\u00") + [HexDigit(u / 16), HexDigit(u % 16)]
    ensures Surrogate(u) ==>
              Escape([u]) == Ascii("\\ud") + [HexDigit(u / 256 % 16), HexDigit(u / 16 % 16), HexDigit(u % 16)]
    ensures u >= 0x20 && !Surrogate(u) && u != '\"' as int && u != '\\' as int ==> Escape([u]) == [u]
  {
    hide Escape, EscapeUnit, HexDigit;
    EscapeSingle(u);
    if u in {0x08, 0x09, 0x0A, 0x0C, 0x0D} { ShortEscape(u); }
    if u == '\"' as int || u == '\\' as int { QuotedEscape(u); }
    if u < 0x20 && u !in {0x08, 0x09, 0x0A, 0x0C, 0x0D} { ControlEscape(u); }
    if Surrogate(u) { SurrogateEscape(u); }
    if u >= 0x20 && !Surrogate(u) && u != '\"' as int && u != '\\' as int { NoEscape(u); }
  }

  lemma QuotedEscape(u: Unit)
    ensures u == '\"' as int ==> EscapeUnit(u) == Ascii("\\\"")
    ensures u == '\\' as int ==> EscapeUnit(u) == Ascii("\\\\")
  {}

  lemma ShortEscape(u: Unit)
    ensures u == 0x08 ==> EscapeUnit(u) == Ascii("\\b")
    ensures u == 0x09 ==> EscapeUnit(u) == Ascii("\\t")
    ensures u == 0x0A ==> EscapeUnit(u) == Ascii("\\n")
    ensures u == 0x0C ==> EscapeUnit(u) == Ascii("\\f")
    ensures u == 0x0D ==> EscapeUnit(u) == Ascii("\\r")
  {}

  lemma ControlEscape(u: Unit)
    requires u < 0x20 && u !in {0x08, 0x09, 0x0A, 0x0C, 0x0D}
    ensures EscapeUnit(u) == Ascii("\\u00") + [HexDigit(u / 16), HexDigit(u % 16)]
  {
    HexIs(u / 16);
    HexIs(u % 16);
    HexIs(0);
  }

  lemma SurrogateEscape(u: Unit)
    requires Surrogate(u)
    ensures EscapeUnit(u)
              == Ascii("\\ud") + [HexDigit(u / 256 % 16), HexDigit(u / 16 % 16), HexDigit(u % 16)]
  {
    HexIs(13);
    HexIs(u / 256 % 16);
    HexIs(u / 16 % 16);
    HexIs(u % 16);
    assert u / 4096 == 13;
  }

  lemma NoEscape(u: Unit)
    requires u >= 0x20 && !Surrogate(u) && u != '\"' as int && u != '\\' as int
    ensures EscapeUnit(u) == [u]
  {}

  /** A surrogate pair stands for a character that needs no escape. */
  lemma EscapePair(high: Unit, low: Unit)
    requires 0xD800 <= high < 0xDC00 <= low < 0xE000
    ensures Escape([high, low]) == [high, low]
  {
    assert [high, low][2..] == [];
  }

  /** Strings are escaped piece by piece, wherever no pair is cut in two. */
  lemma {:induction false} EscapeConcat(a: Text, b: Text)
    requires a != [] && b != [] ==> !(0xD800 <= a[|a| - 1] < 0xDC00 <= b[0] < 0xE000)
    ensures Escape(a + b) == Escape(a) + Escape(b)
    decreases |a|
  {
    hide EscapeUnit;
    if a == [] {
      LeftUnit(b);
      LeftUnit(Escape(b));
    } else if |a| >= 2 && HighSurrogate(a[0]) && LowSurrogate(a[1]) {
      assert (a + b)[2..] == a[2..] + b;
      EscapeConcat(a[2..], b);
      Assoc([a[0], a[1]], Escape(a[2..]), Escape(b));
    } else {
      assert (a + b)[1..] == a[1..] + b;
      EscapeConcat(a[1..], b);
      Assoc(EscapeUnit(a[0]), Escape(a[1..]), Escape(b));
    }
  }

  // ---- values ----

  /** Texts one after another with a comma between them. */
  function Listed(texts: seq<Text>): Text {
    if |texts| <= 1 then (if texts == [] then [] else texts[0])
    else Listed(texts[..|texts| - 1]) + Ascii(",") + texts[|texts| - 1]
  }

  lemma {:induction false} CommasAppend(texts: seq<Text>, last: Text)
    requires texts != []
    ensures Commas(texts + [last]) == Commas(texts) + [COMMA] + last
  {
    var all := texts + [last];
    assert all[1..] == texts[1..] + [last];
    if |texts| == 1 {
      assert all[1..] == [last];
    } else {
      CommasAppend(texts[1..], last);
      var first, mid := texts[0] + [COMMA], Commas(texts[1..]);
      assert first + (mid + [COMMA] + last) == (first + mid) + [COMMA] + last;
    }
  }

  lemma {:induction false} CommasIsListed(texts: seq<Text>)
    ensures Commas(texts) == Listed(texts)
  {
    if |texts| > 1 {
      var init := texts[..|texts| - 1];
      CommasIsListed(init);
      assert init + [texts[|texts| - 1]] == texts;
      CommasAppend(init, texts[|texts| - 1]);
      assert Ascii(",") == [COMMA];
    }
  }

  /** The texts of the items, and those of the members: key, colon and value. */
  ghost predicate ItemTexts(items: seq<Json>, texts: seq<Text>) {
    |texts| == |items| && forall i :: 0 <= i < |items| ==> texts[i] == Print(items[i])
  }

  ghost predicate MemberTexts(fields: seq<(Text, Json)>, texts: seq<Text>) {
    |texts| == |fields| && forall i :: 0 <= i < |fields| ==>
      texts[i] == Ascii("\"") + Escape(fields[i].0) + Ascii("\":") + Print(fields[i].1)
  }

  lemma {:induction false} PrintItemsAre(items: seq<Json>)
    ensures ItemTexts(items, PrintItems(items))
  {
    if items != [] { PrintItemsAre(items[1..]); }
  }

  lemma MemberIs(key: Text, value: Text)
    ensures Member(key, value) == Ascii("\"") + Escape(key) + Ascii("\":") + value
  {
    assert Ascii("\"") == [QUOTE] && Ascii("\":") == [QUOTE, COLON];
    assert Member(key, value) == [QUOTE] + Escape(key) + [QUOTE] + [COLON] + value;
  }

  lemma {:induction false} PrintMembersAre(fields: seq<(Text, Json)>)
    ensures MemberTexts(fields, Members(PrintFields(fields)))
  {
    if fields != [] {
      PrintMembersAre(fields[1..]);
      MemberIs(fields[0].0, Print(fields[0].1));
      var all, rest := PrintFields(fields), PrintFields(fields[1..]);
      var field := (fields[0].0, Print(fields[0].1));
      assert PrintField(fields[0]) == field;
      assert all == [field] + rest && all[1..] == rest;
      assert Members(all) == [Member(fields[0].0, Print(fields[0].1))] + Members(rest);
      forall i | 0 <= i < |fields|
        ensures Members(all)[i] == Ascii("\"") + Escape(fields[i].0) + Ascii("\":") + Print(fields[i].1)
      {
        if i > 0 { assert fields[i] == fields[1..][i - 1] && Members(all)[i] == Members(rest)[i - 1]; }
      }
    }
  }

  /** The printed text of every value. */
  lemma PrintedIs(v: Json) returns (texts: seq<Text>)
    ensures v == Null ==> Print(v) == Ascii("null")
    ensures v == Bool(true) ==> Print(v) == Ascii("true")
    ensures v == Bool(false) ==> Print(v) == Ascii("false")
    ensures v.Number? ==> Print(v) == v.lexeme
    ensures v.Str? ==> Print(v) == Ascii("\"") + Escape(v.text) + Ascii("\"")
    ensures v.Arr? ==> ItemTexts(v.items, texts) && Print(v) == Ascii("[") + Listed(texts) + Ascii("]")
    ensures v.Obj? ==> MemberTexts(v.fields, texts) && Print(v) == Ascii("{") + Listed(texts) + Ascii("}")
  {
    hide Commas, Listed, Escape;
    texts := [];
    assert Ascii("\"") == [QUOTE];
    match v
    case Arr(items) =>
      texts := PrintItems(items);
      PrintItemsAre(items);
      CommasIsListed(texts);
      assert Ascii("[") == [OPEN_ARR] && Ascii("]") == [CLOSE_ARR];
    case Obj(fields) =>
      texts := Members(PrintFields(fields));
      PrintMembersAre(fields);
      CommasIsListed(texts);
      assert Ascii("{") == [OPEN_OBJ] && Ascii("}") == [CLOSE_OBJ];
    case Null => assert Ascii("null") == NULL;
    case Bool(b) => assert Ascii("true") == TRUE && Ascii("false") == FALSE;
    case _ =>
  }

  // ---- the canonical order ----

  /** `a` is a proper prefix of `b`, or has the lesser code unit where they first differ. */
  ghost predicate KeyBefore(a: Text, b: Text) {
    exists n :: 0 <= n <= |a| && n < |b| && a[..n] == b[..n] && (n == |a| || a[n] < b[n])
  }

  lemma {:induction false} LessIsKeyBefore(a: Text, b: Text)
    ensures Less(a, b) <==> KeyBefore(a, b)
  {
    if a == [] || b == [] {
      if b != [] { assert a[..0] == b[..0]; }
    } else {
      LessIsKeyBefore(a[1..], b[1..]);
      if a[0] < b[0] { assert a[..0] == b[..0]; }
      if a[0] == b[0] && KeyBefore(a[1..], b[1..]) {
        var n :| 0 <= n <= |a[1..]| && n < |b[1..]| && a[1..][..n] == b[1..][..n]
                 && (n == |a[1..]| || a[1..][n] < b[1..][n]);
        assert a[..n + 1] == [a[0]] + a[1..][..n] && b[..n + 1] == [b[0]] + b[1..][..n];
      }
      if KeyBefore(a, b) {
        var n :| 0 <= n <= |a| && n < |b| && a[..n] == b[..n] && (n == |a| || a[n] < b[n]);
        if n > 0 {
          assert a[0] == a[..n][0] && b[0] == b[..n][0];
          assert a[1..][..n - 1] == a[..n][1..] && b[1..][..n - 1] == b[..n][1..];
        }
      }
    }
  }

  ghost predicate InKeyOrder(fields: seq<(Text, Json)>) {
    forall i, j :: 0 <= i < j < |fields| ==> KeyBefore(fields[i].0, fields[j].0)
  }

  /** Every field of one is in the other with the normal form of its value. */
  ghost predicate SameFields(fields: seq<(Text, Json)>, sorted: seq<(Text, Json)>) {
    && |sorted| == |fields|
    && (forall f :: f in fields ==> (f.0, Normal(f.1)) in sorted)
    && (forall f :: f in sorted ==> exists g :: g in fields && f == (g.0, Normal(g.1)))
  }

  /** Normalizing sorts the keys of every object and leaves everything else in place. */
  lemma NormalIs(v: Json)
    requires v.Obj? ==> DistinctKeys(v.fields)
    ensures v.Obj? ==> Normal(v).Obj? && InKeyOrder(Normal(v).fields) && SameFields(v.fields, Normal(v).fields)
    ensures v.Arr? ==> Normal(v).Arr? && |Normal(v).items| == |v.items|
                       && forall i :: 0 <= i < |v.items| ==> Normal(v).items[i] == Normal(v.items[i])
    ensures !v.Obj? && !v.Arr? ==> Normal(v) == v
  {
    if v.Obj? {
      hide Less, KeyBefore;
      NormalFieldsAreDistinct(v.fields);
      var normal := NormalFields(v.fields);
      SortSorts(normal);
      var sorted := SortByKey(normal);
      forall i, j | 0 <= i < j < |sorted| ensures KeyBefore(sorted[i].0, sorted[j].0) {
        LessIsKeyBefore(sorted[i].0, sorted[j].0);
      }
      forall f | f in v.fields ensures (f.0, Normal(f.1)) in sorted {
        var i :| 0 <= i < |v.fields| && v.fields[i] == f;
        assert normal[i] == (f.0, Normal(f.1));
      }
      forall f | f in sorted ensures exists g :: g in v.fields && f == (g.0, Normal(g.1)) {
        var i :| 0 <= i < |normal| && normal[i] == f;
        assert v.fields[i] in v.fields;
      }
    }
  }

  /** What is hashed for a request: the operation, a newline, and the text of the
      request with the keys of every object in order. */
  lemma HashedTextIs(operation: Text, request: Json)
    ensures RequestText(operation, request) == operation + Ascii("\n") + Print(Normal(request))
  {
    CanonicalIsPrinted(request);
    assert Ascii("\n") == [NEWLINE];
  }
}
