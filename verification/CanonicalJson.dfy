/** The canonical serializer of src/mutation-receipts.ts and the request text it
    feeds to SHA-256.

    A string is the sequence of its UTF-16 code units. A number is kept as the
    text JavaScript renders it to. An object is the list of its properties, in
    their own order, with distinct keys; there is no undefined, no NaN and no hole. */
module CanonicalJson {
  import opened Common
  import opened CodeUnits

  datatype Json =
    | Null
    | Bool(value: bool)
    | Number(lexeme: Text)
    | Str(text: Text)
    | Arr(items: seq<Json>)
    | Obj(fields: seq<(Text, Json)>)

  const NEWLINE: Unit := 10
  const QUOTE: Unit := 34
  const COMMA: Unit := 44
  const COLON: Unit := 58
  const OPEN_ARR: Unit := 91
  const BACKSLASH: Unit := 92
  const CLOSE_ARR: Unit := 93
  const OPEN_OBJ: Unit := 123
  const CLOSE_OBJ: Unit := 125
  const NULL: Text := [110, 117, 108, 108]
  const TRUE: Text := [116, 114, 117, 101]
  const FALSE: Text := [102, 97, 108, 115, 101]

  predicate Digit(u: Unit) { 48 <= u <= 57 }

  /** The characters of a rendered number: digits, sign, point and exponent. */
  predicate NumberUnit(u: Unit) {
    Digit(u) || u == 43 || u == 45 || u == 46 || u == 101 || u == 69
  }

  predicate DistinctKeys<T>(fields: seq<(Text, T)>) {
    forall i, j :: 0 <= i < j < |fields| ==> fields[i].0 != fields[j].0
  }

  predicate WellFormed(v: Json) {
    match v
    case Number(lexeme) => lexeme != [] && forall u :: u in lexeme ==> NumberUnit(u)
    case Arr(items) => forall i :: 0 <= i < |items| ==> WellFormed(items[i])
    case Obj(fields) => DistinctKeys(fields) && forall i :: 0 <= i < |fields| ==> WellFormed(fields[i].1)
    case _ => true
  }

  /** Equal up to the order of object keys, at every depth. */
  predicate Same(a: Json, b: Json) {
    match (a, b)
    case (Arr(x), Arr(y)) => |x| == |y| && forall i :: 0 <= i < |x| ==> Same(x[i], y[i])
    case (Obj(x), Obj(y)) =>
      |x| == |y| && forall i :: 0 <= i < |x| ==> exists j :: 0 <= j < |y| && x[i].0 == y[j].0 && Same(x[i].1, y[j].1)
    case _ => a == b && !a.Arr? && !a.Obj?
  }

  // ---- JSON.stringify of a string ----

  predicate HighSurrogate(u: Unit) { 0xD800 <= u < 0xDC00 }
  predicate LowSurrogate(u: Unit) { 0xDC00 <= u < 0xE000 }

  function Hex(d: int): Unit
    requires 0 <= d < 16
  {
    if d < 10 then 48 + d else 87 + d
  }

  function EscapeUnit(u: Unit): Text {
    if u == QUOTE || u == BACKSLASH then [BACKSLASH, u]
    else if u == 8 then [BACKSLASH, 98]
    else if u == 9 then [BACKSLASH, 116]
    else if u == 10 then [BACKSLASH, 110]
    else if u == 12 then [BACKSLASH, 102]
    else if u == 13 then [BACKSLASH, 114]
    else if u < 32 || HighSurrogate(u) || LowSurrogate(u) then
      [BACKSLASH, 117, Hex(u / 4096), Hex(u / 256 % 16), Hex(u / 16 % 16), Hex(u % 16)]
    else [u]
  }

  /** A surrogate pair stays as it is; a lone surrogate is escaped. */
  function Escape(s: Text): Text {
    if s == [] then []
    else if |s| >= 2 && HighSurrogate(s[0]) && LowSurrogate(s[1]) then [s[0], s[1]] + Escape(s[2..])
    else EscapeUnit(s[0]) + Escape(s[1..])
  }

  function Quote(s: Text): Text {
    [QUOTE] + Escape(s) + [QUOTE]
  }

  // ---- canonicalJson ----

  function Insert<T>(field: (Text, T), sorted: seq<(Text, T)>): seq<(Text, T)> {
    if sorted != [] && Less(sorted[0].0, field.0) then [sorted[0]] + Insert(field, sorted[1..])
    else [field] + sorted
  }

  /** Properties in the order of `Object.keys(record).sort()`. */
  function SortByKey<T>(fields: seq<(Text, T)>): seq<(Text, T)> {
    if fields == [] then [] else Insert(fields[0], SortByKey(fields[1..]))
  }

  function Commas(texts: seq<Text>): Text {
    if texts == [] then [] else if |texts| == 1 then texts[0] else texts[0] + [COMMA] + Commas(texts[1..])
  }

  function Member(key: Text, value: Text): Text {
    Quote(key) + [COLON] + value
  }

  function Members(fields: seq<(Text, Text)>): seq<Text> {
    if fields == [] then [] else [Member(fields[0].0, fields[0].1)] + Members(fields[1..])
  }

  function CanonicalJson(v: Json): Text {
    match v
    case Null => NULL
    case Bool(b) => if b then TRUE else FALSE
    case Number(lexeme) => lexeme
    case Str(text) => Quote(text)
    case Arr(items) => [OPEN_ARR] + Commas(CanonicalItems(items)) + [CLOSE_ARR]
    case Obj(fields) => [OPEN_OBJ] + Commas(Members(SortByKey(CanonicalFields(fields)))) + [CLOSE_OBJ]
  }

  function CanonicalItems(items: seq<Json>): (texts: seq<Text>)
    ensures |texts| == |items|
  {
    if items == [] then [] else [CanonicalJson(items[0])] + CanonicalItems(items[1..])
  }

  function CanonicalFields(fields: seq<(Text, Json)>): (texts: seq<(Text, Text)>)
    ensures |texts| == |fields|
  {
    if fields == [] then [] else [CanonicalField(fields[0])] + CanonicalFields(fields[1..])
  }

  function CanonicalField(field: (Text, Json)): (Text, Text) {
    (field.0, CanonicalJson(field.1))
  }

  /** The text that `requestHash` hashes. */
  function RequestText(operation: Text, request: Json): Text {
    operation + [NEWLINE] + CanonicalJson(request)
  }

  // ---- printing in the given order, and the normal form ----

  function Print(v: Json): Text {
    match v
    case Null => NULL
    case Bool(b) => if b then TRUE else FALSE
    case Number(lexeme) => lexeme
    case Str(text) => Quote(text)
    case Arr(items) => [OPEN_ARR] + Commas(PrintItems(items)) + [CLOSE_ARR]
    case Obj(fields) => [OPEN_OBJ] + Commas(Members(PrintFields(fields))) + [CLOSE_OBJ]
  }

  function PrintItems(items: seq<Json>): (texts: seq<Text>)
    ensures |texts| == |items|
  {
    if items == [] then [] else [Print(items[0])] + PrintItems(items[1..])
  }

  function PrintFields(fields: seq<(Text, Json)>): (texts: seq<(Text, Text)>)
    ensures |texts| == |fields|
  {
    if fields == [] then [] else [PrintField(fields[0])] + PrintFields(fields[1..])
  }

  function PrintField(field: (Text, Json)): (Text, Text) {
    (field.0, Print(field.1))
  }

  /** The value with the keys of every object sorted. */
  function Normal(v: Json): Json {
    match v
    case Arr(items) => Arr(NormalItems(items))
    case Obj(fields) => Obj(SortByKey(NormalFields(fields)))
    case _ => v
  }

  function NormalItems(items: seq<Json>): (normal: seq<Json>)
    ensures |normal| == |items| && forall i :: 0 <= i < |items| ==> normal[i] == Normal(items[i])
  {
    if items == [] then [] else [Normal(items[0])] + NormalItems(items[1..])
  }

  function NormalFields(fields: seq<(Text, Json)>): (normal: seq<(Text, Json)>)
    ensures |normal| == |fields|
    ensures forall i :: 0 <= i < |fields| ==> normal[i] == NormalField(fields[i])
  {
    if fields == [] then [] else [NormalField(fields[0])] + NormalFields(fields[1..])
  }

  function NormalField(field: (Text, Json)): (Text, Json) {
    (field.0, Normal(field.1))
  }

  // ---- sorting ----

  ghost predicate Ascending<T>(fields: seq<(Text, T)>) {
    forall i, j :: 0 <= i < j < |fields| ==> Less(fields[i].0, fields[j].0)
  }

  ghost predicate SameMembers<T(!new)>(a: seq<T>, b: seq<T>) {
    |a| == |b| && forall x :: x in a <==> x in b
  }

  lemma {:induction false} InsertSorts<T(!new)>(field: (Text, T), sorted: seq<(Text, T)>)
    requires Ascending(sorted) && forall f :: f in sorted ==> f.0 != field.0
    ensures Ascending(Insert(field, sorted))
    ensures |Insert(field, sorted)| == |sorted| + 1 && forall f :: f in Insert(field, sorted) <==>
                                                         f == field || f in sorted
  {
    if sorted == [] {
    } else if Less(sorted[0].0, field.0) {
      var rest := Insert(field, sorted[1..]);
      InsertSorts(field, sorted[1..]);
      HeadAndRest(sorted);
      forall f | f in rest ensures Less(sorted[0].0, f.0) {
        assert f == field || f in sorted[1..];
      }
    } else {
      LessIsTotal(sorted[0].0, field.0);
      assert sorted[0] in sorted;
      forall f | f in sorted ensures Less(field.0, f.0) {
        if f != sorted[0] { LessIsTransitive(field.0, sorted[0].0, f.0); }
      }
    }
  }

  lemma {:induction false} SortSorts<T(!new)>(fields: seq<(Text, T)>)
    requires DistinctKeys(fields)
    ensures Ascending(SortByKey(fields)) && SameMembers(SortByKey(fields), fields)
  {
    if fields != [] {
      SortSorts(fields[1..]);
      HeadAndRest(fields);
      forall f | f in SortByKey(fields[1..]) ensures f.0 != fields[0].0 {
        assert f in fields[1..];
      }
      InsertSorts(fields[0], SortByKey(fields[1..]));
    }
  }

  /** An ascending list is determined by its elements. */
  lemma {:induction false} AscendingIsUnique<T(!new)>(a: seq<(Text, T)>, b: seq<(Text, T)>)
    requires Ascending(a) && Ascending(b) && |a| == |b| && forall f :: f in a ==> f in b
    ensures a == b
  {
    if a != [] {
      assert a[0] in b;
      var i :| 0 <= i < |b| && b[i] == a[0];
      AtLeast(a, b, |a| - 1, i);
      assert b[0] == a[0];
      HeadAndRest(a);
      HeadAndRest(b);
      forall f | f in a[1..] ensures f in b[1..] {
        assert f in b;
        LessIsTotal(a[0].0, f.0);
      }
      AscendingIsUnique(a[1..], b[1..]);
    }
  }

  /** Elements that come one after another in `a` do so in `b`, too. */
  lemma {:induction false} AtLeast<T>(a: seq<(Text, T)>, b: seq<(Text, T)>, k: nat, i: nat)
    requires Ascending(a) && Ascending(b) && k < |a| && i < |b| && b[i] == a[0]
    requires forall f :: f in a ==> f in b
    ensures i + k < |b| && exists j :: i + k <= j < |b| && b[j] == a[k]
    decreases k
  {
    if k > 0 {
      AtLeast(a, b, k - 1, i);
      var j :| i + k - 1 <= j < |b| && b[j] == a[k - 1];
      assert a[k] in a;
      var m :| 0 <= m < |b| && b[m] == a[k];
      LessIsTotal(a[k - 1].0, a[k].0);
      LessIsTotal(a[k].0, a[k].0);
      assert m > j;
    }
  }

  // ---- canonical text is the printed normal form ----

  lemma {:induction false} InsertPrints(field: (Text, Json), sorted: seq<(Text, Json)>)
    ensures PrintFields(Insert(field, sorted)) == Insert(PrintField(field), PrintFields(sorted))
  {
    if sorted != [] && Less(sorted[0].0, field.0) {
      InsertPrints(field, sorted[1..]);
      assert Insert(field, sorted)[1..] == Insert(field, sorted[1..]);
    } else {
      assert ([field] + sorted)[1..] == sorted;
    }
  }

  lemma {:induction false} SortPrints(fields: seq<(Text, Json)>)
    ensures PrintFields(SortByKey(fields)) == SortByKey(PrintFields(fields))
  {
    if fields != [] {
      SortPrints(fields[1..]);
      InsertPrints(fields[0], SortByKey(fields[1..]));
    }
  }

  lemma {:induction false} CanonicalIsPrinted(v: Json)
    ensures CanonicalJson(v) == Print(Normal(v))
    decreases v, 1
  {
    match v
    case Arr(items) => CanonicalItemsArePrinted(items);
    case Obj(fields) =>
      CanonicalFieldsArePrinted(fields);
      SortPrints(NormalFields(fields));
    case _ =>
  }

  lemma {:induction false} CanonicalItemsArePrinted(items: seq<Json>)
    ensures CanonicalItems(items) == PrintItems(NormalItems(items))
    decreases items, 0
  {
    if items != [] {
      CanonicalIsPrinted(items[0]);
      CanonicalItemsArePrinted(items[1..]);
    }
  }

  lemma {:induction false} CanonicalFieldsArePrinted(fields: seq<(Text, Json)>)
    ensures CanonicalFields(fields) == PrintFields(NormalFields(fields))
    decreases fields, 0
  {
    if fields != [] {
      CanonicalFieldIsPrinted(fields[0]);
      CanonicalFieldsArePrinted(fields[1..]);
    }
  }

  lemma CanonicalFieldIsPrinted(field: (Text, Json))
    ensures CanonicalField(field) == PrintField(NormalField(field))
    decreases field, 2
  {
    CanonicalIsPrinted(field.1);
  }

  // ---- a reader for printed text ----

  function HexValue(u: Unit): int {
    if Digit(u) then u - 48 else u - 87
  }

  function Unescape(u: Unit): Unit {
    if u == 98 then 8 else if u == 116 then 9 else if u == 110 then 10 else if u == 102 then 12
      else if u == 114 then 13 else u
  }

  function FourHex(a: Unit, b: Unit, c: Unit, d: Unit): Unit {
    var n := HexValue(a) * 4096 + HexValue(b) * 256 + HexValue(c) * 16 + HexValue(d);
    if 0 <= n < 0x10000 then n else 0
  }

  function Prefixed(u: Unit, read: Option<(Text, Text)>): Option<(Text, Text)> {
    if read.Some? then Some(([u] + read.value.0, read.value.1)) else None
  }

  /** A string up to its closing quote, and what follows. */
  function ReadString(t: Text): (r: Option<(Text, Text)>)
    ensures r.Some? ==> |r.value.1| < |t|
    decreases |t|
  {
    if t == [] then None
    else if t[0] == QUOTE then Some(([], t[1..]))
    else if t[0] != BACKSLASH then Prefixed(t[0], ReadString(t[1..]))
    else if |t| >= 6 && t[1] == 117 then Prefixed(FourHex(t[2], t[3], t[4], t[5]), ReadString(t[6..]))
    else if |t| >= 2 && t[1] != 117 then Prefixed(Unescape(t[1]), ReadString(t[2..]))
    else None
  }

  function NumberLength(t: Text): (n: nat)
    ensures n <= |t|
  {
    if t != [] && NumberUnit(t[0]) then 1 + NumberLength(t[1..]) else 0
  }

  function ReadValue(t: Text): (r: Option<(Json, Text)>)
    ensures r.Some? ==> |r.value.1| < |t|
    decreases |t|, 0
  {
    if t == [] then None
    else if NULL <= t then Some((Null, t[4..]))
    else if TRUE <= t then Some((Bool(true), t[4..]))
    else if FALSE <= t then Some((Bool(false), t[5..]))
    else if t[0] == QUOTE then
      (match ReadString(t[1..]) case Some((text, rest)) => Some((Str(text), rest)) case None => None)
    else if t[0] == OPEN_ARR then
      if |t| > 1 && t[1] == CLOSE_ARR then Some((Arr([]), t[2..]))
      else (match ReadItems(t[1..]) case Some((items, rest)) => Some((Arr(items), rest)) case None => None)
    else if t[0] == OPEN_OBJ then
      if |t| > 1 && t[1] == CLOSE_OBJ then Some((Obj([]), t[2..]))
      else (match ReadMembers(t[1..]) case Some((fields, rest)) => Some((Obj(fields), rest)) case None => None)
    else
      var n := NumberLength(t);
      if n == 0 then None else Some((Number(t[..n]), t[n..]))
  }

  function ReadItems(t: Text): (r: Option<(seq<Json>, Text)>)
    ensures r.Some? ==> |r.value.1| < |t|
    decreases |t|, 1
  {
    match ReadValue(t)
    case None => None
    case Some((v, rest)) =>
      if rest == [] then None
      else if rest[0] == CLOSE_ARR then Some(([v], rest[1..]))
      else if rest[0] == COMMA then
        (match ReadItems(rest[1..]) case Some((more, last)) => Some(([v] + more, last)) case None => None)
      else None
  }

  function ReadMembers(t: Text): (r: Option<(seq<(Text, Json)>, Text)>)
    ensures r.Some? ==> |r.value.1| < |t|
    decreases |t|, 1
  {
    if t == [] || t[0] != QUOTE then None
    else
      match ReadString(t[1..])
      case None => None
      case Some((key, afterKey)) =>
        if afterKey == [] || afterKey[0] != COLON then None
        else
          match ReadValue(afterKey[1..])
          case None => None
          case Some((v, rest)) =>
            if rest == [] then None
            else if rest[0] == CLOSE_OBJ then Some(([(key, v)], rest[1..]))
            else if rest[0] == COMMA then
              (match ReadMembers(rest[1..])
               case Some((more, last)) => Some(([(key, v)] + more, last))
               case None => None)
            else None
  }

  // ---- reading what was printed ----

  lemma HexValueOf(d: int)
    requires 0 <= d < 16
    ensures HexValue(Hex(d)) == d
  {}

  lemma HexDigits(u: Unit)
    ensures FourHex(Hex(u / 4096), Hex(u / 256 % 16), Hex(u / 16 % 16), Hex(u % 16)) == u
  {
    hide Hex, HexValue;
    HexDigitsAre(u);
    HexValueOf(u / 4096);
    HexValueOf(u / 256 % 16);
    HexValueOf(u / 16 % 16);
    HexValueOf(u % 16);
  }

  lemma HexDigitsAre(u: Unit)
    ensures u / 4096 * 4096 + u / 256 % 16 * 256 + u / 16 % 16 * 16 + u % 16 == u && u / 4096 < 16
  {
    assert u / 256 == u / 16 / 16 && u / 4096 == u / 256 / 16 by { DivideAgain(u); }
    var a, b := u / 16, u / 256;
    assert u == 16 * a + u % 16 && a == 16 * b + a % 16 && b == 16 * (b / 16) + b % 16;
  }

  lemma DivideAgain(u: nat)
    ensures u / 256 == u / 16 / 16 && u / 4096 == u / 256 / 16
  {}

  lemma ReadShort(u: Unit, tail: Text)
    requires u != 117
    ensures ReadString([BACKSLASH, u] + tail) == Prefixed(Unescape(u), ReadString(tail))
  {
    assert ([BACKSLASH, u] + tail)[2..] == tail;
  }

  lemma ReadHex(a: Unit, b: Unit, c: Unit, d: Unit, tail: Text)
    ensures ReadString([BACKSLASH, 117, a, b, c, d] + tail) == Prefixed(FourHex(a, b, c, d), ReadString(tail))
  {
    assert ([BACKSLASH, 117, a, b, c, d] + tail)[6..] == tail;
  }

  lemma ReadUnit(u: Unit, tail: Text)
    ensures ReadString(EscapeUnit(u) + tail) == Prefixed(u, ReadString(tail))
  {
    hide ReadString, FourHex, Hex;
    if |EscapeUnit(u)| == 1 {
      ReadRaw(u, tail);
    } else if |EscapeUnit(u)| == 2 {
      ReadShort(EscapeUnit(u)[1], tail);
    } else {
      HexDigits(u);
      ReadHex(Hex(u / 4096), Hex(u / 256 % 16), Hex(u / 16 % 16), Hex(u % 16), tail);
    }
  }

  lemma ReadRaw(u: Unit, tail: Text)
    requires u != QUOTE && u != BACKSLASH
    ensures ReadString([u] + tail) == Prefixed(u, ReadString(tail))
  {
    assert ([u] + tail)[1..] == tail;
  }

  lemma ReadEnd(rest: Text)
    ensures ReadString([QUOTE] + rest) == Some(([], rest))
  {
    assert ([QUOTE] + rest)[1..] == rest;
  }

  lemma PairAssoc(a: Unit, b: Unit, c: Text, d: Text)
    ensures ([a, b] + c) + d == [a] + ([b] + (c + d))
  {}

  /** A quoted string is read back, and the text after it is left. */
  lemma {:induction false} ReadQuoted(s: Text, rest: Text)
    ensures ReadString(Escape(s) + ([QUOTE] + rest)) == Some((s, rest))
    decreases |s|
  {
    hide ReadString, EscapeUnit;
    var tail := [QUOTE] + rest;
    if s == [] {
      LeftUnit(tail);
      ReadEnd(rest);
    } else if |s| >= 2 && HighSurrogate(s[0]) && LowSurrogate(s[1]) {
      ReadQuoted(s[2..], rest);
      var more := Escape(s[2..]) + tail;
      PairAssoc(s[0], s[1], Escape(s[2..]), tail);
      ReadRaw(s[0], [s[1]] + more);
      ReadRaw(s[1], more);
      assert s == [s[0]] + ([s[1]] + s[2..]);
    } else {
      ReadQuoted(s[1..], rest);
      Assoc(EscapeUnit(s[0]), Escape(s[1..]), tail);
      ReadUnit(s[0], Escape(s[1..]) + tail);
      HeadAndRest(s);
    }
  }

  /** What may follow a printed value: nothing that could continue a number. */
  predicate Boundary(rest: Text) {
    rest == [] || !NumberUnit(rest[0])
  }

  lemma {:induction false} NumberEnds(lexeme: Text, rest: Text)
    requires (forall u :: u in lexeme ==> NumberUnit(u)) && Boundary(rest)
    ensures NumberLength(lexeme + rest) == |lexeme|
  {
    if lexeme == [] {
      LeftUnit(rest);
    } else {
      assert lexeme[0] in lexeme;
      assert (lexeme + rest)[1..] == lexeme[1..] + rest;
      NumberEnds(lexeme[1..], rest);
    }
  }

  /** A printed value starts with none of the marks that close something. */
  lemma FirstUnit(v: Json)
    requires WellFormed(v)
    ensures Print(v) != [] && Print(v)[0] != CLOSE_ARR && Print(v)[0] != CLOSE_OBJ
  {
    match v
    case Number(lexeme) => assert lexeme[0] in lexeme;
    case _ =>
  }

  lemma ReadNumber(lexeme: Text, rest: Text)
    requires WellFormed(Number(lexeme)) && Boundary(rest)
    ensures ReadValue(lexeme + rest) == Some((Number(lexeme), rest))
  {
    hide ReadItems, ReadMembers, ReadString, NumberLength;
    var t := lexeme + rest;
    assert lexeme[0] in lexeme;
    assert NumberUnit(t[0]) && t[0] != 110 && t[0] != 116 && t[0] != 102;
    NumberEnds(lexeme, rest);
    assert t[..|lexeme|] == lexeme && t[|lexeme|..] == rest;
  }

  lemma ReadLiteral(b: bool, rest: Text)
    ensures ReadValue(NULL + rest) == Some((Null, rest))
    ensures ReadValue((if b then TRUE else FALSE) + rest) == Some((Bool(b), rest))
  {
    hide ReadItems, ReadMembers, ReadString, NumberLength;
    assert (NULL + rest)[4..] == rest && NULL <= NULL + rest;
    if b {
      var t := TRUE + rest;
      assert t[4..] == rest && TRUE <= t && t[0] == 116;
    } else {
      var t := FALSE + rest;
      assert t[5..] == rest && FALSE <= t && t[0] == 102;
    }
  }

  lemma ReadText(text: Text, rest: Text)
    ensures ReadValue(Quote(text) + rest) == Some((Str(text), rest))
  {
    hide ReadItems, ReadMembers, ReadString, Escape, NumberLength;
    Enclosed(QUOTE, Escape(text), QUOTE, rest);
    var after := Escape(text) + ([QUOTE] + rest);
    var t := [QUOTE] + after;
    assert t[0] == QUOTE && t[1..] == after;
    ReadQuoted(text, rest);
  }

  lemma ReadScalar(v: Json, rest: Text)
    requires WellFormed(v) && Boundary(rest) && !v.Arr? && !v.Obj?
    ensures ReadValue(Print(v) + rest) == Some((v, rest))
  {
    hide ReadValue, Quote;
    match v
    case Null => ReadLiteral(true, rest);
    case Bool(b) => ReadLiteral(b, rest);
    case Number(lexeme) => ReadNumber(lexeme, rest);
    case Str(text) => ReadText(text, rest);
  }

  lemma ReadEmptyArr(t: Text)
    ensures ReadValue([OPEN_ARR, CLOSE_ARR] + t) == Some((Arr([]), t))
  {
    hide ReadItems, ReadMembers, ReadString, NumberLength;
    var s := [OPEN_ARR, CLOSE_ARR] + t;
    assert s[0] == OPEN_ARR && s[1] == CLOSE_ARR && s[2..] == t;
  }

  lemma ReadEmptyObj(t: Text)
    ensures ReadValue([OPEN_OBJ, CLOSE_OBJ] + t) == Some((Obj([]), t))
  {
    hide ReadItems, ReadMembers, ReadString, NumberLength;
    var s := [OPEN_OBJ, CLOSE_OBJ] + t;
    assert s[0] == OPEN_OBJ && s[1] == CLOSE_OBJ && s[2..] == t;
  }

  lemma ReadOpenArr(t: Text)
    requires t != [] && t[0] != CLOSE_ARR
    ensures ReadValue([OPEN_ARR] + t) == match ReadItems(t)
                                         case Some((items, rest)) => Some((Arr(items), rest))
                                         case None => None
  {
    hide ReadItems, ReadMembers, ReadString, NumberLength;
    var s := [OPEN_ARR] + t;
    assert s[0] == OPEN_ARR && s[1] == t[0] && s[1..] == t;
  }

  lemma ReadOpenObj(t: Text)
    requires t != [] && t[0] != CLOSE_OBJ
    ensures ReadValue([OPEN_OBJ] + t) == match ReadMembers(t)
                                         case Some((fields, rest)) => Some((Obj(fields), rest))
                                         case None => None
  {
    hide ReadItems, ReadMembers, ReadString, NumberLength;
    var s := [OPEN_OBJ] + t;
    assert s[0] == OPEN_OBJ && s[1] == t[0] && s[1..] == t;
  }

  lemma Enclosed(open: Unit, inner: Text, close: Unit, rest: Text)
    ensures ([open] + inner + [close]) + rest == [open] + (inner + ([close] + rest))
    ensures inner == [] ==> ([open] + inner + [close]) + rest == [open, close] + rest
  {}

  lemma CommasOf(first: Text, more: seq<Text>, tail: Text)
    ensures more == [] ==> Commas([first] + more) + tail == first + tail
    ensures more != [] ==> Commas([first] + more) + tail == first + ([COMMA] + (Commas(more) + tail))
  {
    assert ([first] + more)[1..] == more;
    if more != [] {
      Assoc(first + [COMMA], Commas(more), tail);
      Assoc(first, [COMMA], Commas(more) + tail);
    }
  }

  lemma {:induction false} ReadPrinted(v: Json, rest: Text)
    requires WellFormed(v) && Boundary(rest)
    ensures ReadValue(Print(v) + rest) == Some((v, rest))
    decreases v, 1
  {
    match v
    case Arr(items) =>
      hide ReadValue, ReadItems, Commas;
      var inner := Commas(PrintItems(items));
      Enclosed(OPEN_ARR, inner, CLOSE_ARR, rest);
      if items == [] {
        NoCommas();
        ReadEmptyArr(rest);
      } else {
        ReadPrintedItems(items, rest);
        ItemsStart(items);
        ReadOpenArr(inner + ([CLOSE_ARR] + rest));
      }
    case Obj(fields) =>
      hide ReadValue, ReadMembers, Commas;
      var inner := Commas(Members(PrintFields(fields)));
      Enclosed(OPEN_OBJ, inner, CLOSE_OBJ, rest);
      if fields == [] {
        NoCommas();
        ReadEmptyObj(rest);
      } else {
        ReadPrintedMembers(fields, rest);
        MembersStart(fields);
        ReadOpenObj(inner + ([CLOSE_OBJ] + rest));
      }
    case _ => ReadScalar(v, rest);
  }

  lemma NoCommas()
    ensures Commas([]) == []
  {}

  lemma ItemsStart(items: seq<Json>)
    requires items != [] && WellFormed(items[0])
    ensures var inner := Commas(PrintItems(items)); inner != [] && inner[0] != CLOSE_ARR
  {
    FirstUnit(items[0]);
  }

  lemma MembersStart(fields: seq<(Text, Json)>)
    requires fields != []
    ensures var inner := Commas(Members(PrintFields(fields))); inner != [] && inner[0] == QUOTE
  {
    var texts := Members(PrintFields(fields));
    assert PrintFields(fields)[0] == PrintField(fields[0]);
    assert texts[0] == Quote(fields[0].0) + [COLON] + Print(fields[0].1);
  }

  lemma ReadItem(t: Text, v: Json, after: Text)
    requires ReadValue(t) == Some((v, after)) && after != []
    ensures after[0] == CLOSE_ARR ==> ReadItems(t) == Some(([v], after[1..]))
    ensures after[0] == COMMA ==>
              ReadItems(t) == match ReadItems(after[1..])
                              case Some((more, last)) => Some(([v] + more, last))
                              case None => None
  {}

  lemma {:induction false} ReadPrintedItems(items: seq<Json>, rest: Text)
    requires items != [] && forall i :: 0 <= i < |items| ==> WellFormed(items[i])
    ensures ReadItems(Commas(PrintItems(items)) + ([CLOSE_ARR] + rest)) == Some((items, rest))
    decreases items, 0
  {
    hide ReadValue, ReadItems, Commas;
    var tail := [CLOSE_ARR] + rest;
    var first, others := Print(items[0]), PrintItems(items[1..]);
    assert PrintItems(items) == [first] + others;
    CommasOf(first, others, tail);
    assert tail[1..] == rest;
    HeadAndRest(items);
    if |items| == 1 {
      assert items[1..] == [] && others == [];
      assert [items[0]] + items[1..] == [items[0]];
      ReadPrinted(items[0], tail);
      ReadItem(first + tail, items[0], tail);
    } else {
      var more := Commas(others) + tail;
      ReadPrintedItems(items[1..], rest);
      ReadPrinted(items[0], [COMMA] + more);
      ReadItem(first + ([COMMA] + more), items[0], [COMMA] + more);
      assert ([COMMA] + more)[1..] == more;
    }
  }

  lemma ReadMember(t: Text, key: Text, text: Text, v: Json, after: Text)
    requires t != [] && t[0] == QUOTE && ReadString(t[1..]) == Some((key, [COLON] + text))
               && ReadValue(text) == Some((v, after)) && after != []
    ensures after[0] == CLOSE_OBJ ==> ReadMembers(t) == Some(([(key, v)], after[1..]))
    ensures after[0] == COMMA ==>
              ReadMembers(t) == match ReadMembers(after[1..])
                                case Some((more, last)) => Some(([(key, v)] + more, last))
                                case None => None
  {
    assert ([COLON] + text)[1..] == text;
  }

  lemma {:induction false} ReadPrintedMembers(fields: seq<(Text, Json)>, rest: Text)
    requires fields != [] && forall i :: 0 <= i < |fields| ==> WellFormed(fields[i].1)
    ensures ReadMembers(Commas(Members(PrintFields(fields))) + ([CLOSE_OBJ] + rest)) == Some((fields, rest))
    decreases fields, 0
  {
    hide ReadValue, ReadMembers, ReadString, Commas, Member;
    var tail := [CLOSE_OBJ] + rest;
    var field, text := fields[0], Print(fields[0].1);
    var first, others := Member(field.0, text), Members(PrintFields(fields[1..]));
    assert PrintFields(fields)[1..] == PrintFields(fields[1..]);
    assert Members(PrintFields(fields)) == [first] + others;
    CommasOf(first, others, tail);
    assert tail[1..] == rest;
    HeadAndRest(fields);
    if |fields| == 1 {
      assert fields[1..] == [] && others == [];
      assert [field] + fields[1..] == [(field.0, field.1)];
      ReadPrintedMember(field, tail);
      ReadMember(first + tail, field.0, text + tail, field.1, tail);
    } else {
      var more := Commas(others) + tail;
      ReadPrintedMembers(fields[1..], rest);
      ReadPrintedMember(field, [COMMA] + more);
      ReadMember(first + ([COMMA] + more), field.0, text + ([COMMA] + more), field.1, [COMMA] + more);
      assert ([COMMA] + more)[1..] == more;
    }
  }

  lemma MemberText(key: Text, text: Text, rest: Text)
    ensures Member(key, text) + rest == [QUOTE] + (Escape(key) + ([QUOTE] + ([COLON] + (text + rest))))
  {
    hide Escape;
    var after := [COLON] + (text + rest);
    Enclosed(QUOTE, Escape(key), QUOTE, after);
    Assoc(Quote(key) + [COLON], text, rest);
    Assoc(Quote(key), [COLON], text + rest);
  }

  /** One member up to what follows its value. */
  lemma ReadPrintedMember(field: (Text, Json), rest: Text)
    requires WellFormed(field.1) && Boundary(rest)
    ensures var t := Member(field.0, Print(field.1)) + rest;
            && t[0] == QUOTE
            && ReadString(t[1..]) == Some((field.0, [COLON] + (Print(field.1) + rest)))
            && ReadValue(Print(field.1) + rest) == Some((field.1, rest))
    decreases field, 2
  {
    hide ReadString, ReadValue, Escape, Print;
    var after := [COLON] + (Print(field.1) + rest);
    MemberText(field.0, Print(field.1), rest);
    var inner := Escape(field.0) + ([QUOTE] + after);
    assert ([QUOTE] + inner)[1..] == inner;
    ReadQuoted(field.0, after);
    ReadPrinted(field.1, rest);
  }

  // ---- the normal form stands for equality up to key order ----

  lemma NormalFieldsAreDistinct(fields: seq<(Text, Json)>)
    requires DistinctKeys(fields)
    ensures DistinctKeys(NormalFields(fields))
    ensures var sorted := SortByKey(NormalFields(fields));
            Ascending(sorted) && SameMembers(sorted, NormalFields(fields))
  {
    SortSorts(NormalFields(fields));
  }

  lemma {:induction false} NormalIsWellFormed(v: Json)
    requires WellFormed(v)
    ensures WellFormed(Normal(v))
    decreases v
  {
    match v
    case Arr(items) =>
      forall i | 0 <= i < |items| ensures WellFormed(Normal(items[i])) { NormalIsWellFormed(items[i]); }
    case Obj(fields) =>
      forall i | 0 <= i < |fields| ensures WellFormed(Normal(fields[i].1)) { NormalIsWellFormed(fields[i].1); }
      NormalFieldsAreDistinct(fields);
      var normal, sorted := NormalFields(fields), SortByKey(NormalFields(fields));
      AscendingIsDistinct(sorted);
      forall k | 0 <= k < |sorted| ensures WellFormed(sorted[k].1) {
        assert sorted[k] in normal;
      }
    case _ =>
  }

  lemma AscendingIsDistinct<T>(fields: seq<(Text, T)>)
    requires Ascending(fields)
    ensures DistinctKeys(fields)
  {
    forall i, j | 0 <= i < j < |fields| ensures fields[i].0 != fields[j].0 { LessIsTotal(fields[i].0, fields[j].0); }
  }

  /** The same members, in any order, sort to the same list. */
  lemma SortsAgree<T(!new)>(a: seq<(Text, T)>, b: seq<(Text, T)>)
    requires DistinctKeys(a) && DistinctKeys(b) && |a| == |b| && forall f :: f in a ==> f in b
    ensures SortByKey(a) == SortByKey(b)
  {
    SortSorts(a);
    SortSorts(b);
    AscendingIsUnique(SortByKey(a), SortByKey(b));
  }

  lemma SortsDetermine<T(!new)>(a: seq<(Text, T)>, b: seq<(Text, T)>)
    requires DistinctKeys(a) && DistinctKeys(b) && SortByKey(a) == SortByKey(b)
    ensures |a| == |b| && forall f :: f in a ==> f in b
  {
    SortSorts(a);
    SortSorts(b);
  }

  lemma {:induction false} SameIffNormal(a: Json, b: Json)
    requires WellFormed(a) && WellFormed(b)
    ensures Same(a, b) <==> Normal(a) == Normal(b)
    decreases a
  {
    match (a, b)
    case (Arr(x), Arr(y)) =>
      if |x| == |y| {
        forall i | 0 <= i < |x| ensures Same(x[i], y[i]) <==> Normal(x[i]) == Normal(y[i]) {
          SameIffNormal(x[i], y[i]);
        }
        if Same(a, b) { assert NormalItems(x) == NormalItems(y); }
      } else {
        assert |NormalItems(x)| != |NormalItems(y)|;
      }
    case (Obj(x), Obj(y)) =>
      forall i, j | 0 <= i < |x| && 0 <= j < |y| ensures Same(x[i].1, y[j].1) <==> Normal(x[i].1) == Normal(y[j].1) {
        SameIffNormal(x[i].1, y[j].1);
      }
      SameFieldsIffNormal(x, y);
    case _ =>
  }

  ghost predicate Agree(x: seq<(Text, Json)>, y: seq<(Text, Json)>) {
    forall i, j :: 0 <= i < |x| && 0 <= j < |y| ==> (Same(x[i].1, y[j].1) <==> Normal(x[i].1) == Normal(y[j].1))
  }

  lemma SameFieldsIffNormal(x: seq<(Text, Json)>, y: seq<(Text, Json)>)
    requires DistinctKeys(x) && DistinctKeys(y) && Agree(x, y)
    ensures Same(Obj(x), Obj(y)) <==> Normal(Obj(x)) == Normal(Obj(y))
  {
    hide Agree, DistinctKeys, NormalFields, SortByKey;
    if Same(Obj(x), Obj(y)) { SameFieldsSort(x, y); }
    if SortByKey(NormalFields(x)) == SortByKey(NormalFields(y)) { SortedFieldsAreSame(x, y); }
  }

  lemma SameFieldsSort(x: seq<(Text, Json)>, y: seq<(Text, Json)>)
    requires DistinctKeys(x) && DistinctKeys(y) && Agree(x, y) && Same(Obj(x), Obj(y))
    ensures SortByKey(NormalFields(x)) == SortByKey(NormalFields(y))
  {
    hide Normal, SortByKey;
    var nx, ny := NormalFields(x), NormalFields(y);
    NormalFieldsAreDistinct(x);
    NormalFieldsAreDistinct(y);
    forall f | f in nx ensures f in ny {
      var i :| 0 <= i < |nx| && nx[i] == f;
      var j :| 0 <= j < |y| && x[i].0 == y[j].0 && Same(x[i].1, y[j].1);
      assert ny[j] == f;
    }
    SortsAgree(nx, ny);
  }

  lemma SortedFieldsAreSame(x: seq<(Text, Json)>, y: seq<(Text, Json)>)
    requires DistinctKeys(x) && DistinctKeys(y) && Agree(x, y)
    requires SortByKey(NormalFields(x)) == SortByKey(NormalFields(y))
    ensures Same(Obj(x), Obj(y))
  {
    hide Normal, SortByKey;
    var nx, ny := NormalFields(x), NormalFields(y);
    NormalFieldsAreDistinct(x);
    NormalFieldsAreDistinct(y);
    SortsDetermine(nx, ny);
    forall i | 0 <= i < |x| ensures exists j :: 0 <= j < |y| && x[i].0 == y[j].0 && Same(x[i].1, y[j].1) {
      assert nx[i] in nx;
      var j :| 0 <= j < |ny| && ny[j] == nx[i];
      assert x[i].0 == y[j].0 && Same(x[i].1, y[j].1);
    }
  }

  // ---- main results ----

  /** Canonical text can be read back, to the value with its keys sorted. */
  lemma CanonicalReadsBack(v: Json)
    requires WellFormed(v)
    ensures ReadValue(CanonicalJson(v)) == Some((Normal(v), []))
  {
    CanonicalIsPrinted(v);
    NormalIsWellFormed(v);
    ReadPrinted(Normal(v), []);
    assert Print(Normal(v)) + [] == Print(Normal(v));
  }

  /** Two values have one canonical text exactly when they are equal up to key order. */
  lemma CanonicalIsInjective(a: Json, b: Json)
    requires WellFormed(a) && WellFormed(b)
    ensures CanonicalJson(a) == CanonicalJson(b) <==> Same(a, b)
  {
    CanonicalReadsBack(a);
    CanonicalReadsBack(b);
    CanonicalIsPrinted(a);
    CanonicalIsPrinted(b);
    SameIffNormal(a, b);
  }

  ghost predicate OneLine(text: Text) {
    forall u :: u in text ==> u != NEWLINE
  }

  lemma {:induction false} EscapeIsOneLine(s: Text)
    ensures OneLine(Escape(s))
    decreases |s|
  {
    if s == [] {
    } else if |s| >= 2 && HighSurrogate(s[0]) && LowSurrogate(s[1]) {
      EscapeIsOneLine(s[2..]);
    } else {
      EscapeIsOneLine(s[1..]);
      assert OneLine(EscapeUnit(s[0]));
    }
  }

  lemma {:induction false} CommasIsOneLine(texts: seq<Text>)
    requires forall text :: text in texts ==> OneLine(text)
    ensures OneLine(Commas(texts))
  {
    if texts != [] {
      assert texts[0] in texts;
      if |texts| > 1 { CommasIsOneLine(texts[1..]); }
    }
  }

  lemma {:induction false} PrintIsOneLine(v: Json)
    requires WellFormed(v)
    ensures OneLine(Print(v))
    decreases v, 1
  {
    match v
    case Number(lexeme) => forall u | u in lexeme ensures u != NEWLINE { assert NumberUnit(u); }
    case Str(text) => EscapeIsOneLine(text);
    case Arr(items) =>
      ItemsAreOneLine(items);
      CommasIsOneLine(PrintItems(items));
    case Obj(fields) =>
      MembersAreOneLine(fields);
      CommasIsOneLine(Members(PrintFields(fields)));
    case _ =>
  }

  lemma {:induction false} ItemsAreOneLine(items: seq<Json>)
    requires forall i :: 0 <= i < |items| ==> WellFormed(items[i])
    ensures forall text :: text in PrintItems(items) ==> OneLine(text)
    decreases items, 0
  {
    if items != [] {
      PrintIsOneLine(items[0]);
      ItemsAreOneLine(items[1..]);
    }
  }

  lemma {:induction false} MembersAreOneLine(fields: seq<(Text, Json)>)
    requires forall i :: 0 <= i < |fields| ==> WellFormed(fields[i].1)
    ensures forall text :: text in Members(PrintFields(fields)) ==> OneLine(text)
    decreases fields, 0
  {
    if fields != [] {
      MemberIsOneLine(fields[0]);
      MembersAreOneLine(fields[1..]);
      assert PrintFields(fields)[1..] == PrintFields(fields[1..]);
      HeadAndRest(Members(PrintFields(fields)));
    }
  }

  lemma MemberIsOneLine(field: (Text, Json))
    requires WellFormed(field.1)
    ensures OneLine(Member(field.0, Print(field.1)))
    decreases field, 2
  {
    EscapeIsOneLine(field.0);
    PrintIsOneLine(field.1);
  }

  /** The text after the last newline of a request text is the canonical request. */
  lemma LastNewlineSplits(a: Text, x: Text, b: Text, y: Text)
    requires a + [NEWLINE] + x == b + [NEWLINE] + y && OneLine(x) && OneLine(y)
    ensures a == b && x == y
  {
    var left, right := a + [NEWLINE] + x, b + [NEWLINE] + y;
    NewlineAt(a, x);
    NewlineAt(b, y);
    assert left[|a|] == right[|b|];
  }

  lemma NewlineAt(a: Text, x: Text)
    requires OneLine(x)
    ensures var t := a + [NEWLINE] + x;
            && |a| < |t| && t[|a|] == NEWLINE && (forall k :: |a| < k < |t| ==> t[k] != NEWLINE)
            && t[..|a|] == a && t[|a| + 1..] == x
  {
    var t := a + [NEWLINE] + x;
    forall k | |a| < k < |t| ensures t[k] != NEWLINE {
      assert t[k] == x[k - |a| - 1] && x[k - |a| - 1] in x;
    }
  }

  /** The hashed text determines the operation, and the request up to key order. */
  lemma RequestTextDetermines(operation: Text, a: Json, operation': Text, b: Json)
    requires WellFormed(a) && WellFormed(b)
    ensures RequestText(operation, a) == RequestText(operation', b) <==> operation == operation' && Same(a, b)
  {
    CanonicalIsPrinted(a);
    CanonicalIsPrinted(b);
    NormalIsWellFormed(a);
    NormalIsWellFormed(b);
    PrintIsOneLine(Normal(a));
    PrintIsOneLine(Normal(b));
    CanonicalIsInjective(a, b);
    hide OneLine, Same, CanonicalJson;
    if RequestText(operation, a) == RequestText(operation', b) {
      LastNewlineSplits(operation, CanonicalJson(a), operation', CanonicalJson(b));
    }
  }
}
