/** The byte budget of a final agent result (src/acp-registry.ts): UTF-8 tail
    truncation, the binary search that fits the output text into the serialized
    JSON, and the compact fallback.

    A text is a sequence of code points; a lone surrogate is a point of its own.
    UTF-8 encodes it as U+FFFD (section 3 of RFC 3629 forbids surrogates), while
    JSON.stringify escapes it (section 7 of RFC 8259). */
module AcpResult {
  import opened Common

  const FINAL_RESULT_MAX_BYTES := 2097152
  const REPLACEMENT: Point := 0xFFFD

  type Point = p: int | 0 <= p <= 0x10FFFF
  type Byte = b: int | 0 <= b < 256
  type Text = seq<Point>

  predicate Surrogate(p: Point) {
    0xD800 <= p <= 0xDFFF
  }

  // ---- UTF-8 ----

  function Scalar(p: Point): Point {
    if Surrogate(p) then REPLACEMENT else p
  }

  /** What a text looks like once it has been through UTF-8 bytes. */
  function Clean(text: Text): (clean: Text)
    ensures |clean| == |text| && forall i :: 0 <= i < |text| ==> clean[i] == Scalar(text[i])
  {
    if text == [] then [] else [Scalar(text[0])] + Clean(text[1..])
  }

  function Bytes(p: Point): nat {
    if p < 0x80 then 1 else if p < 0x800 then 2 else if p < 0x10000 then 3 else 4
  }

  function Size(text: Text): nat {
    if text == [] then 0 else Bytes(text[0]) + Size(text[1..])
  }

  function EncodePoint(p: Point): (bytes: seq<Byte>)
    ensures |bytes| == Bytes(p)
  {
    var s := Scalar(p);
    if s < 0x80 then [s]
    else if s < 0x800 then [0xC0 + s / 64, 0x80 + s % 64]
    else if s < 0x10000 then [0xE0 + s / 4096, 0x80 + s / 64 % 64, 0x80 + s % 64]
    else [0xF0 + s / 262144, 0x80 + s / 4096 % 64, 0x80 + s / 64 % 64, 0x80 + s % 64]
  }

  function Encode(text: Text): seq<Byte> {
    if text == [] then [] else EncodePoint(text[0]) + Encode(text[1..])
  }

  /** `(b & 0xc0) === 0x80` */
  predicate Continuation(b: Byte) {
    0x80 <= b < 0xC0
  }

  function Low(b: Byte): int { b % 64 }

  /** Decoding bytes that start at a character boundary; cut-off ends become U+FFFD. */
  function Decode(bytes: seq<Byte>): Text {
    if bytes == [] then []
    else
      var b := bytes[0];
      if b < 0x80 then [b as Point] + Decode(bytes[1..])
      else if b < 0xE0 && |bytes| >= 2 then [(b % 32 * 64 + Low(bytes[1])) as Point] + Decode(bytes[2..])
      else if 0xE0 <= b < 0xF0 && |bytes| >= 3
        then [(b % 16 * 4096 + Low(bytes[1]) * 64 + Low(bytes[2])) as Point] + Decode(bytes[3..])
      else if 0xF0 <= b && |bytes| >= 4 then
        var p := b % 8 * 262144 + Low(bytes[1]) * 4096 + Low(bytes[2]) * 64 + Low(bytes[3]);
        [if p <= 0x10FFFF then p as Point else REPLACEMENT] + Decode(bytes[4..])
      else [REPLACEMENT]
  }

  lemma EncodedPoint(p: Point)
    ensures !Continuation(EncodePoint(p)[0])
    ensures forall i :: 0 < i < Bytes(p) ==> Continuation(EncodePoint(p)[i])
  {}

  lemma DigitsOfTwo(s: int)
    requires 0x80 <= s < 0x800
    ensures (0xC0 + s / 64) % 32 * 64 + (0x80 + s % 64) % 64 == s
  {
    assert (0xC0 + s / 64) % 32 == s / 64;
  }

  lemma DigitsOfThree(s: int)
    requires 0x800 <= s < 0x10000
    ensures (0xE0 + s / 4096) % 16 * 4096 + (0x80 + s / 64 % 64) % 64 * 64 + (0x80 + s % 64) % 64 == s
  {
    assert (0xE0 + s / 4096) % 16 == s / 4096;
    assert s / 64 == s / 4096 * 64 + s / 64 % 64;
  }

  lemma DigitsOfFour(s: int)
    requires 0x10000 <= s <= 0x10FFFF
    ensures (0xF0 + s / 262144) % 8 * 262144 + (0x80 + s / 4096 % 64) % 64 * 4096 + (0x80 + s / 64 % 64) % 64 * 64
              + (0x80 + s % 64) % 64 == s
  {
    var a := s / 64;
    var b := a / 64;
    FourthDigit(s);
    assert s == 64 * a + s % 64 && a == 64 * b + a % 64 && b == 64 * (b / 64) + b % 64;
  }

  lemma FourthDigit(s: int)
    requires 0x10000 <= s <= 0x10FFFF
    ensures s / 4096 == s / 64 / 64 && s / 262144 == s / 64 / 64 / 64
    ensures (0xF0 + s / 262144) % 8 == s / 262144
    ensures (0x80 + s % 64) % 64 == s % 64
    ensures (0x80 + s / 64 % 64) % 64 == s / 64 % 64 && (0x80 + s / 64 / 64 % 64) % 64 == s / 64 / 64 % 64
  {}

  lemma DecodePoint(p: Point, rest: seq<Byte>)
    ensures Decode(EncodePoint(p) + rest) == [Scalar(p)] + Decode(rest)
  {
    var bytes, s := EncodePoint(p) + rest, Scalar(p);
    assert bytes[|EncodePoint(p)|..] == rest;
    assert forall i :: 0 <= i < |EncodePoint(p)| ==> bytes[i] == EncodePoint(p)[i];
    if s < 0x80 {
    } else if s < 0x800 {
      DigitsOfTwo(s);
    } else if s < 0x10000 {
      DigitsOfThree(s);
    } else {
      DigitsOfFour(s);
    }
  }

  /** Bytes and back: what was encoded, with every lone surrogate replaced. */
  lemma {:induction false} DecodeEncode(text: Text)
    ensures Decode(Encode(text)) == Clean(text)
  {
    if text != [] {
      DecodeEncode(text[1..]);
      DecodePoint(text[0], Encode(text[1..]));
    }
  }

  lemma {:induction false} EncodedSize(text: Text)
    ensures |Encode(text)| == Size(text)
  {
    if text != [] { EncodedSize(text[1..]); }
  }

  lemma {:induction false} EncodeConcat(a: Text, b: Text)
    ensures Encode(a + b) == Encode(a) + Encode(b)
  {
    if a == [] {
      LeftUnit(b);
      LeftUnit(Encode(b));
    } else {
      assert (a + b)[1..] == a[1..] + b;
      EncodeConcat(a[1..], b);
      Assoc(EncodePoint(a[0]), Encode(a[1..]), Encode(b));
    }
  }

  lemma {:induction false} SizeConcat(a: Text, b: Text)
    ensures Size(a + b) == Size(a) + Size(b)
  {
    if a == [] {
      LeftUnit(b);
    } else {
      assert (a + b)[1..] == a[1..] + b;
      SizeConcat(a[1..], b);
    }
  }

  lemma {:induction false} CleanSize(text: Text)
    ensures Size(Clean(text)) == Size(text)
  {
    if text != [] {
      assert Clean(text)[1..] == Clean(text[1..]);
      CleanSize(text[1..]);
    }
  }

  // ---- the longest tail that fits ----

  /** The first position from which the rest of the text fits. */
  function TailStart(text: Text, maxBytes: nat): (k: nat)
    ensures k <= |text| && Size(text[k..]) <= maxBytes
    ensures forall j :: 0 <= j < k ==> Size(text[j..]) > maxBytes
  {
    if Size(text) <= maxBytes then
      assert text[0..] == text;
      0
    else
      var rest := TailStart(text[1..], maxBytes);
      SuffixOfRest(text, rest);
      rest + 1
  }

  lemma SuffixOfRest(text: Text, k: nat)
    requires k < |text|
    ensures text[0..] == text && text[1..][k..] == text[k + 1..]
    ensures forall j :: 0 < j <= k ==> text[j..] == text[1..][j - 1..]
  {
    forall j | 0 < j <= k ensures text[j..] == text[1..][j - 1..] {}
  }

  function Truncated(text: Text, maxBytes: nat): Text {
    if Size(text) <= maxBytes then text else Clean(text[TailStart(text, maxBytes)..])
  }

  lemma TruncatedFits(text: Text, maxBytes: nat)
    ensures Size(Truncated(text, maxBytes)) <= maxBytes
  {
    CleanSize(text[TailStart(text, maxBytes)..]);
  }

  /** Between two boundaries the encoding holds only continuation bytes. */
  lemma InsidePoint(text: Text, k: nat, i: nat)
    requires 0 < k <= |text|
    requires Size(text) - Size(text[k - 1..]) < i < Size(text) - Size(text[k..])
    ensures i < |Encode(text)| && Continuation(Encode(text)[i])
  {
    var before, p, after := text[..k - 1], text[k - 1], text[k..];
    assert text == before + ([p] + after) && text[k - 1..] == [p] + after;
    EncodeConcat(before, [p] + after);
    SizeConcat(before, [p] + after);
    EncodedSize(before);
    assert ([p] + after)[1..] == after;
    EncodedPoint(p);
    var at := i - |Encode(before)|;
    assert Encode(text)[i] == (EncodePoint(p) + Encode(after))[at] == EncodePoint(p)[at];
  }

  /** A boundary is the end of the text or a byte that starts a character. */
  lemma AtBoundary(text: Text, k: nat)
    requires k <= |text|
    ensures var at := Size(text) - Size(text[k..]);
            && 0 <= at <= |Encode(text)| && Encode(text)[at..] == Encode(text[k..])
            && (at < |Encode(text)| ==> !Continuation(Encode(text)[at]))
  {
    assert text == text[..k] + text[k..];
    EncodeConcat(text[..k], text[k..]);
    SizeConcat(text[..k], text[k..]);
    EncodedSize(text[..k]);
    EncodedSize(text[k..]);
    if k < |text| { EncodedPoint(text[k]); }
  }

  /** `truncateUtf8Tail`: cut at the byte limit, then skip to a character start. */
  method TruncateUtf8Tail(value: Text, maxBytes: nat) returns (tail: Text)
    ensures tail == Truncated(value, maxBytes)
  {
    hide Encode, Decode, Size, Continuation, Clean;
    var encoded := Encode(value);
    EncodedSize(value);
    if |encoded| <= maxBytes { return value; }
    ghost var k := TailStart(value, maxBytes);
    ghost var boundary := Size(value) - Size(value[k..]);
    AtBoundary(value, k);
    AtBoundary(value, k - 1);
    var start := |encoded| - maxBytes;
    while start < |encoded| && Continuation(encoded[start])
      invariant |encoded| - maxBytes <= start <= boundary
      decreases |encoded| - start
    {
      start := start + 1;
    }
    if start < boundary { InsidePoint(value, k, start); }
    DecodeEncode(value[k..]);
    return Decode(encoded[start..]);
  }

  // ---- JSON.stringify ----

  datatype Json =
    | Null
    | Bool(value: bool)
    | Number(lexeme: Lexeme)
    | Str(text: Text)
    | Arr(items: seq<Json>)
    | Obj(fields: seq<(Text, Json)>)

  /** A number as JavaScript renders it. */
  type Lexeme = t: Text | |t| <= 25 && forall p :: p in t ==> p < 0x80 witness []

  const NULL := "null"
  const TRUE := "true"
  const FALSE := "false"
  const OUTPUT := "output"
  const ROLE := "role"
  const AGENT := "agent"
  const PARTS := "parts"
  const CONTENT_TYPE := "content_type"
  const TEXT_PLAIN := "text/plain"
  const CONTENT := "content"

  function Chars(s: string): (t: Text)
    ensures |t| == |s|
  {
    if s == "" then [] else [if s[0] as int < 0x80 then s[0] as int else REPLACEMENT] + Chars(s[1..])
  }

  /** One character inside a JSON string. */
  function EscapePoint(p: Point): Text {
    if p == 0x22 || p == 0x5C then [0x5C, p]
    else if p in {8, 9, 10, 12, 13} then [0x5C, ShortEscape(p)]
    else if p < 0x20 || Surrogate(p) then [0x5C, 0x75, Hex(p / 4096), Hex(p / 256 % 16), Hex(p / 16 % 16), Hex(p % 16)]
    else [p]
  }

  function ShortEscape(p: Point): Point {
    if p == 8 then 0x62 else if p == 9 then 0x74 else if p == 10 then 0x6E else if p == 12 then 0x66 else 0x72
  }

  function Hex(d: int): Point {
    if 0 <= d < 10 then 0x30 + d else if 10 <= d < 16 then 0x61 + d - 10 else 0x30
  }

  function Escape(text: Text): Text {
    if text == [] then [] else EscapePoint(text[0]) + Escape(text[1..])
  }

  function Quote(text: Text): Text {
    [0x22] + Escape(text) + [0x22]
  }

  const COMMA: Point := 0x2C

  function Stringify(v: Json): Text {
    match v
    case Null => Chars(NULL)
    case Bool(b) => if b then Chars(TRUE) else Chars(FALSE)
    case Number(lexeme) => lexeme
    case Str(text) => Quote(text)
    case Arr(items) => [0x5B] + Items(items) + [0x5D]
    case Obj(fields) => [0x7B] + Fields(fields) + [0x7D]
  }

  function Items(items: seq<Json>): Text {
    if items == [] then []
    else if |items| == 1 then Stringify(items[0])
    else Stringify(items[0]) + [COMMA] + Items(items[1..])
  }

  function Field(field: (Text, Json)): Text {
    Quote(field.0) + [0x3A] + Stringify(field.1)
  }

  function Fields(fields: seq<(Text, Json)>): Text {
    if fields == [] then []
    else if |fields| == 1 then Field(fields[0])
    else Field(fields[0]) + [COMMA] + Fields(fields[1..])
  }

  lemma {:induction false} EscapeConcat(a: Text, b: Text)
    ensures Escape(a + b) == Escape(a) + Escape(b)
  {
    if a == [] {
      LeftUnit(b);
      LeftUnit(Escape(b));
    } else {
      assert (a + b)[1..] == a[1..] + b;
      EscapeConcat(a[1..], b);
      Assoc(EscapePoint(a[0]), Escape(a[1..]), Escape(b));
    }
  }

  lemma EscapedPointSize(p: Point)
    ensures Bytes(p) <= Size(EscapePoint(p)) <= 6 * Bytes(p)
    ensures Size(EscapePoint(Scalar(p))) <= Size(EscapePoint(p))
  {
    if p == 0x22 || p == 0x5C || p in {8, 9, 10, 12, 13} {
      TwoAscii(EscapePoint(p)[0], EscapePoint(p)[1]);
    } else if p < 0x20 || Surrogate(p) {
      var e := EscapePoint(p);
      TwoAscii(e[0], e[1]);
      TwoAscii(e[2], e[3]);
      TwoAscii(e[4], e[5]);
      assert e == [e[0], e[1]] + ([e[2], e[3]] + [e[4], e[5]]);
      SizeConcat([e[0], e[1]], [e[2], e[3]] + [e[4], e[5]]);
      SizeConcat([e[2], e[3]], [e[4], e[5]]);
    } else {
      OnePoint(p);
    }
    OnePoint(REPLACEMENT);
  }

  lemma OnePoint(p: Point)
    ensures Size([p]) == Bytes(p)
  {
    assert [p][1..] == [];
  }

  lemma TwoAscii(a: Point, b: Point)
    requires a < 0x80 && b < 0x80
    ensures Size([a, b]) == 2
  {
    OnePoint(a);
    OnePoint(b);
    SizeConcat([a], [b]);
    assert [a] + [b] == [a, b];
  }

  /** Escaping at most multiplies a text by six. */
  lemma {:induction false} EscapedSize(text: Text)
    ensures Size(Escape(text)) <= 6 * Size(text)
  {
    if text != [] {
      EscapedSize(text[1..]);
      EscapedPointSize(text[0]);
      SizeConcat(EscapePoint(text[0]), Escape(text[1..]));
    }
  }

  lemma {:induction false} CleanEscapesSmaller(text: Text)
    ensures Size(Escape(Clean(text))) <= Size(Escape(text))
  {
    if text != [] {
      CleanEscapesSmaller(text[1..]);
      EscapedPointSize(text[0]);
      assert Clean(text)[1..] == Clean(text[1..]);
      SizeConcat(EscapePoint(text[0]), Escape(text[1..]));
      SizeConcat(EscapePoint(Scalar(text[0])), Escape(Clean(text[1..])));
    }
  }

  /** A longer tail never serializes to less. */
  lemma TailEscapesSmaller(text: Text, j: nat, k: nat)
    requires j <= k <= |text|
    ensures Size(Escape(Clean(text[k..]))) <= Size(Escape(Clean(text[j..])))
  {
    var long, short := Clean(text[j..]), Clean(text[k..]);
    assert long == long[..k - j] + short;
    EscapeConcat(long[..k - j], short);
    SizeConcat(Escape(long[..k - j]), Escape(short));
  }

  /** The serialized size grows with the budget given to the tail. */
  lemma TruncatedIsMonotone(text: Text, a: nat, b: nat)
    requires a <= b
    ensures Size(Escape(Truncated(text, a))) <= Size(Escape(Truncated(text, b)))
  {
    if Size(text) > a {
      var k := TailStart(text, a);
      if Size(text) <= b {
        TailEscapesSmaller(text, 0, k);
        assert text[0..] == text;
        CleanEscapesSmaller(text);
      } else {
        TailEscapesSmaller(text, TailStart(text, b), k);
      }
    }
  }

  // ---- the document around the output ----

  type Source = seq<(Text, Json)>

  function Lookup(source: Source, key: Text): Option<Json> {
    if source == [] then None else if source[0].0 == key then Some(source[0].1) else Lookup(source[1..], key)
  }

  /** A property set on a copied object keeps its place, or comes last. */
  function Put(source: Source, key: Text, value: Json): Source {
    if source == [] then [(key, value)]
    else if source[0].0 == key then [(key, value)] + source[1..]
    else [source[0]] + Put(source[1..], key, value)
  }

  function FinalOutput(text: Text): Json {
    Arr([Obj([(Chars(ROLE), Str(Chars(AGENT))),
              (Chars(PARTS), Arr([Obj([(Chars(CONTENT_TYPE), Str(Chars(TEXT_PLAIN))),
                                       (Chars(CONTENT), Str(text))])]))])])
  }

  function SerializedUtf8(source: Source, text: Text): Text {
    Stringify(Obj(Put(source, Chars(OUTPUT), FinalOutput(text))))
  }

  predicate Fits(source: Source, text: Text) {
    Size(SerializedUtf8(source, text)) <= FINAL_RESULT_MAX_BYTES
  }

  lemma Ascii(p: Point)
    requires p < 0x80
    ensures Size([p]) == 1
  {
    OnePoint(p);
  }

  lemma SizeOfThree(a: Text, b: Text, c: Text)
    ensures Size(a + b + c) == Size(a) + Size(b) + Size(c)
  {
    SizeConcat(a + b, c);
    SizeConcat(a, b);
  }

  lemma QuoteSize(text: Text)
    ensures Size(Quote(text)) == Size(Escape(text)) + 2
  {
    SizeOfThree([0x22], Escape(text), [0x22]);
    Ascii(0x22);
  }

  lemma FieldSize(field: (Text, Json))
    ensures Size(Field(field)) == Size(Quote(field.0)) + 1 + Size(Stringify(field.1))
  {
    SizeOfThree(Quote(field.0), [0x3A], Stringify(field.1));
    Ascii(0x3A);
  }

  lemma ObjSize(fields: Source)
    ensures Size(Stringify(Obj(fields))) == Size(Fields(fields)) + 2
  {
    SizeOfThree([0x7B], Fields(fields), [0x7D]);
    Ascii(0x7B);
    Ascii(0x7D);
  }

  lemma OneItemSize(item: Json)
    ensures Size(Stringify(Arr([item]))) == Size(Stringify(item)) + 2
  {
    SizeOfThree([0x5B], Stringify(item), [0x5D]);
    Ascii(0x5B);
    Ascii(0x5D);
  }

  lemma MoreFieldsSize(head: (Text, Json), rest: Source)
    ensures Size(Fields([head] + rest)) == Size(Field(head)) + (if rest == [] then 0 else 1 + Size(Fields(rest)))
  {
    var all := [head] + rest;
    assert all[0] == head && all[1..] == rest;
    if rest != [] {
      SizeOfThree(Field(head), [COMMA], Fields(rest));
      Ascii(COMMA);
    }
  }

  /** Replacing a property changes the size by what the value changes. */
  lemma {:induction false} PutSize(source: Source, key: Text, v: Json, w: Json)
    ensures Size(Fields(Put(source, key, v))) - Size(Stringify(v))
              == Size(Fields(Put(source, key, w))) - Size(Stringify(w))
    ensures Put(source, key, v) != [] && Put(source, key, w) != []
    decreases |source|
  {
    hide Fields, Field, Stringify, Size, Quote;
    FieldSize((key, v));
    FieldSize((key, w));
    if source == [] {
      MoreFieldsSize((key, v), []);
      MoreFieldsSize((key, w), []);
      assert [(key, v)] + [] == [(key, v)] && [(key, w)] + [] == [(key, w)];
    } else if source[0].0 == key {
      MoreFieldsSize((key, v), source[1..]);
      MoreFieldsSize((key, w), source[1..]);
    } else {
      PutSize(source[1..], key, v, w);
      MoreFieldsSize(source[0], Put(source[1..], key, v));
      MoreFieldsSize(source[0], Put(source[1..], key, w));
    }
  }

  lemma FinalOutputSize(text: Text)
    ensures Size(Stringify(FinalOutput(text))) == Size(Stringify(FinalOutput([]))) + Size(Escape(text))
  {
    hide Fields, Field, Size, Escape, Stringify;
    FinalOutputIs(text);
    FinalOutputIs([]);
    assert Size(Escape([])) == 0 by { EmptyEscape(); }
  }

  lemma EmptyEscape()
    ensures Escape([]) == [] && Size([]) == 0
  {}

  /** The size of the output property, summed up from its parts. */
  lemma FinalOutputIs(text: Text)
    ensures Size(Stringify(FinalOutput(text)))
         == Size(Field((Chars(ROLE), Str(Chars(AGENT))))) + Size(Quote(Chars(PARTS)))
           + Size(Field((Chars(CONTENT_TYPE), Str(Chars(TEXT_PLAIN)))))
          + Size(Quote(Chars(CONTENT))) + Size(Escape(text)) + 14
  {
    hide Fields, Field, Size, Escape, Chars, Quote;
    var role, kind := (Chars(ROLE), Str(Chars(AGENT))), (Chars(CONTENT_TYPE), Str(Chars(TEXT_PLAIN)));
    var content := (Chars(CONTENT), Str(text));
    var part := Obj([kind, content]);
    var parts := (Chars(PARTS), Arr([part]));
    var message := Obj([role, parts]);
    OneItemSize(message);
    ObjSize([role, parts]);
    TwoFieldsSize(role, parts);
    FieldSize(parts);
    OneItemSize(part);
    ObjSize([kind, content]);
    TwoFieldsSize(kind, content);
    FieldSize(content);
    QuoteSize(text);
  }

  lemma TwoFieldsSize(a: (Text, Json), b: (Text, Json))
    ensures Size(Fields([a, b])) == Size(Field(a)) + 1 + Size(Field(b))
  {
    MoreFieldsSize(a, [b]);
    MoreFieldsSize(b, []);
    assert [a] + [b] == [a, b] && [b] + [] == [b];
  }

  /** The measured size is the size with no output plus the escaped output. */
  lemma SerializedSize(source: Source, text: Text)
    ensures Size(SerializedUtf8(source, text)) == Size(SerializedUtf8(source, [])) + Size(Escape(text))
  {
    hide Fields, Size, Escape, Put, FinalOutput;
    var key := Chars(OUTPUT);
    FinalOutputSize(text);
    PutSize(source, key, FinalOutput(text), FinalOutput([]));
    ObjSize(Put(source, key, FinalOutput(text)));
    ObjSize(Put(source, key, FinalOutput([])));
  }

  // ---- fitting the output ----

  /** The whole text when it fits; else its longest tail that fits; else none of
      it, which may still be too large. */
  ghost predicate IsFitted(source: Source, text: Text, r: Text) {
    if Fits(source, text) then r == SerializedUtf8(source, text)
    else if !Fits(source, []) then r == SerializedUtf8(source, [])
    else exists k :: LongestTail(source, text, k) && r == SerializedUtf8(source, Clean(text[k..]))
  }

  ghost predicate LongestTail(source: Source, text: Text, k: int) {
    && 1 <= k <= |text| && Fits(source, Clean(text[k..]))
    && forall j :: 1 <= j < k ==> !Fits(source, Clean(text[j..]))
  }

  lemma FitsIsMonotone(source: Source, text: Text, a: nat, b: nat)
    requires a <= b && Fits(source, Truncated(text, b))
    ensures Fits(source, Truncated(text, a))
  {
    SerializedSize(source, Truncated(text, a));
    SerializedSize(source, Truncated(text, b));
    TruncatedIsMonotone(text, a, b);
  }

  lemma EmptyFitsFirst(source: Source, text: Text)
    requires Fits(source, text)
    ensures Fits(source, [])
  {
    SerializedSize(source, text);
  }

  lemma {:induction false} SuffixIsSmaller(text: Text, i: nat, j: nat)
    requires i < j <= |text|
    ensures Size(text[i..]) > Size(text[j..])
  {
    assert text[i..] == [text[i]] + text[i + 1..j] + text[j..];
    SizeOfThree([text[i]], text[i + 1..j], text[j..]);
    OnePoint(text[i]);
  }

  /** Every tail is the one that some budget cuts to. */
  lemma BudgetOfTail(text: Text, j: nat)
    requires 1 <= j <= |text|
    ensures Size(text[j..]) < Size(text) && Truncated(text, Size(text[j..])) == Clean(text[j..])
  {
    var m := Size(text[j..]);
    var k := TailStart(text, m);
    SuffixIsSmaller(text, 0, j);
    assert text[0..] == text;
    if k < j { SuffixIsSmaller(text, k, j); }
  }

  /** Nothing above `best` fits, so the tail cut to `best` is the longest. */
  lemma SearchedTail(source: Source, text: Text, best: nat)
    requires !Fits(source, text) && Fits(source, Truncated(text, best))
    requires forall n: nat :: best < n <= Size(text) ==> !Fits(source, Truncated(text, n))
    ensures best < Size(text) && LongestTail(source, text, TailStart(text, best))
    ensures Truncated(text, best) == Clean(text[TailStart(text, best)..])
  {
    hide Fits, Size;
    var k := TailStart(text, best);
    forall j | 1 <= j < k ensures !Fits(source, Clean(text[j..])) {
      BudgetOfTail(text, j);
      assert Size(text[j..]) > best;
    }
    assert text[0..] == text;
  }

  /** `fitSerializedOutput`: a binary search over the byte budget of the tail. */
  method FitSerializedOutput(source: Source, text: Text) returns (r: Text)
    ensures IsFitted(source, text, r)
  {
    hide Fits, SerializedUtf8, Size, Truncated;
    var full := SerializedUtf8(source, text);
    if Size(full) <= FINAL_RESULT_MAX_BYTES {
      FitsIsSize(source, text);
      return full;
    }
    FitsIsSize(source, text);
    var low, high := 0, Size(text);
    r := SerializedUtf8(source, []);
    while low <= high
      invariant 0 <= low <= high + 1 <= Size(text) + 1
      invariant low > 0 ==> Fits(source, Truncated(text, low - 1))
                              && r == SerializedUtf8(source, Truncated(text, low - 1))
      invariant low == 0 ==> r == SerializedUtf8(source, [])
      invariant forall n: nat :: high < n <= Size(text) ==> !Fits(source, Truncated(text, n))
      decreases high + 1 - low
    {
      var candidateBytes := (low + high) / 2;
      var tail := TruncateUtf8Tail(text, candidateBytes);
      var candidate := SerializedUtf8(source, tail);
      FitsIsSize(source, tail);
      if Size(candidate) <= FINAL_RESULT_MAX_BYTES {
        r := candidate;
        low := candidateBytes + 1;
      } else {
        forall n: nat | candidateBytes <= n <= Size(text) ensures !Fits(source, Truncated(text, n)) {
          if Fits(source, Truncated(text, n)) { FitsIsMonotone(source, text, candidateBytes, n); }
        }
        high := candidateBytes - 1;
      }
    }
    if low == 0 {
      NothingLeft(text);
    } else {
      SearchedTail(source, text, low - 1);
      EmptyFitsFirst(source, Truncated(text, low - 1));
    }
  }

  lemma FitsIsSize(source: Source, text: Text)
    ensures Fits(source, text) <==> Size(SerializedUtf8(source, text)) <= FINAL_RESULT_MAX_BYTES
  {}

  lemma NothingLeft(text: Text)
    ensures Truncated(text, 0) == []
  {
    var k := TailStart(text, 0);
    if k < |text| { SuffixIsSmaller(text, k, |text|); }
  }

  // ---- the tiers ----

  const COMPACT_KEYS: seq<string> := ["run_id", "remote_run_id", "status", "accepted", "mode", "error"]
  const COMPACT_VALUE_BYTES := 4096

  /** The scalar kept for one identity field, if it has one. */
  function KeptValue(value: Option<Json>): Option<Json> {
    match value
    case Some(Str(text)) => Some(Str(Truncated(text, COMPACT_VALUE_BYTES)))
    case Some(Bool(_)) => value
    case Some(Number(_)) => value
    case Some(Null) => value
    case _ => None
  }

  function KeptField(source: Source, key: string): Source {
    var kept := KeptValue(Lookup(source, Chars(key)));
    if kept.Some? then [(Chars(key), kept.value)] else []
  }

  function CompactFields(source: Source, keys: seq<string>): Source {
    if keys == [] then [] else KeptField(source, keys[0]) + CompactFields(source, keys[1..])
  }

  function Compact(source: Source): Source {
    CompactFields(source, COMPACT_KEYS)
  }

  const FIELD_BOUND := 24900

  lemma {:induction false} AsciiSize(text: Text)
    requires forall i :: 0 <= i < |text| ==> text[i] < 0x80
    ensures Size(text) == |text|
  {
    if text != [] { AsciiSize(text[1..]); }
  }

  lemma {:induction false} CharsSize(s: string)
    ensures Size(Chars(s)) <= 3 * |s|
  {
    if s != "" {
      var first: Point := if s[0] as int < 0x80 then s[0] as int else REPLACEMENT;
      CharsSize(s[1..]);
      SizeConcat([first], Chars(s[1..]));
      OnePoint(first);
    }
  }

  lemma QuotedBound(text: Text)
    ensures Size(Quote(text)) <= 6 * Size(text) + 2
  {
    QuoteSize(text);
    EscapedSize(text);
  }

  lemma QuotedCharsBound(s: string)
    ensures Size(Quote(Chars(s))) <= 18 * |s| + 2
  {
    CharsSize(s);
    QuotedBound(Chars(s));
  }

  lemma KeptValueSize(value: Option<Json>)
    ensures KeptValue(value).Some? ==> Size(Stringify(KeptValue(value).value)) <= 6 * COMPACT_VALUE_BYTES + 2
  {
    match value {
      case Some(Str(text)) =>
        TruncatedFits(text, COMPACT_VALUE_BYTES);
        QuotedBound(Truncated(text, COMPACT_VALUE_BYTES));
      case Some(Number(lexeme)) =>
        assert forall i :: 0 <= i < |lexeme| ==> lexeme[i] in lexeme;
        AsciiSize(lexeme);
      case Some(Bool(b)) => CharsSize(if b then TRUE else FALSE);
      case Some(Null) => CharsSize(NULL);
      case _ =>
    }
  }

  lemma {:induction false} CompactSize(source: Source, keys: seq<string>)
    requires forall key :: key in keys ==> |key| <= 13
    ensures Size(Fields(CompactFields(source, keys))) <= |keys| * (FIELD_BOUND + 1)
  {
    if keys != [] {
      hide Fields, Stringify, Size, Chars, Quote, Field;
      assert keys[0] in keys;
      CompactSize(source, keys[1..]);
      var key, rest := keys[0], CompactFields(source, keys[1..]);
      var kept := KeptValue(Lookup(source, Chars(key)));
      if kept.Some? {
        var field := (Chars(key), kept.value);
        KeptValueSize(Lookup(source, Chars(key)));
        QuotedCharsBound(key);
        FieldSize(field);
        MoreFieldsSize(field, rest);
        assert CompactFields(source, keys) == [field] + rest;
      } else {
        LeftUnit(rest);
      }
    } else {
      assert Fields([]) == [];
    }
  }

  /** Adding or replacing a property adds at most the property and a comma. */
  lemma {:induction false} PutBound(source: Source, key: Text, v: Json)
    ensures Size(Fields(Put(source, key, v)))
              <= Size(Fields(source)) + Size(Field((key, v))) + (if source == [] then 0 else 1)
    decreases |source|
  {
    hide Fields, Field, Stringify, Size, Quote;
    if source == [] {
      MoreFieldsSize((key, v), []);
      assert [(key, v)] + [] == [(key, v)];
    } else {
      assert source == [source[0]] + source[1..];
      MoreFieldsSize(source[0], source[1..]);
      if source[0].0 == key {
        MoreFieldsSize((key, v), source[1..]);
      } else {
        PutBound(source[1..], key, v);
        MoreFieldsSize(source[0], Put(source[1..], key, v));
        if source[1..] == [] { NoFields(); }
      }
    }
  }

  lemma NoFields()
    ensures Size(Fields([])) == 0
  {}

  /** The compact tier always has room, even when every byte escapes to six: the
      last fallback of `serializeFinalAcpResult` is never reached. */
  lemma CompactFits(source: Source)
    ensures Fits(Compact(source), [])
  {
    hide Fields, Field, Stringify, Size, Chars, Quote, CompactFields, FinalOutput;
    var compact, key, output := Compact(source), Chars(OUTPUT), FinalOutput([]);
    CompactSize(source, COMPACT_KEYS);
    PutBound(compact, key, output);
    FieldSize((key, output));
    QuotedCharsBound(OUTPUT);
    FinalOutputIs([]);
    EmptyEscape();
    FieldSize((Chars(ROLE), Str(Chars(AGENT))));
    FieldSize((Chars(CONTENT_TYPE), Str(Chars(TEXT_PLAIN))));
    QuotedCharsBound(ROLE);
    QuotedCharsBound(AGENT);
    QuotedCharsBound(PARTS);
    QuotedCharsBound(CONTENT_TYPE);
    QuotedCharsBound(TEXT_PLAIN);
    QuotedCharsBound(CONTENT);
    StrIsQuote(Chars(AGENT));
    StrIsQuote(Chars(TEXT_PLAIN));
    ObjSize(Put(compact, key, output));
  }

  lemma StrIsQuote(text: Text)
    ensures Stringify(Str(text)) == Quote(text)
  {}

  // ---- the output text of a result ----

  /** The text of a part, if it has one. */
  function PartText(part: Json): seq<Text> {
    match part
    case Obj(fields) => (match Lookup(fields, Chars(CONTENT)) case Some(Str(text)) => [text] case _ => [])
    case _ => []
  }

  function Contents(parts: seq<Json>): seq<Text> {
    if parts == [] then [] else PartText(parts[0]) + Contents(parts[1..])
  }

  function MessageTexts(message: Json): seq<Text> {
    match message
    case Obj(fields) => (match Lookup(fields, Chars(PARTS)) case Some(Arr(parts)) => Contents(parts) case _ => [])
    case _ => []
  }

  function AllContents(messages: seq<Json>): seq<Text> {
    if messages == [] then [] else MessageTexts(messages[0]) + AllContents(messages[1..])
  }

  function JoinLines(lines: seq<Text>): Text {
    if lines == [] then [] else if |lines| == 1 then lines[0] else lines[0] + [0x0A] + JoinLines(lines[1..])
  }

  /** `acpOutputText` */
  function AcpOutputText(value: Option<Json>): Text {
    match value case Some(Arr(messages)) => JoinLines(AllContents(messages)) case _ => []
  }

  lemma {:induction false} LookupPut(source: Source, key: Text, value: Json)
    ensures Lookup(Put(source, key, value), key) == Some(value)
  {
    if source != [] && source[0].0 != key { LookupPut(source[1..], key, value); }
  }

  /** What was put into a document is the output text read from it again. */
  lemma OutputReadsBack(source: Source, text: Text)
    ensures AcpOutputText(Lookup(Put(source, Chars(OUTPUT), FinalOutput(text)), Chars(OUTPUT))) == text
  {
    LookupPut(source, Chars(OUTPUT), FinalOutput(text));
    hide Chars;
    var content := (Chars(CONTENT), Str(text));
    var part := [(Chars(CONTENT_TYPE), Str(Chars(TEXT_PLAIN))), content];
    assert |CONTENT| != |CONTENT_TYPE| && |ROLE| != |PARTS|;
    assert part[1..] == [content] && Lookup(part, Chars(CONTENT)) == Some(Str(text));
    assert [Obj(part)][1..] == [] && Contents([Obj(part)]) == [text];
    var message := [(Chars(ROLE), Str(Chars(AGENT))), (Chars(PARTS), Arr([Obj(part)]))];
    assert message[1..] == [(Chars(PARTS), Arr([Obj(part)]))];
    assert Lookup(message, Chars(PARTS)) == Some(Arr([Obj(part)]));
    assert [Obj(message)][1..] == [] && AllContents([Obj(message)]) == [text];
  }

  function SourceOf(result: Json): Source {
    match result case Obj(fields) => fields case _ => []
  }

  method CompactOf(source: Source) returns (compact: Source)
    ensures compact == Compact(source)
  {
    hide CompactFields, KeptValue, Chars;
    compact := [];
    LeftUnit(CompactFields(source, COMPACT_KEYS));
    assert COMPACT_KEYS[0..] == COMPACT_KEYS;
    for i := 0 to |COMPACT_KEYS|
      invariant compact + CompactFields(source, COMPACT_KEYS[i..]) == Compact(source)
    {
      var key, rest := COMPACT_KEYS[i], COMPACT_KEYS[i + 1..];
      assert COMPACT_KEYS[i..][1..] == rest;
      NextKey(source, COMPACT_KEYS[i..]);
      Assoc(compact, KeptField(source, key), CompactFields(source, rest));
      var kept := KeepScalar(Lookup(source, Chars(key)));
      compact := compact + if kept.Some? then [(Chars(key), kept.value)] else [];
    }
    assert COMPACT_KEYS[|COMPACT_KEYS|..] == [];
    NoKeysLeft(source, compact);
  }

  lemma NoKeysLeft(source: Source, compact: Source)
    ensures compact + CompactFields(source, []) == compact
  {}

  lemma NextKey(source: Source, keys: seq<string>)
    requires keys != []
    ensures CompactFields(source, keys) == KeptField(source, keys[0]) + CompactFields(source, keys[1..])
  {}

  method KeepScalar(value: Option<Json>) returns (kept: Option<Json>)
    ensures kept == KeptValue(value)
  {
    match value {
      case Some(Str(text)) =>
        var tail := TruncateUtf8Tail(text, COMPACT_VALUE_BYTES);
        return Some(Str(tail));
      case Some(Bool(_)) => return value;
      case Some(Number(_)) => return value;
      case Some(Null) => return value;
      case _ => return None;
    }
  }

  ghost predicate IsFinal(result: Json, finalOutput: Option<Text>, r: Text) {
    var source := SourceOf(result);
    var text := if finalOutput.Some? then finalOutput.value else AcpOutputText(Lookup(source, Chars(OUTPUT)));
    IsFitted(if Fits(source, []) then source else Compact(source), text, r)
  }

  /** `serializeFinalAcpResult`: never over budget; the whole result around the
      longest tail of the output that fits, or, when the result is too large even
      without output, its identity fields around that tail. */
  method SerializeFinalAcpResult(result: Json, finalOutput: Option<Text>) returns (r: Text)
    ensures Size(r) <= FINAL_RESULT_MAX_BYTES && IsFinal(result, finalOutput, r)
  {
    hide Fits, SerializedUtf8, Size, Truncated, Compact;
    var source := SourceOf(result);
    var text := if finalOutput.Some? then finalOutput.value else AcpOutputText(Lookup(source, Chars(OUTPUT)));
    var encoded := FitSerializedOutput(source, text);
    FittedSize(source, text, encoded);
    if Size(encoded) <= FINAL_RESULT_MAX_BYTES { return encoded; }
    var compact := CompactOf(source);
    CompactFits(source);
    var compactEncoded := FitSerializedOutput(compact, text);
    FittedSize(compact, text, compactEncoded);
    return if Size(compactEncoded) <= FINAL_RESULT_MAX_BYTES then compactEncoded else SerializedUtf8([], []);
  }

  /** A fitted document is within budget exactly when the document fits without output. */
  lemma FittedSize(source: Source, text: Text, r: Text)
    requires IsFitted(source, text, r)
    ensures Size(r) <= FINAL_RESULT_MAX_BYTES <==> Fits(source, [])
  {
    if Fits(source, text) { EmptyFitsFirst(source, text); }
  }
}
