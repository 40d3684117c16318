/**
 PostgreSQL array literals (src/source/postgres/types.rs): the decoder as the
 code has it, the text form of a one-dimensional text array (PostgreSQL 16,
 section 8.15.6 "Array Input and Output Syntax"), and exactly when decoding
 undoes printing.
 */
module ArrayLiteral {
  import opened Wrappers
  import opened Events
  import opened Text

  /** The one way decoding goes wrong is a slice whose end lies before its start. */
  datatype DecodeError = SliceOutOfRange

  // ----- type ids

  const BOOL := 16
  const INT8 := 20
  const INT2 := 21
  const INT4 := 23
  const TEXT := 25
  const JSON := 114
  const FLOAT4 := 700
  const FLOAT8 := 701
  const MONEY := 790
  const DATE := 1082
  const TIMESTAMP := 1114
  const TIMESTAMPTZ := 1184
  const NUMERIC := 1700
  const UUID := 2950
  const JSONB := 3802
  const JSON_ARRAY := 199
  const BOOL_ARRAY := 1000
  const INT2_ARRAY := 1005
  const INT4_ARRAY := 1007
  const TEXT_ARRAY := 1009
  const INT8_ARRAY := 1016
  const FLOAT4_ARRAY := 1021
  const FLOAT8_ARRAY := 1022
  const TIMESTAMP_ARRAY := 1115
  const DATE_ARRAY := 1182
  const TIMESTAMPTZ_ARRAY := 1185
  const NUMERIC_ARRAY := 1231
  const UUID_ARRAY := 2951
  const JSONB_ARRAY := 3807

  /** The array types the code lists: those above, and those of bytes, characters, ids, addresses, times and intervals. */
  predicate IsListedArray(oid: nat) {
    || oid in {JSON_ARRAY, BOOL_ARRAY, INT2_ARRAY, INT4_ARRAY, TEXT_ARRAY, INT8_ARRAY, FLOAT4_ARRAY, FLOAT8_ARRAY}
    || oid in {TIMESTAMP_ARRAY, DATE_ARRAY, TIMESTAMPTZ_ARRAY, NUMERIC_ARRAY, UUID_ARRAY, JSONB_ARRAY}
    || oid in {1001, 1002, 1028, 1040, 1041, 1183, 1187, 1270}
  }

  /** Every listed array type but `JSON_ARRAY` is at least 1000, and so are many scalar types. */
  predicate IsArrayType(oid: nat) {
    oid == JSON_ARRAY || oid >= 1000
  }

  function ElementType(oid: nat): nat {
    if oid == BOOL_ARRAY then BOOL
    else if oid == INT2_ARRAY then INT2
    else if oid == INT4_ARRAY then INT4
    else if oid == INT8_ARRAY then INT8
    else if oid == FLOAT4_ARRAY then FLOAT4
    else if oid == FLOAT8_ARRAY then FLOAT8
    else if oid == TEXT_ARRAY then TEXT
    else if oid == JSON_ARRAY then JSON
    else if oid == JSONB_ARRAY then JSONB
    else if oid == TIMESTAMP_ARRAY then TIMESTAMP
    else if oid == TIMESTAMPTZ_ARRAY then TIMESTAMPTZ
    else if oid == DATE_ARRAY then DATE
    else if oid == UUID_ARRAY then UUID
    else if oid == NUMERIC_ARRAY then NUMERIC
    else TEXT
  }

  /** How often an element type can itself be taken for an array: the measure of the mutual recursion. */
  function Rank(oid: nat): nat {
    if !IsArrayType(oid) then 0 else if IsArrayType(ElementType(oid)) then 2 else 1
  }

  lemma ElementTypeRank(oid: nat)
    requires IsArrayType(oid)
    ensures Rank(ElementType(oid)) < Rank(oid)
    ensures !IsArrayType(ElementType(ElementType(oid)))
  {
  }

  // ----- scalars

  /** `parse` of a signed integer, with 0 for anything that does not fit. */
  function ParseInt(s: string, limit: nat): int {
    var digits := if s != "" && (s[0] == '-' || s[0] == '+') then s[1..] else s;
    if !IsDigits(digits) then 0
    else
      var v := if s[0] == '-' then -DigitsValue(digits) else DigitsValue(digits);
      if -(limit as int) <= v < limit then v else 0
  }

  /**
   What library code makes of a text: the JSON value of the float it reads as (null when that is not finite),
   and the value of a JSON text; nothing when it is neither.
   */
  datatype Library = Library(float: string -> Option<Json>, json: string -> Option<Json>)

  const ZERO := JOther("0.0")

  function DecodeScalar(lib: Library, text: string, oid: nat): Json {
    if oid == BOOL then JBool(text == "t" || text == "true")
    else if oid == INT2 then JInt(ParseInt(text, 0x8000))
    else if oid == INT4 then JInt(ParseInt(text, 0x8000_0000))
    else if oid == INT8 then JInt(ParseInt(text, 0x8000_0000_0000_0000))
    else if oid == FLOAT4 || oid == FLOAT8 then lib.float(text).GetOr(ZERO)
    else if oid == NUMERIC then lib.float(text).GetOr(JString(text))
    else if oid == MONEY then lib.float(Without(TrimLeading(text, '$'), ',')).GetOr(ZERO)
    else if oid == JSON || oid == JSONB then lib.json(text).GetOr(JString(text))
    else JString(text)
  }

  // ----- the decoder

  /** The scanner between two characters. */
  datatype Scan = Scan(current: string, done: seq<Json>, inQuotes: bool, escapeNext: bool)

  const START := Scan("", [], false, false)

  /** What the scanner does with the text of a finished element. */
  type ElementParser = string -> Result<Json, DecodeError>

  function DecodeValue(lib: Library, text: string, oid: nat): Result<Json, DecodeError>
    decreases Rank(oid), 3
  {
    if IsArrayType(oid) then DecodeArray(lib, text, oid) else Ok(DecodeScalar(lib, text, oid))
  }

  predicate Braced(text: string) {
    text != "" && text[0] == '{' && text[|text| - 1] == '}'
  }

  function DecodeArray(lib: Library, text: string, oid: nat): Result<Json, DecodeError>
    requires IsArrayType(oid)
    decreases Rank(oid), 2
  {
    if !Braced(text) then Ok(JString(text))
    else
      var content := text[1..|text| - 1];
      if content == "" then Ok(JArray([]))
      else
        var s :- ScanFrom(Parser(lib, oid), START, content);
        if s.current != "" || content[|content| - 1] == ',' then
          var last :- ParseElement(lib, s.current, oid);
          Ok(JArray(s.done + [last]))
        else Ok(JArray(s.done))
  }

  /** Scanning on from a given state. */
  function ScanFrom(parse: ElementParser, s: Scan, content: string): Result<Scan, DecodeError> {
    if content == "" then Ok(s)
    else
      var before :- ScanFrom(parse, s, content[..|content| - 1]);
      ScanChar(parse, before, content[|content| - 1])
  }

  function ScanChar(parse: ElementParser, s: Scan, ch: char): Result<Scan, DecodeError> {
    if s.escapeNext then Ok(s.(current := s.current + [ch], escapeNext := false))
    else if ch == '\\' && s.inQuotes then Ok(s.(escapeNext := true))
    else if ch == '"' then Ok(s.(inQuotes := !s.inQuotes))
    else if ch == ',' && !s.inQuotes then
      var e :- parse(s.current);
      Ok(s.(done := s.done + [e], current := ""))
    else Ok(s.(current := s.current + [ch]))
  }

  function Unquote(trimmed: string): Result<string, DecodeError> {
    if trimmed != "" && trimmed[0] == '"' && trimmed[|trimmed| - 1] == '"' then
      if |trimmed| == 1 then Err(SliceOutOfRange) else Ok(trimmed[1..|trimmed| - 1])
    else Ok(trimmed)
  }

  function ParseElement(lib: Library, element: string, oid: nat): Result<Json, DecodeError>
    requires IsArrayType(oid)
    decreases Rank(oid), 0
  {
    var trimmed := Trim(element);
    if trimmed == "NULL" then Ok(JNull)
    else
      var unquoted :- Unquote(trimmed);
      ElementTypeRank(oid);
      DecodeValue(lib, unquoted, ElementType(oid))
  }

  function Parser(lib: Library, oid: nat): ElementParser
    requires IsArrayType(oid)
    decreases Rank(oid), 1
  {
    element => ParseElement(lib, element, oid)
  }

  /** The loop of `decode_array`. */
  method DecodeArrayLoop(lib: Library, text: string, oid: nat) returns (r: Result<Json, DecodeError>)
    requires IsArrayType(oid)
    ensures r == DecodeArray(lib, text, oid)
  {
    if !Braced(text) {
      return Ok(JString(text));
    }
    var content := text[1..|text| - 1];
    if content == "" {
      return Ok(JArray([]));
    }
    var elements: seq<Json>, current, inQuotes, escapeNext := [], "", false, false;
    for i := 0 to |content|
      invariant ScanFrom(Parser(lib, oid), START, content[..i]) == Ok(Scan(current, elements, inQuotes, escapeNext))
    {
      var ch := content[i];
      ScanPrefix(Parser(lib, oid), content, i);
      if escapeNext {
        current, escapeNext := current + [ch], false;
        continue;
      }
      if ch == '\\' && inQuotes {
        escapeNext := true;
      } else if ch == '"' {
        inQuotes := !inQuotes;
      } else if ch == ',' && !inQuotes {
        var element :- ParseElement(lib, current, oid);
        elements, current := elements + [element], "";
      } else {
        current := current + [ch];
      }
    }
    assert content[..|content|] == content;
    if current != "" || content[|content| - 1] == ',' {
      var element :- ParseElement(lib, current, oid);
      elements := elements + [element];
    }
    r := Ok(JArray(elements));
  }

  lemma ScanSnoc(parse: ElementParser, s: Scan, content: string, ch: char)
    ensures ScanFrom(parse, s, content + [ch])
         == match ScanFrom(parse, s, content) case Err(e) => Err(e) case Ok(before) => ScanChar(parse, before, ch)
  {
  }

  /** Scanning goes on where it stopped, and once it has failed it stays failed. */
  lemma {:induction false} ScanConcat(parse: ElementParser, s: Scan, a: string, b: string)
    ensures ScanFrom(parse, s, a + b)
         == match ScanFrom(parse, s, a) case Err(e) => Err(e) case Ok(before) => ScanFrom(parse, before, b)
  {
    if b == "" {
      assert a + b == a;
    } else {
      var n := |b| - 1;
      ScanConcat(parse, s, a, b[..n]);
      ScanSnoc(parse, s, a + b[..n], b[n]);
      assert a + b == a + b[..n] + [b[n]];
    }
  }

  lemma CutAt(content: string, i: nat)
    requires i < |content|
    ensures content[..i + 1] == content[..i] + [content[i]] && content == content[..i + 1] + content[i + 1..]
  {
  }

  /** One character further; and if that fails, the whole fails so. */
  lemma ScanPrefix(parse: ElementParser, content: string, i: nat)
    requires i < |content|
    ensures var next := ScanFrom(parse, START, content[..i + 1]);
            && next == (match ScanFrom(parse, START, content[..i]) case Err(e) => Err(e) case Ok(before) => ScanChar(parse, before, content[i]))
            && (next.Err? ==> ScanFrom(parse, START, content) == next)
  {
    CutAt(content, i);
    ScanSnoc(parse, START, content[..i], content[i]);
    ScanConcat(parse, START, content[..i + 1], content[i + 1..]);
  }

  // ----- printing (section 8.15.6)

  predicate NeedsQuotes(e: string) {
    e == "" || IsNullWord(e) || exists i | 0 <= i < |e| :: MustQuote(e[i])
  }

  predicate MustQuote(c: char) {
    c == '{' || c == '}' || c == ',' || c == '"' || c == '\\' || c == ' ' || 0x09 <= c as int <= 0x0D
  }

  predicate IsNullWord(e: string) {
    Lower(e) == "null"
  }

  function EscapedChar(c: char): string {
    if c == '"' || c == '\\' then ['\\', c] else [c]
  }

  function Escaped(e: string): string {
    if e == "" then ""
    else Escaped(e[..|e| - 1]) + EscapedChar(e[|e| - 1])
  }

  /** An element as the server may print it: unquoted only where that is safe. */
  datatype Printed = PNull | Bare(text: string) | Quoted(text: string)

  predicate Allowed(p: Printed) {
    p.Bare? ==> !NeedsQuotes(p.text)
  }

  function PrintElement(p: Printed): string {
    match p
    case PNull => "NULL"
    case Bare(e) => e
    case Quoted(e) => "\"" + Escaped(e) + "\""
  }

  function PrintElements(ps: seq<Printed>): string
    requires ps != []
  {
    var last := PrintElement(ps[|ps| - 1]);
    if |ps| == 1 then last else PrintElements(ps[..|ps| - 1]) + "," + last
  }

  function Print(ps: seq<Printed>): string {
    if ps == [] then "{}" else "{" + PrintElements(ps) + "}"
  }

  /** The array a printed form stands for. */
  function Value(p: Printed): Json {
    if p.PNull? then JNull else JString(p.text)
  }

  function Values(ps: seq<Printed>): seq<Json> {
    seq(|ps|, i requires 0 <= i < |ps| => Value(ps[i]))
  }

  // ----- scanning what was printed

  lemma ScanPlain(parse: ElementParser, s: Scan, text: string, c: char)
    requires ScanFrom(parse, s, text) == Ok(Scan(text, s.done, false, false)) && !MustQuote(c)
    ensures ScanFrom(parse, s, text + [c]) == Ok(Scan(text + [c], s.done, false, false))
  {
  }

  /** Scanning a printed element from the start of an element leaves its text as the current one. */
  lemma {:induction false} ScanBare(parse: ElementParser, done: seq<Json>, e: string)
    requires forall i | 0 <= i < |e| :: !MustQuote(e[i])
    ensures ScanFrom(parse, Scan("", done, false, false), e) == Ok(Scan(e, done, false, false))
  {
    if e != "" {
      var n := |e| - 1;
      ScanBare(parse, done, e[..n]);
      ScanPlain(parse, Scan("", done, false, false), e[..n], e[n]);
      assert e == e[..n] + [e[n]];
    }
  }

  lemma ScanInQuotes(parse: ElementParser, s: Scan, content: string, text: string, c: char)
    requires ScanFrom(parse, s, content) == Ok(Scan(text, s.done, true, false))
    ensures ScanFrom(parse, s, content + EscapedChar(c)) == Ok(Scan(text + [c], s.done, true, false))
  {
    if c == '"' || c == '\\' {
      ScanSnoc(parse, s, content, '\\');
      ScanSnoc(parse, s, content + ['\\'], c);
      assert content + ['\\'] + [c] == content + EscapedChar(c);
    } else {
      ScanSnoc(parse, s, content, c);
    }
  }

  lemma FrontAndLast(s: string)
    requires s != ""
    ensures s == s[..|s| - 1] + [s[|s| - 1]]
  {
  }

  lemma {:induction false} ScanEscaped(parse: ElementParser, done: seq<Json>, e: string)
    ensures ScanFrom(parse, Scan("", done, true, false), Escaped(e)) == Ok(Scan(e, done, true, false))
  {
    if e != "" {
      var front, last := e[..|e| - 1], e[|e| - 1];
      FrontAndLast(e);
      ScanEscaped(parse, done, front);
      ScanInQuotes(parse, Scan("", done, true, false), Escaped(front), front, last);
    }
  }

  function TextOf(p: Printed): string {
    if p.PNull? then "NULL" else p.text
  }

  lemma NullIsBare()
    ensures forall i | 0 <= i < |"NULL"| :: !MustQuote("NULL"[i])
  {
  }

  lemma ScanPrinted(parse: ElementParser, done: seq<Json>, p: Printed)
    requires Allowed(p)
    ensures ScanFrom(parse, Scan("", done, false, false), PrintElement(p)) == Ok(Scan(TextOf(p), done, false, false))
  {
    var start := Scan("", done, false, false);
    match p
    case PNull =>
      NullIsBare();
      ScanBare(parse, done, "NULL");
    case Bare(e) =>
      ScanBare(parse, done, e);
    case Quoted(e) =>
      ScanSnoc(parse, start, "", '"');
      assert "" + ['"'] == "\"";
      ScanEscaped(parse, done, e);
      ScanConcat(parse, start, "\"", Escaped(e));
      ScanSnoc(parse, start, "\"" + Escaped(e), '"');
  }

  // ----- when an element survives

  /** What the parser makes of an element: itself, unless it can be trimmed, is the word NULL, or wears quotes. */
  predicate Survives(p: Printed) {
    p.PNull? ||
    (&& (p.text == "" || (!IsWhitespace(p.text[0]) && !IsWhitespace(p.text[|p.text| - 1])))
     && p.text != "NULL"
     && !(p.text != "" && p.text[0] == '"' && p.text[|p.text| - 1] == '"'))
  }

  lemma ElementSurvivesExactlyWhen(lib: Library, p: Printed)
    ensures ParseElement(lib, TextOf(p), TEXT_ARRAY) == Ok(Value(p)) <==> Survives(p)
  {
    var trimmed := Trim(TextOf(p));
    assert p.PNull? ==> trimmed == "NULL";
    if trimmed != "NULL" && Unquote(trimmed).Ok? {
      assert ParseElement(lib, TextOf(p), TEXT_ARRAY) == Ok(JString(Unquote(trimmed).value));
      assert |Unquote(trimmed).value| <= |trimmed| <= |TextOf(p)|;
    }
  }

  /** The values parsed for the elements so far, or the first error. */
  function ParseAll(parse: ElementParser, ps: seq<Printed>): Result<seq<Json>, DecodeError> {
    if ps == [] then Ok([])
    else
      var before :- ParseAll(parse, ps[..|ps| - 1]);
      var last :- parse(TextOf(ps[|ps| - 1]));
      Ok(before + [last])
  }

  predicate AllSurvive(ps: seq<Printed>) {
    forall i | 0 <= i < |ps| :: Survives(ps[i])
  }

  lemma AllSurviveStep(ps: seq<Printed>)
    requires ps != []
    ensures AllSurvive(ps) <==> AllSurvive(ps[..|ps| - 1]) && Survives(ps[|ps| - 1])
  {
  }

  lemma AppendedEqual(a: seq<Json>, x: Json, b: seq<Json>, y: Json)
    ensures a + [x] == b + [y] <==> a == b && x == y
  {
    if a + [x] == b + [y] {
      assert |a| == |b|;
      assert (a + [x])[..|a|] == a && (b + [y])[..|a|] == b;
      assert (a + [x])[|a|] == x && (b + [y])[|a|] == y;
    }
  }

  lemma {:induction false} ParseAllExactlyWhen(parse: ElementParser, ps: seq<Printed>)
    requires forall p :: parse(TextOf(p)) == Ok(Value(p)) <==> Survives(p)
    ensures ParseAll(parse, ps) == Ok(Values(ps)) <==> AllSurvive(ps)
    ensures ParseAll(parse, ps).Ok? ==> |ParseAll(parse, ps).value| == |ps|
  {
    if ps == [] {
      assert Values(ps) == [];
    } else {
      var n := |ps| - 1;
      ParseAllExactlyWhen(parse, ps[..n]);
      AllSurviveStep(ps);
      assert Values(ps) == Values(ps[..n]) + [Value(ps[n])];
      if ParseAll(parse, ps).Ok? {
        AppendedEqual(ParseAll(parse, ps[..n]).value, parse(TextOf(ps[n])).value, Values(ps[..n]), Value(ps[n]));
      }
    }
  }

  /** After scanning all printed elements, all but the last are parsed and the last is current. */
  lemma {:induction false} ScanElements(parse: ElementParser, ps: seq<Printed>)
    requires ps != [] && forall p <- ps :: Allowed(p)
    ensures ScanFrom(parse, START, PrintElements(ps))
         == match ParseAll(parse, ps[..|ps| - 1])
            case Err(e) => Err(e)
            case Ok(done) => Ok(Scan(TextOf(ps[|ps| - 1]), done, false, false))
  {
    var n := |ps| - 1;
    assert Allowed(ps[n]);
    if n == 0 {
      ScanPrinted(parse, [], ps[0]);
    } else {
      var text := PrintElements(ps[..n]);
      ScanElements(parse, ps[..n]);
      assert PrintElements(ps) == text + "," + PrintElement(ps[n]);
      ScanSnoc(parse, START, text, ',');
      ScanConcat(parse, START, text + ",", PrintElement(ps[n]));
      if ParseAll(parse, ps[..n]).Ok? {
        ScanPrinted(parse, ParseAll(parse, ps[..n]).value, ps[n]);
      }
    }
  }

  lemma PrintedEndsWithoutComma(ps: seq<Printed>)
    requires ps != [] && forall p <- ps :: Allowed(p)
    ensures PrintElements(ps) != "" && PrintElements(ps)[|PrintElements(ps)| - 1] != ','
  {
    var n := |ps| - 1;
    assert Allowed(ps[n]);
    var last := PrintElement(ps[n]);
    assert last != "" && last[|last| - 1] != ',' by {
      if ps[n].Bare? {
        assert !MustQuote(last[|last| - 1]);
      }
    }
    assert PrintElements(ps)[|PrintElements(ps)| - 1] == last[|last| - 1];
  }

  /** What the decoder makes of a printed array: its parsed elements, without the last one if that is empty. */
  lemma DecodePrinted(lib: Library, ps: seq<Printed>)
    requires ps != [] && forall p <- ps :: Allowed(p)
    ensures var n := |ps| - 1;
            var kept := if TextOf(ps[n]) == "" then ps[..n] else ps;
            var parsed := ParseAll(Parser(lib, TEXT_ARRAY), kept);
            && (parsed.Err? ==> DecodeArray(lib, Print(ps), TEXT_ARRAY).Err?)
            && (parsed.Ok? ==> DecodeArray(lib, Print(ps), TEXT_ARRAY) == Ok(JArray(parsed.value)))
  {
    PrintedEndsWithoutComma(ps);
    DecodeBraced(lib, PrintElements(ps), TEXT_ARRAY);
    ScanElements(Parser(lib, TEXT_ARRAY), ps);
  }

  lemma DecodeBraced(lib: Library, content: string, oid: nat)
    requires IsArrayType(oid) && content != "" && content[|content| - 1] != ','
    ensures DecodeArray(lib, "{" + content + "}", oid) ==
            match ScanFrom(Parser(lib, oid), START, content)
            case Err(e) => Err(e)
            case Ok(s) =>
              if s.current == "" then Ok(JArray(s.done))
              else match Parser(lib, oid)(s.current) case Err(e) => Err(e) case Ok(last) => Ok(JArray(s.done + [last]))
  {
    var text := "{" + content + "}";
    assert text[1..|text| - 1] == content;
  }

  /**
   Decoding a printed text array gives its elements back exactly when every element survives parsing and
   the last one is not the empty string, which the decoder drops.
   */
  lemma DecodeUndoesPrintExactlyWhen(lib: Library, ps: seq<Printed>)
    requires forall p <- ps :: Allowed(p)
    ensures DecodeArray(lib, Print(ps), TEXT_ARRAY) == Ok(JArray(Values(ps)))
       <==> AllSurvive(ps) && (ps != [] ==> ps[|ps| - 1] != Quoted(""))
  {
    if ps == [] {
      assert Values(ps) == [];
      return;
    }
    var n := |ps| - 1;
    var parse := Parser(lib, TEXT_ARRAY);
    DecodePrinted(lib, ps);
    TextParser(lib);
    ParseAllExactlyWhen(parse, ps);
    ParseAllExactlyWhen(parse, ps[..n]);
    assert Allowed(ps[n]);
    if TextOf(ps[n]) == "" {
      assert ps[n] == Quoted("");
      assert |Values(ps)| == n + 1;
    }
  }

  lemma TextParser(lib: Library)
    ensures forall p :: Parser(lib, TEXT_ARRAY)(TextOf(p)) == Ok(Value(p)) <==> Survives(p)
  {
    forall p
      ensures Parser(lib, TEXT_ARRAY)(TextOf(p)) == Ok(Value(p)) <==> Survives(p)
    {
      ElementSurvivesExactlyWhen(lib, p);
    }
  }

  /** An element stops the decoder exactly when trimming leaves one double quote of it. */
  lemma ElementFailsExactlyWhen(lib: Library, p: Printed)
    ensures ParseElement(lib, TextOf(p), TEXT_ARRAY).Err? <==> Trim(TextOf(p)) == "\""
  {
    var trimmed := Trim(TextOf(p));
    if |trimmed| == 1 && trimmed[0] == '"' {
      assert trimmed == "\"";
    }
  }

  /** Some element is, once trimmed, a lone double quote. */
  predicate HasLoneQuote(ps: seq<Printed>) {
    exists i :: 0 <= i < |ps| && Trim(TextOf(ps[i])) == "\""
  }

  lemma LoneQuoteStep(ps: seq<Printed>)
    requires ps != []
    ensures HasLoneQuote(ps) <==> HasLoneQuote(ps[..|ps| - 1]) || Trim(TextOf(ps[|ps| - 1])) == "\""
  {
    assert forall i | 0 <= i < |ps| - 1 :: ps[..|ps| - 1][i] == ps[i];
  }

  lemma {:induction false} ParseAllFails(lib: Library, ps: seq<Printed>)
    ensures ParseAll(Parser(lib, TEXT_ARRAY), ps).Err? <==> HasLoneQuote(ps)
  {
    if ps != [] {
      ParseAllFails(lib, ps[..|ps| - 1]);
      ElementFailsExactlyWhen(lib, ps[|ps| - 1]);
      LoneQuoteStep(ps);
    }
  }

  /** Decoding a printed text array stops exactly when some element is, once trimmed, a lone double quote. */
  lemma DecodeStopsExactlyWhen(lib: Library, ps: seq<Printed>)
    requires forall p <- ps :: Allowed(p)
    ensures DecodeArray(lib, Print(ps), TEXT_ARRAY).Err? <==> exists i :: 0 <= i < |ps| && Trim(TextOf(ps[i])) == "\""
  {
    if ps != [] {
      var n := |ps| - 1;
      DecodePrinted(lib, ps);
      ParseAllFails(lib, ps);
      ParseAllFails(lib, ps[..n]);
      if TextOf(ps[n]) == "" {
        assert Trim("") == "";
        LoneQuoteStep(ps);
      }
      assert HasLoneQuote(ps) <==> exists i :: 0 <= i < |ps| && Trim(TextOf(ps[i])) == "\"";
    }
  }

  /** The element that is one double quote does so. */
  lemma LoneQuoteFails(lib: Library)
    ensures DecodeArray(lib, Print([Quoted("\"")]), TEXT_ARRAY) == Err(SliceOutOfRange)
  {
    var ps := [Quoted("\"")];
    assert Trim(TextOf(ps[0])) == "\"";
    DecodeStopsExactlyWhen(lib, ps);
    var r := DecodeArray(lib, Print(ps), TEXT_ARRAY);
    assert r.Err? && r.error.SliceOutOfRange?;
  }

  /** An empty string at the end of an array is lost. */
  lemma LastEmptyElementIsDropped(lib: Library, ps: seq<Printed>)
    requires AllSurvive(ps) && forall p <- ps :: Allowed(p)
    ensures DecodeArray(lib, Print(ps + [Quoted("")]), TEXT_ARRAY) == Ok(JArray(Values(ps)))
  {
    var all := ps + [Quoted("")];
    assert all[..|ps|] == ps && all[|ps|] == Quoted("");
    forall p <- all
      ensures Allowed(p)
    {
    }
    DecodePrinted(lib, all);
    TextParser(lib);
    ParseAllExactlyWhen(Parser(lib, TEXT_ARRAY), ps);
  }

  /** A text in braces reads neither as a float nor as a JSON array (section 2 of RFC 8259). */
  ghost predicate ReadsBraces(lib: Library) {
    forall text | Braced(text) ::
      && lib.float(text).None?
      && (lib.json(text).Some? ==> lib.json(text).value.JObject?)
  }

  /**
   A scalar type is decoded as such exactly when its number is below 1000, or the text is not in braces and its
   scalar value is the text itself: from 1000 on (dates, NUMERIC, UUID, JSONB, ...) text in braces is taken for
   an array, and any other text comes back as it is.
   */
  lemma HighScalarsAreTakenForArrays(lib: Library, text: string, oid: nat)
    requires !IsListedArray(oid) && ReadsBraces(lib)
    ensures DecodeValue(lib, text, oid) == Ok(DecodeScalar(lib, text, oid)) <==>
            oid < 1000 || (!Braced(text) && DecodeScalar(lib, text, oid) == JString(text))
    ensures oid >= 1000 && Braced(text) ==> DecodeValue(lib, text, oid).Err? || DecodeValue(lib, text, oid).value.JArray?
  {
  }

  /** An array of one element without quotes or white space around it, of a type whose elements are text. */
  lemma DecodeOneText(lib: Library, content: string, e: string, oid: nat)
    requires IsArrayType(oid) && ElementType(oid) == TEXT && content != "" && content[|content| - 1] != ','
    requires ScanFrom(Parser(lib, oid), START, content) == Ok(Scan(e, [], false, false))
    requires e != "" && e != "NULL" && Trim(e) == e && e[0] != '"'
    ensures DecodeArray(lib, "{" + content + "}", oid) == Ok(JArray([JString(e)]))
  {
    DecodeBraced(lib, content, oid);
    assert ParseElement(lib, e, oid) == Ok(JString(e));
    assert [] + [JString(e)] == [JString(e)];
  }

  lemma {:induction false} ScanOnBare(parse: ElementParser, text: string, current: string, rest: string)
    requires ScanFrom(parse, START, text) == Ok(Scan(current, [], false, false))
    requires forall i | 0 <= i < |rest| :: !MustQuote(rest[i])
    ensures ScanFrom(parse, START, text + rest) == Ok(Scan(current + rest, [], false, false))
  {
    if rest == "" {
      assert text + rest == text && current + rest == current;
    } else {
      var front, last := rest[..|rest| - 1], rest[|rest| - 1];
      ScanOnBare(parse, text, current, front);
      ScanSnoc(parse, START, text + front, last);
      assert text + rest == (text + front) + [last];
      assert current + rest == (current + front) + [last];
    }
  }

  lemma PlainField(key: string, value: string)
    requires key != "" && !IsWhitespace(key[0]) && key[0] != '"'
    requires value != "" && !IsWhitespace(value[|value| - 1]) && forall i | 0 <= i < |value| :: !MustQuote(value[i])
    ensures forall i | 0 <= i < |":" + value| :: !MustQuote((":" + value)[i])
    ensures var e := key + (":" + value); e != "" && e != "NULL" && Trim(e) == e && e[0] != '"'
  {
    var e := key + (":" + value);
    assert e[0] == key[0] && e[|key|] == ':' && e[|e| - 1] == value[|value| - 1];
    assert ':' in e && ':' !in "NULL";
  }

  /** A JSONB object of one field, with a number or a word as its value, is decoded as an array holding its text without the quotes. */
  lemma ObjectIsTakenForArray(lib: Library, key: string, value: string)
    requires key != "" && !IsWhitespace(key[0]) && key[0] != '"'
    requires value != "" && !IsWhitespace(value[|value| - 1]) && forall i | 0 <= i < |value| :: !MustQuote(value[i])
    ensures DecodeValue(lib, "{" + (PrintElement(Quoted(key)) + (":" + value)) + "}", JSONB) == Ok(JArray([JString(key + (":" + value))]))
  {
    var rest, parse := ":" + value, Parser(lib, JSONB);
    PlainField(key, value);
    ScanPrinted(parse, [], Quoted(key));
    ScanOnBare(parse, PrintElement(Quoted(key)), key, rest);
    assert rest[|rest| - 1] != ',';
    DecodeOneText(lib, PrintElement(Quoted(key)) + rest, key + rest, JSONB);
  }
}
