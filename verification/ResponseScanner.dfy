/** Extraction of the last complete JSON object from a model's free-form answer. */
module ResponseScanner {
  // ---------------------------------------------------------------- the lexer

  datatype Lex = Lex(depth: int, inString: bool, escape: bool)

  function LexStep(l: Lex, ch: char): Lex {
    if l.escape then l.(escape := false)
    else if ch == '\\' then l.(escape := true)
    else if ch == '"' then l.(inString := !l.inString)
    else if l.inString then l
    else if ch == '{' then l.(depth := l.depth + 1)
    else if ch == '}' then l.(depth := l.depth - 1)
    else l
  }

  function LexRun(l: Lex, s: string): Lex
    decreases |s|
  {
    if s == "" then l else LexRun(LexStep(l, s[0]), s[1..])
  }

  // Scanner state: the lexer, where the current object began (-1 for none), the objects found.
  datatype Scan = Scan(lex: Lex, start: int, objects: seq<string>)

  const TOP := Lex(0, false, false)
  const INSIDE := Lex(1, false, false)

  function ScanStep(s: Scan, text: string, i: nat): Scan
    requires i < |text|
    requires s.start <= i
  {
    var next := LexStep(s.lex, text[i]);
    if s.lex.escape || s.lex.inString then s.(lex := next)
    else if text[i] == '{' then
      Scan(next, if s.lex.depth == 0 then i else s.start, s.objects)
    else if text[i] == '}' && next.depth == 0 && s.start >= 0 then
      Scan(next, -1, s.objects + [text[s.start..i + 1]])
    else s.(lex := next)
  }

  function ScanTo(text: string, i: nat): (s: Scan)
    requires i <= |text|
    ensures s.start < i || s.start == -1
  {
    if i == 0 then Scan(TOP, -1, []) else ScanStep(ScanTo(text, i - 1), text, i - 1)
  }

  // ---------------------------------------------------------------- cleaning

  const FENCE := "```"
  const JSON_FENCE := "```json"

  // Deletes every fence marker, the longer one where both match.
  function StripFences(s: string): string
    decreases |s|
  {
    if JSON_FENCE <= s then StripFences(s[7..])
    else if FENCE <= s then StripFences(s[3..])
    else if s == "" then ""
    else [s[0]] + StripFences(s[1..])
  }

  predicate HasFence(s: string) {
    s != "" && (FENCE <= s || HasFence(s[1..]))
  }

  predicate IsSpace(c: char) {
    c in {' ', '\t', '\n', '\r', '\U{000B}', '\U{000C}', '\U{001C}', '\U{001D}', '\U{001E}', '\U{001F}',
          '\U{0085}', '\U{00A0}', '\U{1680}', '\U{2028}', '\U{2029}', '\U{202F}', '\U{205F}', '\U{3000}'}
    || '\U{2000}' <= c <= '\U{200A}'
  }

  function TrimLeft(s: string): string {
    if s != "" && IsSpace(s[0]) then TrimLeft(s[1..]) else s
  }

  function TrimRight(s: string): string {
    if s != "" && IsSpace(s[|s| - 1]) then TrimRight(s[..|s| - 1]) else s
  }

  function FirstOpen(s: string): (i: nat)
    ensures i <= |s| && (i < |s| ==> s[i] == '{')
  {
    if s == "" || s[0] == '{' then 0 else 1 + FirstOpen(s[1..])
  }

  // Position just after the last closing brace, 0 if there is none.
  function AfterLastClose(s: string): (i: nat)
    ensures i <= |s|
  {
    if s == "" then 0 else if s[|s| - 1] == '}' then |s| else AfterLastClose(s[..|s| - 1])
  }

  // With no complete object: the span from the first opening to the last closing brace, if any.
  function Fallback(cleaned: string): string {
    var a, b := FirstOpen(cleaned), AfterLastClose(cleaned);
    if cleaned != "" && cleaned[0] == '{' then cleaned
    else if a < b then cleaned[a..b]
    else cleaned
  }

  function Parsed(raw: string): string {
    var cleaned := TrimRight(TrimLeft(StripFences(raw)));
    if cleaned == "" then "{}"
    else
      var found := ScanTo(cleaned, |cleaned|).objects;
      if found != [] then found[|found| - 1] else Fallback(cleaned)
  }

  method SafeParseAiResponse(raw: string) returns (result: string)
    ensures result == Parsed(raw)
  {
    var cleaned := TrimRight(TrimLeft(StripFences(raw)));
    if cleaned == "" {
      return "{}";
    }
    var objects: seq<string> := [];
    var depth, start, inString, escape := 0, -1, false, false;
    for i := 0 to |cleaned|
      invariant Scan(Lex(depth, inString, escape), start, objects) == ScanTo(cleaned, i)
    {
      var ch := cleaned[i];
      if escape {
        escape := false;
      } else if ch == '\\' {
        escape := true;
      } else if ch == '"' {
        inString := !inString;
      } else if inString {
      } else if ch == '{' {
        if depth == 0 {
          start := i;
        }
        depth := depth + 1;
      } else if ch == '}' {
        depth := depth - 1;
        if depth == 0 && start >= 0 {
          objects := objects + [cleaned[start..i + 1]];
          start := -1;
        }
      }
    }
    if objects != [] {
      return objects[|objects| - 1];
    }
    result := Fallback(cleaned);
  }

  // ---------------------------------------------------------------- texts without an object

  // From the first opening to the last closing brace, if that comes later and the text does not begin with an
  // opening one; otherwise all of it.
  ghost predicate Span(text: string, result: string) {
    if text != "" && text[0] == '{' then result == text
    else if forall i, j :: 0 <= i < j < |text| ==> !(text[i] == '{' && text[j] == '}') then result == text
    else
      exists a, b ::
        && 0 <= a < b < |text| && text[a] == '{' && text[b] == '}' && result == text[a..b + 1]
        && (forall i :: 0 <= i < a ==> text[i] != '{') && (forall i :: b < i < |text| ==> text[i] != '}')
  }

  lemma {:induction false} FirstOpenIsFirst(s: string)
    ensures forall i :: 0 <= i < FirstOpen(s) ==> s[i] != '{'
  {
    if s != "" && s[0] != '{' {
      FirstOpenIsFirst(s[1..]);
      assert forall i :: 0 < i < |s| ==> s[i] == s[1..][i - 1];
    }
  }

  lemma {:induction false} LastCloseIsLast(s: string)
    ensures var b := AfterLastClose(s);
      (b > 0 ==> s[b - 1] == '}') && forall i :: b <= i < |s| ==> s[i] != '}'
  {
    if s != "" && s[|s| - 1] != '}' {
      LastCloseIsLast(s[..|s| - 1]);
    }
  }

  lemma FallbackIsSpan(text: string)
    ensures Span(text, Fallback(text))
  {
    FirstOpenIsFirst(text);
    LastCloseIsLast(text);
    var a, b := FirstOpen(text), AfterLastClose(text);
    if a < b && !(text != "" && text[0] == '{') {
      assert text[a] == '{' && text[b - 1] == '}' && text[a..b] == text[a..b - 1 + 1];
      assert a < b - 1;
    }
  }

  // The text without its outer white space.
  ghost predicate Trimmed(text: string, result: string) {
    exists a, b ::
      && 0 <= a <= b <= |text| && result == text[a..b]
      && (forall i :: 0 <= i < a || b <= i < |text| ==> IsSpace(text[i]))
      && (a < b ==> !IsSpace(text[a]) && !IsSpace(text[b - 1]))
  }

  lemma {:induction false} TrimLeftIs(s: string) returns (a: nat)
    ensures a <= |s| && TrimLeft(s) == s[a..] && (forall i :: 0 <= i < a ==> IsSpace(s[i]))
    ensures a < |s| ==> !IsSpace(s[a])
  {
    hide IsSpace;
    a := 0;
    if s != "" && IsSpace(s[0]) {
      var k := TrimLeftIs(s[1..]);
      a := k + 1;
      assert forall i :: 0 < i < |s| ==> s[i] == s[1..][i - 1];
    }
  }

  lemma {:induction false} TrimRightIs(s: string) returns (b: nat)
    ensures b <= |s| && TrimRight(s) == s[..b] && (forall i :: b <= i < |s| ==> IsSpace(s[i]))
    ensures b > 0 ==> !IsSpace(s[b - 1])
  {
    hide IsSpace;
    b := |s|;
    if s != "" && IsSpace(s[|s| - 1]) {
      b := TrimRightIs(s[..|s| - 1]);
    }
  }

  lemma TrimsBoth(s: string)
    ensures Trimmed(s, TrimRight(TrimLeft(s)))
  {
    hide IsSpace, TrimLeft, TrimRight;
    var a := TrimLeftIs(s);
    var b := TrimRightIs(s[a..]);
    assert s[a..][..b] == s[a..a + b];
    forall i | a + b <= i < |s| ensures IsSpace(s[i]) {
      assert s[i] == s[a..][i - a];
    }
    if b > 0 {
      assert s[a + b - 1] == s[a..][b - 1];
    }
  }

  // An answer without any complete object: nothing but fences and white space reads as an empty object, any
  // other text gives the span of its braces.
  lemma WithoutObject(raw: string, text: string)
    requires text == TrimRight(TrimLeft(StripFences(raw))) && ScanTo(text, |text|).objects == []
    ensures Trimmed(StripFences(raw), text)
    ensures if text == "" then Parsed(raw) == "{}" else Span(text, Parsed(raw))
  {
    hide ScanTo, Fallback, Span, Trimmed, TrimLeft, TrimRight, StripFences;
    TrimsBoth(StripFences(raw));
    FallbackIsSpan(text);
  }

  // The character after a backslash is never read, in a string or outside.
  lemma EscapeHidesOne(l: Lex, c: char)
    requires !l.escape
    ensures LexStep(LexStep(l, '\\'), c) == l
  {
  }

  // ---------------------------------------------------------------- printing JSON

  // A number is kept as its text.
  datatype Json = Null | True | False | Number(text: string) | Text(s: string)
                | Array(items: seq<Json>) | Object(fields: Fields)

  datatype Fields = End | Field(name: string, value: Json, rest: Fields)

  predicate NumberChar(c: char) {
    '0' <= c <= '9' || c in {'+', '-', '.', 'e', 'E'}
  }

  predicate ValidJson(v: Json) {
    match v
    case Number(t) => forall i :: 0 <= i < |t| ==> NumberChar(t[i])
    case Array(items) => forall i :: 0 <= i < |items| ==> ValidJson(items[i])
    case Object(fields) => ValidFields(fields)
    case _ => true
  }

  predicate ValidFields(fields: Fields) {
    fields.Field? ==> ValidJson(fields.value) && ValidFields(fields.rest)
  }

  function Hex(n: int): char
    requires 0 <= n < 16
  {
    "0123456789abcdef"[n]
  }

  // Section 7 of RFC 8259: quotation mark, reverse solidus and control characters are escaped.
  function Escape(c: char): string {
    if c == '"' then "\\\""
    else if c == '\\' then "\\\\"
    else if c < ' ' then "\\u00" + [Hex(c as int / 16), Hex(c as int % 16)]
    else [c]
  }

  function EscapeAll(s: string): string {
    if s == "" then "" else Escape(s[0]) + EscapeAll(s[1..])
  }

  function Quote(s: string): string {
    "\"" + EscapeAll(s) + "\""
  }

  // `ws` is the whitespace the printer puts after separators.
  function Print(v: Json, ws: string): string
    decreases v, 0
  {
    match v
    case Null => "null"
    case True => "true"
    case False => "false"
    case Number(t) => t
    case Text(s) => Quote(s)
    case Array(items) => "[" + PrintItems(items, ws) + "]"
    case Object(fields) => "{" + PrintFields(fields, ws) + "}"
  }

  function PrintItems(items: seq<Json>, ws: string): string
    decreases items
  {
    if items == [] then ""
    else if |items| == 1 then Print(items[0], ws)
    else Print(items[0], ws) + "," + ws + PrintItems(items[1..], ws)
  }

  function PrintFields(fields: Fields, ws: string): string
    decreases fields
  {
    match fields
    case End => ""
    case Field(name, value, rest) =>
      var field := Quote(name) + ":" + ws + Print(value, ws);
      if rest == End then field else field + "," + ws + PrintFields(rest, ws)
  }

  // ---------------------------------------------------------------- the lexer on printed text

  // Reading s from l, no backtick is escaped and the depth stays at or above `floor`.
  predicate Level(l: Lex, s: string, floor: int)
    decreases |s|
  {
    s == "" || ((s[0] == '`' ==> !l.escape) && LexStep(l, s[0]).depth >= floor
                && Level(LexStep(l, s[0]), s[1..], floor))
  }

  // s leaves the lexer where it was and never dips below its depth.
  predicate Neutral(l: Lex, s: string) {
    Level(l, s, l.depth) && LexRun(l, s) == l
  }

  lemma {:induction false} Append(l: Lex, a: string, b: string, floor: int)
    ensures LexRun(l, a + b) == LexRun(LexRun(l, a), b)
    ensures Level(l, a + b, floor) <==> Level(l, a, floor) && Level(LexRun(l, a), b, floor)
    decreases |a|
  {
    if a == "" {
      assert a + b == b;
    } else {
      Append(LexStep(l, a[0]), a[1..], b, floor);
      assert (a + b)[1..] == a[1..] + b;
    }
  }

  lemma NeutralAppend(l: Lex, a: string, b: string)
    requires Neutral(l, a) && Neutral(l, b)
    ensures Neutral(l, a + b)
  {
    Append(l, a, b, l.depth);
  }

  predicate Plain(s: string) {
    forall i :: 0 <= i < |s| ==> s[i] !in {'{', '}', '"', '\\'}
  }

  // Text free of braces, quotes and backslashes does not move the lexer.
  lemma {:induction false} PlainIsNeutral(l: Lex, s: string)
    requires Plain(s) && !l.escape
    ensures Neutral(l, s)
  {
    if s != "" {
      PlainIsNeutral(l, s[1..]);
      assert LexStep(l, s[0]) == l;
    }
  }

  lemma {:induction false} EscapeIsNeutral(l: Lex, c: char)
    requires l.inString && !l.escape
    ensures Neutral(l, Escape(c))
  {
    var s := Escape(c);
    if c == '"' || c == '\\' {
      var mid := LexStep(l, '\\');
      assert s == ['\\', c] && s[1..] == [c] && [c][1..] == "";
      assert LexStep(mid, c) == l && LexRun(l, "") == l;
      assert LexRun(mid, [c]) == l && Level(mid, [c], l.depth);
    } else if c < ' ' {
      var hex := [Hex(c as int / 16), Hex(c as int % 16)];
      assert s == "\\u" + ("00" + hex);
      assert "\\u"[1..] == "u" && "u"[1..] == "";
      assert Neutral(l, "\\u");
      HexIsPlain(c as int / 16);
      HexIsPlain(c as int % 16);
      PlainIsNeutral(l, "00" + hex);
      NeutralAppend(l, "\\u", "00" + hex);
    } else {
      assert s == [c] && s[1..] == "";
    }
  }

  lemma HexIsPlain(n: int)
    requires 0 <= n < 16
    ensures Hex(n) !in {'{', '}', '"', '\\'}
  {
  }

  lemma {:induction false} EscapeAllIsNeutral(l: Lex, s: string)
    requires l.inString && !l.escape
    ensures Neutral(l, EscapeAll(s))
  {
    if s != "" {
      EscapeIsNeutral(l, s[0]);
      EscapeAllIsNeutral(l, s[1..]);
      NeutralAppend(l, Escape(s[0]), EscapeAll(s[1..]));
    }
  }

  lemma QuoteIsNeutral(l: Lex, s: string)
    requires !l.inString && !l.escape
    ensures Neutral(l, Quote(s))
  {
    var open := l.(inString := true);
    EscapeAllIsNeutral(open, s);
    assert "\""[1..] == "";
    assert LexRun(l, "\"") == open && Level(l, "\"", l.depth);
    assert LexRun(open, "\"") == l && Level(open, "\"", l.depth);
    Append(open, EscapeAll(s), "\"", l.depth);
    Append(l, "\"", EscapeAll(s) + "\"", l.depth);
    assert Quote(s) == "\"" + (EscapeAll(s) + "\"");
  }

  lemma BracesAreNeutral(l: Lex, body: string)
    requires !l.inString && !l.escape && Neutral(l.(depth := l.depth + 1), body)
    ensures Neutral(l, "{" + body + "}")
  {
    var inner := l.(depth := l.depth + 1);
    assert "{"[1..] == "" && "}"[1..] == "";
    assert LexRun(l, "{") == inner && Level(l, "{", l.depth);
    assert LexRun(inner, "}") == l && Level(inner, "}", l.depth);
    Lower(inner, body, inner.depth, l.depth);
    Append(inner, body, "}", l.depth);
    Append(l, "{", body + "}", l.depth);
    assert "{" + body + "}" == "{" + (body + "}");
  }

  lemma {:induction false} Lower(l: Lex, s: string, floor: int, lower: int)
    requires Level(l, s, floor) && lower <= floor
    ensures Level(l, s, lower)
    decreases |s|
  {
    if s != "" {
      Lower(LexStep(l, s[0]), s[1..], floor, lower);
    }
  }

  // A printed value is neutral at any depth.
  lemma {:induction false} PrintIsNeutral(l: Lex, v: Json, ws: string)
    requires !l.inString && !l.escape && ValidJson(v) && Plain(ws)
    ensures Neutral(l, Print(v, ws))
    decreases v, 0
  {
    match v
    case Text(s) => QuoteIsNeutral(l, s);
    case Array(items) =>
      ItemsAreNeutral(l, items, ws);
      PlainIsNeutral(l, "[");
      PlainIsNeutral(l, "]");
      NeutralAppend(l, "[", PrintItems(items, ws));
      NeutralAppend(l, "[" + PrintItems(items, ws), "]");
    case Object(fields) =>
      FieldsAreNeutral(l.(depth := l.depth + 1), fields, ws);
      BracesAreNeutral(l, PrintFields(fields, ws));
    case _ => PlainIsNeutral(l, Print(v, ws));
  }

  lemma {:induction false} ItemsAreNeutral(l: Lex, items: seq<Json>, ws: string)
    requires !l.inString && !l.escape && Plain(ws)
    requires forall i :: 0 <= i < |items| ==> ValidJson(items[i])
    ensures Neutral(l, PrintItems(items, ws))
    decreases items
  {
    if items != [] {
      PrintIsNeutral(l, items[0], ws);
      if |items| > 1 {
        ItemsAreNeutral(l, items[1..], ws);
        Separated(l, Print(items[0], ws), ws, PrintItems(items[1..], ws), ",");
      }
    }
  }

  lemma Separated(l: Lex, a: string, ws: string, b: string, mark: string)
    requires !l.inString && !l.escape && Plain(ws) && Plain(mark) && Neutral(l, a) && Neutral(l, b)
    ensures Neutral(l, a + mark + ws + b)
  {
    PlainIsNeutral(l, mark);
    PlainIsNeutral(l, ws);
    NeutralAppend(l, a, mark);
    NeutralAppend(l, a + mark, ws);
    NeutralAppend(l, a + mark + ws, b);
  }

  lemma {:induction false} FieldsAreNeutral(l: Lex, fields: Fields, ws: string)
    requires !l.inString && !l.escape && Plain(ws) && ValidFields(fields)
    ensures Neutral(l, PrintFields(fields, ws))
    decreases fields
  {
    if fields.Field? {
      QuoteIsNeutral(l, fields.name);
      PrintIsNeutral(l, fields.value, ws);
      var field := Quote(fields.name) + ":" + ws + Print(fields.value, ws);
      Separated(l, Quote(fields.name), ws, Print(fields.value, ws), ":");
      if fields.rest != End {
        FieldsAreNeutral(l, fields.rest, ws);
        Separated(l, field, ws, PrintFields(fields.rest, ws), ",");
      }
    }
  }

  // ---------------------------------------------------------------- fences

  predicate StartsWithBrace(s: string) { s != "" && s[0] in {'{', '}'} }

  predicate EndsWithBrace(s: string) { s != "" && s[|s| - 1] in {'{', '}'} }

  // No fence marker reaches across a brace.
  lemma {:induction false} StripAppend(a: string, b: string)
    requires a == "" || b == "" || StartsWithBrace(b) || EndsWithBrace(a)
    ensures StripFences(a + b) == StripFences(a) + StripFences(b)
    decreases |a|
  {
    hide StripFences;
    StripStep(a);
    StripStep(a + b);
    StripStep("");
    if a == "" {
      assert a + b == b;
    } else if b == "" {
      assert a + b == a;
    } else {
      FencesHaveNoBrace();
      SamePrefix(a, b, JSON_FENCE);
      SamePrefix(a, b, FENCE);
      if JSON_FENCE <= a {
        assert (a + b)[7..] == a[7..] + b;
        StripAppend(a[7..], b);
      } else if FENCE <= a {
        assert (a + b)[3..] == a[3..] + b;
        StripAppend(a[3..], b);
      } else {
        assert (a + b)[1..] == a[1..] + b;
        StripAppend(a[1..], b);
        Regroup([a[0]], StripFences(a[1..]), StripFences(b));
      }
    }
  }

  lemma StripStep(s: string)
    ensures StripFences(s) ==
      if JSON_FENCE <= s then StripFences(s[7..])
      else if FENCE <= s then StripFences(s[3..])
      else if s == "" then ""
      else [s[0]] + StripFences(s[1..])
  {
  }

  lemma Regroup(a: string, b: string, c: string)
    ensures a + (b + c) == a + b + c
  {
  }

  lemma FencesHaveNoBrace()
    ensures Plain(FENCE) && Plain(JSON_FENCE)
    ensures '{' !in FENCE && '}' !in FENCE && '{' !in JSON_FENCE && '}' !in JSON_FENCE
    ensures FENCE <= JSON_FENCE
  {
  }

  lemma SamePrefix(a: string, b: string, fence: string)
    requires a != "" && (StartsWithBrace(b) || EndsWithBrace(a))
    requires '{' !in fence && '}' !in fence
    ensures fence <= a + b <==> fence <= a
  {
    var cut := if EndsWithBrace(a) then |a| - 1 else |a|;
    assert (a + b)[cut] in {'{', '}'};
    if fence <= a + b {
      forall i | 0 <= i < |fence| ensures fence[i] == (a + b)[i] && fence[i] != (a + b)[cut] {
        assert fence[i] in fence;
      }
      assert |fence| <= cut;
      assert (a + b)[..|fence|] == a[..|fence|];
    }
    if fence <= a {
      assert a[..|fence|] == (a + b)[..|fence|];
    }
  }

  lemma {:induction false} StripPlain(s: string)
    requires Plain(s)
    ensures Plain(StripFences(s))
    decreases |s|
  {
    if JSON_FENCE <= s {
      StripPlain(s[7..]);
    } else if FENCE <= s {
      StripPlain(s[3..]);
    } else if s != "" {
      StripPlain(s[1..]);
    }
  }

  // Deleting fences changes the text exactly when there is one.
  lemma {:induction false} StripIsIdentity(s: string)
    ensures |StripFences(s)| <= |s|
    ensures StripFences(s) == s <==> !HasFence(s)
    decreases |s|
  {
    if JSON_FENCE <= s {
      FencesHaveNoBrace();
      StripIsIdentity(s[7..]);
    } else if FENCE <= s {
      StripIsIdentity(s[3..]);
    } else if s != "" {
      StripIsIdentity(s[1..]);
      assert s == [s[0]] + s[1..];
    }
  }

  // Deleting fences is invisible to the lexer.
  lemma {:induction false} StripLex(l: Lex, s: string, floor: int)
    requires Level(l, s, floor)
    ensures Level(l, StripFences(s), floor)
    ensures LexRun(l, StripFences(s)) == LexRun(l, s)
    decreases |s|
  {
    FencesHaveNoBrace();
    if FENCE <= s {
      assert s[0] == FENCE[0] && !l.escape;
      var k := if JSON_FENCE <= s then 7 else 3;
      assert s[..k] == if k == 7 then JSON_FENCE else FENCE;
      PlainIsNeutral(l, s[..k]);
      assert s == s[..k] + s[k..];
      Append(l, s[..k], s[k..], floor);
      StripLex(l, s[k..], floor);
    } else if s != "" {
      assert !(JSON_FENCE <= s);
      StripLex(LexStep(l, s[0]), s[1..], floor);
      assert ([s[0]] + StripFences(s[1..]))[1..] == StripFences(s[1..]);
    }
  }

  // ---------------------------------------------------------------- scanning objects and gaps

  // A braced text whose inside is neutral one level down.
  predicate IsUnit(u: string) {
    |u| >= 2 && u[0] == '{' && u[|u| - 1] == '}' && Neutral(INSIDE, u[1..|u| - 1])
  }

  lemma PrintedObjectIsUnit(v: Json, ws: string)
    requires v.Object? && ValidJson(v) && Plain(ws)
    ensures IsUnit(Print(v, ws))
  {
    FieldsAreNeutral(INSIDE, v.fields, ws);
    var u := Print(v, ws);
    assert u[1..|u| - 1] == PrintFields(v.fields, ws);
  }

  lemma StripBrace()
    ensures StripFences("{") == "{" && StripFences("}") == "}"
  {
    assert StripFences("") == "" && "{"[1..] == "" && "}"[1..] == "";
  }

  lemma BracesStay(m: string)
    ensures StripFences("{" + (m + "}")) == "{" + (StripFences(m) + "}")
  {
    hide StripFences;
    StripAppend("{", m + "}");
    StripAppend(m, "}");
    StripBrace();
  }

  lemma StrippedUnit(u: string)
    requires IsUnit(u)
    ensures IsUnit(StripFences(u))
  {
    hide StripFences, Level, LexRun;
    var m := u[1..|u| - 1];
    assert u == "{" + (m + "}");
    BracesStay(m);
    Bracketed(StripFences(m));
    StripLex(INSIDE, m, 1);
  }

  lemma Bracketed(inner: string)
    ensures var t := "{" + (inner + "}"); |t| >= 2 && t[0] == '{' && t[|t| - 1] == '}' && t[1..|t| - 1] == inner
  {
    assert ("{" + (inner + "}"))[1..] == inner + "}";
  }

  lemma {:induction false} ScanPlain(text: string, a: nat, b: nat)
    requires a <= b <= |text| && forall i :: a <= i < b ==> text[i] !in {'{', '}', '"', '\\'}
    requires ScanTo(text, a).lex == TOP
    ensures ScanTo(text, b) == ScanTo(text, a)
  {
    if a < b {
      ScanPlain(text, a, b - 1);
    }
  }

  lemma {:induction false} LevelPrefix(l: Lex, s: string, i: nat, floor: int)
    requires Level(l, s, floor) && 0 < i <= |s|
    ensures LexRun(l, s[..i]) == LexStep(LexRun(l, s[..i - 1]), s[i - 1])
    ensures LexRun(l, s[..i]).depth >= floor
    decreases i
  {
    if i == 1 {
      assert s[..1][1..] == "" && s[..0] == "";
    } else {
      LevelPrefix(LexStep(l, s[0]), s[1..], i - 1, floor);
      assert s[..i][1..] == s[1..][..i - 1] && s[..i - 1][1..] == s[1..][..i - 2];
    }
  }

  lemma InsideStep(text: string, i: nat, lex: Lex, start: nat, objects: seq<string>)
    requires i < |text| && lex.depth >= 1 && LexStep(lex, text[i]).depth >= 1
    requires ScanTo(text, i) == Scan(lex, start, objects)
    ensures ScanTo(text, i + 1) == Scan(LexStep(lex, text[i]), start, objects)
  {
  }

  lemma OpenStep(text: string, a: nat)
    requires a < |text| && text[a] == '{' && ScanTo(text, a) == Scan(TOP, -1, ScanTo(text, a).objects)
    ensures ScanTo(text, a + 1) == Scan(INSIDE, a, ScanTo(text, a).objects)
    ensures LexRun(INSIDE, "") == INSIDE
  {
  }

  // m is found in the text at position a.
  predicate Found(text: string, a: nat, m: string) {
    a + |m| <= |text| && forall j :: 0 <= j < |m| ==> text[a + j] == m[j]
  }

  // Between an object's braces the scanner keeps its start and reports nothing.
  lemma {:induction false} ScanInside(text: string, a: nat, m: string, j: nat)
    requires a < |text| && text[a] == '{' && Found(text, a + 1, m) && j <= |m|
    requires ScanTo(text, a) == Scan(TOP, -1, ScanTo(text, a).objects) && Level(INSIDE, m, 1)
    ensures ScanTo(text, a + 1 + j) == Scan(LexRun(INSIDE, m[..j]), a, ScanTo(text, a).objects)
    ensures LexRun(INSIDE, m[..j]).depth >= 1
  {
    hide Level, LexStep, LexRun, ScanTo;
    if j == 0 {
      assert m[..0] == "";
      OpenStep(text, a);
    } else {
      ScanInside(text, a, m, j - 1);
      LevelPrefix(INSIDE, m, j, 1);
      assert text[a + 1 + (j - 1)] == m[j - 1];
      InsideStep(text, a + j, LexRun(INSIDE, m[..j - 1]), a, ScanTo(text, a).objects);
    }
  }

  lemma ScanUnit(text: string, a: nat, b: nat)
    requires a <= b <= |text| && IsUnit(text[a..b])
    requires ScanTo(text, a) == Scan(TOP, -1, ScanTo(text, a).objects)
    ensures ScanTo(text, b) == Scan(TOP, -1, ScanTo(text, a).objects + [text[a..b]])
  {
    hide Level, LexStep, LexRun, ScanTo;
    var u := text[a..b];
    var m := u[1..|u| - 1];
    forall j | 0 <= j < |u| ensures u[j] == text[a + j] {
    }
    assert Found(text, a + 1, m);
    ScanInside(text, a, m, |m|);
    assert m[..|m|] == m;
    CloseStep(text, b - 1, a, ScanTo(text, a).objects);
  }

  lemma CloseStep(text: string, i: nat, start: nat, objects: seq<string>)
    requires start <= i < |text| && text[i] == '}' && ScanTo(text, i) == Scan(INSIDE, start, objects)
    ensures ScanTo(text, i + 1) == Scan(TOP, -1, objects + [text[start..i + 1]])
  {
  }

  // gap, object, gap, object, ...
  function Weave(gaps: seq<string>, units: seq<string>): string
    requires |gaps| == |units|
  {
    if gaps == [] then ""
    else
      var n := |gaps| - 1;
      Weave(gaps[..n], units[..n]) + gaps[n] + units[n]
  }

  predicate Woven(gaps: seq<string>, units: seq<string>) {
    && |gaps| == |units|
    && (forall i :: 0 <= i < |gaps| ==> Plain(gaps[i]))
    && (forall i :: 0 <= i < |units| ==> IsUnit(units[i]))
  }

  lemma {:induction false} WeaveEndsWithBrace(gaps: seq<string>, units: seq<string>)
    requires Woven(gaps, units)
    ensures gaps == [] <==> Weave(gaps, units) == ""
    ensures gaps != [] ==> EndsWithBrace(Weave(gaps, units)) && Weave(gaps, units)[|Weave(gaps, units)| - 1] == '}'
  {
    if gaps != [] {
      var n := |gaps| - 1;
      assert IsUnit(units[n]);
      var w := Weave(gaps, units);
      assert w[|w| - 1] == units[n][|units[n]| - 1];
    }
  }

  lemma ScanPair(front: string, gap: string, unit: string, suffix: string, objects: seq<string>)
    requires Plain(gap) && IsUnit(unit)
    requires ScanTo(front + (gap + unit + suffix), |front|) == Scan(TOP, -1, objects)
    ensures ScanTo(front + gap + unit + suffix, |front + gap + unit|) == Scan(TOP, -1, objects + [unit])
  {
    hide ScanTo, IsUnit;
    var text := front + gap + unit + suffix;
    assert text == front + (gap + unit + suffix);
    var a := |front|;
    var b := a + |gap|;
    var c := b + |unit|;
    assert text[a..b] == gap && text[b..c] == unit;
    forall i | a <= i < b ensures text[i] == gap[i - a] {
    }
    ScanPlain(text, a, b);
    ScanUnit(text, b, c);
  }

  // The scanner reports exactly the woven objects, in order.
  lemma {:induction false} ScanWeave(gaps: seq<string>, units: seq<string>, suffix: string)
    requires Woven(gaps, units)
    ensures ScanTo(Weave(gaps, units) + suffix, |Weave(gaps, units)|) == Scan(TOP, -1, units)
  {
    hide IsUnit, ScanStep;
    if gaps != [] {
      var n := |gaps| - 1;
      ScanWeave(gaps[..n], units[..n], gaps[n] + units[n] + suffix);
      ScanPair(Weave(gaps[..n], units[..n]), gaps[n], units[n], suffix, units[..n]);
      assert units == units[..n] + [units[n]];
    }
  }

  function StripAll(texts: seq<string>): (stripped: seq<string>)
    ensures |stripped| == |texts|
    ensures forall i :: 0 <= i < |texts| ==> stripped[i] == StripFences(texts[i])
  {
    if texts == [] then []
    else
      var n := |texts| - 1;
      StripAll(texts[..n]) + [StripFences(texts[n])]
  }

  lemma {:induction false} StripWeave(gaps: seq<string>, units: seq<string>)
    requires Woven(gaps, units)
    ensures StripFences(Weave(gaps, units)) == Weave(StripAll(gaps), StripAll(units))
  {
    if gaps != [] {
      var n := |gaps| - 1;
      var front := Weave(gaps[..n], units[..n]);
      StripWeave(gaps[..n], units[..n]);
      WeaveEndsWithBrace(gaps[..n], units[..n]);
      assert IsUnit(units[n]);
      StripAppend(front + gaps[n], units[n]);
      StripAppend(front, gaps[n]);
      assert StripAll(gaps)[..n] == StripAll(gaps[..n]) && StripAll(units)[..n] == StripAll(units[..n]);
    }
  }

  lemma StripAllWoven(gaps: seq<string>, units: seq<string>)
    requires Woven(gaps, units)
    ensures Woven(StripAll(gaps), StripAll(units))
  {
    forall i | 0 <= i < |gaps| ensures Plain(StripAll(gaps)[i]) {
      StripPlain(gaps[i]);
    }
    forall i | 0 <= i < |units| ensures IsUnit(StripAll(units)[i]) {
      StrippedUnit(units[i]);
    }
  }

  lemma {:induction false} TrimLeftGap(gap: string, rest: string)
    requires rest != "" && !IsSpace(rest[0])
    ensures TrimLeft(gap + rest) == TrimLeft(gap) + rest
  {
    if gap == "" {
      assert gap + rest == rest;
    } else {
      assert (gap + rest)[1..] == gap[1..] + rest;
      TrimLeftGap(gap[1..], rest);
    }
  }

  lemma {:induction false} TrimRightTail(body: string, tail: string)
    requires body != "" && !IsSpace(body[|body| - 1])
    ensures TrimRight(body + tail) == body + TrimRight(tail)
  {
    if tail == "" {
      assert body + tail == body;
    } else {
      var n := |tail| - 1;
      assert (body + tail)[..|body| + n] == body + tail[..n];
      TrimRightTail(body, tail[..n]);
    }
  }

  lemma WeaveLast(gaps: seq<string>, units: seq<string>, rest: string)
    requires |gaps| == |units| > 0
    ensures var n := |gaps| - 1;
      Weave(gaps, units) + rest == Weave(gaps[..n], units[..n]) + (gaps[n] + units[n] + rest)
  {
  }

  lemma {:induction false} TrimLeftWeave(gaps: seq<string>, units: seq<string>, rest: string)
    requires Woven(gaps, units) && gaps != []
    ensures TrimLeft(Weave(gaps, units) + rest) == Weave(gaps[0 := TrimLeft(gaps[0])], units) + rest
  {
    hide TrimLeft, Weave;
    var n := |gaps| - 1;
    var trimmed := gaps[0 := TrimLeft(gaps[0])];
    assert IsUnit(units[n]);
    WeaveLast(gaps, units, rest);
    WeaveLast(trimmed, units, rest);
    var more := gaps[n] + units[n] + rest;
    if n == 0 {
      WeaveNothing();
      assert gaps[..0] == trimmed[..0] == [] && units[..0] == [];
      assert more == gaps[0] + (units[0] + rest);
      TrimLeftGap(gaps[0], units[0] + rest);
      assert "" + more == more;
      assert TrimLeft(gaps[0]) + (units[0] + rest) == "" + (trimmed[0] + units[0] + rest);
    } else {
      TrimLeftWeave(gaps[..n], units[..n], more);
      assert trimmed[..n] == gaps[..n][0 := TrimLeft(gaps[0])];
    }
  }

  lemma WeaveNothing()
    ensures Weave([], []) == ""
  {
  }

  lemma {:induction false} TrimPlain(s: string)
    requires Plain(s)
    ensures Plain(TrimLeft(s)) && Plain(TrimRight(s))
    decreases |s|
  {
    if s != "" {
      TrimPlain(s[1..]);
      TrimPlain(s[..|s| - 1]);
    }
  }

  // For fenced, chatty text around any number of braced units, the last unit is returned, with any
  // fence markers inside it deleted.
  lemma LastUnitWins(gaps: seq<string>, units: seq<string>, tail: string)
    requires Woven(gaps, units) && gaps != [] && Plain(tail)
    ensures Parsed(Weave(gaps, units) + tail) == StripFences(units[|units| - 1])
  {
    hide ScanTo, Weave, TrimLeft, TrimRight, StripFences;
    var g, u := StripAll(gaps), StripAll(units);
    StripWeave(gaps, units);
    StripAllWoven(gaps, units);
    WeaveEndsWithBrace(gaps, units);
    StripAppend(Weave(gaps, units), tail);
    TrimLeftWeave(g, u, StripFences(tail));
    var first := g[0 := TrimLeft(g[0])];
    TrimPlain(g[0]);
    StripPlain(tail);
    TrimPlain(StripFences(tail));
    WeaveEndsWithBrace(first, u);
    TrimRightTail(Weave(first, u), StripFences(tail));
    var end := TrimRight(StripFences(tail));
    ScanWeave(first, u, end);
    var text := Weave(first, u) + end;
    forall i | |Weave(first, u)| <= i < |text| ensures text[i] == end[i - |Weave(first, u)|] {
    }
    ScanPlain(text, |Weave(first, u)|, |text|);
  }

  // ---------------------------------------------------------------- behind any text

  // The scanner's lexer reads every character, and an object under way is always below the top.
  lemma {:induction false} ScanReads(text: string, i: nat)
    requires i <= |text|
    ensures var s := ScanTo(text, i);
      s.lex == LexRun(TOP, text[..i]) && s.start >= -1 && (s.start >= 0 ==> s.lex.depth >= 1)
  {
    if i == 0 {
      ScanNothing(text);
    } else {
      hide LexRun, ScanTo, ScanStep, LexStep;
      ScanReads(text, i - 1);
      StepReads(ScanTo(text, i - 1), text, i - 1);
      assert text[..i] == text[..i - 1] + [text[i - 1]];
      ReadOne(text[..i - 1], text[i - 1]);
      ScanOne(text, i - 1, ScanTo(text, i - 1), ScanStep(ScanTo(text, i - 1), text, i - 1));
    }
  }

  lemma StepReads(s: Scan, text: string, i: nat)
    requires i < |text| && -1 <= s.start <= i && (s.start >= 0 ==> s.lex.depth >= 1)
    ensures var next := ScanStep(s, text, i);
      next.lex == LexStep(s.lex, text[i]) && next.start >= -1 && (next.start >= 0 ==> next.lex.depth >= 1)
  {
  }

  lemma ReadOne(s: string, c: char)
    ensures LexRun(TOP, s + [c]) == LexStep(LexRun(TOP, s), c)
  {
    Append(TOP, s, [c], 0);
    assert [c][1..] == "";
  }

  lemma {:induction false} TrimmedReads(s: string)
    ensures LexRun(TOP, TrimLeft(s)) == LexRun(TOP, s)
  {
    if s != "" && IsSpace(s[0]) {
      TrimmedReads(s[1..]);
    }
  }

  // Behind any text at all that leaves braces balanced, no string open and no backslash pending, the last
  // object is returned, without its fences.
  lemma LastUnitBehindText(before: string, unit: string, tail: string)
    requires LexRun(TOP, StripFences(before)) == TOP && IsUnit(unit) && Plain(tail)
    ensures Parsed(before + unit + tail) == StripFences(unit)
  {
    hide ScanTo, LexRun, TrimLeft, TrimRight, StripFences, Level;
    var p, u, t := StripFences(before), StripFences(unit), StripFences(tail);
    StrippedUnit(unit);
    StripPlain(tail);
    StripAppend(before, unit);
    StripAppend(before + unit, tail);
    assert p + u + t == p + (u + t);
    TrimLeftGap(p, u + t);
    TrimmedReads(p);
    var front, end := TrimLeft(p), TrimRight(t);
    assert front + (u + t) == front + u + t;
    TrimRightTail(front + u, t);
    TrimPlain(t);
    var text := front + u + end;
    var a, b := |front|, |front| + |u|;
    assert text[..a] == front && text[a..b] == u;
    ScanReads(text, a);
    ScanUnit(text, a, b);
    forall i | b <= i < |text| ensures text[i] == end[i - b] {
    }
    ScanPlain(text, b, |text|);
  }

  // A stray closing brace in the text before is enough to lose the object: of this one only the inner part
  // comes back.
  lemma StrayBraceLosesTheObject()
    ensures Parsed("}{\"a\":{}}") == "{}"
  {
    hide ScanTo, StripFences, TrimLeft, TrimRight;
    var t := "}{\"a\":{}}";
    NoFenceHere(t);
    StrayScan(t);
    assert t[6..8] == "{}";
  }

  lemma StrayScan(t: string)
    requires |t| == 9 && t[0] == '}' && t[1] == '{' && t[2] == '"' && t[3] !in {'\\', '"'} && t[4] == '"' && t[5] == ':'
    requires t[6] == '{' && t[7] == '}' && t[8] == '}'
    ensures ScanTo(t, 9).objects == [t[6..8]]
  {
    hide ScanTo;
    StrayStart(t);
    ScanOne(t, 6, Scan(TOP, -1, []), Scan(INSIDE, 6, []));
    ScanOne(t, 7, Scan(INSIDE, 6, []), Scan(TOP, -1, [t[6..8]]));
    ScanOne(t, 8, Scan(TOP, -1, [t[6..8]]), Scan(Lex(-1, false, false), -1, [t[6..8]]));
  }

  lemma StrayStart(t: string)
    requires |t| == 9 && t[0] == '}' && t[1] == '{' && t[2] == '"' && t[3] !in {'\\', '"'} && t[4] == '"' && t[5] == ':'
    ensures ScanTo(t, 6) == Scan(TOP, -1, [])
  {
    hide ScanTo;
    ScanNothing(t);
    ScanOne(t, 0, Scan(TOP, -1, []), Scan(Lex(-1, false, false), -1, []));
    ScanOne(t, 1, Scan(Lex(-1, false, false), -1, []), Scan(TOP, -1, []));
    ScanOne(t, 2, Scan(TOP, -1, []), Scan(Lex(0, true, false), -1, []));
    ScanOne(t, 3, Scan(Lex(0, true, false), -1, []), Scan(Lex(0, true, false), -1, []));
    ScanOne(t, 4, Scan(Lex(0, true, false), -1, []), Scan(TOP, -1, []));
    ScanOne(t, 5, Scan(TOP, -1, []), Scan(TOP, -1, []));
  }

  lemma ScanNothing(text: string)
    ensures ScanTo(text, 0) == Scan(TOP, -1, [])
  {
  }

  lemma ScanOne(text: string, i: nat, s: Scan, next: Scan)
    requires i < |text| && ScanTo(text, i) == s && s.start <= i && ScanStep(s, text, i) == next
    ensures ScanTo(text, i + 1) == next
  {
  }

  lemma NoFenceHere(t: string)
    requires t == "}{\"a\":{}}"
    ensures TrimRight(TrimLeft(StripFences(t))) == t
  {
    hide TrimRight, TrimLeft, StripFences;
    FewBackticks(t);
    StripIsIdentity(t);
    TrimLeftGap("", t);
    assert "" + t == t && t + "" == t;
    TrimRightTail(t, "");
    NothingToTrim();
  }

  lemma {:induction false} FewBackticks(t: string)
    requires '`' !in t
    ensures !HasFence(t)
  {
    if t != "" {
      assert t[0] in t && FENCE[0] == '`';
      FewBackticks(t[1..]);
    }
  }

  lemma NothingToTrim()
    ensures TrimLeft("") == "" && TrimRight("") == ""
  {
  }

  function Prints(values: seq<Json>, ws: string): (texts: seq<string>)
    ensures |texts| == |values| && forall i :: 0 <= i < |values| ==> texts[i] == Print(values[i], ws)
  {
    if values == [] then []
    else
      var n := |values| - 1;
      Prints(values[..n], ws) + [Print(values[n], ws)]
  }

  // Round trip: of any JSON objects printed one after the other, between texts free of braces,
  // quotes and backslashes but with any code fences, the last one comes back verbatim exactly when
  // it holds no fence marker itself.
  lemma LastObjectComesBack(gaps: seq<string>, values: seq<Json>, tail: string, ws: string)
    requires |gaps| == |values| > 0 && Plain(ws) && Plain(tail)
    requires forall i :: 0 <= i < |gaps| ==> Plain(gaps[i])
    requires forall i :: 0 <= i < |values| ==> values[i].Object? && ValidJson(values[i])
    ensures var last := Print(values[|values| - 1], ws);
      Parsed(Weave(gaps, Prints(values, ws)) + tail) == last <==> !HasFence(last)
  {
    var units := Prints(values, ws);
    forall i | 0 <= i < |units| ensures IsUnit(units[i]) {
      PrintedObjectIsUnit(values[i], ws);
    }
    LastUnitWins(gaps, units, tail);
    StripIsIdentity(units[|units| - 1]);
  }
}
