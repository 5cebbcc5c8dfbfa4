/** The answer taken from a model response, and the responses from which it is recovered exactly. */
module Hypothesis {
  import opened Common
  import opened Scanner

  // ---------------------------------------------------------------- JSON values and their text

  predicate NumberChar(c: char) { '0' <= c <= '9' || c in {'+', '-', '.', 'e', 'E'} }

  type NumberText = s: string | forall i :: 0 <= i < |s| ==> NumberChar(s[i])

  datatype Json = Null | Bool(value: bool) | Num(digits: NumberText) | Str(text: string) | Arr(items: Items) |
      Obj(fields: Fields)
  datatype Items = NoItem | Item(head: Json, tail: Items)
  datatype Fields = NoField | Field(name: string, value: Json, rest: Fields)

  function Hex(d: nat): char
    requires d < 16
  {
    "0123456789abcdef"[d]
  }

  function EscapeChar(c: char): string {
    if c == '"' then ['\\', '"']
    else if c == '\\' then ['\\', '\\']
    else if c == '\U{0008}' then ['\\', 'b']
    else if c == '\t' then ['\\', 't']
    else if c == '\n' then ['\\', 'n']
    else if c == '\U{000C}' then ['\\', 'f']
    else if c == '\r' then ['\\', 'r']
    else if c < ' ' then ['\\', 'u'] + ['0', '0', Hex(c as int / 16), Hex(c as int % 16)]
    else [c]
  }

  function Escape(s: string): string {
    if s == "" then "" else EscapeChar(s[0]) + Escape(s[1..])
  }

  function Quote(s: string): string { ['"'] + Escape(s) + ['"'] }

  /** The compact text of a value, as `JSON.stringify` writes it. */
  function Print(v: Json): string {
    match v
    case Null => "null"
    case Bool(b) => if b then "true" else "false"
    case Num(digits) => digits
    case Str(text) => Quote(text)
    case Arr(items) => ['['] + PrintItems(items) + [']']
    case Obj(fields) => ['{'] + PrintFields(fields) + ['}']
  }

  function PrintItems(items: Items): string {
    match items
    case NoItem => ""
    case Item(head, NoItem) => Print(head)
    case Item(head, tail) => Print(head) + [','] + PrintItems(tail)
  }

  function PrintFields(fields: Fields): string {
    match fields
    case NoField => ""
    case Field(name, value, NoField) => Quote(name) + [':'] + Print(value)
    case Field(name, value, rest) => Quote(name) + [':'] + Print(value) + [','] + PrintFields(rest)
  }

  // ---------------------------------------------------------------- printed values are brace-balanced

  /** Text that returns the lexer to `l` and on the way never goes below its depth. */
  ghost predicate Neutral(l: Lex, t: string) {
    Fold(l, t) == l && forall k :: 0 <= k <= |t| ==> Fold(l, t[..k]).depth >= l.depth
  }

  lemma NeutralConcat(l: Lex, a: string, b: string)
    requires Neutral(l, a) && Neutral(l, b)
    ensures Neutral(l, a + b)
  {
    FoldConcat(l, a, b);
    forall k | 0 <= k <= |a + b| ensures Fold(l, (a + b)[..k]).depth >= l.depth {
      if k <= |a| {
        assert (a + b)[..k] == a[..k];
      } else {
        assert (a + b)[..k] == a + b[..k - |a|];
        FoldConcat(l, a, b[..k - |a|]);
      }
    }
  }

  lemma FoldOne(l: Lex, c: char)
    ensures Fold(l, [c]) == Next(l, c)
  {
    assert [c][..0] == "";
    assert Fold(l, "") == l;
  }

  lemma NeutralChar(l: Lex, c: char)
    requires Next(l, c) == l
    ensures Neutral(l, [c])
  {
    FoldOne(l, c);
    forall k | 0 <= k <= 1 ensures Fold(l, [c][..k]).depth >= l.depth {
      assert [c][..0] == "" && [c][..1] == [c];
    }
  }

  lemma {:induction false} NeutralChars(l: Lex, t: string)
    requires forall i :: 0 <= i < |t| ==> Next(l, t[i]) == l
    ensures Neutral(l, t)
  {
    if t != "" {
      NeutralChar(l, t[0]);
      NeutralChars(l, t[1..]);
      NeutralConcat(l, [t[0]], t[1..]);
      assert [t[0]] + t[1..] == t;
    }
  }

  /** A bracket that opens into `m`, neutral text there, and a bracket back. */
  lemma NeutralBracket(l: Lex, open: char, m: Lex, inner: string, close: char)
    requires Next(l, open) == m && Neutral(m, inner) && Next(m, close) == l && m.depth >= l.depth
    ensures Neutral(l, [open] + inner + [close])
    ensures forall k :: 0 < k <= |inner| + 1 ==> Fold(l, ([open] + inner + [close])[..k]).depth >= m.depth
  {
    var t := [open] + inner + [close];
    FoldOne(l, open);
    FoldOne(m, close);
    FoldConcat(l, [open], inner);
    FoldConcat(l, [open] + inner, [close]);
    forall k | 0 < k <= |inner| + 1 ensures Fold(l, t[..k]).depth >= m.depth {
      assert t[..k] == [open] + inner[..k - 1];
      FoldConcat(l, [open], inner[..k - 1]);
    }
    assert t[..0] == "" && t[..|t|] == t;
  }

  lemma NeutralEscape(l: Lex, c: char)
    requires l.inString && !l.escaped
    ensures Neutral(l, ['\\', c])
  {
    NeutralBracketed(l, c);
    assert ['\\'] + [] + [c] == ['\\', c];
  }

  lemma NeutralBracketed(l: Lex, c: char)
    requires l.inString && !l.escaped
    ensures Neutral(l, ['\\'] + [] + [c])
  {
    var m := l.(escaped := true);
    assert Neutral(m, []);
    NeutralBracket(l, '\\', m, [], c);
  }

  lemma NeutralEscapeChar(l: Lex, c: char)
    requires l.inString && !l.escaped
    ensures Neutral(l, EscapeChar(c))
  {
    var t := EscapeChar(c);
    if |t| == 2 {
      NeutralEscape(l, t[1]);
    } else if |t| == 1 {
      NeutralChar(l, c);
    } else {
      NeutralEscape(l, 'u');
      NeutralChars(l, ['0', '0', Hex(c as int / 16), Hex(c as int % 16)]);
      NeutralConcat(l, ['\\', 'u'], ['0', '0', Hex(c as int / 16), Hex(c as int % 16)]);
    }
  }

  lemma {:induction false} NeutralEscaped(l: Lex, s: string)
    requires l.inString && !l.escaped
    ensures Neutral(l, Escape(s))
  {
    if s != "" {
      NeutralEscapeChar(l, s[0]);
      NeutralEscaped(l, s[1..]);
      NeutralConcat(l, EscapeChar(s[0]), Escape(s[1..]));
    }
  }

  lemma NeutralQuote(l: Lex, s: string)
    requires !l.inString && !l.escaped
    ensures Neutral(l, Quote(s))
  {
    var m := l.(inString := true);
    NeutralEscaped(m, s);
    NeutralBracket(l, '"', m, Escape(s), '"');
  }

  /** A printed value is balanced wherever it is printed, whatever its strings contain. */
  lemma {:induction false} PrintNeutral(l: Lex, v: Json)
    requires !l.inString && !l.escaped
    ensures Neutral(l, Print(v))
    decreases v
  {
    match v
    case Null => NeutralChars(l, Print(v));
    case Bool(_) => NeutralChars(l, Print(v));
    case Num(digits) => NeutralChars(l, digits);
    case Str(text) => NeutralQuote(l, text);
    case Arr(items) =>
      ItemsNeutral(l, items);
      NeutralBracket(l, '[', l, PrintItems(items), ']');
    case Obj(fields) =>
      FieldsNeutral(l.(depth := l.depth + 1), fields);
      NeutralBracket(l, '{', l.(depth := l.depth + 1), PrintFields(fields), '}');
  }

  lemma {:induction false} ItemsNeutral(l: Lex, items: Items)
    requires !l.inString && !l.escaped
    ensures Neutral(l, PrintItems(items))
    decreases items
  {
    match items
    case NoItem =>
    case Item(head, tail) =>
      PrintNeutral(l, head);
      if tail.Item? {
        NeutralChar(l, ',');
        ItemsNeutral(l, tail);
        NeutralConcat(l, Print(head), [',']);
        NeutralConcat(l, Print(head) + [','], PrintItems(tail));
      }
  }

  lemma {:induction false} FieldsNeutral(l: Lex, fields: Fields)
    requires !l.inString && !l.escaped
    ensures Neutral(l, PrintFields(fields))
    decreases fields
  {
    match fields
    case NoField =>
    case Field(name, value, rest) =>
      NeutralQuote(l, name);
      NeutralChar(l, ':');
      PrintNeutral(l, value);
      NeutralConcat(l, Quote(name), [':']);
      NeutralConcat(l, Quote(name) + [':'], Print(value));
      if rest.Field? {
        NeutralChar(l, ',');
        FieldsNeutral(l, rest);
        NeutralConcat(l, Quote(name) + [':'] + Print(value), [',']);
        NeutralConcat(l, Quote(name) + [':'] + Print(value) + [','], PrintFields(rest));
      }
  }

  /** A printed object closes exactly at its own last brace, whatever text surrounds it. */
  lemma PrintedObjectCloses(before: string, fields: Fields, after: string)
    ensures var text := Print(Obj(fields));
            Closes(before + text + after, |before|, |before| + |text|)
  {
    var text := Print(Obj(fields));
    var s := before + text + after;
    var inner := Lex(1, false, false);
    FieldsNeutral(inner, fields);
    NeutralBracket(START, '{', inner, PrintFields(fields), '}');
    forall k | 0 <= k <= |text| ensures Depth(s, |before|, |before| + k) == Fold(START, text[..k]).depth {
      assert s[|before|..|before| + k] == text[..k];
    }
    assert text[..|text|] == text;
    forall k | |before| < k < |before| + |text| ensures Depth(s, |before|, k) > 0 {
      assert Depth(s, |before|, |before| + (k - |before|)) == Fold(START, text[..k - |before|]).depth;
    }
  }

  /** A block that no brace precedes is the first candidate. */
  lemma BlockIsFirstCandidate(s: string, start: nat, end: nat, spans: seq<Span>)
    requires Closes(s, start, end) && Candidates(s, spans) && forall p :: 0 <= p < start ==> s[p] != '{'
    ensures spans != [] && spans[0] == Span(start, end)
  {
    assert Closable(s, start);
    var j :| 0 <= j < |spans| && spans[j].start <= start < spans[j].end;
    FirstIsLeftmost(s, spans, j);
    ClosesOnce(s, start, end, spans[0].end);
  }

  lemma PrintedObjectIsFirstCandidate(before: string, fields: Fields, after: string, spans: seq<Span>)
    requires '{' !in before
    requires Candidates(before + Print(Obj(fields)) + after, spans)
    ensures spans != [] && spans[0] == Span(|before|, |before| + |Print(Obj(fields))|)
  {
    var s := before + Print(Obj(fields)) + after;
    PrintedObjectCloses(before, fields, after);
    assert forall p :: 0 <= p < |before| ==> s[p] == before[p] != '{';
    BlockIsFirstCandidate(s, |before|, |before| + |Print(Obj(fields))|, spans);
  }

  lemma FirstIsLeftmost(s: string, spans: seq<Span>, j: nat)
    requires Candidates(s, spans) && j < |spans|
    ensures spans[0].start <= spans[j].start && Closes(s, spans[0].start, spans[0].end)
  {
    assert Closes(s, spans[0].start, spans[0].end);
  }

  // ---------------------------------------------------------------- extracting the answer

  const FENCE: string := "```"

  /** The body of a fenced response, or the trimmed response. */
  function StripJsonCodeFences(content: string): string {
    var trimmed := Trim(content);
    if |trimmed| >= 6 && trimmed[..3] == FENCE && trimmed[|trimmed| - 3..] == FENCE then
      var body := trimmed[3..|trimmed| - 3];
      Trim(if |body| >= 4 && body[..4] == "json" then body[4..] else body)
    else trimmed
  }

  function Split(s: string): seq<string> {
    if s == "" then [""]
    else
      var rest := Split(s[..|s| - 1]);
      var c := s[|s| - 1];
      if c == '\n' then rest + [""]
      else if rest == [] then [[c]]
      else rest[..|rest| - 1] + [rest[|rest| - 1] + [c]]
  }

  function NonBlank(lines: seq<string>): seq<string> {
    if lines == [] then []
    else
      var rest, line := NonBlank(lines[..|lines| - 1]), Trim(lines[|lines| - 1]);
      if line != "" then rest + [line] else rest
  }

  /** The last member of that name, as `JSON.parse` resolves duplicates. */
  function Member(fields: Fields, name: string): Option<Json> {
    match fields
    case NoField => None
    case Field(n, value, rest) =>
      var later := Member(rest, name);
      if later.Some? then later else if n == name then Some(value) else None
  }

  /** A usable answer: a non-blank string under `answer`. */
  function AnswerOf(parsed: Option<Json>): Option<string> {
    if parsed.Some? && parsed.value.Obj? then
      match Member(parsed.value.fields, "answer")
      case Some(Str(text)) => if Trim(text) != "" then Some(text) else None
      case _ => None
    else None
  }

  type Parser = string -> Option<Json>

  function Slice(s: string, span: Span): string {
    if span.start <= span.end <= |s| then s[span.start..span.end] else ""
  }

  function FirstUsable(s: string, spans: seq<Span>, parse: Parser): Option<string> {
    if spans == [] then None
    else
      var answer := AnswerOf(parse(Slice(s, spans[0])));
      if answer.Some? then answer else FirstUsable(s, spans[1..], parse)
  }

  datatype Parsed = Answer(answer: string) | UnreliableJson | UnreliableProse

  function Decide(content: string, usable: Option<string>): Parsed {
    var fenced := StripJsonCodeFences(content);
    var lines := NonBlank(Split(fenced));
    if usable.Some? then Answer(usable.value)
    else if '{' in fenced || '[' in fenced || FENCE <= TrimStart(content) then UnreliableJson
    else if |lines| == 1 then Answer(lines[0])
    else UnreliableProse
  }

  method ParseOfficialHypothesis(content: string, parse: Parser) returns (r: Parsed)
    ensures forall spans :: Candidates(StripJsonCodeFences(content), spans) ==>
              r == Decide(content, FirstUsable(StripJsonCodeFences(content), spans, parse))
  {
    var fenced := StripJsonCodeFences(content);
    var spans := IterateBalancedObjects(fenced);
    forall other | Candidates(fenced, other) ensures other == spans { CandidatesUnique(fenced, spans, other); }
    var i := 0;
    while i < |spans|
      invariant i <= |spans| && FirstUsable(fenced, spans, parse) == FirstUsable(fenced, spans[i..], parse)
    {
      var answer := AnswerOf(parse(Slice(fenced, spans[i])));
      if answer.Some? { return Answer(answer.value); }
      i := i + 1;
    }
    r := Decide(content, None);
  }

  // ---------------------------------------------------------------- what the answer can be

  ghost predicate Over(s: string, t: string) { forall c :: c in s ==> c in t }

  lemma {:induction false} TrimStartOver(s: string)
    ensures Over(TrimStart(s), s)
  {
    if s != "" && IsSpace(s[0]) { TrimStartOver(s[1..]); }
  }

  lemma {:induction false} TrimEndOver(s: string)
    ensures Over(TrimEnd(s), s)
  {
    if s != "" && IsSpace(s[|s| - 1]) { TrimEndOver(s[..|s| - 1]); }
  }

  lemma {:induction false} SplitOver(s: string)
    ensures forall i :: 0 <= i < |Split(s)| ==> Over(Split(s)[i], s) && '\n' !in Split(s)[i]
  {
    if s != "" {
      SplitOver(s[..|s| - 1]);
      forall i | 0 <= i < |Split(s)| ensures Over(Split(s)[i], s) && '\n' !in Split(s)[i] {
        var rest := Split(s[..|s| - 1]);
        assert i < |rest| ==> Over(rest[i], s[..|s| - 1]) && '\n' !in rest[i];
      }
    }
  }

  lemma {:induction false} NonBlankOver(lines: seq<string>, t: string)
    requires forall i :: 0 <= i < |lines| ==> Over(lines[i], t) && '\n' !in lines[i]
    ensures forall i :: 0 <= i < |NonBlank(lines)| ==>
              Over(NonBlank(lines)[i], t) && '\n' !in NonBlank(lines)[i] && NonBlank(lines)[i] != ""
  {
    if lines != [] {
      var last := lines[|lines| - 1];
      NonBlankOver(lines[..|lines| - 1], t);
      TrimStartOver(last);
      TrimEndOver(TrimStart(last));
    }
  }

  /** An answer that no candidate supplied is one non-blank line with no brace, bracket or fence. */
  lemma BareAnswerIsProse(content: string)
    requires Decide(content, None).Answer?
    ensures var answer := Decide(content, None).answer;
            answer != "" && '{' !in answer && '[' !in answer && '\n' !in answer && !(FENCE <= TrimStart(content))
  {
    var fenced := StripJsonCodeFences(content);
    SplitOver(fenced);
    NonBlankOver(Split(fenced), fenced);
  }

  /** A printed object with a usable answer, after text without braces, is recovered exactly. */
  lemma PrintedAnswerRecovered(
    content: string, before: string, fields: Fields, after: string, spans: seq<Span>, parse: Parser)
    requires StripJsonCodeFences(content) == before + Print(Obj(fields)) + after && '{' !in before
    requires parse(Print(Obj(fields))) == Some(Obj(fields)) && AnswerOf(Some(Obj(fields))).Some?
    requires Candidates(StripJsonCodeFences(content), spans)
    ensures Decide(content, FirstUsable(StripJsonCodeFences(content), spans, parse))
              == Answer(AnswerOf(Some(Obj(fields))).value)
  {
    PrintedObjectIsFirstCandidate(before, fields, after, spans);
    var s, text := before + Print(Obj(fields)) + after, Print(Obj(fields));
    assert s[|before|..|before| + |text|] == text;
  }

  /** A fence around text that starts and ends in non-space is stripped to exactly that text. */
  lemma FencedBodyRecovered(body: string, gap: string)
    requires body != "" && !IsSpace(body[0]) && !IsSpace(body[|body| - 1])
    requires gap in {"\n", "\r\n"}
    ensures StripJsonCodeFences(FENCE + "json" + gap + body + gap + FENCE) == body
  {
    var inner := gap + body + gap;
    var content := FENCE + "json" + inner + FENCE;
    assert FENCE + "json" + gap + body + gap + FENCE == content;
    TrimKeeps(content);
    assert content[3..|content| - 3] == "json" + inner;
    assert ("json" + inner)[..4] == "json" && ("json" + inner)[4..] == inner;
    TrimGap(body, gap);
  }

  lemma TrimKeeps(s: string)
    requires s != "" && !IsSpace(s[0]) && !IsSpace(s[|s| - 1])
    ensures Trim(s) == s
  {
  }

  lemma TrimGap(body: string, gap: string)
    requires body != "" && !IsSpace(body[0]) && !IsSpace(body[|body| - 1])
    requires forall i :: 0 <= i < |gap| ==> IsSpace(gap[i])
    ensures Trim(gap + body + gap) == body
  {
    assert gap + body + gap == gap + (body + gap);
    DropLeading(gap, body + gap);
    DropTrailing(body, gap);
  }

  lemma {:induction false} DropLeading(gap: string, s: string)
    requires s != "" && !IsSpace(s[0]) && forall i :: 0 <= i < |gap| ==> IsSpace(gap[i])
    ensures TrimStart(gap + s) == s
  {
    if gap == "" {
      assert gap + s == s;
    } else {
      DropLeading(gap[1..], s);
      assert (gap + s)[1..] == gap[1..] + s;
    }
  }

  lemma {:induction false} DropTrailing(s: string, gap: string)
    requires s != "" && !IsSpace(s[|s| - 1]) && forall i :: 0 <= i < |gap| ==> IsSpace(gap[i])
    ensures TrimEnd(s + gap) == s
  {
    if gap == "" {
      assert s + gap == s;
    } else {
      DropTrailing(s, gap[..|gap| - 1]);
      assert (s + gap)[..|s + gap| - 1] == s + gap[..|gap| - 1];
    }
  }

  /** The usual fenced JSON response gives exactly the answer it carries. */
  lemma FencedAnswerRecovered(fields: Fields, gap: string, spans: seq<Span>, parse: Parser)
    requires gap in {"\n", "\r\n"}
    requires parse(Print(Obj(fields))) == Some(Obj(fields)) && AnswerOf(Some(Obj(fields))).Some?
    requires Candidates(Print(Obj(fields)), spans)
    ensures var content := FENCE + "json" + gap + Print(Obj(fields)) + gap + FENCE;
            && StripJsonCodeFences(content) == Print(Obj(fields))
            && Decide(content, FirstUsable(Print(Obj(fields)), spans, parse))
               == Answer(AnswerOf(Some(Obj(fields))).value)
  {
    var text := Print(Obj(fields));
    FencedBodyRecovered(text, gap);
    assert "" + text + "" == text;
    PrintedAnswerRecovered(FENCE + "json" + gap + text + gap + FENCE, "", fields, "", spans, parse);
  }
}
