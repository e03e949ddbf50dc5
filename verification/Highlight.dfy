/** The one-line syntax highlighter (packages/tui/src/markdown.ts:75-184). */
module Highlight {
  import opened Text
  import opened Seqs

  datatype Style = Plain | Bold | Italic | Code | Keyword | Literal | Comment | Number | Type

  datatype Span = Span(text: string, style: Style)

  /** The texts of spans, one after the other. */
  function Joined(spans: seq<Span>): string {
    if spans == [] then "" else spans[0].text + Joined(spans[1..])
  }

  // --- languages ---

  const KW_JS: set<string> := {
    "const", "let", "var", "function", "return", "if", "else", "for", "while", "do", "switch", "case", "break",
    "continue", "new", "class", "extends", "implements", "interface", "type", "enum", "import", "export", "from",
    "default", "async", "await", "yield", "try", "catch", "finally", "throw", "typeof", "instanceof", "in", "of",
    "this", "super", "static", "public", "private", "protected", "readonly", "void", "null", "undefined", "true",
    "false", "as", "satisfies", "keyof", "namespace", "declare", "abstract", "get", "set"
  }

  const KW_PY: set<string> := {
    "def", "class", "return", "if", "elif", "else", "for", "while", "import", "from", "as", "with", "try", "except",
    "finally", "raise", "lambda", "yield", "global", "nonlocal", "pass", "break", "continue", "in", "is", "not", "and",
    "or", "None", "True", "False", "async", "await", "self"
  }

  const KW_GO: set<string> := {
    "func", "return", "if", "else", "for", "range", "switch", "case", "break", "continue", "type", "struct",
    "interface", "map", "chan", "go", "defer", "package", "import", "var", "const", "nil", "true", "false"
  }

  const KW_RUST: set<string> := {
    "fn", "let", "mut", "return", "if", "else", "for", "while", "loop", "match", "struct", "enum", "trait", "impl",
    "pub", "use", "mod", "const", "static", "self", "Self", "where", "async", "await", "move", "ref", "dyn", "as", "in",
    "true", "false"
  }

  function KeywordsFor(lang: string): set<string> {
    if lang == "py" || lang == "python" then KW_PY
    else if lang == "go" then KW_GO
    else if lang == "rs" || lang == "rust" then KW_RUST
    else KW_JS
  }

  function CommentStart(lang: string): (r: string)
    ensures r != ""
  {
    if lang in {"py", "python", "sh", "bash", "zsh", "yaml", "yml", "toml", "rb", "ruby"} then "#" else "//"
  }

  /** What the loop is given: the keywords and how a comment starts. */
  datatype Lang = Lang(keywords: set<string>, comment: string)

  predicate LangFits(l: Lang) {
    l.comment != ""
  }

  function LangOf(lang: string): (r: Lang)
    ensures LangFits(r)
  {
    Lang(KeywordsFor(lang), CommentStart(lang))
  }

  // --- characters ---

  predicate IsIdent(c: char) {
    IsWord(c) || c == '$'
  }

  predicate IsIdentStart(c: char) {
    IsIdent(c) && !IsDigit(c)
  }

  predicate IsNumberChar(c: char) {
    IsDigit(c) || c == '.' || c == '_' || c == 'x' || 'a' <= c <= 'f' || 'A' <= c <= 'F' || c == 'o'
  }

  predicate IsQuote(c: char) {
    c == '"' || c == '\'' || c == '`'
  }

  predicate IsUpper(c: char) {
    'A' <= c <= 'Z'
  }

  // --- the lengths of the tokens at the start of a text ---

  function IdentLen(s: string): (r: nat)
    ensures r <= |s| && forall i :: 0 <= i < r ==> IsIdent(s[i])
    ensures s != "" && IsIdent(s[0]) ==> r > 0
  {
    if s == "" || !IsIdent(s[0]) then 0
    else
      var r := IdentLen(s[1..]);
      assert forall i :: 0 < i < 1 + r ==> s[i] == s[1..][i - 1];
      1 + r
  }

  function NumberLen(s: string): (r: nat)
    ensures r <= |s| && forall i :: 0 <= i < r ==> IsNumberChar(s[i])
    ensures s != "" && IsNumberChar(s[0]) ==> r > 0
  {
    if s == "" || !IsNumberChar(s[0]) then 0
    else
      var r := NumberLen(s[1..]);
      assert forall i :: 0 < i < 1 + r ==> s[i] == s[1..][i - 1];
      1 + r
  }

  /** What a string takes of the text behind its opening quote: a backslash takes the next character along. */
  function QuoteLen(s: string, quote: char): (r: nat)
    ensures r <= |s|
    decreases |s|
  {
    if s == "" then 0
    else if s[0] == quote then 1
    else if s[0] == '\\' then (if |s| == 1 then 1 else 2 + QuoteLen(s[2..], quote))
    else 1 + QuoteLen(s[1..], quote)
  }

  /** The characters up to the next token or comment. */
  function OtherLen(s: string, comment: string): (r: nat)
    ensures r <= |s| && forall i :: 0 <= i < r ==> !IsIdent(s[i]) && !IsQuote(s[i])
  {
    if s == "" || IsIdent(s[0]) || IsQuote(s[0]) || StartsWith(s, comment) then 0
    else
      var r := OtherLen(s[1..], comment);
      assert forall i :: 0 < i < 1 + r ==> s[i] == s[1..][i - 1];
      1 + r
  }

  /** The first span of a text; `mid` says that an identifier character comes before it. */
  function First(s: string, mid: bool, l: Lang): (r: Span)
    requires s != ""
    ensures r.text != "" && r.text <= s
  {
    if StartsWith(s, l.comment) then Span(s, Comment)
    else if IsQuote(s[0]) then Span(s[..1 + QuoteLen(s[1..], s[0])], Literal)
    else if IsDigit(s[0]) && !mid then Span(s[..NumberLen(s)], Number)
    else if IsIdentStart(s[0]) then Word(s[..IdentLen(s)], l)
    else
      var n := OtherLen(s, l.comment);
      Span(s[..if n == 0 then 1 else n], Plain)
  }

  function Word(word: string, l: Lang): Span
    requires word != ""
  {
    Span(word, if word in l.keywords then Keyword else if IsUpper(word[0]) then Type else Plain)
  }

  function Spans(s: string, mid: bool, l: Lang): seq<Span>
    decreases |s|
  {
    if s == "" then []
    else
      var p := First(s, mid, l);
      [p] + Spans(s[|p.text|..], IsIdent(p.text[|p.text| - 1]), l)
  }

  function Highlighted(line: string, lang: string): seq<Span> {
    if line == "" then [Span("", Plain)] else Spans(line, false, LangOf(lang))
  }

  // --- as the program does it ---

  method ScanIdent(line: string, i: nat) returns (j: nat)
    requires i <= |line|
    ensures j == i + IdentLen(line[i..])
  {
    j := i;
    while j < |line| && IsIdent(line[j])
      invariant i <= j <= |line|
      invariant j - i + IdentLen(line[j..]) == IdentLen(line[i..])
    {
      assert line[j..][1..] == line[j + 1..];
      j := j + 1;
    }
  }

  method ScanNumber(line: string, i: nat) returns (j: nat)
    requires i <= |line|
    ensures j == i + NumberLen(line[i..])
  {
    j := i;
    while j < |line| && IsNumberChar(line[j])
      invariant i <= j <= |line|
      invariant j - i + NumberLen(line[j..]) == NumberLen(line[i..])
    {
      assert line[j..][1..] == line[j + 1..];
      j := j + 1;
    }
  }

  /** The position of the closing quote, or one beyond the line's end, or two when a backslash ends the line. */
  method ScanQuote(line: string, i: nat, quote: char) returns (j: nat)
    requires i < |line|
    ensures i < j && (if j + 1 <= |line| then j + 1 else |line|) == i + 1 + QuoteLen(line[i + 1..], quote)
  {
    j := i + 1;
    while j < |line| && line[j] != quote
      invariant i < j <= |line| + 1
      invariant j <= |line| ==> j - i - 1 + QuoteLen(line[j..], quote) == QuoteLen(line[i + 1..], quote)
      invariant j == |line| + 1 ==> QuoteLen(line[i + 1..], quote) == |line| - i - 1
      decreases |line| + 1 - j
    {
      if line[j] == '\\' {
        assert j + 1 < |line| ==> line[j..][2..] == line[j + 2..];
        j := j + 1;
      } else {
        assert line[j..][1..] == line[j + 1..];
      }
      j := j + 1;
    }
  }

  method ScanOther(line: string, i: nat, comment: string) returns (j: nat)
    requires i <= |line|
    ensures j == i + OtherLen(line[i..], comment)
  {
    j := i;
    while j < |line| && !IsIdent(line[j]) && !IsQuote(line[j]) && !StartsWith(line[j..], comment)
      invariant i <= j <= |line|
      invariant j - i + OtherLen(line[j..], comment) == OtherLen(line[i..], comment)
    {
      assert line[j..][1..] == line[j + 1..];
      j := j + 1;
    }
  }

  /** One turn of the loop that is not a comment: the span at a position and the position behind it. */
  method NextSpan(line: string, i: nat, l: Lang) returns (span: Span, next: nat)
    requires i < |line| && LangFits(l) && !StartsWith(line[i..], l.comment)
    ensures span == First(line[i..], i > 0 && IsIdent(line[i - 1]), l)
    ensures i < next && (if next <= |line| then next else |line|) == i + |span.text|
  {
    var ch := line[i];
    ghost var s := line[i..];
    if IsQuote(ch) {
      assert s[1..] == line[i + 1..];
      var j := ScanQuote(line, i, ch);
      var end := if j + 1 <= |line| then j + 1 else |line|;
      assert line[i..end] == s[..end - i];
      return Span(line[i..end], Literal), j + 1;
    }
    if IsDigit(ch) && (i == 0 || !IsIdent(line[i - 1])) {
      var j := ScanNumber(line, i);
      assert line[i..j] == s[..j - i];
      return Span(line[i..j], Number), j;
    }
    if IsIdentStart(ch) {
      var j := ScanIdent(line, i);
      assert line[i..j] == s[..j - i];
      return Word(line[i..j], l), j;
    }
    var j := ScanOther(line, i, l.comment);
    var end := if j > i then j else i + 1;
    assert line[i..end] == s[..end - i];
    return Span(line[i..end], Plain), end;
  }

  /** The spans from a position on. */
  ghost function From(line: string, i: nat, l: Lang): seq<Span> {
    if i < |line| then Spans(line[i..], i > 0 && IsIdent(line[i - 1]), l) else []
  }

  method HighlightCode(line: string, lang: string) returns (spans: seq<Span>)
    ensures spans == Highlighted(line, lang)
  {
    var l := LangOf(lang);
    spans := [];
    var i := 0;
    FromStart(line, l);
    WithEmpty(From(line, i, l));
    while i < |line|
      invariant spans + From(line, i, l) == Spans(line, false, l)
      decreases |line| - i
    {
      if StartsWith(line[i..], l.comment) {
        SpansEnd(line[i..], i > 0 && IsIdent(line[i - 1]), l);
        spans := spans + [Span(line[i..], Comment)];
        WithEmpty(spans);
        i := |line|;
        break;
      }
      var span, next := NextSpan(line, i, l);
      SpansPush(spans, line, i, l, span, next);
      spans := spans + [span];
      i := next;
    }
    WithEmpty(spans);
    SpansSome(line, false, l);
    if |spans| == 0 {
      spans := [Span(line, Plain)];
    }
  }

  /** One span more behind those that are there. */
  lemma SpansPush(spans: seq<Span>, line: string, i: nat, l: Lang, span: Span, next: nat)
    requires i < |line| && span == First(line[i..], i > 0 && IsIdent(line[i - 1]), l)
    requires (if next <= |line| then next else |line|) == i + |span.text|
    ensures (spans + [span]) + From(line, next, l) == spans + From(line, i, l)
  {
    FromNext(line, i, l, span, next);
    Regroup(spans, [span], From(line, next, l));
  }

  lemma FromStart(line: string, l: Lang)
    ensures From(line, 0, l) == Spans(line, false, l)
  {
    CutWhole(line);
    WithEmpty(Spans(line, false, l));
  }

  lemma FromNext(line: string, i: nat, l: Lang, span: Span, next: nat)
    requires i < |line| && span == First(line[i..], i > 0 && IsIdent(line[i - 1]), l)
    requires (if next <= |line| then next else |line|) == i + |span.text|
    ensures From(line, i, l) == [span] + From(line, next, l)
  {
    var k := i + |span.text|;
    var t, mid := line[k..], IsIdent(line[k - 1]);
    CutTwice(line, i, |span.text|, span.text);
    SpansStep(line[i..], i > 0 && IsIdent(line[i - 1]), l, span, t, mid);
    FromAt(line, k, l, next, t, mid);
  }

  lemma CutTwice(line: string, i: nat, n: nat, x: string)
    requires i + n <= |line| && n > 0 && |x| == n && x <= line[i..]
    ensures line[i..][n..] == line[i + n..] && x[n - 1] == line[i + n - 1]
  {
  }

  lemma FromAt(line: string, k: nat, l: Lang, next: nat, t: string, mid: bool)
    requires 0 < k <= |line| && (if next <= |line| then next else |line|) == k
    requires t == line[k..] && mid == IsIdent(line[k - 1])
    ensures From(line, next, l) == Spans(t, mid, l)
  {
    if next >= |line| {
      assert t == "";
      SpansSome(t, mid, l);
    }
  }

  lemma SpansStep(s: string, mid: bool, l: Lang, p: Span, t: string, after: bool)
    requires s != "" && p == First(s, mid, l) && t == s[|p.text|..] && after == IsIdent(p.text[|p.text| - 1])
    ensures Spans(s, mid, l) == [p] + Spans(t, after, l)
  {
  }

  lemma SpansEnd(s: string, mid: bool, l: Lang)
    requires s != "" && StartsWith(s, l.comment)
    ensures Spans(s, mid, l) == [Span(s, Comment)]
  {
    assert s[|s|..] == "";
  }

  lemma SpansSome(s: string, mid: bool, l: Lang)
    ensures Spans(s, mid, l) == [] <==> s == ""
  {
  }

  // --- properties ---

  predicate NoneEmpty(spans: seq<Span>) {
    forall i :: 0 <= i < |spans| ==> spans[i].text != ""
  }

  lemma JoinedFirst(p: Span, rest: seq<Span>)
    ensures Joined([p] + rest) == p.text + Joined(rest)
  {
    HeadAndRest(p, rest);
  }

  lemma {:induction false} SpansJoin(s: string, mid: bool, l: Lang)
    ensures Joined(Spans(s, mid, l)) == s && NoneEmpty(Spans(s, mid, l))
    decreases |s|
  {
    if s != "" {
      var p := First(s, mid, l);
      var t, after := s[|p.text|..], IsIdent(p.text[|p.text| - 1]);
      SpansJoin(t, after, l);
      SpansStep(s, mid, l, p, t, after);
      JoinedFirst(p, Spans(t, after, l));
    }
  }

  /** The spans of a line join to the line, and no span of a line that is not empty is empty. */
  lemma HighlightLossless(line: string, lang: string)
    ensures Joined(Highlighted(line, lang)) == line && Highlighted(line, lang) != []
    ensures line != "" ==> NoneEmpty(Highlighted(line, lang))
  {
    if line == "" {
      assert Highlighted(line, lang)[1..] == [];
    } else {
      SpansJoin(line, false, LangOf(lang));
      SpansSome(line, false, LangOf(lang));
    }
  }

  predicate AllIdent(s: string) {
    forall i :: 0 <= i < |s| ==> IsIdent(s[i])
  }

  predicate AllNumber(s: string) {
    forall i :: 0 <= i < |s| ==> IsNumberChar(s[i])
  }

  /** What the classes mean. */
  predicate ClassFits(p: Span, l: Lang) {
    p.text != "" &&
    match p.style
    case Comment => StartsWith(p.text, l.comment)
    case Literal => IsQuote(p.text[0])
    case Number => IsDigit(p.text[0]) && AllNumber(p.text)
    case Keyword => p.text in l.keywords && AllIdent(p.text) && !IsDigit(p.text[0])
    case Type => p.text !in l.keywords && AllIdent(p.text) && IsUpper(p.text[0])
    case Plain => p.text !in l.keywords || !AllIdent(p.text) || IsDigit(p.text[0])
    case _ => false
  }

  lemma FirstFits(s: string, mid: bool, l: Lang)
    requires s != ""
    ensures ClassFits(First(s, mid, l), l)
    ensures First(s, mid, l).style == Comment ==> First(s, mid, l).text == s
  {
    var p := First(s, mid, l);
    if p.style == Plain && !IsIdentStart(s[0]) {
      assert p.text[0] == s[0];
    }
  }

  /** Every span has the class its text calls for, and only the last one can be a comment. */
  lemma {:induction false} SpansFit(s: string, mid: bool, l: Lang, i: nat)
    requires i < |Spans(s, mid, l)|
    ensures ClassFits(Spans(s, mid, l)[i], l)
    ensures Spans(s, mid, l)[i].style == Comment ==> i == |Spans(s, mid, l)| - 1
    decreases |s|
  {
    var p := First(s, mid, l);
    FirstFits(s, mid, l);
    if i > 0 {
      SpansFit(s[|p.text|..], IsIdent(p.text[|p.text| - 1]), l, i - 1);
    } else if p.style == Comment {
      SpansEnd(s, mid, l);
    }
  }
}
