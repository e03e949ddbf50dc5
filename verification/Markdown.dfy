/** The line-based model of markdown prose (packages/tui/src/markdown.ts:186-256). */
module Markdown {
  import opened Wrappers
  import opened Text
  import opened Seqs
  import opened Highlight
  import opened Inline

  datatype Kind = Heading | Quote | Bullet | CodeLine | CodeAdd | CodeDel | CodeMeta | Blank | Prose

  datatype Line = Line(kind: Kind, spans: seq<Span>, marker: Option<string>)

  // --- the patterns of a line ---

  function SpaceLen(s: string): (r: nat)
    ensures r <= |s|
  {
    if s == "" || !IsSpace(s[0]) then 0 else 1 + SpaceLen(s[1..])
  }

  /** `^\s{0,3}` in front of something that is not a space. */
  function Indented(raw: string): Option<string> {
    if SpaceLen(raw) <= 3 then Some(raw[SpaceLen(raw)..]) else None
  }

  /** `\s+(.*)$` and `\s?(.*)$`: what follows the spaces, unless a line terminator is in it. */
  function SpacedRest(s: string): Option<string> {
    if SpaceLen(s) > 0 && Unbroken(s[SpaceLen(s)..]) then Some(s[SpaceLen(s)..]) else None
  }

  function MaybeSpacedRest(s: string): Option<string> {
    var t := if s != "" && IsSpace(s[0]) then s[1..] else s;
    if Unbroken(t) then Some(t) else None
  }

  function RepeatLen(s: string, c: char): (r: nat)
    ensures r <= |s|
  {
    if s == "" || s[0] != c then 0 else 1 + RepeatLen(s[1..], c)
  }

  function DigitLen(s: string): (r: nat)
    ensures r <= |s|
  {
    if s == "" || !IsDigit(s[0]) then 0 else 1 + DigitLen(s[1..])
  }

  function HeadingText(t: string): Option<string> {
    var n := RepeatLen(t, '#');
    if 1 <= n <= 6 then SpacedRest(t[n..]) else None
  }

  function QuoteText(t: string): Option<string> {
    if t != "" && t[0] == '>' then MaybeSpacedRest(t[1..]) else None
  }

  /** The number and the text. */
  function OrderedText(t: string): Option<(string, string)> {
    var n := DigitLen(t);
    if 1 <= n <= 3 && n < |t| && t[n] == '.' && SpacedRest(t[n + 1..]).Some? then
      Some((t[..n], SpacedRest(t[n + 1..]).value))
    else None
  }

  function BulletText(t: string): Option<string> {
    if t != "" && (t[0] == '-' || t[0] == '*' || t[0] == '+') then SpacedRest(t[1..]) else None
  }

  predicate IsLangChar(c: char) {
    IsWord(c) || c == '+' || c == '-'
  }

  function LangLen(s: string): (r: nat)
    ensures r <= |s|
  {
    if s == "" || !IsLangChar(s[0]) then 0 else 1 + LangLen(s[1..])
  }

  const TICKS := "```"
  const TILDES := "~~~"

  /** The language of a fence line. */
  function FenceText(t: string): Option<string> {
    if StartsWith(t, TICKS) || StartsWith(t, TILDES) then
      var u := TrimStart(t[3..]);
      var n := LangLen(u);
      if TrimStart(u[n..]) == "" then Some(u[..n]) else None
    else None
  }

  function Fence(raw: string): Option<string> {
    match Indented(raw)
    case None => None
    case Some(t) => FenceText(t)
  }

  // --- one line ---

  /** `lang` is the language of the open fence, if one is open. */
  type State = Option<string>

  const DIFF := "diff"
  const PATCH := "patch"
  const META := "@@"
  const DOT := "."
  const BULLET := "\U{2022}"

  function Fenced(raw: string, lang: string): Line {
    if lang == DIFF || lang == PATCH then
      Line(if raw != "" && raw[0] == '+' then CodeAdd
           else if raw != "" && raw[0] == '-' then CodeDel
           else if StartsWith(raw, META) then CodeMeta
           else CodeLine,
           [Span(raw, Plain)], None)
    else Line(CodeLine, Highlighted(raw, lang), None)
  }

  function Indent(t: string): Option<Line> {
    if HeadingText(t).Some? then Some(Line(Heading, InlineSpans(HeadingText(t).value), None))
    else if QuoteText(t).Some? then Some(Line(Quote, InlineSpans(QuoteText(t).value), None))
    else if OrderedText(t).Some? then
      Some(Line(Bullet, InlineSpans(OrderedText(t).value.1), Some(OrderedText(t).value.0 + DOT)))
    else if BulletText(t).Some? then Some(Line(Bullet, InlineSpans(BulletText(t).value), Some(BULLET)))
    else None
  }

  function Styled(raw: string): Line {
    if Trim(raw) == "" then Line(Blank, [Span("", Plain)], None)
    else
      var marked := if Indented(raw).Some? then Indent(Indented(raw).value) else None;
      if marked.Some? then marked.value else Line(Prose, InlineSpans(raw), None)
  }

  function NextState(st: State, lang: string): State {
    if st.Some? then None else Some(LowerAll(lang))
  }

  /** The state behind a line. */
  function NextOf(st: State, raw: string): State {
    match Fence(raw)
    case None => st
    case Some(lang) => NextState(st, lang)
  }

  /** What a line gives: nothing for the fence itself. */
  function LineOf(st: State, raw: string): seq<Line> {
    if Fence(raw).Some? then [] else [if st.Some? then Fenced(raw, st.value) else Styled(raw)]
  }

  function LinesFrom(st: State, raws: seq<string>): seq<Line>
    decreases |raws|
  {
    if raws == [] then [] else LineOf(st, raws[0]) + LinesFrom(NextOf(st, raws[0]), raws[1..])
  }

  function StateAfter(st: State, raws: seq<string>): State
    decreases |raws|
  {
    if raws == [] then st else StateAfter(NextOf(st, raws[0]), raws[1..])
  }

  function DropBlanks(lines: seq<Line>): seq<Line> {
    if lines != [] && lines[0].kind == Blank then DropBlanks(lines[1..]) else lines
  }

  function CutBlanks(lines: seq<Line>): seq<Line> {
    if lines != [] && lines[|lines| - 1].kind == Blank then CutBlanks(lines[..|lines| - 1]) else lines
  }

  function Parsed(text: string): seq<Line> {
    CutBlanks(DropBlanks(LinesFrom(None, Lines(text))))
  }

  // --- as the program does it ---

  method StyleLine(raw: string) returns (line: Line)
    ensures line == Styled(raw)
  {
    if Trim(raw) == "" {
      return Line(Blank, [Span("", Plain)], None);
    }
    var t := Indented(raw);
    if t.Some? {
      var heading := HeadingText(t.value);
      if heading.Some? {
        return Line(Heading, InlineSpans(heading.value), None);
      }
      var quote := QuoteText(t.value);
      if quote.Some? {
        return Line(Quote, InlineSpans(quote.value), None);
      }
      var ordered := OrderedText(t.value);
      if ordered.Some? {
        return Line(Bullet, InlineSpans(ordered.value.1), Some(ordered.value.0 + DOT));
      }
      var bullet := BulletText(t.value);
      if bullet.Some? {
        return Line(Bullet, InlineSpans(bullet.value), Some(BULLET));
      }
    }
    return Line(Prose, InlineSpans(raw), None);
  }

  function StateOf(inFence: bool, fenceLang: string): State {
    if inFence then Some(fenceLang) else None
  }

  /** One turn of the loop. */
  method ParseLine(inFence: bool, fenceLang: string, raw: string)
    returns (inFence': bool, fenceLang': string, lines: seq<Line>)
    ensures StateOf(inFence', fenceLang') == NextOf(StateOf(inFence, fenceLang), raw)
    ensures lines == LineOf(StateOf(inFence, fenceLang), raw)
  {
    inFence', fenceLang', lines := inFence, fenceLang, [];
    var fence := Fence(raw);
    if fence.Some? {
      inFence' := !inFence;
      fenceLang' := if inFence' then LowerAll(fence.value) else "";
    } else if inFence {
      lines := [Fenced(raw, fenceLang)];
    } else {
      var line := StyleLine(raw);
      lines := [line];
    }
  }

  lemma LinesFromStep(st: State, raws: seq<string>, i: nat, out: seq<Line>)
    requires i < |raws|
    ensures out + LinesFrom(st, raws[i..])
         == (out + LineOf(st, raws[i])) + LinesFrom(NextOf(st, raws[i]), raws[i + 1..])
  {
    var raw, rest := raws[i], raws[i + 1..];
    CutAt(raws, i);
    LinesFromFirst(st, raw, rest);
    Regroup(out, LineOf(st, raw), LinesFrom(NextOf(st, raw), rest));
  }

  lemma LinesFromEnd(st: State, raws: seq<string>, out: seq<Line>)
    ensures out + LinesFrom(st, raws[|raws|..]) == out
  {
    CutWhole(raws);
    WithEmpty(out);
  }

  method ParseMarkdown(text: string) returns (out: seq<Line>)
    ensures out == Parsed(text)
  {
    out := [];
    var inFence, fenceLang := false, "";
    var raws := Lines(text);
    CutWhole(raws);
    WithEmpty(LinesFrom(None, raws));
    for i := 0 to |raws|
      invariant out + LinesFrom(StateOf(inFence, fenceLang), raws[i..]) == LinesFrom(None, raws)
    {
      LinesFromStep(StateOf(inFence, fenceLang), raws, i, out);
      var lines: seq<Line>;
      inFence, fenceLang, lines := ParseLine(inFence, fenceLang, raws[i]);
      out := out + lines;
    }
    LinesFromEnd(StateOf(inFence, fenceLang), raws, out);
    out := TrimBlanks(out);
  }

  method TrimBlanks(lines: seq<Line>) returns (out: seq<Line>)
    ensures out == CutBlanks(DropBlanks(lines))
  {
    out := lines;
    while |out| > 0 && out[0].kind == Blank
      invariant DropBlanks(out) == DropBlanks(lines)
      decreases |out|
    {
      out := out[1..];
    }
    while |out| > 0 && out[|out| - 1].kind == Blank
      invariant CutBlanks(out) == CutBlanks(DropBlanks(lines))
      decreases |out|
    {
      out := out[..|out| - 1];
    }
  }

  // --- streaming ---

  lemma LinesFromFirst(st: State, raw: string, rest: seq<string>)
    ensures LinesFrom(st, [raw] + rest) == LineOf(st, raw) + LinesFrom(NextOf(st, raw), rest)
  {
    HeadAndRest(raw, rest);
  }

  /** One line more at the front; `back` is what the lines behind `x` give. */
  lemma LinesFromCons(st: State, next: State, raw: string, x: seq<string>, y: seq<string>, back: seq<Line>)
    requires next == NextOf(st, raw) && LinesFrom(next, x + y) == LinesFrom(next, x) + back
    ensures LinesFrom(st, [raw] + (x + y)) == LinesFrom(st, [raw] + x) + back
  {
    LinesFromFirst(st, raw, x + y);
    LinesFromFirst(st, raw, x);
    Regroup(LineOf(st, raw), LinesFrom(next, x), back);
  }

  lemma {:induction false} LinesFromConcat(st: State, a: seq<string>, b: seq<string>)
    ensures LinesFrom(st, a + b) == LinesFrom(st, a) + LinesFrom(StateAfter(st, a), b)
    decreases |a|
  {
    if a == [] {
      WithEmpty(b);
      WithEmpty(LinesFrom(st, b));
    } else {
      var raw, rest := a[0], a[1..];
      var next := NextOf(st, raw);
      Headed(a);
      Regroup([raw], rest, b);
      LinesFromConcat(next, rest, b);
      LinesFromCons(st, next, raw, rest, b, LinesFrom(StateAfter(next, rest), b));
    }
  }

  lemma {:induction false} DropBlanksPrefix(a: seq<Line>, b: seq<Line>)
    ensures DropBlanks(a) != [] ==> DropBlanks(a + b) == DropBlanks(a) + b
    decreases |a|
  {
    if a != [] {
      assert (a + b)[0] == a[0] && (a + b)[1..] == a[1..] + b;
      if a[0].kind == Blank {
        DropBlanksPrefix(a[1..], b);
      }
    }
  }

  lemma {:induction false} CutBlanksPrefix(a: seq<Line>)
    ensures CutBlanks(a) <= a && (CutBlanks(a) != [] ==> CutBlanks(a)[|CutBlanks(a)| - 1].kind != Blank)
  {
    if a != [] && a[|a| - 1].kind == Blank {
      CutBlanksPrefix(a[..|a| - 1]);
    }
  }

  lemma {:induction false} CutBlanksKeeps(a: seq<Line>, k: nat)
    requires 0 < k <= |a| && a[k - 1].kind != Blank
    ensures a[..k] <= CutBlanks(a)
    decreases |a|
  {
    if a[|a| - 1].kind == Blank {
      CutBlanksKeeps(a[..|a| - 1], k);
      assert a[..|a| - 1][..k] == a[..k];
    }
  }

  lemma CutMore(a: seq<Line>, b: seq<Line>)
    ensures CutBlanks(a) <= CutBlanks(a + b)
  {
    CutBlanksPrefix(a);
    var k := |CutBlanks(a)|;
    if k > 0 {
      assert (a + b)[..k] == CutBlanks(a);
      CutBlanksKeeps(a + b, k);
    }
  }

  /** What has been parsed stays when more lines arrive, even inside an open fence. */
  lemma StreamingStable(a: string, b: string)
    ensures Parsed(a) <= Parsed(a + NL + b)
  {
    LinesOfTwo(a, b);
    LinesFromConcat(None, Lines(a), Lines(b));
    var x, y := LinesFrom(None, Lines(a)), LinesFrom(StateAfter(None, Lines(a)), Lines(b));
    DropBlanksPrefix(x, y);
    if DropBlanks(x) != [] {
      CutMore(DropBlanks(x), y);
    }
  }

  // --- every line keeps its text ---

  /** `x` is what follows the marker of the text. */
  predicate AfterMarker(t: string, x: string) {
    || HeadingText(t) == Some(x)
    || QuoteText(t) == Some(x)
    || (OrderedText(t).Some? && OrderedText(t).value.1 == x)
    || BulletText(t) == Some(x)
  }

  lemma AfterMarkerEnds(t: string, x: string)
    requires AfterMarker(t, x)
    ensures EndsWith(t, x)
  {
    if HeadingText(t) == Some(x) {
    } else if QuoteText(t) == Some(x) {
    } else if BulletText(t) == Some(x) {
    } else {
      OrderedEnds(t);
    }
  }

  lemma OrderedEnds(t: string)
    requires OrderedText(t).Some?
    ensures EndsWith(t, OrderedText(t).value.1)
  {
  }

  lemma IndentSpans(t: string) returns (x: string)
    requires Indent(t).Some?
    ensures AfterMarker(t, x) && Indent(t).value.spans == InlineSpans(x)
  {
    x := if HeadingText(t).Some? then HeadingText(t).value
         else if QuoteText(t).Some? then QuoteText(t).value
         else if OrderedText(t).Some? then OrderedText(t).value.1
         else BulletText(t).value;
  }

  lemma IndentKeepsText(t: string)
    requires Indent(t).Some?
    ensures EndsWith(t, AllMarked(Indent(t).value.spans))
  {
    var x := IndentSpans(t);
    AfterMarkerEnds(t, x);
    InlineLossless(x);
  }

  /** The line a text is recognised as by its marker. */
  predicate HasMarker(raw: string) {
    Trim(raw) != "" && Indented(raw).Some? && Indent(Indented(raw).value).Some?
  }

  lemma StyledCases(raw: string)
    ensures Trim(raw) == "" ==> Styled(raw) == Line(Blank, [Span("", Plain)], None)
    ensures HasMarker(raw) ==> Styled(raw) == Indent(Indented(raw).value).value
    ensures Trim(raw) != "" && !HasMarker(raw) ==> Styled(raw) == Line(Prose, InlineSpans(raw), None)
  {
  }

  lemma IndentKinds(t: string)
    requires Indent(t).Some?
    ensures Indent(t).value.kind == Heading || Indent(t).value.kind == Quote || Indent(t).value.kind == Bullet
  {
  }

  /** Outside fences a line ends with the text of its spans, markers put back; plain prose is all of it. */
  lemma StyledKeepsText(raw: string)
    ensures EndsWith(raw, AllMarked(Styled(raw).spans))
    ensures Styled(raw).kind == Prose ==> AllMarked(Styled(raw).spans) == raw
    ensures Styled(raw).kind == Blank <==> Trim(raw) == ""
  {
    StyledCases(raw);
    if Trim(raw) == "" {
      assert AllMarked([Span("", Plain)]) == "";
    } else if HasMarker(raw) {
      IndentKeepsText(Indented(raw).value);
      IndentKinds(Indented(raw).value);
    } else {
      InlineLossless(raw);
    }
  }

  /** Inside a fence a line is exactly the texts of its spans. */
  lemma FencedKeepsText(raw: string, lang: string)
    ensures Joined(Fenced(raw, lang).spans) == raw
  {
    HighlightLossless(raw, lang);
    assert Joined([Span(raw, Plain)]) == raw + Joined([]);
  }
}
