/**
 Which lines are headings, quotes, list entries and fences, told without the patterns
 (packages/tui/src/markdown.ts:75-79, 186-256).
 */
module MarkdownForms {
  import opened Wrappers
  import opened Text
  import opened Seqs
  import opened Highlight
  import opened Inline
  import opened Markdown

  /** Text on one line that does not start with a space. */
  predicate IsContent(x: string) {
    Unbroken(x) && (x == "" || !IsSpace(x[0]))
  }

  predicate AllAre(s: string, c: char) {
    forall i :: 0 <= i < |s| ==> s[i] == c
  }

  predicate AllDecimal(s: string) {
    forall i :: 0 <= i < |s| ==> '0' <= s[i] <= '9'
  }

  /** Something, space, and content. */
  predicate IsSpaced(t: string, front: string, gap: string, x: string) {
    t == front + (gap + x) && gap != "" && AllSpace(gap) && IsContent(x)
  }

  ghost predicate IsHeading(t: string, x: string) {
    exists hashes, gap :: IsSpaced(t, hashes, gap, x) && 1 <= |hashes| <= 6 && AllAre(hashes, '#')
  }

  /** One space behind the mark is left out, if there is any. */
  ghost predicate IsQuote(t: string, x: string) {
    exists space :: IsQuoted(t, space, x)
  }

  predicate IsQuoted(t: string, space: string, x: string) {
    && t == ">" + (space + x) && |space| <= 1 && AllSpace(space) && Unbroken(x)
    && (space == "" ==> x == "" || !IsSpace(x[0]))
  }

  ghost predicate IsNumbered(t: string, number: string, x: string) {
    exists gap :: IsSpaced(t, number + ".", gap, x) && 1 <= |number| <= 3 && AllDecimal(number)
  }

  ghost predicate IsBullet(t: string, x: string) {
    exists mark, gap :: IsSpaced(t, mark, gap, x) && (mark == "-" || mark == "*" || mark == "+")
  }

  // --- spaces ---

  lemma {:induction false} SpaceLenIs(gap: string, x: string)
    requires AllSpace(gap) && (x == "" || !IsSpace(x[0]))
    ensures SpaceLen(gap + x) == |gap|
  {
    if gap == "" {
      WithEmpty(x);
    } else {
      assert (gap + x)[1..] == gap[1..] + x;
      SpaceLenIs(gap[1..], x);
    }
  }

  lemma {:induction false} SpaceLenCuts(s: string)
    ensures AllSpace(s[..SpaceLen(s)])
    ensures s[SpaceLen(s)..] == "" || !IsSpace(s[SpaceLen(s)..][0])
  {
    if s != "" && IsSpace(s[0]) {
      SpaceLenCuts(s[1..]);
      assert s[1..][SpaceLen(s[1..])..] == s[SpaceLen(s)..];
      assert s[..SpaceLen(s)] == [s[0]] + s[1..][..SpaceLen(s[1..])];
    }
  }

  lemma SpacedIff(s: string, x: string)
    ensures SpacedRest(s) == Some(x)
       <==> exists gap :: gap != "" && AllSpace(gap) && IsContent(x) && s == gap + x
  {
    if SpacedRest(s) == Some(x) {
      SpaceLenCuts(s);
      CutInTwo(s, SpaceLen(s));
      var gap := s[..SpaceLen(s)];
      assert gap != "" && AllSpace(gap) && IsContent(x) && s == gap + x;
    }
    if gap :| gap != "" && AllSpace(gap) && IsContent(x) && s == gap + x {
      SpaceLenIs(gap, x);
      assert s[|gap|..] == x;
    }
  }

  // --- headings ---

  lemma {:induction false} RepeatIs(hashes: string, rest: string, c: char)
    requires AllAre(hashes, c) && (rest == "" || rest[0] != c)
    ensures RepeatLen(hashes + rest, c) == |hashes|
  {
    if hashes == "" {
      WithEmpty(rest);
    } else {
      assert (hashes + rest)[1..] == hashes[1..] + rest;
      RepeatIs(hashes[1..], rest, c);
    }
  }

  lemma {:induction false} RepeatCuts(s: string, c: char)
    ensures AllAre(s[..RepeatLen(s, c)], c)
  {
    if s != "" && s[0] == c {
      RepeatCuts(s[1..], c);
      assert s[..RepeatLen(s, c)] == [s[0]] + s[1..][..RepeatLen(s[1..], c)];
    }
  }

  lemma HeadingIff(t: string, x: string)
    ensures HeadingText(t) == Some(x) <==> IsHeading(t, x)
  {
    var n := RepeatLen(t, '#');
    if HeadingText(t) == Some(x) {
      RepeatCuts(t, '#');
      CutInTwo(t, n);
      SpacedIff(t[n..], x);
      var gap :| gap != "" && AllSpace(gap) && IsContent(x) && t[n..] == gap + x;
      assert IsSpaced(t, t[..n], gap, x);
    }
    if hashes, gap :| IsSpaced(t, hashes, gap, x) && 1 <= |hashes| <= 6 && AllAre(hashes, '#') {
      assert (gap + x)[0] == gap[0] && !IsSpace('#');
      RepeatIs(hashes, gap + x, '#');
      assert t[|hashes|..] == gap + x;
      SpacedIff(gap + x, x);
    }
  }

  // --- quotes ---

  lemma QuoteIff(t: string, x: string)
    ensures QuoteText(t) == Some(x) <==> IsQuote(t, x)
  {
    if QuoteText(t) == Some(x) {
      var s := t[1..];
      var space := if s != "" && IsSpace(s[0]) then s[..1] else "";
      assert t == ">" + s;
      assert s == space + x;
      assert IsQuoted(t, space, x);
    }
    if space :| IsQuoted(t, space, x) {
      assert t[1..] == space + x;
      if space == "" {
        WithEmpty(x);
      } else {
        assert (space + x)[1..] == x && (space + x)[0] == space[0];
      }
    }
  }

  // --- lists ---

  lemma {:induction false} DigitsIs(number: string, rest: string)
    requires AllDecimal(number) && (rest == "" || !IsDigit(rest[0]))
    ensures DigitLen(number + rest) == |number|
  {
    if number == "" {
      WithEmpty(rest);
    } else {
      assert (number + rest)[1..] == number[1..] + rest;
      DigitsIs(number[1..], rest);
    }
  }

  lemma {:induction false} DigitsCut(s: string)
    ensures AllDecimal(s[..DigitLen(s)])
  {
    if s != "" && IsDigit(s[0]) {
      DigitsCut(s[1..]);
      assert s[..DigitLen(s)] == [s[0]] + s[1..][..DigitLen(s[1..])];
    }
  }

  lemma NumberedIff(t: string, number: string, x: string)
    ensures OrderedText(t) == Some((number, x)) <==> IsNumbered(t, number, x)
  {
    if OrderedText(t) == Some((number, x)) {
      NumberedParts(t, number, x);
    }
    if gap :| IsSpaced(t, number + ".", gap, x) && 1 <= |number| <= 3 && AllDecimal(number) {
      NumberedRead(t, number, gap, x);
    }
  }

  lemma NumberedParts(t: string, number: string, x: string)
    requires OrderedText(t) == Some((number, x))
    ensures IsNumbered(t, number, x)
  {
    var n := DigitLen(t);
    DigitsCut(t);
    SpacedIff(t[n + 1..], x);
    var gap :| gap != "" && AllSpace(gap) && IsContent(x) && t[n + 1..] == gap + x;
    assert t == (t[..n] + ".") + t[n + 1..];
    assert IsSpaced(t, number + ".", gap, x);
  }

  lemma NumberedRead(t: string, number: string, gap: string, x: string)
    requires IsSpaced(t, number + ".", gap, x) && 1 <= |number| <= 3 && AllDecimal(number)
    ensures OrderedText(t) == Some((number, x))
  {
    var rest := "." + (gap + x);
    Regroup(number, ".", gap + x);
    DigitsIs(number, rest);
    assert t[|number|] == '.' && t[..|number|] == number && t[|number| + 1..] == gap + x;
    SpacedIff(gap + x, x);
  }

  lemma BulletIff(t: string, x: string)
    ensures BulletText(t) == Some(x) <==> IsBullet(t, x)
  {
    if BulletText(t) == Some(x) {
      SpacedIff(t[1..], x);
      var gap :| gap != "" && AllSpace(gap) && IsContent(x) && t[1..] == gap + x;
      Headed(t);
      assert IsSpaced(t, [t[0]], gap, x);
    }
    if mark, gap :| IsSpaced(t, mark, gap, x) && (mark == "-" || mark == "*" || mark == "+") {
      assert t[0] == mark[0] && t[1..] == gap + x;
      SpacedIff(gap + x, x);
    }
  }

  // --- fences ---

  predicate AllLang(s: string) {
    forall i :: 0 <= i < |s| ==> IsWord(s[i]) || s[i] == '+' || s[i] == '-'
  }

  /** Three back ticks or tildes, maybe a language, and nothing else but space. */
  predicate IsFenceOf(t: string, mark: string, gap: string, lang: string, end: string) {
    && t == mark + (gap + (lang + end)) && (mark == "```" || mark == "~~~")
    && AllSpace(gap) && AllLang(lang) && AllSpace(end)
  }

  ghost predicate IsFence(t: string, lang: string) {
    exists mark, gap, end :: IsFenceOf(t, mark, gap, lang, end)
  }

  lemma {:induction false} LangIs(lang: string, end: string)
    requires AllLang(lang) && AllSpace(end)
    ensures LangLen(lang + end) == |lang|
  {
    if lang == "" {
      WithEmpty(end);
    } else {
      assert (lang + end)[1..] == lang[1..] + end;
      LangIs(lang[1..], end);
    }
  }

  lemma {:induction false} LangCuts(s: string)
    ensures AllLang(s[..LangLen(s)])
  {
    if s != "" && IsLangChar(s[0]) {
      LangCuts(s[1..]);
      assert s[..LangLen(s)] == [s[0]] + s[1..][..LangLen(s[1..])];
    }
  }

  lemma FenceRead(t: string, mark: string, gap: string, lang: string, end: string)
    requires IsFenceOf(t, mark, gap, lang, end)
    ensures FenceText(t) == Some(lang)
  {
    assert t[3..] == gap + (lang + end) && StartsWith(t, mark);
    WithEmpty(end);
    SpaceSkipped(end, "");
    if lang == "" {
      WithEmpty(gap + end);
      Regroup(gap, end, "");
      SpaceSkipped(gap + end, "");
    } else {
      assert (lang + end)[0] == lang[0];
      SpaceSkipped(gap, lang + end);
      LangIs(lang, end);
      assert (lang + end)[..|lang|] == lang && (lang + end)[|lang|..] == end;
    }
  }

  lemma FenceParts(t: string, lang: string)
    requires FenceText(t) == Some(lang)
    ensures IsFence(t, lang)
  {
    var gap := SpaceCut(t[3..]);
    var u := TrimStart(t[3..]);
    LangCuts(u);
    var end := u[|lang|..];
    var all := SpaceCut(end);
    WithEmpty(all);
    CutInTwo(u, |lang|);
    CutInTwo(t, 3);
    assert IsFenceOf(t, t[..3], gap, lang, end);
  }

  lemma FenceIff(t: string, lang: string)
    ensures FenceText(t) == Some(lang) <==> IsFence(t, lang)
  {
    if FenceText(t) == Some(lang) {
      FenceParts(t, lang);
    }
    if mark, gap, end :| IsFenceOf(t, mark, gap, lang, end) {
      FenceRead(t, mark, gap, lang, end);
    }
  }

  // --- whole lines ---

  /** The space in front of a line and the rest of it. */
  predicate IsCut(raw: string, indent: string, t: string) {
    raw == indent + t && AllSpace(indent) && (t == "" || !IsSpace(t[0]))
  }

  lemma EveryLineCuts(raw: string) returns (indent: string, t: string)
    ensures IsCut(raw, indent, t)
  {
    indent := SpaceCut(raw);
    t := TrimStart(raw);
  }

  lemma IndentedIs(raw: string, indent: string, t: string)
    requires IsCut(raw, indent, t)
    ensures Indented(raw) == if |indent| <= 3 then Some(t) else None
  {
    SpaceLenIs(indent, t);
    assert raw[|indent|..] == t;
  }

  lemma {:induction false} TrimEndKeeps(t: string)
    requires t != "" && !IsSpace(t[0])
    ensures TrimEnd(t) != ""
  {
    if IsSpace(t[|t| - 1]) {
      TrimEndKeeps(t[..|t| - 1]);
    }
  }

  lemma BlankIff(raw: string, indent: string, t: string)
    requires IsCut(raw, indent, t)
    ensures Trim(raw) == "" <==> t == ""
  {
    SpaceSkipped(indent, t);
    if t != "" {
      TrimEndKeeps(t);
    }
  }

  /** A fence line, indented by three at most, with its language. */
  ghost predicate IsFenceLine(raw: string, lang: string) {
    exists indent, t :: IsCut(raw, indent, t) && |indent| <= 3 && IsFence(t, lang)
  }

  lemma FenceLineIff(raw: string, lang: string)
    ensures Fence(raw) == Some(lang) <==> IsFenceLine(raw, lang)
  {
    var indent, t := EveryLineCuts(raw);
    IndentedIs(raw, indent, t);
    FenceIff(t, lang);
    if i, u :| IsCut(raw, i, u) && |i| <= 3 && IsFence(u, lang) {
      IndentedIs(raw, i, u);
    }
  }

  ghost predicate HasMark(t: string, x: string, number: string) {
    IsHeading(t, x) || IsQuote(t, x) || IsNumbered(t, number, x) || IsBullet(t, x)
  }

  ghost predicate IsMarked(t: string) {
    exists x, number :: HasMark(t, x, number)
  }

  lemma MarkFound(t: string, x: string, number: string)
    requires HasMark(t, x, number)
    ensures Indent(t).Some?
  {
    HeadingIff(t, x);
    QuoteIff(t, x);
    NumberedIff(t, number, x);
    BulletIff(t, x);
  }

  lemma HeadingStarts(t: string)
    ensures HeadingText(t).Some? ==> t != "" && t[0] == '#'
    ensures QuoteText(t).Some? ==> t != "" && t[0] == '>'
    ensures OrderedText(t).Some? ==> t != "" && IsDigit(t[0])
    ensures BulletText(t).Some? ==> t != "" && t[0] in "-*+"
  {
  }

  lemma MarkedIff(t: string)
    ensures IsMarked(t) <==> Indent(t).Some?
  {
    if Indent(t).Some? {
      if HeadingText(t).Some? {
        HeadingIff(t, HeadingText(t).value);
        assert HasMark(t, HeadingText(t).value, "");
      } else if QuoteText(t).Some? {
        QuoteIff(t, QuoteText(t).value);
        assert HasMark(t, QuoteText(t).value, "");
      } else if OrderedText(t).Some? {
        NumberedIff(t, OrderedText(t).value.0, OrderedText(t).value.1);
        assert HasMark(t, OrderedText(t).value.1, OrderedText(t).value.0);
      } else {
        BulletIff(t, BulletText(t).value);
        assert HasMark(t, BulletText(t).value, "");
      }
    }
    if x, number :| HasMark(t, x, number) {
      MarkFound(t, x, number);
    }
  }

  /** What is shown of a line outside of fences that carries this mark. */
  lemma MarkShown(t: string, x: string, number: string)
    ensures IsHeading(t, x) ==> Indent(t) == Some(Line(Heading, InlineSpans(x), None))
    ensures IsQuote(t, x) ==> Indent(t) == Some(Line(Quote, InlineSpans(x), None))
    ensures IsNumbered(t, number, x) ==> Indent(t) == Some(Line(Bullet, InlineSpans(x), Some(number + ".")))
    ensures IsBullet(t, x) ==> Indent(t) == Some(Line(Bullet, InlineSpans(x), Some("\U{2022}")))
  {
    HeadingStarts(t);
    HeadingIff(t, x);
    QuoteIff(t, x);
    NumberedIff(t, number, x);
    BulletIff(t, x);
  }

  /**
   A line outside of fences is blank without text; it is a heading, a quote, a numbered entry or a bullet, with the
   inline runs of what follows its mark, if it carries that mark behind at most three spaces; else it is prose.
   */
  lemma StyledExactly(raw: string, indent: string, t: string, x: string, number: string)
    requires IsCut(raw, indent, t)
    ensures t == "" ==> Styled(raw) == Line(Blank, [Span("", Plain)], None)
    ensures |indent| <= 3 && IsHeading(t, x) ==> Styled(raw) == Line(Heading, InlineSpans(x), None)
    ensures |indent| <= 3 && IsQuote(t, x) ==> Styled(raw) == Line(Quote, InlineSpans(x), None)
    ensures |indent| <= 3 && IsNumbered(t, number, x)
        ==> Styled(raw) == Line(Bullet, InlineSpans(x), Some(number + "."))
    ensures |indent| <= 3 && IsBullet(t, x) ==> Styled(raw) == Line(Bullet, InlineSpans(x), Some("\U{2022}"))
    ensures t != "" && (|indent| > 3 || !IsMarked(t)) ==> Styled(raw) == Line(Prose, InlineSpans(raw), None)
  {
    IndentedIs(raw, indent, t);
    BlankIff(raw, indent, t);
    MarkedIff(t);
    MarkShown(t, x, number);
    StyledCases(raw);
    HeadingStarts(t);
    assert t == "" ==> Indent(t) == None;
  }

  // --- fences over a text ---

  function FenceCount(raws: seq<string>): nat {
    if raws == [] then 0
    else
      var n := |raws| - 1;
      FenceCount(raws[..n]) + if Fence(raws[n]).Some? then 1 else 0
  }

  /** The language of the last fence line. */
  function LastLang(raws: seq<string>): string {
    if raws == [] then ""
    else
      var n := |raws| - 1;
      if Fence(raws[n]).Some? then Fence(raws[n]).value else LastLang(raws[..n])
  }

  /** A line of code: in a diff its first characters say what it is, else it is highlighted. */
  function CodeOf(raw: string, lang: string): Line {
    if lang == "diff" || lang == "patch" then
      Line(if raw != "" && raw[0] == '+' then CodeAdd
           else if raw != "" && raw[0] == '-' then CodeDel
           else if |raw| > 1 && raw[0] == '@' && raw[1] == '@' then CodeMeta
           else CodeLine,
           [Span(raw, Plain)], None)
    else Line(CodeLine, Highlighted(raw, lang), None)
  }

  /** The lines shown: none for a fence line; a line is code if an odd number of fence lines is in front of it. */
  function Shown(raws: seq<string>): seq<Line> {
    if raws == [] then []
    else
      var n := |raws| - 1;
      Shown(raws[..n])
      + if Fence(raws[n]).Some? then []
        else if FenceCount(raws[..n]) % 2 == 1 then [CodeOf(raws[n], LowerAll(LastLang(raws[..n])))]
        else [Styled(raws[n])]
  }

  lemma CodeIsFenced(raw: string, lang: string)
    ensures Fenced(raw, lang) == CodeOf(raw, lang)
  {
    if |raw| > 1 {
      assert raw[..2] == [raw[0], raw[1]];
    }
  }

  lemma {:induction false} StateAfterLast(st: State, raws: seq<string>, n: nat)
    requires n == |raws| - 1
    ensures StateAfter(st, raws) == NextOf(StateAfter(st, raws[..n]), raws[n])
    decreases |raws|
  {
    if n > 0 {
      StateAfterLast(NextOf(st, raws[0]), raws[1..], n - 1);
      assert raws[1..][..n - 1] == raws[..n][1..];
    }
  }

  /** A line is inside a fence exactly behind an odd number of fence lines, in the language of the last one. */
  lemma {:induction false} StateExactly(raws: seq<string>)
    ensures StateAfter(None, raws)
         == if FenceCount(raws) % 2 == 1 then Some(LowerAll(LastLang(raws))) else None
  {
    if raws != [] {
      var n := |raws| - 1;
      StateExactly(raws[..n]);
      StateAfterLast(None, raws, n);
    }
  }

  lemma {:induction false} LinesExactly(raws: seq<string>)
    ensures LinesFrom(None, raws) == Shown(raws)
  {
    if raws != [] {
      var n := |raws| - 1;
      LinesExactly(raws[..n]);
      StateExactly(raws[..n]);
      FrontAndLast(raws, n);
      LinesFromConcat(None, raws[..n], [raws[n]]);
      LineExactly(StateAfter(None, raws[..n]), raws[n]);
    }
  }

  lemma LineExactly(st: State, raw: string)
    ensures LinesFrom(st, [raw])
         == if Fence(raw).Some? then [] else [if st.Some? then CodeOf(raw, st.value) else Styled(raw)]
  {
    if st.Some? {
      CodeIsFenced(raw, st.value);
    }
    LinesFromFirst(st, raw, []);
    WithEmpty(LineOf(st, raw));
    WithEmpty([raw]);
  }

  // --- blank lines around a text ---

  predicate AllBlank(lines: seq<Line>) {
    forall i :: 0 <= i < |lines| ==> lines[i].kind == Blank
  }

  /** The part from `i` to `j`: only blank lines are around it, and it neither starts nor ends with one. */
  predicate IsTrimmedTo(lines: seq<Line>, i: nat, j: nat) {
    && i <= j <= |lines| && AllBlank(lines[..i]) && AllBlank(lines[j..])
    && (i < j ==> lines[i].kind != Blank && lines[j - 1].kind != Blank)
  }

  lemma {:induction false} DroppedAt(lines: seq<Line>) returns (i: nat)
    ensures i <= |lines| && DropBlanks(lines) == lines[i..] && AllBlank(lines[..i])
    ensures i < |lines| ==> lines[i].kind != Blank
  {
    i := 0;
    if lines != [] && lines[0].kind == Blank {
      var k := DroppedAt(lines[1..]);
      i := k + 1;
      assert lines[..i] == [lines[0]] + lines[1..][..k];
      assert lines[1..][k..] == lines[i..];
    }
  }

  lemma BlankTail(lines: seq<Line>, n: nat, j: nat)
    requires j <= n == |lines| - 1 && AllBlank(lines[j..n]) && lines[n].kind == Blank
    ensures AllBlank(lines[j..])
  {
    SliceOneMore(lines, j, n + 1);
    CutToEnd(lines, j, n + 1);
  }

  lemma {:induction false} CutAfter(lines: seq<Line>) returns (j: nat)
    ensures j <= |lines| && CutBlanks(lines) == lines[..j] && AllBlank(lines[j..])
    ensures j > 0 ==> lines[j - 1].kind != Blank
  {
    j := |lines|;
    if lines != [] && lines[|lines| - 1].kind == Blank {
      var n := |lines| - 1;
      j := CutAfter(lines[..n]);
      TakeTwice(lines, n, j);
      BlankTail(lines, n, j);
    } else {
      CutWhole(lines);
    }
  }

  /** A parsed text shows all of its lines but the blank ones at either end. */
  lemma ParsedExactly(text: string) returns (i: nat, j: nat)
    ensures IsTrimmedTo(Shown(Lines(text)), i, j) && Parsed(text) == Shown(Lines(text))[i..j]
  {
    var lines := Shown(Lines(text));
    LinesExactly(Lines(text));
    i := DroppedAt(lines);
    var k := CutAfter(lines[i..]);
    j := i + k;
    CutInside(lines, i, k, j);
  }
}
