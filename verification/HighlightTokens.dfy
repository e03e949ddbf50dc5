/** Which tokens a line of code is made of, told without the scanning (packages/tui/src/markdown.ts:75-184). */
module HighlightTokens {
  import opened Text
  import opened Seqs
  import opened Highlight

  // --- the inside of a string ---

  /** One character that is neither the quote nor a backslash, or a backslash with the character behind it. */
  predicate IsUnit(u: string, quote: char) {
    (|u| == 1 && u[0] != quote && u[0] != '\\') || (|u| == 2 && u[0] == '\\')
  }

  predicate AllUnits(units: seq<string>, quote: char) {
    forall i :: 0 <= i < |units| ==> IsUnit(units[i], quote)
  }

  function Concat(units: seq<string>): string {
    if units == [] then "" else units[0] + Concat(units[1..])
  }

  /** A string up to its closing quote. */
  ghost predicate IsClosed(text: string, quote: char) {
    exists units :: AllUnits(units, quote) && text == [quote] + (Concat(units) + [quote])
  }

  /** A string that the line's end cuts off, maybe behind a backslash. */
  ghost predicate IsCutOff(text: string, quote: char) {
    exists units, last :: (last == "" || last == "\\") && IsLine(text, quote, units, last)
  }

  ghost predicate IsLine(text: string, quote: char, units: seq<string>, last: string) {
    AllUnits(units, quote) && text == [quote] + (Concat(units) + last)
  }

  /** What is left of a string behind some units: the closing quote, or the line's end. */
  ghost predicate Inside(s: string, n: nat, quote: char, units: seq<string>, last: string)
  {
    && n <= |s| && AllUnits(units, quote) && s[..n] == Concat(units) + last
    && (last == [quote] || (n == |s| && (last == "" || last == "\\")))
  }

  lemma UnitMore(s: string, k: nat, n: nat, quote: char, units: seq<string>, last: string)
    requires k <= |s| && IsUnit(s[..k], quote) && Inside(s[k..], n, quote, units, last)
    ensures Inside(s, k + n, quote, [s[..k]] + units, last)
  {
    var more := [s[..k]] + units;
    HeadAndRest(s[..k], units);
    assert s[..k + n] == s[..k] + s[k..][..n];
    Regroup(s[..k], Concat(units), last);
  }

  lemma {:induction false} QuoteInside(s: string, quote: char) returns (units: seq<string>, last: string)
    requires quote != '\\'
    ensures Inside(s, QuoteLen(s, quote), quote, units, last)
    decreases |s|
  {
    units, last := [], "";
    if s == "" {
    } else if s[0] == quote {
      last := [quote];
    } else if s[0] == '\\' {
      if |s| == 1 {
        last := "\\";
        assert s == "\\";
      } else {
        units, last := QuoteInside(s[2..], quote);
        UnitMore(s, 2, QuoteLen(s[2..], quote), quote, units, last);
        units := [s[..2]] + units;
      }
    } else {
      units, last := QuoteInside(s[1..], quote);
      UnitMore(s, 1, QuoteLen(s[1..], quote), quote, units, last);
      units := [s[..1]] + units;
    }
  }

  // --- tokens ---

  predicate IsNumeral(c: char) {
    c in "0123456789._xabcdefABCDEFo"
  }

  /** The word at the start of `s`, no longer than it is. */
  predicate IsWhole(s: string, n: nat) {
    && 0 < n <= |s| && (forall i :: 0 <= i < n ==> IsWord(s[i]) || s[i] == '$')
    && (n < |s| ==> !IsWord(s[n]) && s[n] != '$')
  }

  function WordStyle(word: string, l: Lang): Style
    requires word != ""
  {
    if word in l.keywords then Keyword else if 'A' <= word[0] <= 'Z' then Type else Plain
  }

  /** A token starts here, or a comment. */
  predicate StartsSomething(s: string, l: Lang) {
    StartsWith(s, l.comment) || (s != "" && (IsWord(s[0]) || s[0] in "$\"'`"))
  }

  /**
   The first token of a text that is not empty: a comment to the end, a string, a number that does not continue a word,
   a whole word, or whatever stands in front of the next of these.
   */
  ghost predicate IsFirstToken(s: string, mid: bool, span: Span, l: Lang)
    requires s != ""
  {
    var n := |span.text|;
    && 0 < n <= |s| && span.text == s[..n]
    && if StartsWith(s, l.comment) then span == Span(s, Comment)
       else if s[0] in "\"'`" then
         span.style == Literal && (IsClosed(span.text, s[0]) || (n == |s| && IsCutOff(span.text, s[0])))
       else if IsDigit(s[0]) && !mid then
         && span.style == Number && (forall i :: 0 <= i < n ==> IsNumeral(s[i])) && (n < |s| ==> !IsNumeral(s[n]))
       else if IsDigit(s[0]) then span == Span(s[..1], Plain)
       else if StartsSomething(s, l) then IsWhole(s, n) && span.style == WordStyle(span.text, l)
       else
         && span.style == Plain && (forall i :: 0 <= i < n ==> !StartsSomething(s[i..], l))
         && (n < |s| ==> StartsSomething(s[n..], l))
  }

  /** The spans are the tokens of the text, one after the other. */
  ghost predicate AreTokens(s: string, mid: bool, spans: seq<Span>, l: Lang)
    decreases |spans|
  {
    if s == "" then spans == []
    else
      && spans != [] && IsFirstToken(s, mid, spans[0], l)
      && AreTokens(s[|spans[0].text|..], LastIsIdent(spans[0].text), spans[1..], l)
  }

  predicate LastIsIdent(text: string) {
    text != "" && (IsWord(text[|text| - 1]) || text[|text| - 1] == '$')
  }

  lemma NumeralIs(c: char)
    ensures IsNumeral(c) <==> IsNumberChar(c)
  {
  }

  lemma QuoteIs(c: char)
    ensures c in "\"'`" <==> IsQuote(c)
    ensures c in "$\"'`" <==> IsQuote(c) || c == '$'
  {
  }

  lemma {:induction false} NumberMaximal(s: string)
    ensures forall i :: 0 <= i < NumberLen(s) ==> IsNumeral(s[i])
    ensures NumberLen(s) < |s| ==> !IsNumeral(s[NumberLen(s)])
  {
    if s != "" {
      NumeralIs(s[0]);
      if IsNumberChar(s[0]) {
        NumberMaximal(s[1..]);
        assert forall i :: 0 < i < NumberLen(s) ==> s[i] == s[1..][i - 1];
      }
    }
  }

  lemma {:induction false} IdentMaximal(s: string)
    ensures IdentLen(s) < |s| ==> !IsIdent(s[IdentLen(s)])
  {
    if s != "" && IsIdent(s[0]) {
      IdentMaximal(s[1..]);
    }
  }

  lemma {:induction false} OtherMaximal(s: string, l: Lang)
    ensures forall i :: 0 <= i < OtherLen(s, l.comment) ==> !StartsSomething(s[i..], l)
    ensures OtherLen(s, l.comment) < |s| ==> StartsSomething(s[OtherLen(s, l.comment)..], l)
  {
    if s != "" {
      QuoteIs(s[0]);
      CutWhole(s);
      if !StartsSomething(s, l) {
        OtherMaximal(s[1..], l);
        var n := OtherLen(s[1..], l.comment);
        forall i | 0 <= i < n + 1
          ensures !StartsSomething(s[i..], l)
        {
          assert i > 0 ==> s[1..][i - 1..] == s[i..];
        }
        assert s[1..][n..] == s[n + 1..];
      }
    }
  }

  lemma LiteralFirst(s: string, mid: bool, l: Lang)
    requires s != "" && !StartsWith(s, l.comment) && s[0] in "\"'`"
    ensures IsFirstToken(s, mid, First(s, mid, l), l)
  {
    QuoteIs(s[0]);
    var quote, n := s[0], QuoteLen(s[1..], s[0]);
    var units, last := QuoteInside(s[1..], quote);
    assert s[..1 + n] == [quote] + s[1..][..n];
    if last == [quote] {
      assert IsClosed(s[..1 + n], quote);
    } else {
      assert IsLine(s[..1 + n], quote, units, last);
    }
  }

  lemma NumberFirst(s: string, mid: bool, l: Lang)
    requires s != "" && !StartsWith(s, l.comment) && IsDigit(s[0]) && !mid
    ensures IsFirstToken(s, mid, First(s, mid, l), l)
  {
    QuoteIs(s[0]);
    NumberMaximal(s);
  }

  lemma WordFirst(s: string, mid: bool, l: Lang)
    requires s != "" && !StartsWith(s, l.comment) && IsIdentStart(s[0])
    ensures IsFirstToken(s, mid, First(s, mid, l), l)
  {
    QuoteIs(s[0]);
    IdentMaximal(s);
  }

  lemma DigitFirst(s: string, l: Lang)
    requires s != "" && !StartsWith(s, l.comment) && IsDigit(s[0])
    ensures IsFirstToken(s, true, First(s, true, l), l)
  {
    QuoteIs(s[0]);
  }

  lemma OtherFirst(s: string, mid: bool, l: Lang)
    requires s != "" && !StartsWith(s, l.comment) && !IsIdent(s[0]) && !IsQuote(s[0])
    ensures IsFirstToken(s, mid, First(s, mid, l), l)
  {
    QuoteIs(s[0]);
    OtherMaximal(s, l);
    CutWhole(s);
  }

  lemma FirstIsToken(s: string, mid: bool, l: Lang)
    requires s != ""
    ensures IsFirstToken(s, mid, First(s, mid, l), l)
  {
    QuoteIs(s[0]);
    if StartsWith(s, l.comment) {
      CutWhole(s);
    } else if s[0] in "\"'`" {
      LiteralFirst(s, mid, l);
    } else if IsDigit(s[0]) {
      if mid { DigitFirst(s, l); } else { NumberFirst(s, mid, l); }
    } else if IsIdentStart(s[0]) {
      WordFirst(s, mid, l);
    } else {
      OtherFirst(s, mid, l);
    }
  }

  lemma {:induction false} SpansAreTokens(s: string, mid: bool, l: Lang)
    ensures AreTokens(s, mid, Spans(s, mid, l), l)
    decreases |s|
  {
    if s != "" {
      var p := First(s, mid, l);
      FirstIsToken(s, mid, l);
      SpansAreTokens(s[|p.text|..], IsIdent(p.text[|p.text| - 1]), l);
      HeadAndRest(p, Spans(s[|p.text|..], IsIdent(p.text[|p.text| - 1]), l));
    }
  }

  /** A highlighted line is exactly its tokens for the language, with their classes; an empty line is one plain span. */
  lemma HighlightExactly(line: string, lang: string)
    ensures line != "" ==> AreTokens(line, false, Highlighted(line, lang), LangOf(lang))
    ensures line == "" ==> Highlighted(line, lang) == [Span("", Plain)]
  {
    SpansAreTokens(line, false, LangOf(lang));
  }

  predicate HasHashComments(lang: string) {
    lang in {"py", "python", "sh", "bash", "zsh", "yaml", "yml", "toml", "rb", "ruby"}
  }

  /** A line that starts as a comment of its language is one comment. */
  lemma CommentShown(lang: string, line: string)
    requires |line| > 0 && line[0] == '#'
    requires HasHashComments(lang)
    ensures Highlighted(line, lang) == [Span(line, Comment)]
  {
    HashStarts(line, "#");
    SpansEnd(line, false, LangOf(lang));
  }

  lemma HashStarts(line: string, hash: string)
    requires |line| > 0 && |hash| == 1 && line[0] == hash[0]
    ensures StartsWith(line, hash)
  {
  }

  /** In all other languages two slashes start one. */
  lemma SlashCommentShown(lang: string, line: string)
    requires |line| > 1 && line[0] == '/' && line[1] == '/' && !HasHashComments(lang)
    ensures Highlighted(line, lang) == [Span(line, Comment)]
  {
    SlashesStart(line, "//");
    SpansEnd(line, false, LangOf(lang));
  }

  lemma SlashesStart(line: string, slashes: string)
    requires |line| > 1 && |slashes| == 2 && line[0] == slashes[0] && line[1] == slashes[1]
    ensures StartsWith(line, slashes)
  {
  }
}
