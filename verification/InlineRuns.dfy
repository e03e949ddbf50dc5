/** Which parts of a text are inline runs, told without the search (packages/tui/src/markdown.ts:49-73). */
module InlineRuns {
  import opened Wrappers
  import opened Text
  import opened Seqs
  import opened Highlight
  import opened Inline

  /** Neither a word character nor a star. */
  predicate IsApart(text: string, i: int) {
    0 <= i < |text| ==> !IsWord(text[i]) && text[i] != '*'
  }

  /** From `i` to `end` the text is a marked run: back ticks, two stars, or one star away from words and stars. */
  predicate IsRun(text: string, i: nat, span: Span, end: nat) {
    && i < end <= |text| && span.text != ""
    && match span.style
       case Code => text[i..end] == "`" + (span.text + "`") && '`' !in span.text
       case Bold => text[i..end] == "**" + (span.text + "**") && '*' !in span.text
       case Italic =>
         && text[i..end] == "*" + (span.text + "*") && '*' !in span.text
         && !IsSpace(span.text[0]) && IsApart(text, i - 1) && IsApart(text, end)
       case _ => false
  }

  lemma {:induction false} RunLenIs(inner: string, rest: string, c: char)
    requires Free(inner, c) && rest != "" && rest[0] == c
    ensures RunLen(inner + rest, c) == |inner|
  {
    if inner == "" {
      WithEmpty(rest);
    } else {
      assert (inner + rest)[1..] == inner[1..] + rest;
      RunLenIs(inner[1..], rest, c);
    }
  }

  lemma StartsWithHead(head: string, rest: string)
    ensures StartsWith(head + rest, head) && (head + rest)[|head|..] == rest
  {
  }

  lemma RunRead(style: Style, open: string, inner: string, stop: char, close: string, rest: string)
    requires inner != "" && Free(inner, stop) && close != "" && close[0] == stop
    ensures RunAfter(style, open + (inner + (close + rest)), open, stop, close) == Run(Span(inner, style), rest)
  {
    var t := inner + (close + rest);
    StartsWithHead(open, t);
    RunLenIs(inner, close + rest, stop);
    assert t[..|inner|] == inner && t[|inner|..] == close + rest;
    StartsWithHead(close, rest);
  }

  lemma RunSplits(text: string, i: nat, span: Span, end: nat, marker: string)
    requires i < end <= |text| && text[i..end] == marker + (span.text + marker)
    ensures text[i..] == marker + (span.text + (marker + text[end..]))
  {
    assert text[i..] == text[i..end] + text[end..];
    Regroup(marker, span.text + marker, text[end..]);
    Regroup(span.text, marker, text[end..]);
  }

  lemma PrevApart(text: string, i: nat)
    requires i <= |text|
    ensures IsApart(text, i - 1) <==> Apart(Prev(text, i))
    ensures IsApart(text, i) <==> Apart(Head(text[i..]))
  {
  }

  lemma NotTicked(s: string)
    requires s != "" && s[0] != '`'
    ensures RunAfter(Code, s, TICK, '`', TICK) == NoRun
  {
  }

  lemma NotDoubled(s: string)
    requires |s| > 1 && s[1] != '*'
    ensures RunAfter(Bold, s, STARS, '*', STARS) == NoRun
  {
  }

  lemma HitGives(text: string, i: nat, span: Span, end: nat)
    requires i < end <= |text| && RunHere(text[i..], Prev(text, i)) == Run(span, text[end..])
    ensures HitAt(text, i) == Hit(span, end)
  {
  }

  lemma CodeHit(text: string, i: nat, span: Span, end: nat)
    requires IsRun(text, i, span, end) && span.style == Code
    ensures HitAt(text, i) == Hit(span, end)
  {
    RunSplits(text, i, span, end, TICK);
    RunRead(Code, TICK, span.text, '`', TICK, text[end..]);
    HitGives(text, i, span, end);
  }

  lemma BoldHit(text: string, i: nat, span: Span, end: nat)
    requires IsRun(text, i, span, end) && span.style == Bold
    ensures HitAt(text, i) == Hit(span, end)
  {
    RunSplits(text, i, span, end, STARS);
    NotTicked(text[i..]);
    RunRead(Bold, STARS, span.text, '*', STARS, text[end..]);
    HitGives(text, i, span, end);
  }

  lemma ItalicHit(text: string, i: nat, span: Span, end: nat)
    requires IsRun(text, i, span, end) && span.style == Italic
    ensures HitAt(text, i) == Hit(span, end)
  {
    RunSplits(text, i, span, end, STAR);
    assert text[i..][1] == span.text[0];
    NotTicked(text[i..]);
    NotDoubled(text[i..]);
    RunRead(Italic, STAR, span.text, '*', STAR, text[end..]);
    PrevApart(text, i);
    PrevApart(text, end);
    HitGives(text, i, span, end);
  }

  lemma HitIsRun(text: string, i: nat)
    requires i <= |text| && HitAt(text, i).Hit?
    ensures IsRun(text, i, HitAt(text, i).span, HitAt(text, i).end)
  {
    var h := HitAt(text, i);
    assert HitFits(text, i, h);
    if h.span.style == Italic {
      ItalicAlone(text, i);
    }
  }

  lemma ItalicAlone(text: string, i: nat)
    requires i <= |text| && HitAt(text, i).Hit? && HitAt(text, i).span.style == Italic
    ensures IsApart(text, i - 1) && IsApart(text, HitAt(text, i).end)
  {
    var r := RunHere(text[i..], Prev(text, i));
    RunParts(text[i..], Prev(text, i));
    PrevApart(text, i);
    var end := |text| - |r.rest|;
    RestIs(text, i, r.rest, Marker(Italic) + (r.span.text + Marker(Italic)));
    PrevApart(text, end);
  }

  lemma RestIs(text: string, i: nat, rest: string, front: string)
    requires i <= |text| && |rest| <= |text| - i && text[i..][|text| - i - |rest|..] == rest
    ensures text[|text| - |rest|..] == rest
  {
  }

  /** The search finds a run at a position exactly if there is one. */
  lemma HitIff(text: string, i: nat, span: Span, end: nat)
    requires i <= |text|
    ensures HitAt(text, i) == Hit(span, end) <==> IsRun(text, i, span, end)
  {
    if HitAt(text, i) == Hit(span, end) {
      HitIsRun(text, i);
    } else if IsRun(text, i, span, end) {
      match span.style
      case Code => CodeHit(text, i, span, end);
      case Bold => BoldHit(text, i, span, end);
      case Italic => ItalicHit(text, i, span, end);
    }
  }

  // --- the leftmost runs ---

  ghost predicate StartsRun(text: string, i: nat) {
    exists span: Span, end: nat :: IsRun(text, i, span, end)
  }

  /** No run starts from `i` on and before `j`. */
  ghost predicate NoRunStarts(text: string, i: nat, j: nat) {
    forall k: nat :: i <= k < j ==> !StartsRun(text, k)
  }

  /**
   The spans read the text from position `i` on: plain text up to the next place where a run starts, or else the run
   that starts here; after a run the search goes on behind it.
   */
  ghost predicate Reads(text: string, i: nat, spans: seq<Span>)
    decreases |spans|
  {
    i <= |text| &&
    if spans == [] then i == |text|
    else if spans[0].style == Plain then
      var j := i + |spans[0].text|;
      && i < j <= |text| && spans[0].text == text[i..j] && NoRunStarts(text, i, j)
      && (j < |text| ==> StartsRun(text, j)) && Reads(text, j, spans[1..])
    else exists end: nat :: IsRun(text, i, spans[0], end) && Reads(text, end, spans[1..])
  }

  lemma MissIff(text: string, i: nat)
    requires i <= |text|
    ensures HitAt(text, i) == Miss <==> !StartsRun(text, i)
  {
    if HitAt(text, i).Hit? {
      HitIff(text, i, HitAt(text, i).span, HitAt(text, i).end);
    }
    if span: Span, end: nat :| IsRun(text, i, span, end) {
      HitIff(text, i, span, end);
    }
  }

  lemma ReadsRun(text: string, i: nat, span: Span, end: nat, rest: seq<Span>)
    requires IsRun(text, i, span, end) && Reads(text, end, rest)
    ensures Reads(text, i, [span] + rest)
  {
    HeadAndRest(span, rest);
  }

  lemma ReadsPlain(text: string, last: nat, i: nat, rest: seq<Span>)
    requires last <= i <= |text| && NoRunStarts(text, last, i) && Reads(text, i, rest)
    requires i < |text| ==> StartsRun(text, i)
    ensures Reads(text, last, Flush(text[last..i]) + rest)
  {
    if last == i {
      WithEmpty(rest);
    } else {
      HeadAndRest(Span(text[last..i], Plain), rest);
    }
  }

  lemma {:induction false} ScanReads(text: string, last: nat, i: nat)
    requires last <= i <= |text| && NoRunStarts(text, last, i)
    ensures Reads(text, last, Scan(text, Hits(text), last, i))
    decreases |text| - i
  {
    if i == |text| {
      WithEmpty(Flush(text[last..]));
      assert text[last..] == text[last..i];
      ReadsPlain(text, last, i, []);
    } else if Hits(text)[i].Miss? {
      MissIff(text, i);
      ScanReads(text, last, i + 1);
    } else {
      var span, end := Hits(text)[i].span, Hits(text)[i].end;
      assert HitFits(text, i, Hits(text)[i]);
      ScanReads(text, end, end);
      HitIff(text, i, span, end);
      ReadsRun(text, i, span, end, Scan(text, Hits(text), end, end));
      ReadsPlain(text, last, i, [span] + Scan(text, Hits(text), end, end));
    }
  }

  /** The spans of a text are its leftmost runs and the plain text between them; no run is missed. */
  lemma InlineExactly(text: string)
    ensures text != "" ==> Reads(text, 0, InlineSpans(text))
    ensures text == "" ==> InlineSpans(text) == [Span("", Plain)]
  {
    ScanReads(text, 0, 0);
    if text != "" {
      ScanLossless(text, Hits(text), 0, 0);
      CutWhole(text);
    }
  }
}
