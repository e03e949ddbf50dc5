/** Inline code, bold and italic runs (packages/tui/src/markdown.ts:49-73). */
module Inline {
  import opened Wrappers
  import opened Text
  import opened Highlight

  /** The characters up to the first `c`. */
  function RunLen(s: string, c: char): (r: nat)
    ensures r <= |s| && Free(s[..r], c) && (r < |s| ==> s[r] == c)
  {
    if s == "" || s[0] == c then 0
    else
      var r := RunLen(s[1..], c);
      assert s[..1 + r] == [s[0]] + s[1..][..r];
      1 + r
  }

  const TICK := "`"
  const STARS := "**"
  const STAR := "*"

  /** A run and the text behind its closing marker. */
  datatype Found = NoRun | Run(span: Span, rest: string)

  function Closed(style: Style, inner: string, after: string, close: string): Found {
    if inner != "" && StartsWith(after, close) then Run(Span(inner, style), after[|close|..]) else NoRun
  }

  function RunAfter(style: Style, s: string, open: string, stop: char, close: string): Found {
    if !StartsWith(s, open) then NoRun
    else
      var t := s[|open|..];
      var n := RunLen(t, stop);
      Closed(style, t[..n], t[n..], close)
  }

  /** Whether an italic run may touch this neighbour, which it may not if that is a word character or a star. */
  predicate Apart(c: Option<char>) {
    c.None? || (!IsWord(c.value) && c.value != '*')
  }

  function Head(s: string): Option<char> {
    if s == "" then None else Some(s[0])
  }

  function ItalicRun(s: string, prev: Option<char>): Found {
    match RunAfter(Italic, s, STAR, '*', STAR)
    case NoRun => NoRun
    case Run(span, rest) =>
      if Apart(prev) && Apart(Head(rest)) && !IsSpace(span.text[0]) then Run(span, rest) else NoRun
  }

  /** The three forms are tried in order. */
  function RunHere(s: string, prev: Option<char>): Found {
    match RunAfter(Code, s, TICK, '`', TICK)
    case Run(span, rest) => Run(span, rest)
    case NoRun =>
      match RunAfter(Bold, s, STARS, '*', STARS)
      case Run(span, rest) => Run(span, rest)
      case NoRun => ItalicRun(s, prev)
  }

  function Marker(style: Style): string {
    match style
    case Code => TICK
    case Bold => STARS
    case Italic => STAR
    case _ => ""
  }

  function Marked(span: Span): string {
    Marker(span.style) + (span.text + Marker(span.style))
  }

  /** The spans with their markers put back. */
  function AllMarked(spans: seq<Span>): string {
    if spans == [] then "" else Marked(spans[0]) + AllMarked(spans[1..])
  }

  lemma RunAfterParts(style: Style, s: string, open: string, stop: char, close: string)
    requires RunAfter(style, s, open, stop, close).Run?
    ensures var r := RunAfter(style, s, open, stop, close);
            && s == open + (r.span.text + (close + r.rest))
            && r.span.text != "" && Free(r.span.text, stop) && r.span.style == style
  {
    var t := s[|open|..];
    var n := RunLen(t, stop);
    assert s == open + t && t == t[..n] + t[n..];
    assert t[n..] == close + t[n..][|close|..];
  }

  /** A run is what its markers enclose. */
  lemma RunParts(s: string, prev: Option<char>)
    requires RunHere(s, prev).Run?
    ensures var r := RunHere(s, prev);
            s == Marker(r.span.style) + (r.span.text + (Marker(r.span.style) + r.rest))
            && r.span.text != "" && |r.rest| < |s| && Marker(r.span.style) != ""
            && (r.span.style == Code ==> Free(r.span.text, '`'))
            && (r.span.style == Bold || r.span.style == Italic ==> Free(r.span.text, '*'))
  {
    if RunAfter(Code, s, TICK, '`', TICK).Run? {
      RunAfterParts(Code, s, TICK, '`', TICK);
    } else if RunAfter(Bold, s, STARS, '*', STARS).Run? {
      RunAfterParts(Bold, s, STARS, '*', STARS);
    } else {
      RunAfterParts(Italic, s, STAR, '*', STAR);
    }
  }

  /** What a styled span may contain: never its own marker. */
  predicate SpanFits(p: Span) {
    match p.style
    case Plain => true
    case Code => p.text != "" && Free(p.text, '`')
    case Bold => p.text != "" && Free(p.text, '*')
    case Italic => p.text != "" && Free(p.text, '*') && !IsSpace(p.text[0])
    case _ => false
  }

  // --- the matches of a text ---

  /** What the pattern finds at a position: nothing, or a run and where it ends. */
  datatype Hit = Miss | Hit(span: Span, end: nat)

  /** A hit is a styled span that, with its markers, is that part of the text. */
  predicate HitFits(text: string, i: nat, h: Hit) {
    h.Hit? ==>
      && i < h.end <= |text| && text[i..h.end] == Marked(h.span)
      && SpanFits(h.span) && h.span.style != Plain && h.span.text != ""
  }

  function Prev(text: string, i: nat): Option<char>
    requires i <= |text|
  {
    if i == 0 then None else Some(text[i - 1])
  }

  /** `re.exec` at a position. */
  function HitAt(text: string, i: nat): (h: Hit)
    requires i <= |text|
    ensures HitFits(text, i, h)
  {
    match RunHere(text[i..], Prev(text, i))
    case NoRun => Miss
    case Run(span, rest) =>
      RunEnds(text, i);
      Hit(span, |text| - |rest|)
  }

  lemma RunFits(s: string, prev: Option<char>)
    requires RunHere(s, prev).Run?
    ensures SpanFits(RunHere(s, prev).span) && RunHere(s, prev).span.style != Plain
  {
    RunParts(s, prev);
  }

  lemma RunEnds(text: string, i: nat)
    requires i <= |text| && RunHere(text[i..], Prev(text, i)).Run?
    ensures var r := RunHere(text[i..], Prev(text, i));
            |r.rest| <= |text| && HitFits(text, i, Hit(r.span, |text| - |r.rest|))
  {
    var s := text[i..];
    var r := RunHere(s, Prev(text, i));
    RunParts(s, Prev(text, i));
    RunFits(s, Prev(text, i));
    Enclosed(text, i, r.span, r.rest);
  }

  lemma Enclosed(text: string, i: nat, span: Span, rest: string)
    requires i <= |text| && text[i..] == Marker(span.style) + (span.text + (Marker(span.style) + rest))
    ensures |rest| <= |text| - i && text[i..|text| - |rest|] == Marked(span)
  {
    assert text[i..] == Marked(span) + rest;
    assert text[i..|text| - |rest|] == text[i..][..|Marked(span)|];
  }

  ghost predicate AllFit(text: string, hits: seq<Hit>) {
    |hits| == |text| && forall i: nat :: i < |hits| ==> HitFits(text, i, hits[i])
  }

  function Hits(text: string): (r: seq<Hit>)
    ensures AllFit(text, r)
  {
    seq(|text|, i requires 0 <= i < |text| => HitAt(text, i))
  }

  // --- spans ---

  function Flush(plain: string): seq<Span> {
    if plain == "" then [] else [Span(plain, Plain)]
  }

  /** The spans from position `i` on, where the text since `last` waits to become a plain span. */
  function Scan(text: string, hits: seq<Hit>, last: nat, i: nat): seq<Span>
    requires AllFit(text, hits) && last <= i <= |text|
    decreases |text| - i
  {
    if i == |text| then Flush(text[last..])
    else
      match hits[i]
      case Miss => Scan(text, hits, last, i + 1)
      case Hit(span, end) =>
        assert HitFits(text, i, hits[i]);
        Flush(text[last..i]) + ([span] + Scan(text, hits, end, end))
  }

  function OrEmpty(spans: seq<Span>): seq<Span> {
    if spans == [] then [Span("", Plain)] else spans
  }

  function InlineSpans(text: string): seq<Span> {
    OrEmpty(Scan(text, Hits(text), 0, 0))
  }

  lemma AddSpans(before: seq<Span>, plain: string, span: Span, rest: seq<Span>)
    ensures before + (Flush(plain) + ([span] + rest)) == (before + Flush(plain) + [span]) + rest
  {
  }

  method AddRun(spans: seq<Span>, plain: string, span: Span) returns (r: seq<Span>)
    ensures r == spans + Flush(plain) + [span]
  {
    r := spans;
    if |plain| > 0 {
      r := r + [Span(plain, Plain)];
    }
    r := r + [span];
  }

  /** The loop over the matches: `last` is where the plain text in front of the next one starts. */
  method FindSpans(text: string) returns (spans: seq<Span>)
    ensures spans == InlineSpans(text)
  {
    spans := [];
    var last: nat, i: nat := 0, 0;
    var hits := Hits(text);
    while i < |text|
      invariant last <= i <= |text|
      invariant spans + Scan(text, hits, last, i) == Scan(text, hits, 0, 0)
      decreases |text| - i
    {
      if hits[i].Miss? {
        i := i + 1;
      } else {
        var span, end := hits[i].span, hits[i].end;
        assert HitFits(text, i, hits[i]);
        AddSpans(spans, text[last..i], span, Scan(text, hits, end, end));
        spans := AddRun(spans, text[last..i], span);
        last, i := end, end;
      }
    }
    if last < |text| {
      spans := spans + [Span(text[last..], Plain)];
    }
    if |spans| == 0 {
      spans := [Span("", Plain)];
    }
  }

  // --- properties ---

  lemma AllMarkedFirst(x: Span, spans: seq<Span>)
    ensures AllMarked([x] + spans) == Marked(x) + AllMarked(spans)
  {
    assert ([x] + spans)[1..] == spans;
  }

  lemma MarkedPlain(plain: string, spans: seq<Span>)
    ensures AllMarked(Flush(plain) + spans) == plain + AllMarked(spans)
  {
    if plain == "" {
      assert Flush(plain) + spans == spans;
    } else {
      AllMarkedFirst(Span(plain, Plain), spans);
    }
  }

  lemma MarkedStep(plain: string, span: Span, spans: seq<Span>)
    ensures AllMarked(Flush(plain) + ([span] + spans)) == plain + (Marked(span) + AllMarked(spans))
  {
    MarkedPlain(plain, [span] + spans);
    AllMarkedFirst(span, spans);
  }

  lemma Pieces(text: string, last: nat, i: nat, end: nat)
    requires last <= i <= end <= |text|
    ensures text[last..] == text[last..i] + (text[i..end] + text[end..])
  {
  }

  lemma HitStep(text: string, last: nat, i: nat, h: Hit, spans: seq<Span>)
    requires last <= i <= |text| && h.Hit? && HitFits(text, i, h) && AllMarked(spans) == text[h.end..]
    ensures AllMarked(Flush(text[last..i]) + ([h.span] + spans)) == text[last..]
  {
    MarkedStep(text[last..i], h.span, spans);
    Pieces(text, last, i, h.end);
  }

  lemma EndStep(plain: string)
    ensures AllMarked(Flush(plain)) == plain
  {
    MarkedPlain(plain, []);
    assert Flush(plain) + [] == Flush(plain);
  }

  lemma {:induction false} ScanLossless(text: string, hits: seq<Hit>, last: nat, i: nat)
    requires AllFit(text, hits) && last <= i <= |text|
    ensures AllMarked(Scan(text, hits, last, i)) == text[last..]
    decreases |text| - i
  {
    if i == |text| {
      EndStep(text[last..]);
    } else if hits[i].Miss? {
      ScanLossless(text, hits, last, i + 1);
    } else {
      var end := hits[i].end;
      assert HitFits(text, i, hits[i]);
      ScanLossless(text, hits, end, end);
      HitStep(text, last, i, hits[i], Scan(text, hits, end, end));
    }
  }

  /** The spans with their markers put back are the text. */
  lemma InlineLossless(text: string)
    ensures AllMarked(InlineSpans(text)) == text && InlineSpans(text) != []
  {
    ScanLossless(text, Hits(text), 0, 0);
    assert text[0..] == text;
    AllMarkedFirst(Span("", Plain), []);
    assert [Span("", Plain)] + [] == [Span("", Plain)];
  }

  lemma {:induction false} ScanFits(text: string, hits: seq<Hit>, last: nat, i: nat, k: nat)
    requires AllFit(text, hits) && last <= i <= |text| && k < |Scan(text, hits, last, i)|
    ensures SpanFits(Scan(text, hits, last, i)[k]) && Scan(text, hits, last, i)[k].text != ""
    ensures k > 0 ==> Scan(text, hits, last, i)[k - 1].style != Plain || Scan(text, hits, last, i)[k].style != Plain
    decreases |text| - i
  {
    if i < |text| {
      if hits[i].Miss? {
        ScanFits(text, hits, last, i + 1, k);
      } else {
        assert HitFits(text, i, hits[i]);
        var n := |Flush(text[last..i])| + 1;
        if k >= n {
          ScanFits(text, hits, hits[i].end, hits[i].end, k - n);
        }
      }
    }
  }

  /** Styled spans never contain their own marker, no span of a text is empty, and no two plain spans touch. */
  lemma InlineFits(text: string, k: nat)
    requires text != "" && k < |InlineSpans(text)|
    ensures SpanFits(InlineSpans(text)[k]) && InlineSpans(text)[k].text != ""
    ensures k > 0 ==> InlineSpans(text)[k - 1].style != Plain || InlineSpans(text)[k].style != Plain
  {
    ScanLossless(text, Hits(text), 0, 0);
    assert text[0..] == text;
    ScanFits(text, Hits(text), 0, 0, k);
  }

  lemma {:induction false} ScanMisses(text: string, hits: seq<Hit>, i: nat)
    requires AllFit(text, hits) && i <= |text| && forall j :: 0 <= j < |hits| ==> hits[j].Miss?
    ensures Scan(text, hits, 0, i) == Flush(text)
    decreases |text| - i
  {
    if i == |text| {
      assert text[0..] == text;
    } else {
      ScanMisses(text, hits, i + 1);
    }
  }

  lemma NoMarkerMiss(text: string, i: nat)
    requires i < |text| && Free(text, '`') && Free(text, '*')
    ensures HitAt(text, i) == Miss
  {
    assert text[i..][0] == text[i];
  }

  /** A text without markers is one plain span. */
  lemma NoMarkersPlain(text: string)
    requires Free(text, '`') && Free(text, '*')
    ensures InlineSpans(text) == [Span(text, Plain)]
  {
    forall i | 0 <= i < |text|
      ensures Hits(text)[i].Miss?
    {
      NoMarkerMiss(text, i);
    }
    ScanMisses(text, Hits(text), 0);
  }
}
