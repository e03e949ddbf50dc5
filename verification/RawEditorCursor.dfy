/** Where a paint leaves the cursor, and what a suspend and a new read do (apps/cli/src/ui.ts:1295-1365, 1557-1642). */
module RawEditorCursor {
  import opened Text
  import opened Seqs
  import opened Terminal
  import opened RawEditor
  import opened RawEditorProperties

  // --- the text in front of the cursor ---

  /** The lines of the input as far as the cursor. */
  function Before(lines: seq<string>, cursor: nat): (r: seq<string>)
    requires lines != [] && cursor <= JoinedLength(lines)
    ensures r != []
  {
    if cursor <= |lines[0]| then [lines[0][..cursor]]
    else [lines[0]] + Before(lines[1..], cursor - |lines[0]| - 1)
  }

  /** Joined, these are the first characters of the input, as many as the cursor says. */
  lemma {:induction false} BeforeIsPrefix(lines: seq<string>, cursor: nat)
    requires lines != [] && cursor <= JoinedLength(lines)
    ensures |Join(lines)| == JoinedLength(lines) && Join(Before(lines, cursor)) == Join(lines)[..cursor]
    decreases |lines|
  {
    if |lines| > 1 {
      BeforeIsPrefix(lines[1..], 0);
    }
    if cursor > |lines[0]| {
      var rest := cursor - |lines[0]| - 1;
      BeforeIsPrefix(lines[1..], rest);
      JoinCons(lines[0], Before(lines[1..], rest));
      TakePast(lines[0] + NL, Join(lines[1..]), cursor, rest);
    } else if |lines| > 1 {
      TakeWithin(lines[0], NL, Join(lines[1..]), cursor);
    }
  }

  lemma TakePast(a: string, b: string, n: nat, rest: nat)
    requires n == |a| + rest && rest <= |b|
    ensures (a + b)[..n] == a + b[..rest]
  {
  }

  lemma TakeWithin(a: string, b: string, c: string, n: nat)
    requires n <= |a|
    ensures (a + b + c)[..n] == a[..n]
  {
  }

  // --- where printing ends ---

  /** The cell at which the next character would go: a pending wrap goes to the next row. */
  function Place(t: Term, w: nat): (nat, nat) {
    if t.col == w then (t.row + 1, 0) else (t.row, t.col)
  }

  lemma {:induction false} LineEnds(t: Term, s: string, w: nat)
    requires w > 0 && Free(s, '\n') && t.col == 0
    ensures Place(Print(t, s, w), w) == (t.row + Div(|s|, w), Mod(|s|, w))
    decreases |s|
  {
    if |s| <= w {
      PrintWithinRow(t, s, w);
    } else {
      CutInTwo(s, w);
      PrintInParts(t, s[..w], s[w..], w);
      PrintWithinRow(t, s[..w], w);
      var u := Term(map[], t.row + 1, 0);
      WrapsToNextRow(Print(t, s[..w], w), u, s[w..], w);
      LineEnds(u, s[w..], w);
    }
  }

  /** All rows of the lines but the last, and where in its own rows the last one ends. */
  function EndOf(lines: seq<string>, w: nat): (nat, nat)
    requires w > 0 && lines != []
  {
    var n := |lines| - 1;
    (RowsOf(lines[..n], w) + Div(|lines[n]|, w), Mod(|lines[n]|, w))
  }

  lemma EndOfMore(line: string, lines: seq<string>, w: nat)
    requires w > 0 && lines != []
    ensures EndOf([line] + lines, w) == (VisRows(|line|, w) + EndOf(lines, w).0, EndOf(lines, w).1)
  {
    var all := [line] + lines;
    var n := |lines| - 1;
    assert all[..n + 1] == [line] + lines[..n];
    HeadAndRest(line, lines[..n]);
  }

  lemma {:induction false} LinesEnd(t: Term, lines: seq<string>, w: nat)
    requires w > 0 && lines != [] && AllFree(lines, '\n') && t.col == 0
    ensures Place(Print(t, Join(lines), w), w) == (t.row + EndOf(lines, w).0, EndOf(lines, w).1)
    decreases |lines|
  {
    if |lines| == 1 {
      LineEnds(t, lines[0], w);
      assert lines[..0] == [];
    } else {
      var line, rest := lines[0], lines[1..];
      Headed(lines);
      JoinCons(line, rest);
      Regroup(line, NL, Join(rest));
      PrintLineRows(t, line, w);
      PrintInParts(t, line, NL + Join(rest), w);
      var u := Print(t, line, w);
      NewLine(u, Join(rest), w);
      LinesEnd(u.(row := u.row + 1, col := 0), rest, w);
      EndOfMore(line, rest, w);
    }
  }

  lemma NewLine(t: Term, s: string, w: nat)
    ensures Print(t, NL + s, w) == Print(t.(row := t.row + 1, col := 0), s, w)
  {
    HeadAndRest('\n', s);
  }

  // --- the cursor of a layout ---

  lemma {:induction false} IndentedEnd(first: string, lines: seq<string>, cursor: nat, p: nat, w: nat)
    requires w > 0 && lines != [] && cursor <= JoinedLength(lines) && |first| == p
    ensures var shown := Before(lines, cursor);
            EndOf([first + shown[0]] + IndentedLines(shown[1..], p), w) == CursorAt(lines, cursor, p, w)
    decreases |lines|
  {
    var shown := Before(lines, cursor);
    if cursor <= |lines[0]| {
      var all := [first + shown[0]];
      assert shown[1..] == [] && all + [] == all && all[..0] == [];
    } else {
      var rest := Before(lines[1..], cursor - |lines[0]| - 1);
      HeadAndRest(lines[0], rest);
      IndentedEnd(Spaces(p), lines[1..], cursor - |lines[0]| - 1, p, w);
      EndOfMore(first + lines[0], IndentedLines(rest, p), w);
    }
  }

  lemma {:induction false} BeforeFree(lines: seq<string>, cursor: nat)
    requires lines != [] && cursor <= JoinedLength(lines) && AllFree(lines, '\n')
    ensures AllFree(Before(lines, cursor), '\n')
  {
    if cursor > |lines[0]| {
      BeforeFree(lines[1..], cursor - |lines[0]| - 1);
    }
  }

  /** What a frame shows up to the cursor. */
  function TextToCursor(f: Frame): string
    requires FrameFit(f)
  {
    Terminated(f.header) + InputText(f.prompt, Before(f.input, f.cursor))
  }

  lemma InputEnd(f: Frame, t: Term, w: nat)
    requires w > 0 && FrameFit(f) && t.col == 0
    ensures Place(Print(t, InputText(f.prompt, Before(f.input, f.cursor)), w), w)
         == (t.row + FrameLayout(f, w).cursorRow, FrameLayout(f, w).cursorCol)
  {
    var shown := Before(f.input, f.cursor);
    BeforeFree(f.input, f.cursor);
    IndentedIsJoined(f.prompt, shown, |f.prompt|);
    IndentedFree(shown[1..], |f.prompt|);
    LinesEnd(t, InputLines(f.prompt, shown), w);
    IndentedEnd(f.prompt, f.input, f.cursor, |f.prompt|, w);
  }

  lemma {:induction false} HeaderEnd(header: seq<string>, t: Term, w: nat)
    requires w > 0 && AllFree(header, '\n') && t.col == 0
    ensures var u := Print(t, Terminated(header), w); u.row == t.row + RowsOf(header, w) && u.col == 0
    decreases |header|
  {
    if header != [] {
      var line, rest := header[0], header[1..];
      Regroup(line, NL, Terminated(rest));
      PrintLineRows(t, line, w);
      PrintInParts(t, line, NL + Terminated(rest), w);
      var u := Print(t, line, w);
      NewLine(u, Terminated(rest), w);
      HeaderEnd(rest, u.(row := u.row + 1, col := 0), w);
    }
  }

  /** A paint that does not overhang leaves the cursor exactly where the next character of the input would go. */
  lemma PaintParksCursor(e: Editor, f: Frame, w: nat)
    requires w > 0 && FrameFit(f) && !Overhangs(f, w)
    ensures var t := Painted(e, f, w).term;
            (t.row, t.col) == Place(Print(Term(map[], Start(e), 0), TextToCursor(f), w), w)
  {
    var start := Term(map[], Start(e), 0);
    PaintKeepsTopIff(e, f, w);
    HeaderEnd(f.header, start, w);
    PrintInParts(start, Terminated(f.header), InputText(f.prompt, Before(f.input, f.cursor)), w);
    InputEnd(f, Print(start, Terminated(f.header), w), w);
  }

  // --- suspending and asking ---

  /** A suspend after a paint leaves nothing of the box, and the cursor where the box began. */
  lemma SuspendLeavesNothing(e: Editor, f: Frame, w: nat)
    requires w > 0 && FrameFit(f) && !Overhangs(f, w)
    ensures var s := Disarmed(Painted(e, f, w));
            && s.term.cells == Above(e.term.cells, Start(e))
            && s.term.row == Start(e) && s.term.col == 0 && s.prevCursorRow == 0
  {
    PaintLeavesAbove(e, f, w);
    PaintKeepsTopIff(e, f, w);
    ToTopKeepsAbove(Painted(e, f, w));
  }

  /** A new read keeps everything above the cursor's row, whatever was painted before. */
  lemma AskStartsAtCursor(e: Editor, f: Frame, w: nat)
    requires w > 0 && FrameFit(f)
    ensures Apply(e, Ask(f), w).term.cells
         == Above(e.term.cells, e.term.row) + Written(e.term.row, 0, FrameText(f), w)
  {
    PaintIsFresh(e.(prevCursorRow := 0), f, w);
  }

  /** A submit from a sub-prompt, or from a box without a header, keeps what was painted and goes below the input. */
  lemma PlainSubmitKeepsInput(e: Editor, f: Frame, lines: seq<string>, inSubPrompt: bool, w: nat)
    requires w > 0 && FrameFit(f) && !Overhangs(f, w) && !FillsLastRow(f.input, f.cursor, |f.prompt|, w)
    requires lines != [] && (inSubPrompt || f.header == [])
    ensures var c, painted := Committed(Painted(e, f, w), f.prompt, lines, inSubPrompt, w), Painted(e, f, w);
            && c.term.row == Start(e) + RowsOf(f.header, w) + FrameLayout(f, w).rows && c.term.col == 0
            && c.term.cells == Above(painted.term.cells, c.term.row) && c.prevCursorRow == 0
  {
    CloseKeepsInputIff(e, f, w);
  }
}
