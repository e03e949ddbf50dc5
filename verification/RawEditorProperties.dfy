/**
 What the raw editor's repainting does to the screen (apps/cli/src/ui.ts:1295-1365, 1557-1573): it stays
 below the top of the input box, except for one configuration of frame and cursor, and every frame
 equals one painted from scratch.
 */
module RawEditorProperties {
  import opened Text
  import opened Terminal
  import opened RawEditor

  // --- the rows of a frame ---

  function InputLines(prompt: string, lines: seq<string>): seq<string>
    requires lines != []
  {
    [prompt + lines[0]] + IndentedLines(lines[1..], |prompt|)
  }

  function IndentedLines(lines: seq<string>, p: nat): seq<string> {
    if lines == [] then [] else [Spaces(p) + lines[0]] + IndentedLines(lines[1..], p)
  }

  lemma JoinCons(l: string, ls: seq<string>)
    requires ls != []
    ensures Join([l] + ls) == l + NL + Join(ls)
  {
    assert ([l] + ls)[1..] == ls;
  }

  lemma {:induction false} IndentedIsJoined(first: string, lines: seq<string>, p: nat)
    requires lines != []
    ensures first + Indented(lines, p) == Join([first + lines[0]] + IndentedLines(lines[1..], p))
    decreases |lines|
  {
    var rest := IndentedLines(lines[1..], p);
    if |lines| == 1 {
      assert [first + lines[0]] + rest == [first + lines[0]];
    } else {
      IndentedIsJoined(Spaces(p), lines[1..], p);
      JoinCons(first + lines[0], rest);
      assert first + (lines[0] + (NL + Spaces(p) + Indented(lines[1..], p)))
          == first + lines[0] + NL + (Spaces(p) + Indented(lines[1..], p));
    }
  }

  lemma {:induction false} RowsOfIndented(lines: seq<string>, p: nat, w: nat)
    requires w > 0
    ensures RowsOf(IndentedLines(lines, p), w) == IndentedRows(lines, p, w)
  {
    if lines != [] {
      RowsOfIndented(lines[1..], p, w);
    }
  }

  lemma RowsOfInput(prompt: string, lines: seq<string>, w: nat)
    requires w > 0 && lines != []
    ensures RowsOf(InputLines(prompt, lines), w) == IndentedRows(lines, |prompt|, w)
  {
    RowsOfIndented(lines[1..], |prompt|, w);
    assert InputLines(prompt, lines)[1..] == IndentedLines(lines[1..], |prompt|);
  }

  lemma {:induction false} IndentedFree(lines: seq<string>, p: nat)
    requires AllFree(lines, '\n')
    ensures AllFree(IndentedLines(lines, p), '\n')
  {
    if lines != [] {
      IndentedFree(lines[1..], p);
    }
  }

  lemma {:induction false} PrecededJoin(lines: seq<string>, footer: seq<string>)
    requires lines != []
    ensures Join(lines) + Preceded(footer) == Join(lines + footer)
    decreases |lines|, |footer|
  {
    if |lines| > 1 {
      assert (lines + footer)[1..] == lines[1..] + footer;
      PrecededJoin(lines[1..], footer);
      assert lines[0] + NL + Join(lines[1..]) + Preceded(footer)
          == lines[0] + NL + (Join(lines[1..]) + Preceded(footer));
    } else if footer == [] {
      assert lines + footer == lines && Join(lines) + "" == Join(lines);
    } else {
      assert (lines + footer)[1..] == footer;
      PrecededJoin([footer[0]], footer[1..]);
      assert [footer[0]] + footer[1..] == footer;
      assert lines[0] + (NL + footer[0] + Preceded(footer[1..])) == lines[0] + NL + (footer[0] + Preceded(footer[1..]));
    }
  }

  lemma {:induction false} TerminatedJoin(header: seq<string>, lines: seq<string>)
    requires lines != []
    ensures Terminated(header) + Join(lines) == Join(header + lines)
  {
    if header == [] {
      assert header + lines == lines;
    } else {
      assert (header + lines)[1..] == header[1..] + lines;
      TerminatedJoin(header[1..], lines);
      assert header[0] + NL + Terminated(header[1..]) + Join(lines)
          == header[0] + NL + (Terminated(header[1..]) + Join(lines));
    }
  }

  function FrameLines(f: Frame): seq<string>
    requires f.input != []
  {
    f.header + (InputLines(f.prompt, f.input) + f.footer)
  }

  lemma FrameIsJoined(f: Frame)
    requires FrameFit(f)
    ensures FrameText(f) == Join(FrameLines(f)) && AllFree(FrameLines(f), '\n') && FrameLines(f) != []
  {
    IndentedIsJoined(f.prompt, f.input, |f.prompt|);
    IndentedFree(f.input[1..], |f.prompt|);
    PrecededJoin(InputLines(f.prompt, f.input), f.footer);
    TerminatedJoin(f.header, InputLines(f.prompt, f.input) + f.footer);
  }

  /** A frame takes the rows of its header, its input and its footer. */
  lemma FrameRows(f: Frame, t: Term, w: nat)
    requires w > 0 && FrameFit(f) && t.col == 0
    ensures Print(t, FrameText(f), w).row
            == t.row + RowsOf(f.header, w) + FrameLayout(f, w).rows + RowsOf(f.footer, w) - 1
  {
    FrameIsJoined(f);
    PrintJoinRows(t, FrameLines(f), w);
    RowsOfConcat(f.header, InputLines(f.prompt, f.input) + f.footer, w);
    RowsOfConcat(InputLines(f.prompt, f.input), f.footer, w);
    RowsOfInput(f.prompt, f.input, w);
  }

  // --- one paint ---

  /** The editor takes the top of its box to be this row. */
  function Top(e: Editor): int {
    e.term.row - e.prevCursorRow
  }

  /** The row at which it starts to wipe or paint: the terminal has no row above the first. */
  function Start(e: Editor): nat {
    if Top(e) > 0 then Top(e) else 0
  }

  /** A frame without a footer whose input fills its last row, with the cursor at its end. */
  predicate Overhangs(f: Frame, w: nat)
    requires w > 0 && FrameFit(f)
  {
    f.footer == [] && FillsLastRow(f.input, f.cursor, |f.prompt|, w)
  }

  lemma StepBackRange(f: Frame, w: nat)
    requires w > 0 && FrameFit(f)
    ensures StepBack(f, w) == -1 <==> Overhangs(f, w)
    ensures !Overhangs(f, w) ==> StepBack(f, w) >= 0
  {
    CursorRowInside(f.input, f.cursor, |f.prompt|, w);
    RowsAtLeast(f.footer, w);
  }

  lemma ToTopKeepsAbove(e: Editor)
    ensures ToTop(e).row == Start(e) && ToTop(e).col == 0
    ensures ToTop(e).cells == Above(e.term.cells, Start(e))
  {
  }

  /**
   After a paint, `prevCursorRow` is the cursor's distance from the top of the box exactly when the frame
   does not overhang; otherwise the editor believes its box to begin one row too high.
   */
  lemma PaintKeepsTopIff(e: Editor, f: Frame, w: nat)
    requires w > 0 && FrameFit(f)
    ensures Top(Painted(e, f, w)) == Start(e) <==> !Overhangs(f, w)
    ensures Overhangs(f, w) ==> Top(Painted(e, f, w)) == Start(e) - 1
    ensures Painted(e, f, w).term.col == FrameLayout(f, w).cursorCol
  {
    ToTopKeepsAbove(e);
    FrameRows(f, ToTop(e), w);
    StepBackRange(f, w);
    CursorRowInside(f.input, f.cursor, |f.prompt|, w);
  }

  /** After any paint the screen is what was above the box, and the frame as painted on an empty screen. */
  lemma PaintIsFresh(e: Editor, f: Frame, w: nat)
    requires w > 0 && FrameFit(f)
    ensures Painted(e, f, w).term.cells == Above(e.term.cells, Start(e)) + Written(Start(e), 0, FrameText(f), w)
  {
    ToTopKeepsAbove(e);
    PrintWrites(ToTop(e), FrameText(f), w);
  }

  /** A paint after an overhanging one erases the row above the box and starts there. */
  lemma OverhangEatsARow(e: Editor, f: Frame, g: Frame, w: nat)
    requires w > 0 && FrameFit(f) && FrameFit(g) && Overhangs(f, w) && Start(e) > 0
    ensures Painted(Painted(e, f, w), g, w).term.cells
            == Above(e.term.cells, Start(e) - 1) + Written(Start(e) - 1, 0, FrameText(g), w)
  {
    PaintKeepsTopIff(e, f, w);
    PaintIsFresh(e, f, w);
    PaintOver(Painted(e, f, w), e.term.cells, FrameText(f), Start(e), g, w);
  }

  /** Painting over a text that was written at `top`, from there or from further up. */
  lemma PaintOver(p: Editor, cells: map<(nat, nat), char>, text: string, top: nat, g: Frame, w: nat)
    requires w > 0 && FrameFit(g) && Start(p) <= top && p.term.cells == Above(cells, top) + Written(top, 0, text, w)
    ensures Painted(p, g, w).term.cells == Above(cells, Start(p)) + Written(Start(p), 0, FrameText(g), w)
  {
    PaintIsFresh(p, g, w);
    WrittenBelow(top, 0, text, w);
    AboveOfOverlay(cells, Written(top, 0, text, w), top, Start(p));
  }

  lemma AboveOfOverlay(cells: map<(nat, nat), char>, written: map<(nat, nat), char>, top: nat, row: nat)
    requires row <= top && forall k :: k in written ==> top <= k.0
    ensures Above(Above(cells, top) + written, row) == Above(cells, row)
  {
  }

  /** A text is all there is from `top` on, and the editor believes that its box begins a row higher. */
  ghost predicate ClimbedTo(r: Editor, cells: map<(nat, nat), char>, text: string, top: nat, w: nat) {
    Top(r) == top - 1 && r.term.cells == Above(cells, top) + Written(top, 0, text, w)
  }

  lemma ClimbsFirst(e: Editor, f: Frame, w: nat)
    requires w > 0 && FrameFit(f) && Overhangs(f, w)
    ensures ClimbedTo(Painted(e, f, w), e.term.cells, FrameText(f), Start(e), w)
  {
    PaintKeepsTopIff(e, f, w);
    PaintIsFresh(e, f, w);
  }

  lemma ClimbsOn(r: Editor, cells: map<(nat, nat), char>, f: Frame, text: string, top: nat, above: nat, w: nat)
    requires w > 0 && FrameFit(f) && Overhangs(f, w)
    requires text == FrameText(f) && top == above + 1 && ClimbedTo(r, cells, text, top, w)
    ensures ClimbedTo(Painted(r, f, w), cells, text, above, w)
  {
    PaintKeepsTopIff(r, f, w);
    PaintOver(r, cells, text, top, f, w);
  }

  /** A frame painted `n` times more. */
  function Repainted(e: Editor, f: Frame, n: nat, w: nat): Editor
    requires w > 0 && FrameFit(f)
  {
    if n == 0 then e else Painted(Repainted(e, f, n - 1, w), f, w)
  }

  lemma {:induction false} ClimbsFrom(
    p: Editor, cells: map<(nat, nat), char>, f: Frame, text: string, top: nat, n: nat, w: nat, from: nat)
    requires w > 0 && FrameFit(f) && Overhangs(f, w) && text == FrameText(f)
    requires from == top + n && ClimbedTo(p, cells, text, from, w)
    ensures ClimbedTo(Repainted(p, f, n, w), cells, text, top, w)
    decreases n
  {
    if n == 0 {
      assert from == top;
    } else {
      ClimbsFrom(p, cells, f, text, top + 1, n - 1, w, from);
      ClimbsOn(Repainted(p, f, n - 1, w), cells, f, text, top + 1, top, w);
    }
  }

  /** An overhanging frame climbs up one row with every repaint, over what was above its box. */
  lemma OverhangClimbs(e: Editor, f: Frame, n: nat, top: nat, w: nat)
    requires w > 0 && FrameFit(f) && Overhangs(f, w) && Start(e) == top + n
    ensures ClimbedTo(Repainted(Painted(e, f, w), f, n, w), e.term.cells, FrameText(f), top, w)
  {
    ClimbsFirst(e, f, w);
    ClimbsFrom(Painted(e, f, w), e.term.cells, f, FrameText(f), top, n, w, Start(e));
  }

  /** One that does overhang: an input that ends at the right edge, with no footer below it. */
  lemma OverhangExists() returns (f: Frame, w: nat)
    ensures w > 0 && FrameFit(f) && Overhangs(f, w)
  {
    f, w := Frame([], "> ", ["abcdefgh"], 8, []), 10;
    assert JoinedLength(f.input) == 8;
  }

  // --- whole sessions ---

  datatype Op =
    | Repaint(frame: Frame)
    | Ask(frame: Frame)
    | Submit(prompt: string, lines: seq<string>, inSubPrompt: bool)
    | EndRead
    | Suspend
    | Output(text: string)

  predicate OpFit(op: Op) {
    match op
    case Repaint(f) => FrameFit(f)
    case Ask(f) => FrameFit(f)
    case Submit(_, lines, _) => lines != []
    case _ => true
  }

  predicate OpsFit(ops: seq<Op>) {
    forall i :: 0 <= i < |ops| ==> OpFit(ops[i])
  }

  function Apply(e: Editor, op: Op, w: nat): Editor
    requires w > 0 && OpFit(op)
  {
    match op
    case Repaint(f) => Painted(e, f, w)
    case Ask(f) => Painted(e.(prevCursorRow := 0), f, w)
    case Submit(prompt, lines, sub) => Committed(e, prompt, lines, sub, w)
    case EndRead => Closed(e)
    case Suspend => Disarmed(e)
    case Output(text) => e.(term := Print(e.term, text, w))
  }

  function RunAll(e: Editor, ops: seq<Op>, w: nat): Editor
    requires w > 0 && OpsFit(ops)
    decreases |ops|
  {
    if ops == [] then e else RunAll(Apply(e, ops[0], w), ops[1..], w)
  }

  /** One for a paint of an overhanging frame. */
  function RowsLost(op: Op, w: nat): nat
    requires w > 0 && OpFit(op)
  {
    match op
    case Repaint(f) => if Overhangs(f, w) then 1 else 0
    case Ask(f) => if Overhangs(f, w) then 1 else 0
    case _ => 0
  }

  function Overhanging(ops: seq<Op>, w: nat): nat
    requires w > 0 && OpsFit(ops)
  {
    if ops == [] then 0 else RowsLost(ops[0], w) + Overhanging(ops[1..], w)
  }

  /** `n` rows further up, as far as there are any. */
  function Higher(row: nat, n: nat): nat {
    if row > n then row - n else 0
  }

  /** The rows above `row` are untouched, and what comes next starts there or below. */
  ghost predicate Spares(e: Editor, e': Editor, row: nat) {
    row <= Start(e') && Above(e'.term.cells, row) == Above(e.term.cells, row)
  }

  lemma SparesHigher(e: Editor, e': Editor, row: nat, higher: nat)
    requires Spares(e, e', row) && higher <= row
    ensures Spares(e, e', higher)
  {
    assert Above(Above(e'.term.cells, row), higher) == Above(e'.term.cells, higher);
    assert Above(Above(e.term.cells, row), higher) == Above(e.term.cells, higher);
  }

  lemma HigherTwice(top: nat, later: nat, lost: nat, n: nat)
    requires Higher(top, lost) <= later
    ensures Higher(top, lost + n) <= Higher(top, lost) && Higher(top, lost + n) <= Higher(later, n)
  {
  }

  /** What two sequences of operations lose adds up. */
  lemma SparesThen(e: Editor, b: Editor, c: Editor, lost: nat, n: nat)
    requires Spares(e, b, Higher(Start(e), lost)) && Spares(b, c, Higher(Start(b), n))
    ensures Spares(e, c, Higher(Start(e), lost + n))
  {
    var row := Higher(Start(e), lost + n);
    HigherTwice(Start(e), Start(b), lost, n);
    SparesHigher(e, b, Higher(Start(e), lost), row);
    SparesHigher(b, c, Higher(Start(b), n), row);
  }

  lemma PrintSpares(t: Term, s: string, w: nat, top: nat)
    requires top <= t.row
    ensures Above(Print(t, s, w).cells, top) == Above(t.cells, top)
    ensures t.row <= Print(t, s, w).row
  {
    PrintWrites(t, s, w);
    WrittenBelow(t.row, t.col, s, w);
    PrintOverlays(t, t, s, w);
  }

  lemma PaintSpares(e: Editor, f: Frame, w: nat)
    requires w > 0 && FrameFit(f)
    ensures Spares(e, Painted(e, f, w), Higher(Start(e), if Overhangs(f, w) then 1 else 0))
  {
    var row := Higher(Start(e), if Overhangs(f, w) then 1 else 0);
    PaintKeepsTopIff(e, f, w);
    PaintIsFresh(e, f, w);
    WrittenBelow(Start(e), 0, FrameText(f), w);
    AboveOfOverlay(e.term.cells, Written(Start(e), 0, FrameText(f), w), Start(e), row);
  }

  lemma ClosedSpares(e: Editor)
    ensures Spares(e, Closed(e), Start(e))
  {
  }

  lemma CommitSpares(e: Editor, prompt: string, lines: seq<string>, sub: bool, w: nat)
    requires w > 0 && lines != []
    ensures Spares(e, Committed(e, prompt, lines, sub, w), Start(e))
  {
    if sub || e.lastHeaderRows == 0 {
      ClosedSpares(e);
    } else {
      ToTopKeepsAbove(e);
      if lines != [""] {
        PrintSpares(ToTop(e), InputText(prompt, lines) + NL, w, Start(e));
      }
    }
  }

  lemma ApplySpares(e: Editor, op: Op, w: nat)
    requires w > 0 && OpFit(op)
    ensures Spares(e, Apply(e, op, w), Higher(Start(e), RowsLost(op, w)))
  {
    match op
    case Repaint(f) => PaintSpares(e, f, w);
    case Ask(f) =>
      var a := e.(prevCursorRow := 0);
      PaintSpares(a, f, w);
      var lost := if Overhangs(f, w) then 1 else 0;
      SparesHigher(a, Painted(a, f, w), Higher(Start(a), lost), Higher(Start(e), lost));
    case Submit(prompt, lines, sub) => CommitSpares(e, prompt, lines, sub, w);
    case EndRead => ClosedSpares(e);
    case Suspend => ToTopKeepsAbove(e);
    case Output(text) => PrintSpares(e.term, text, w, Start(e));
  }

  /**
   Over every sequence of reads, repaints, submits, suspends and output, what was above the box at any point is
   touched by at most one row for each overhanging paint since; without one, it is not touched at all.
   */
  lemma {:induction false} SessionSparesScrollback(e: Editor, ops: seq<Op>, w: nat)
    requires w > 0 && OpsFit(ops)
    ensures Spares(e, RunAll(e, ops, w), Higher(Start(e), Overhanging(ops, w)))
    decreases |ops|
  {
    if ops != [] {
      var b, rest := Apply(e, ops[0], w), ops[1..];
      ApplySpares(e, ops[0], w);
      SessionSparesScrollback(b, rest, w);
      SparesThen(e, b, RunAll(b, rest, w), RowsLost(ops[0], w), Overhanging(rest, w));
    }
  }

  // --- how a read ends ---

  /**
   Closing the frame right after a paint leaves the header and the input and puts the cursor just below
   them, exactly when the input does not fill its last row under the cursor; then it is one row too low.
   */
  lemma CloseKeepsInputIff(e: Editor, f: Frame, w: nat)
    requires w > 0 && FrameFit(f) && !Overhangs(f, w)
    ensures var c, below := Closed(Painted(e, f, w)), Start(e) + RowsOf(f.header, w) + FrameLayout(f, w).rows;
            && (c.term.row == below <==> !FillsLastRow(f.input, f.cursor, |f.prompt|, w))
            && below <= c.term.row <= below + 1
            && c.term.col == 0
            && c.term.cells == Above(Painted(e, f, w).term.cells, c.term.row)
  {
    PaintKeepsTopIff(e, f, w);
    CursorRowInside(f.input, f.cursor, |f.prompt|, w);
  }

  lemma PaintLeavesAbove(e: Editor, f: Frame, w: nat)
    requires w > 0 && FrameFit(f)
    ensures Above(Painted(e, f, w).term.cells, Start(e)) == Above(e.term.cells, Start(e))
  {
    PaintIsFresh(e, f, w);
    WrittenBelow(Start(e), 0, FrameText(f), w);
  }

  /**
   Submitting from a framed box leaves what was above it and the prompt with the submitted lines, with
   no trace of the frame, and the cursor on the row below.
   */
  lemma SubmitLeavesOnlyTheMessage(e: Editor, f: Frame, lines: seq<string>, w: nat)
    requires w > 0 && FrameFit(f) && !Overhangs(f, w) && f.header != []
    requires lines != [] && lines != [""] && AllFree(lines, '\n')
    ensures var c := Committed(Painted(e, f, w), f.prompt, lines, false, w);
            && c.term.cells == Above(e.term.cells, Start(e)) + Written(Start(e), 0, InputText(f.prompt, lines) + NL, w)
            && c.term.row == Start(e) + IndentedRows(lines, |f.prompt|, w)
            && c.term.col == 0
            && c.prevCursorRow == 0
  {
    var p := Painted(e, f, w);
    RowsAtLeast(f.header, w);
    PaintLeavesAbove(e, f, w);
    PaintKeepsTopIff(e, f, w);
    ToTopKeepsAbove(p);
    var t := ToTop(p);
    PrintWrites(t, InputText(f.prompt, lines) + NL, w);
    PrintInParts(t, InputText(f.prompt, lines), NL, w);
    IndentedIsJoined(f.prompt, lines, |f.prompt|);
    IndentedFree(lines[1..], |f.prompt|);
    PrintJoinRows(t, InputLines(f.prompt, lines), w);
    RowsOfInput(f.prompt, lines, w);
    assert NL[1..] == "";
  }

  /** An empty submit leaves nothing of the box. */
  lemma EmptySubmitLeavesNothing(e: Editor, f: Frame, w: nat)
    requires w > 0 && FrameFit(f) && !Overhangs(f, w) && f.header != []
    ensures var c := Committed(Painted(e, f, w), f.prompt, [""], false, w);
            c.term.cells == Above(e.term.cells, Start(e)) && c.term.row == Start(e) && c.term.col == 0
  {
    RowsAtLeast(f.header, w);
    PaintLeavesAbove(e, f, w);
    PaintKeepsTopIff(e, f, w);
    ToTopKeepsAbove(Painted(e, f, w));
  }
}
