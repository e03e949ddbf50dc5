/**
 The raw line editor's repaint bookkeeping (apps/cli/src/ui.ts:1184-1365, 1557-1573, 1604-1633) over
 a terminal, with the layout its cursor arithmetic rests on (apps/cli/src/lib/raw-input.ts:168-193).
 */
module RawEditor {
  import opened Text
  import opened Terminal

  // --- layout of the input ---

  datatype Layout = Layout(rows: nat, cursorRow: nat, cursorCol: nat)

  /** The rows lines take when each is indented by `p` cells. */
  function IndentedRows(lines: seq<string>, p: nat, w: nat): nat
    requires w > 0
  {
    if lines == [] then 0 else VisRows(p + |lines[0]|, w) + IndentedRows(lines[1..], p, w)
  }

  /** The length of the lines joined by newlines. */
  function JoinedLength(lines: seq<string>): nat
    requires lines != []
  {
    if |lines| == 1 then |lines[0]| else |lines[0]| + 1 + JoinedLength(lines[1..])
  }

  /** Where the cursor is shown: on the first line that reaches it. */
  function CursorAt(lines: seq<string>, cursor: nat, p: nat, w: nat): (nat, nat)
    requires w > 0 && lines != [] && cursor <= JoinedLength(lines)
  {
    if cursor <= |lines[0]| then (Div(p + cursor, w), Mod(p + cursor, w))
    else
      var at := CursorAt(lines[1..], cursor - |lines[0]| - 1, p, w);
      (VisRows(p + |lines[0]|, w) + at.0, at.1)
  }

  function LayoutOf(lines: seq<string>, cursor: nat, p: nat, w: nat): Layout
    requires w > 0 && lines != [] && cursor <= JoinedLength(lines)
  {
    var at := CursorAt(lines, cursor, p, w);
    Layout(IndentedRows(lines, p, w), at.0, at.1)
  }

  method LayoutInput(lines: seq<string>, cursor: nat, promptVis: nat, cols: nat) returns (r: Layout)
    requires cols > 0 && lines != [] && cursor <= JoinedLength(lines)
    ensures r == LayoutOf(lines, cursor, promptVis, cols)
  {
    var rows, cursorRow, cursorCol := 0, 0, Mod(promptVis, cols);
    var index := 0;
    var found := false;
    var i := 0;
    assert lines[0..] == lines;
    while i < |lines|
      invariant 0 <= i <= |lines|
      invariant rows + IndentedRows(lines[i..], promptVis, cols) == IndentedRows(lines, promptVis, cols)
      invariant !found ==> i < |lines| && index <= cursor && cursor - index <= JoinedLength(lines[i..])
      invariant !found ==>
        var at := CursorAt(lines[i..], cursor - index, promptVis, cols);
        CursorAt(lines, cursor, promptVis, cols) == (rows + at.0, at.1)
      invariant found ==> CursorAt(lines, cursor, promptVis, cols) == (cursorRow, cursorCol)
    {
      assert lines[i..][1..] == lines[i + 1..];
      var line := lines[i];
      if !found && cursor <= index + |line| {
        var abs := promptVis + (cursor - index);
        cursorRow := rows + Div(abs, cols);
        cursorCol := Mod(abs, cols);
        found := true;
      }
      rows := rows + VisRows(promptVis + |line|, cols);
      index := index + |line| + 1;
      i := i + 1;
    }
    r := Layout(rows, cursorRow, cursorCol);
  }

  /** The cursor is at the very end of the input, and the last line fills its last row. */
  predicate FillsLastRow(lines: seq<string>, cursor: nat, p: nat, w: nat)
    requires w > 0 && lines != []
  {
    var n := p + |lines[|lines| - 1]|;
    cursor == JoinedLength(lines) && n > 0 && Mod(n, w) == 0
  }

  /**
   The cursor's row lies inside the input, except that it is one row too far down exactly when the
   cursor is at the end of an input whose last line fills its last row.
   */
  lemma {:induction false} CursorRowInside(lines: seq<string>, cursor: nat, p: nat, w: nat)
    requires w > 0 && lines != [] && cursor <= JoinedLength(lines)
    ensures var l := LayoutOf(lines, cursor, p, w);
            && l.cursorCol < w
            && l.cursorRow <= l.rows
            && (l.cursorRow == l.rows <==> FillsLastRow(lines, cursor, p, w))
    decreases |lines|
  {
    var n := p + |lines[0]|;
    if cursor <= |lines[0]| {
      RowsOfDiv(n, w);
      DivMonotone(p + cursor, n, w);
      if cursor < |lines[0]| && Mod(n, w) == 0 {
        DivSteps(p + cursor, n, w);
      }
      if |lines| > 1 {
        IndentedAtLeastOne(lines[1..], p, w);
      }
    } else {
      CursorRowInside(lines[1..], cursor - |lines[0]| - 1, p, w);
    }
  }

  lemma IndentedAtLeastOne(lines: seq<string>, p: nat, w: nat)
    requires w > 0 && lines != []
    ensures IndentedRows(lines, p, w) >= 1
  {
  }

  // --- frames ---

  /**
   What one paint shows: a header, the prompt, the lines of the input (or the placeholder as the one
   line, with the cursor before it), and a footer, as the cells they occupy.
   */
  datatype Frame = Frame(header: seq<string>, prompt: string, input: seq<string>, cursor: nat, footer: seq<string>)

  predicate FrameFit(f: Frame) {
    && AllFree(f.header, '\n') && Free(f.prompt, '\n') && AllFree(f.input, '\n') && AllFree(f.footer, '\n')
    && f.input != [] && f.cursor <= JoinedLength(f.input)
  }

  function Spaces(n: nat): string {
    seq(n, _ => ' ')
  }

  /** Continuation lines are aligned under the prompt. */
  function InputText(prompt: string, lines: seq<string>): string
    requires lines != []
  {
    prompt + Indented(lines, |prompt|)
  }

  function Indented(lines: seq<string>, p: nat): string
    requires lines != []
  {
    if |lines| == 1 then lines[0] else lines[0] + (NL + Spaces(p) + Indented(lines[1..], p))
  }

  /** `"\n" + line` for every line. */
  function Preceded(lines: seq<string>): string {
    if lines == [] then "" else NL + lines[0] + Preceded(lines[1..])
  }

  function FrameText(f: Frame): string
    requires f.input != []
  {
    Terminated(f.header) + (InputText(f.prompt, f.input) + Preceded(f.footer))
  }

  function FrameLayout(f: Frame, w: nat): Layout
    requires w > 0 && FrameFit(f)
  {
    LayoutOf(f.input, f.cursor, |f.prompt|, w)
  }

  // --- the editor ---

  datatype Editor = Editor(term: Term, prevCursorRow: nat, lastInputRows: nat, lastHeaderRows: nat)

  /** Up to the top of the box and erase from there. */
  function ToTop(e: Editor): Term {
    EraseBelow(Return(Up(e.term, e.prevCursorRow)))
  }

  /** How far the cursor is stepped back up after a frame was written. */
  function StepBack(f: Frame, w: nat): int
    requires w > 0 && FrameFit(f)
  {
    FrameLayout(f, w).rows - 1 - FrameLayout(f, w).cursorRow + RowsOf(f.footer, w)
  }

  function Parked(t: Term, down: int, col: nat, w: nat): Term {
    Right(Return(if down > 0 then Up(t, down) else t), col, w)
  }

  function Painted(e: Editor, f: Frame, w: nat): Editor
    requires w > 0 && FrameFit(f)
  {
    var l := FrameLayout(f, w);
    Editor(Parked(Print(ToTop(e), FrameText(f), w), StepBack(f, w), l.cursorCol, w),
           RowsOf(f.header, w) + l.cursorRow, l.rows, RowsOf(f.header, w))
  }

  /** Drops below the input, erases the footer, and starts afresh there. */
  function Closed(e: Editor): Editor {
    var d := e.lastHeaderRows + e.lastInputRows - e.prevCursorRow;
    Editor(EraseBelow(Down(Return(e.term), if d > 1 then d else 1)), 0, 1, 0)
  }

  /** Wipes the whole box and leaves only the submitted lines behind. */
  function Committed(e: Editor, prompt: string, lines: seq<string>, inSubPrompt: bool, w: nat): Editor
    requires lines != []
  {
    if inSubPrompt || e.lastHeaderRows == 0 then Closed(e)
    else
      var wiped := ToTop(e);
      Editor(if lines == [""] then wiped else Print(wiped, InputText(prompt, lines) + NL, w), 0, 1, 0)
  }

  /** Wipes the box; the row counts of the last paint are kept. */
  function Disarmed(e: Editor): Editor {
    e.(term := ToTop(e), prevCursorRow := 0)
  }

  class RawLineEditor {
    const cols: nat
    var term: Term
    var prevCursorRow: nat
    var lastInputRows: nat
    var lastHeaderRows: nat

    ghost function Model(): Editor
      reads this
    {
      Editor(term, prevCursorRow, lastInputRows, lastHeaderRows)
    }

    constructor (cols: nat, term: Term)
      ensures this.cols == cols && Model() == Editor(term, 0, 1, 0)
    {
      this.cols, this.term := cols, term;
      prevCursorRow, lastInputRows, lastHeaderRows := 0, 1, 0;
    }

    method Rows(lines: seq<string>) returns (rows: nat)
      requires cols > 0
      ensures rows == RowsOf(lines, cols)
    {
      rows := 0;
      var i := 0;
      assert lines[0..] == lines;
      while i < |lines|
        invariant 0 <= i <= |lines| && rows + RowsOf(lines[i..], cols) == RowsOf(lines, cols)
      {
        assert lines[i..][1..] == lines[i + 1..];
        rows := rows + VisRows(|lines[i]|, cols);
        i := i + 1;
      }
    }

    method StepToTop()
      modifies `term
      ensures term == ToTop(old(Model()))
    {
      if prevCursorRow > 0 {
        term := Up(term, prevCursorRow);
      }
      term := EraseBelow(Return(term));
    }

    method Paint(f: Frame)
      requires cols > 0 && FrameFit(f)
      modifies this
      ensures Model() == Painted(old(Model()), f, cols)
    {
      var headerRows := Rows(f.header);
      var layout := LayoutInput(f.input, f.cursor, |f.prompt|, cols);
      var footerRows := Rows(f.footer);
      StepToTop();
      term := Print(term, FrameText(f), cols);
      var downBelowCursor := layout.rows - 1 - layout.cursorRow + footerRows;
      if downBelowCursor > 0 {
        term := Up(term, downBelowCursor);
      }
      term := Return(term);
      term := Right(term, layout.cursorCol, cols);
      prevCursorRow := headerRows + layout.cursorRow;
      lastInputRows := layout.rows;
      lastHeaderRows := headerRows;
    }

    method CloseFrame()
      modifies this
      ensures Model() == Closed(old(Model()))
    {
      var d := lastHeaderRows + lastInputRows - prevCursorRow;
      var down := if d > 1 then d else 1;
      term := EraseBelow(Down(Return(term), down));
      prevCursorRow, lastInputRows, lastHeaderRows := 0, 1, 0;
    }

    method CloseFrameCommit(prompt: string, lines: seq<string>, inSubPrompt: bool)
      requires lines != []
      modifies this
      ensures Model() == Committed(old(Model()), prompt, lines, inSubPrompt, cols)
    {
      if inSubPrompt || lastHeaderRows == 0 {
        CloseFrame();
        return;
      }
      StepToTop();
      if lines != [""] {
        term := Print(term, InputText(prompt, lines) + NL, cols);
      }
      prevCursorRow, lastInputRows, lastHeaderRows := 0, 1, 0;
    }

    method DisableRaw()
      modifies this
      ensures Model() == Disarmed(old(Model()))
    {
      StepToTop();
      prevCursorRow := 0;
    }

    /** A new read starts its box at the cursor. */
    method Question(f: Frame)
      requires cols > 0 && FrameFit(f)
      modifies this
      ensures Model() == Painted(old(Model()).(prevCursorRow := 0), f, cols)
    {
      prevCursorRow := 0;
      Paint(f);
    }
  }
}
