/**
 A terminal of fixed width that is tall enough never to scroll: written cells, a cursor, and the
 control sequences the raw line editor uses. A character after the last column wraps when the next
 one is written, so a cursor column equal to the width means a wrap is pending.
 */
module Terminal {
  import opened Text

  datatype Term = Term(cells: map<(nat, nat), char>, row: nat, col: nat)

  function PutChar(t: Term, c: char, w: nat): Term {
    if c == '\n' then t.(row := t.row + 1, col := 0)
    else if t.col >= w then Term(t.cells[(t.row + 1, 0) := c], t.row + 1, 1)
    else Term(t.cells[(t.row, t.col) := c], t.row, t.col + 1)
  }

  function Print(t: Term, s: string, w: nat): Term
    decreases |s|
  {
    if s == "" then t else Print(PutChar(t, s[0], w), s[1..], w)
  }

  /** CSI n A: up, stopping at the first row. */
  function Up(t: Term, n: nat): Term {
    t.(row := if n <= t.row then t.row - n else 0)
  }

  /** CSI n B. */
  function Down(t: Term, n: nat): Term {
    t.(row := t.row + n)
  }

  /** CR. */
  function Return(t: Term): Term {
    t.(col := 0)
  }

  /** CSI n C: right, stopping at the last column. */
  function Right(t: Term, n: nat, w: nat): Term {
    t.(col := if t.col + n < w then t.col + n else if w > 0 then w - 1 else 0)
  }

  /** CSI 0 J: erases from the cursor to the end of the screen. */
  function EraseBelow(t: Term): Term {
    t.(cells := map k | k in t.cells && (k.0 < t.row || (k.0 == t.row && k.1 < t.col)) :: t.cells[k])
  }

  /** The cells of the rows before `top`. */
  function Above(cells: map<(nat, nat), char>, top: nat): map<(nat, nat), char> {
    map k | k in cells && k.0 < top :: cells[k]
  }

  /** What printing `s` at a place writes, whatever was on the screen. */
  function Written(row: nat, col: nat, s: string, w: nat): map<(nat, nat), char> {
    Print(Term(map[], row, col), s, w).cells
  }

  /** Printing lays the written cells over what was there, and moves the cursor independently of it. */
  lemma {:induction false} PrintOverlays(t: Term, u: Term, s: string, w: nat)
    requires t.row == u.row && t.col == u.col
    ensures Print(t, s, w).row == Print(u, s, w).row && Print(t, s, w).col == Print(u, s, w).col
    ensures t.row <= Print(t, s, w).row
    decreases |s|
  {
    if s != "" {
      PrintOverlays(PutChar(t, s[0], w), PutChar(u, s[0], w), s[1..], w);
    }
  }

  lemma {:induction false} PrintWrites(t: Term, s: string, w: nat)
    ensures Print(t, s, w).cells == t.cells + Written(t.row, t.col, s, w)
    decreases |s|
  {
    if s != "" {
      var u := Term(map[], t.row, t.col);
      PrintWrites(PutChar(t, s[0], w), s[1..], w);
      PrintWrites(PutChar(u, s[0], w), s[1..], w);
    }
  }

  lemma {:induction false} WrittenBelow(row: nat, col: nat, s: string, w: nat)
    ensures forall k :: k in Written(row, col, s, w) ==> row <= k.0
    decreases |s|
  {
    if s != "" {
      var t := PutChar(Term(map[], row, col), s[0], w);
      PrintWrites(t, s[1..], w);
      WrittenBelow(t.row, t.col, s[1..], w);
    }
  }

  lemma {:induction false} PrintInParts(t: Term, a: string, b: string, w: nat)
    ensures Print(t, a + b, w) == Print(Print(t, a, w), b, w)
    decreases |a|
  {
    if a == "" {
      assert a + b == b;
    } else {
      assert (a + b)[1..] == a[1..] + b;
      PrintInParts(PutChar(t, a[0], w), a[1..], b, w);
    }
  }

  // --- how far a text moves the cursor ---

  /** The rows that `n` cells take: the ceiling of n / w, and at least one. */
  function VisRows(n: nat, w: nat): (r: nat)
    requires w > 0
    ensures r >= 1
    decreases n
  {
    if n <= w then 1 else 1 + VisRows(n - w, w)
  }

  /** The floor of n / w. */
  function Div(n: nat, w: nat): nat
    requires w > 0
    decreases n
  {
    if n < w then 0 else 1 + Div(n - w, w)
  }

  /** The remainder of n / w. */
  function Mod(n: nat, w: nat): (r: nat)
    requires w > 0
    ensures r < w
    decreases n
  {
    if n < w then n else Mod(n - w, w)
  }

  lemma {:induction false} RowsOfDiv(n: nat, w: nat)
    requires w > 0
    ensures VisRows(n, w) == if n == 0 then 1 else if Mod(n, w) == 0 then Div(n, w) else Div(n, w) + 1
    decreases n
  {
    if n > w {
      RowsOfDiv(n - w, w);
    }
  }

  lemma {:induction false} DivMonotone(m: nat, n: nat, w: nat)
    requires w > 0 && m <= n
    ensures Div(m, w) <= Div(n, w)
    decreases m
  {
    if m >= w {
      DivMonotone(m - w, n - w, w);
    }
  }

  lemma {:induction false} DivSteps(m: nat, n: nat, w: nat)
    requires w > 0 && m < n && Mod(n, w) == 0
    ensures Div(m, w) < Div(n, w)
    decreases m
  {
    if m >= w {
      DivSteps(m - w, n - w, w);
    }
  }

  /** As long as no wrap is needed, printing moves the cursor along its row. */
  lemma {:induction false} PrintWithinRow(t: Term, s: string, w: nat)
    requires Free(s, '\n') && t.col + |s| <= w
    ensures Print(t, s, w).row == t.row && Print(t, s, w).col == t.col + |s|
    decreases |s|
  {
    if s != "" {
      PrintWithinRow(PutChar(t, s[0], w), s[1..], w);
    }
  }

  lemma WrapsToNextRow(t: Term, u: Term, s: string, w: nat)
    requires w > 0 && s != "" && Free(s, '\n') && t.col == w && u.row == t.row + 1 && u.col == 0
    ensures Print(t, s, w).row == Print(u, s, w).row && Print(t, s, w).col == Print(u, s, w).col
  {
    PrintOverlays(PutChar(t, s[0], w), PutChar(u, s[0], w), s[1..], w);
  }

  /** A line printed from the first column ends in the last of the rows it takes. */
  lemma {:induction false} PrintLineRows(t: Term, s: string, w: nat)
    requires w > 0 && Free(s, '\n') && t.col == 0
    ensures Print(t, s, w).row == t.row + VisRows(|s|, w) - 1
    decreases |s|
  {
    if |s| <= w {
      PrintWithinRow(t, s, w);
    } else {
      assert s == s[..w] + s[w..];
      PrintInParts(t, s[..w], s[w..], w);
      PrintWithinRow(t, s[..w], w);
      var u := Term(map[], t.row + 1, 0);
      WrapsToNextRow(Print(t, s[..w], w), u, s[w..], w);
      PrintLineRows(u, s[w..], w);
    }
  }

  /** The rows that lines take one below the other. */
  function RowsOf(lines: seq<string>, w: nat): nat
    requires w > 0
  {
    if lines == [] then 0 else VisRows(|lines[0]|, w) + RowsOf(lines[1..], w)
  }

  lemma {:induction false} RowsOfConcat(a: seq<string>, b: seq<string>, w: nat)
    requires w > 0
    ensures RowsOf(a + b, w) == RowsOf(a, w) + RowsOf(b, w)
  {
    if a == [] {
      assert a + b == b;
    } else {
      assert (a + b)[1..] == a[1..] + b;
      RowsOfConcat(a[1..], b, w);
    }
  }

  lemma {:induction false} RowsAtLeast(lines: seq<string>, w: nat)
    requires w > 0
    ensures |lines| <= RowsOf(lines, w)
  {
    if lines != [] {
      RowsAtLeast(lines[1..], w);
    }
  }

  /** Lines joined by newlines end in the last of all the rows they take. */
  lemma {:induction false} PrintJoinRows(t: Term, lines: seq<string>, w: nat)
    requires w > 0 && lines != [] && AllFree(lines, '\n') && t.col == 0
    ensures Print(t, Join(lines), w).row == t.row + RowsOf(lines, w) - 1
    decreases |lines|
  {
    PrintLineRows(t, lines[0], w);
    if |lines| > 1 {
      assert Join(lines) == lines[0] + (NL + Join(lines[1..]));
      PrintInParts(t, lines[0], NL + Join(lines[1..]), w);
      PrintInParts(Print(t, lines[0], w), NL, Join(lines[1..]), w);
      var u := Print(t, lines[0], w);
      assert NL[1..] == "";
      assert Print(u, NL, w) == u.(row := u.row + 1, col := 0);
      PrintJoinRows(Print(u, NL, w), lines[1..], w);
    }
  }
}
