/**
 The two pairings of a hunk's deleted and added lines: for word highlights and for side-by-side
 rows (packages/tui/src/diff-view.ts:182-212, 318-347). Lines are referred to by their position.
 */
module DiffPairs {
  import opened Wrappers
  import opened Seqs
  import opened DiffTypes
  import opened DiffSpans

  /** The end of the run of lines of kind `k` that starts at `i`. */
  function RunEnd(lines: seq<DiffLine>, i: nat, k: LineKind): (r: nat)
    requires i <= |lines|
    ensures i <= r <= |lines|
    ensures forall j :: i <= j < r ==> lines[j].kind == k
    ensures r < |lines| ==> lines[r].kind != k
    decreases |lines| - i
  {
    if i < |lines| && lines[i].kind == k then RunEnd(lines, i + 1, k) else i
  }

  method FindRunEnd(lines: seq<DiffLine>, i: nat, k: LineKind) returns (d: nat)
    requires i <= |lines|
    ensures d == RunEnd(lines, i, k)
  {
    d := i;
    while d < |lines| && lines[d].kind == k
      invariant i <= d <= |lines| && RunEnd(lines, i, k) == RunEnd(lines, d, k)
    {
      d := d + 1;
    }
  }

  /** Pairs the first `n` positions from `i` with those from `d`. */
  function Zip(i: nat, d: nat, n: nat): (r: seq<(nat, nat)>)
    ensures |r| == n
  {
    seq(n, k requires 0 <= k < n => (i + k, d + k))
  }

  // --- pairs for word highlights ---

  function SpanPairs(lines: seq<DiffLine>, i: nat): seq<(nat, nat)>
    requires i <= |lines|
    decreases |lines| - i
  {
    if i == |lines| then []
    else if lines[i].kind != Del then SpanPairs(lines, i + 1)
    else
      var d := RunEnd(lines, i, Del);
      var a := RunEnd(lines, d, Add);
      Zip(i, d, Min(d - i, a - d)) + SpanPairs(lines, a)
  }

  /** Sets the spans of one pair of lines. */
  function Highlight(lines: seq<DiffLine>, pair: (nat, nat)): (r: seq<DiffLine>)
    ensures |r| == |lines|
    ensures forall j :: 0 <= j < |lines| ==> r[j].(span := None) == lines[j].(span := None)
  {
    if pair.0 < |lines| && pair.1 < |lines| && SpanOf(lines[pair.0].text, lines[pair.1].text).Some?
    then
      var s := SpanOf(lines[pair.0].text, lines[pair.1].text).value;
      lines[pair.0 := lines[pair.0].(span := Some(s.del))][pair.1 := lines[pair.1].(span := Some(s.add))]
    else lines
  }

  function HighlightAll(lines: seq<DiffLine>, pairs: seq<(nat, nat)>): (r: seq<DiffLine>)
    ensures |r| == |lines|
    ensures forall j :: 0 <= j < |lines| ==> r[j].(span := None) == lines[j].(span := None)
    decreases |pairs|
  {
    if pairs == [] then lines else HighlightAll(Highlight(lines, pairs[0]), pairs[1..])
  }

  function WithSpans(lines: seq<DiffLine>): seq<DiffLine> {
    HighlightAll(lines, SpanPairs(lines, 0))
  }

  ghost predicate SameKinds(a: seq<DiffLine>, b: seq<DiffLine>) {
    |a| == |b| && forall j :: 0 <= j < |a| ==> a[j].kind == b[j].kind
  }

  lemma {:induction false} SameRunEnd(a: seq<DiffLine>, b: seq<DiffLine>, i: nat, k: LineKind)
    requires SameKinds(a, b) && i <= |a|
    ensures RunEnd(a, i, k) == RunEnd(b, i, k)
    decreases |a| - i
  {
    if i < |a| && a[i].kind == k {
      SameRunEnd(a, b, i + 1, k);
    }
  }

  lemma HighlightFirst(lines: seq<DiffLine>, first: (nat, nat), rest: seq<(nat, nat)>)
    ensures HighlightAll(lines, [first] + rest) == HighlightAll(Highlight(lines, first), rest)
  {
    HeadAndRest(first, rest);
  }

  lemma {:induction false} HighlightParts(lines: seq<DiffLine>, p: seq<(nat, nat)>, q: seq<(nat, nat)>)
    ensures HighlightAll(lines, p + q) == HighlightAll(HighlightAll(lines, p), q)
    decreases |p|
  {
    if p == [] {
      WithEmpty(q);
    } else {
      var first, rest := p[0], p[1..];
      Headed(p);
      Regroup([first], rest, q);
      HighlightFirst(lines, first, rest);
      HighlightFirst(lines, first, rest + q);
      HighlightParts(Highlight(lines, first), rest, q);
    }
  }

  method HighlightPair(lines: array<DiffLine>, p: nat, q: nat)
    requires p < lines.Length && q < lines.Length
    modifies lines
    ensures lines[..] == Highlight(old(lines[..]), (p, q))
  {
    var span := ComputeSpan(lines[p].text, lines[q].text);
    if span.Some? {
      var add := lines[q];
      lines[p] := lines[p].(span := Some(span.value.del));
      lines[q] := add.(span := Some(span.value.add));
    }
  }

  /** The pairs of a run from the `k`-th on: the `k`-th is next. */
  lemma HighlightNext(lines: seq<DiffLine>, i: nat, d: nat, n: nat, k: nat)
    requires k < n
    ensures HighlightAll(lines, Zip(i, d, n)[k..])
         == HighlightAll(Highlight(lines, (i + k, d + k)), Zip(i, d, n)[k + 1..])
  {
    var rest := Zip(i, d, n)[k..];
    assert rest[0] == (i + k, d + k) && rest[1..] == Zip(i, d, n)[k + 1..];
  }

  lemma HighlightEnds(lines: seq<DiffLine>, i: nat, d: nat, n: nat)
    ensures HighlightAll(lines, Zip(i, d, n)[n..]) == lines
    ensures Zip(i, d, n)[0..] == Zip(i, d, n)
  {
  }

  /** Highlights the first `pairs` lines from `i` against those from `d`. */
  method HighlightRun(lines: array<DiffLine>, i: nat, d: nat, pairs: nat)
    requires i + pairs <= d && d + pairs <= lines.Length
    modifies lines
    ensures lines[..] == HighlightAll(old(lines[..]), Zip(i, d, pairs))
  {
    var k := 0;
    HighlightEnds(lines[..], i, d, pairs);
    while k < pairs
      invariant k <= pairs
      invariant HighlightAll(lines[..], Zip(i, d, pairs)[k..]) == HighlightAll(old(lines[..]), Zip(i, d, pairs))
    {
      HighlightNext(lines[..], i, d, pairs, k);
      HighlightPair(lines, i + k, d + k);
      k := k + 1;
    }
    HighlightEnds(lines[..], i, d, pairs);
  }

  lemma HighlightOneMore(lines: seq<DiffLine>, pairs: seq<(nat, nat)>, k: nat)
    requires k < |pairs|
    ensures HighlightAll(lines, pairs[..k + 1]) == Highlight(HighlightAll(lines, pairs[..k]), pairs[k])
  {
    assert pairs[..k + 1] == pairs[..k] + [pairs[k]];
    HighlightParts(lines, pairs[..k], [pairs[k]]);
    var last := [pairs[k]];
    assert last[1..] == [];
  }

  lemma PairsFrom(now: seq<DiffLine>, before: seq<DiffLine>, i: nat, d: nat, a: nat)
    requires SameKinds(now, before) && i < |now| && now[i].kind == Del
    requires d == RunEnd(now, i, Del) && a == RunEnd(now, d, Add)
    ensures SpanPairs(before, i) == Zip(i, d, Min(d - i, a - d)) + SpanPairs(before, a)
  {
    SameRunEnd(now, before, i, Del);
    SameRunEnd(now, before, d, Add);
    PairsOfRunFirst(before, i, d, a);
  }

  lemma PairsOfRunFirst(lines: seq<DiffLine>, i: nat, d: nat, a: nat)
    requires i < |lines| && lines[i].kind == Del
    requires d == RunEnd(lines, i, Del) && a == RunEnd(lines, d, Add)
    ensures SpanPairs(lines, i) == Zip(i, d, Min(d - i, a - d)) + SpanPairs(lines, a)
  {
  }

  /** The pairs from a run of deletions on are those of the run and those behind its additions. */
  lemma RunOfPairs(now: seq<DiffLine>, before: seq<DiffLine>, i: nat, d: nat, a: nat)
    requires SameKinds(now, before) && i < |now| && now[i].kind == Del
    requires d == RunEnd(now, i, Del) && a == RunEnd(now, d, Add)
    ensures HighlightAll(HighlightAll(now, Zip(i, d, Min(d - i, a - d))), SpanPairs(before, a))
         == HighlightAll(now, SpanPairs(before, i))
  {
    PairsFrom(now, before, i, d, a);
    HighlightParts(now, Zip(i, d, Min(d - i, a - d)), SpanPairs(before, a));
  }

  /** Marks the changed spans of a hunk's lines in place. */
  method ComputeWordSpans(lines: array<DiffLine>)
    modifies lines
    ensures lines[..] == WithSpans(old(lines[..]))
  {
    var i := 0;
    ghost var before := lines[..];
    while i < lines.Length
      invariant 0 <= i <= lines.Length && SameKinds(lines[..], before)
      invariant HighlightAll(lines[..], SpanPairs(before, i)) == WithSpans(before)
      decreases lines.Length - i
    {
      if lines[i].kind != Del {
        i := i + 1;
        continue;
      }
      var d := FindRunEnd(lines[..], i, Del);
      var a := FindRunEnd(lines[..], d, Add);
      var pairs := Min(d - i, a - d);
      RunOfPairs(lines[..], before, i, d, a);
      HighlightRun(lines, i, d, pairs);
      i := if a > i then a else i + 1;
    }
  }

  // --- side-by-side rows ---

  datatype Row = Row(left: Option<nat>, right: Option<nat>)

  function Within(i: nat, d: nat): Option<nat> {
    if i < d then Some(i) else None
  }

  function Next(i: nat, d: nat): nat {
    if i < d then i + 1 else i
  }

  /** Rows with the positions `[i, d)` on the left and `[p, a)` on the right, from the first ones on. */
  function SideRows(i: nat, d: nat, p: nat, a: nat): seq<Row>
    requires i <= d && p <= a
    decreases d - i + (a - p)
  {
    if i == d && p == a then []
    else [Row(Within(i, d), Within(p, a))] + SideRows(Next(i, d), d, Next(p, a), a)
  }

  /** The rows of a run of deletions `[i, d)` followed by a run of additions `[d, a)`. */
  function RunRows(i: nat, d: nat, a: nat): seq<Row>
    requires i <= d <= a
  {
    SideRows(i, d, d, a)
  }

  function Rows(lines: seq<DiffLine>, i: nat): seq<Row>
    requires i <= |lines|
    decreases |lines| - i
  {
    if i == |lines| then []
    else if lines[i].kind == Context then [Row(Some(i), Some(i))] + Rows(lines, i + 1)
    else
      var d := RunEnd(lines, i, Del);
      var a := RunEnd(lines, d, Add);
      assert a > i;
      RunRows(i, d, a) + Rows(lines, a)
  }

  /** The end of the first `k` positions from `i` on. */
  function Reached(i: nat, d: nat, k: nat): nat {
    if i + k <= d then i + k else d
  }

  lemma RowsPush(rows: seq<Row>, i: nat, d: nat, p: nat, a: nat)
    requires i <= d && p <= a && (i < d || p < a)
    ensures (rows + [Row(Within(i, d), Within(p, a))]) + SideRows(Next(i, d), d, Next(p, a), a)
         == rows + SideRows(i, d, p, a)
  {
    Regroup(rows, [Row(Within(i, d), Within(p, a))], SideRows(Next(i, d), d, Next(p, a), a));
  }

  method PairRun(i: nat, d: nat, a: nat) returns (rows: seq<Row>)
    requires i <= d <= a
    ensures rows == RunRows(i, d, a)
  {
    rows := [];
    var dels, adds := d - i, a - d;
    var rowCount := if dels >= adds then dels else adds;
    var k := 0;
    WithEmpty(SideRows(i, d, d, a));
    while k < rowCount
      invariant k <= rowCount
      invariant rows + SideRows(Reached(i, d, k), d, Reached(d, a, k), a) == RunRows(i, d, a)
    {
      RowsPush(rows, Reached(i, d, k), d, Reached(d, a, k), a);
      rows := rows + [Row(if k < dels then Some(i + k) else None, if k < adds then Some(d + k) else None)];
      k := k + 1;
    }
    WithEmpty(rows);
  }

  /** The rows from the start of a run on, behind those that are there. */
  lemma RowsFromRun(rows: seq<Row>, lines: seq<DiffLine>, i: nat, d: nat, a: nat)
    requires i < |lines| && lines[i].kind != Context && d == RunEnd(lines, i, Del) && a == RunEnd(lines, d, Add)
    ensures i < a && (rows + RunRows(i, d, a)) + Rows(lines, a) == rows + Rows(lines, i)
  {
    Regroup(rows, RunRows(i, d, a), Rows(lines, a));
  }

  lemma RowsFromContext(rows: seq<Row>, lines: seq<DiffLine>, i: nat)
    requires i < |lines| && lines[i].kind == Context
    ensures (rows + [Row(Some(i), Some(i))]) + Rows(lines, i + 1) == rows + Rows(lines, i)
  {
    Regroup(rows, [Row(Some(i), Some(i))], Rows(lines, i + 1));
  }

  lemma RowsEnd(rows: seq<Row>, lines: seq<DiffLine>)
    ensures rows + Rows(lines, |lines|) == rows
  {
    WithEmpty(rows);
  }

  method PairSideBySide(lines: seq<DiffLine>) returns (rows: seq<Row>)
    ensures rows == Rows(lines, 0)
  {
    rows := [];
    var i := 0;
    WithEmpty(Rows(lines, 0));
    while i < |lines|
      invariant 0 <= i <= |lines|
      invariant rows + Rows(lines, i) == Rows(lines, 0)
      decreases |lines| - i
    {
      if lines[i].kind == Context {
        RowsFromContext(rows, lines, i);
        rows := rows + [Row(Some(i), Some(i))];
        i := i + 1;
      } else {
        var d := FindRunEnd(lines, i, Del);
        var a := FindRunEnd(lines, d, Add);
        var run := PairRun(i, d, a);
        RowsFromRun(rows, lines, i, d, a);
        rows := rows + run;
        i := if a > i then a else i + 1;
      }
    }
    RowsEnd(rows, lines);
  }

  // --- what the rows show ---

  function Cell(x: Option<nat>): seq<nat> {
    match x
    case Some(at) => [at]
    case None => []
  }

  function Lefts(rows: seq<Row>): seq<nat> {
    if rows == [] then [] else Cell(rows[0].left) + Lefts(rows[1..])
  }

  function Rights(rows: seq<Row>): seq<nat> {
    if rows == [] then [] else Cell(rows[0].right) + Rights(rows[1..])
  }

  /** The positions from `i` on, in order, of the lines the old file has. */
  function OldSide(lines: seq<DiffLine>, i: nat): seq<nat>
    requires i <= |lines|
    decreases |lines| - i
  {
    if i == |lines| then [] else (if lines[i].kind != Add then [i] else []) + OldSide(lines, i + 1)
  }

  function NewSide(lines: seq<DiffLine>, i: nat): seq<nat>
    requires i <= |lines|
    decreases |lines| - i
  {
    if i == |lines| then [] else (if lines[i].kind != Del then [i] else []) + NewSide(lines, i + 1)
  }

  /** `i`, `i + 1`, ..., `d - 1`. */
  function Range(i: nat, d: nat): (r: seq<nat>)
    requires i <= d
    ensures |r| == d - i && forall k :: 0 <= k < |r| ==> r[k] == i + k
    decreases d - i
  {
    if i == d then [] else [i] + Range(i + 1, d)
  }

  /** No line of the run is on the new side, or none on the old one. */
  lemma {:induction false} NotOnNewSide(lines: seq<DiffLine>, i: nat, e: nat)
    requires i <= e <= |lines|
    requires forall j :: i <= j < e ==> lines[j].kind == Del
    ensures NewSide(lines, i) == NewSide(lines, e)
    decreases e - i
  {
    if i < e {
      NotOnNewSide(lines, i + 1, e);
    }
  }

  lemma {:induction false} NotOnOldSide(lines: seq<DiffLine>, i: nat, e: nat)
    requires i <= e <= |lines|
    requires forall j :: i <= j < e ==> lines[j].kind == Add
    ensures OldSide(lines, i) == OldSide(lines, e)
    decreases e - i
  {
    if i < e {
      NotOnOldSide(lines, i + 1, e);
    }
  }

  lemma RangeStep(i: nat, e: nat, rest: seq<nat>)
    requires i < e
    ensures [i] + (Range(i + 1, e) + rest) == Range(i, e) + rest
  {
  }

  lemma {:induction false} AllOnOldSide(lines: seq<DiffLine>, i: nat, e: nat)
    requires i <= e <= |lines|
    requires forall j :: i <= j < e ==> lines[j].kind != Add
    ensures OldSide(lines, i) == Range(i, e) + OldSide(lines, e)
    decreases e - i
  {
    if i < e {
      AllOnOldSide(lines, i + 1, e);
      RangeStep(i, e, OldSide(lines, e));
    }
  }

  lemma {:induction false} AllOnNewSide(lines: seq<DiffLine>, i: nat, e: nat)
    requires i <= e <= |lines|
    requires forall j :: i <= j < e ==> lines[j].kind != Del
    ensures NewSide(lines, i) == Range(i, e) + NewSide(lines, e)
    decreases e - i
  {
    if i < e {
      AllOnNewSide(lines, i + 1, e);
      RangeStep(i, e, NewSide(lines, e));
    }
  }

  lemma FirstLeft(row: Row, rows: seq<Row>)
    ensures Lefts([row] + rows) == Cell(row.left) + Lefts(rows)
  {
    HeadAndRest(row, rows);
  }

  lemma {:induction false} LeftsOfConcat(p: seq<Row>, q: seq<Row>)
    ensures Lefts(p + q) == Lefts(p) + Lefts(q)
  {
    if p == [] {
      WithEmpty(q);
      WithEmpty(Lefts(q));
    } else {
      var row, rest := p[0], p[1..];
      LeftsOfConcat(rest, q);
      FirstLeft(row, rest);
      FirstLeft(row, rest + q);
      Headed(p);
      Regroup([row], rest, q);
      Regroup(Cell(row.left), Lefts(rest), Lefts(q));
    }
  }

  lemma FirstRight(row: Row, rows: seq<Row>)
    ensures Rights([row] + rows) == Cell(row.right) + Rights(rows)
  {
    HeadAndRest(row, rows);
  }

  lemma {:induction false} RightsOfConcat(p: seq<Row>, q: seq<Row>)
    ensures Rights(p + q) == Rights(p) + Rights(q)
  {
    if p == [] {
      WithEmpty(q);
      WithEmpty(Rights(q));
    } else {
      var row, rest := p[0], p[1..];
      RightsOfConcat(rest, q);
      FirstRight(row, rest);
      FirstRight(row, rest + q);
      Headed(p);
      Regroup([row], rest, q);
      Regroup(Cell(row.right), Rights(rest), Rights(q));
    }
  }

  lemma {:induction false} SidesOfRows(i: nat, d: nat, p: nat, a: nat)
    requires i <= d && p <= a
    ensures Lefts(SideRows(i, d, p, a)) == Range(i, d) && Rights(SideRows(i, d, p, a)) == Range(p, a)
    decreases d - i + (a - p)
  {
    if i < d || p < a {
      var row, rest := Row(Within(i, d), Within(p, a)), SideRows(Next(i, d), d, Next(p, a), a);
      SidesOfRows(Next(i, d), d, Next(p, a), a);
      FirstLeft(row, rest);
      FirstRight(row, rest);
      RangeNext(i, d);
      RangeNext(p, a);
    }
  }

  lemma RangeNext(i: nat, d: nat)
    requires i <= d
    ensures Cell(Within(i, d)) + Range(Next(i, d), d) == Range(i, d)
  {
    WithEmpty(Range(i, d));
  }

  lemma CellsOfRun(i: nat, d: nat, a: nat)
    requires i <= d <= a
    ensures Lefts(RunRows(i, d, a)) == Range(i, d) && Rights(RunRows(i, d, a)) == Range(d, a)
  {
    SidesOfRows(i, d, d, a);
  }

  lemma RunOnOldSide(lines: seq<DiffLine>, i: nat, d: nat, a: nat)
    requires i <= |lines| && d == RunEnd(lines, i, Del) && a == RunEnd(lines, d, Add)
    ensures OldSide(lines, i) == Range(i, d) + OldSide(lines, a)
  {
    AllOnOldSide(lines, i, d);
    NotOnOldSide(lines, d, a);
  }

  lemma RunOnNewSide(lines: seq<DiffLine>, i: nat, d: nat, a: nat)
    requires i <= |lines| && d == RunEnd(lines, i, Del) && a == RunEnd(lines, d, Add)
    ensures NewSide(lines, i) == Range(d, a) + NewSide(lines, a)
  {
    NotOnNewSide(lines, i, d);
    AllOnNewSide(lines, d, a);
  }

  lemma RunShowsBothSides(lines: seq<DiffLine>, i: nat, d: nat, a: nat)
    requires i <= |lines| && d == RunEnd(lines, i, Del) && a == RunEnd(lines, d, Add)
    ensures OldSide(lines, i) == Lefts(RunRows(i, d, a)) + OldSide(lines, a)
    ensures NewSide(lines, i) == Rights(RunRows(i, d, a)) + NewSide(lines, a)
  {
    RunOnOldSide(lines, i, d, a);
    RunOnNewSide(lines, i, d, a);
    CellsOfRun(i, d, a);
  }

  lemma {:induction false} RowsShowBothSides(lines: seq<DiffLine>, i: nat)
    requires i <= |lines|
    ensures Lefts(Rows(lines, i)) == OldSide(lines, i)
    ensures Rights(Rows(lines, i)) == NewSide(lines, i)
    decreases |lines| - i
  {
    if i < |lines| {
      if lines[i].kind == Context {
        RowsShowBothSides(lines, i + 1);
        assert Rows(lines, i)[1..] == Rows(lines, i + 1);
      } else {
        var d := RunEnd(lines, i, Del);
        var a := RunEnd(lines, d, Add);
        RowsShowBothSides(lines, a);
        RunShowsBothSides(lines, i, d, a);
        LeftsOfConcat(RunRows(i, d, a), Rows(lines, a));
        RightsOfConcat(RunRows(i, d, a), Rows(lines, a));
      }
    }
  }

  // --- the pairing both loops are meant to compute ---

  /**
   Line `p` is deleted, line `q` added, and they are equally far into a run of deletions and the run of
   additions that immediately follows it.
   */
  ghost predicate Paired(lines: seq<DiffLine>, p: nat, q: nat) {
    exists i: nat, d: nat :: PairedIn(lines, p, q, i, d)
  }

  /** ... namely into the run of deletions `[i, d)` and the additions from `d` on. */
  ghost predicate PairedIn(lines: seq<DiffLine>, p: nat, q: nat, i: nat, d: nat) {
    && i <= p < d <= q < |lines|
    && q - d == p - i
    && (i == 0 || lines[i - 1].kind != Del)
    && (forall j :: i <= j < d ==> lines[j].kind == Del)
    && (forall j :: d <= j <= q ==> lines[j].kind == Add)
  }

  ghost predicate RowOf(rows: seq<Row>, p: nat, q: nat) {
    exists k :: 0 <= k < |rows| && rows[k] == Row(Some(p), Some(q))
  }

  /** Position `i` is not in the middle of a run of deletions. */
  predicate AtBoundary(lines: seq<DiffLine>, i: nat)
    requires i <= |lines|
  {
    i == 0 || i == |lines| || lines[i - 1].kind != Del || lines[i].kind != Del
  }

  /** A pair lies in the run that starts at `i` exactly when it is the zip of that run's two halves. */
  lemma PairsOfRun(lines: seq<DiffLine>, i: nat, p: nat, q: nat)
    requires i < |lines| && lines[i].kind != Context && AtBoundary(lines, i)
    requires i <= p < RunEnd(lines, RunEnd(lines, i, Del), Add)
    ensures var d := RunEnd(lines, i, Del);
            Paired(lines, p, q) <==> p < d && q < RunEnd(lines, d, Add) && q - d == p - i
  {
    var d := RunEnd(lines, i, Del);
    var a := RunEnd(lines, d, Add);
    if Paired(lines, p, q) {
      var i': nat, d': nat :| PairedIn(lines, p, q, i', d');
      assert lines[p].kind == Del;
      assert p < d;
      assert lines[i].kind == Del;
      SameRun(lines, p, q, i', d', i);
    }
    if p < d && q < a && q - d == p - i {
      assert PairedIn(lines, p, q, i, d);
    }
  }

  /** The pairs from `i` on: those of the run there and those behind it. */
  lemma PairsUpTo(lines: seq<DiffLine>, i: nat, d: nat, a: nat, p: nat, q: nat)
    requires i < |lines| && lines[i].kind != Context && AtBoundary(lines, i)
    requires d == RunEnd(lines, i, Del) && a == RunEnd(lines, d, Add)
    ensures i <= p && Paired(lines, p, q)
       <==> (i <= p < d && q < a && q - d == p - i) || (a <= p && Paired(lines, p, q))
  {
    if i <= p < a {
      PairsOfRun(lines, i, p, q);
    }
  }

  lemma SameRun(lines: seq<DiffLine>, p: nat, q: nat, i': nat, d': nat, i: nat)
    requires PairedIn(lines, p, q, i', d')
    requires i <= p < RunEnd(lines, i, Del) && AtBoundary(lines, i) && lines[i].kind == Del
    ensures i' == i && d' == RunEnd(lines, i, Del) && q < RunEnd(lines, d', Add)
  {
    var d := RunEnd(lines, i, Del);
    assert i' == 0 || lines[i' - 1].kind != Del;
    assert lines[d'].kind == Add;
    assert d < |lines| ==> lines[d].kind != Del;
    assert d' == d;
  }

  lemma PairsOfZip(i: nat, d: nat, n: nat, p: nat, q: nat)
    ensures (p, q) in Zip(i, d, n) <==> i <= p < i + n && q - d == p - i
  {
    if i <= p < i + n && q - d == p - i {
      assert Zip(i, d, n)[p - i] == (p, q);
    }
  }

  /** The highlight loop pairs exactly the lines it is meant to. */
  lemma {:induction false} SpanPairsExact(lines: seq<DiffLine>, i: nat, p: nat, q: nat)
    requires i <= |lines| && AtBoundary(lines, i)
    ensures (p, q) in SpanPairs(lines, i) <==> i <= p && Paired(lines, p, q)
    decreases |lines| - i
  {
    if i < |lines| {
      if lines[i].kind != Del {
        SpanPairsExact(lines, i + 1, p, q);
      } else {
        var d := RunEnd(lines, i, Del);
        var a := RunEnd(lines, d, Add);
        SpanPairsExact(lines, a, p, q);
        PairsOfZip(i, d, Min(d - i, a - d), p, q);
        PairsUpTo(lines, i, d, a, p, q);
      }
    }
  }

  /** The row loop puts exactly the same pairs in one row. */
  lemma {:induction false} RowsPairExact(lines: seq<DiffLine>, i: nat, p: nat, q: nat)
    requires i <= |lines| && AtBoundary(lines, i) && p != q
    ensures RowOf(Rows(lines, i), p, q) <==> i <= p && Paired(lines, p, q)
    decreases |lines| - i
  {
    if i < |lines| {
      if lines[i].kind == Context {
        RowsPairExact(lines, i + 1, p, q);
        RowOfConcat([Row(Some(i), Some(i))], Rows(lines, i + 1), p, q);
      } else {
        var d := RunEnd(lines, i, Del);
        var a := RunEnd(lines, d, Add);
        RowsPairExact(lines, a, p, q);
        RowOfConcat(RunRows(i, d, a), Rows(lines, a), p, q);
        RowOfRun(i, d, a, p, q);
        PairsUpTo(lines, i, d, a, p, q);
      }
    }
  }

  lemma RowOfConcat(a: seq<Row>, b: seq<Row>, p: nat, q: nat)
    ensures RowOf(a + b, p, q) <==> RowOf(a, p, q) || RowOf(b, p, q)
  {
    if RowOf(a, p, q) {
      var k :| 0 <= k < |a| && a[k] == Row(Some(p), Some(q));
      assert (a + b)[k] == Row(Some(p), Some(q));
    }
    if RowOf(b, p, q) {
      var k :| 0 <= k < |b| && b[k] == Row(Some(p), Some(q));
      assert (a + b)[|a| + k] == Row(Some(p), Some(q));
    }
  }

  lemma RowOfFirst(row: Row, rest: seq<Row>, x: nat, y: nat)
    ensures RowOf([row] + rest, x, y) <==> row == Row(Some(x), Some(y)) || RowOf(rest, x, y)
  {
    RowOfConcat([row], rest, x, y);
    if row == Row(Some(x), Some(y)) {
      assert [row][0] == row;
    }
  }

  lemma {:induction false} RowOfSides(i: nat, d: nat, p: nat, a: nat, x: nat, y: nat)
    requires i <= d && p <= a
    ensures RowOf(SideRows(i, d, p, a), x, y) <==> i <= x < d && p <= y < a && y - p == x - i
    decreases d - i + (a - p)
  {
    if i < d || p < a {
      RowOfSides(Next(i, d), d, Next(p, a), a, x, y);
      RowOfFirst(Row(Within(i, d), Within(p, a)), SideRows(Next(i, d), d, Next(p, a), a), x, y);
    }
  }

  lemma RowOfRun(i: nat, d: nat, a: nat, p: nat, q: nat)
    requires i <= d <= a
    ensures RowOf(RunRows(i, d, a), p, q) <==> i <= p < d && q < a && q - d == p - i
  {
    RowOfSides(i, d, d, a, p, q);
  }

  /**
   The side-by-side rows of any hunk show its old lines on the left and its new lines on the right, each
   once and in order; no row is empty; and two different lines share a row exactly when the
   highlight loop compares them, so the two loops agree on what is paired.
   */
  lemma RowsAgreeWithSpans(lines: seq<DiffLine>)
    ensures var rows := Rows(lines, 0);
            && Lefts(rows) == OldSide(lines, 0)
            && Rights(rows) == NewSide(lines, 0)
            && AllShow(rows)
            && (forall p: nat, q: nat :: p != q ==> (RowOf(rows, p, q) <==> (p, q) in SpanPairs(lines, 0)))
  {
    RowsShowBothSides(lines, 0);
    NoEmptyRow(lines, 0);
    forall p: nat, q: nat | p != q
      ensures RowOf(Rows(lines, 0), p, q) <==> (p, q) in SpanPairs(lines, 0)
    {
      SpanPairsExact(lines, 0, p, q);
      RowsPairExact(lines, 0, p, q);
    }
  }

  predicate AllShow(rows: seq<Row>) {
    forall k :: 0 <= k < |rows| ==> rows[k].left.Some? || rows[k].right.Some?
  }

  lemma {:induction false} SidesShow(i: nat, d: nat, p: nat, a: nat)
    requires i <= d && p <= a
    ensures AllShow(SideRows(i, d, p, a))
    decreases d - i + (a - p)
  {
    if i < d || p < a {
      SidesShow(Next(i, d), d, Next(p, a), a);
    }
  }

  lemma {:induction false} NoEmptyRow(lines: seq<DiffLine>, i: nat)
    requires i <= |lines|
    ensures AllShow(Rows(lines, i))
    decreases |lines| - i
  {
    if i < |lines| {
      if lines[i].kind == Context {
        NoEmptyRow(lines, i + 1);
      } else {
        var d := RunEnd(lines, i, Del);
        var a := RunEnd(lines, d, Add);
        SidesShow(i, d, d, a);
        NoEmptyRow(lines, a);
      }
    }
  }

  // --- which spans the highlight loop sets ---

  ghost predicate Ascending(lines: seq<DiffLine>, pairs: seq<(nat, nat)>, from: nat) {
    && (forall k :: 0 <= k < |pairs| ==>
          && from <= pairs[k].0 < |lines| && from <= pairs[k].1 < |lines|
          && lines[pairs[k].0].kind == Del && lines[pairs[k].1].kind == Add)
    && (forall k, m :: 0 <= k < m < |pairs| ==> pairs[k].0 < pairs[m].0 && pairs[k].1 < pairs[m].1)
  }

  lemma {:induction false} SpanPairsAscend(lines: seq<DiffLine>, i: nat)
    requires i <= |lines|
    ensures Ascending(lines, SpanPairs(lines, i), i)
    decreases |lines| - i
  {
    if i < |lines| {
      if lines[i].kind != Del {
        SpanPairsAscend(lines, i + 1);
      } else {
        SpanPairsAscend(lines, RunEnd(lines, RunEnd(lines, i, Del), Add));
      }
    }
  }

  lemma {:induction false} UntouchedStays(lines: seq<DiffLine>, pairs: seq<(nat, nat)>, j: nat)
    requires j < |lines| && forall k :: 0 <= k < |pairs| ==> pairs[k].0 != j && pairs[k].1 != j
    ensures HighlightAll(lines, pairs)[j] == lines[j]
    decreases |pairs|
  {
    if pairs != [] {
      UntouchedStays(Highlight(lines, pairs[0]), pairs[1..], j);
    }
  }

  /** A line outside all pairs keeps its span. */
  lemma UnpairedKeepsSpan(lines: seq<DiffLine>, j: nat)
    requires j < |lines| && forall p: nat, q: nat :: Paired(lines, p, q) ==> p != j && q != j
    ensures WithSpans(lines)[j] == lines[j]
  {
    var pairs := SpanPairs(lines, 0);
    forall k | 0 <= k < |pairs|
      ensures pairs[k].0 != j && pairs[k].1 != j
    {
      assert pairs[k] in pairs && pairs[k] == (pairs[k].0, pairs[k].1);
      SpanPairsExact(lines, 0, pairs[k].0, pairs[k].1);
    }
    UntouchedStays(lines, pairs, j);
  }

  predicate Apart(pair: (nat, nat), j: nat) {
    pair.0 != j && pair.1 != j
  }

  lemma HighlightedInParts(lines: seq<DiffLine>, pairs: seq<(nat, nat)>, m: nat)
    requires m < |pairs|
    ensures HighlightAll(lines, pairs)
            == HighlightAll(Highlight(HighlightAll(lines, pairs[..m]), pairs[m]), pairs[m + 1..])
  {
    HighlightOneMore(lines, pairs, m);
    HighlightParts(lines, pairs[..m + 1], pairs[m + 1..]);
    BothParts(pairs, m + 1);
  }

  lemma BothParts(pairs: seq<(nat, nat)>, n: nat)
    requires n <= |pairs|
    ensures pairs[..n] + pairs[n..] == pairs
  {
  }

  /** `a` and `b` are the lines before and after the one pair that touches line `j`. */
  lemma AroundOnePair(
    lines: seq<DiffLine>, front: seq<(nat, nat)>, back: seq<(nat, nat)>, a: seq<DiffLine>, b: seq<DiffLine>, j: nat)
    requires j < |lines| && a == HighlightAll(lines, front) && |b| == |lines|
    requires forall k :: 0 <= k < |front| ==> Apart(front[k], j)
    requires forall k :: 0 <= k < |back| ==> Apart(back[k], j)
    ensures a[j] == lines[j] && HighlightAll(b, back)[j] == b[j]
  {
    UntouchedStays(lines, front, j);
    UntouchedStays(b, back, j);
  }

  lemma OnlyOwnPairCounts(lines: seq<DiffLine>, pairs: seq<(nat, nat)>, m: nat, j: nat)
    requires m < |pairs| && j < |lines|
    requires forall k :: 0 <= k < |pairs| && k != m ==> Apart(pairs[k], j)
    ensures HighlightAll(lines, pairs)[j] == Highlight(HighlightAll(lines, pairs[..m]), pairs[m])[j]
    ensures HighlightAll(lines, pairs[..m])[j] == lines[j]
  {
    var a := HighlightAll(lines, pairs[..m]);
    HighlightedInParts(lines, pairs, m);
    AroundOnePair(lines, pairs[..m], pairs[m + 1..], a, Highlight(a, pairs[m]), j);
  }

  lemma OthersApart(lines: seq<DiffLine>, pairs: seq<(nat, nat)>, m: nat, j: nat)
    requires Ascending(lines, pairs, 0) && m < |pairs| && (j == pairs[m].0 || j == pairs[m].1)
    ensures forall k :: 0 <= k < |pairs| && k != m ==> Apart(pairs[k], j)
  {
  }

  lemma BeforeOwnPair(lines: seq<DiffLine>, pairs: seq<(nat, nat)>, m: nat, j: nat)
    requires Ascending(lines, pairs, 0) && m < |pairs| && (j == pairs[m].0 || j == pairs[m].1)
    ensures HighlightAll(lines, pairs)[j] == Highlight(HighlightAll(lines, pairs[..m]), pairs[m])[j]
    ensures HighlightAll(lines, pairs[..m])[j] == lines[j]
  {
    OthersApart(lines, pairs, m, j);
    OnlyOwnPairCounts(lines, pairs, m, j);
  }

  /** What highlighting a pair does to its two lines. */
  lemma HighlightedPair(lines: seq<DiffLine>, p: nat, q: nat)
    requires p < |lines| && q < |lines| && p != q
    ensures var r := SpanOf(lines[p].text, lines[q].text);
            && Highlight(lines, (p, q))[p] == (if r.Some? then lines[p].(span := Some(r.value.del)) else lines[p])
            && Highlight(lines, (p, q))[q] == (if r.Some? then lines[q].(span := Some(r.value.add)) else lines[q])
  {
  }

  lemma PairFound(lines: seq<DiffLine>, p: nat, q: nat) returns (m: nat)
    requires Paired(lines, p, q)
    ensures m < |SpanPairs(lines, 0)| && SpanPairs(lines, 0)[m] == (p, q)
  {
    SpanPairsExact(lines, 0, p, q);
    m :| 0 <= m < |SpanPairs(lines, 0)| && SpanPairs(lines, 0)[m] == (p, q);
  }

  /** The two lines of a pair get the spans of their texts compared with each other. */
  lemma PairGetsSpans(lines: seq<DiffLine>, p: nat, q: nat)
    requires p < |lines| && q < |lines| && Paired(lines, p, q)
    ensures var r := SpanOf(lines[p].text, lines[q].text);
            && WithSpans(lines)[p] == (if r.Some? then lines[p].(span := Some(r.value.del)) else lines[p])
            && WithSpans(lines)[q] == (if r.Some? then lines[q].(span := Some(r.value.add)) else lines[q])
  {
    var pairs := SpanPairs(lines, 0);
    var m := PairFound(lines, p, q);
    SpanPairsAscend(lines, 0);
    BeforeOwnPair(lines, pairs, m, p);
    BeforeOwnPair(lines, pairs, m, q);
    HighlightedPair(HighlightAll(lines, pairs[..m]), p, q);
  }
}
