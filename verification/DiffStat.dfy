/** The diffstat counter (packages/tui/src/diff-stat.ts:20-51), which tracks hunks in its own way. */
module DiffStat {
  import opened Text

  datatype Counters = Counters(additions: nat, deletions: nat, gitHeaders: nat, plusHeaders: nat, inHunk: bool)

  datatype Stat = Stat(additions: nat, deletions: nat, files: nat)

  const ZERO := Counters(0, 0, 0, 0, false)

  function Step(c: Counters, line: string): Counters {
    if StartsWith(line, "diff --git") then c.(gitHeaders := c.gitHeaders + 1, inHunk := false)
    else if StartsWith(line, "@@") then c.(inHunk := true)
    else if !c.inHunk && StartsWith(line, "+++") then c.(plusHeaders := c.plusHeaders + 1)
    else if !c.inHunk && StartsWith(line, "---") then c
    else if StartsWith(line, "+") then c.(additions := c.additions + 1)
    else if StartsWith(line, "-") then c.(deletions := c.deletions + 1)
    else c
  }

  function Run(c: Counters, lines: seq<string>): Counters
    decreases |lines|
  {
    if lines == [] then c else Run(Step(c, lines[0]), lines[1..])
  }

  /** Files are `diff --git` headers, or else `+++` headers, or else one if anything changed. */
  function FileCount(c: Counters): nat {
    if c.gitHeaders > 0 then c.gitHeaders
    else if c.plusHeaders > 0 then c.plusHeaders
    else if c.additions + c.deletions > 0 then 1 else 0
  }

  function StatOf(diff: string): Stat {
    if diff == "" then Stat(0, 0, 0)
    else
      var c := Run(ZERO, Lines(diff));
      Stat(c.additions, c.deletions, FileCount(c))
  }

  /** The branches of the counter's loop body. */
  method CountLine(c: Counters, line: string) returns (r: Counters)
    ensures r == Step(c, line)
  {
    r := c;
    if StartsWith(line, "diff --git") {
      r := r.(gitHeaders := r.gitHeaders + 1, inHunk := false);
    } else if StartsWith(line, "@@") {
      r := r.(inHunk := true);
    } else if !r.inHunk && StartsWith(line, "+++") {
      r := r.(plusHeaders := r.plusHeaders + 1);
    } else if !r.inHunk && StartsWith(line, "---") {
      // a file header
    } else if StartsWith(line, "+") {
      r := r.(additions := r.additions + 1);
    } else if StartsWith(line, "-") {
      r := r.(deletions := r.deletions + 1);
    }
  }

  method ParseDiffStat(diff: string) returns (stat: Stat)
    ensures stat == StatOf(diff)
  {
    if diff == "" { return Stat(0, 0, 0); }
    var c := ZERO;
    var lines := Lines(diff);
    var i := 0;
    assert lines[0..] == lines;
    while i < |lines|
      invariant 0 <= i <= |lines|
      invariant Run(c, lines[i..]) == Run(ZERO, lines)
    {
      assert lines[i..][1..] == lines[i + 1..];
      c := CountLine(c, lines[i]);
      i := i + 1;
    }
    var files := if c.gitHeaders > 0 then c.gitHeaders
                 else if c.plusHeaders > 0 then c.plusHeaders
                 else if c.additions + c.deletions > 0 then 1 else 0;
    stat := Stat(c.additions, c.deletions, files);
  }

  lemma {:induction false} RunInParts(c: Counters, a: seq<string>, b: seq<string>)
    ensures Run(c, a + b) == Run(Run(c, a), b)
    decreases |a|
  {
    if a == [] {
      assert a + b == b;
    } else {
      assert (a + b)[1..] == a[1..] + b;
      RunInParts(Step(c, a[0]), a[1..], b);
    }
  }

  lemma RunTwo(c: Counters, a: string, b: string)
    ensures Run(c, [a, b]) == Step(Step(c, a), b)
  {
    var both, last := [a, b], [b];
    assert both[1..] == last && last[1..] == [];
    assert Run(Step(c, a), last) == Run(Step(Step(c, a), b), last[1..]);
  }
}
