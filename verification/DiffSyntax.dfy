/**
 The line patterns of the diff parser (packages/tui/src/diff-view.ts:48-52, 87-145) as functions:
 what each regular expression and prefix test makes of a line, and what a printed line gives back.
 */
module DiffSyntax {
  import opened Wrappers
  import opened Seqs
  import opened Text

  // --- `diff --git a/<old> b/<new>` ---

  const GIT := "diff --git a/"

  /** The greatest position in `(low, k]` where `sep` separates two non-empty paths. */
  function LastSplit(raw: string, sep: string, low: nat, k: int): (r: Option<nat>)
    requires k < |raw|
    ensures r.Some? ==> low < r.value <= k && r.value + |sep| < |raw|
    decreases k
  {
    if k <= low then None
    else if k + |sep| < |raw| && raw[k..k + |sep|] == sep then Some(k)
    else LastSplit(raw, sep, low, k - 1)
  }

  datatype Paths = Paths(before: string, after: string)

  /** Matches `<head><path><sep><path>`, with the first path as long as possible. */
  function ParsePaths(raw: string, head: string, sep: string): Option<Paths> {
    if !StartsWith(raw, head) || !Unbroken(raw) then None
    else
      match LastSplit(raw, sep, |head|, |raw| - 1)
      case None => None
      case Some(k) => Some(Paths(raw[|head|..k], raw[k + |sep|..]))
  }

  function ParseGitHeader(raw: string): Option<Paths> {
    ParsePaths(raw, GIT, B_SIDE)
  }

  function PathsLine(head: string, a: string, sep: string, b: string): string {
    head + a + sep + b
  }

  function GitLine(a: string, b: string): string {
    PathsLine(GIT, a, B_SIDE, b)
  }

  /** `sep` with something behind it at a position. */
  predicate SplitsAt(raw: string, sep: string, k: nat) {
    k + |sep| < |raw| && raw[k..k + |sep|] == sep
  }

  /** What the search finds is a place to split and the last one. */
  lemma {:induction false} LastSplitIsLast(raw: string, sep: string, low: nat, k: int)
    requires k < |raw|
    ensures var r := LastSplit(raw, sep, low, k);
            && (r.Some? ==> SplitsAt(raw, sep, r.value))
            && forall j: nat :: (if r.Some? then r.value else low) < j <= k ==> !SplitsAt(raw, sep, j)
    decreases k
  {
    if k > low && !SplitsAt(raw, sep, k) {
      LastSplitIsLast(raw, sep, low, k - 1);
    }
  }

  lemma PartsOf(x: string, y: string, z: string)
    ensures (x + y + z)[..|x|] == x
    ensures (x + y + z)[|x|..|x| + |y|] == y
    ensures (x + y + z)[|x| + |y|..] == z
  {
  }

  lemma UnbrokenParts(x: string, y: string)
    ensures Unbroken(x + y) <==> Unbroken(x) && Unbroken(y)
  {
    if Unbroken(x + y) {
      forall i | 0 <= i < |y|
        ensures !IsLineTerminator(y[i])
      {
        assert (x + y)[|x| + i] == y[i];
      }
      forall i | 0 <= i < |x|
        ensures !IsLineTerminator(x[i])
      {
        assert (x + y)[i] == x[i];
      }
    }
  }

  /** Somewhere in `b` it could be split as well. */
  predicate Splits(b: string, sep: string) {
    exists k :: 0 <= k <= |b| && SplitsAt(b, sep, k)
  }

  /** No second copy of a separator begins inside one. */
  predicate IsSeparator(sep: string) {
    sep != "" && Free(sep[1..], sep[0])
  }

  lemma SplitsInside(x: string, sep: string, b: string, j: nat)
    requires IsSeparator(sep) && |x| < j && SplitsAt(x + sep + b, sep, j)
    ensures |x| + |sep| <= j && SplitsAt(b, sep, j - |x| - |sep|)
  {
    var raw := x + sep + b;
    assert raw[j] == sep[0] by {
      assert raw[j..j + |sep|][0] == raw[j];
    }
    forall i | |x| < i < |x| + |sep|
      ensures raw[i] != sep[0]
    {
      assert raw[i] == sep[1..][i - |x| - 1];
    }
    assert raw[j..j + |sep|] == b[j - |x| - |sep|..][..|sep|];
  }

  lemma SplitsOutside(x: string, sep: string, b: string, k: nat)
    requires SplitsAt(b, sep, k)
    ensures SplitsAt(x + sep + b, sep, |x| + |sep| + k)
  {
    var raw, at := x + sep + b, |x| + |sep| + k;
    assert raw[at..at + |sep|] == b[k..k + |sep|];
  }

  /** The last split of two joined parts is theirs if and only if the second one cannot be split; else it is later. */
  lemma SplitFoundIff(low: nat, x: string, sep: string, b: string)
    requires low < |x| && IsSeparator(sep) && b != ""
    ensures var raw := x + sep + b;
            var r := LastSplit(raw, sep, low, |raw| - 1);
            r.Some? && |x| <= r.value && (r.value == |x| <==> !Splits(b, sep))
  {
    var raw := x + sep + b;
    var r := LastSplit(raw, sep, low, |raw| - 1);
    PartsOf(x, sep, b);
    assert SplitsAt(raw, sep, |x|);
    LastSplitIsLast(raw, sep, low, |raw| - 1);
    if r.value > |x| {
      SplitsInside(x, sep, b, r.value);
    }
    if Splits(b, sep) {
      var k: nat :| k <= |b| && SplitsAt(b, sep, k);
      SplitsOutside(x, sep, b, k);
    }
  }

  /** Two paths are read back if and only if the second cannot be split; else a shorter second path is read. */
  lemma PathsLineParsesIff(head: string, a: string, sep: string, b: string)
    requires a != "" && b != "" && IsSeparator(sep)
    requires Unbroken(head) && Unbroken(a) && Unbroken(sep) && Unbroken(b)
    ensures ParsePaths(PathsLine(head, a, sep, b), head, sep).Some?
    ensures ParsePaths(PathsLine(head, a, sep, b), head, sep) == Some(Paths(a, b)) <==> !Splits(b, sep)
    ensures Splits(b, sep) ==> |ParsePaths(PathsLine(head, a, sep, b), head, sep).value.after| < |b|
  {
    SplitFoundIff(|head|, head + a, sep, b);
    PathsLineParts(head, a, sep, b);
    PathsLineUnbroken(head, a, sep, b);
  }

  lemma PathsLineUnbroken(head: string, a: string, sep: string, b: string)
    requires Unbroken(head) && Unbroken(a) && Unbroken(sep) && Unbroken(b)
    ensures Unbroken(head + a + sep + b)
  {
    UnbrokenParts(head, a);
    UnbrokenParts(head + a, sep);
    UnbrokenParts(head + a + sep, b);
  }

  lemma PathsLineParts(head: string, a: string, sep: string, b: string)
    ensures var raw := head + a + sep + b;
            StartsWith(raw, head) && raw[|head|..|head + a|] == a && raw[|head + a| + |sep|..] == b
  {
    var raw := head + a + sep + b;
    PartsOf(head + a, sep, b);
    PartsOf(head, a, sep + b);
    assert raw == head + a + (sep + b);
  }

  const B_SIDE := " b/"

  /** The paths of a header are read back if and only if no ` b/` with something behind it lies in the second one. */
  lemma GitLineParsesIff(a: string, b: string)
    requires a != "" && b != "" && Unbroken(a) && Unbroken(b)
    ensures ParseGitHeader(GitLine(a, b)).Some?
    ensures ParseGitHeader(GitLine(a, b)) == Some(Paths(a, b)) <==> !Splits(b, B_SIDE)
    ensures Splits(b, B_SIDE) ==> |ParseGitHeader(GitLine(a, b)).value.after| < |b|
  {
    PathsLineParsesIff(GIT, a, B_SIDE, b);
  }

  // --- `@@ -<old>[,<n>] +<new>[,<n>] @@...` ---

  /** How many digits a text begins with. */
  function DigitsLen(s: string): (r: nat)
    ensures r <= |s| && AllDigits(s[..r])
  {
    if s != "" && IsDigit(s[0]) then
      var r := DigitsLen(s[1..]) + 1;
      assert s[..r] == [s[0]] + s[1..][..r - 1];
      r
    else 0
  }

  /** What follows an optional `,<n>`; a comma that no digit follows is no match. */
  function AfterCount(s: string): Option<string> {
    if s != "" && s[0] == ',' then
      var n := DigitsLen(s[1..]);
      if n == 0 then None else Some(s[1 + n..])
    else Some(s)
  }

  datatype Range = NoRange | Range(start: nat, rest: string)

  /** A number, an optional count, and what follows. */
  function TakeRange(s: string): Range {
    var n := DigitsLen(s);
    if n == 0 || AfterCount(s[n..]).None? then NoRange else Range(NatOf(s[..n]), AfterCount(s[n..]).value)
  }

  datatype HunkStart = HunkStart(oldNo: nat, newNo: nat)

  function ParseSecondRange(oldNo: nat, s: string, mid: string, close: string): Option<HunkStart> {
    match After(s, mid)
    case None => None
    case Some(t) =>
      match TakeRange(t)
      case NoRange => None
      case Range(newNo, u) =>
        if After(u, close).Some? && Unbroken(After(u, close).value) then Some(HunkStart(oldNo, newNo)) else None
  }

  /** Matches `<open><range><mid><range><close>` and anything after it on the line. */
  function ParseRanges(raw: string, open: string, mid: string, close: string): Option<HunkStart> {
    match After(raw, open)
    case None => None
    case Some(s) =>
      match TakeRange(s)
      case NoRange => None
      case Range(oldNo, t) => ParseSecondRange(oldNo, t, mid, close)
  }

  function ParseHunkHeader(raw: string): Option<HunkStart> {
    ParseRanges(raw, "@@ -", " +", " @@")
  }

  /** A count may be left out, as `git` does with a count of one. */
  function CountText(count: Option<nat>): string {
    match count
    case None => ""
    case Some(n) => "," + Decimal(n)
  }

  function RangeText(start: nat, count: Option<nat>): string {
    Decimal(start) + CountText(count)
  }

  function HunkLine(oldNo: nat, oldCount: Option<nat>, newNo: nat, newCount: Option<nat>, tail: string): string {
    RangesLine("@@ -", RangeText(oldNo, oldCount), " +", RangeText(newNo, newCount), " @@", tail)
  }

  function RangesLine(open: string, r1: string, mid: string, r2: string, close: string, tail: string): string {
    open + (r1 + (mid + (r2 + (close + tail))))
  }

  lemma {:induction false} DigitsLenOf(p: string, y: string)
    requires AllDigits(p) && (y == "" || !IsDigit(y[0]))
    ensures DigitsLen(p + y) == |p|
  {
    if p == "" {
      assert p + y == y;
    } else {
      assert (p + y)[1..] == p[1..] + y;
      DigitsLenOf(p[1..], y);
    }
  }

  predicate IsNumber(s: string) {
    s != "" && AllDigits(s)
  }

  /** Nothing, or a comma and a number. */
  predicate IsCount(s: string) {
    s == "" || (s[0] == ',' && IsNumber(s[1..]))
  }

  /** What can stand behind a range: something that neither a number nor a count goes on with. */
  predicate EndsRange(s: string) {
    s != "" && !IsDigit(s[0]) && s[0] != ','
  }

  lemma CountPassed(c: string, y: string)
    requires IsCount(c) && EndsRange(y)
    ensures AfterCount(c + y) == Some(y)
  {
    if c == "" {
      WithEmpty(y);
    } else {
      var t, q := c + y, c[1..];
      assert t[0] == ',' && t[1..] == q + y;
      DigitsLenOf(q, y);
      assert t[1 + |q|..] == y;
    }
  }

  lemma RangeTaken(p: string, c: string, y: string)
    requires IsNumber(p) && IsCount(c) && EndsRange(y)
    ensures TakeRange(p + c + y) == Range(NatOf(p), y)
  {
    var t := c + y;
    Regroup(p, c, y);
    DigitsLenOf(p, t);
    assert (p + t)[..|p|] == p && (p + t)[|p|..] == t;
    CountPassed(c, y);
  }

  lemma RangesParse(
    open: string, mid: string, close: string, tail: string, p1: string, c1: string, p2: string, c2: string)
    requires IsNumber(p1) && IsCount(c1) && IsNumber(p2) && IsCount(c2)
    requires EndsRange(mid) && EndsRange(close) && Unbroken(tail)
    ensures ParseRanges(RangesLine(open, p1 + c1, mid, p2 + c2, close, tail), open, mid, close)
            == Some(HunkStart(NatOf(p1), NatOf(p2)))
  {
    var t := mid + ((p2 + c2) + (close + tail));
    AfterHead(open, (p1 + c1) + t);
    RangeTaken(p1, c1, t);
    SecondParses(NatOf(p1), mid, close, tail, p2, c2);
  }

  lemma SecondParses(oldNo: nat, mid: string, close: string, tail: string, p: string, c: string)
    requires IsNumber(p) && IsCount(c) && EndsRange(close) && Unbroken(tail)
    ensures ParseSecondRange(oldNo, mid + ((p + c) + (close + tail)), mid, close) == Some(HunkStart(oldNo, NatOf(p)))
  {
    AfterHead(mid, (p + c) + (close + tail));
    RangeTaken(p, c, close + tail);
    AfterHead(close, tail);
  }

  lemma CountIsCount(count: Option<nat>)
    ensures IsCount(CountText(count))
  {
    match count
    case None =>
    case Some(n) =>
      DecimalDenotes(n);
      assert ("," + Decimal(n))[1..] == Decimal(n);
  }

  /** The numbers printed in a hunk header are read back, with either count, both or none. */
  lemma HunkLineParses(oldNo: nat, oldCount: Option<nat>, newNo: nat, newCount: Option<nat>, tail: string)
    requires Unbroken(tail)
    ensures ParseHunkHeader(HunkLine(oldNo, oldCount, newNo, newCount, tail)) == Some(HunkStart(oldNo, newNo))
  {
    DecimalDenotes(oldNo);
    DecimalDenotes(newNo);
    CountIsCount(oldCount);
    CountIsCount(newCount);
    RangesParse("@@ -", " +", " @@", tail, Decimal(oldNo), CountText(oldCount), Decimal(newNo), CountText(newCount));
  }

  // --- nothing else is a hunk header ---

  /** The line is a hunk header with these two numbers. */
  ghost predicate IsHunkLine(raw: string, p1: string, c1: string, p2: string, c2: string, tail: string) {
    && IsNumber(p1) && IsCount(c1) && IsNumber(p2) && IsCount(c2) && Unbroken(tail)
    && raw == RangesLine("@@ -", p1 + c1, " +", p2 + c2, " @@", tail)
  }

  lemma CountSplits(t: string) returns (c: string)
    requires AfterCount(t).Some?
    ensures IsCount(c) && t == c + AfterCount(t).value
  {
    if t != "" && t[0] == ',' {
      var n := DigitsLen(t[1..]);
      c := t[..1 + n];
      assert c[1..] == t[1..][..n];
    } else {
      c := "";
      WithEmpty(t);
    }
  }

  lemma RangeSplits(s: string) returns (p: string, c: string, rest: string)
    requires TakeRange(s).Range?
    ensures IsNumber(p) && IsCount(c) && s == p + c + rest && TakeRange(s) == Range(NatOf(p), rest)
  {
    var n := DigitsLen(s);
    p, rest := s[..n], TakeRange(s).rest;
    c := CountSplits(s[n..]);
    Regroup(p, c, rest);
    CutInTwo(s, n);
  }

  lemma HeadSplits(raw: string, head: string)
    requires After(raw, head).Some?
    ensures raw == head + After(raw, head).value
  {
  }

  lemma RangesSplit(raw: string, open: string, mid: string, close: string)
    returns (p1: string, c1: string, p2: string, c2: string, tail: string)
    requires ParseRanges(raw, open, mid, close).Some?
    ensures IsNumber(p1) && IsCount(c1) && IsNumber(p2) && IsCount(c2) && Unbroken(tail)
    ensures raw == RangesLine(open, p1 + c1, mid, p2 + c2, close, tail)
    ensures ParseRanges(raw, open, mid, close) == Some(HunkStart(NatOf(p1), NatOf(p2)))
  {
    var s := After(raw, open).value;
    HeadSplits(raw, open);
    var t;
    p1, c1, t := RangeSplits(s);
    var u := After(t, mid).value;
    HeadSplits(t, mid);
    var v;
    p2, c2, v := RangeSplits(u);
    tail := After(v, close).value;
    HeadSplits(v, close);
  }

  /** A line is read as a hunk header exactly when it is one, with the numbers it has. */
  lemma HunkHeaderIff(raw: string, start: HunkStart)
    ensures ParseHunkHeader(raw) == Some(start)
       <==> exists p1, c1, p2, c2, tail ::
              IsHunkLine(raw, p1, c1, p2, c2, tail) && start == HunkStart(NatOf(p1), NatOf(p2))
  {
    if ParseHunkHeader(raw) == Some(start) {
      var p1, c1, p2, c2, tail := RangesSplit(raw, "@@ -", " +", " @@");
      assert IsHunkLine(raw, p1, c1, p2, c2, tail);
    }
    if p1, c1, p2, c2, tail :|
      IsHunkLine(raw, p1, c1, p2, c2, tail) && start == HunkStart(NatOf(p1), NatOf(p2))
    {
      RangesParse("@@ -", " +", " @@", tail, p1, c1, p2, c2);
    }
  }

  // --- paths ---

  function BeforeTab(s: string): string {
    if IndexOf(s, '\t', 0) == -1 then s else s[..IndexOf(s, '\t', 0)]
  }

  predicate HasSide(s: string) {
    |s| >= 2 && (s[0] == 'a' || s[0] == 'b') && s[1] == '/'
  }

  /** Strips an `a/` or `b/` prefix and a trailing tab-timestamp. */
  function CleanPath(raw: string): string {
    var noTab := BeforeTab(raw);
    Trim(if HasSide(noTab) then noTab[2..] else noTab)
  }

  /** A path that survives being printed and cleaned. */
  predicate IsPlainPath(p: string) {
    p != "" && Free(p, '\t') && Unbroken(p) && IsTrimmed(p)
  }

  lemma BeforeTabOfFree(s: string)
    requires Free(s, '\t')
    ensures BeforeTab(s) == s
  {
  }

  lemma CleanOfPrinted(p: string, side: string)
    requires IsPlainPath(p) && HasSide(side) && |side| == 2
    ensures CleanPath(side + p) == p && Trim(side + p) == side + p
  {
    var s := side + p;
    assert s[0] == side[0] && s[1] == side[1] && s[2..] == p;
    assert Free(s, '\t') && IsTrimmed(s);
    BeforeTabOfFree(s);
    TrimmedStays(p);
    TrimmedStays(s);
  }

  // --- what kind of line it is, in the order the parser asks ---

  datatype Kind =
    | Git(paths: Paths)
    | RenameFrom(path: string)
    | RenameTo(path: string)
    | BinaryNote
    | OldHeader(name: string)
    | NewHeader(name: string)
    | Hunk(start: HunkStart)
    | Body

  predicate IsBinaryNote(raw: string) {
    StartsWith(raw, "Binary files ") && EndsWith(raw, " differ")
  }

  function Classify(raw: string): Kind {
    if ParseGitHeader(raw).Some? then Git(ParseGitHeader(raw).value)
    else if StartsWith(raw, "rename from ") then RenameFrom(Trim(raw[12..]))
    else if StartsWith(raw, "rename to ") then RenameTo(Trim(raw[10..]))
    else if IsBinaryNote(raw) then BinaryNote
    else if StartsWith(raw, "--- ") then OldHeader(Trim(raw[4..]))
    else if StartsWith(raw, "+++ ") then NewHeader(Trim(raw[4..]))
    else HunkOrBody(raw)
  }

  function HunkOrBody(raw: string): Kind {
    match ParseHunkHeader(raw)
    case Some(start) => Hunk(start)
    case None => Body
  }

  /** A line and what it was recognised as. */
  datatype Token = Token(kind: Kind, raw: string)

  function TokenOf(raw: string): Token {
    Token(Classify(raw), raw)
  }

  function Tokens(lines: seq<string>): seq<Token> {
    seq(|lines|, i requires 0 <= i < |lines| => TokenOf(lines[i]))
  }

  lemma TokensOfOne(raw: string)
    ensures Tokens([raw]) == [TokenOf(raw)]
  {
  }

  lemma TokensOfConcat(a: seq<string>, b: seq<string>)
    ensures Tokens(a + b) == Tokens(a) + Tokens(b)
  {
  }
}
