/**
 Diffs without `diff --git` lines, as `diff -u` and other tools write them: with or without `a/` and `b/` in front of
 the names, with or without a time behind them (packages/tui/src/diff-view.ts:87-145, diff-stat.ts:20-51).
 */
module DiffPlain {
  import opened Wrappers
  import opened Text
  import opened Seqs
  import opened DiffTypes
  import opened DiffSyntax
  import opened DiffParser
  import opened DiffPrint
  import opened DiffRoundTrip
  import opened DiffAgree
  import DiffSound
  import DiffStat

  /** `stamp` is the time behind both names, if any. */
  datatype PlainData = PlainData(
    before: string,
    after: string,
    status: Status,
    sided: bool,
    stamp: string,
    hunks: seq<HunkData>)

  function Named(f: PlainData, side: string, path: string): string {
    if f.sided then side + path else path
  }

  function Stamped(f: PlainData, name: string): string {
    if f.stamp == "" then name else name + ("\t" + f.stamp)
  }

  function OldText(f: PlainData): string {
    Stamped(f, if f.status == Added then "/dev/null" else Named(f, "a/", f.before))
  }

  function NewText(f: PlainData): string {
    Stamped(f, if f.status == Deleted then "/dev/null" else Named(f, "b/", f.after))
  }

  function HeadersOf(f: PlainData): seq<string> {
    ["--- " + OldText(f), "+++ " + NewText(f)]
  }

  function PrintPlain(f: PlainData): seq<string> {
    HeadersOf(f) + PrintHunks(f.hunks)
  }

  function PlainLines(files: seq<PlainData>): seq<string> {
    if files == [] then []
    else
      var n := |files| - 1;
      PlainLines(files[..n]) + PrintPlain(files[n])
  }

  function PlainText(files: seq<PlainData>): string {
    Terminated(PlainLines(files))
  }

  predicate IsName(p: string) {
    IsPlainPath(p) && p != "/dev/null"
  }

  predicate PlainFit(f: PlainData) {
    && IsName(f.before) && IsName(f.after) && Unbroken(f.stamp) && IsTrimmed(f.stamp)
    && forall i :: 0 <= i < |f.hunks| ==> HunkFit(f.hunks[i])
  }

  predicate AllFit(files: seq<PlainData>) {
    forall i :: 0 <= i < |files| ==> PlainFit(files[i])
  }

  predicate AllClear(files: seq<PlainData>) {
    forall i :: 0 <= i < |files| ==> HunksClear(files[i].hunks)
  }

  /** The same change in a diff of `git`. */
  function AsGit(f: PlainData): FileData {
    FileData(f.before, f.after, f.status, false, [], Hunks(f.hunks))
  }

  /** The file a change is meant to be read as. */
  function Meant(f: PlainData): DiffFile {
    ReadFile(AsGit(f))
  }

  /**
   What the parser keeps of a file: a time behind `/dev/null` hides it, and a name without a side must not look as if
   it had one.
   */
  predicate PlainKept(f: PlainData) {
    && (f.stamp == "" || f.status == Modified)
    && (f.sided || ((f.status == Added || !HasSide(f.before)) && (f.status == Deleted || !HasSide(f.after))))
  }

  predicate AllPlainKept(files: seq<PlainData>) {
    forall i :: 0 <= i < |files| ==> PlainKept(files[i])
  }

  // --- names ---

  lemma TabFound(name: string, rest: string)
    requires Free(name, '\t')
    ensures BeforeTab(name + ("\t" + rest)) == name
  {
    var s := name + ("\t" + rest);
    assert s[|name|] == '\t';
    IndexAtTab(s, |name|);
  }

  lemma IndexAtTab(s: string, at: nat)
    requires at < |s| && s[at] == '\t' && forall i :: 0 <= i < at ==> s[i] != '\t'
    ensures IndexOf(s, '\t', 0) == at
  {
  }

  lemma StampCleaned(f: PlainData, name: string)
    requires Free(name, '\t')
    ensures CleanPath(Stamped(f, name)) == CleanPath(name)
  {
    BeforeTabOfFree(name);
    if f.stamp != "" {
      TabFound(name, f.stamp);
    }
  }

  lemma StampTrimmed(f: PlainData, name: string)
    requires PlainFit(f) && name != "" && IsTrimmed(name)
    ensures IsTrimmed(Stamped(f, name))
  {
    if f.stamp != "" {
      assert Stamped(f, name)[0] == name[0];
      assert Stamped(f, name)[|Stamped(f, name)| - 1] == f.stamp[|f.stamp| - 1];
    }
  }

  lemma NameCleaned(f: PlainData, side: string, path: string)
    requires PlainFit(f) && IsName(path) && HasSide(side) && |side| == 2 && Free(side, '\t')
    ensures CleanPath(Named(f, side, path)) == path <==> f.sided || !HasSide(path)
    ensures IsTrimmed(Named(f, side, path)) && Named(f, side, path) != "" && Free(Named(f, side, path), '\t')
    ensures Named(f, side, path) != DEV_NULL
  {
    if f.sided {
      SidedName(side, path);
    } else {
      Shortened(path);
    }
  }

  lemma StampedNull(f: PlainData, name: string)
    requires Free(name, '\t')
    ensures Stamped(f, name) == DEV_NULL <==> f.stamp == "" && name == DEV_NULL
  {
    if f.stamp != "" {
      assert Stamped(f, name)[|name|] == '\t';
    }
  }

  lemma NameRead(f: PlainData, side: string, path: string, name: string, text: string)
    requires PlainFit(f) && IsName(path) && HasSide(side) && |side| == 2 && Free(side, '\t')
    requires name == Named(f, side, path) && text == Stamped(f, name)
    ensures IsTrimmed(text) && text != DEV_NULL && (CleanPath(text) == path <==> f.sided || !HasSide(path))
  {
    NameCleaned(f, side, path);
    StampCleaned(f, name);
    StampTrimmed(f, name);
    StampedNull(f, name);
  }

  lemma NullRead(f: PlainData, name: string, text: string)
    requires PlainFit(f) && name == "/dev/null" && text == Stamped(f, name)
    ensures IsTrimmed(text) && (text == DEV_NULL <==> f.stamp == "")
  {
    StampTrimmed(f, name);
    StampedNull(f, name);
  }

  lemma OldTextRead(f: PlainData)
    requires PlainFit(f)
    ensures IsTrimmed(OldText(f)) && (OldText(f) == DEV_NULL <==> f.status == Added && f.stamp == "")
    ensures f.status != Added ==> (CleanPath(OldText(f)) == f.before <==> f.sided || !HasSide(f.before))
  {
    if f.status == Added {
      NullRead(f, "/dev/null", OldText(f));
    } else {
      NameRead(f, "a/", f.before, Named(f, "a/", f.before), OldText(f));
    }
  }

  lemma NewTextRead(f: PlainData)
    requires PlainFit(f)
    ensures IsTrimmed(NewText(f)) && (NewText(f) == DEV_NULL <==> f.status == Deleted && f.stamp == "")
    ensures f.status != Deleted ==> (CleanPath(NewText(f)) == f.after <==> f.sided || !HasSide(f.after))
  {
    if f.status == Deleted {
      NullRead(f, "/dev/null", NewText(f));
    } else {
      NameRead(f, "b/", f.after, Named(f, "b/", f.after), NewText(f));
    }
  }

  /** What the headers are actually read as. */
  function FromHeaders(f: PlainData): DiffFile {
    HeaderFile(NewText(f), Some(OldText(f)), false)
  }

  lemma FromHeadersIff(f: PlainData)
    requires PlainFit(f)
    ensures FromHeaders(f) == ReadHeader(AsGit(f)) <==> PlainKept(f)
  {
    OldTextRead(f);
    NewTextRead(f);
  }

  /** What a file without header-like lines is actually read as. */
  function Actually(f: PlainData): DiffFile {
    WithHunks(FromHeaders(f), f.hunks)
  }

  lemma ActuallyIff(f: PlainData)
    requires PlainFit(f)
    ensures PlainKept(f) ==> Actually(f) == Meant(f)
    ensures !PlainKept(f) ==> Header(Actually(f)) != Header(Meant(f))
    ensures Actually(f).additions == CountHunks(f.hunks, Add) && Actually(f).deletions == CountHunks(f.hunks, Del)
  {
    FromHeadersIff(f);
    HeaderWithHunks(AsGit(f));
    assert Header(WithHunks(FromHeaders(f), f.hunks)).(additions := 0, deletions := 0) == FromHeaders(f);
    assert Header(Meant(f)).(additions := 0, deletions := 0) == ReadHeader(AsGit(f));
  }

  // --- the parser ---

  function PlainHeaderTokens(f: PlainData): seq<Token> {
    [Token(OldHeader(OldText(f)), "--- " + OldText(f))] + [Token(NewHeader(NewText(f)), "+++ " + NewText(f))]
  }

  lemma TokensOfPlainHeaders(f: PlainData)
    requires PlainFit(f)
    ensures Tokens(HeadersOf(f)) == PlainHeaderTokens(f)
  {
    OldTextRead(f);
    NewTextRead(f);
    OldHeaderLine(OldText(f));
    NewHeaderLine(NewText(f));
  }

  lemma TokensOfPlain(f: PlainData)
    requires PlainFit(f) && HunksClear(f.hunks)
    ensures Tokens(PrintPlain(f)) == PlainHeaderTokens(f) + HunksTokens(f.hunks)
  {
    TokensOfPlainHeaders(f);
    TokensOfHunks(f.hunks);
    TokensOfConcat(HeadersOf(f), PrintHunks(f.hunks));
  }

  /** The parser has read these files and waits for the next header. */
  ghost predicate HasRead(s: State, files: seq<DiffFile>) {
    && Valid(s) && s.files == files && s.pendingOld == None
    && s.section == FRESH.(sawContentHeader := files != [])
  }

  lemma PlainHeadersRead(s: State, earlier: seq<DiffFile>, f: PlainData)
    requires HasRead(s, earlier)
    ensures Between(Run(s, PlainHeaderTokens(f)), earlier, FromHeaders(f), FRESH.(sawContentHeader := true))
  {
    RunHeaders(s, s.(pendingOld := Some(OldText(f))), PlainHeaderTokens(f)[0],
               NewHeader(NewText(f)), NewText(f), "+++ " + NewText(f));
  }

  lemma PlainRead(s: State, earlier: seq<DiffFile>, f: PlainData)
    requires HasRead(s, earlier)
    ensures HasRead(Run(s, PlainHeaderTokens(f) + HunksTokens(f.hunks)), earlier + [Actually(f)])
  {
    PlainHeadersRead(s, earlier, f);
    HunksRead(Run(s, PlainHeaderTokens(f)), earlier, FromHeaders(f), FRESH.(sawContentHeader := true), f.hunks);
    DiffSound.RunInParts(s, PlainHeaderTokens(f), HunksTokens(f.hunks));
  }

  function AllActually(files: seq<PlainData>): seq<DiffFile> {
    Map(Actually, files)
  }

  function AllMeant(files: seq<PlainData>): seq<DiffFile> {
    Map(Meant, files)
  }

  lemma TokensOfLast(files: seq<PlainData>, n: nat)
    requires n == |files| - 1
    ensures Tokens(PlainLines(files)) == Tokens(PlainLines(files[..n])) + Tokens(PrintPlain(files[n]))
  {
    TokensOfConcat(PlainLines(files[..n]), PrintPlain(files[n]));
  }

  lemma {:induction false} AllPlainRead(files: seq<PlainData>)
    requires AllFit(files) && AllClear(files)
    ensures HasRead(Run(START, Tokens(PlainLines(files))), AllActually(files))
  {
    if files != [] {
      var n := |files| - 1;
      AllPlainRead(files[..n]);
      TokensOfLast(files, n);
      TokensOfPlain(files[n]);
      var s := Run(START, Tokens(PlainLines(files[..n])));
      PlainRead(s, AllActually(files[..n]), files[n]);
      DiffSound.RunInParts(START, Tokens(PlainLines(files[..n])), Tokens(PrintPlain(files[n])));
      MapLast(Actually, files, n);
    }
  }

  lemma NothingToFlush(s: State, files: seq<DiffFile>)
    requires HasRead(s, files)
    ensures FilesOf(s) == files
  {
  }

  // --- the lines of the text ---

  lemma StampedFree(f: PlainData, name: string)
    requires PlainFit(f) && Free(name, '\n')
    ensures Free(Stamped(f, name), '\n')
  {
    UnbrokenFree(f.stamp);
  }

  lemma NamedFree(f: PlainData, side: string, path: string)
    requires Free(side, '\n') && Free(path, '\n')
    ensures Free(Named(f, side, path), '\n')
  {
  }

  lemma TextsFree(f: PlainData)
    requires PlainFit(f)
    ensures Free(OldText(f), '\n') && Free(NewText(f), '\n')
  {
    UnbrokenFree(f.before);
    UnbrokenFree(f.after);
    NamedFree(f, "a/", f.before);
    NamedFree(f, "b/", f.after);
    StampedFree(f, if f.status == Added then "/dev/null" else Named(f, "a/", f.before));
    StampedFree(f, if f.status == Deleted then "/dev/null" else Named(f, "b/", f.after));
  }

  lemma PlainFree(f: PlainData)
    requires PlainFit(f)
    ensures AllFree(PrintPlain(f), '\n')
  {
    TextsFree(f);
    FreeParts("--- ", OldText(f));
    FreeParts("+++ ", NewText(f));
    HunksFree(f.hunks);
  }

  lemma {:induction false} PlainLinesFree(files: seq<PlainData>)
    requires AllFit(files)
    ensures AllFree(PlainLines(files), '\n')
  {
    if files != [] {
      PlainLinesFree(files[..|files| - 1]);
      PlainFree(files[|files| - 1]);
    }
  }

  lemma LinesOfPlainText(files: seq<PlainData>)
    requires AllFit(files)
    ensures Lines(PlainText(files)) == PlainLines(files) + [""]
  {
    PlainLinesFree(files);
    LinesOfTerminated(PlainLines(files));
  }

  lemma PlainRun(files: seq<PlainData>)
    requires AllFit(files)
    ensures Run(START, Tokens(Lines(PlainText(files)))) == Run(START, Tokens(PlainLines(files)))
  {
    LinesOfPlainText(files);
    TokensOfConcat(PlainLines(files), [""]);
    DiffSound.RunInParts(START, Tokens(PlainLines(files)), Tokens([""]));
    EmptyTokenIgnored(Run(START, Tokens(PlainLines(files))));
  }

  lemma ParsedPlain(files: seq<PlainData>)
    requires AllFit(files) && AllClear(files)
    ensures Parsed(PlainText(files)) == WithAllSpans(AllActually(files))
  {
    PlainRun(files);
    AllPlainRead(files);
    NothingToFlush(Run(START, Tokens(PlainLines(files))), AllActually(files));
  }

  // --- totals ---

  function CountPlain(files: seq<PlainData>, k: LineKind): nat {
    if files == [] then 0
    else
      var n := |files| - 1;
      CountPlain(files[..n], k) + CountHunks(files[n].hunks, k)
  }

  lemma {:induction false} TotalsOfActual(files: seq<PlainData>)
    requires AllFit(files)
    ensures TotalAdditions(AllActually(files)) == CountPlain(files, Add)
    ensures TotalDeletions(AllActually(files)) == CountPlain(files, Del)
  {
    if files != [] {
      var n := |files| - 1;
      TotalsOfActual(files[..n]);
      ActuallyIff(files[n]);
      MapLast(Actually, files, n);
      TotalsPush(AllActually(files[..n]), Actually(files[n]));
    }
  }

  lemma {:induction false} TotalsOfMeant(files: seq<PlainData>)
    ensures TotalAdditions(AllMeant(files)) == CountPlain(files, Add)
    ensures TotalDeletions(AllMeant(files)) == CountPlain(files, Del)
  {
    if files != [] {
      var n := |files| - 1;
      TotalsOfMeant(files[..n]);
      MapLast(Meant, files, n);
      TotalsPush(AllMeant(files[..n]), Meant(files[n]));
    }
  }

  lemma PlainChanges(f: PlainData)
    requires PlainFit(f)
    ensures ChangeTokens(Tokens(PrintPlain(f))) == SolidHunks(f.hunks)
  {
    TokensOfPlainHeaders(f);
    NoChanges(Tokens(HeadersOf(f)));
    HunksChanges(f.hunks);
    TokensOfConcat(HeadersOf(f), PrintHunks(f.hunks));
    ChangesOfConcat(Tokens(HeadersOf(f)), Tokens(PrintHunks(f.hunks)));
  }

  /** The changed lines that do not look like headers. */
  function SolidPlain(files: seq<PlainData>): nat {
    if files == [] then 0
    else
      var n := |files| - 1;
      SolidPlain(files[..n]) + SolidHunks(files[n].hunks)
  }

  lemma {:induction false} PlainLinesChange(files: seq<PlainData>)
    requires AllFit(files)
    ensures ChangeTokens(Tokens(PlainLines(files))) == SolidPlain(files)
  {
    if files != [] {
      var n := |files| - 1;
      PlainLinesChange(files[..n]);
      PlainChanges(files[n]);
      TokensOfLast(files, n);
      ChangesOfConcat(Tokens(PlainLines(files[..n])), Tokens(PrintPlain(files[n])));
    }
  }

  lemma ClearLast(files: seq<PlainData>, n: nat)
    requires n == |files| - 1
    ensures AllClear(files) <==> AllClear(files[..n]) && HunksClear(files[n].hunks)
  {
    assert forall i :: 0 <= i < n ==> files[i] == files[..n][i];
  }

  lemma {:induction false} SolidPlainBound(files: seq<PlainData>)
    ensures SolidPlain(files) <= CountPlain(files, Add) + CountPlain(files, Del)
    ensures !AllClear(files) ==> SolidPlain(files) < CountPlain(files, Add) + CountPlain(files, Del)
  {
    if files != [] {
      var n := |files| - 1;
      SolidPlainBound(files[..n]);
      SolidHunksBound(files[n].hunks);
      ClearLast(files, n);
    }
  }

  lemma PlainLosesChanges(files: seq<PlainData>)
    requires AllFit(files) && !AllClear(files)
    ensures Changes(Parsed(PlainText(files))) < CountPlain(files, Add) + CountPlain(files, Del)
  {
    PlainRun(files);
    var tokens := Tokens(PlainLines(files));
    PlainLinesChange(files);
    SolidPlainBound(files);
    RunChanges(START, tokens);
    var s := Run(START, tokens);
    FlushChanges(s.files, s.section);
    SpansKeepTotals(FilesOf(s));
  }

  lemma SameIfPlainKept(files: seq<PlainData>)
    requires AllFit(files) && AllPlainKept(files)
    ensures AllActually(files) == AllMeant(files)
  {
    forall i | 0 <= i < |files|
      ensures Actually(files[i]) == Meant(files[i])
    {
      ActuallyIff(files[i]);
    }
  }

  lemma DifferentIfNotPlainKept(files: seq<PlainData>, i: nat)
    requires AllFit(files) && i < |files| && !PlainKept(files[i])
    ensures WithAllSpans(AllActually(files)) != WithAllSpans(AllMeant(files))
  {
    ActuallyIff(files[i]);
    SpansKeepHeader(AllActually(files), i);
    SpansKeepHeader(AllMeant(files), i);
  }

  /**
   A printed plain diff is read back exactly when no changed line begins with `++ ` or `-- `, no added or deleted file
   has a time behind its names, and no name printed without a side begins with `a/` or `b/`.
   */
  lemma PlainRoundTripIff(files: seq<PlainData>)
    requires AllFit(files)
    ensures Parsed(PlainText(files)) == WithAllSpans(AllMeant(files)) <==> AllClear(files) && AllPlainKept(files)
  {
    if AllClear(files) {
      ParsedPlain(files);
      if AllPlainKept(files) {
        SameIfPlainKept(files);
      } else {
        var i :| 0 <= i < |files| && !PlainKept(files[i]);
        DifferentIfNotPlainKept(files, i);
      }
    } else {
      PlainLosesChanges(files);
      TotalsOfMeant(files);
      SpansKeepTotals(AllMeant(files));
    }
  }

  // --- the counter ---

  /** Whether some file has hunks: from then on the counter takes every header for changed lines. */
  predicate AnyHunks(files: seq<PlainData>) {
    exists i :: 0 <= i < |files| && files[i].hunks != []
  }

  /** How many files come behind one with hunks. */
  function Late(files: seq<PlainData>): (r: nat)
    ensures r <= |files|
  {
    if files == [] then 0
    else
      var n := |files| - 1;
      Late(files[..n]) + if AnyHunks(files[..n]) then 1 else 0
  }

  lemma OldHeaderInHunk(c: DiffStat.Counters, name: string)
    requires c.inHunk
    ensures DiffStat.Step(c, "--- " + name) == c.(deletions := c.deletions + 1)
  {
    var raw, m := "--- " + name, "-";
    HeadsOf(raw);
    OtherHead(raw, "+");
    assert raw[..1] == m;
  }

  lemma NewHeaderInHunk(c: DiffStat.Counters, name: string)
    requires c.inHunk
    ensures DiffStat.Step(c, "+++ " + name) == c.(additions := c.additions + 1)
  {
    var raw, p := "+++ " + name, "+";
    HeadsOf(raw);
    assert raw[..1] == p;
  }

  lemma HeadersInHunk(c: DiffStat.Counters, f: PlainData)
    requires c.inHunk
    ensures DiffStat.Run(c, HeadersOf(f)) == c.(additions := c.additions + 1, deletions := c.deletions + 1)
  {
    OldHeaderInHunk(c, OldText(f));
    NewHeaderInHunk(c.(deletions := c.deletions + 1), NewText(f));
    DiffStat.RunTwo(c, "--- " + OldText(f), "+++ " + NewText(f));
  }

  lemma {:induction false} HunksKeepFiles(c: DiffStat.Counters, hunks: seq<HunkData>)
    ensures var d := DiffStat.Run(c, PrintHunks(hunks));
            d.plusHeaders == c.plusHeaders && d.inHunk == (c.inHunk || hunks != [])
    decreases |hunks|
  {
    if hunks != [] {
      HunkEnters(c, hunks[0]);
      HunksKeepFiles(DiffStat.Run(c, PrintHunk(hunks[0])), hunks[1..]);
      DiffStat.RunInParts(c, PrintHunk(hunks[0]), PrintHunks(hunks[1..]));
    }
  }

  lemma HunkEnters(c: DiffStat.Counters, h: HunkData)
    ensures var d := DiffStat.Run(c, PrintHunk(h)); d.plusHeaders == c.plusHeaders && d.inHunk
  {
    var header, at := HeaderOf(h), "@@";
    OtherHead(header, "diff --git");
    assert header[..2] == at;
    CountItemLines(c.(inHunk := true), h.items);
    assert PrintHunk(h)[1..] == PrintItems(h.items);
  }

  /** What the counter holds behind some files. */
  ghost predicate CountedPlain(c: DiffStat.Counters, files: seq<PlainData>) {
    && c.additions == CountPlain(files, Add) + Late(files)
    && c.deletions == CountPlain(files, Del) + Late(files)
    && c.gitHeaders == 0 && c.plusHeaders + Late(files) == |files| && c.inHunk == AnyHunks(files)
    && (files != [] ==> c.plusHeaders > 0)
  }

  lemma AnyHunksLast(files: seq<PlainData>, n: nat)
    requires n == |files| - 1
    ensures AnyHunks(files) <==> AnyHunks(files[..n]) || files[n].hunks != []
  {
    if AnyHunks(files[..n]) {
      var i :| 0 <= i < n && files[..n][i].hunks != [];
      assert files[i] == files[..n][i];
    }
    if AnyHunks(files) {
      var i :| 0 <= i < |files| && files[i].hunks != [];
      assert i < n ==> files[..n][i] == files[i];
    }
  }

  lemma PlainCounted(c: DiffStat.Counters, files: seq<PlainData>, n: nat)
    requires n == |files| - 1 && CountedPlain(c, files[..n])
    ensures CountedPlain(DiffStat.Run(c, PrintPlain(files[n])), files)
  {
    AnyHunksLast(files, n);
    var d := OneCounted(c, files[n]);
  }

  /** What one more file does to the counter. */
  lemma OneCounted(c: DiffStat.Counters, f: PlainData) returns (d: DiffStat.Counters)
    ensures d == DiffStat.Run(c, PrintPlain(f))
    ensures d.additions == c.additions + CountHunks(f.hunks, Add) + if c.inHunk then 1 else 0
    ensures d.deletions == c.deletions + CountHunks(f.hunks, Del) + if c.inHunk then 1 else 0
    ensures d.plusHeaders == c.plusHeaders + if c.inHunk then 0 else 1
    ensures d.gitHeaders == c.gitHeaders && d.inHunk == (c.inHunk || f.hunks != [])
  {
    if c.inHunk {
      HeadersInHunk(c, f);
    } else {
      HeadersIgnored(c, OldText(f), NewText(f));
    }
    var e := DiffStat.Run(c, HeadersOf(f));
    CountHunkLines(e, f.hunks);
    HunksKeepFiles(e, f.hunks);
    DiffStat.RunInParts(c, HeadersOf(f), PrintHunks(f.hunks));
    d := DiffStat.Run(e, PrintHunks(f.hunks));
  }

  lemma {:induction false} AllPlainCounted(files: seq<PlainData>)
    ensures CountedPlain(DiffStat.Run(DiffStat.ZERO, PlainLines(files)), files)
  {
    if files != [] {
      var n := |files| - 1;
      AllPlainCounted(files[..n]);
      PlainCounted(DiffStat.Run(DiffStat.ZERO, PlainLines(files[..n])), files, n);
      DiffStat.RunInParts(DiffStat.ZERO, PlainLines(files[..n]), PrintPlain(files[n]));
    }
  }

  lemma PlainTextNotEmpty(files: seq<PlainData>)
    ensures PlainText(files) == "" <==> files == []
  {
    if files != [] {
      var lines := PlainLines(files);
      assert |lines| >= |PrintPlain(files[|files| - 1])| >= 2;
      assert Terminated(lines) == lines[0] + NL + Terminated(lines[1..]);
    }
  }

  /**
   On plain diffs the counter takes the headers of every file behind one with hunks for an addition and a deletion, and
   does not count that file.
   */
  lemma PlainStatExactly(files: seq<PlainData>)
    requires AllFit(files)
    ensures DiffStat.StatOf(PlainText(files))
         == DiffStat.Stat(CountPlain(files, Add) + Late(files), CountPlain(files, Del) + Late(files),
                          |files| - Late(files))
  {
    if files == [] {
      PlainTextNotEmpty(files);
    } else {
      var c := PlainCounters(files, PlainText(files));
      CountedStat(files, c);
    }
  }

  function StatFrom(c: DiffStat.Counters): DiffStat.Stat {
    DiffStat.Stat(c.additions, c.deletions,
                  if c.plusHeaders > 0 then c.plusHeaders else if c.additions + c.deletions > 0 then 1 else 0)
  }

  lemma CountedStat(files: seq<PlainData>, c: DiffStat.Counters)
    requires CountedPlain(c, files) && files != []
    ensures StatFrom(c) == DiffStat.Stat(CountPlain(files, Add) + Late(files), CountPlain(files, Del) + Late(files),
                                         |files| - Late(files))
  {
  }

  lemma PlainCounters(files: seq<PlainData>, diff: string) returns (c: DiffStat.Counters)
    requires AllFit(files) && files != [] && diff == PlainText(files)
    ensures CountedPlain(c, files) && DiffStat.StatOf(diff) == StatFrom(c)
  {
    var lines := PlainLines(files);
    c := DiffStat.Run(DiffStat.ZERO, lines);
    AllPlainCounted(files);
    PlainTextNotEmpty(files);
    PlainRunCounters(files, lines, c);
    StatIs(diff, c);
  }

  lemma PlainRunCounters(files: seq<PlainData>, lines: seq<string>, c: DiffStat.Counters)
    requires AllFit(files) && lines == PlainLines(files) && c == DiffStat.Run(DiffStat.ZERO, lines)
    ensures DiffStat.Run(DiffStat.ZERO, Lines(PlainText(files))) == c
  {
    LinesOfPlainText(files);
    EmptyLineIgnored(DiffStat.ZERO, lines);
  }

  /** The files of a diff without git headers are its `+++` headers, or else one if anything changed. */
  lemma StatIs(diff: string, c: DiffStat.Counters)
    requires diff != "" && DiffStat.Run(DiffStat.ZERO, Lines(diff)) == c && c.gitHeaders == 0
    ensures DiffStat.StatOf(diff) == StatFrom(c)
  {
  }

  /** So it is right exactly when no file comes behind one with hunks. */
  lemma PlainStatIff(files: seq<PlainData>)
    requires AllFit(files)
    ensures DiffStat.StatOf(PlainText(files)) == DiffStat.Stat(CountPlain(files, Add), CountPlain(files, Del), |files|)
       <==> Late(files) == 0
  {
    PlainStatExactly(files);
  }

  /** Hunks without any header count as one file, unless they change nothing. */
  lemma BareStat(hunks: seq<HunkData>)
    requires hunks != [] && forall i :: 0 <= i < |hunks| ==> HunkFit(hunks[i])
    ensures var changes := CountHunks(hunks, Add) + CountHunks(hunks, Del);
            DiffStat.StatOf(Terminated(PrintHunks(hunks)))
            == DiffStat.Stat(CountHunks(hunks, Add), CountHunks(hunks, Del), if changes > 0 then 1 else 0)
  {
    HunksFree(hunks);
    var c := BareCounters(hunks, PrintHunks(hunks));
    BareRun(PrintHunks(hunks), c);
    StatIs(Terminated(PrintHunks(hunks)), c);
  }

  lemma BareCounters(hunks: seq<HunkData>, lines: seq<string>) returns (c: DiffStat.Counters)
    requires lines == PrintHunks(hunks)
    ensures c == DiffStat.Run(DiffStat.ZERO, lines) && c.gitHeaders == 0 && c.plusHeaders == 0
    ensures c.additions == CountHunks(hunks, Add) && c.deletions == CountHunks(hunks, Del)
  {
    c := DiffStat.Run(DiffStat.ZERO, lines);
    CountHunkLines(DiffStat.ZERO, hunks);
    HunksKeepFiles(DiffStat.ZERO, hunks);
  }

  lemma BareRun(lines: seq<string>, c: DiffStat.Counters)
    requires AllFree(lines, '\n') && lines != [] && c == DiffStat.Run(DiffStat.ZERO, lines)
    ensures Terminated(lines) != "" && DiffStat.Run(DiffStat.ZERO, Lines(Terminated(lines))) == c
  {
    LinesOfTerminated(lines);
    EmptyLineIgnored(DiffStat.ZERO, lines);
    assert Terminated(lines) == lines[0] + NL + Terminated(lines[1..]);
  }

  /** Two plain files on which the counter is wrong: one added line each, and it counts three and a deletion. */
  lemma LateFileExists() returns (files: seq<PlainData>)
    ensures AllFit(files) && AllClear(files) && AllPlainKept(files) && Late(files) == 1
    ensures DiffStat.StatOf(PlainText(files)) == DiffStat.Stat(3, 1, 1)
    ensures StatOfFiles(Parsed(PlainText(files))) == DiffStat.Stat(2, 0, 2)
  {
    var h := HunkData(1, Some(0), 1, None, "", [Line(Add, "x")]);
    var f := PlainData("f", "f", Modified, true, "", [h]);
    files := [f, f];
    OneAddition(h);
    TwoFiles(files, f);
    OneLineFits(f, h);
    PlainStatExactly(files);
    PlainTotals(files);
  }

  lemma OneLineFits(f: PlainData, h: HunkData)
    requires f == PlainData("f", "f", Modified, true, "", [h]) && h.tail == "" && h.items == [Line(Add, "x")]
    ensures PlainFit(f) && PlainKept(f)
  {
  }

  lemma PlainTotals(files: seq<PlainData>)
    requires AllFit(files) && AllClear(files)
    ensures StatOfFiles(Parsed(PlainText(files)))
         == DiffStat.Stat(CountPlain(files, Add), CountPlain(files, Del), |files|)
  {
    ParsedPlain(files);
    TotalsOfActual(files);
    SpansKeepTotals(AllActually(files));
  }

  lemma OneAddition(h: HunkData)
    requires h.items == [Line(Add, "x")]
    ensures CountHunks([h], Add) == 1 && CountHunks([h], Del) == 0 && HunksClear([h])
  {
    OneItem(h.items, h.items[0]);
    assert [h][1..] == [];
  }

  lemma OneItem(items: seq<Item>, item: Item)
    requires items == [item] && item == Line(Add, "x")
    ensures CountItems(items, Add) == 1 && CountItems(items, Del) == 0 && ItemsClear(items)
  {
    assert items[1..] == [];
    assert CountItems([], Add) == 0 && CountItems([], Del) == 0;
    assert !StartsWith(item.text, "++ ");
  }

  lemma TwoFiles(files: seq<PlainData>, f: PlainData)
    requires files == [f, f] && f.hunks != []
    ensures Late(files) == 1
    ensures forall k :: CountPlain(files, k) == 2 * CountHunks(f.hunks, k)
  {
    assert files[..1] == [f] && [f][..0] == [];
    assert [f][0].hunks != [];
    assert !AnyHunks([]);
    assert Late([f]) == 0;
    forall k
      ensures CountPlain(files, k) == 2 * CountHunks(f.hunks, k)
    {
      assert CountPlain([f], k) == CountHunks(f.hunks, k);
    }
  }
}
