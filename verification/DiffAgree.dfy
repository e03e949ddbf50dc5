/**
 The parser and the counter on printed diffs (packages/tui/src/diff-view.ts:55-180,
 packages/tui/src/diff-stat.ts:20-51): when each is right, and when they agree.
 */
module DiffAgree {
  import opened Wrappers
  import opened Text
  import opened Seqs
  import opened DiffTypes
  import opened DiffSyntax
  import opened DiffParser
  import opened DiffPrint
  import opened DiffRoundTrip
  import DiffSound
  import DiffStat

  // --- the lines of a printed diff ---

  lemma {:induction false} DigitsFree(s: string)
    requires AllDigits(s)
    ensures Free(s, '\n')
  {
  }

  lemma UnbrokenFree(s: string)
    requires Unbroken(s)
    ensures Free(s, '\n')
  {
  }

  lemma FreeParts(x: string, y: string)
    requires Free(x, '\n') && Free(y, '\n')
    ensures Free(x + y, '\n')
  {
  }

  lemma RangeFree(a: nat, b: Option<nat>)
    ensures Free(RangeText(a, b), '\n')
  {
    DecimalDenotes(a);
    DigitsFree(Decimal(a));
    if b.Some? {
      DecimalDenotes(b.value);
      DigitsFree(Decimal(b.value));
    }
  }

  lemma HeaderFree(h: HunkData)
    requires HunkFit(h)
    ensures Free(HeaderOf(h), '\n')
  {
    RangeFree(h.oldNo, h.oldCount);
    RangeFree(h.newNo, h.newCount);
    UnbrokenFree(h.tail);
    var c, m, o := " @@", " +", "@@ -";
    FreeParts(c, h.tail);
    FreeParts(RangeText(h.newNo, h.newCount), c + h.tail);
    FreeParts(m, RangeText(h.newNo, h.newCount) + (c + h.tail));
    FreeParts(RangeText(h.oldNo, h.oldCount), m + (RangeText(h.newNo, h.newCount) + (c + h.tail)));
    FreeParts(o, RangeText(h.oldNo, h.oldCount) + (m + (RangeText(h.newNo, h.newCount) + (c + h.tail))));
  }

  lemma {:induction false} ItemsFree(items: seq<Item>)
    requires forall i :: 0 <= i < |items| ==> items[i].Line? ==> Free(items[i].text, '\n')
    ensures AllFree(PrintItems(items), '\n')
  {
    if items != [] {
      ItemsFree(items[1..]);
    }
  }

  lemma {:induction false} HunksFree(hunks: seq<HunkData>)
    requires forall i :: 0 <= i < |hunks| ==> HunkFit(hunks[i])
    ensures AllFree(PrintHunks(hunks), '\n')
  {
    if hunks != [] {
      HeaderFree(hunks[0]);
      ItemsFree(hunks[0].items);
      HunksFree(hunks[1..]);
    }
  }

  lemma NamesFree(f: FileData)
    requires FileFit(f)
    ensures Free(f.before, '\n') && Free(f.after, '\n') && Free(OldName(f), '\n') && Free(NewName(f), '\n')
  {
    UnbrokenFree(f.before);
    UnbrokenFree(f.after);
  }

  lemma ContentFree(f: FileData)
    requires FileFit(f)
    ensures AllFree(PrintContent(f), '\n')
  {
    NamesFree(f);
    match f.content
    case Hunks(hunks) => HunksFree(hunks);
    case _ =>
  }

  lemma FileFree(f: FileData)
    requires FileFit(f)
    ensures AllFree(PrintFile(f), '\n')
  {
    NamesFree(f);
    ContentFree(f);
    assert Free(GitLine(f.before, f.after), '\n');
    assert AllFree(PrintRename(f), '\n');
    assert AllFree(f.extra + PrintContent(f), '\n');
  }

  lemma {:induction false} AllLinesFree(files: seq<FileData>)
    requires Fit(files)
    ensures AllFree(PrintAll(files), '\n')
  {
    if files != [] {
      FileFree(files[0]);
      AllLinesFree(files[1..]);
    }
  }

  lemma LinesOfPrint(files: seq<FileData>)
    requires Fit(files)
    ensures Lines(Print(files)) == PrintAll(files) + [""]
  {
    AllLinesFree(files);
    LinesOfTerminated(PrintAll(files));
  }

  // --- the empty line at the end changes nothing ---

  lemma EmptyTokenIgnored(s: State)
    requires Valid(s)
    ensures Run(s, Tokens([""])) == s
  {
    PlainLine("");
    OtherHead("", "--- ");
    OtherHead("", "+++ ");
    assert Tokens([""])[1..] == [];
  }

  lemma PrintedRun(files: seq<FileData>)
    requires Fit(files)
    ensures Run(START, Tokens(Lines(Print(files)))) == Run(START, Tokens(PrintAll(files)))
  {
    LinesOfPrint(files);
    TokensOfConcat(PrintAll(files), [""]);
    DiffSound.RunInParts(START, Tokens(PrintAll(files)), Tokens([""]));
    EmptyTokenIgnored(Run(START, Tokens(PrintAll(files))));
  }

  lemma ParsedWhenClear(files: seq<FileData>)
    requires Fit(files) && Clear(files)
    ensures Parsed(Print(files)) == WithAllSpans(ReadAllActually(files))
  {
    PrintedRun(files);
    AllRead(files);
  }

  // --- counting changed lines ---

  function TotalAdditions(files: seq<DiffFile>): nat {
    if files == [] then 0 else TotalAdditions(files[..|files| - 1]) + files[|files| - 1].additions
  }

  function TotalDeletions(files: seq<DiffFile>): nat {
    if files == [] then 0 else TotalDeletions(files[..|files| - 1]) + files[|files| - 1].deletions
  }

  function Changes(files: seq<DiffFile>): nat {
    TotalAdditions(files) + TotalDeletions(files)
  }

  lemma {:induction false} SpansKeepTotals(files: seq<DiffFile>)
    ensures TotalAdditions(WithAllSpans(files)) == TotalAdditions(files)
    ensures TotalDeletions(WithAllSpans(files)) == TotalDeletions(files)
  {
    if files != [] {
      var n := |files| - 1;
      SpansKeepTotals(files[..n]);
      assert WithAllSpans(files)[..n] == WithAllSpans(files[..n]);
    }
  }

  lemma TotalsPush(files: seq<DiffFile>, f: DiffFile)
    ensures TotalAdditions(files + [f]) == TotalAdditions(files) + f.additions
    ensures TotalDeletions(files + [f]) == TotalDeletions(files) + f.deletions
  {
    assert (files + [f])[..|files|] == files;
  }

  lemma ChangesUpdate(files: seq<DiffFile>, f: DiffFile)
    requires files != []
    ensures Changes(UpdateLast(files, f)) + Last(files).additions + Last(files).deletions
            == Changes(files) + f.additions + f.deletions
  {
    assert UpdateLast(files, f)[..|files| - 1] == files[..|files| - 1];
  }

  /** A token that the parser may count as a changed line. */
  predicate IsChange(t: Token) {
    t.kind == Body && t.raw != "" && (t.raw[0] == '+' || t.raw[0] == '-')
  }

  function ChangeTokens(tokens: seq<Token>): nat {
    if tokens == [] then 0 else (if IsChange(tokens[0]) then 1 else 0) + ChangeTokens(tokens[1..])
  }

  lemma {:induction false} ChangesOfConcat(a: seq<Token>, b: seq<Token>)
    ensures ChangeTokens(a + b) == ChangeTokens(a) + ChangeTokens(b)
  {
    if a == [] {
      assert a + b == b;
    } else {
      assert (a + b)[1..] == a[1..] + b;
      ChangesOfConcat(a[1..], b);
    }
  }

  lemma FlushChanges(files: seq<DiffFile>, x: Section)
    ensures Changes(Flushed(files, x)) == Changes(files)
  {
    if SectionFile(x).Some? {
      TotalsPush(files, SectionFile(x).value);
    }
  }

  lemma BodyChanges(s: State, raw: string)
    requires Valid(s)
    ensures Changes(TakeBody(s, raw).files)
         <= Changes(s.files) + if raw != "" && (raw[0] == '+' || raw[0] == '-') then 1 else 0
  {
    var line := BodyLine(raw, s.oldNo, s.newNo);
    if s.hasFile && s.hasHunk && line.Some? {
      ChangesUpdate(s.files, AddLine(Last(s.files), line.value));
    }
  }

  lemma StepChanges(s: State, t: Token)
    requires Valid(s)
    ensures Changes(Step(s, t).files) <= Changes(s.files) + if IsChange(t) then 1 else 0
  {
    match t.kind
    case Git(_) => FlushChanges(s.files, s.section);
    case NewHeader(name) => TotalsPush(s.files, HeaderFile(name, s.pendingOld, IsRename(s.section)));
    case Hunk(_) =>
      if s.hasFile {
        ChangesUpdate(s.files, OpenHunk(Last(s.files), t.raw));
      }
    case Body => BodyChanges(s, t.raw);
    case _ =>
  }

  /** The parser counts no more changes than it sees change lines. */
  lemma {:induction false} RunChanges(s: State, tokens: seq<Token>)
    requires Valid(s)
    ensures Changes(Run(s, tokens).files) <= Changes(s.files) + ChangeTokens(tokens)
    decreases |tokens|
  {
    if tokens != [] {
      StepChanges(s, tokens[0]);
      RunChanges(Step(s, tokens[0]), tokens[1..]);
    }
  }

  /** The changed lines among the items that do not look like headers. */
  function SolidItems(items: seq<Item>): nat {
    if items == [] then 0
    else
      (if items[0].Line? && items[0].kind != Context && !LooksLikeHeader(items[0]) then 1 else 0)
      + SolidItems(items[1..])
  }

  function SolidHunks(hunks: seq<HunkData>): nat {
    if hunks == [] then 0 else SolidItems(hunks[0].items) + SolidHunks(hunks[1..])
  }

  function SolidFile(f: FileData): nat {
    if f.content.Hunks? then SolidHunks(f.content.hunks) else 0
  }

  lemma {:induction false} SolidItemsBound(items: seq<Item>)
    ensures SolidItems(items) <= CountItems(items, Add) + CountItems(items, Del)
    ensures !ItemsClear(items) ==> SolidItems(items) < CountItems(items, Add) + CountItems(items, Del)
  {
    if items != [] {
      SolidItemsBound(items[1..]);
      if ItemsClear(items[1..]) && !LooksLikeHeader(items[0]) {
        assert forall i :: 0 < i < |items| ==> items[i] == items[1..][i - 1];
      }
    }
  }

  lemma {:induction false} SolidHunksBound(hunks: seq<HunkData>)
    ensures SolidHunks(hunks) <= CountHunks(hunks, Add) + CountHunks(hunks, Del)
    ensures !HunksClear(hunks) ==> SolidHunks(hunks) < CountHunks(hunks, Add) + CountHunks(hunks, Del)
  {
    if hunks != [] {
      SolidItemsBound(hunks[0].items);
      SolidHunksBound(hunks[1..]);
      if HunksClear(hunks[1..]) && ItemsClear(hunks[0].items) {
        assert forall i :: 0 < i < |hunks| ==> hunks[i] == hunks[1..][i - 1];
      }
    }
  }

  lemma {:induction false} ItemChanges(items: seq<Item>)
    ensures ChangeTokens(Tokens(PrintItems(items))) == SolidItems(items)
  {
    if items != [] {
      var first := [PrintItem(items[0])];
      ItemLine(items[0]);
      ItemChanges(items[1..]);
      TokensOfConcat(first, PrintItems(items[1..]));
      ChangesOfConcat(Tokens(first), Tokens(PrintItems(items[1..])));
      assert Tokens(first)[1..] == [];
    }
  }

  lemma OneChange(raw: string)
    ensures ChangeTokens(Tokens([raw])) == if IsChange(TokenOf(raw)) then 1 else 0
  {
    assert Tokens([raw])[1..] == [];
  }

  lemma HunkChanges(h: HunkData)
    requires HunkFit(h)
    ensures ChangeTokens(Tokens(PrintHunk(h))) == SolidItems(h.items)
  {
    HunkHeaderLine(h);
    OneChange(HeaderOf(h));
    ItemChanges(h.items);
    TokensOfConcat([HeaderOf(h)], PrintItems(h.items));
    ChangesOfConcat(Tokens([HeaderOf(h)]), Tokens(PrintItems(h.items)));
  }

  lemma {:induction false} HunksChanges(hunks: seq<HunkData>)
    requires forall i :: 0 <= i < |hunks| ==> HunkFit(hunks[i])
    ensures ChangeTokens(Tokens(PrintHunks(hunks))) == SolidHunks(hunks)
  {
    if hunks != [] {
      HunkChanges(hunks[0]);
      HunksChanges(hunks[1..]);
      TokensOfConcat(PrintHunk(hunks[0]), PrintHunks(hunks[1..]));
      ChangesOfConcat(Tokens(PrintHunk(hunks[0])), Tokens(PrintHunks(hunks[1..])));
    }
  }

  lemma {:induction false} NoChanges(tokens: seq<Token>)
    requires forall i :: 0 <= i < |tokens| ==> !IsChange(tokens[i])
    ensures ChangeTokens(tokens) == 0
  {
    if tokens != [] {
      NoChanges(tokens[1..]);
    }
  }

  lemma ContentChanges(f: FileData)
    requires FileFit(f)
    ensures ChangeTokens(Tokens(PrintContent(f))) == SolidFile(f)
  {
    match f.content
    case Hunks(hunks) =>
      var ls := ["--- " + OldName(f), "+++ " + NewName(f)];
      TokensOfHeaders(f);
      NoChanges(Tokens(ls));
      HunksChanges(hunks);
      TokensOfConcat(ls, PrintHunks(hunks));
      ChangesOfConcat(Tokens(ls), Tokens(PrintHunks(hunks)));
    case BinaryChange =>
      BinaryLine(OldName(f) + " and " + NewName(f));
      NoChanges(Tokens(PrintContent(f)));
    case NoContent =>
  }

  lemma ExtraChanges(extra: seq<string>)
    requires forall i :: 0 <= i < |extra| ==> IsExtra(extra[i])
    ensures ChangeTokens(Tokens(extra)) == 0
  {
    NoChanges(Tokens(extra));
  }

  lemma FileChanges(f: FileData)
    requires FileFit(f)
    ensures ChangeTokens(Tokens(PrintFile(f))) == SolidFile(f)
  {
    GitHeaderLine(f);
    OneChange(GitLine(f.before, f.after));
    TokensOfRename(f);
    NoChanges(RenameTokens(f));
    ExtraChanges(f.extra);
    ContentChanges(f);
    TokensOfConcat(f.extra, PrintContent(f));
    ChangesOfConcat(Tokens(f.extra), Tokens(PrintContent(f)));
    TokensOfConcat(PrintRename(f), f.extra + PrintContent(f));
    ChangesOfConcat(Tokens(PrintRename(f)), Tokens(f.extra + PrintContent(f)));
    var git, rest := [GitLine(f.before, f.after)], PrintRename(f) + (f.extra + PrintContent(f));
    TokensOfConcat(git, rest);
    ChangesOfConcat(Tokens(git), Tokens(rest));
  }

  lemma {:induction false} AllChanges(files: seq<FileData>)
    requires Fit(files)
    ensures ChangesBound(files)
  {
    if files == [] {
      NoFileChanges();
    } else {
      var n := |files| - 1;
      LastFits(files, n);
      AllChanges(files[..n]);
      OneMoreFile(files[..n], files[n]);
      FrontAndLast(files, n);
    }
  }

  lemma NoFileChanges()
    ensures ChangesBound([])
  {
  }

  /** Whether printed files show fewer changes than they have, or at most as many. */
  ghost predicate ChangesBound(files: seq<FileData>) {
    && ChangeTokens(Tokens(PrintAll(files))) <= CountFiles(files, Add) + CountFiles(files, Del)
    && (!Clear(files) ==> ChangeTokens(Tokens(PrintAll(files))) < CountFiles(files, Add) + CountFiles(files, Del))
  }

  lemma CountsOfConcat(front: seq<FileData>, f: FileData, k: LineKind)
    ensures CountFiles(front + [f], k) == CountFiles(front, k) + CountFile(f, k)
  {
    assert (front + [f])[..|front|] == front;
  }

  lemma OneMoreFile(front: seq<FileData>, f: FileData)
    requires ChangesBound(front) && FileFit(f)
    ensures ChangesBound(front + [f])
  {
    LastFileChanges(front, f);
    CountsOfConcat(front, f, Add);
    CountsOfConcat(front, f, Del);
    assert (front + [f])[..|front|] == front;
    ClearInParts(front + [f], |front|);
  }

  lemma ClearInParts(files: seq<FileData>, n: nat)
    requires n == |files| - 1
    ensures Clear(files) <==> Clear(files[..n]) && FileClear(files[n])
  {
    assert forall i :: 0 <= i < n ==> files[i] == files[..n][i];
  }

  lemma LastFileChanges(front: seq<FileData>, f: FileData)
    requires FileFit(f)
    ensures ChangeTokens(Tokens(PrintAll(front + [f])))
         == ChangeTokens(Tokens(PrintAll(front))) + ChangeTokens(Tokens(PrintFile(f)))
    ensures ChangeTokens(Tokens(PrintFile(f))) <= CountFile(f, Add) + CountFile(f, Del)
    ensures !FileClear(f) ==> ChangeTokens(Tokens(PrintFile(f))) < CountFile(f, Add) + CountFile(f, Del)
  {
    PrintLast(front, f);
    TokensOfConcat(PrintAll(front), PrintFile(f));
    ChangesOfConcat(Tokens(PrintAll(front)), Tokens(PrintFile(f)));
    FileChanges(f);
    if f.content.Hunks? {
      SolidHunksBound(f.content.hunks);
    }
  }

  /** A header-like line costs the parser at least one change. */
  lemma LosesChanges(files: seq<FileData>)
    requires Fit(files) && !Clear(files)
    ensures Changes(Parsed(Print(files))) < CountFiles(files, Add) + CountFiles(files, Del)
  {
    PrintedRun(files);
    var tokens := Tokens(PrintAll(files));
    AllChanges(files);
    RunChanges(START, tokens);
    var s := Run(START, tokens);
    FlushChanges(s.files, s.section);
    SpansKeepTotals(FilesOf(s));
  }

  // --- the totals of what is read ---

  lemma {:induction false} TotalsActually(files: seq<FileData>)
    ensures TotalAdditions(ReadAllActually(files)) == CountFiles(files, Add)
    ensures TotalDeletions(ReadAllActually(files)) == CountFiles(files, Del)
  {
    if files != [] {
      var n := |files| - 1;
      TotalsActually(files[..n]);
      ReadActuallyLast(files, n);
      TotalsPush(ReadAllActually(files[..n]), ReadActually(files[n]));
    }
  }

  lemma {:induction false} TotalsMeant(files: seq<FileData>)
    ensures TotalAdditions(ReadAll(files)) == CountFiles(files, Add)
    ensures TotalDeletions(ReadAll(files)) == CountFiles(files, Del)
  {
    if files != [] {
      var n := |files| - 1;
      TotalsMeant(files[..n]);
      ReadAllLast(files, n);
      TotalsPush(ReadAll(files[..n]), ReadFile(files[n]));
    }
  }

  /** A file without its hunks. */
  function Header(f: DiffFile): DiffFile {
    f.(hunks := [])
  }

  lemma BareDiffers(f: FileData)
    requires FileFit(f) && !Kept(f)
    ensures Header(ReadActually(f)) != Header(ReadFile(f))
  {
    ReadAsMeantIff(f);
  }

  lemma SameIfKept(files: seq<FileData>)
    requires Fit(files) && AllKept(files)
    ensures ReadAllActually(files) == ReadAll(files)
  {
    forall i | 0 <= i < |files|
      ensures ReadActually(files[i]) == ReadFile(files[i])
    {
      ReadAsMeantIff(files[i]);
    }
  }

  lemma DifferentIfNotKept(files: seq<FileData>, i: nat)
    requires Fit(files) && i < |files| && !Kept(files[i])
    ensures WithAllSpans(ReadAllActually(files)) != WithAllSpans(ReadAll(files))
  {
    BareDiffers(files[i]);
    SpansKeepHeader(ReadAllActually(files), i);
    SpansKeepHeader(ReadAll(files), i);
  }

  lemma SpansKeepHeader(files: seq<DiffFile>, i: nat)
    requires i < |files|
    ensures |WithAllSpans(files)| == |files|
    ensures Header(WithAllSpans(files)[i]) == Header(files[i])
  {
  }

  /**
   A printed diff is read back as the files, hunks, lines and numbers it was printed from exactly when no
   changed line begins with `++ ` or `-- `, no file without hunks is added, deleted or in a top directory `a` or `b`,
   and no file with neither hunks nor rename lines has ` b/` with something behind it in its path.
   */
  lemma RoundTripIff(files: seq<FileData>)
    requires Fit(files)
    ensures Parsed(Print(files)) == WithAllSpans(ReadAll(files)) <==> Clear(files) && AllKept(files)
  {
    if Clear(files) {
      ParsedWhenClear(files);
      if AllKept(files) {
        SameIfKept(files);
      } else {
        var i :| 0 <= i < |files| && !Kept(files[i]);
        DifferentIfNotKept(files, i);
      }
    } else {
      LosesChanges(files);
      TotalsMeant(files);
      SpansKeepTotals(ReadAll(files));
    }
  }

  // --- the counter ---

  ghost predicate Counted(c: DiffStat.Counters, d: DiffStat.Counters, additions: nat, deletions: nat, gitHeaders: nat) {
    && d.additions == c.additions + additions
    && d.deletions == c.deletions + deletions
    && d.gitHeaders == c.gitHeaders + gitHeaders
  }

  lemma HeadsOf(raw: string)
    requires raw == "" || (raw[0] != 'd' && raw[0] != '@')
    ensures !StartsWith(raw, "diff --git") && !StartsWith(raw, "@@")
  {
    OtherHead(raw, "diff --git");
    OtherHead(raw, "@@");
  }

  lemma ItemCounted(c: DiffStat.Counters, item: Item)
    requires c.inHunk
    ensures DiffStat.Step(c, PrintItem(item))
            == c.(additions := c.additions + CountItem(item, Add), deletions := c.deletions + CountItem(item, Del))
  {
    HeadsOf(PrintItem(item));
  }

  lemma {:induction false} CountItemLines(c: DiffStat.Counters, items: seq<Item>)
    requires c.inHunk
    ensures DiffStat.Run(c, PrintItems(items))
            == c.(additions := c.additions + CountItems(items, Add), deletions := c.deletions + CountItems(items, Del))
    decreases |items|
  {
    if items != [] {
      ItemCounted(c, items[0]);
      CountItemLines(DiffStat.Step(c, PrintItem(items[0])), items[1..]);
      assert PrintItems(items)[1..] == PrintItems(items[1..]);
    }
  }

  lemma CountHunk(c: DiffStat.Counters, h: HunkData)
    ensures Counted(c, DiffStat.Run(c, PrintHunk(h)), CountItems(h.items, Add), CountItems(h.items, Del), 0)
  {
    var header, at := HeaderOf(h), "@@";
    OtherHead(header, "diff --git");
    assert header[..2] == at;
    CountItemLines(c.(inHunk := true), h.items);
    assert PrintHunk(h)[1..] == PrintItems(h.items);
  }

  lemma {:induction false} CountHunkLines(c: DiffStat.Counters, hunks: seq<HunkData>)
    ensures Counted(c, DiffStat.Run(c, PrintHunks(hunks)), CountHunks(hunks, Add), CountHunks(hunks, Del), 0)
    decreases |hunks|
  {
    if hunks != [] {
      CountHunk(c, hunks[0]);
      CountHunkLines(DiffStat.Run(c, PrintHunk(hunks[0])), hunks[1..]);
      DiffStat.RunInParts(c, PrintHunk(hunks[0]), PrintHunks(hunks[1..]));
    }
  }

  /** A line that the counter has no use for. */
  lemma LineIgnored(c: DiffStat.Counters, raw: string)
    requires raw == "" || (raw[0] != '@' && raw[0] != '+' && raw[0] != '-')
    requires !StartsWith(raw, "diff --git")
    ensures DiffStat.Step(c, raw) == c
  {
    OtherHead(raw, "@@");
    OtherHead(raw, "+++");
    OtherHead(raw, "---");
    OtherHead(raw, "+");
    OtherHead(raw, "-");
  }

  lemma {:induction false} LinesIgnored(c: DiffStat.Counters, lines: seq<string>)
    requires forall i :: 0 <= i < |lines| ==>
               !StartsWith(lines[i], "diff --git")
               && (lines[i] == "" || (lines[i][0] != '@' && lines[i][0] != '+' && lines[i][0] != '-'))
    ensures DiffStat.Run(c, lines) == c
    decreases |lines|
  {
    if lines != [] {
      LineIgnored(c, lines[0]);
      LinesIgnored(c, lines[1..]);
    }
  }

  lemma RenameIgnored(c: DiffStat.Counters, f: FileData)
    ensures DiffStat.Run(c, PrintRename(f)) == c
  {
    OtherHead("rename from " + f.before, "diff --git");
    OtherHead("rename to " + f.after, "diff --git");
    LinesIgnored(c, PrintRename(f));
  }

  lemma OldHeaderIgnored(c: DiffStat.Counters, name: string)
    requires !c.inHunk
    ensures DiffStat.Step(c, "--- " + name) == c
  {
    var raw, m := "--- " + name, "---";
    HeadsOf(raw);
    OtherHead(raw, "+++");
    assert raw[..3] == m;
  }

  lemma NewHeaderCounted(c: DiffStat.Counters, name: string)
    requires !c.inHunk
    ensures DiffStat.Step(c, "+++ " + name) == c.(plusHeaders := c.plusHeaders + 1)
  {
    var raw, p := "+++ " + name, "+++";
    HeadsOf(raw);
    assert raw[..3] == p;
  }

  lemma HeadersIgnored(c: DiffStat.Counters, before: string, now: string)
    requires !c.inHunk
    ensures DiffStat.Run(c, ["--- " + before, "+++ " + now]) == c.(plusHeaders := c.plusHeaders + 1)
  {
    OldHeaderIgnored(c, before);
    NewHeaderCounted(c, now);
    DiffStat.RunTwo(c, "--- " + before, "+++ " + now);
  }

  lemma CountContent(c: DiffStat.Counters, f: FileData)
    requires !c.inHunk
    ensures Counted(c, DiffStat.Run(c, PrintContent(f)), CountFile(f, Add), CountFile(f, Del), 0)
  {
    match f.content
    case Hunks(hunks) =>
      var ls := ["--- " + OldName(f), "+++ " + NewName(f)];
      HeadersIgnored(c, OldName(f), NewName(f));
      CountHunkLines(DiffStat.Run(c, ls), hunks);
      DiffStat.RunInParts(c, ls, PrintHunks(hunks));
    case BinaryChange =>
      OtherHead(PrintContent(f)[0], "diff --git");
      LinesIgnored(c, PrintContent(f));
    case NoContent =>
  }

  lemma CountFileLines(c: DiffStat.Counters, f: FileData)
    requires FileFit(f)
    ensures Counted(c, DiffStat.Run(c, PrintFile(f)), CountFile(f, Add), CountFile(f, Del), 1)
  {
    var git, rest := GitLine(f.before, f.after), f.extra + PrintContent(f);
    var d := c.(gitHeaders := c.gitHeaders + 1, inHunk := false);
    GitLineCounted(c, f.before, f.after);
    assert PrintFile(f)[1..] == PrintRename(f) + rest;
    RenameIgnored(d, f);
    LinesIgnored(d, f.extra);
    CountContent(d, f);
    DiffStat.RunInParts(d, PrintRename(f), rest);
    DiffStat.RunInParts(d, f.extra, PrintContent(f));
  }

  lemma GitLineCounted(c: DiffStat.Counters, a: string, b: string)
    ensures DiffStat.Step(c, GitLine(a, b)) == c.(gitHeaders := c.gitHeaders + 1, inHunk := false)
  {
    var git := "diff --git";
    assert git == GIT[..|git|];
    HeadedLine(GIT, a);
    assert GitLine(a, b)[..|git|] == GIT[..|git|];
  }

  lemma CountedThen(
    c: DiffStat.Counters, a: seq<string>, b: seq<string>, x: nat, y: nat, z: nat, u: nat, v: nat, w: nat)
    requires Counted(c, DiffStat.Run(c, a), x, y, z)
    requires Counted(DiffStat.Run(c, a), DiffStat.Run(DiffStat.Run(c, a), b), u, v, w)
    ensures Counted(c, DiffStat.Run(c, a + b), x + u, y + v, z + w)
  {
    DiffStat.RunInParts(c, a, b);
  }

  lemma CountOneMore(c: DiffStat.Counters, before: seq<FileData>, f: FileData, x: nat, y: nat)
    requires FileFit(f) && Counted(c, DiffStat.Run(c, PrintAll(before)), x, y, |before|)
    ensures Counted(c, DiffStat.Run(c, PrintAll(before + [f])), x + CountFile(f, Add), y + CountFile(f, Del),
                    |before| + 1)
  {
    CountFileLines(DiffStat.Run(c, PrintAll(before)), f);
    PrintLast(before, f);
    CountedThen(c, PrintAll(before), PrintFile(f), x, y, |before|, CountFile(f, Add), CountFile(f, Del), 1);
  }

  lemma {:induction false} CountAllLines(c: DiffStat.Counters, files: seq<FileData>)
    requires Fit(files)
    ensures AllCounted(c, files)
    decreases |files|
  {
    if files == [] {
      NothingCounted(c);
    } else {
      var n := |files| - 1;
      LastFits(files, n);
      CountAllLines(c, files[..n]);
      CountLast(c, files[..n], files[n]);
      FrontAndLast(files, n);
    }
  }

  ghost predicate AllCounted(c: DiffStat.Counters, files: seq<FileData>) {
    Counted(c, DiffStat.Run(c, PrintAll(files)), CountFiles(files, Add), CountFiles(files, Del), |files|)
  }

  lemma NothingCounted(c: DiffStat.Counters)
    ensures AllCounted(c, [])
  {
  }

  lemma CountLast(c: DiffStat.Counters, before: seq<FileData>, f: FileData)
    requires FileFit(f) && AllCounted(c, before)
    ensures AllCounted(c, before + [f])
  {
    CountOneMore(c, before, f, CountFiles(before, Add), CountFiles(before, Del));
    CountsOfConcat(before, f, Add);
    CountsOfConcat(before, f, Del);
  }

  lemma EmptyLineIgnored(c: DiffStat.Counters, lines: seq<string>)
    ensures DiffStat.Run(c, lines + [""]) == DiffStat.Run(c, lines)
  {
    LinesIgnored(DiffStat.Run(c, lines), [""]);
    DiffStat.RunInParts(c, lines, [""]);
  }

  lemma PrintedCounters(files: seq<FileData>)
    requires Fit(files)
    ensures Counted(DiffStat.ZERO, DiffStat.Run(DiffStat.ZERO, PrintAll(files) + [""]),
                    CountFiles(files, Add), CountFiles(files, Del), |files|)
  {
    CountAllLines(DiffStat.ZERO, files);
    EmptyLineIgnored(DiffStat.ZERO, PrintAll(files));
  }

  lemma StatFromCounters(diff: string, additions: nat, deletions: nat, gitHeaders: nat)
    requires diff != "" && gitHeaders > 0
    requires Counted(DiffStat.ZERO, DiffStat.Run(DiffStat.ZERO, Lines(diff)), additions, deletions, gitHeaders)
    ensures DiffStat.StatOf(diff) == DiffStat.Stat(additions, deletions, gitHeaders)
  {
  }

  lemma PrintNotEmpty(files: seq<FileData>)
    requires files != []
    ensures Print(files) != ""
  {
    var lines := PrintAll(files);
    assert lines[0] == PrintFile(files[0])[0];
  }

  /** The counter is right on every printed diff, header-like lines or not. */
  lemma StatIsRight(files: seq<FileData>)
    requires Fit(files)
    ensures DiffStat.StatOf(Print(files)) == DiffStat.Stat(CountFiles(files, Add), CountFiles(files, Del), |files|)
  {
    if files != [] {
      LinesOfPrint(files);
      PrintNotEmpty(files);
      PrintedCounters(files);
      StatFromCounters(Print(files), CountFiles(files, Add), CountFiles(files, Del), |files|);
    }
  }

  /** What the parser's files add up to, in the counter's terms. */
  function StatOfFiles(files: seq<DiffFile>): DiffStat.Stat {
    DiffStat.Stat(TotalAdditions(files), TotalDeletions(files), |files|)
  }

  /** The two agree on the totals of a printed diff exactly when no changed line looks like a file header. */
  lemma ParserAndCounterAgreeIff(files: seq<FileData>)
    requires Fit(files)
    ensures StatOfFiles(Parsed(Print(files))) == DiffStat.StatOf(Print(files)) <==> Clear(files)
  {
    StatIsRight(files);
    if Clear(files) {
      ParsedWhenClear(files);
      TotalsActually(files);
      SpansKeepTotals(ReadAllActually(files));
    } else {
      LosesChanges(files);
    }
  }

  // --- inputs on the failing side ---

  /** A hunk that adds the line `++ x`. */
  lemma HeaderLikeLineExists() returns (files: seq<FileData>)
    ensures Fit(files) && AllKept(files)
    ensures StatOfFiles(Parsed(Print(files))) != DiffStat.StatOf(Print(files))
    ensures Parsed(Print(files)) != WithAllSpans(ReadAll(files))
  {
    var item := Line(Add, "++ x");
    var h := HunkData(1, Some(0), 1, None, "", [item]);
    var f := FileData("f", "f", Modified, false, [], Hunks([h]));
    files := [f];
    assert StartsWith(item.text, "++ ");
    NotClear(f, item);
    RoundTripIff(files);
    ParserAndCounterAgreeIff(files);
  }

  lemma NotClear(f: FileData, item: Item)
    requires f.content.Hunks? && |f.content.hunks| == 1 && f.content.hunks[0].items == [item] && LooksLikeHeader(item)
    ensures !Clear([f])
  {
    assert !ItemsClear([item]) by {
      assert [item][0] == item;
    }
    assert !HunksClear(f.content.hunks);
    assert [f][0] == f;
  }

  lemma NoSplitWithoutSpace(b: string, sep: string)
    requires sep != "" && Free(b, sep[0])
    ensures !Splits(b, sep)
  {
    forall k | 0 <= k <= |b|
      ensures !SplitsAt(b, sep, k)
    {
      if k + |sep| < |b| {
        assert b[k..k + |sep|][0] == b[k];
      }
    }
  }

  lemma SpacedHeader(path: string, misread: string, short: string)
    requires path == "a b/c.png" && misread == "a b/c.png b/a" && short == "c.png"
    ensures ParseGitHeader(GitLine(path, path)) == Some(Paths(misread, short)) && Splits(path, B_SIDE)
  {
    assert GitLine(path, path) == GitLine(misread, short);
    NoSplitWithoutSpace(short, B_SIDE);
    GitLineParsesIff(misread, short);
    GitLineParsesIff(path, path);
  }

  function BinaryFile(path: string, status: Status): FileData {
    FileData(path, path, status, false, [], BinaryChange)
  }

  lemma BinaryClear(f: FileData)
    requires FileFit(f) && !f.content.Hunks?
    ensures Fit([f]) && Clear([f])
  {
    assert [f][0] == f;
  }

  /** A binary change of `a b/c.png`: it is read as a change of `c.png`, before which it was `a b/c.png b/a`. */
  lemma SpacedPathMisread() returns (f: FileData)
    ensures Fit([f]) && Clear([f]) && f.before == f.after == "a b/c.png"
    ensures HeaderPaths(f) == Paths("a b/c.png b/a", "c.png")
    ensures Parsed(Print([f])) != WithAllSpans(ReadAll([f]))
  {
    f := BinaryFile("a b/c.png", Modified);
    SpacedHeader(f.after, "a b/c.png b/a", "c.png");
    BinaryClear(f);
    NotKept(f);
  }

  /** Without hunks the status is not read. */
  lemma BareIgnoresStatus(f: FileData, g: FileData)
    requires FileFit(f) && !f.content.Hunks? && PathsKept(f) && g == f.(status := Modified)
    ensures ReadActually(f) == ReadFile(g)
  {
    ReadAsMeantIff(g);
  }

  lemma ReadAsOther(f: FileData, g: FileData)
    requires ReadActually(f) == ReadFile(g)
    ensures ReadAllActually([f]) == ReadAll([g])
  {
  }

  lemma NotKept(f: FileData)
    requires FileFit(f) && !Kept(f)
    ensures Parsed(Print([f])) != WithAllSpans(ReadAll([f]))
  {
    assert [f][0] == f;
    RoundTripIff([f]);
  }

  /** An added or deleted file without hunks is read exactly as a changed one, so its status is lost. */
  lemma StatusLost(f: FileData)
    requires FileFit(f) && !f.content.Hunks? && f.status != Modified && PathsKept(f)
    ensures Parsed(Print([f])) == WithAllSpans(ReadAll([f.(status := Modified)]))
    ensures Parsed(Print([f])) != WithAllSpans(ReadAll([f]))
  {
    BinaryClear(f);
    ParsedWhenClear([f]);
    BareIgnoresStatus(f, f.(status := Modified));
    ReadAsOther(f, f.(status := Modified));
    NotKept(f);
  }

  /** A binary file that is added. */
  lemma AddedBinaryMisread() returns (f: FileData)
    ensures FileFit(f) && f.content.BinaryChange? && f.status == Added && PathsKept(f) && ReadFile(f).isNew
    ensures Parsed(Print([f])) != WithAllSpans(ReadAll([f]))
  {
    f := BinaryFile("i.png", Added);
    NoSplitWithoutSpace(f.after, B_SIDE);
    StatusLost(f);
  }
}
