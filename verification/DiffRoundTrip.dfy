/**
 Printed diffs are read back (packages/tui/src/diff-view.ts:55-180), exactly when no changed line
 looks like a file header and no path that is printed without a side looks as if it had one.
 */
module DiffRoundTrip {
  import opened Wrappers
  import opened Text
  import opened Seqs
  import opened DiffTypes
  import opened DiffSyntax
  import opened DiffParser
  import opened DiffPrint
  import DiffSound
  import DiffPairs

  // --- one hunk ---

  /** The last file, with `lines` read into its last hunk so far. */
  function Growing(f: DiffFile, header: string, lines: seq<DiffLine>): DiffFile {
    f.(hunks := f.hunks + [DiffHunk(header, lines)],
       additions := f.additions + DiffSound.Count(lines, Add),
       deletions := f.deletions + DiffSound.Count(lines, Del))
  }

  /** The parser inside the last hunk of the last file. */
  function Inside(earlier: seq<DiffFile>, last: DiffFile, o: int, n: int, x: Section): State {
    State(earlier + [last], true, true, o, n, None, x)
  }

  function Advance(item: Item, but: LineKind, n: int): int {
    if item.Line? && item.kind != but then n + 1 else n
  }

  function LineOf(item: Item, o: int, n: int): DiffLine
    requires item.Line?
  {
    DiffLine(item.kind, item.text, if item.kind == Add then None else Some(o),
             if item.kind == Del then None else Some(n), None)
  }

  function LinesOf(item: Item, o: int, n: int): seq<DiffLine> {
    if item.Line? then [LineOf(item, o, n)] else []
  }

  lemma BodyOfItem(item: Item, o: int, n: int)
    ensures BodyLine(PrintItem(item), o, n) == if item.Line? then Some(LineOf(item, o, n)) else None
  {
    if item.Line? {
      assert PrintItem(item)[1..] == item.text;
    }
  }

  lemma LineGrows(f: DiffFile, header: string, lines: seq<DiffLine>, line: DiffLine)
    ensures AddLine(Growing(f, header, lines), line) == Growing(f, header, lines + [line])
  {
    DiffSound.CountsPush(lines, line, Add);
    DiffSound.CountsPush(lines, line, Del);
    var n := |f.hunks|;
    assert (f.hunks + [DiffHunk(header, lines)])[n := DiffHunk(header, lines + [line])]
        == f.hunks + [DiffHunk(header, lines + [line])];
  }

  lemma LastReplaced(earlier: seq<DiffFile>, f: DiffFile, g: DiffFile)
    ensures UpdateLast(earlier + [f], g) == earlier + [g] && Last(earlier + [f]) == f
  {
  }

  lemma LineTaken(earlier: seq<DiffFile>, g: DiffFile, o: int, n: int, x: Section, raw: string, line: DiffLine)
    requires g.hunks != [] && BodyLine(raw, o, n) == Some(line)
    ensures TakeBody(Inside(earlier, g, o, n, x), raw)
         == Inside(earlier, AddLine(g, line), if line.kind != Add then o + 1 else o,
                   if line.kind != Del then n + 1 else n, x)
  {
    LastReplaced(earlier, g, AddLine(g, line));
  }

  lemma NothingTaken(s: State, raw: string)
    requires Valid(s) && BodyLine(raw, s.oldNo, s.newNo).None?
    ensures TakeBody(s, raw) == s
  {
  }

  lemma ItemRead(
    earlier: seq<DiffFile>, f: DiffFile, header: string, lines: seq<DiffLine>, o: int, n: int, x: Section, item: Item)
    ensures TakeBody(Inside(earlier, Growing(f, header, lines), o, n, x), PrintItem(item))
            == Inside(earlier, Growing(f, header, lines + LinesOf(item, o, n)), Advance(item, Add, o),
                      Advance(item, Del, n), x)
  {
    BodyOfItem(item, o, n);
    var g := Growing(f, header, lines);
    if item.Line? {
      LineTaken(earlier, g, o, n, x, PrintItem(item), LineOf(item, o, n));
      LineGrows(f, header, lines, LineOf(item, o, n));
    } else {
      NothingTaken(Inside(earlier, g, o, n, x), PrintItem(item));
      assert lines + [] == lines;
    }
  }

  function BodyToken(item: Item): Token {
    Token(Body, PrintItem(item))
  }

  function BodyTokens(items: seq<Item>): seq<Token> {
    if items == [] then [] else [BodyToken(items[0])] + BodyTokens(items[1..])
  }

  lemma {:induction false} TokensOfItems(items: seq<Item>)
    requires ItemsClear(items)
    ensures Tokens(PrintItems(items)) == BodyTokens(items)
  {
    if items != [] {
      ItemLine(items[0]);
      TokensOfItems(items[1..]);
      TokensOfConcat([PrintItem(items[0])], PrintItems(items[1..]));
      TokensOfOne(PrintItem(items[0]));
    }
  }

  lemma ReadMore(item: Item, rest: seq<Item>, o: int, n: int)
    ensures ReadItems([item] + rest, o, n)
         == LinesOf(item, o, n) + ReadItems(rest, Advance(item, Add, o), Advance(item, Del, n))
  {
    HeadAndRest(item, rest);
    WithEmpty(ReadItems(rest, o, n));
  }

  lemma StepOfBody(s: State, item: Item)
    requires Valid(s)
    ensures Step(s, BodyToken(item)) == TakeBody(s, PrintItem(item))
  {
  }

  lemma RunBody(s: State, t: State, item: Item, rest: seq<Token>)
    requires Valid(s) && t == TakeBody(s, PrintItem(item))
    ensures Run(s, [BodyToken(item)] + rest) == Run(t, rest)
  {
    StepOfBody(s, item);
    DiffSound.RunFirst(s, BodyToken(item), rest);
  }

  /** `a` and `d` are the line numbers behind the item. */
  lemma ReadSplit(lines: seq<DiffLine>, item: Item, rest: seq<Item>, o: int, n: int, a: int, d: int)
    requires a == Advance(item, Add, o) && d == Advance(item, Del, n)
    ensures (lines + LinesOf(item, o, n)) + ReadItems(rest, a, d) == lines + ReadItems([item] + rest, o, n)
  {
    ReadMore(item, rest, o, n);
    Regroup(lines, LinesOf(item, o, n), ReadItems(rest, a, d));
  }

  lemma {:induction false} ItemsRead(
    earlier: seq<DiffFile>, f: DiffFile, header: string, lines: seq<DiffLine>, o: int, n: int, x: Section,
    items: seq<Item>) returns (o': int, n': int)
    ensures Run(Inside(earlier, Growing(f, header, lines), o, n, x), BodyTokens(items))
            == Inside(earlier, Growing(f, header, lines + ReadItems(items, o, n)), o', n', x)
    decreases |items|
  {
    if items == [] {
      o', n' := o, n;
      WithEmpty(lines);
    } else {
      var item, rest := items[0], items[1..];
      var a, d := Advance(item, Add, o), Advance(item, Del, n);
      var more := lines + LinesOf(item, o, n);
      Headed(items);
      ItemRead(earlier, f, header, lines, o, n, x, item);
      RunBody(Inside(earlier, Growing(f, header, lines), o, n, x), Inside(earlier, Growing(f, header, more), a, d, x),
              item, BodyTokens(rest));
      ReadSplit(lines, item, rest, o, n, a, d);
      o', n' := ItemsRead(earlier, f, header, more, a, d, x, rest);
    }
  }

  lemma {:induction false} CountFront(line: DiffLine, lines: seq<DiffLine>, k: LineKind)
    ensures DiffSound.Count([line] + lines, k) == (if line.kind == k then 1 else 0) + DiffSound.Count(lines, k)
  {
    if lines == [] {
      assert [line] + lines == [line];
    } else {
      assert ([line] + lines)[..|lines|] == [line] + lines[..|lines| - 1];
      CountFront(line, lines[..|lines| - 1], k);
    }
  }

  lemma {:induction false} CountRead(items: seq<Item>, o: int, n: int, k: LineKind)
    ensures DiffSound.Count(ReadItems(items, o, n), k) == CountItems(items, k)
  {
    if items != [] {
      var a, b := Advance(items[0], Add, o), Advance(items[0], Del, n);
      CountRead(items[1..], a, b, k);
      ReadMore(items[0], items[1..], o, n);
      assert [items[0]] + items[1..] == items;
      if items[0].Line? {
        CountFront(LineOf(items[0], o, n), ReadItems(items[1..], a, b), k);
      }
    }
  }

  // --- the hunks of a file ---

  /** The parser between hunks: the last file is `f`. */
  ghost predicate Between(s: State, earlier: seq<DiffFile>, f: DiffFile, x: Section) {
    s.files == earlier + [f] && s.hasFile && s.pendingOld == None && s.section == x && Valid(s)
  }

  function HunkTokens(h: HunkData): seq<Token> {
    [Token(Kind.Hunk(HunkStart(h.oldNo, h.newNo)), HeaderOf(h))] + BodyTokens(h.items)
  }

  lemma TokensOfHunk(h: HunkData)
    requires HunkFit(h) && ItemsClear(h.items)
    ensures Tokens(PrintHunk(h)) == HunkTokens(h)
  {
    HunkHeaderLine(h);
    TokensOfItems(h.items);
    TokensOfConcat([HeaderOf(h)], PrintItems(h.items));
    TokensOfOne(HeaderOf(h));
  }

  function WithHunk(f: DiffFile, h: HunkData): DiffFile {
    f.(hunks := f.hunks + [ReadHunk(h)],
       additions := f.additions + CountItems(h.items, Add),
       deletions := f.deletions + CountItems(h.items, Del))
  }

  lemma HunkGrown(f: DiffFile, h: HunkData)
    ensures Growing(f, HeaderOf(h), ReadItems(h.items, h.oldNo, h.newNo)) == WithHunk(f, h)
  {
    CountRead(h.items, h.oldNo, h.newNo, Add);
    CountRead(h.items, h.oldNo, h.newNo, Del);
  }

  lemma HunkOpened(s: State, earlier: seq<DiffFile>, f: DiffFile, x: Section, header: string, at: HunkStart)
    requires Between(s, earlier, f, x)
    ensures TakeHunk(s, header, at) == Inside(earlier, Growing(f, header, []), at.oldNo, at.newNo, x)
  {
    LastReplaced(earlier, f, OpenHunk(f, header));
  }

  lemma StepOfHunk(s: State, header: string, at: HunkStart)
    requires Valid(s)
    ensures Step(s, Token(Kind.Hunk(at), header)) == TakeHunk(s, header, at)
  {
  }

  lemma RunHunk(s: State, t: State, header: string, at: HunkStart, rest: seq<Token>)
    requires Valid(s) && t == TakeHunk(s, header, at)
    ensures Run(s, [Token(Kind.Hunk(at), header)] + rest) == Run(t, rest)
  {
    StepOfHunk(s, header, at);
    DiffSound.RunFirst(s, Token(Kind.Hunk(at), header), rest);
  }

  lemma HunkRead(s: State, earlier: seq<DiffFile>, f: DiffFile, x: Section, h: HunkData)
    requires Between(s, earlier, f, x)
    ensures Between(Run(s, HunkTokens(h)), earlier, WithHunk(f, h), x)
  {
    var header, at := HeaderOf(h), HunkStart(h.oldNo, h.newNo);
    HunkOpened(s, earlier, f, x, header, at);
    var o', n' := ItemsRead(earlier, f, header, [], h.oldNo, h.newNo, x, h.items);
    RunHunk(s, TakeHunk(s, header, at), header, at, BodyTokens(h.items));
    WithEmpty(ReadItems(h.items, h.oldNo, h.newNo));
    HunkGrown(f, h);
  }

  function HunksTokens(hunks: seq<HunkData>): seq<Token> {
    if hunks == [] then [] else HunkTokens(hunks[0]) + HunksTokens(hunks[1..])
  }

  lemma {:induction false} TokensOfHunks(hunks: seq<HunkData>)
    requires HunksClear(hunks) && forall i :: 0 <= i < |hunks| ==> HunkFit(hunks[i])
    ensures Tokens(PrintHunks(hunks)) == HunksTokens(hunks)
  {
    if hunks != [] {
      TokensOfHunk(hunks[0]);
      TokensOfHunks(hunks[1..]);
      TokensOfConcat(PrintHunk(hunks[0]), PrintHunks(hunks[1..]));
    }
  }

  function WithHunks(f: DiffFile, hunks: seq<HunkData>): DiffFile {
    f.(hunks := f.hunks + ReadHunks(hunks),
       additions := f.additions + CountHunks(hunks, Add),
       deletions := f.deletions + CountHunks(hunks, Del))
  }

  lemma WithHunkFirst(f: DiffFile, hunks: seq<HunkData>)
    requires hunks != []
    ensures WithHunks(WithHunk(f, hunks[0]), hunks[1..]) == WithHunks(f, hunks)
  {
    Regroup(f.hunks, [ReadHunk(hunks[0])], ReadHunks(hunks[1..]));
    ReadHunksFirst(hunks);
  }

  lemma ReadHunksFirst(hunks: seq<HunkData>)
    requires hunks != []
    ensures ReadHunks(hunks) == [ReadHunk(hunks[0])] + ReadHunks(hunks[1..])
    ensures CountHunks(hunks, Add) == CountItems(hunks[0].items, Add) + CountHunks(hunks[1..], Add)
    ensures CountHunks(hunks, Del) == CountItems(hunks[0].items, Del) + CountHunks(hunks[1..], Del)
  {
  }

  lemma {:induction false} HunksRead(s: State, earlier: seq<DiffFile>, f: DiffFile, x: Section, hunks: seq<HunkData>)
    requires Between(s, earlier, f, x)
    ensures Between(Run(s, HunksTokens(hunks)), earlier, WithHunks(f, hunks), x)
    decreases |hunks|
  {
    if hunks == [] {
      WithEmpty(f.hunks);
    } else {
      HunkRead(s, earlier, f, x, hunks[0]);
      HunksRead(Run(s, HunkTokens(hunks[0])), earlier, WithHunk(f, hunks[0]), x, hunks[1..]);
      DiffSound.RunInParts(s, HunkTokens(hunks[0]), HunksTokens(hunks[1..]));
      WithHunkFirst(f, hunks);
    }
  }

  // --- one file ---

  /** The section a file's git header and rename lines lead to. */
  function SectionOf(f: FileData, paths: Paths): Section {
    FRESH.(git := Some(paths),
           renameFrom := if f.renamed then Some(f.before) else None,
           renameTo := if f.renamed then Some(f.after) else None)
  }

  /** The parser after the lines before a file's content. */
  function Opened(x: Section): State {
    State([], false, false, 0, 0, None, x)
  }

  function RenameTokens(f: FileData): seq<Token> {
    if f.renamed
    then [Token(RenameFrom(f.before), "rename from " + f.before)] + [Token(RenameTo(f.after), "rename to " + f.after)]
    else []
  }

  lemma TokensOfRename(f: FileData)
    requires FileFit(f)
    ensures Tokens(PrintRename(f)) == RenameTokens(f)
  {
    RenameFromLine(f.before);
    RenameToLine(f.after);
    if f.renamed {
      var a, b := "rename from " + f.before, "rename to " + f.after;
      assert Tokens(PrintRename(f)) == [TokenOf(a), TokenOf(b)];
    }
  }

  lemma RenameRead(f: FileData, paths: Paths)
    ensures Run(Opened(FRESH.(git := Some(paths))), RenameTokens(f)) == Opened(SectionOf(f, paths))
  {
    if f.renamed {
      var s, t := Opened(FRESH.(git := Some(paths))), Token(RenameTo(f.after), "rename to " + f.after);
      assert RenameTokens(f)[1..] == [t];
      assert Run(Step(s, RenameTokens(f)[0]), [t]) == Step(Step(s, RenameTokens(f)[0]), t);
    }
  }

  lemma {:induction false} ExtraRead(s: State, tokens: seq<Token>)
    requires Valid(s) && !s.hasFile && forall i :: 0 <= i < |tokens| ==> tokens[i].kind == Body
    ensures Run(s, tokens) == s
    decreases |tokens|
  {
    if tokens != [] {
      ExtraRead(s, tokens[1..]);
    }
  }

  lemma TokensOfExtra(extra: seq<string>)
    requires forall i :: 0 <= i < |extra| ==> IsExtra(extra[i])
    ensures forall i :: 0 <= i < |extra| ==> Tokens(extra)[i].kind == Body
  {
    forall i | 0 <= i < |extra|
      ensures Tokens(extra)[i].kind == Body
    {
      ExtraLine(extra[i]);
    }
  }

  lemma OldNameCleaned(f: FileData)
    requires FileFit(f)
    ensures IsTrimmed(OldName(f))
    ensures f.status != Added ==> OldName(f) != DEV_NULL && CleanPath(OldName(f)) == f.before
  {
    SidedName("a/", f.before);
  }

  lemma SidedName(side: string, path: string)
    requires IsPlainPath(path) && HasSide(side) && |side| == 2
    ensures IsTrimmed(side + path) && side + path != DEV_NULL && CleanPath(side + path) == path
  {
    CleanOfPrinted(path, side);
    assert (side + path)[0] == side[0] && (side + path)[|path| + 1] == path[|path| - 1];
  }

  lemma NewNameCleaned(f: FileData)
    requires FileFit(f)
    ensures IsTrimmed(NewName(f))
    ensures f.status != Deleted ==> NewName(f) != DEV_NULL && CleanPath(NewName(f)) == f.after
  {
    SidedName("b/", f.after);
  }

  lemma HeaderFileRead(f: FileData)
    requires FileFit(f)
    ensures HeaderFile(NewName(f), Some(OldName(f)), f.renamed) == ReadHeader(f)
  {
    OldNameCleaned(f);
    NewNameCleaned(f);
  }

  function HeaderTokens(f: FileData): seq<Token> {
    [Token(OldHeader(OldName(f)), "--- " + OldName(f))] + [Token(NewHeader(NewName(f)), "+++ " + NewName(f))]
  }

  lemma TokensOfHeaders(f: FileData)
    requires FileFit(f)
    ensures Tokens(["--- " + OldName(f), "+++ " + NewName(f)]) == HeaderTokens(f)
  {
    OldNameCleaned(f);
    NewNameCleaned(f);
    OldHeaderLine(OldName(f));
    NewHeaderLine(NewName(f));
  }

  lemma StepOfOldHeader(s: State, t: Token)
    requires Valid(s) && t.kind.OldHeader?
    ensures Step(s, t) == s.(pendingOld := Some(t.kind.name))
  {
  }

  lemma StepOfNewHeader(s: State, k: Kind, name: string, raw: string)
    requires Valid(s) && k == NewHeader(name)
    ensures Step(s, Token(k, raw)) == TakeNewHeader(s, name)
  {
  }

  lemma RunHeaders(s: State, t: State, first: Token, k: Kind, name: string, raw: string)
    requires Valid(s) && first.kind.OldHeader? && k == NewHeader(name) && t == s.(pendingOld := Some(first.kind.name))
    ensures Run(s, [first] + [Token(k, raw)]) == TakeNewHeader(t, name)
  {
    StepOfOldHeader(s, first);
    StepOfNewHeader(t, k, name, raw);
    DiffSound.RunFirst(s, first, [Token(k, raw)]);
    DiffSound.RunOne(t, Token(k, raw));
  }

  lemma HeadersRead(f: FileData, x: Section)
    requires FileFit(f) && IsRename(x) == f.renamed
    ensures Between(Run(Opened(x), HeaderTokens(f)), [], ReadHeader(f), x.(sawContentHeader := true))
  {
    HeaderFileRead(f);
    RunHeaders(Opened(x), Opened(x).(pendingOld := Some(OldName(f))), HeaderTokens(f)[0],
               NewHeader(NewName(f)), NewName(f), "+++ " + NewName(f));
    WithEmpty([ReadHeader(f)]);
  }

  lemma NothingFlushed(s: State, f: DiffFile, x: Section)
    requires Between(s, [], f, x) && x.sawContentHeader
    ensures FilesOf(s) == [f]
  {
    assert [] + [f] == [f];
  }

  lemma HunkContentRead(f: FileData, x: Section)
    requires FileFit(f) && f.content.Hunks? && IsRename(x) == f.renamed
    ensures FilesOf(Run(Opened(x), HeaderTokens(f) + HunksTokens(f.content.hunks))) == [ReadFile(f)]
  {
    var y, hunks := x.(sawContentHeader := true), f.content.hunks;
    HeadersRead(f, x);
    var s := Run(Opened(x), HeaderTokens(f));
    HunksRead(s, [], ReadHeader(f), y, hunks);
    DiffSound.RunInParts(Opened(x), HeaderTokens(f), HunksTokens(hunks));
    NothingFlushed(Run(s, HunksTokens(hunks)), WithHunks(ReadHeader(f), hunks), y);
    HeaderWithHunks(f);
  }

  lemma HeaderWithHunks(f: FileData)
    requires f.content.Hunks?
    ensures WithHunks(ReadHeader(f), f.content.hunks) == ReadFile(f)
  {
    assert [] + ReadHunks(f.content.hunks) == ReadHunks(f.content.hunks);
  }

  /** The paths a file without hunks is read with: those of its rename lines, or else of its header. */
  function BarePaths(f: FileData): Paths {
    if f.renamed then Paths(f.before, f.after) else HeaderPaths(f)
  }

  /** What a file without hunks is actually read as. */
  function ReadBare(f: FileData): DiffFile {
    DiffFile(CleanPath(BarePaths(f).after), Some(CleanPath(BarePaths(f).before)), 0, 0, false, false,
             f.content.BinaryChange?, f.renamed, [])
  }

  lemma BareContentRead(f: FileData, paths: Paths)
    requires !f.content.Hunks? && paths == HeaderPaths(f)
    ensures FilesOf(Opened(SectionOf(f, paths).(sawBinary := f.content.BinaryChange?))) == [ReadBare(f)]
  {
  }

  lemma Shortened(p: string)
    requires IsPlainPath(p)
    ensures CleanPath(p) == p <==> !HasSide(p)
  {
    BeforeTabOfFree(p);
    TrimmedStays(p);
    if HasSide(p) {
      TrimNotLonger(p[2..]);
    }
  }

  lemma {:induction false} TrimStartNotLonger(s: string)
    ensures |TrimStart(s)| <= |s|
  {
    if s != "" && IsSpace(s[0]) {
      TrimStartNotLonger(s[1..]);
    }
  }

  lemma {:induction false} TrimEndNotLonger(s: string)
    ensures |TrimEnd(s)| <= |s|
  {
    if s != "" && IsSpace(s[|s| - 1]) {
      TrimEndNotLonger(s[..|s| - 1]);
    }
  }

  lemma TrimNotLonger(s: string)
    ensures |Trim(s)| <= |s|
  {
    TrimStartNotLonger(s);
    TrimEndNotLonger(TrimStart(s));
  }

  lemma CleanNotLonger(p: string)
    ensures |CleanPath(p)| <= |p|
  {
    var noTab := BeforeTab(p);
    TrimNotLonger(noTab);
    if HasSide(noTab) {
      TrimNotLonger(noTab[2..]);
    }
  }

  /** What any printed file without header-like lines is actually read as. */
  function ReadActually(f: FileData): DiffFile {
    if f.content.Hunks? then ReadFile(f) else ReadBare(f)
  }

  lemma ReadAsMeantIff(f: FileData)
    requires FileFit(f)
    ensures ReadActually(f) == ReadFile(f) <==> Kept(f)
    ensures !Kept(f) ==> ReadActually(f).(hunks := []) != ReadFile(f).(hunks := [])
  {
    if !f.content.Hunks? {
      PathsReadIff(f);
    }
  }

  /** Without hunks, the paths are read as they are if and only if they are kept. */
  lemma PathsReadIff(f: FileData)
    requires FileFit(f)
    ensures CleanPath(BarePaths(f).before) == f.before && CleanPath(BarePaths(f).after) == f.after <==> PathsKept(f)
  {
    Shortened(f.before);
    Shortened(f.after);
    if !f.renamed {
      GitLineParsesIff(f.before, f.after);
      CleanNotLonger(HeaderPaths(f).after);
    }
  }

  function ContentTokens(f: FileData): seq<Token> {
    match f.content
    case Hunks(hunks) => HeaderTokens(f) + HunksTokens(hunks)
    case BinaryChange => [Token(Kind.BinaryNote, PrintContent(f)[0])]
    case NoContent => []
  }

  predicate FileClear(f: FileData) {
    f.content.Hunks? ==> HunksClear(f.content.hunks)
  }

  lemma TokensOfContent(f: FileData)
    requires FileFit(f) && FileClear(f)
    ensures Tokens(PrintContent(f)) == ContentTokens(f)
  {
    match f.content
    case Hunks(hunks) =>
      TokensOfHeaders(f);
      TokensOfHunks(hunks);
      TokensOfConcat(["--- " + OldName(f), "+++ " + NewName(f)], PrintHunks(hunks));
    case BinaryChange => BinaryLine(OldName(f) + " and " + NewName(f));
    case NoContent =>
  }

  lemma BinaryContentRead(f: FileData, paths: Paths)
    requires f.content.BinaryChange? && paths == HeaderPaths(f)
    ensures FilesOf(Run(Opened(SectionOf(f, paths)), ContentTokens(f))) == [ReadBare(f)]
  {
    BareContentRead(f, paths);
    assert ContentTokens(f)[1..] == [];
  }

  lemma ContentRead(f: FileData, paths: Paths)
    requires FileFit(f) && paths == HeaderPaths(f)
    ensures FilesOf(Run(Opened(SectionOf(f, paths)), ContentTokens(f))) == [ReadActually(f)]
  {
    match f.content
    case Hunks(hunks) => HunkContentRead(f, SectionOf(f, paths));
    case BinaryChange => BinaryContentRead(f, paths);
    case NoContent => BareContentRead(f, paths);
  }

  function FileTokens(f: FileData, paths: Paths): seq<Token> {
    [Token(Git(paths), GitLine(f.before, f.after))] + (RenameTokens(f) + (Tokens(f.extra) + ContentTokens(f)))
  }

  lemma TokensOfFile(f: FileData) returns (paths: Paths)
    requires FileFit(f) && FileClear(f)
    ensures Tokens(PrintFile(f)) == FileTokens(f, paths) && paths == HeaderPaths(f)
  {
    GitHeaderLine(f);
    paths := HeaderPaths(f);
    TokensOfRename(f);
    TokensOfContent(f);
    TokensOfConcat(f.extra, PrintContent(f));
    TokensOfConcat(PrintRename(f), f.extra + PrintContent(f));
    TokensOfConcat([GitLine(f.before, f.after)], PrintRename(f) + (f.extra + PrintContent(f)));
    TokensOfOne(GitLine(f.before, f.after));
  }

  lemma FileTokensRead(f: FileData, paths: Paths)
    requires FileFit(f) && paths == HeaderPaths(f)
    ensures FilesOf(Run(START, FileTokens(f, paths))) == [ReadActually(f)]
  {
    var s := Opened(FRESH.(git := Some(paths)));
    var rest := RenameTokens(f) + (Tokens(f.extra) + ContentTokens(f));
    assert FileTokens(f, paths)[1..] == rest;
    RenameRead(f, paths);
    TokensOfExtra(f.extra);
    DiffSound.RunInParts(s, RenameTokens(f), Tokens(f.extra) + ContentTokens(f));
    var t := Opened(SectionOf(f, paths));
    ExtraRead(t, Tokens(f.extra));
    DiffSound.RunInParts(t, Tokens(f.extra), ContentTokens(f));
    ContentRead(f, paths);
  }

  // --- all files ---

  function ReadAllActually(files: seq<FileData>): seq<DiffFile> {
    Map(ReadActually, files)
  }

  lemma ReadActuallyLast(files: seq<FileData>, n: nat)
    requires n == |files| - 1
    ensures ReadAllActually(files) == ReadAllActually(files[..n]) + [ReadActually(files[n])]
  {
    MapLast(ReadActually, files, n);
  }

  lemma {:induction false} PrintLast(files: seq<FileData>, f: FileData)
    ensures PrintAll(files + [f]) == PrintAll(files) + PrintFile(f)
  {
    if files == [] {
      assert files + [f] == [f] && [f][1..] == [];
    } else {
      assert (files + [f])[1..] == files[1..] + [f];
      PrintLast(files[1..], f);
    }
  }

  /** Printed files are read as the parser actually reads each of them. */
  predicate ReadsActually(files: seq<FileData>)
    requires Fit(files)
  {
    FilesOf(Run(START, Tokens(PrintAll(files)))) == ReadAllActually(files)
  }

  lemma TokensPush(front: seq<FileData>, f: FileData)
    ensures Tokens(PrintAll(front + [f])) == Tokens(PrintAll(front)) + Tokens(PrintFile(f))
  {
    PrintLast(front, f);
    TokensOfConcat(PrintAll(front), PrintFile(f));
  }

  lemma LastFits(files: seq<FileData>, n: nat)
    requires Fit(files) && n == |files| - 1
    ensures Fit(files[..n]) && FileFit(files[n])
  {
  }

  lemma LastClear(files: seq<FileData>, n: nat)
    requires Clear(files) && n == |files| - 1
    ensures Clear(files[..n]) && FileClear(files[n])
  {
  }

  lemma OneMoreRead(front: seq<FileData>, f: FileData)
    requires Fit(front) && FileFit(f) && FileClear(f) && ReadsActually(front)
    ensures FilesOf(Run(START, Tokens(PrintAll(front + [f])))) == ReadAllActually(front) + [ReadActually(f)]
  {
    TokensPush(front, f);
    var paths := TokensOfFile(f);
    DiffSound.TokensIndependent(Tokens(PrintAll(front)), FileTokens(f, paths));
    FileTokensRead(f, paths);
  }

  lemma LastRead(files: seq<FileData>, n: nat)
    requires Fit(files) && n == |files| - 1 && FileFit(files[n]) && FileClear(files[n])
    requires Fit(files[..n]) && ReadsActually(files[..n])
    ensures ReadsActually(files)
  {
    OneMoreRead(files[..n], files[n]);
    FrontAndLast(files, n);
    ReadActuallyLast(files, n);
  }

  lemma NothingRead()
    ensures ReadsActually([])
  {
  }

  lemma {:induction false} AllRead(files: seq<FileData>)
    requires Fit(files) && Clear(files)
    ensures ReadsActually(files)
  {
    if files == [] {
      NothingRead();
    } else {
      var n := |files| - 1;
      LastFits(files, n);
      LastClear(files, n);
      AllRead(files[..n]);
      LastRead(files, n);
    }
  }
}
