/**
 What the diff parser promises on every input text, well formed or not
 (packages/tui/src/diff-view.ts:68-105, 122-172): consecutive line numbers, counts that match the
 lines shown, and one file per content header or else one per section.
 */
module DiffSound {
  import opened Wrappers
  import opened Text
  import opened Seqs
  import opened DiffTypes
  import opened DiffSyntax
  import opened DiffPairs
  import opened DiffParser

  /** How many of the lines are not of kind `k`. */
  function CountBut(lines: seq<DiffLine>, k: LineKind): nat {
    if lines == [] then 0
    else CountBut(lines[..|lines| - 1], k) + if lines[|lines| - 1].kind != k then 1 else 0
  }

  function Count(lines: seq<DiffLine>, k: LineKind): nat {
    if lines == [] then 0
    else Count(lines[..|lines| - 1], k) + if lines[|lines| - 1].kind == k then 1 else 0
  }

  function CountAll(hunks: seq<DiffHunk>, k: LineKind): nat {
    if hunks == [] then 0 else CountAll(hunks[..|hunks| - 1], k) + Count(hunks[|hunks| - 1].lines, k)
  }

  /** The numbers of a line that follows `before` in a hunk that starts at `o` and `n`. */
  predicate NumberedAfter(before: seq<DiffLine>, line: DiffLine, o: int, n: int) {
    && line.oldNo == (if line.kind == Add then None else Some(o + CountBut(before, Add)))
    && line.newNo == (if line.kind == Del then None else Some(n + CountBut(before, Del)))
  }

  /** Old numbers run from `o` over the lines that are not additions, new ones from `n` over those not deletions. */
  predicate Numbered(lines: seq<DiffLine>, o: int, n: int) {
    lines == []
    || (&& Numbered(lines[..|lines| - 1], o, n)
        && NumberedAfter(lines[..|lines| - 1], lines[|lines| - 1], o, n))
  }

  /** What a hunk header says: `ParseHunkHeader`, but nothing here depends on which function it is. */
  type Reader = string -> Option<HunkStart>

  ghost predicate HunkSound(h: DiffHunk, read: Reader) {
    var at := read(h.header);
    at.Some? && Numbered(h.lines, at.value.oldNo, at.value.newNo)
  }

  ghost predicate FileSound(f: DiffFile, read: Reader) {
    && f.additions == CountAll(f.hunks, Add)
    && f.deletions == CountAll(f.hunks, Del)
    && forall i :: 0 <= i < |f.hunks| ==> HunkSound(f.hunks[i], read)
  }

  ghost predicate AllSound(files: seq<DiffFile>, read: Reader) {
    forall i :: 0 <= i < |files| ==> FileSound(files[i], read)
  }

  /** The parser's counters stand where the last line of the open hunk left them. */
  ghost predicate CountersAt(s: State, read: Reader)
    requires Valid(s)
  {
    s.hasFile && s.hasHunk ==>
      var h := Last(s.files).hunks[|Last(s.files).hunks| - 1];
      var at := read(h.header);
      && at.Some?
      && s.oldNo == at.value.oldNo + CountBut(h.lines, Add)
      && s.newNo == at.value.newNo + CountBut(h.lines, Del)
  }

  ghost predicate Sound(s: State, read: Reader) {
    Valid(s) && AllSound(s.files, read) && CountersAt(s, read)
  }

  lemma CountsPush(lines: seq<DiffLine>, line: DiffLine, k: LineKind)
    ensures CountBut(lines + [line], k) == CountBut(lines, k) + if line.kind != k then 1 else 0
    ensures Count(lines + [line], k) == Count(lines, k) + if line.kind == k then 1 else 0
  {
    assert (lines + [line])[..|lines|] == lines;
  }

  lemma NumberedPush(lines: seq<DiffLine>, line: DiffLine, o: int, n: int)
    requires Numbered(lines, o, n) && NumberedAfter(lines, line, o, n)
    ensures Numbered(lines + [line], o, n)
  {
    assert (lines + [line])[..|lines|] == lines;
  }

  lemma LastHunkReplaced(hunks: seq<DiffHunk>, h: DiffHunk, k: LineKind)
    requires hunks != []
    ensures CountAll(hunks[|hunks| - 1 := h], k)
         == CountAll(hunks, k) - Count(hunks[|hunks| - 1].lines, k) + Count(h.lines, k)
  {
    assert hunks[|hunks| - 1 := h][..|hunks| - 1] == hunks[..|hunks| - 1];
  }

  function Grown(hunks: seq<DiffHunk>, line: DiffLine): seq<DiffHunk>
    requires hunks != []
  {
    hunks[|hunks| - 1 := hunks[|hunks| - 1].(lines := hunks[|hunks| - 1].lines + [line])]
  }

  lemma GrownCounts(hunks: seq<DiffHunk>, line: DiffLine, k: LineKind)
    requires hunks != []
    ensures CountAll(Grown(hunks, line), k) == CountAll(hunks, k) + if line.kind == k then 1 else 0
  {
    var h := hunks[|hunks| - 1];
    CountsPush(h.lines, line, k);
    LastHunkReplaced(hunks, h.(lines := h.lines + [line]), k);
  }

  lemma AddLineFields(f: DiffFile, line: DiffLine)
    requires f.hunks != []
    ensures AddLine(f, line).hunks == Grown(f.hunks, line)
    ensures AddLine(f, line).additions == f.additions + if line.kind == Add then 1 else 0
    ensures AddLine(f, line).deletions == f.deletions + if line.kind == Del then 1 else 0
  {
  }

  lemma AddLineCounts(f: DiffFile, line: DiffLine)
    requires f.hunks != [] && f.additions == CountAll(f.hunks, Add) && f.deletions == CountAll(f.hunks, Del)
    ensures AddLine(f, line).additions == CountAll(AddLine(f, line).hunks, Add)
    ensures AddLine(f, line).deletions == CountAll(AddLine(f, line).hunks, Del)
  {
    AddLineFields(f, line);
    GrownCounts(f.hunks, line, Add);
    GrownCounts(f.hunks, line, Del);
  }

  lemma AddLineSound(f: DiffFile, line: DiffLine, at: HunkStart, read: Reader)
    requires f.hunks != [] && FileSound(f, read)
    requires read(f.hunks[|f.hunks| - 1].header) == Some(at)
    requires NumberedAfter(f.hunks[|f.hunks| - 1].lines, line, at.oldNo, at.newNo)
    ensures FileSound(AddLine(f, line), read)
  {
    var h := f.hunks[|f.hunks| - 1];
    assert HunkSound(h, read);
    NumberedPush(h.lines, line, at.oldNo, at.newNo);
    assert HunkSound(h.(lines := h.lines + [line]), read);
    AddLineCounts(f, line);
  }

  lemma UpdateLastSound(files: seq<DiffFile>, f: DiffFile, read: Reader)
    requires files != [] && AllSound(files, read) && FileSound(f, read)
    ensures AllSound(UpdateLast(files, f), read)
  {
  }

  lemma BodyLineNumbered(s: State, raw: string, read: Reader)
    requires Sound(s, read) && s.hasFile && s.hasHunk && BodyLine(raw, s.oldNo, s.newNo).Some?
    ensures var h := Last(s.files).hunks[|Last(s.files).hunks| - 1];
            && read(h.header).Some?
            && NumberedAfter(h.lines, BodyLine(raw, s.oldNo, s.newNo).value,
                             read(h.header).value.oldNo, read(h.header).value.newNo)
  {
  }

  function OpenHunkOf(s: State): DiffHunk
    requires Valid(s) && s.hasFile && s.hasHunk
  {
    Last(s.files).hunks[|Last(s.files).hunks| - 1]
  }

  lemma AddedLine(f: DiffFile, line: DiffLine)
    requires f.hunks != []
    ensures var n := |f.hunks| - 1;
            |AddLine(f, line).hunks| == n + 1
            && AddLine(f, line).hunks[n] == f.hunks[n].(lines := f.hunks[n].lines + [line])
  {
  }

  lemma TakenBody(s: State, raw: string, line: DiffLine)
    requires Valid(s) && s.hasFile && s.hasHunk && BodyLine(raw, s.oldNo, s.newNo) == Some(line)
    ensures var r := TakeBody(s, raw);
            && Valid(r) && r.hasFile && r.hasHunk
            && OpenHunkOf(r) == OpenHunkOf(s).(lines := OpenHunkOf(s).lines + [line])
            && r.oldNo == s.oldNo + (if line.kind != Add then 1 else 0)
            && r.newNo == s.newNo + (if line.kind != Del then 1 else 0)
  {
    AddedLine(Last(s.files), line);
  }

  lemma BodyCounters(s: State, raw: string, read: Reader)
    requires Valid(s) && CountersAt(s, read)
    ensures CountersAt(TakeBody(s, raw), read)
  {
    var line := BodyLine(raw, s.oldNo, s.newNo);
    if s.hasFile && s.hasHunk && line.Some? {
      TakenBody(s, raw, line.value);
      CountsPush(OpenHunkOf(s).lines, line.value, Add);
      CountsPush(OpenHunkOf(s).lines, line.value, Del);
    }
  }

  lemma BodySound(s: State, raw: string, read: Reader)
    requires Sound(s, read)
    ensures Sound(TakeBody(s, raw), read)
  {
    BodyCounters(s, raw, read);
    var line := BodyLine(raw, s.oldNo, s.newNo);
    if s.hasFile && s.hasHunk && line.Some? {
      BodyLineNumbered(s, raw, read);
      var f := Last(s.files);
      AddLineSound(f, line.value, read(f.hunks[|f.hunks| - 1].header).value, read);
      UpdateLastSound(s.files, AddLine(f, line.value), read);
    }
  }

  lemma OpenHunkSound(f: DiffFile, header: string, read: Reader)
    requires FileSound(f, read) && read(header).Some?
    ensures FileSound(OpenHunk(f, header), read)
  {
    assert (f.hunks + [DiffHunk(header, [])])[..|f.hunks|] == f.hunks;
  }

  lemma HunkStartSound(s: State, raw: string, at: HunkStart, read: Reader)
    requires Sound(s, read) && read(raw) == Some(at)
    ensures Sound(TakeHunk(s, raw, at), read)
  {
    if s.hasFile {
      OpenHunkSound(Last(s.files), raw, read);
      UpdateLastSound(s.files, OpenHunk(Last(s.files), raw), read);
    }
  }

  lemma FlushSound(files: seq<DiffFile>, x: Section, read: Reader)
    requires AllSound(files, read)
    ensures AllSound(Flushed(files, x), read)
  {
  }

  lemma HeaderSound(s: State, name: string, read: Reader)
    requires Sound(s, read)
    ensures Sound(TakeNewHeader(s, name), read)
  {
  }

  lemma GitSound(s: State, paths: Paths, read: Reader)
    requires Sound(s, read)
    ensures Sound(TakeGit(s, paths), read)
  {
    FlushSound(s.files, s.section, read);
  }

  lemma SameFilesSound(s: State, r: State, read: Reader)
    requires Sound(s, read) && r == s.(section := r.section, pendingOld := r.pendingOld)
    ensures Sound(r, read)
  {
  }

  /** A token that was recognised from its own text. */
  predicate IsTrue(t: Token, read: Reader) {
    t.kind.Hunk? ==> read(t.raw) == Some(t.kind.start)
  }

  predicate LeavesFiles(k: Kind) {
    k.RenameFrom? || k.RenameTo? || k.BinaryNote? || k.OldHeader?
  }

  lemma OtherStep(s: State, k: Kind, raw: string)
    requires Valid(s) && LeavesFiles(k)
    ensures var r := Step(s, Token(k, raw)); r == s.(section := r.section, pendingOld := r.pendingOld)
  {
  }

  lemma StepSound(s: State, t: Token, read: Reader)
    requires Sound(s, read) && IsTrue(t, read)
    ensures Sound(Step(s, t), read)
  {
    match t.kind
    case Git(paths) => GitSound(s, paths, read);
    case NewHeader(name) => HeaderSound(s, name, read);
    case Hunk(start) => HunkStartSound(s, t.raw, start, read);
    case Body => BodySound(s, t.raw, read);
    case _ =>
      OtherStep(s, t.kind, t.raw);
      SameFilesSound(s, Step(s, t), read);
  }

  lemma HunkSeen(raw: string)
    ensures Classify(raw).Hunk? ==> Classify(raw) == HunkOrBody(raw)
  {
    if ParseGitHeader(raw).Some? {
    } else if StartsWith(raw, "rename from ") {
    } else if StartsWith(raw, "rename to ") {
    } else if IsBinaryNote(raw) {
    } else if StartsWith(raw, "--- ") {
    } else if StartsWith(raw, "+++ ") {
    } else {
      assert Classify(raw) == HunkOrBody(raw);
    }
  }

  lemma TokenIsTrue(raw: string)
    ensures IsTrue(TokenOf(raw), ParseHunkHeader)
  {
    HunkSeen(raw);
    match ParseHunkHeader(raw)
    case Some(_) =>
    case None =>
  }

  lemma {:induction false} RunSound(s: State, tokens: seq<Token>, read: Reader)
    requires Sound(s, read) && forall i :: 0 <= i < |tokens| ==> IsTrue(tokens[i], read)
    ensures Sound(Run(s, tokens), read)
    decreases |tokens|
  {
    if tokens != [] {
      StepSound(s, tokens[0], read);
      RunSound(Step(s, tokens[0]), tokens[1..], read);
    }
  }

  // --- highlighting changes neither numbers nor kinds ---

  lemma {:induction false} SameCounts(a: seq<DiffLine>, b: seq<DiffLine>, k: LineKind)
    requires SameKinds(a, b)
    ensures Count(a, k) == Count(b, k) && CountBut(a, k) == CountBut(b, k)
  {
    if a != [] {
      SameCounts(a[..|a| - 1], b[..|b| - 1], k);
    }
  }

  ghost predicate SameNumbers(a: seq<DiffLine>, b: seq<DiffLine>) {
    SameKinds(a, b) && forall i :: 0 <= i < |a| ==> a[i].oldNo == b[i].oldNo && a[i].newNo == b[i].newNo
  }

  lemma {:induction false} StillNumbered(a: seq<DiffLine>, b: seq<DiffLine>, o: int, n: int)
    requires SameNumbers(a, b) && Numbered(a, o, n)
    ensures Numbered(b, o, n)
  {
    if a != [] {
      StillNumbered(a[..|a| - 1], b[..|b| - 1], o, n);
      SameCounts(a[..|a| - 1], b[..|b| - 1], Add);
      SameCounts(a[..|a| - 1], b[..|b| - 1], Del);
    }
  }

  lemma SpansKeepHunk(h: DiffHunk, k: LineKind, read: Reader)
    requires HunkSound(h, read)
    ensures HunkSound(WithHunkSpans(h), read) && Count(WithHunkSpans(h).lines, k) == Count(h.lines, k)
  {
    var at := read(h.header).value;
    SpansKeepFields(h.lines);
    StillNumbered(h.lines, WithSpans(h.lines), at.oldNo, at.newNo);
    SameCounts(h.lines, WithSpans(h.lines), k);
  }

  lemma SpansKeepFields(a: seq<DiffLine>)
    ensures SameNumbers(a, WithSpans(a))
  {
    var b := WithSpans(a);
    forall i | 0 <= i < |a|
      ensures a[i].kind == b[i].kind && b[i].oldNo == a[i].oldNo && b[i].newNo == a[i].newNo
    {
      assert b[i].(span := None) == a[i].(span := None);
    }
  }

  lemma {:induction false} SpansKeepCounts(hunks: seq<DiffHunk>, marked: seq<DiffHunk>, k: LineKind, read: Reader)
    requires |hunks| == |marked|
    requires forall i :: 0 <= i < |hunks| ==> HunkSound(hunks[i], read) && marked[i] == WithHunkSpans(hunks[i])
    ensures CountAll(marked, k) == CountAll(hunks, k)
  {
    if hunks != [] {
      var n := |hunks| - 1;
      SpansKeepCounts(hunks[..n], marked[..n], k, read);
      SpansKeepHunk(hunks[n], k, read);
    }
  }

  lemma SpansKeepFile(f: DiffFile, read: Reader)
    requires FileSound(f, read)
    ensures FileSound(WithFileSpans(f), read)
  {
    SpansKeepCounts(f.hunks, WithFileSpans(f).hunks, Add, read);
    SpansKeepCounts(f.hunks, WithFileSpans(f).hunks, Del, read);
    forall i | 0 <= i < |f.hunks|
      ensures HunkSound(WithFileSpans(f).hunks[i], read)
    {
      SpansKeepHunk(f.hunks[i], Add, read);
    }
  }

  /**
   For every input text: in each hunk of each file the old numbers run consecutively from the old start
   its header names and the new ones from the new start, and each file's additions and deletions are
   the numbers of such lines in its hunks.
   */
  lemma EveryFileSound(diff: string)
    ensures AllSound(Parsed(diff), ParseHunkHeader)
  {
    var tokens := Tokens(Lines(diff));
    forall i | 0 <= i < |tokens|
      ensures IsTrue(tokens[i], ParseHunkHeader)
    {
      TokenIsTrue(Lines(diff)[i]);
    }
    RunSound(START, tokens, ParseHunkHeader);
    FlushSound(Run(START, tokens).files, Run(START, tokens).section, ParseHunkHeader);
    var files := FilesOf(Run(START, tokens));
    forall i | 0 <= i < |files|
      ensures FileSound(Parsed(diff)[i], ParseHunkHeader)
    {
      SpansKeepFile(files[i], ParseHunkHeader);
    }
  }

  // --- sections ---

  lemma RunFirst(s: State, t: Token, rest: seq<Token>)
    requires Valid(s)
    ensures Run(s, [t] + rest) == Run(Step(s, t), rest)
  {
    HeadAndRest(t, rest);
  }

  lemma RunOne(s: State, t: Token)
    requires Valid(s)
    ensures Run(s, [t]) == Step(s, t)
  {
    WithEmpty([t]);
    RunFirst(s, t, []);
  }

  lemma {:induction false} RunInParts(s: State, a: seq<Token>, b: seq<Token>)
    requires Valid(s)
    ensures Run(s, a + b) == Run(Run(s, a), b)
    decreases |a|
  {
    if a == [] {
      assert a + b == b;
    } else {
      assert (a + b)[1..] == a[1..] + b;
      RunInParts(Step(s, a[0]), a[1..], b);
    }
  }

  /** `t` is `s` with earlier files in front; line numbers matter only inside a hunk. */
  ghost predicate Behind(s: State, t: State, earlier: seq<DiffFile>) {
    && Valid(s)
    && t == s.(files := earlier + s.files, oldNo := t.oldNo, newNo := t.newNo)
    && (s.hasHunk ==> t.oldNo == s.oldNo && t.newNo == s.newNo)
  }

  lemma UpdateLastBehind(earlier: seq<DiffFile>, files: seq<DiffFile>, f: DiffFile)
    requires files != []
    ensures UpdateLast(earlier + files, f) == earlier + UpdateLast(files, f)
    ensures Last(earlier + files) == Last(files)
  {
  }

  lemma StepBehind(s: State, t: State, earlier: seq<DiffFile>, k: Token)
    requires Behind(s, t, earlier) && Valid(t)
    ensures Behind(Step(s, k), Step(t, k), earlier)
  {
    match k.kind
    case Git(paths) => GitBehind(s, t, earlier, paths);
    case NewHeader(name) => NewHeaderBehind(s, t, earlier, name);
    case Hunk(_) => HunkBehind(s, t, earlier, k);
    case Body => BodyBehind(s, t, earlier, k.raw);
    case _ =>
  }

  lemma GitBehind(s: State, t: State, earlier: seq<DiffFile>, paths: Paths)
    requires Behind(s, t, earlier) && Valid(t)
    ensures Behind(TakeGit(s, paths), TakeGit(t, paths), earlier)
  {
    FlushBehind(earlier, s.files, s.section);
  }

  lemma NewHeaderBehind(s: State, t: State, earlier: seq<DiffFile>, name: string)
    requires Behind(s, t, earlier) && Valid(t)
    ensures Behind(TakeNewHeader(s, name), TakeNewHeader(t, name), earlier)
  {
    Regroup(earlier, s.files, [HeaderFile(name, s.pendingOld, IsRename(s.section))]);
  }

  lemma HunkBehind(s: State, t: State, earlier: seq<DiffFile>, k: Token)
    requires Behind(s, t, earlier) && Valid(t) && k.kind.Hunk?
    ensures Behind(Step(s, k), Step(t, k), earlier)
  {
    if s.hasFile {
      UpdateLastBehind(earlier, s.files, OpenHunk(Last(s.files), k.raw));
    }
  }

  lemma BodyBehind(s: State, t: State, earlier: seq<DiffFile>, raw: string)
    requires Behind(s, t, earlier) && Valid(t)
    ensures Behind(TakeBody(s, raw), TakeBody(t, raw), earlier)
  {
    var line := BodyLine(raw, s.oldNo, s.newNo);
    if s.hasFile && s.hasHunk && line.Some? {
      UpdateLastBehind(earlier, s.files, AddLine(Last(s.files), line.value));
    }
  }

  lemma FlushBehind(earlier: seq<DiffFile>, files: seq<DiffFile>, x: Section)
    ensures Flushed(earlier + files, x) == earlier + Flushed(files, x)
  {
    if SectionFile(x).Some? {
      Regroup(earlier, files, [SectionFile(x).value]);
    }
  }

  lemma {:induction false} RunBehind(s: State, t: State, earlier: seq<DiffFile>, tokens: seq<Token>)
    requires Behind(s, t, earlier) && Valid(t)
    ensures Behind(Run(s, tokens), Run(t, tokens), earlier)
    decreases |tokens|
  {
    if tokens != [] {
      StepBehind(s, t, earlier, tokens[0]);
      RunBehind(Step(s, tokens[0]), Step(t, tokens[0]), earlier, tokens[1..]);
    }
  }

  lemma TokensIndependent(before: seq<Token>, section: seq<Token>)
    requires section != [] && section[0].kind.Git?
    ensures FilesOf(Run(START, before + section)) == FilesOf(Run(START, before)) + FilesOf(Run(START, section))
  {
    RunInParts(START, before, section);
    var s, t := Step(START, section[0]), Step(Run(START, before), section[0]);
    var earlier := FilesOf(Run(START, before));
    assert earlier + [] == earlier;
    assert Behind(s, t, earlier);
    RunBehind(s, t, earlier, section[1..]);
    FlushBehind(earlier, Run(START, section).files, Run(START, section).section);
  }

  /** A `diff --git` header starts over: what follows it is read as if nothing came before. */
  lemma SectionsIndependent(before: seq<string>, section: seq<string>)
    requires section != [] && Classify(section[0]).Git?
    ensures ParsedLines(before + section) == ParsedLines(before) + ParsedLines(section)
  {
    TokensOfConcat(before, section);
    TokensIndependent(Tokens(before), Tokens(section));
    SpansOfConcat(FilesOf(Run(START, Tokens(before))), FilesOf(Run(START, Tokens(section))));
  }

  lemma SpansOfConcat(a: seq<DiffFile>, b: seq<DiffFile>)
    ensures WithAllSpans(a + b) == WithAllSpans(a) + WithAllSpans(b)
  {
  }

  // What the first `i` tokens of a section say:

  /** How many `+++ ` headers there were. */
  function Headers(tokens: seq<Token>, i: nat): nat
    requires i <= |tokens|
  {
    if i == 0 then 0 else Headers(tokens, i - 1) + if tokens[i - 1].kind.NewHeader? then 1 else 0
  }

  /** The name on the last `--- ` line that no `+++ ` line has followed. */
  function Pending(tokens: seq<Token>, i: nat): Option<string>
    requires i <= |tokens|
  {
    if i == 0 then None
    else
      match tokens[i - 1].kind
      case OldHeader(name) => Some(name)
      case NewHeader(_) => None
      case _ => Pending(tokens, i - 1)
  }

  function LastRenameFrom(tokens: seq<Token>, i: nat): Option<string>
    requires i <= |tokens|
  {
    if i == 0 then None
    else if tokens[i - 1].kind.RenameFrom? then Some(tokens[i - 1].kind.path)
    else LastRenameFrom(tokens, i - 1)
  }

  function LastRenameTo(tokens: seq<Token>, i: nat): Option<string>
    requires i <= |tokens|
  {
    if i == 0 then None
    else if tokens[i - 1].kind.RenameTo? then Some(tokens[i - 1].kind.path)
    else LastRenameTo(tokens, i - 1)
  }

  predicate HasBinaryNote(tokens: seq<Token>, i: nat)
    requires i <= |tokens|
  {
    exists j :: 0 <= j < i && tokens[j].kind.BinaryNote?
  }

  predicate HasRename(tokens: seq<Token>, i: nat)
    requires i <= |tokens|
  {
    exists j :: 0 <= j < i && (tokens[j].kind.RenameFrom? || tokens[j].kind.RenameTo?)
  }

  /** The file without what its hunks add to it. */
  function Bare(f: DiffFile): DiffFile {
    f.(additions := 0, deletions := 0, hunks := [])
  }

  /** The file the header at `j` opens. */
  function FileAt(tokens: seq<Token>, j: nat): DiffFile
    requires j < |tokens| && tokens[j].kind.NewHeader?
  {
    HeaderFile(tokens[j].kind.name, Pending(tokens, j), HasRename(tokens, j))
  }

  /** The files so far are those their headers open, in order. */
  ghost predicate FilesMatch(files: seq<DiffFile>, tokens: seq<Token>, i: nat)
    requires i <= |tokens|
  {
    && |files| == Headers(tokens, i)
    && forall j :: 0 <= j < i && tokens[j].kind.NewHeader? ==> FileMatches(files, tokens, j)
  }

  /** The section's state is what its lines said last. */
  ghost predicate SectionMatches(s: State, tokens: seq<Token>, i: nat, paths: Paths)
    requires i <= |tokens|
  {
    && s.pendingOld == Pending(tokens, i)
    && s.section.git == Some(paths)
    && s.section.renameFrom == LastRenameFrom(tokens, i)
    && s.section.renameTo == LastRenameTo(tokens, i)
    && s.section.sawBinary == HasBinaryNote(tokens, i)
    && s.section.sawContentHeader == (Headers(tokens, i) > 0)
  }

  lemma {:induction false} RenameSeen(tokens: seq<Token>, i: nat)
    requires i <= |tokens|
    ensures HasRename(tokens, i) <==> LastRenameFrom(tokens, i).Some? || LastRenameTo(tokens, i).Some?
  {
    if i > 0 {
      RenameSeen(tokens, i - 1);
    }
  }

  /** A step leaves the headers' part of all files alone; a header adds its own. */
  lemma StepBare(s: State, t: Token)
    requires Valid(s) && !t.kind.Git?
    ensures |Step(s, t).files| == |s.files| + if t.kind.NewHeader? then 1 else 0
    ensures forall k :: 0 <= k < |s.files| ==> Bare(Step(s, t).files[k]) == Bare(s.files[k])
    ensures t.kind.NewHeader? ==>
              Step(s, t).files[|s.files|] == HeaderFile(t.kind.name, s.pendingOld, IsRename(s.section))
  {
    match t.kind
    case NewHeader(_) =>
    case Hunk(_) =>
    case Body =>
    case _ =>
  }

  lemma StepSection(s: State, tokens: seq<Token>, i: nat, paths: Paths)
    requires Valid(s) && i < |tokens| && !tokens[i].kind.Git? && SectionMatches(s, tokens, i, paths)
    ensures SectionMatches(Step(s, tokens[i]), tokens, i + 1, paths)
  {
    match tokens[i].kind
    case RenameFrom(path) =>
    case RenameTo(path) =>
    case BinaryNote =>
    case OldHeader(name) =>
    case NewHeader(name) =>
    case Hunk(start) =>
    case Body =>
  }

  lemma StepMatches(s: State, tokens: seq<Token>, i: nat, paths: Paths)
    requires Valid(s) && i < |tokens| && !tokens[i].kind.Git?
    requires FilesMatch(s.files, tokens, i) && SectionMatches(s, tokens, i, paths)
    ensures FilesMatch(Step(s, tokens[i]).files, tokens, i + 1)
  {
    StepBare(s, tokens[i]);
    var files := Step(s, tokens[i]).files;
    if tokens[i].kind.NewHeader? {
      LastMatches(s, tokens, i, paths);
    }
    forall j | 0 <= j < i + 1 && tokens[j].kind.NewHeader?
      ensures FileMatches(files, tokens, j)
    {
      if j < i {
        EarlierMatches(s.files, files, tokens, i, j);
      }
    }
  }

  ghost predicate FileMatches(files: seq<DiffFile>, tokens: seq<Token>, j: nat)
    requires j < |tokens| && tokens[j].kind.NewHeader?
  {
    Headers(tokens, j) < |files| && Bare(files[Headers(tokens, j)]) == FileAt(tokens, j)
  }

  lemma {:induction false} LastMatches(s: State, tokens: seq<Token>, i: nat, paths: Paths)
    requires Valid(s) && i < |tokens| && tokens[i].kind.NewHeader?
    requires |s.files| == Headers(tokens, i) && SectionMatches(s, tokens, i, paths)
    ensures FileMatches(Step(s, tokens[i]).files, tokens, i)
  {
    StepBare(s, tokens[i]);
    RenameSeen(tokens, i);
  }

  lemma EarlierMatches(files: seq<DiffFile>, more: seq<DiffFile>, tokens: seq<Token>, i: nat, j: nat)
    requires j < i <= |tokens| && tokens[j].kind.NewHeader? && FilesMatch(files, tokens, i)
    requires |files| <= |more| && forall k :: 0 <= k < |files| ==> Bare(more[k]) == Bare(files[k])
    ensures FileMatches(more, tokens, j)
  {
    assert FileMatches(files, tokens, j);
  }

  lemma RunPush(tokens: seq<Token>, i: nat)
    requires i < |tokens|
    ensures Run(START, tokens[..i + 1]) == Step(Run(START, tokens[..i]), tokens[i])
  {
    assert tokens[..i + 1] == tokens[..i] + [tokens[i]];
    RunInParts(START, tokens[..i], [tokens[i]]);
    assert [tokens[i]][1..] == [];
  }

  lemma {:induction false} SectionRun(tokens: seq<Token>, i: nat, paths: Paths)
    requires 0 < i <= |tokens| && tokens[0].kind == Git(paths)
    requires forall j :: 0 < j < |tokens| ==> !tokens[j].kind.Git?
    ensures FilesMatch(Run(START, tokens[..i]).files, tokens, i)
    ensures SectionMatches(Run(START, tokens[..i]), tokens, i, paths)
  {
    RunPush(tokens, i - 1);
    if i == 1 {
      SectionOpens(tokens, paths);
    } else {
      SectionRun(tokens, i - 1, paths);
      StepSection(Run(START, tokens[..i - 1]), tokens, i - 1, paths);
      StepMatches(Run(START, tokens[..i - 1]), tokens, i - 1, paths);
    }
  }

  lemma SectionOpens(tokens: seq<Token>, paths: Paths)
    requires tokens != [] && tokens[0].kind == Git(paths)
    ensures FilesMatch(Step(Run(START, tokens[..0]), tokens[0]).files, tokens, 1)
    ensures SectionMatches(Step(Run(START, tokens[..0]), tokens[0]), tokens, 1, paths)
  {
    assert tokens[..0] == [];
    assert Headers(tokens, 1) == 0 && Pending(tokens, 1) == None;
  }

  /** The file of a section without a content header. */
  function LoneFile(tokens: seq<Token>, paths: Paths): DiffFile {
    var n := |tokens|;
    var x := Section(Some(paths), LastRenameFrom(tokens, n), LastRenameTo(tokens, n), HasBinaryNote(tokens, n), false);
    SectionFile(x).value
  }

  /**
   A section yields, in order, one file for each `+++ ` header, with the paths and flags that the header and the
   `--- ` line and rename lines in front of it give; or, if it has none, exactly the file its rename and binary lines
   and its git header describe.
   */
  lemma FilesOfSection(section: seq<string>)
    requires section != [] && Classify(section[0]).Git?
    requires forall i :: 0 < i < |section| ==> !Classify(section[i]).Git?
    ensures var files, tokens := ParsedLines(section), Tokens(section);
            var n := Headers(tokens, |tokens|);
            && (n > 0 ==> |files| == n)
            && (forall j :: 0 <= j < |tokens| && tokens[j].kind.NewHeader? ==>
                  Headers(tokens, j) < |files| && Bare(files[Headers(tokens, j)]) == FileAt(tokens, j))
            && (n == 0 ==> files == [LoneFile(tokens, tokens[0].kind.paths)])
  {
    var tokens := Tokens(section);
    var n := |tokens|;
    var paths := tokens[0].kind.paths;
    SectionRun(tokens, n, paths);
    assert tokens[..n] == tokens;
    SectionFlushed(Run(START, tokens), tokens, paths);
  }

  lemma SectionFlushed(s: State, tokens: seq<Token>, paths: Paths)
    requires FilesMatch(s.files, tokens, |tokens|) && SectionMatches(s, tokens, |tokens|, paths)
    ensures Headers(tokens, |tokens|) > 0 ==> FilesOf(s) == s.files
    ensures Headers(tokens, |tokens|) == 0 ==> WithAllSpans(FilesOf(s)) == [LoneFile(tokens, paths)]
  {
    if Headers(tokens, |tokens|) == 0 {
      assert SectionFile(s.section) == Some(LoneFile(tokens, paths));
      LoneSpans(LoneFile(tokens, paths));
    }
  }

  lemma LoneSpans(f: DiffFile)
    requires f.hunks == []
    ensures WithAllSpans([] + [f]) == [f]
  {
    assert [] + [f] == [f];
    assert WithFileSpans(f).hunks == [];
  }
}
