/**
 The unified-diff parser (packages/tui/src/diff-view.ts:54-180): a pass over the lines that keeps
 the open file, the open hunk and the state of the current `diff --git` section.
 */
module DiffParser {
  import opened Wrappers
  import opened Text
  import opened DiffTypes
  import opened DiffSyntax
  import opened DiffPairs

  /** The state of a `diff --git` section. */
  datatype Section = Section(
    git: Option<Paths>,
    renameFrom: Option<string>,
    renameTo: Option<string>,
    sawBinary: bool,
    sawContentHeader: bool)

  /** The open file is the last one, and the open hunk is its last one. */
  datatype State = State(
    files: seq<DiffFile>,
    hasFile: bool,
    hasHunk: bool,
    oldNo: int,
    newNo: int,
    pendingOld: Option<string>,
    section: Section)

  const FRESH := Section(None, None, None, false, false)
  const START := State([], false, false, 0, 0, None, FRESH)

  const DEV_NULL := "/dev/null"

  predicate IsRename(x: Section) {
    x.renameFrom.Some? || x.renameTo.Some?
  }

  /** The file of a section that had no content header: a pure rename or a binary change. */
  function SectionFile(x: Section): Option<DiffFile> {
    if x.sawContentHeader || (x.git.None? && x.renameFrom.None?) then None
    else
      var after := if x.renameTo.Some? then x.renameTo else if x.git.Some? then Some(x.git.value.after) else None;
      var before := if x.renameFrom.Some? then x.renameFrom else if x.git.Some? then Some(x.git.value.before) else None;
      if after.None? && before.None? then None
      else
        Some(DiffFile(CleanPath(after.GetOr(before.GetOr(""))),
                      if before.Some? then Some(CleanPath(before.value)) else None,
                      0, 0, false, false, x.sawBinary, IsRename(x), []))
  }

  function Flushed(files: seq<DiffFile>, x: Section): seq<DiffFile> {
    if SectionFile(x).Some? then files + [SectionFile(x).value] else files
  }

  /** The file a `+++ ` header opens. */
  function HeaderFile(name: string, pendingOld: Option<string>, rename: bool): DiffFile {
    var isNew := pendingOld == Some(DEV_NULL);
    var isDelete := name == DEV_NULL;
    DiffFile(if isDelete then CleanPath(pendingOld.GetOr("")) else CleanPath(name),
             if pendingOld.Some? && !isNew then Some(CleanPath(pendingOld.value)) else None,
             0, 0, isNew, isDelete, false, rename, [])
  }

  function OpenHunk(f: DiffFile, header: string): DiffFile {
    f.(hunks := f.hunks + [DiffHunk(header, [])])
  }

  function AddLine(f: DiffFile, line: DiffLine): DiffFile
    requires f.hunks != []
  {
    var n := |f.hunks| - 1;
    var g := f.(hunks := f.hunks[n := f.hunks[n].(lines := f.hunks[n].lines + [line])]);
    match line.kind
    case Add => g.(additions := g.additions + 1)
    case Del => g.(deletions := g.deletions + 1)
    case Context => g
  }

  /** The diff line a body line stands for, numbered from `oldNo` and `newNo`. */
  function BodyLine(raw: string, oldNo: int, newNo: int): Option<DiffLine> {
    if raw == "" then None
    else if raw[0] == '+' then Some(DiffLine(Add, raw[1..], None, Some(newNo), None))
    else if raw[0] == '-' then Some(DiffLine(Del, raw[1..], Some(oldNo), None, None))
    else if raw[0] == ' ' then Some(DiffLine(Context, raw[1..], Some(oldNo), Some(newNo), None))
    else None
  }

  function UpdateLast(files: seq<DiffFile>, f: DiffFile): seq<DiffFile>
    requires files != []
  {
    files[|files| - 1 := f]
  }

  function Last(files: seq<DiffFile>): DiffFile
    requires files != []
  {
    files[|files| - 1]
  }

  predicate Valid(s: State) {
    && (s.hasFile ==> s.files != [])
    && (s.hasFile && s.hasHunk ==> Last(s.files).hunks != [])
  }

  function TakeGit(s: State, paths: Paths): State {
    s.(files := Flushed(s.files, s.section), hasFile := false, hasHunk := false, pendingOld := None,
       section := FRESH.(git := Some(paths)))
  }

  function TakeNewHeader(s: State, name: string): State {
    s.(files := s.files + [HeaderFile(name, s.pendingOld, IsRename(s.section))], hasFile := true, hasHunk := false,
       pendingOld := None, section := s.section.(sawContentHeader := true))
  }

  function TakeHunk(s: State, raw: string, start: HunkStart): State
    requires Valid(s)
  {
    s.(files := if s.hasFile then UpdateLast(s.files, OpenHunk(Last(s.files), raw)) else s.files,
       hasHunk := true, oldNo := start.oldNo, newNo := start.newNo)
  }

  function TakeBody(s: State, raw: string): State
    requires Valid(s)
  {
    var line := BodyLine(raw, s.oldNo, s.newNo);
    if !s.hasFile || !s.hasHunk || line.None? then s
    else
      s.(files := UpdateLast(s.files, AddLine(Last(s.files), line.value)),
         oldNo := if line.value.kind != Add then s.oldNo + 1 else s.oldNo,
         newNo := if line.value.kind != Del then s.newNo + 1 else s.newNo)
  }

  function Step(s: State, t: Token): (r: State)
    requires Valid(s)
    ensures Valid(r)
  {
    match t.kind
    case Git(paths) => TakeGit(s, paths)
    case RenameFrom(path) => s.(section := s.section.(renameFrom := Some(path)))
    case RenameTo(path) => s.(section := s.section.(renameTo := Some(path)))
    case BinaryNote => s.(section := s.section.(sawBinary := true))
    case OldHeader(name) => s.(pendingOld := Some(name))
    case NewHeader(name) => TakeNewHeader(s, name)
    case Hunk(start) => TakeHunk(s, t.raw, start)
    case Body => TakeBody(s, t.raw)
  }

  function Run(s: State, tokens: seq<Token>): (r: State)
    requires Valid(s)
    ensures Valid(r)
    decreases |tokens|
  {
    if tokens == [] then s else Run(Step(s, tokens[0]), tokens[1..])
  }

  function FilesOf(s: State): seq<DiffFile> {
    Flushed(s.files, s.section)
  }

  function WithHunkSpans(h: DiffHunk): DiffHunk {
    h.(lines := WithSpans(h.lines))
  }

  function WithFileSpans(f: DiffFile): DiffFile {
    f.(hunks := seq(|f.hunks|, i requires 0 <= i < |f.hunks| => WithHunkSpans(f.hunks[i])))
  }

  function WithAllSpans(files: seq<DiffFile>): seq<DiffFile> {
    seq(|files|, i requires 0 <= i < |files| => WithFileSpans(files[i]))
  }

  /** The files a list of lines describes. */
  function ParsedLines(lines: seq<string>): seq<DiffFile> {
    WithAllSpans(FilesOf(Run(START, Tokens(lines))))
  }

  function Parsed(diff: string): seq<DiffFile> {
    ParsedLines(Lines(diff))
  }

  /** The parser's variables, updated line by line. */
  class Parser {
    var files: seq<DiffFile>
    var hasFile: bool
    var hasHunk: bool
    var oldNo: int
    var newNo: int
    var pendingOld: Option<string>
    var section: Section

    ghost function Model(): State
      reads this
    {
      State(files, hasFile, hasHunk, oldNo, newNo, pendingOld, section)
    }

    constructor ()
      ensures Model() == START
    {
      files, hasFile, hasHunk, oldNo, newNo, pendingOld, section := [], false, false, 0, 0, None, FRESH;
    }

    method FlushGitSection()
      modifies `files
      ensures files == Flushed(old(files), section)
    {
      var x := section;
      if x.sawContentHeader || (x.git.None? && x.renameFrom.None?) { return; }
      var after := if x.renameTo.Some? then x.renameTo else if x.git.Some? then Some(x.git.value.after) else None;
      var before := if x.renameFrom.Some? then x.renameFrom else if x.git.Some? then Some(x.git.value.before) else None;
      if after.None? && before.None? { return; }
      files := files + [DiffFile(CleanPath(after.GetOr(before.GetOr(""))),
                                 if before.Some? then Some(CleanPath(before.value)) else None,
                                 0, 0, false, false, x.sawBinary, x.renameFrom.Some? || x.renameTo.Some?, [])];
    }

    method OpenSection(paths: Paths)
      modifies this
      ensures Model() == TakeGit(old(Model()), paths)
    {
      FlushGitSection();
      section := Section(Some(paths), None, None, false, false);
      hasFile, hasHunk, pendingOld := false, false, None;
    }

    method OpenFile(newRaw: string)
      modifies this
      ensures Model() == TakeNewHeader(old(Model()), newRaw)
    {
      section := section.(sawContentHeader := true);
      var isNew := pendingOld == Some(DEV_NULL);
      var isDelete := newRaw == DEV_NULL;
      var path := if isDelete then CleanPath(pendingOld.GetOr("")) else CleanPath(newRaw);
      var oldPath := if pendingOld.Some? && !isNew then Some(CleanPath(pendingOld.value)) else None;
      files := files + [DiffFile(path, oldPath, 0, 0, isNew, isDelete, false,
                                 section.renameFrom.Some? || section.renameTo.Some?, [])];
      hasFile, hasHunk, pendingOld := true, false, None;
    }

    method StartHunk(raw: string, at: HunkStart)
      requires Valid(Model())
      modifies this
      ensures Model() == TakeHunk(old(Model()), raw, at)
    {
      oldNo, newNo := at.oldNo, at.newNo;
      hasHunk := true;
      if hasFile {
        files := UpdateLast(files, OpenHunk(Last(files), raw));
      }
    }

    method TakeBodyLine(raw: string)
      requires Valid(Model())
      modifies this
      ensures Model() == TakeBody(old(Model()), raw)
    {
      if !hasFile || !hasHunk || raw == "" { return; }
      var text := raw[1..];
      if raw[0] == '+' {
        files := UpdateLast(files, AddLine(Last(files), DiffLine(Add, text, None, Some(newNo), None)));
        newNo := newNo + 1;
      } else if raw[0] == '-' {
        files := UpdateLast(files, AddLine(Last(files), DiffLine(Del, text, Some(oldNo), None, None)));
        oldNo := oldNo + 1;
      } else if raw[0] == ' ' {
        files := UpdateLast(files, AddLine(Last(files), DiffLine(Context, text, Some(oldNo), Some(newNo), None)));
        oldNo := oldNo + 1;
        newNo := newNo + 1;
      }
    }

    /** One turn of the parser's loop, on a recognised line. */
    method TakeLine(t: Token)
      requires Valid(Model())
      modifies this
      ensures Model() == Step(old(Model()), t)
    {
      match t.kind
      case Git(paths) => OpenSection(paths);
      case RenameFrom(path) => section := section.(renameFrom := Some(path));
      case RenameTo(path) => section := section.(renameTo := Some(path));
      case BinaryNote => section := section.(sawBinary := true);
      case OldHeader(name) => pendingOld := Some(name);
      case NewHeader(name) => OpenFile(name);
      case Hunk(start) => StartHunk(t.raw, start);
      case Body => TakeBodyLine(t.raw);
    }
  }

  method MarkHunk(h: DiffHunk) returns (r: DiffHunk)
    ensures r == WithHunkSpans(h)
  {
    var lines := new DiffLine[|h.lines|](i requires 0 <= i < |h.lines| => h.lines[i]);
    assert lines[..] == h.lines;
    ComputeWordSpans(lines);
    r := h.(lines := lines[..]);
  }

  method MarkFile(f: DiffFile) returns (r: DiffFile)
    ensures r == WithFileSpans(f)
  {
    var hunks := [];
    for i := 0 to |f.hunks|
      invariant |hunks| == i && forall j :: 0 <= j < i ==> hunks[j] == WithHunkSpans(f.hunks[j])
    {
      var h := MarkHunk(f.hunks[i]);
      hunks := hunks + [h];
    }
    assert hunks == WithFileSpans(f).hunks;
    r := f.(hunks := hunks);
  }

  method ReadFiles(diff: string) returns (files: seq<DiffFile>)
    ensures files == FilesOf(Run(START, Tokens(Lines(diff))))
  {
    var p := new Parser();
    var lines := Lines(diff);
    ghost var tokens := Tokens(lines);
    var i := 0;
    assert tokens[0..] == tokens;
    while i < |lines|
      invariant 0 <= i <= |lines|
      invariant fresh(p) && Valid(p.Model())
      invariant Run(p.Model(), tokens[i..]) == Run(START, tokens)
    {
      assert tokens[i..][1..] == tokens[i + 1..];
      p.TakeLine(TokenOf(lines[i]));
      i := i + 1;
    }
    p.FlushGitSection();
    files := p.files;
  }

  method MarkFiles(read: seq<DiffFile>) returns (files: seq<DiffFile>)
    ensures files == WithAllSpans(read)
  {
    files := [];
    for i := 0 to |read|
      invariant |files| == i && forall j :: 0 <= j < i ==> files[j] == WithFileSpans(read[j])
    {
      var f := MarkFile(read[i]);
      files := files + [f];
    }
  }

  method ParseUnifiedDiff(diff: string) returns (files: seq<DiffFile>)
    ensures files == Parsed(diff)
  {
    var read := ReadFiles(diff);
    files := MarkFiles(read);
  }
}
