/**
 Git-format diffs as data, and what they look like on paper. Printing and parsing is the round trip
 the parser (packages/tui/src/diff-view.ts:55-180) and the counter (diff-stat.ts:20-51) are judged by.
 */
module DiffPrint {
  import opened Wrappers
  import opened Text
  import opened Seqs
  import opened DiffTypes
  import opened DiffSyntax
  import opened DiffParser
  import opened DiffSound
  import DiffStat

  /** A line of a hunk's body, or the note that the line above has no newline. */
  datatype Item = Line(kind: LineKind, text: string) | NoNewline

  /** A count of one may be left out of the header. */
  datatype HunkData = HunkData(
    oldNo: nat,
    oldCount: Option<nat>,
    newNo: nat,
    newCount: Option<nat>,
    tail: string,
    items: seq<Item>)

  datatype Status = Modified | Added | Deleted

  datatype Content = Hunks(hunks: seq<HunkData>) | BinaryChange | NoContent

  /** `extra` holds mode, similarity and index lines. */
  datatype FileData = FileData(
    before: string,
    after: string,
    status: Status,
    renamed: bool,
    extra: seq<string>,
    content: Content)

  // --- printing ---

  function Marker(k: LineKind): char {
    match k
    case Add => '+'
    case Del => '-'
    case Context => ' '
  }

  function PrintItem(item: Item): string {
    match item
    case Line(k, text) => [Marker(k)] + text
    case NoNewline => "\\ No newline at end of file"
  }

  function PrintItems(items: seq<Item>): seq<string> {
    if items == [] then [] else [PrintItem(items[0])] + PrintItems(items[1..])
  }

  function HeaderOf(h: HunkData): string {
    HunkLine(h.oldNo, h.oldCount, h.newNo, h.newCount, h.tail)
  }

  function PrintHunk(h: HunkData): seq<string> {
    [HeaderOf(h)] + PrintItems(h.items)
  }

  function PrintHunks(hunks: seq<HunkData>): seq<string> {
    if hunks == [] then [] else PrintHunk(hunks[0]) + PrintHunks(hunks[1..])
  }

  function OldName(f: FileData): string {
    if f.status == Added then DEV_NULL else "a/" + f.before
  }

  function NewName(f: FileData): string {
    if f.status == Deleted then DEV_NULL else "b/" + f.after
  }

  function PrintContent(f: FileData): seq<string> {
    match f.content
    case Hunks(hunks) => ["--- " + OldName(f), "+++ " + NewName(f)] + PrintHunks(hunks)
    case BinaryChange => ["Binary files " + (OldName(f) + " and " + NewName(f)) + " differ"]
    case NoContent => []
  }

  function PrintRename(f: FileData): seq<string> {
    if f.renamed then ["rename from " + f.before, "rename to " + f.after] else []
  }

  function PrintFile(f: FileData): seq<string> {
    [GitLine(f.before, f.after)] + (PrintRename(f) + (f.extra + PrintContent(f)))
  }

  function PrintAll(files: seq<FileData>): seq<string> {
    if files == [] then [] else PrintFile(files[0]) + PrintAll(files[1..])
  }

  function Print(files: seq<FileData>): string {
    Terminated(PrintAll(files))
  }

  // --- what may be printed ---

  /** A line between the git header and the content, such as a mode or index line. */
  predicate IsExtra(l: string) {
    && Free(l, '\n')
    && !StartsWith(l, "diff --git") && !StartsWith(l, "rename from ") && !StartsWith(l, "rename to ")
    && !StartsWith(l, "Binary files ")
    && (l == "" || (l[0] != '+' && l[0] != '-' && l[0] != '@'))
  }

  predicate HunkFit(h: HunkData) {
    Unbroken(h.tail) && forall i :: 0 <= i < |h.items| ==> h.items[i].Line? ==> Free(h.items[i].text, '\n')
  }

  predicate FileFit(f: FileData) {
    && IsPlainPath(f.before) && IsPlainPath(f.after)
    && (forall i :: 0 <= i < |f.extra| ==> IsExtra(f.extra[i]))
    && (f.content.Hunks? ==> forall i :: 0 <= i < |f.content.hunks| ==> HunkFit(f.content.hunks[i]))
  }

  predicate Fit(files: seq<FileData>) {
    forall i :: 0 <= i < |files| ==> FileFit(files[i])
  }

  /** A changed line whose text makes it look like a file header: `++ ` added or `-- ` deleted. */
  predicate LooksLikeHeader(item: Item) {
    && item.Line?
    && ((item.kind == Add && StartsWith(item.text, "++ ")) || (item.kind == Del && StartsWith(item.text, "-- ")))
  }

  predicate ItemsClear(items: seq<Item>) {
    forall i :: 0 <= i < |items| ==> !LooksLikeHeader(items[i])
  }

  predicate HunksClear(hunks: seq<HunkData>) {
    forall i :: 0 <= i < |hunks| ==> ItemsClear(hunks[i].items)
  }

  /** No changed line anywhere looks like a file header. */
  predicate Clear(files: seq<FileData>) {
    forall i :: 0 <= i < |files| ==> files[i].content.Hunks? ==> HunksClear(files[i].content.hunks)
  }

  // --- what should be read back ---

  function ReadItems(items: seq<Item>, o: int, n: int): seq<DiffLine> {
    if items == [] then []
    else
      match items[0]
      case NoNewline => ReadItems(items[1..], o, n)
      case Line(k, text) =>
        [DiffLine(k, text, if k == Add then None else Some(o), if k == Del then None else Some(n), None)]
        + ReadItems(items[1..], if k == Add then o else o + 1, if k == Del then n else n + 1)
  }

  function ReadHunk(h: HunkData): DiffHunk {
    DiffHunk(HeaderOf(h), ReadItems(h.items, h.oldNo, h.newNo))
  }

  function ReadHunks(hunks: seq<HunkData>): seq<DiffHunk> {
    if hunks == [] then [] else [ReadHunk(hunks[0])] + ReadHunks(hunks[1..])
  }

  function CountItem(item: Item, k: LineKind): nat {
    if item.Line? && item.kind == k then 1 else 0
  }

  function CountItems(items: seq<Item>, k: LineKind): nat {
    if items == [] then 0 else CountItem(items[0], k) + CountItems(items[1..], k)
  }

  function CountHunks(hunks: seq<HunkData>, k: LineKind): nat {
    if hunks == [] then 0 else CountItems(hunks[0].items, k) + CountHunks(hunks[1..], k)
  }

  function CountFile(f: FileData, k: LineKind): nat {
    if f.content.Hunks? then CountHunks(f.content.hunks, k) else 0
  }

  function CountFiles(files: seq<FileData>, k: LineKind): nat {
    if files == [] then 0 else CountFiles(files[..|files| - 1], k) + CountFile(files[|files| - 1], k)
  }

  /** The file a change is meant to be read as, without its hunks. */
  function ReadHeader(f: FileData): DiffFile {
    DiffFile(if f.status == Deleted then f.before else f.after,
             if f.status == Added then None else Some(f.before),
             0, 0, f.status == Added, f.status == Deleted, false, f.renamed, [])
  }

  /** The file a change is meant to be read as. */
  function ReadFile(f: FileData): DiffFile {
    match f.content
    case Hunks(hunks) =>
      ReadHeader(f).(hunks := ReadHunks(hunks),
                     additions := CountHunks(hunks, Add), deletions := CountHunks(hunks, Del))
    case _ => ReadHeader(f).(isBinary := f.content.BinaryChange?)
  }

  function ReadAll(files: seq<FileData>): seq<DiffFile> {
    Map(ReadFile, files)
  }

  lemma ReadAllLast(files: seq<FileData>, n: nat)
    requires n == |files| - 1
    ensures ReadAll(files) == ReadAll(files[..n]) + [ReadFile(files[n])]
  {
    MapLast(ReadFile, files, n);
  }

  /**
   What the parser keeps of a file besides its hunks. Without hunks, an added or deleted file is taken for a changed
   one; paths are cleaned although no side was printed in front of them; and without rename lines they come from the
   git header, which a path with ` b/` in it splits in the wrong place.
   */
  predicate Kept(f: FileData) {
    f.content.Hunks? || (f.status == Modified && PathsKept(f))
  }

  predicate PathsKept(f: FileData) {
    !HasSide(f.before) && !HasSide(f.after) && (f.renamed || !Splits(f.after, B_SIDE))
  }

  predicate AllKept(files: seq<FileData>) {
    forall i :: 0 <= i < |files| ==> Kept(files[i])
  }

  // --- how printed lines are classified ---

  lemma OtherHead(raw: string, p: string)
    requires p != "" && (raw == "" || raw[0] != p[0])
    ensures !StartsWith(raw, p)
  {
  }

  /** A line that begins with none of the parser's key letters. */
  lemma PlainLine(raw: string)
    requires raw == "" || (raw[0] != 'd' && raw[0] != 'r' && raw[0] != 'B' && raw[0] != '@')
    ensures Classify(raw) == if StartsWith(raw, "--- ") then OldHeader(Trim(raw[4..]))
                             else if StartsWith(raw, "+++ ") then NewHeader(Trim(raw[4..]))
                             else Body
  {
    OtherHead(raw, GIT);
    OtherHead(raw, "rename from ");
    OtherHead(raw, "rename to ");
    OtherHead(raw, "Binary files ");
    OtherHead(raw, "@@ -");
  }

  lemma LongerHead(raw: string, p: string, q: string)
    requires p <= q && !StartsWith(raw, p)
    ensures !StartsWith(raw, q)
  {
  }

  lemma ExtraLine(l: string)
    requires IsExtra(l)
    ensures Classify(l) == Body
  {
    var git := "diff --git";
    assert git == GIT[..|git|];
    LongerHead(l, git, GIT);
    OtherHead(l, "--- ");
    OtherHead(l, "+++ ");
    OtherHead(l, "@@ -");
  }

  lemma HeadOfCons(c: char, text: string, p: string)
    requires p != "" && p[0] == c
    ensures StartsWith([c] + text, p) <==> StartsWith(text, p[1..])
  {
    var s := [c] + text;
    assert s[1..] == text;
    if StartsWith(text, p[1..]) {
      assert p == [c] + p[1..];
      assert s[..|p|] == [c] + text[..|p| - 1];
    }
    if StartsWith(s, p) {
      assert text[..|p| - 1] == s[..|p|][1..];
    }
  }

  lemma ItemLine(item: Item)
    ensures Classify(PrintItem(item)).Body? <==> !LooksLikeHeader(item)
  {
    var raw := PrintItem(item);
    PlainLine(raw);
    match item
    case NoNewline =>
      OtherHead(raw, "--- ");
      OtherHead(raw, "+++ ");
    case Line(k, text) =>
      var m, p := "--- ", "+++ ";
      if k == Del {
        HeadOfCons('-', text, m);
        assert m[1..] == "-- ";
        OtherHead(raw, p);
      } else if k == Add {
        HeadOfCons('+', text, p);
        assert p[1..] == "++ ";
        OtherHead(raw, m);
      } else {
        OtherHead(raw, m);
        OtherHead(raw, p);
      }
  }

  lemma HeadedLine(head: string, rest: string)
    ensures StartsWith(head + rest, head) && (head + rest)[|head|..] == rest
  {
  }

  lemma RenameFromLine(path: string)
    requires IsPlainPath(path)
    ensures Classify("rename from " + path) == RenameFrom(path)
  {
    var raw := "rename from " + path;
    OtherHead(raw, GIT);
    HeadedLine("rename from ", path);
    TrimmedStays(path);
  }

  lemma RenameToLine(path: string)
    requires IsPlainPath(path)
    ensures Classify("rename to " + path) == RenameTo(path)
  {
    var raw := "rename to " + path;
    OtherHead(raw, GIT);
    assert raw[7] == 't';
    HeadedLine("rename to ", path);
    TrimmedStays(path);
  }

  lemma BinaryLine(names: string)
    ensures Classify("Binary files " + names + " differ") == Kind.BinaryNote
  {
    var head, tail := "Binary files ", " differ";
    var raw := head + names + tail;
    OtherHead(raw, GIT);
    OtherHead(raw, "rename from ");
    OtherHead(raw, "rename to ");
    HeadedLine(head, names + tail);
    assert raw == head + (names + tail);
    assert raw[|raw| - |tail|..] == tail;
  }

  lemma OldHeaderLine(name: string)
    requires IsTrimmed(name)
    ensures Classify("--- " + name) == OldHeader(name)
  {
    PlainLine("--- " + name);
    HeadedLine("--- ", name);
    TrimmedStays(name);
  }

  lemma NewHeaderLine(name: string)
    requires IsTrimmed(name)
    ensures Classify("+++ " + name) == NewHeader(name)
  {
    var raw := "+++ " + name;
    PlainLine(raw);
    OtherHead(raw, "--- ");
    HeadedLine("+++ ", name);
    TrimmedStays(name);
  }

  lemma HunkHeaderLine(h: HunkData)
    requires Unbroken(h.tail)
    ensures Classify(HeaderOf(h)) == Kind.Hunk(HunkStart(h.oldNo, h.newNo))
  {
    var raw := HeaderOf(h);
    HunkLineParses(h.oldNo, h.oldCount, h.newNo, h.newCount, h.tail);
    assert raw[0] == '@';
    OtherHead(raw, GIT);
    OtherHead(raw, "rename from ");
    OtherHead(raw, "rename to ");
    OtherHead(raw, "Binary files ");
    OtherHead(raw, "--- ");
    OtherHead(raw, "+++ ");
  }

  /** The paths the parser takes from a git header. */
  function HeaderPaths(f: FileData): Paths {
    ParseGitHeader(GitLine(f.before, f.after)).GetOr(Paths("", ""))
  }

  /** A printed git header is always recognised. */
  lemma GitHeaderLine(f: FileData)
    requires FileFit(f)
    ensures Classify(GitLine(f.before, f.after)) == Git(HeaderPaths(f))
  {
    GitLineParsesIff(f.before, f.after);
  }
}
