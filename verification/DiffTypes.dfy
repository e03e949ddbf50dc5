/** The records of the diff viewer (packages/tui/src/diff-view.ts:14-46). */
module DiffTypes {
  import opened Wrappers

  datatype LineKind = Add | Del | Context

  /** `span` is the changed range of `text`, in UTF-16 offsets. */
  datatype DiffLine = DiffLine(
    kind: LineKind,
    text: string,
    oldNo: Option<int>,
    newNo: Option<int>,
    span: Option<(nat, nat)>)

  datatype DiffHunk = DiffHunk(header: string, lines: seq<DiffLine>)

  datatype DiffFile = DiffFile(
    path: string,
    oldPath: Option<string>,
    additions: nat,
    deletions: nat,
    isNew: bool,
    isDelete: bool,
    isBinary: bool,
    isRename: bool,
    hunks: seq<DiffHunk>)
}
