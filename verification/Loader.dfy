/**
 * The order in which extensions are loaded into the registry, and who may own what in it
 * (packages/extension-runtime/src/loader.ts). The file system is a map from resolved paths, which are lists of
 * segments, to decoded files; directory listings, manifests and entrypoints are given.
 */
module Loader {
  import opened Wrappers
  import opened Definitions
  import opened Contributions

  type Path = seq<string>

  datatype Pack = Pack(id: string, permissionWarnings: seq<string>, contributions: seq<Contribution>)

  /** What reading and decoding a file gives; nothing when that fails. A Markdown file names its own type. */
  datatype File = YamlFile(raw: Option<Definition>) | MarkdownFile(raw: Option<Definition>)

  datatype ExtKind = DeclarativeExt | ProgrammaticExt | MixedExt

  datatype Entrypoint = NotFound | Failed | NotAnExtension | Exports(id: string, value: string)

  /** `contributes` as the lists of its two kinds of keys, in the order in which the loader goes through them. */
  datatype Manifest = Manifest(
    id: string,
    kind: ExtKind,
    declaratives: seq<(DeclKind, Path)>,
    names: seq<(ProgKind, string)>,
    entrypoint: Entrypoint,
    permissionWarnings: seq<string>,
    violations: seq<string>)

  datatype ExtensionsFile = ExtensionsFile(
    enabled: seq<string>,
    disabled: set<string>,
    declarative: seq<Path>,
    local: seq<(Path, Path)>)

  /** `file` is nothing when the extensions file is broken; `enforce` is the policy's switch. */
  datatype Input = Input(
    builtIns: seq<Pack>,
    file: Option<ExtensionsFile>,
    root: Path,
    listings: map<DeclKind, seq<string>>,
    extensionDirs: seq<string>,
    files: map<Path, File>,
    manifests: map<Path, Option<Manifest>>,
    enforce: bool)

  datatype Candidate = Candidate(path: Path, expected: Option<DeclKind>)

  const PROJECT := "project"

  const EXTENSIONS := "extensions"

  const DECLARATIVE_DIRS: seq<DeclKind> :=
    [Methodology, Workflow, QuestionPack, PromptTemplate, ArtifactTemplate,
     PolicyPreset, ModelRouting, ReportTemplate, RoleDefinition, CommandMapping]

  function DirName(kind: DeclKind): string {
    match kind
    case Methodology => "methodologies"
    case Workflow => "workflows"
    case QuestionPack => "question-packs"
    case PromptTemplate => "prompts"
    case ArtifactTemplate => "artifacts"
    case PolicyPreset => "policies"
    case ModelRouting => "models"
    case ReportTemplate => "reports"
    case RoleDefinition => "roles"
    case CommandMapping => "command-mappings"
  }

  /** Without a readable extensions file everything is enabled. */
  function Settings(input: Input): ExtensionsFile {
    input.file.GetOr(ExtensionsFile([], {}, [], []))
  }

  // --- built-in packs ---

  function Warns(texts: seq<string>): seq<Call> {
    seq(|texts|, i requires 0 <= i < |texts| => Warn(texts[i]))
  }

  /** A built-in contribution always gets this source and its manifest's id as owner. */
  function Forced(c: Contribution, owner: string): Contribution {
    c.(source := BuiltIn, extensionId := owner)
  }

  function PackCalls(pack: Pack): seq<Call> {
    Warns(pack.permissionWarnings)
    + seq(|pack.contributions|, i requires 0 <= i < |pack.contributions| =>
        Register(Forced(pack.contributions[i], pack.id)))
  }

  function BuiltInCalls(packs: seq<Pack>, disabled: set<string>): seq<Call> {
    if packs == [] then []
    else
      var last := packs[|packs| - 1];
      BuiltInCalls(packs[..|packs| - 1], disabled) + if last.id in disabled then [] else PackCalls(last)
  }

  // --- project files ---

  function FileCall(input: Input, c: Candidate): Call {
    match LoadFile(input, c.path, c.expected)
    case None => Warn(Named(c.path))
    case Some(d) => Register(Contribution(Declarative(d.declared.value), d.id, PROJECT, Project, Some(d), None))
  }

  function Named(path: Path): string {
    if path == [] then "" else path[|path| - 1]
  }

  function LoadFile(input: Input, path: Path, expected: Option<DeclKind>): (r: Option<Definition>)
    ensures r.Some? ==> r.value.declared.Some?
  {
    if path !in input.files then None
    else
      match input.files[path]
      case YamlFile(raw) => LoadRaw(expected, raw)
      case MarkdownFile(raw) => LoadRaw(None, raw)
  }

  function LoadRaw(expected: Option<DeclKind>, raw: Option<Definition>): (r: Option<Definition>)
    ensures r.Some? ==> r.value.declared.Some? && Parse(r.value.declared.value, r.value) == r
    ensures r.Some? && expected.Some? ==> r.value.declared == expected
  {
    if ParseFile(expected, raw).Some? then
      FileStays(expected, raw);
      ParseFile(expected, raw)
    else None
  }

  function ProjectCalls(input: Input, cs: seq<Candidate>): seq<Call> {
    seq(|cs|, i requires 0 <= i < |cs| => FileCall(input, cs[i]))
  }

  // --- local extensions ---

  /** The files a manifest lists, registered under its own id; files that do not load are only counted as errors. */
  function ListedCall(input: Input, m: Manifest, k: nat): seq<Call>
    requires k < |m.declaratives|
  {
    var (kind, path) := m.declaratives[k];
    match LoadFile(input, path, Some(kind))
    case None => []
    case Some(d) =>
      if d.declared != Some(kind) then []
      else [Register(Contribution(Declarative(kind), d.id, m.id, SourceOf(m), Some(d), None))]
  }

  /** A manifest without code is project content, so it overrides built-ins but not local extensions. */
  function SourceOf(m: Manifest): Source {
    if m.kind == DeclarativeExt then Project else Local
  }

  function ListedCalls(input: Input, m: Manifest, n: nat): seq<Call>
    requires n <= |m.declaratives|
  {
    if n == 0 then [] else ListedCalls(input, m, n - 1) + ListedCall(input, m, n - 1)
  }

  function EntryCalls(m: Manifest): seq<Call> {
    if m.kind == DeclarativeExt || !m.entrypoint.Exports? then []
    else
      (if m.entrypoint.id != m.id then [Warn(m.id)] else [])
      + seq(|m.names|, i requires 0 <= i < |m.names| => Register(NameEntry(m, m.names[i], m.entrypoint.value)))
  }

  function NameEntry(m: Manifest, name: (ProgKind, string), value: string): Contribution {
    Contribution(Programmatic(name.0), name.1, m.id, Local, None, Some(value))
  }

  predicate Blocked(input: Input, m: Manifest) {
    input.enforce && m.violations != []
  }

  function ManifestCalls(input: Input, m: Manifest): seq<Call> {
    if m.id in Settings(input).disabled then []
    else if Blocked(input, m) then [Warn(m.id)]
    else ListedCalls(input, m, |m.declaratives|) + EntryCalls(m) + Warns(m.permissionWarnings)
  }

  function ManifestAt(input: Input, dir: Path): Option<Manifest> {
    if dir in input.manifests then input.manifests[dir] else None
  }

  function DirCalls(input: Input, dir: Path): seq<Call> {
    match ManifestAt(input, dir)
    case None => []
    case Some(m) => ManifestCalls(input, m)
  }

  function LocalCalls(input: Input, dirs: seq<Path>): seq<Call> {
    if dirs == [] then [] else LocalCalls(input, dirs[..|dirs| - 1]) + DirCalls(input, dirs[|dirs| - 1])
  }

  // --- which files and directories ---

  predicate EndsIn(name: string, suffix: string) {
    |suffix| <= |name| && forall i :: 0 <= i < |suffix| ==> SameLetter(name[|name| - |suffix| + i], suffix[i])
  }

  /** `c` is the lower-case letter or its upper-case form. */
  predicate SameLetter(c: char, lower: char) {
    c == lower || ('a' <= lower <= 'z' && c as int + 32 == lower as int)
  }

  /** What the loader takes from a directory of definitions. */
  predicate Takes(kind: DeclKind, name: string) {
    && !(kind == ModelRouting && name == "providers.yaml")
    && (|| EndsIn(name, ".yml") || EndsIn(name, ".yaml")
        || ((kind == PromptTemplate || kind == ArtifactTemplate) && (EndsIn(name, ".md") || EndsIn(name, ".markdown"))))
  }

  function Listing(input: Input, kind: DeclKind): seq<string> {
    if kind in input.listings then input.listings[kind] else []
  }

  function FilePath(input: Input, kind: DeclKind, name: string): Path {
    input.root + [DirName(kind), name]
  }

  /** The declarative directory closest to the file. */
  function InferType(path: Path, k: nat): Option<DeclKind>
    requires k <= |path|
  {
    if k == 0 then None
    else
      match DirKind(path[k - 1], 0)
      case Some(kind) => Some(kind)
      case None => InferType(path, k - 1)
  }

  function DirKind(segment: string, i: nat): Option<DeclKind>
    requires i <= |DECLARATIVE_DIRS|
    decreases |DECLARATIVE_DIRS| - i
  {
    if i == |DECLARATIVE_DIRS| then None
    else if DirName(DECLARATIVE_DIRS[i]) == segment then Some(DECLARATIVE_DIRS[i])
    else DirKind(segment, i + 1)
  }

  predicate HasPath(cs: seq<Candidate>, path: Path) {
    exists i :: 0 <= i < |cs| && cs[i].path == path
  }

  function PushCandidate(cs: seq<Candidate>, c: Candidate): seq<Candidate> {
    if HasPath(cs, c.path) then cs else cs + [c]
  }

  function FromListing(input: Input, kind: DeclKind, names: seq<string>, cs: seq<Candidate>): seq<Candidate> {
    if names == [] then cs
    else
      var n := |names| - 1;
      var before := FromListing(input, kind, names[..n], cs);
      if Takes(kind, names[n]) then PushCandidate(before, Candidate(FilePath(input, kind, names[n]), Some(kind)))
      else before
  }

  function FromDirs(input: Input, kinds: seq<DeclKind>): seq<Candidate> {
    if kinds == [] then []
    else
      var kind := kinds[|kinds| - 1];
      FromListing(input, kind, Listing(input, kind), FromDirs(input, kinds[..|kinds| - 1]))
  }

  function DeclaredCandidate(path: Path): Candidate {
    Candidate(path, if path == [] then None else InferType(path, |path| - 1))
  }

  function FromDeclared(input: Input, paths: seq<Path>, cs: seq<Candidate>): seq<Candidate> {
    if paths == [] then cs
    else
      var n := |paths| - 1;
      var before := FromDeclared(input, paths[..n], cs);
      if paths[n] in input.files then PushCandidate(before, DeclaredCandidate(paths[n])) else before
  }

  /** The declared files that are not there are only warned about. */
  function MissingCalls(input: Input, paths: seq<Path>, cs: seq<Candidate>): seq<Call> {
    if paths == [] then []
    else
      var n := |paths| - 1;
      MissingCalls(input, paths[..n], cs)
      + if HasPath(FromDeclared(input, paths[..n], cs), paths[n]) || paths[n] in input.files then []
        else [Warn(Named(paths[n]))]
  }

  function Candidates(input: Input): seq<Candidate> {
    FromDeclared(input, Settings(input).declarative, FromDirs(input, DECLARATIVE_DIRS))
  }

  function PushDir(dirs: seq<Path>, dir: Path): seq<Path> {
    if dir in dirs then dirs else dirs + [dir]
  }

  /** A configured directory is looked for beside the extensions file and then in the repository's root. */
  function Chosen(input: Input, entry: (Path, Path)): Path {
    if entry.0 in input.manifests then entry.0
    else if entry.1 in input.manifests then entry.1
    else entry.0
  }

  function FromLocal(input: Input, entries: seq<(Path, Path)>): seq<Path> {
    if entries == [] then []
    else PushDir(FromLocal(input, entries[..|entries| - 1]), Chosen(input, entries[|entries| - 1]))
  }

  function ExtensionPath(input: Input, name: string): Path {
    input.root + [EXTENSIONS, name]
  }

  function FromExtensions(input: Input, names: seq<string>, dirs: seq<Path>): seq<Path> {
    if names == [] then dirs
    else
      var n := |names| - 1;
      var before := FromExtensions(input, names[..n], dirs);
      if ExtensionPath(input, names[n]) in input.manifests then PushDir(before, ExtensionPath(input, names[n]))
      else before
  }

  function LocalDirs(input: Input): seq<Path> {
    FromExtensions(input, input.extensionDirs, FromLocal(input, Settings(input).local))
  }

  // --- the whole load ---

  function SettingsCalls(input: Input): seq<Call> {
    (if input.file.None? then [Warn(EXTENSIONS)] else [])
    + Clashes(Settings(input).enabled, Settings(input).disabled)
  }

  /** The ids that are both enabled and disabled: disabled wins, with a warning. */
  function Clashes(enabled: seq<string>, disabled: set<string>): seq<Call> {
    if enabled == [] then []
    else
      var n := |enabled| - 1;
      Clashes(enabled[..n], disabled) + if enabled[n] in disabled then [Warn(enabled[n])] else []
  }

  function ProjectBucket(input: Input): seq<Call> {
    if PROJECT in Settings(input).disabled then []
    else
      MissingCalls(input, Settings(input).declarative, FromDirs(input, DECLARATIVE_DIRS))
      + ProjectCalls(input, Candidates(input))
  }

  function BuiltInBucket(input: Input): seq<Call> {
    BuiltInCalls(input.builtIns, Settings(input).disabled)
  }

  function LocalBucket(input: Input): seq<Call> {
    LocalCalls(input, LocalDirs(input))
  }

  /** Everything a load asks of the registry, in order. */
  function LoadCalls(input: Input): seq<Call> {
    SettingsCalls(input) + (BuiltInBucket(input) + (ProjectBucket(input) + LocalBucket(input)))
  }
}
