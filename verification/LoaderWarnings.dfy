/** What a load complains about, and how each extension ends (packages/extension-runtime/src/loader.ts:134-437). */
module LoaderWarnings {
  import opened Wrappers
  import opened Seqs
  import opened Definitions
  import opened Contributions
  import opened Loader
  import opened LoaderProperties
  import opened LoaderTable
  import opened LoaderRun

  ghost predicate Noted(calls: seq<Call>, text: string) {
    exists i :: 0 <= i < |calls| && calls[i] == Warn(text)
  }

  lemma NotedConcat(a: seq<Call>, b: seq<Call>, text: string)
    ensures Noted(a + b, text) <==> Noted(a, text) || Noted(b, text)
  {
    if Noted(a, text) {
      var i :| 0 <= i < |a| && a[i] == Warn(text);
      assert (a + b)[i] == Warn(text);
    }
    if Noted(b, text) {
      var i :| 0 <= i < |b| && b[i] == Warn(text);
      assert (a + b)[|a| + i] == Warn(text);
    }
  }

  lemma NotedOne(call: Call, text: string)
    ensures Noted([call], text) <==> call == Warn(text)
  {
    assert [call][0] == call;
  }

  lemma NotedTexts(texts: seq<string>, text: string)
    ensures Noted(Warns(texts), text) <==> text in texts
  {
    if text in texts {
      var i :| 0 <= i < |texts| && texts[i] == text;
      assert Warns(texts)[i] == Warn(text);
    }
  }

  lemma NotedNowhere(calls: seq<Call>, text: string)
    requires forall i :: 0 <= i < |calls| ==> calls[i].Register?
    ensures !Noted(calls, text)
  {
  }

  lemma {:induction false} NoteIffNoted(calls: seq<Call>, text: string)
    ensures Note(text) in Run(calls).warnings <==> Noted(calls, text)
  {
    if calls != [] {
      var n := |calls| - 1;
      NoteIffNoted(calls[..n], text);
      FrontAndLast(calls, n);
      NotedConcat(calls[..n], [calls[n]], text);
      NotedOne(calls[n], text);
    }
  }

  // --- the settings and the packs ---

  lemma {:induction false} ClashNoted(enabled: seq<string>, disabled: set<string>, text: string)
    ensures Noted(Clashes(enabled, disabled), text) <==> text in enabled && text in disabled
  {
    if enabled != [] {
      var n := |enabled| - 1;
      ClashNoted(enabled[..n], disabled, text);
      FrontAndLast(enabled, n);
      var last: seq<Call> := if enabled[n] in disabled then [Warn(enabled[n])] else [];
      NotedConcat(Clashes(enabled[..n], disabled), last, text);
      NotedOne(Warn(enabled[n]), text);
    }
  }

  ghost predicate SettingsNote(input: Input, text: string) {
    || (input.file.None? && text == "extensions")
    || (text in Settings(input).enabled && text in Settings(input).disabled)
  }

  lemma SettingsNoted(input: Input, text: string)
    ensures Noted(SettingsCalls(input), text) <==> SettingsNote(input, text)
  {
    var head: seq<Call> := if input.file.None? then [Warn(EXTENSIONS)] else [];
    NotedOne(Warn(EXTENSIONS), text);
    ClashNoted(Settings(input).enabled, Settings(input).disabled, text);
    NotedConcat(head, Clashes(Settings(input).enabled, Settings(input).disabled), text);
  }

  /** The permission warnings of the enabled packs. */
  ghost predicate PackNote(packs: seq<Pack>, disabled: set<string>, text: string) {
    exists p :: 0 <= p < |packs| && packs[p].id !in disabled && text in packs[p].permissionWarnings
  }

  lemma PackNoted(pack: Pack, text: string)
    ensures Noted(PackCalls(pack), text) <==> text in pack.permissionWarnings
  {
    NotedTexts(pack.permissionWarnings, text);
    var rest := seq(|pack.contributions|, i requires 0 <= i < |pack.contributions| =>
      Register(Forced(pack.contributions[i], pack.id)));
    NotedNowhere(rest, text);
    NotedConcat(Warns(pack.permissionWarnings), rest, text);
  }

  lemma PackNoteLast(packs: seq<Pack>, disabled: set<string>, n: nat, text: string)
    requires n == |packs| - 1
    ensures PackNote(packs, disabled, text)
       <==> PackNote(packs[..n], disabled, text) || (packs[n].id !in disabled && text in packs[n].permissionWarnings)
  {
    if PackNote(packs[..n], disabled, text) {
      var p :| 0 <= p < n && packs[..n][p].id !in disabled && text in packs[..n][p].permissionWarnings;
      assert packs[p] == packs[..n][p];
    }
    if PackNote(packs, disabled, text) {
      var p :| 0 <= p < |packs| && packs[p].id !in disabled && text in packs[p].permissionWarnings;
      assert p < n ==> packs[..n][p] == packs[p];
    }
  }

  lemma {:induction false} PacksNoted(packs: seq<Pack>, disabled: set<string>, text: string)
    ensures Noted(BuiltInCalls(packs, disabled), text) <==> PackNote(packs, disabled, text)
  {
    if packs != [] {
      var n := |packs| - 1;
      PacksNoted(packs[..n], disabled, text);
      PackNoteLast(packs, disabled, n, text);
      PackNoted(packs[n], text);
      NotedConcat(BuiltInCalls(packs[..n], disabled),
                  if packs[n].id in disabled then [] else PackCalls(packs[n]), text);
    }
  }

  // --- the project's files ---

  /** A declared file that is in no listing and does not exist. */
  ghost predicate IsMissing(input: Input, path: Path) {
    path !in input.files && !exists kind :: InDir(input, kind, path)
  }

  ghost predicate MissingNote(input: Input, paths: seq<Path>, text: string) {
    exists i :: 0 <= i < |paths| && IsMissing(input, paths[i]) && text == Named(paths[i])
  }

  lemma MissingNoteLast(input: Input, paths: seq<Path>, n: nat, text: string)
    requires n == |paths| - 1
    ensures MissingNote(input, paths, text)
       <==> MissingNote(input, paths[..n], text) || (IsMissing(input, paths[n]) && text == Named(paths[n]))
  {
    if MissingNote(input, paths[..n], text) {
      var i :| 0 <= i < n && IsMissing(input, paths[..n][i]) && text == Named(paths[..n][i]);
      assert paths[i] == paths[..n][i];
    }
    if MissingNote(input, paths, text) {
      var i :| 0 <= i < |paths| && IsMissing(input, paths[i]) && text == Named(paths[i]);
      assert i < n ==> paths[..n][i] == paths[i];
    }
  }

  lemma MissingIff(input: Input, paths: seq<Path>, path: Path)
    ensures HasPath(FromDeclared(input, paths, FromDirs(input, DECLARATIVE_DIRS)), path) || path in input.files
       <==> !IsMissing(input, path)
  {
    DeclaredFound(input, paths, FromDirs(input, DECLARATIVE_DIRS), path);
    DirsFound(input, DECLARATIVE_DIRS, path);
    forall kind | InDir(input, kind, path)
      ensures kind in DECLARATIVE_DIRS
    {
      AllKinds(kind);
    }
  }

  lemma {:induction false} MissingNoted(input: Input, paths: seq<Path>, text: string)
    ensures Noted(MissingCalls(input, paths, FromDirs(input, DECLARATIVE_DIRS)), text)
       <==> MissingNote(input, paths, text)
  {
    if paths != [] {
      var n := |paths| - 1;
      MissingNoted(input, paths[..n], text);
      MissingNoteLast(input, paths, n, text);
      MissingIff(input, paths[..n], paths[n]);
      var last: seq<Call> := if IsMissing(input, paths[n]) then [Warn(Named(paths[n]))] else [];
      NotedOne(Warn(Named(paths[n])), text);
      NotedConcat(MissingCalls(input, paths[..n], FromDirs(input, DECLARATIVE_DIRS)), last, text);
    }
  }

  /** A project file that cannot be read, decoded or parsed. */
  ghost predicate UnloadedNote(input: Input, files: seq<Candidate>, text: string) {
    exists i :: 0 <= i < |files| && Defined(input, files[i].path, files[i].expected) == None
                && text == Named(files[i].path)
  }

  lemma FilesNoted(input: Input, files: seq<Candidate>, text: string)
    ensures Noted(ProjectCalls(input, files), text) <==> UnloadedNote(input, files, text)
  {
    forall i | 0 <= i < |files|
      ensures ProjectCalls(input, files)[i] == Warn(text)
         <==> Defined(input, files[i].path, files[i].expected) == None && text == Named(files[i].path)
    {
      FileLoadsIff(input, files[i].path, files[i].expected);
    }
  }

  ghost predicate ProjectNote(input: Input, text: string) {
    && "project" !in Settings(input).disabled
    && (MissingNote(input, Settings(input).declarative, text) || UnloadedNote(input, Candidates(input), text))
  }

  lemma ProjectNoted(input: Input, text: string)
    ensures Noted(ProjectBucket(input), text) <==> ProjectNote(input, text)
  {
    MissingNoted(input, Settings(input).declarative, text);
    FilesNoted(input, Candidates(input), text);
    NotedConcat(MissingCalls(input, Settings(input).declarative, FromDirs(input, DECLARATIVE_DIRS)),
                ProjectCalls(input, Candidates(input)), text);
  }

  // --- extensions ---

  /** The code exports another id than the manifest's. */
  predicate NamedOtherwise(m: Manifest) {
    m.kind != DeclarativeExt && m.entrypoint.Exports? && m.entrypoint.id != m.id
  }

  /** A blocked extension is named; of another one the permissions are, and its id if the code goes by another one. */
  ghost predicate ManifestNote(input: Input, m: Manifest, text: string) {
    && m.id !in Settings(input).disabled
    && if input.enforce && m.violations != [] then text == m.id
       else text in m.permissionWarnings || (NamedOtherwise(m) && text == m.id)
  }

  lemma {:induction false} ListedNoted(input: Input, m: Manifest, n: nat, text: string)
    requires n <= |m.declaratives|
    ensures !Noted(ListedCalls(input, m, n), text)
  {
    if n > 0 {
      ListedNoted(input, m, n - 1, text);
      NotedNowhere(ListedCall(input, m, n - 1), text);
      NotedConcat(ListedCalls(input, m, n - 1), ListedCall(input, m, n - 1), text);
    }
  }

  lemma EntryNoted(m: Manifest, text: string)
    ensures Noted(EntryCalls(m), text) <==> NamedOtherwise(m) && text == m.id
  {
    if m.kind != DeclarativeExt && m.entrypoint.Exports? {
      var head: seq<Call> := if m.entrypoint.id != m.id then [Warn(m.id)] else [];
      var names := seq(|m.names|, i requires 0 <= i < |m.names| =>
        Register(NameEntry(m, m.names[i], m.entrypoint.value)));
      NotedOne(Warn(m.id), text);
      NotedNowhere(names, text);
      NotedConcat(head, names, text);
    }
  }

  lemma ManifestNoted(input: Input, m: Manifest, text: string)
    ensures Noted(ManifestCalls(input, m), text) <==> ManifestNote(input, m, text)
  {
    var listed := ListedCalls(input, m, |m.declaratives|);
    NotedOne(Warn(m.id), text);
    ListedNoted(input, m, |m.declaratives|, text);
    EntryNoted(m, text);
    NotedConcat(listed, EntryCalls(m), text);
    NotedTexts(m.permissionWarnings, text);
    NotedConcat(listed + EntryCalls(m), Warns(m.permissionWarnings), text);
  }

  ghost predicate DirNote(input: Input, dir: Path, text: string) {
    ManifestAt(input, dir).Some? && ManifestNote(input, ManifestAt(input, dir).value, text)
  }

  lemma DirNoted(input: Input, dir: Path, text: string)
    ensures Noted(DirCalls(input, dir), text) <==> DirNote(input, dir, text)
  {
    match ManifestAt(input, dir)
    case None => NotedNowhere([], text);
    case Some(m) => ManifestNoted(input, m, text);
  }

  lemma {:induction false} DirsNoted(input: Input, dirs: seq<Path>, text: string)
    ensures Noted(LocalCalls(input, dirs), text) <==> exists dir :: dir in dirs && DirNote(input, dir, text)
  {
    if dirs != [] {
      var n := |dirs| - 1;
      DirsNoted(input, dirs[..n], text);
      FrontAndLast(dirs, n);
      assert forall dir :: dir in dirs <==> dir in dirs[..n] || dir == dirs[n];
      DirNoted(input, dirs[n], text);
      NotedConcat(LocalCalls(input, dirs[..n]), DirCalls(input, dirs[n]), text);
    }
  }

  /**
   A load notes exactly: a broken extensions file, ids that are enabled and disabled, the permission warnings of
   enabled packs, missing and unloadable project files, and of extensions that are not disabled the blocked ones, the
   permission warnings of the others and an id in the code that differs.
   */
  lemma NotesExactly(input: Input, text: string)
    ensures Note(text) in Run(LoadCalls(input)).warnings
       <==> || SettingsNote(input, text)
            || PackNote(input.builtIns, Settings(input).disabled, text)
            || ProjectNote(input, text)
            || exists dir :: dir in LocalDirs(input) && DirNote(input, dir, text)
  {
    NoteIffNoted(LoadCalls(input), text);
    SettingsNoted(input, text);
    PacksNoted(input.builtIns, Settings(input).disabled, text);
    ProjectNoted(input, text);
    DirsNoted(input, LocalDirs(input), text);
    NotedConcat(ProjectBucket(input), LocalBucket(input), text);
    NotedConcat(BuiltInBucket(input), ProjectBucket(input) + LocalBucket(input), text);
    NotedConcat(SettingsCalls(input), BuiltInBucket(input) + (ProjectBucket(input) + LocalBucket(input)), text);
  }

  // --- how an extension ends ---

  /** Every listed file is there and defines what it is listed as. */
  ghost predicate AllDefined(input: Input, m: Manifest, n: nat)
    requires n <= |m.declaratives|
  {
    forall k :: 0 <= k < n ==>
      var d := Defined(input, m.declaratives[k].1, Some(m.declaratives[k].0));
      d.Some? && d.value.declared == Some(m.declaratives[k].0)
  }

  lemma {:induction false} ListedLoadIff(input: Input, m: Manifest, n: nat)
    requires n <= |m.declaratives|
    ensures AllListedLoad(input, m, n) <==> AllDefined(input, m, n)
  {
    if n > 0 {
      ListedLoadIff(input, m, n - 1);
      FileLoadsIff(input, m.declaratives[n - 1].1, Some(m.declaratives[n - 1].0));
    }
  }

  /** How a directory ends up in the list of extensions; a disabled one is not in it at all. */
  lemma StatusExactly(input: Input, dir: Path)
    ensures StatusOf(input, dir) == Skipped
       <==> exists m :: ManifestAt(input, dir) == Some(m) && m.id in Settings(input).disabled
    ensures StatusOf(input, dir) == Refused
       <==> exists m :: ManifestAt(input, dir) == Some(m) && m.id !in Settings(input).disabled
                        && input.enforce && m.violations != []
    ensures StatusOf(input, dir) == Loaded
       <==> exists m :: ManifestAt(input, dir) == Some(m) && Runs(input, m) && AllDefined(input, m, |m.declaratives|)
                        && (m.kind == DeclarativeExt || m.entrypoint.Exports?)
  {
    if ManifestAt(input, dir).Some? {
      var m := ManifestAt(input, dir).value;
      ListedLoadIff(input, m, |m.declaratives|);
    }
  }
}
