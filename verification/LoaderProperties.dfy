/** What holds of the registry after a full load (packages/extension-runtime/src/loader.ts). */
module LoaderProperties {
  import opened Wrappers
  import opened Definitions
  import opened Contributions
  import opened Loader

  // --- where the entries come from ---

  /** The directories whose manifest may contribute. */
  ghost predicate Active(input: Input, m: Manifest) {
    && m.id !in Settings(input).disabled
    && !Blocked(input, m)
    && exists dir :: dir in LocalDirs(input) && ManifestAt(input, dir) == Some(m)
  }

  /** Who may own a contribution of each source. */
  ghost predicate Admitted(input: Input, c: Contribution) {
    && c.extensionId !in Settings(input).disabled
    && match c.source
       case BuiltIn => exists i :: 0 <= i < |input.builtIns| && input.builtIns[i].id == c.extensionId
       case Project =>
         c.extensionId == PROJECT
         || exists m: Manifest :: Active(input, m) && m.id == c.extensionId && m.kind == DeclarativeExt
       case Local => exists m: Manifest :: Active(input, m) && m.id == c.extensionId && m.kind != DeclarativeExt
       case Npm => false
       case Enterprise => false
  }

  ghost predicate AllAdmitted(input: Input, calls: seq<Call>) {
    forall i :: 0 <= i < |calls| && calls[i].Register? ==> Admitted(input, calls[i].c)
  }

  lemma {:induction false} BuiltInsAdmitted(input: Input, n: nat)
    requires n <= |input.builtIns|
    ensures AllAdmitted(input, BuiltInCalls(input.builtIns[..n], Settings(input).disabled))
  {
    if n > 0 {
      BuiltInsAdmitted(input, n - 1);
      assert input.builtIns[..n][..n - 1] == input.builtIns[..n - 1];
      var last := input.builtIns[n - 1];
      if last.id !in Settings(input).disabled {
        assert AllAdmitted(input, PackCalls(last));
      }
    }
  }

  lemma {:induction false} MissingOnlyWarns(input: Input, paths: seq<Path>, cs: seq<Candidate>)
    ensures forall i :: 0 <= i < |MissingCalls(input, paths, cs)| ==> MissingCalls(input, paths, cs)[i].Warn?
  {
    if paths != [] {
      MissingOnlyWarns(input, paths[..|paths| - 1], cs);
    }
  }

  lemma ProjectAdmitted(input: Input)
    ensures AllAdmitted(input, ProjectBucket(input))
  {
    MissingOnlyWarns(input, Settings(input).declarative, FromDirs(input, DECLARATIVE_DIRS));
  }

  lemma {:induction false} ListedAdmitted(input: Input, m: Manifest, n: nat)
    requires Active(input, m) && n <= |m.declaratives|
    ensures AllAdmitted(input, ListedCalls(input, m, n))
  {
    if n > 0 {
      ListedAdmitted(input, m, n - 1);
    }
  }

  lemma EntryAdmitted(input: Input, m: Manifest)
    requires Active(input, m)
    ensures AllAdmitted(input, EntryCalls(m))
  {
  }

  lemma DirAdmitted(input: Input, dir: Path)
    requires dir in LocalDirs(input)
    ensures AllAdmitted(input, DirCalls(input, dir))
  {
    var found := ManifestAt(input, dir);
    if found.Some? && found.value.id !in Settings(input).disabled && !Blocked(input, found.value) {
      var m := found.value;
      ListedAdmitted(input, m, |m.declaratives|);
      EntryAdmitted(input, m);
    }
  }

  lemma {:induction false} LocalAdmitted(input: Input, dirs: seq<Path>)
    requires forall dir :: dir in dirs ==> dir in LocalDirs(input)
    ensures AllAdmitted(input, LocalCalls(input, dirs))
  {
    if dirs != [] {
      LocalAdmitted(input, dirs[..|dirs| - 1]);
      DirAdmitted(input, dirs[|dirs| - 1]);
    }
  }

  lemma {:induction false} ClashesOnlyWarn(enabled: seq<string>, disabled: set<string>)
    ensures forall i :: 0 <= i < |Clashes(enabled, disabled)| ==> Clashes(enabled, disabled)[i].Warn?
  {
    if enabled != [] {
      ClashesOnlyWarn(enabled[..|enabled| - 1], disabled);
    }
  }

  lemma LoadAdmitted(input: Input)
    ensures AllAdmitted(input, LoadCalls(input))
  {
    ClashesOnlyWarn(Settings(input).enabled, Settings(input).disabled);
    assert AllAdmitted(input, SettingsCalls(input));
    assert input.builtIns[..|input.builtIns|] == input.builtIns;
    BuiltInsAdmitted(input, |input.builtIns|);
    ProjectAdmitted(input);
    LocalAdmitted(input, LocalDirs(input));
  }

  lemma {:induction false} EntryFromCall(calls: seq<Call>, key: Key) returns (i: nat)
    requires key in Run(calls).table
    ensures i < |calls| && calls[i].Register? && KeyOf(calls[i].c) == key
    ensures Normalize(calls[i].c) == Some(Run(calls).table[key])
  {
    var n := |calls| - 1;
    var front := Run(calls[..n]);
    if calls[n].Register? && Normalize(calls[n].c).Some? && KeyOf(calls[n].c) == key
       && Run(calls).table[key] == Normalize(calls[n].c).value {
      return n;
    }
    i := EntryFromCall(calls[..n], key);
  }

  /** After a load, every entry belongs to an extension that is present, enabled and not blocked. */
  lemma EveryEntryAdmitted(input: Input, key: Key)
    requires key in Run(LoadCalls(input)).table
    ensures Admitted(input, Run(LoadCalls(input)).table[key])
  {
    LoadAdmitted(input);
    var i := EntryFromCall(LoadCalls(input), key);
    NormalizeKeeps(LoadCalls(input)[i].c);
  }

  // --- project definitions beat built-in ones ---

  lemma {:induction false} FirstOfSome(calls: seq<Call>, i: nat)
    requires i < |calls| && calls[i].Register? && Normalize(calls[i].c).Some?
    ensures FirstOf(calls, KeyOf(calls[i].c), calls[i].c.source).Some?
  {
    var n := |calls| - 1;
    if i < n {
      assert calls[..n][i] == calls[i];
      FirstOfSome(calls[..n], i);
    }
  }

  /**
   Every accepted contribution of source `Project`, from a project file or a declarative manifest, decides its entry
   unless another one of that source or a local extension does; a built-in never does.
   */
  lemma ProjectBeatsBuiltIn(input: Input, at: nat)
    requires at < |LoadCalls(input)| && LoadCalls(input)[at].Register?
    requires LoadCalls(input)[at].c.source == Project && Normalize(LoadCalls(input)[at].c).Some?
    ensures var key, table := KeyOf(LoadCalls(input)[at].c), Run(LoadCalls(input)).table;
            key in table && (table[key].source == Project || table[key].source == Local)
  {
    var key := KeyOf(LoadCalls(input)[at].c);
    AcceptedOrHigher(LoadCalls(input), at);
    EveryEntryAdmitted(input, key);
  }

  /** An accepted contribution is never hidden by one of a lower-ranked source. */
  lemma AcceptedOrHigher(calls: seq<Call>, at: nat)
    requires at < |calls| && calls[at].Register? && Normalize(calls[at].c).Some?
    ensures var key, table := KeyOf(calls[at].c), Run(calls).table;
            key in table && Rank(table[key].source) >= Rank(calls[at].c.source)
  {
    var key := KeyOf(calls[at].c);
    FirstOfSome(calls, at);
    WinnerRanksHighest(calls, key, calls[at].c.source);
    EntryIsWinner(calls, key);
    assert Entry(Run(calls), key).Some?;
  }

  /** A project file that loads is not hidden by a built-in. */
  lemma FileBeatsBuiltIn(input: Input, i: nat)
    requires PROJECT !in Settings(input).disabled && i < |Candidates(input)|
    requires LoadFile(input, Candidates(input)[i].path, Candidates(input)[i].expected).Some?
    ensures var d := LoadFile(input, Candidates(input)[i].path, Candidates(input)[i].expected).value;
            var key, table := Key(Declarative(d.declared.value), d.id), Run(LoadCalls(input)).table;
            key in table && (table[key].source == Project || table[key].source == Local)
  {
    var at := FileCallPosition(input, i);
    LoadedAccepted(input, Candidates(input)[i]);
    ProjectBeatsBuiltIn(input, at);
  }

  /** A file that a manifest lists loads and defines what it is listed as. */
  predicate ListedLoads(input: Input, m: Manifest, k: nat)
    requires k < |m.declaratives|
  {
    match LoadFile(input, m.declaratives[k].1, Some(m.declaratives[k].0))
    case None => false
    case Some(d) => d.declared == Some(m.declaratives[k].0)
  }

  /** Neither is a file that loads and that an active manifest lists; only a local extension hides one without code. */
  lemma ListedBeatsBuiltIn(input: Input, m: Manifest, k: nat)
    requires Active(input, m) && k < |m.declaratives| && ListedLoads(input, m, k)
    ensures var d := LoadFile(input, m.declaratives[k].1, Some(m.declaratives[k].0)).value;
            var key, table := Key(Declarative(m.declaratives[k].0), d.id), Run(LoadCalls(input)).table;
            key in table && (table[key].source == Local || (m.kind == DeclarativeExt && table[key].source == Project))
  {
    var at := ListedCallPosition(input, m, k);
    var c := ListedContribution(input, m, k);
    AcceptedOrHigher(LoadCalls(input), at);
    EveryEntryAdmitted(input, KeyOf(c));
  }

  function ListedContribution(input: Input, m: Manifest, k: nat): Contribution
    requires k < |m.declaratives| && ListedLoads(input, m, k)
  {
    var (kind, path) := m.declaratives[k];
    var d := LoadFile(input, path, Some(kind)).value;
    Contribution(Declarative(kind), d.id, m.id, SourceOf(m), Some(d), None)
  }

  lemma ListedIsCalled(input: Input, m: Manifest, k: nat)
    requires k < |m.declaratives| && ListedLoads(input, m, k)
    ensures ListedCall(input, m, k) == [Register(ListedContribution(input, m, k))]
    ensures Normalize(ListedContribution(input, m, k)) == Some(ListedContribution(input, m, k))
  {
  }

  lemma {:induction false} ListedPosition(input: Input, m: Manifest, k: nat, n: nat) returns (at: nat)
    requires k < n <= |m.declaratives| && |ListedCall(input, m, k)| == 1
    ensures at < |ListedCalls(input, m, n)| && ListedCalls(input, m, n)[at] == ListedCall(input, m, k)[0]
  {
    if k == n - 1 {
      at := |ListedCalls(input, m, n - 1)|;
    } else {
      at := ListedPosition(input, m, k, n - 1);
    }
  }

  lemma {:induction false} DirPosition(input: Input, dirs: seq<Path>, dir: Path, inDir: nat) returns (at: nat)
    requires dir in dirs && inDir < |DirCalls(input, dir)|
    ensures at < |LocalCalls(input, dirs)| && LocalCalls(input, dirs)[at] == DirCalls(input, dir)[inDir]
  {
    var n := |dirs| - 1;
    if dirs[n] == dir {
      at := |LocalCalls(input, dirs[..n])| + inDir;
    } else {
      at := DirPosition(input, dirs[..n], dir, inDir);
    }
  }

  lemma ListedCallPosition(input: Input, m: Manifest, k: nat) returns (at: nat)
    requires Active(input, m) && k < |m.declaratives| && ListedLoads(input, m, k)
    ensures at < |LoadCalls(input)| && LoadCalls(input)[at] == Register(ListedContribution(input, m, k))
    ensures Normalize(ListedContribution(input, m, k)) == Some(ListedContribution(input, m, k))
  {
    ListedIsCalled(input, m, k);
    var inManifest := ListedPosition(input, m, k, |m.declaratives|);
    var dir :| dir in LocalDirs(input) && ManifestAt(input, dir) == Some(m);
    assert DirCalls(input, dir)[inManifest] == Register(ListedContribution(input, m, k));
    var inBucket := DirPosition(input, LocalDirs(input), dir, inManifest);
    at := |SettingsCalls(input)| + |BuiltInBucket(input)| + |ProjectBucket(input)| + inBucket;
  }

  /** The registry's own parse of what the loader parsed succeeds and changes nothing. */
  lemma LoadedAccepted(input: Input, c: Candidate)
    ensures FileCall(input, c).Register? ==> Normalize(FileCall(input, c).c) == Some(FileCall(input, c).c)
  {
  }

  lemma FileCallPosition(input: Input, i: nat) returns (at: nat)
    requires PROJECT !in Settings(input).disabled && i < |Candidates(input)|
    ensures at < |LoadCalls(input)| && LoadCalls(input)[at] == FileCall(input, Candidates(input)[i])
  {
    var missing := MissingCalls(input, Settings(input).declarative, FromDirs(input, DECLARATIVE_DIRS));
    var inBucket := |missing| + i;
    assert ProjectBucket(input)[inBucket] == FileCall(input, Candidates(input)[i]);
    at := |SettingsCalls(input)| + |BuiltInBucket(input)| + inBucket;
  }

  // --- the order of the buckets ---

  lemma {:induction false} OnlyConcat(a: seq<Call>, b: seq<Call>, source: Source)
    ensures Only(a + b, source) == Only(a, source) + Only(b, source)
  {
    if b == [] {
      assert a + b == a;
    } else {
      var front := b[..|b| - 1];
      OnlyConcat(a, front, source);
      assert (a + b)[..|a + b| - 1] == a + front;
    }
  }

  lemma {:induction false} OnlyNone(calls: seq<Call>, source: Source)
    requires forall i :: 0 <= i < |calls| ==> calls[i].Register? ==> calls[i].c.source != source
    ensures Only(calls, source) == []
  {
    if calls != [] {
      OnlyNone(calls[..|calls| - 1], source);
    }
  }

  predicate AllOf(calls: seq<Call>, source: Source) {
    forall i :: 0 <= i < |calls| ==> calls[i].Register? ==> calls[i].c.source == source
  }

  lemma {:induction false} BuiltInsAreBuiltIn(packs: seq<Pack>, disabled: set<string>)
    ensures AllOf(BuiltInCalls(packs, disabled), BuiltIn)
  {
    if packs != [] {
      BuiltInsAreBuiltIn(packs[..|packs| - 1], disabled);
    }
  }

  predicate NoBuiltIns(calls: seq<Call>) {
    forall i :: 0 <= i < |calls| ==> calls[i].Register? ==> calls[i].c.source != BuiltIn
  }

  lemma {:induction false} ListedNotBuiltIn(input: Input, m: Manifest, n: nat)
    requires n <= |m.declaratives|
    ensures NoBuiltIns(ListedCalls(input, m, n))
  {
    if n > 0 {
      ListedNotBuiltIn(input, m, n - 1);
    }
  }

  lemma {:induction false} LocalsNotBuiltIn(input: Input, dirs: seq<Path>)
    ensures NoBuiltIns(LocalCalls(input, dirs))
  {
    if dirs != [] {
      LocalsNotBuiltIn(input, dirs[..|dirs| - 1]);
      DirNotBuiltIn(input, dirs[|dirs| - 1]);
    }
  }

  lemma DirNotBuiltIn(input: Input, dir: Path)
    ensures NoBuiltIns(DirCalls(input, dir))
  {
    var found := ManifestAt(input, dir);
    if found.Some? {
      ListedNotBuiltIn(input, found.value, |found.value.declaratives|);
      EntryNotBuiltIn(found.value);
    }
  }

  lemma EntryNotBuiltIn(m: Manifest)
    ensures NoBuiltIns(EntryCalls(m))
  {
  }

  lemma RestNotBuiltIn(input: Input)
    ensures NoBuiltIns(ProjectBucket(input) + LocalBucket(input))
  {
    ProjectNotBuiltIn(input);
    LocalsNotBuiltIn(input, LocalDirs(input));
    NoBuiltInsConcat(ProjectBucket(input), LocalBucket(input));
  }

  lemma ProjectNotBuiltIn(input: Input)
    ensures NoBuiltIns(ProjectBucket(input))
  {
    MissingOnlyWarns(input, Settings(input).declarative, FromDirs(input, DECLARATIVE_DIRS));
  }

  lemma NoBuiltInsConcat(a: seq<Call>, b: seq<Call>)
    requires NoBuiltIns(a) && NoBuiltIns(b)
    ensures NoBuiltIns(a + b)
  {
  }

  lemma SwapBuckets(a: seq<Call>, b: seq<Call>, source: Source)
    requires AllOf(a, BuiltIn) && NoBuiltIns(b)
    ensures Only(a + b, source) == Only(b + a, source)
  {
    OnlyConcat(a, b, source);
    OnlyConcat(b, a, source);
    if source == BuiltIn {
      OnlyNone(b, source);
    } else {
      OnlyNone(a, source);
    }
  }

  /** Loading the built-in packs last instead of first gives the same table. */
  lemma BuiltInsMayComeLast(input: Input)
    ensures Run(LoadCalls(input)).table
         == Run(SettingsCalls(input) + (ProjectBucket(input) + LocalBucket(input) + BuiltInBucket(input))).table
  {
    var head, packs, rest := SettingsCalls(input), BuiltInBucket(input), ProjectBucket(input) + LocalBucket(input);
    BuiltInsAreBuiltIn(input.builtIns, Settings(input).disabled);
    RestNotBuiltIn(input);
    forall source: Source
      ensures Only(head + (packs + rest), source) == Only(head + (rest + packs), source)
    {
      SwapBuckets(packs, rest, source);
      OnlyConcat(head, packs + rest, source);
      OnlyConcat(head, rest + packs, source);
    }
    InterleavingIrrelevant(head + (packs + rest), head + (rest + packs));
  }

  // --- each file and directory once ---

  predicate DistinctPaths(cs: seq<Candidate>) {
    forall i, j :: 0 <= i < j < |cs| ==> cs[i].path != cs[j].path
  }

  lemma {:induction false} ListingDistinct(input: Input, kind: DeclKind, names: seq<string>, cs: seq<Candidate>)
    requires DistinctPaths(cs)
    ensures DistinctPaths(FromListing(input, kind, names, cs))
  {
    if names != [] {
      ListingDistinct(input, kind, names[..|names| - 1], cs);
    }
  }

  lemma {:induction false} DirsDistinct(input: Input, kinds: seq<DeclKind>)
    ensures DistinctPaths(FromDirs(input, kinds))
  {
    if kinds != [] {
      DirsDistinct(input, kinds[..|kinds| - 1]);
      var kind := kinds[|kinds| - 1];
      ListingDistinct(input, kind, Listing(input, kind), FromDirs(input, kinds[..|kinds| - 1]));
    }
  }

  lemma {:induction false} DeclaredDistinct(input: Input, paths: seq<Path>, cs: seq<Candidate>)
    requires DistinctPaths(cs)
    ensures DistinctPaths(FromDeclared(input, paths, cs))
  {
    if paths != [] {
      DeclaredDistinct(input, paths[..|paths| - 1], cs);
    }
  }

  /** A project file is loaded once however often it is listed. */
  lemma CandidatesDistinct(input: Input)
    ensures DistinctPaths(Candidates(input))
  {
    DirsDistinct(input, DECLARATIVE_DIRS);
    DeclaredDistinct(input, Settings(input).declarative, FromDirs(input, DECLARATIVE_DIRS));
  }

  lemma {:induction false} ListingFound(
    input: Input, kind: DeclKind, names: seq<string>, cs: seq<Candidate>, path: Path)
    ensures HasPath(FromListing(input, kind, names, cs), path)
       <==> || HasPath(cs, path)
            || exists k :: 0 <= k < |names| && Takes(kind, names[k]) && FilePath(input, kind, names[k]) == path
  {
    if names != [] {
      var n := |names| - 1;
      var front := names[..n];
      ListingFound(input, kind, front, cs, path);
      assert forall k :: 0 <= k < n ==> front[k] == names[k];
      if Takes(kind, names[n]) {
        PushFound(FromListing(input, kind, front, cs), Candidate(FilePath(input, kind, names[n]), Some(kind)), path);
      }
    }
  }

  lemma PushFound(cs: seq<Candidate>, c: Candidate, path: Path)
    ensures HasPath(PushCandidate(cs, c), path) <==> HasPath(cs, path) || c.path == path
  {
    var r := PushCandidate(cs, c);
    if HasPath(cs, path) {
      var i :| 0 <= i < |cs| && cs[i].path == path;
      assert r[i].path == path;
    }
    if r != cs {
      assert r[|cs|].path == c.path;
    }
  }

  lemma {:induction false} DeclaredFound(input: Input, paths: seq<Path>, cs: seq<Candidate>, path: Path)
    ensures HasPath(FromDeclared(input, paths, cs), path)
       <==> HasPath(cs, path) || (path in paths && path in input.files)
  {
    if paths != [] {
      var n := |paths| - 1;
      DeclaredFound(input, paths[..n], cs, path);
      assert paths == paths[..n] + [paths[n]];
      PushFound(FromDeclared(input, paths[..n], cs), DeclaredCandidate(paths[n]), path);
    }
  }

  lemma {:induction false} DirsFound(input: Input, kinds: seq<DeclKind>, path: Path)
    ensures HasPath(FromDirs(input, kinds), path)
       <==> exists kind :: kind in kinds && InDir(input, kind, path)
  {
    if kinds != [] {
      var n := |kinds| - 1;
      DirsFound(input, kinds[..n], path);
      assert kinds == kinds[..n] + [kinds[n]];
      ListingFound(input, kinds[n], Listing(input, kinds[n]), FromDirs(input, kinds[..n]), path);
      if InDir(input, kinds[n], path) {
        assert kinds[n] in kinds;
      }
    }
  }

  /** A path of a definition file in the directory for a kind. */
  ghost predicate InDir(input: Input, kind: DeclKind, path: Path) {
    exists k :: 0 <= k < |Listing(input, kind)| && Takes(kind, Listing(input, kind)[k])
             && FilePath(input, kind, Listing(input, kind)[k]) == path
  }

  lemma AllKinds(kind: DeclKind)
    ensures kind in DECLARATIVE_DIRS
  {
    match kind
    case Methodology => assert DECLARATIVE_DIRS[0] == kind;
    case Workflow => assert DECLARATIVE_DIRS[1] == kind;
    case QuestionPack => assert DECLARATIVE_DIRS[2] == kind;
    case PromptTemplate => assert DECLARATIVE_DIRS[3] == kind;
    case ArtifactTemplate => assert DECLARATIVE_DIRS[4] == kind;
    case PolicyPreset => assert DECLARATIVE_DIRS[5] == kind;
    case ModelRouting => assert DECLARATIVE_DIRS[6] == kind;
    case ReportTemplate => assert DECLARATIVE_DIRS[7] == kind;
    case RoleDefinition => assert DECLARATIVE_DIRS[8] == kind;
    case CommandMapping => assert DECLARATIVE_DIRS[9] == kind;
  }

  /** The project files are the definition files of the ten directories and the declared files that exist. */
  lemma CandidatesExactly(input: Input, path: Path)
    ensures HasPath(Candidates(input), path)
       <==> (exists kind :: InDir(input, kind, path)) || (path in Settings(input).declarative && path in input.files)
  {
    DeclaredFound(input, Settings(input).declarative, FromDirs(input, DECLARATIVE_DIRS), path);
    DirsFound(input, DECLARATIVE_DIRS, path);
    forall kind | InDir(input, kind, path)
      ensures kind in DECLARATIVE_DIRS
    {
      AllKinds(kind);
    }
  }
}
