/** Loading as the program does it, filling the shared registry in place (packages/extension-runtime/src/loader.ts). */
module LoaderRun {
  import opened Wrappers
  import opened Seqs
  import opened Definitions
  import opened Contributions
  import opened Loader

  function RunFrom(r: Registry, calls: seq<Call>): Registry {
    if calls == [] then r else Step(RunFrom(r, calls[..|calls| - 1]), calls[|calls| - 1])
  }

  lemma RunFromOne(r: Registry, calls: seq<Call>, call: Call)
    ensures RunFrom(r, calls + [call]) == Step(RunFrom(r, calls), call)
  {
    assert (calls + [call])[..|calls|] == calls;
  }

  lemma {:induction false} RunFromConcat(r: Registry, a: seq<Call>, b: seq<Call>)
    ensures RunFrom(r, a + b) == RunFrom(RunFrom(r, a), b)
  {
    if b == [] {
      assert a + b == a;
    } else {
      var front := b[..|b| - 1];
      RunFromConcat(r, a, front);
      RunFromOne(r, a + front, b[|b| - 1]);
      assert a + b == a + front + [b[|b| - 1]];
    }
  }

  lemma {:induction false} RunIsRunFrom(calls: seq<Call>)
    ensures RunFrom(Registry(map[], []), calls) == Run(calls)
  {
    if calls != [] {
      RunIsRunFrom(calls[..|calls| - 1]);
    }
  }

  /** One call on the registry object. */
  method Issue(reg: ContributionRegistry, call: Call)
    requires reg.Valid()
    modifies reg
    ensures reg.Valid() && reg.Model() == Step(old(reg.Model()), call)
  {
    match call
    case Warn(text) => reg.AddWarning(Note(text));
    case Register(c) => reg.Register(c);
  }

  /** The calls of a list, one after the other. */
  method IssueAll(reg: ContributionRegistry, calls: seq<Call>)
    requires reg.Valid()
    modifies reg
    ensures reg.Valid() && reg.Model() == RunFrom(old(reg.Model()), calls)
  {
    ghost var start := reg.Model();
    for i := 0 to |calls|
      invariant reg.Valid() && reg.Model() == RunFrom(start, calls[..i])
    {
      Issue(reg, calls[i]);
      RunFromOne(start, calls[..i], calls[i]);
      assert calls[..i] + [calls[i]] == calls[..i + 1];
    }
    assert calls[..|calls|] == calls;
  }

  method LoadBuiltIns(reg: ContributionRegistry, packs: seq<Pack>, disabled: set<string>)
    requires reg.Valid()
    modifies reg
    ensures reg.Valid() && reg.Model() == RunFrom(old(reg.Model()), BuiltInCalls(packs, disabled))
  {
    ghost var start := reg.Model();
    for i := 0 to |packs|
      invariant reg.Valid() && reg.Model() == RunFrom(start, BuiltInCalls(packs[..i], disabled))
    {
      assert packs[..i + 1][..i] == packs[..i];
      ghost var before := BuiltInCalls(packs[..i], disabled);
      if packs[i].id in disabled {
        assert before + [] == before;
        continue;
      }
      IssueAll(reg, PackCalls(packs[i]));
      RunFromConcat(start, before, PackCalls(packs[i]));
    }
    assert packs[..|packs|] == packs;
  }

  ghost predicate SeenIs(seen: set<Path>, cs: seq<Candidate>) {
    forall p :: p in seen <==> HasPath(cs, p)
  }

  lemma SeenPush(seen: set<Path>, cs: seq<Candidate>, c: Candidate)
    requires SeenIs(seen, cs)
    ensures SeenIs(seen + {c.path}, PushCandidate(cs, c))
  {
    var r := PushCandidate(cs, c);
    forall p
      ensures p in seen + {c.path} <==> HasPath(r, p)
    {
      if p == c.path && !HasPath(cs, p) {
        assert r[|cs|].path == p;
      }
      if HasPath(cs, p) {
        var i :| 0 <= i < |cs| && cs[i].path == p;
        assert r[i].path == p;
      }
      if HasPath(r, p) && p != c.path {
        var i :| 0 <= i < |r| && r[i].path == p;
        assert cs[i].path == p;
      }
    }
  }

  /** `pushCandidate`. */
  method Push(seen: set<Path>, cs: seq<Candidate>, c: Candidate) returns (seen': set<Path>, cs': seq<Candidate>)
    requires SeenIs(seen, cs)
    ensures cs' == PushCandidate(cs, c) && SeenIs(seen', cs')
  {
    SeenPush(seen, cs, c);
    if c.path in seen {
      assert seen + {c.path} == seen;
      return seen, cs;
    }
    return seen + {c.path}, cs + [c];
  }

  method ScanDir(input: Input, kind: DeclKind, seen0: set<Path>, cs0: seq<Candidate>)
    returns (seen: set<Path>, cs: seq<Candidate>)
    requires SeenIs(seen0, cs0)
    ensures SeenIs(seen, cs) && cs == FromListing(input, kind, Listing(input, kind), cs0)
  {
    var names := Listing(input, kind);
    seen, cs := seen0, cs0;
    for i := 0 to |names|
      invariant SeenIs(seen, cs) && cs == FromListing(input, kind, names[..i], cs0)
    {
      assert names[..i + 1][..i] == names[..i];
      if Takes(kind, names[i]) {
        seen, cs := Push(seen, cs, Candidate(FilePath(input, kind, names[i]), Some(kind)));
      }
    }
    assert names[..|names|] == names;
  }

  method ScanDirs(input: Input) returns (seen: set<Path>, cs: seq<Candidate>)
    ensures SeenIs(seen, cs) && cs == FromDirs(input, DECLARATIVE_DIRS)
  {
    var kinds := DECLARATIVE_DIRS;
    seen, cs := {}, [];
    for i := 0 to |kinds|
      invariant SeenIs(seen, cs) && cs == FromDirs(input, kinds[..i])
    {
      assert kinds[..i + 1][..i] == kinds[..i];
      seen, cs := ScanDir(input, kinds[i], seen, cs);
    }
    assert kinds[..|kinds|] == kinds;
  }

  method AddDeclared(reg: ContributionRegistry, input: Input, seen0: set<Path>, cs0: seq<Candidate>)
    returns (cs: seq<Candidate>)
    requires reg.Valid() && SeenIs(seen0, cs0)
    modifies reg
    ensures cs == FromDeclared(input, Settings(input).declarative, cs0)
    ensures reg.Valid()
    ensures reg.Model() == RunFrom(old(reg.Model()), MissingCalls(input, Settings(input).declarative, cs0))
  {
    ghost var start := reg.Model();
    var paths := Settings(input).declarative;
    var seen := seen0;
    cs := cs0;
    for i := 0 to |paths|
      invariant SeenIs(seen, cs) && cs == FromDeclared(input, paths[..i], cs0)
      invariant reg.Valid() && reg.Model() == RunFrom(start, MissingCalls(input, paths[..i], cs0))
    {
      assert paths[..i + 1][..i] == paths[..i];
      ghost var before := MissingCalls(input, paths[..i], cs0);
      assert before + [] == before;
      if paths[i] in seen {
        continue;
      }
      if paths[i] !in input.files {
        reg.AddWarning(Note(Named(paths[i])));
        RunFromOne(start, before, Warn(Named(paths[i])));
        continue;
      }
      seen, cs := Push(seen, cs, DeclaredCandidate(paths[i]));
    }
    assert paths[..|paths|] == paths;
  }

  method LoadCandidate(reg: ContributionRegistry, input: Input, c: Candidate)
    requires reg.Valid()
    modifies reg
    ensures reg.Valid() && reg.Model() == Step(old(reg.Model()), FileCall(input, c))
  {
    match LoadFile(input, c.path, c.expected)
    case None => reg.AddWarning(Note(Named(c.path)));
    case Some(d) =>
      reg.Register(Contribution(Declarative(d.declared.value), d.id, PROJECT, Project, Some(d), None));
  }

  method LoadCandidates(reg: ContributionRegistry, input: Input, cs: seq<Candidate>)
    requires reg.Valid()
    modifies reg
    ensures reg.Valid() && reg.Model() == RunFrom(old(reg.Model()), ProjectCalls(input, cs))
  {
    ghost var start := reg.Model();
    ghost var calls := ProjectCalls(input, cs);
    for i := 0 to |cs|
      invariant reg.Valid() && reg.Model() == RunFrom(start, calls[..i])
    {
      LoadCandidate(reg, input, cs[i]);
      RunFromOne(start, calls[..i], calls[i]);
      assert calls[..i] + [calls[i]] == calls[..i + 1];
    }
    assert calls[..|calls|] == calls;
  }

  method LoadProjectDeclaratives(reg: ContributionRegistry, input: Input)
    requires reg.Valid()
    modifies reg
    ensures reg.Valid() && reg.Model() == RunFrom(old(reg.Model()), ProjectBucket(input))
  {
    if PROJECT in Settings(input).disabled {
      return;
    }
    var seen, cs := ScanDirs(input);
    ghost var missing := MissingCalls(input, Settings(input).declarative, cs);
    RunFromConcat(reg.Model(), missing, ProjectCalls(input, Candidates(input)));
    cs := AddDeclared(reg, input, seen, cs);
    if |cs| == 0 {
      return;
    }
    LoadCandidates(reg, input, cs);
  }

  datatype Status = Skipped | Refused | Broken | Loaded

  predicate AllListedLoad(input: Input, m: Manifest, n: nat)
    requires n <= |m.declaratives|
  {
    n == 0 || (AllListedLoad(input, m, n - 1) && ListedCall(input, m, n - 1) != [])
  }

  method LoadListedFile(reg: ContributionRegistry, input: Input, m: Manifest, k: nat) returns (ok: bool)
    requires reg.Valid() && k < |m.declaratives|
    modifies reg
    ensures reg.Valid() && reg.Model() == RunFrom(old(reg.Model()), ListedCall(input, m, k))
    ensures ok <==> ListedCall(input, m, k) != []
  {
    var (kind, path) := m.declaratives[k];
    var loaded := LoadFile(input, path, Some(kind));
    if loaded.None? || loaded.value.declared != Some(kind) {
      return false;
    }
    var c := Contribution(Declarative(kind), loaded.value.id, m.id, SourceOf(m), loaded, None);
    RunFromOne(reg.Model(), [], Register(c));
    assert [] + [Register(c)] == [Register(c)];
    reg.Register(c);
    return true;
  }

  lemma ListedNext(r: Registry, input: Input, m: Manifest, k: nat)
    requires k < |m.declaratives|
    ensures RunFrom(r, ListedCalls(input, m, k + 1))
         == RunFrom(RunFrom(r, ListedCalls(input, m, k)), ListedCall(input, m, k))
  {
    RunFromConcat(r, ListedCalls(input, m, k), ListedCall(input, m, k));
  }

  /** The registry has what the first `k` listed files give, and some of them were counted as errors or none. */
  ghost predicate ListedSoFar(start: Registry, r: Registry, input: Input, m: Manifest, k: nat, errors: nat)
    requires k <= |m.declaratives|
  {
    r == RunFrom(start, ListedCalls(input, m, k)) && (errors == 0 <==> AllListedLoad(input, m, k))
  }

  lemma NothingListed(r: Registry, input: Input, m: Manifest)
    ensures ListedSoFar(r, r, input, m, 0, 0)
  {
  }

  method LoadNextFile(
    reg: ContributionRegistry, ghost start: Registry, input: Input, m: Manifest, k: nat, before: nat)
    returns (errors: nat)
    requires reg.Valid() && k < |m.declaratives| && ListedSoFar(start, reg.Model(), input, m, k, before)
    modifies reg
    ensures reg.Valid() && ListedSoFar(start, reg.Model(), input, m, k + 1, errors)
  {
    ListedNext(start, input, m, k);
    var ok := LoadListedFile(reg, input, m, k);
    errors := if ok then before else before + 1;
  }

  method LoadListed(reg: ContributionRegistry, input: Input, m: Manifest) returns (errors: nat)
    requires reg.Valid()
    modifies reg
    ensures reg.Valid() && ListedSoFar(old(reg.Model()), reg.Model(), input, m, |m.declaratives|, errors)
  {
    ghost var start := reg.Model();
    errors := 0;
    NothingListed(start, input, m);
    for k := 0 to |m.declaratives|
      invariant reg.Valid() && ListedSoFar(start, reg.Model(), input, m, k, errors)
    {
      errors := LoadNextFile(reg, start, input, m, k, errors);
    }
  }

  method LoadEntrypoint(reg: ContributionRegistry, m: Manifest) returns (errors: nat)
    requires reg.Valid()
    modifies reg
    ensures reg.Valid() && reg.Model() == RunFrom(old(reg.Model()), EntryCalls(m))
    ensures errors == 0 <==> m.kind == DeclarativeExt || m.entrypoint.Exports?
  {
    errors := 0;
    if m.kind == DeclarativeExt {
      return;
    }
    if !m.entrypoint.Exports? {
      return 1;
    }
    ghost var start := reg.Model();
    ghost var head: seq<Call> := if m.entrypoint.id != m.id then [Warn(m.id)] else [];
    var calls := seq(|m.names|, i requires 0 <= i < |m.names| =>
      Register(NameEntry(m, m.names[i], m.entrypoint.value)));
    if m.entrypoint.id != m.id {
      reg.AddWarning(Note(m.id));
      RunFromOne(start, [], Warn(m.id));
      assert [] + [Warn(m.id)] == [Warn(m.id)];
    }
    IssueAll(reg, calls);
    RunFromConcat(start, head, calls);
  }

  /** How an extension directory ends up in the list of extensions. */
  function StatusOf(input: Input, dir: Path): Status {
    match ManifestAt(input, dir)
    case None => Broken
    case Some(m) =>
      if m.id in Settings(input).disabled then Skipped
      else if Blocked(input, m) then Refused
      else if AllListedLoad(input, m, |m.declaratives|) && (m.kind == DeclarativeExt || m.entrypoint.Exports?)
      then Loaded
      else Broken
  }

  method LoadLocalExtension(reg: ContributionRegistry, input: Input, dir: Path) returns (status: Status)
    requires reg.Valid()
    modifies reg
    ensures reg.Valid() && reg.Model() == RunFrom(old(reg.Model()), DirCalls(input, dir))
    ensures status == StatusOf(input, dir)
  {
    var found := ManifestAt(input, dir);
    if found.None? {
      return Broken;
    }
    if found.value.id in Settings(input).disabled {
      return Skipped;
    }
    var m := found.value;
    ghost var start := reg.Model();
    if Blocked(input, m) {
      reg.AddWarning(Note(m.id));
      RunFromOne(start, [], Warn(m.id));
      assert [] + [Warn(m.id)] == [Warn(m.id)];
      return Refused;
    }
    ghost var listed := ListedCalls(input, m, |m.declaratives|);
    RunFromConcat(start, listed, EntryCalls(m));
    RunFromConcat(start, listed + EntryCalls(m), Warns(m.permissionWarnings));
    var errors := LoadListed(reg, input, m);
    var more := LoadEntrypoint(reg, m);
    IssueAll(reg, Warns(m.permissionWarnings));
    status := if errors + more > 0 then Broken else Loaded;
  }

  ghost predicate DirsSeen(seen: set<Path>, dirs: seq<Path>) {
    forall p :: p in seen <==> p in dirs
  }

  /** `pushDir`. */
  method NewDir(seen: set<Path>, dirs: seq<Path>, dir: Path) returns (seen': set<Path>, dirs': seq<Path>)
    requires DirsSeen(seen, dirs)
    ensures dirs' == PushDir(dirs, dir) && DirsSeen(seen', dirs')
  {
    if dir in seen {
      return seen, dirs;
    }
    return seen + {dir}, dirs + [dir];
  }

  method FindDirs(input: Input) returns (dirs: seq<Path>)
    ensures dirs == LocalDirs(input)
  {
    var entries, names := Settings(input).local, input.extensionDirs;
    var seen: set<Path> := {};
    dirs := [];
    for i := 0 to |entries|
      invariant DirsSeen(seen, dirs) && dirs == FromLocal(input, entries[..i])
    {
      assert entries[..i + 1][..i] == entries[..i];
      seen, dirs := NewDir(seen, dirs, Chosen(input, entries[i]));
    }
    assert entries[..|entries|] == entries;
    var configured := dirs;
    for i := 0 to |names|
      invariant DirsSeen(seen, dirs) && dirs == FromExtensions(input, names[..i], configured)
    {
      assert names[..i + 1][..i] == names[..i];
      if ExtensionPath(input, names[i]) in input.manifests {
        seen, dirs := NewDir(seen, dirs, ExtensionPath(input, names[i]));
      }
    }
    assert names[..|names|] == names;
  }

  method LoadLocalExtensions(reg: ContributionRegistry, input: Input) returns (statuses: seq<Status>)
    requires reg.Valid()
    modifies reg
    ensures reg.Valid() && reg.Model() == RunFrom(old(reg.Model()), LocalBucket(input))
    ensures |statuses| == |LocalDirs(input)|
    ensures forall i :: 0 <= i < |statuses| ==> statuses[i] == StatusOf(input, LocalDirs(input)[i])
  {
    statuses := [];
    ghost var start := reg.Model();
    var dirs := FindDirs(input);
    NoneLoaded(start, input, dirs);
    for i := 0 to |dirs|
      invariant reg.Valid() && LoadedSoFar(start, reg.Model(), input, dirs, i, statuses)
    {
      statuses := LoadNextExtension(reg, start, input, dirs, i, statuses);
    }
    AllLoaded(start, reg.Model(), input, dirs, statuses);
  }

  /** The registry has what the first `i` directories give, and each has its status. */
  ghost predicate LoadedSoFar(
    start: Registry, r: Registry, input: Input, dirs: seq<Path>, i: nat, statuses: seq<Status>)
    requires i <= |dirs|
  {
    r == RunFrom(start, LocalCalls(input, dirs[..i])) && HaveStatus(input, dirs, i, statuses)
  }

  predicate HaveStatus(input: Input, dirs: seq<Path>, i: nat, statuses: seq<Status>)
    requires i <= |dirs|
  {
    |statuses| == i && forall j :: 0 <= j < i ==> statuses[j] == StatusOf(input, dirs[j])
  }

  lemma OneMoreStatus(input: Input, dirs: seq<Path>, i: nat, before: seq<Status>, status: Status)
    requires i < |dirs| && HaveStatus(input, dirs, i, before) && status == StatusOf(input, dirs[i])
    ensures HaveStatus(input, dirs, i + 1, before + [status])
  {
  }

  lemma NoneLoaded(r: Registry, input: Input, dirs: seq<Path>)
    ensures LoadedSoFar(r, r, input, dirs, 0, [])
  {
    CutWhole(dirs);
  }

  lemma AllLoaded(start: Registry, r: Registry, input: Input, dirs: seq<Path>, statuses: seq<Status>)
    requires LoadedSoFar(start, r, input, dirs, |dirs|, statuses)
    ensures r == RunFrom(start, LocalCalls(input, dirs))
  {
    CutWhole(dirs);
  }

  method LoadNextExtension(
    reg: ContributionRegistry, ghost start: Registry, input: Input, dirs: seq<Path>, i: nat, before: seq<Status>)
    returns (statuses: seq<Status>)
    requires reg.Valid() && i < |dirs| && LoadedSoFar(start, reg.Model(), input, dirs, i, before)
    modifies reg
    ensures reg.Valid() && LoadedSoFar(start, reg.Model(), input, dirs, i + 1, statuses)
  {
    ghost var r := reg.Model();
    var status := LoadLocalExtension(reg, input, dirs[i]);
    statuses := before + [status];
    OneMoreLoaded(start, r, reg.Model(), input, dirs, i, before, status);
  }

  lemma OneMoreLoaded(
    start: Registry, r: Registry, r': Registry, input: Input, dirs: seq<Path>, i: nat, before: seq<Status>,
    status: Status)
    requires i < |dirs| && LoadedSoFar(start, r, input, dirs, i, before)
    requires r' == RunFrom(r, DirCalls(input, dirs[i])) && status == StatusOf(input, dirs[i])
    ensures LoadedSoFar(start, r', input, dirs, i + 1, before + [status])
  {
    OneMoreStatus(input, dirs, i, before, status);
    LocalNext(start, input, dirs, i);
  }

  lemma LocalNext(r: Registry, input: Input, dirs: seq<Path>, i: nat)
    requires i < |dirs|
    ensures RunFrom(r, LocalCalls(input, dirs[..i + 1]))
         == RunFrom(RunFrom(r, LocalCalls(input, dirs[..i])), DirCalls(input, dirs[i]))
  {
    TakeOneMore(dirs, i);
    Pushed(dirs[..i], dirs[i]);
    RunFromConcat(r, LocalCalls(input, dirs[..i]), DirCalls(input, dirs[i]));
  }

  method LoadExtensions(input: Input) returns (reg: ContributionRegistry)
    ensures fresh(reg) && reg.Valid() && reg.Model() == Run(LoadCalls(input))
  {
    reg := new ContributionRegistry();
    ghost var start := reg.Model();
    IssueAll(reg, SettingsCalls(input));
    LoadBuiltIns(reg, input.builtIns, Settings(input).disabled);
    LoadProjectDeclaratives(reg, input);
    var _ := LoadLocalExtensions(reg, input);
    RunFromConcat(start, SettingsCalls(input), BuiltInBucket(input) + (ProjectBucket(input) + LocalBucket(input)));
    var settled := RunFrom(start, SettingsCalls(input));
    RunFromConcat(settled, BuiltInBucket(input), ProjectBucket(input) + LocalBucket(input));
    RunFromConcat(RunFrom(settled, BuiltInBucket(input)), ProjectBucket(input), LocalBucket(input));
    RunIsRunFrom(LoadCalls(input));
  }
}
