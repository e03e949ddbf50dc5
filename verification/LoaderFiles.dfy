/**
 Which files and directories a load looks at, in which order, and as what
 (packages/extension-runtime/src/loader.ts:192-240, 305-329, 440-500).
 */
module LoaderFiles {
  import opened Wrappers
  import opened Seqs
  import opened Order
  import opened Definitions
  import opened Contributions
  import opened Loader
  import opened LoaderProperties

  // --- the project's files ---

  /** The definition files among the names of a directory. */
  function Taken(input: Input, kind: DeclKind, names: seq<string>): seq<Candidate> {
    if names == [] then []
    else
      var n := |names| - 1;
      Taken(input, kind, names[..n])
      + if Takes(kind, names[n]) then [Candidate(input.root + [DirName(kind), names[n]], Some(kind))] else []
  }

  function InDirs(input: Input, kinds: seq<DeclKind>): seq<Candidate> {
    if kinds == [] then []
    else
      var n := |kinds| - 1;
      InDirs(input, kinds[..n])
      + if kinds[n] in input.listings then Taken(input, kinds[n], input.listings[kinds[n]]) else []
  }

  /** The files declared in the extensions file that are there. */
  function Present(input: Input, paths: seq<Path>): seq<Candidate> {
    if paths == [] then []
    else
      var n := |paths| - 1;
      Present(input, paths[..n]) + if paths[n] in input.files then [DeclaredCandidate(paths[n])] else []
  }

  /** Every mention of a project file. */
  function Mentions(input: Input): seq<Candidate> {
    InDirs(input, DECLARATIVE_DIRS) + Present(input, Settings(input).declarative)
  }

  function Paths(cs: seq<Candidate>): seq<Path> {
    Map((c: Candidate) => c.path, cs)
  }

  /** The candidates are the first mentions of their paths. */
  ghost predicate FirstMentions(cs: seq<Candidate>, all: seq<Candidate>) {
    && FirstAppearances(Paths(cs), Paths(all))
    && forall i :: 0 <= i < |cs| ==> FirstInFull(cs[i], all)
  }

  /** Nothing mentions the path before this very candidate does. */
  ghost predicate FirstInFull(c: Candidate, all: seq<Candidate>) {
    First(Paths(all), c.path) < |all| && all[First(Paths(all), c.path)] == c
  }

  lemma HasPathIn(cs: seq<Candidate>, path: Path)
    ensures HasPath(cs, path) <==> path in Paths(cs)
  {
    if HasPath(cs, path) {
      var i :| 0 <= i < |cs| && cs[i].path == path;
      assert Paths(cs)[i] == path;
    }
    if path in Paths(cs) {
      var i :| 0 <= i < |cs| && Paths(cs)[i] == path;
      assert cs[i].path == path;
    }
  }

  lemma PathsPush(cs: seq<Candidate>, c: Candidate)
    ensures Paths(cs + [c]) == Paths(cs) + [c.path]
  {
  }

  lemma FullStays(c: Candidate, all: seq<Candidate>, d: Candidate)
    requires FirstInFull(c, all)
    ensures FirstInFull(c, all + [d])
  {
    PathsPush(all, d);
    FirstInside(Paths(all), c.path);
    FirstOfPrefix(Paths(all), [d.path], c.path);
  }

  lemma FullNew(all: seq<Candidate>, c: Candidate)
    requires c.path !in Paths(all)
    ensures FirstInFull(c, all + [c])
  {
    PathsPush(all, c);
    FirstOfNew(Paths(all), c.path);
  }

  lemma OneMoreMention(cs: seq<Candidate>, all: seq<Candidate>, c: Candidate)
    requires FirstMentions(cs, all)
    ensures FirstMentions(PushCandidate(cs, c), all + [c])
  {
    var r := PushCandidate(cs, c);
    HasPathIn(cs, c.path);
    PathsPush(all, c);
    PathsPush(cs, c);
    OneMoreName(Paths(cs), Paths(all), c.path);
    forall i | 0 <= i < |r|
      ensures FirstInFull(r[i], all + [c])
    {
      if i < |cs| {
        FullStays(cs[i], all, c);
      } else {
        FullNew(all, c);
      }
    }
  }

  lemma {:induction false} ListingMentions(
    input: Input, kind: DeclKind, names: seq<string>, cs: seq<Candidate>, all: seq<Candidate>)
    requires FirstMentions(cs, all)
    ensures FirstMentions(FromListing(input, kind, names, cs), all + Taken(input, kind, names))
  {
    if names == [] {
      WithEmpty(all);
    } else {
      var n := |names| - 1;
      ListingMentions(input, kind, names[..n], cs, all);
      if Takes(kind, names[n]) {
        var c := Candidate(FilePath(input, kind, names[n]), Some(kind));
        OneMoreMention(FromListing(input, kind, names[..n], cs), all + Taken(input, kind, names[..n]), c);
        Regroup(all, Taken(input, kind, names[..n]), [c]);
      } else {
        WithEmpty(Taken(input, kind, names[..n]));
      }
    }
  }

  lemma {:induction false} DirsMention(input: Input, kinds: seq<DeclKind>)
    ensures FirstMentions(FromDirs(input, kinds), InDirs(input, kinds))
  {
    if kinds != [] {
      var n := |kinds| - 1;
      DirsMention(input, kinds[..n]);
      ListingMentions(input, kinds[n], Listing(input, kinds[n]),
                      FromDirs(input, kinds[..n]), InDirs(input, kinds[..n]));
    }
  }

  lemma {:induction false} DeclaredMention(input: Input, paths: seq<Path>, cs: seq<Candidate>, all: seq<Candidate>)
    requires FirstMentions(cs, all)
    ensures FirstMentions(FromDeclared(input, paths, cs), all + Present(input, paths))
  {
    if paths == [] {
      WithEmpty(all);
    } else {
      var n := |paths| - 1;
      DeclaredMention(input, paths[..n], cs, all);
      if paths[n] in input.files {
        var c := DeclaredCandidate(paths[n]);
        OneMoreMention(FromDeclared(input, paths[..n], cs), all + Present(input, paths[..n]), c);
        Regroup(all, Present(input, paths[..n]), [c]);
      } else {
        WithEmpty(Present(input, paths[..n]));
      }
    }
  }

  /**
   The project files are loaded in the order of their first mentions, each as what that mention says: the directories
   by kind and listing, then the declared files.
   */
  lemma CandidatesInOrder(input: Input)
    ensures FirstMentions(Candidates(input), Mentions(input))
  {
    DirsMention(input, DECLARATIVE_DIRS);
    DeclaredMention(input, Settings(input).declarative, FromDirs(input, DECLARATIVE_DIRS),
                    InDirs(input, DECLARATIVE_DIRS));
  }

  // --- the kind of a declared file ---

  /** Whether segment `j` is the name of the directory for a kind. */
  predicate NamesKind(path: Path, j: nat, kind: DeclKind) {
    j < |path| && path[j] == DirName(kind)
  }

  lemma NamesDiffer(a: DeclKind, b: DeclKind)
    requires DirName(a) == DirName(b)
    ensures a == b
  {
  }

  lemma {:induction false} DirKindIff(segment: string, i: nat, kind: DeclKind)
    requires i <= |DECLARATIVE_DIRS|
    ensures DirKind(segment, i) == Some(kind) <==> segment == DirName(kind) && kind in DECLARATIVE_DIRS[i..]
    decreases |DECLARATIVE_DIRS| - i
  {
    if i < |DECLARATIVE_DIRS| {
      var here, rest := DECLARATIVE_DIRS[i], DECLARATIVE_DIRS[i + 1..];
      DirKindIff(segment, i + 1, kind);
      CutAt(DECLARATIVE_DIRS, i);
      KindAmong(here, rest, kind);
      if DirName(here) == segment == DirName(kind) {
        NamesDiffer(here, kind);
      }
    }
  }

  lemma KindAmong(here: DeclKind, rest: seq<DeclKind>, kind: DeclKind)
    ensures kind in [here] + rest <==> kind == here || kind in rest
  {
  }

  lemma SegmentKindIff(segment: string, kind: DeclKind)
    ensures DirKind(segment, 0) == Some(kind) <==> segment == DirName(kind)
  {
    AllKinds(kind);
    CutWhole(DECLARATIVE_DIRS);
    DirKindIff(segment, 0, kind);
  }

  /** Segment `j` decides: it names the kind, and no later one before `k` names any. */
  ghost predicate Closest(path: Path, k: nat, j: nat, kind: DeclKind) {
    j < k && NamesKind(path, j, kind) && forall i: nat, other :: j < i < k ==> !NamesKind(path, i, other)
  }

  ghost predicate IsNamedAfter(path: Path, k: nat, kind: DeclKind) {
    exists j: nat :: Closest(path, k, j, kind)
  }

  lemma {:induction false} InferredIff(path: Path, k: nat, kind: DeclKind)
    requires k <= |path|
    ensures InferType(path, k) == Some(kind) <==> IsNamedAfter(path, k, kind)
  {
    if k > 0 {
      var last := path[k - 1];
      InferredIff(path, k - 1, kind);
      match DirKind(last, 0)
      case Some(found) =>
        SegmentKindIff(last, found);
        InferredHere(path, k, found, kind);
      case None =>
        InferredEarlier(path, k, k - 1, kind);
    }
  }

  lemma InferredHere(path: Path, k: nat, found: DeclKind, kind: DeclKind)
    requires 0 < k <= |path| && path[k - 1] == DirName(found)
    ensures found == kind <==> IsNamedAfter(path, k, kind)
  {
    var last := k - 1;
    assert NamesKind(path, last, found);
    if found == kind {
      assert Closest(path, k, last, kind);
    }
    if j: nat :| Closest(path, k, j, kind) {
      assert j == last;
      NamesDiffer(found, kind);
    }
  }

  lemma InferredEarlier(path: Path, k: nat, last: nat, kind: DeclKind)
    requires k == last + 1 && last < |path| && DirKind(path[last], 0) == None
    ensures IsNamedAfter(path, k, kind) <==> IsNamedAfter(path, last, kind)
  {
    forall other
      ensures !NamesKind(path, last, other)
    {
      SegmentKindIff(path[last], other);
    }
    if j: nat :| Closest(path, k, j, kind) {
      assert j != last;
      assert Closest(path, last, j, kind);
    }
    if j: nat :| Closest(path, last, j, kind) {
      assert Closest(path, k, j, kind);
    }
  }

  /** A declared file is of the kind of the closest directory around it that is named after one, if there is one. */
  lemma DeclaredKindIff(path: Path, kind: DeclKind)
    requires path != []
    ensures DeclaredCandidate(path).path == path
    ensures DeclaredCandidate(path).expected == Some(kind) <==> IsNamedAfter(path, |path| - 1, kind)
  {
    InferredIff(path, |path| - 1, kind);
  }

  // --- which names are definition files ---

  lemma Suffixed(stem: string, suffix: string)
    ensures EndsIn(stem + suffix, suffix)
  {
  }

  lemma NotSuffixed(name: string, suffix: string)
    requires name != [] && suffix != [] && !SameLetter(name[|name| - 1], suffix[|suffix| - 1])
    ensures !EndsIn(name, suffix)
  {
    if |suffix| <= |name| {
      var i := |suffix| - 1;
      assert name[|name| - |suffix| + i] == name[|name| - 1];
    }
  }

  /** Markdown is taken for the two kinds with a body of text only; one YAML file is no definition. */
  lemma TakesForms(kind: DeclKind, stem: string)
    ensures Takes(kind, stem + ".yml")
    ensures Takes(kind, stem + ".yaml") <==> !(kind == ModelRouting && stem == "providers")
    ensures Takes(kind, stem + ".md") <==> kind in {PromptTemplate, ArtifactTemplate}
    ensures Takes(kind, stem + ".markdown") <==> kind in {PromptTemplate, ArtifactTemplate}
  {
    TakesYml(kind, stem, ".yml");
    TakesYaml(kind, stem, ".yaml");
    TakesText(kind, stem, ".md");
    TakesText(kind, stem, ".markdown");
  }

  lemma TakesYml(kind: DeclKind, stem: string, suffix: string)
    requires suffix == ".yml"
    ensures Takes(kind, stem + suffix)
  {
    Suffixed(stem, suffix);
    LastDiffers(stem, suffix, "providers.yaml", 3);
  }

  lemma LastDiffers(stem: string, suffix: string, name: string, back: nat)
    requires 0 < back <= |suffix| && back <= |name| && suffix[|suffix| - back] != name[|name| - back]
    ensures stem + suffix != name
  {
    assert (stem + suffix)[|stem + suffix| - back] == suffix[|suffix| - back];
  }

  lemma TakesYaml(kind: DeclKind, stem: string, suffix: string)
    requires suffix == ".yaml"
    ensures Takes(kind, stem + suffix) <==> !(kind == ModelRouting && stem == "providers")
  {
    Suffixed(stem, suffix);
    TakesNamed(kind, stem + suffix);
    ProvidersFile("providers", suffix);
    SameStem(stem, "providers", suffix);
  }

  lemma TakesNamed(kind: DeclKind, name: string)
    requires EndsIn(name, ".yaml")
    ensures Takes(kind, name) <==> !(kind == ModelRouting && name == "providers.yaml")
  {
  }

  lemma ProvidersFile(stem: string, suffix: string)
    requires stem == "providers" && suffix == ".yaml"
    ensures stem + suffix == "providers.yaml"
  {
  }

  lemma SameStem(a: string, b: string, suffix: string)
    ensures a + suffix == b + suffix <==> a == b
  {
    if a + suffix == b + suffix {
      assert a == (a + suffix)[..|a|];
    }
  }

  lemma TakesText(kind: DeclKind, stem: string, suffix: string)
    requires suffix == ".md" || suffix == ".markdown"
    ensures Takes(kind, stem + suffix) <==> kind in {PromptTemplate, ArtifactTemplate}
  {
    var name := stem + suffix;
    assert name[|name| - 1] == suffix[|suffix| - 1];
    Suffixed(stem, suffix);
    NotSuffixed(name, ".yml");
    NotSuffixed(name, ".yaml");
    LastDiffers(stem, suffix, "providers.yaml", 1);
  }

  // --- the extensions' directories ---

  /** Where a configured extension is looked for: beside the extensions file, else in the root, else reported there. */
  predicate IsChosen(input: Input, entry: (Path, Path), dir: Path) {
    || (dir == entry.0 && (entry.0 in input.manifests || entry.1 !in input.manifests))
    || (dir == entry.1 && entry.0 !in input.manifests && entry.1 in input.manifests)
  }

  ghost predicate AllChosen(input: Input, entries: seq<(Path, Path)>, dirs: seq<Path>) {
    |dirs| == |entries| && forall i :: 0 <= i < |entries| ==> IsChosen(input, entries[i], dirs[i])
  }

  function Configured(input: Input, entries: seq<(Path, Path)>): (dirs: seq<Path>)
    ensures AllChosen(input, entries, dirs)
  {
    Map(entry => Chosen(input, entry), entries)
  }

  /** The directories under `extensions` that have a manifest. */
  function Found(input: Input, names: seq<string>): seq<Path> {
    if names == [] then []
    else
      var n := |names| - 1;
      var dir := input.root + ["extensions", names[n]];
      Found(input, names[..n]) + if dir in input.manifests then [dir] else []
  }

  lemma {:induction false} ConfiguredInOrder(input: Input, entries: seq<(Path, Path)>)
    ensures FirstAppearances(FromLocal(input, entries), Configured(input, entries))
  {
    if entries != [] {
      var n := |entries| - 1;
      ConfiguredInOrder(input, entries[..n]);
      MapLast(entry => Chosen(input, entry), entries, n);
      OneMoreName(FromLocal(input, entries[..n]), Configured(input, entries[..n]), Chosen(input, entries[n]));
    }
  }

  lemma {:induction false} FoundInOrder(input: Input, names: seq<string>, dirs: seq<Path>, all: seq<Path>)
    requires FirstAppearances(dirs, all)
    ensures FirstAppearances(FromExtensions(input, names, dirs), all + Found(input, names))
  {
    if names == [] {
      WithEmpty(all);
    } else {
      var n := |names| - 1;
      var dir := ExtensionPath(input, names[n]);
      FoundInOrder(input, names[..n], dirs, all);
      if dir in input.manifests {
        OneMoreName(FromExtensions(input, names[..n], dirs), all + Found(input, names[..n]), dir);
        Regroup(all, Found(input, names[..n]), [dir]);
      } else {
        WithEmpty(Found(input, names[..n]));
      }
    }
  }

  /** Extensions load in the order of their first mentions: the configured ones, then those found in the directory. */
  lemma DirsInOrder(input: Input)
    ensures AllChosen(input, Settings(input).local, Configured(input, Settings(input).local))
    ensures FirstAppearances(LocalDirs(input),
                             Configured(input, Settings(input).local) + Found(input, input.extensionDirs))
  {
    ConfiguredInOrder(input, Settings(input).local);
    FoundInOrder(input, input.extensionDirs, FromLocal(input, Settings(input).local),
                 Configured(input, Settings(input).local));
  }
}
