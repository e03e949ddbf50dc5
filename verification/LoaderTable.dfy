/**
 The registry after a full load, told from the packs, the files and the manifests alone: who decides each entry
 (packages/extension-runtime/src/loader.ts:134-190, 259-285, 294-437).
 */
module LoaderTable {
  import opened Wrappers
  import opened Seqs
  import opened Definitions
  import opened Contributions
  import opened Loader
  import opened LoaderProperties

  /** The first of the contributions for this key that the registry accepts, as it stores it. */
  function FirstAccepted(offers: seq<Contribution>, key: Key): Option<Contribution> {
    if offers == [] then None
    else
      var n := |offers| - 1;
      match FirstAccepted(offers[..n], key)
      case Some(c) => Some(c)
      case None => if Key(offers[n].kind, offers[n].id) == key then Normalize(offers[n]) else None
  }

  /** A pack's contribution: whatever it says of itself, it is a built-in of that pack. */
  function Packed(c: Contribution, pack: Pack): Contribution {
    Contribution(c.kind, c.id, pack.id, BuiltIn, c.definition, c.value)
  }

  function Offers(pack: Pack, disabled: set<string>): seq<Contribution> {
    if pack.id in disabled then [] else Map(c => Packed(c, pack), pack.contributions)
  }

  /** The contributions of the enabled packs, pack by pack. */
  function PackOffers(packs: seq<Pack>, disabled: set<string>): seq<Contribution> {
    if packs == [] then []
    else
      var n := |packs| - 1;
      PackOffers(packs[..n], disabled) + Offers(packs[n], disabled)
  }

  /** What a file defines, if it can be read and decoded and parses; a Markdown file has to name its own type. */
  function Defined(input: Input, path: Path, expected: Option<DeclKind>): Option<Definition> {
    if path !in input.files then None
    else ParseFile(if input.files[path].MarkdownFile? then None else expected, input.files[path].raw)
  }

  /** The project files that load. */
  function FileOffers(input: Input, files: seq<Candidate>): seq<Contribution> {
    if files == [] then []
    else
      var n := |files| - 1;
      var d := Defined(input, files[n].path, files[n].expected);
      FileOffers(input, files[..n])
      + if d.None? || d.value.declared.None? then []
        else [Contribution(Declarative(d.value.declared.value), d.value.id, "project", Project, d, None)]
  }

  /** A file listed in a manifest counts if it loads as what it is listed as. */
  function ListOffer(input: Input, m: Manifest, listed: (DeclKind, Path), source: Source): seq<Contribution> {
    var d := Defined(input, listed.1, Some(listed.0));
    if d.None? || d.value.declared != Some(listed.0) then []
    else [Contribution(Declarative(listed.0), d.value.id, m.id, source, d, None)]
  }

  function ListOffers(input: Input, m: Manifest, listed: seq<(DeclKind, Path)>, source: Source): seq<Contribution> {
    if listed == [] then []
    else
      var n := |listed| - 1;
      ListOffers(input, m, listed[..n], source) + ListOffer(input, m, listed[n], source)
  }

  /** The names of an extension whose code loads. */
  function NameOffers(m: Manifest): seq<Contribution> {
    if m.kind == DeclarativeExt || !m.entrypoint.Exports? then []
    else Map((name: (ProgKind, string)) =>
      Contribution(Programmatic(name.0), name.1, m.id, Local, None, Some(m.entrypoint.value)), m.names)
  }

  function ManifestOffers(input: Input, m: Manifest): seq<Contribution> {
    ListOffers(input, m, m.declaratives, if m.kind == DeclarativeExt then Project else Local) + NameOffers(m)
  }

  /** An extension that is there, is not disabled and keeps to an enforced policy. */
  predicate Runs(input: Input, m: Manifest) {
    m.id !in Settings(input).disabled && !(input.enforce && m.violations != [])
  }

  /** What the extension of a directory offers, if it has code or not as asked for. */
  function DirOffers(input: Input, dir: Path, withCode: bool): seq<Contribution> {
    match ManifestAt(input, dir)
    case None => []
    case Some(m) =>
      if Runs(input, m) && withCode == (m.kind != DeclarativeExt) then ManifestOffers(input, m) else []
  }

  /** What extensions with code offer, or those without, directory by directory. */
  function ExtensionOffers(input: Input, dirs: seq<Path>, withCode: bool): seq<Contribution> {
    if dirs == [] then []
    else
      var n := |dirs| - 1;
      ExtensionOffers(input, dirs[..n], withCode) + DirOffers(input, dirs[n], withCode)
  }

  function LocalOffers(input: Input): seq<Contribution> {
    ExtensionOffers(input, LocalDirs(input), true)
  }

  function ProjectOffers(input: Input): seq<Contribution> {
    (if "project" in Settings(input).disabled then [] else FileOffers(input, Candidates(input)))
    + ExtensionOffers(input, LocalDirs(input), false)
  }

  function BuiltInOffers(input: Input): seq<Contribution> {
    PackOffers(input.builtIns, Settings(input).disabled)
  }

  // --- calls and offers ---

  function Registers(offers: seq<Contribution>): seq<Call> {
    Map(c => Register(c), offers)
  }

  predicate AllFrom(offers: seq<Contribution>, source: Source) {
    forall i :: 0 <= i < |offers| ==> offers[i].source == source
  }

  /** The registering calls of a list that come from a source are exactly those for some offers. */
  ghost predicate Offering(calls: seq<Call>, source: Source, offers: seq<Contribution>) {
    Only(calls, source) == Registers(offers)
  }

  lemma OfferingConcat(a: seq<Call>, b: seq<Call>, source: Source, x: seq<Contribution>, y: seq<Contribution>)
    requires Offering(a, source, x) && Offering(b, source, y)
    ensures Offering(a + b, source, x + y)
  {
    OnlyConcat(a, b, source);
    assert Registers(x + y) == Registers(x) + Registers(y);
  }

  lemma OfferingNothing(calls: seq<Call>, source: Source)
    requires forall i :: 0 <= i < |calls| ==> calls[i].Register? ==> calls[i].c.source != source
    ensures Offering(calls, source, [])
  {
    OnlyNone(calls, source);
  }

  lemma OfferingMore(a: seq<Call>, b: seq<Call>, source: Source, x: seq<Contribution>)
    requires Offering(a, source, x) && Offering(b, source, [])
    ensures Offering(a + b, source, x)
  {
    OfferingConcat(a, b, source, x, []);
    WithEmpty(x);
  }

  lemma OfferingLater(a: seq<Call>, b: seq<Call>, source: Source, x: seq<Contribution>)
    requires Offering(a, source, []) && Offering(b, source, x)
    ensures Offering(a + b, source, x)
  {
    OfferingConcat(a, b, source, [], x);
    WithEmpty(x);
  }

  lemma {:induction false} OfferingAll(offers: seq<Contribution>, source: Source)
    requires AllFrom(offers, source)
    ensures Offering(Registers(offers), source, offers)
  {
    if offers != [] {
      var n := |offers| - 1;
      OfferingAll(offers[..n], source);
      MapLast(c => Register(c), offers, n);
      assert Registers(offers)[..n] == Registers(offers[..n]);
    }
  }

  lemma {:induction false} FirstIsAccepted(offers: seq<Contribution>, key: Key, source: Source)
    requires AllFrom(offers, source)
    ensures FirstOf(Registers(offers), key, source) == FirstAccepted(offers, key)
  {
    if offers != [] {
      var n := |offers| - 1;
      FirstIsAccepted(offers[..n], key, source);
      MapLast(c => Register(c), offers, n);
      assert Registers(offers)[..n] == Registers(offers[..n]);
    }
  }

  lemma OfferingFirst(calls: seq<Call>, key: Key, source: Source, offers: seq<Contribution>)
    requires Offering(calls, source, offers) && AllFrom(offers, source)
    ensures FirstOf(calls, key, source) == FirstAccepted(offers, key)
  {
    FirstOfOnly(calls, key, source);
    FirstIsAccepted(offers, key, source);
  }

  // --- the built-in packs ---

  lemma WarnsOfferNothing(texts: seq<string>, source: Source)
    ensures Offering(Warns(texts), source, [])
  {
    OfferingNothing(Warns(texts), source);
  }

  lemma PackCallsOffer(pack: Pack, disabled: set<string>)
    requires pack.id !in disabled
    ensures Offering(PackCalls(pack), BuiltIn, Offers(pack, disabled))
    ensures AllFrom(Offers(pack, disabled), BuiltIn)
  {
    var offers := Offers(pack, disabled);
    OfferingAll(offers, BuiltIn);
    WarnsOfferNothing(pack.permissionWarnings, BuiltIn);
    OfferingLater(Warns(pack.permissionWarnings), Registers(offers), BuiltIn, offers);
    assert PackCalls(pack) == Warns(pack.permissionWarnings) + Registers(offers);
  }

  lemma {:induction false} PacksOffer(packs: seq<Pack>, disabled: set<string>)
    ensures Offering(BuiltInCalls(packs, disabled), BuiltIn, PackOffers(packs, disabled))
    ensures AllFrom(PackOffers(packs, disabled), BuiltIn)
  {
    if packs != [] {
      var n := |packs| - 1;
      PacksOffer(packs[..n], disabled);
      if packs[n].id in disabled {
        OfferingNothing([], BuiltIn);
        OfferingConcat(BuiltInCalls(packs[..n], disabled), [], BuiltIn, PackOffers(packs[..n], disabled), []);
      } else {
        PackCallsOffer(packs[n], disabled);
        OfferingConcat(BuiltInCalls(packs[..n], disabled), PackCalls(packs[n]), BuiltIn,
                       PackOffers(packs[..n], disabled), Offers(packs[n], disabled));
      }
    }
  }

  // --- the project's files ---

  lemma FileLoadsIff(input: Input, path: Path, expected: Option<DeclKind>)
    ensures LoadFile(input, path, expected) == Defined(input, path, expected)
    ensures Defined(input, path, expected).Some? ==> Defined(input, path, expected).value.declared.Some?
  {
    if path in input.files && Defined(input, path, expected).Some? {
      FileStays(if input.files[path].MarkdownFile? then None else expected, input.files[path].raw);
    }
  }

  lemma {:induction false} FilesOffer(input: Input, files: seq<Candidate>)
    ensures Offering(ProjectCalls(input, files), Project, FileOffers(input, files))
    ensures AllFrom(FileOffers(input, files), Project)
  {
    if files != [] {
      var n := |files| - 1;
      FilesOffer(input, files[..n]);
      var call := FileCall(input, files[n]);
      assert ProjectCalls(input, files) == ProjectCalls(input, files[..n]) + [call];
      FileLoadsIff(input, files[n].path, files[n].expected);
      var offer := if call.Register? then [call.c] else [];
      OneOffers(call, Project, offer);
      OfferingConcat(ProjectCalls(input, files[..n]), [call], Project, FileOffers(input, files[..n]), offer);
    }
  }

  lemma OneOffers(call: Call, source: Source, offer: seq<Contribution>)
    requires call.Register? ==> call.c.source == source && offer == [call.c]
    requires call.Warn? ==> offer == []
    ensures Offering([call], source, offer)
  {
    assert [call][..0] == [];
  }

  lemma ProjectOffersFiles(input: Input)
    ensures var files := if "project" in Settings(input).disabled then [] else FileOffers(input, Candidates(input));
            Offering(ProjectBucket(input), Project, files) && AllFrom(files, Project)
  {
    if "project" !in Settings(input).disabled {
      FilesOffer(input, Candidates(input));
      var missing := MissingCalls(input, Settings(input).declarative, FromDirs(input, DECLARATIVE_DIRS));
      MissingOnlyWarns(input, Settings(input).declarative, FromDirs(input, DECLARATIVE_DIRS));
      OfferingNothing(missing, Project);
      OfferingLater(missing, ProjectCalls(input, Candidates(input)), Project, FileOffers(input, Candidates(input)));
    } else {
      OfferingNothing([], Project);
    }
  }

  // --- extensions ---

  lemma {:induction false} ListsOffer(input: Input, m: Manifest, n: nat)
    requires n <= |m.declaratives|
    ensures Offering(ListedCalls(input, m, n), SourceOf(m), ListOffers(input, m, m.declaratives[..n], SourceOf(m)))
    ensures AllFrom(ListOffers(input, m, m.declaratives[..n], SourceOf(m)), SourceOf(m))
  {
    if n > 0 {
      ListsOffer(input, m, n - 1);
      TakeOneMore(m.declaratives, n - 1);
      Pushed(m.declaratives[..n - 1], m.declaratives[n - 1]);
      ListedOffers(input, m, n - 1, m.declaratives[n - 1], SourceOf(m));
      OfferingConcat(ListedCalls(input, m, n - 1), ListedCall(input, m, n - 1), SourceOf(m),
                     ListOffers(input, m, m.declaratives[..n - 1], SourceOf(m)),
                     ListOffer(input, m, m.declaratives[n - 1], SourceOf(m)));
    }
  }

  lemma ListedOffers(input: Input, m: Manifest, k: nat, listed: (DeclKind, Path), source: Source)
    requires k < |m.declaratives| && m.declaratives[k] == listed && source == SourceOf(m)
    ensures Offering(ListedCall(input, m, k), source, ListOffer(input, m, listed, source))
  {
    FileLoadsIff(input, listed.1, Some(listed.0));
    var offer := ListOffer(input, m, listed, source);
    assert AllFrom(offer, source);
    OfferingAll(offer, source);
    assert ListedCall(input, m, k) == Registers(offer);
  }

  lemma NamesOffer(m: Manifest)
    ensures Offering(EntryCalls(m), Local, NameOffers(m)) && AllFrom(NameOffers(m), Local)
  {
    OfferingAll(NameOffers(m), Local);
    if m.kind != DeclarativeExt && m.entrypoint.Exports? {
      var head: seq<Call> := if m.entrypoint.id != m.id then [Warn(m.id)] else [];
      OfferingNothing(head, Local);
      OfferingLater(head, Registers(NameOffers(m)), Local, NameOffers(m));
      assert EntryCalls(m) == head + Registers(NameOffers(m));
    } else {
      assert EntryCalls(m) == Registers(NameOffers(m));
    }
  }

  lemma {:induction false} ListedFrom(input: Input, m: Manifest, n: nat)
    requires n <= |m.declaratives|
    ensures AllOf(ListedCalls(input, m, n), SourceOf(m))
  {
    if n > 0 {
      ListedFrom(input, m, n - 1);
    }
  }

  lemma ManifestFrom(input: Input, m: Manifest)
    ensures AllOf(ManifestCalls(input, m), SourceOf(m))
  {
    ListedFrom(input, m, |m.declaratives|);
    assert AllOf(EntryCalls(m), SourceOf(m));
  }

  lemma ManifestOffersAll(input: Input, m: Manifest)
    requires Runs(input, m)
    ensures Offering(ManifestCalls(input, m), SourceOf(m), ManifestOffers(input, m))
    ensures AllFrom(ManifestOffers(input, m), SourceOf(m))
  {
    var listed, names := ListedCalls(input, m, |m.declaratives|), EntryCalls(m);
    CutWhole(m.declaratives);
    ListsOffer(input, m, |m.declaratives|);
    NamesOffer(m);
    if m.kind == DeclarativeExt {
      OfferingNothing(names, SourceOf(m));
    }
    OfferingConcat(listed, names, SourceOf(m),
                   ListOffers(input, m, m.declaratives, SourceOf(m)), NameOffers(m));
    WarnsOfferNothing(m.permissionWarnings, SourceOf(m));
    OfferingMore(listed + names, Warns(m.permissionWarnings), SourceOf(m), ManifestOffers(input, m));
  }

  lemma DirOffersAll(input: Input, dir: Path, withCode: bool, source: Source)
    requires source == if withCode then Local else Project
    ensures Offering(DirCalls(input, dir), source, DirOffers(input, dir, withCode))
    ensures AllFrom(DirOffers(input, dir, withCode), source)
  {
    match ManifestAt(input, dir)
    case None => OfferingNothing([], source);
    case Some(m) =>
      if SourceOf(m) != source {
        ManifestFrom(input, m);
        OfferingNothing(ManifestCalls(input, m), source);
      } else if Runs(input, m) {
        ManifestOffersAll(input, m);
      } else {
        OfferingNothing(ManifestCalls(input, m), source);
      }
  }

  lemma {:induction false} DirsOffer(input: Input, dirs: seq<Path>, withCode: bool, source: Source)
    requires source == if withCode then Local else Project
    ensures Offering(LocalCalls(input, dirs), source, ExtensionOffers(input, dirs, withCode))
    ensures AllFrom(ExtensionOffers(input, dirs, withCode), source)
  {
    if dirs != [] {
      var n := |dirs| - 1;
      DirsOffer(input, dirs[..n], withCode, source);
      DirOffersAll(input, dirs[n], withCode, source);
      OfferingConcat(LocalCalls(input, dirs[..n]), DirCalls(input, dirs[n]), source,
                     ExtensionOffers(input, dirs[..n], withCode), DirOffers(input, dirs[n], withCode));
    }
  }

  // --- the whole load ---

  lemma SettingsOfferNothing(input: Input, source: Source)
    ensures Offering(SettingsCalls(input), source, [])
  {
    ClashesOnlyWarn(Settings(input).enabled, Settings(input).disabled);
    OfferingNothing(SettingsCalls(input), source);
  }

  lemma BuiltInsOfferOthersNothing(input: Input, source: Source)
    requires source != BuiltIn
    ensures Offering(BuiltInBucket(input), source, [])
  {
    BuiltInsAreBuiltIn(input.builtIns, Settings(input).disabled);
    OfferingNothing(BuiltInBucket(input), source);
  }

  lemma ProjectOffersOthersNothing(input: Input, source: Source)
    requires source != Project
    ensures Offering(ProjectBucket(input), source, [])
  {
    MissingOnlyWarns(input, Settings(input).declarative, FromDirs(input, DECLARATIVE_DIRS));
    OfferingNothing(ProjectBucket(input), source);
  }

  lemma BuiltInsOffered(input: Input)
    ensures Offering(LoadCalls(input), BuiltIn, BuiltInOffers(input)) && AllFrom(BuiltInOffers(input), BuiltIn)
  {
    var rest := ProjectBucket(input) + LocalBucket(input);
    PacksOffer(input.builtIns, Settings(input).disabled);
    RestNotBuiltIn(input);
    OfferingNothing(rest, BuiltIn);
    OfferingMore(BuiltInBucket(input), rest, BuiltIn, BuiltInOffers(input));
    SettingsOfferNothing(input, BuiltIn);
    OfferingLater(SettingsCalls(input), BuiltInBucket(input) + rest, BuiltIn, BuiltInOffers(input));
  }

  lemma AfterBuiltIns(input: Input, source: Source, offers: seq<Contribution>)
    requires source != BuiltIn && Offering(ProjectBucket(input) + LocalBucket(input), source, offers)
    ensures Offering(LoadCalls(input), source, offers)
  {
    var rest := ProjectBucket(input) + LocalBucket(input);
    BuiltInsOfferOthersNothing(input, source);
    OfferingLater(BuiltInBucket(input), rest, source, offers);
    SettingsOfferNothing(input, source);
    OfferingLater(SettingsCalls(input), BuiltInBucket(input) + rest, source, offers);
  }

  lemma ProjectOffered(input: Input)
    ensures Offering(LoadCalls(input), Project, ProjectOffers(input)) && AllFrom(ProjectOffers(input), Project)
  {
    ProjectOffersFiles(input);
    DirsOffer(input, LocalDirs(input), false, Project);
    var files := if "project" in Settings(input).disabled then [] else FileOffers(input, Candidates(input));
    OfferingConcat(ProjectBucket(input), LocalBucket(input), Project,
                   files, ExtensionOffers(input, LocalDirs(input), false));
    AfterBuiltIns(input, Project, ProjectOffers(input));
  }

  lemma LocalOffered(input: Input)
    ensures Offering(LoadCalls(input), Local, LocalOffers(input)) && AllFrom(LocalOffers(input), Local)
  {
    DirsOffer(input, LocalDirs(input), true, Local);
    ProjectOffersOthersNothing(input, Local);
    OfferingLater(ProjectBucket(input), LocalBucket(input), Local, LocalOffers(input));
    AfterBuiltIns(input, Local, LocalOffers(input));
  }

  lemma NothingElseOffered(input: Input, key: Key, source: Source)
    requires source == Npm || source == Enterprise
    ensures FirstOf(LoadCalls(input), key, source) == None
  {
    LoadAdmitted(input);
    OfferingNothing(LoadCalls(input), source);
    OfferingFirst(LoadCalls(input), key, source, []);
  }

  /**
   After a load every entry is the first accepted offer of the extensions with code, or else of the project's files
   and then the extensions without code, or else of the enabled built-in packs; a key that nobody offers acceptably
   has none.
   */
  lemma TableExactly(input: Input, key: Key)
    ensures var locally := FirstAccepted(LocalOffers(input), key);
            var projectwide := FirstAccepted(ProjectOffers(input), key);
            Entry(Run(LoadCalls(input)), key)
            == if locally.Some? then locally
               else if projectwide.Some? then projectwide
               else FirstAccepted(BuiltInOffers(input), key)
  {
    var calls := LoadCalls(input);
    LocalOffered(input);
    ProjectOffered(input);
    BuiltInsOffered(input);
    OfferingFirst(calls, key, Local, LocalOffers(input));
    OfferingFirst(calls, key, Project, ProjectOffers(input));
    OfferingFirst(calls, key, BuiltIn, BuiltInOffers(input));
    NothingElseOffered(input, key, Npm);
    NothingElseOffered(input, key, Enterprise);
    EntryIsWinner(calls, key);
  }

  // --- who is there, place by place ---

  /** A contribution for the key that the registry would take. */
  predicate Acceptable(c: Contribution, key: Key) {
    Key(c.kind, c.id) == key && Normalize(c).Some?
  }

  lemma {:induction false} FirstConcat(a: seq<Contribution>, b: seq<Contribution>, key: Key)
    ensures FirstAccepted(a + b, key)
         == if FirstAccepted(a, key).Some? then FirstAccepted(a, key) else FirstAccepted(b, key)
  {
    if b == [] {
      WithEmpty(a);
    } else {
      var n := |b| - 1;
      FirstConcat(a, b[..n], key);
      FrontAndLast(b, n);
      Regroup(a, b[..n], [b[n]]);
      Pushed(a + b[..n], b[n]);
    }
  }

  lemma {:induction false} NoneAccepted(offers: seq<Contribution>, key: Key)
    ensures FirstAccepted(offers, key) == None <==> forall i :: 0 <= i < |offers| ==> !Acceptable(offers[i], key)
  {
    if offers != [] {
      var n := |offers| - 1;
      NoneAccepted(offers[..n], key);
      FrontAndLast(offers, n);
      assert forall i :: 0 <= i < n ==> offers[..n][i] == offers[i];
    }
  }

  lemma {:induction false} FirstDecides(offers: seq<Contribution>, k: nat, key: Key)
    requires k < |offers| && Acceptable(offers[k], key)
    requires forall i :: 0 <= i < k ==> !Acceptable(offers[i], key)
    ensures FirstAccepted(offers, key) == Normalize(offers[k])
  {
    CutInTwo(offers, k + 1);
    FirstConcat(offers[..k + 1], offers[k + 1..], key);
    NoneAccepted(offers[..k], key);
    TakeOneMore(offers, k);
    Pushed(offers[..k], offers[k]);
  }

  /** Contribution `k` of pack `p` is an acceptable one of an enabled pack. */
  predicate Brings(packs: seq<Pack>, disabled: set<string>, p: nat, k: nat, key: Key) {
    && p < |packs| && k < |packs[p].contributions|
    && packs[p].id !in disabled && Acceptable(packs[p].contributions[k], key)
  }

  lemma PackedAcceptable(c: Contribution, pack: Pack, key: Key)
    ensures Acceptable(Packed(c, pack), key) <==> Acceptable(c, key)
  {
  }

  lemma OffersBring(packs: seq<Pack>, disabled: set<string>, p: nat, k: nat, key: Key)
    requires p < |packs| && k < |packs[p].contributions|
    ensures Brings(packs, disabled, p, k, key)
       <==> packs[p].id !in disabled && Acceptable(Offers(packs[p], disabled)[k], key)
  {
    PackedAcceptable(packs[p].contributions[k], packs[p], key);
  }

  lemma {:induction false} NoPackBrings(packs: seq<Pack>, disabled: set<string>, key: Key)
    requires forall p: nat, k: nat :: !Brings(packs, disabled, p, k, key)
    ensures FirstAccepted(PackOffers(packs, disabled), key) == None
  {
    if packs != [] {
      var n := |packs| - 1;
      forall p: nat, k: nat
        ensures !Brings(packs[..n], disabled, p, k, key)
      {
        assert !Brings(packs, disabled, p, k, key);
      }
      NoPackBrings(packs[..n], disabled, key);
      LastBringsNothing(packs, disabled, n, key);
      FirstConcat(PackOffers(packs[..n], disabled), Offers(packs[n], disabled), key);
    }
  }

  lemma LastBringsNothing(packs: seq<Pack>, disabled: set<string>, p: nat, key: Key)
    requires p < |packs| && forall k: nat :: !Brings(packs, disabled, p, k, key)
    ensures FirstAccepted(Offers(packs[p], disabled), key) == None
  {
    forall k | 0 <= k < |Offers(packs[p], disabled)|
      ensures !Acceptable(Offers(packs[p], disabled)[k], key)
    {
      assert !Brings(packs, disabled, p, k, key);
      OffersBring(packs, disabled, p, k, key);
    }
    NoneAccepted(Offers(packs[p], disabled), key);
  }

  /** No earlier place brings the key: none in an earlier pack and none before it in the same one. */
  ghost predicate FirstToBring(packs: seq<Pack>, disabled: set<string>, p: nat, k: nat, key: Key) {
    && Brings(packs, disabled, p, k, key)
    && forall q: nat, j: nat :: q < p || (q == p && j < k) ==> !Brings(packs, disabled, q, j, key)
  }

  lemma FirstInPackDecides(packs: seq<Pack>, disabled: set<string>, p: nat, k: nat, key: Key)
    requires FirstToBring(packs, disabled, p, k, key)
    ensures FirstAccepted(Offers(packs[p], disabled), key) == Normalize(Packed(packs[p].contributions[k], packs[p]))
    ensures Normalize(Packed(packs[p].contributions[k], packs[p])).Some?
  {
    var offers := Offers(packs[p], disabled);
    OffersBring(packs, disabled, p, k, key);
    forall j | 0 <= j < k
      ensures !Acceptable(offers[j], key)
    {
      assert !Brings(packs, disabled, p, j, key);
      OffersBring(packs, disabled, p, j, key);
    }
    FirstDecides(offers, k, key);
  }

  lemma NoneBefore(packs: seq<Pack>, disabled: set<string>, p: nat, k: nat, key: Key)
    requires FirstToBring(packs, disabled, p, k, key)
    ensures FirstAccepted(PackOffers(packs[..p], disabled), key) == None
  {
    forall q: nat, j: nat
      ensures !Brings(packs[..p], disabled, q, j, key)
    {
      assert q < p ==> !Brings(packs, disabled, q, j, key);
    }
    NoPackBrings(packs[..p], disabled, key);
  }

  lemma PackStep(packs: seq<Pack>, disabled: set<string>, n: nat, key: Key)
    requires n == |packs| - 1
    ensures FirstAccepted(PackOffers(packs, disabled), key)
         == if FirstAccepted(PackOffers(packs[..n], disabled), key).Some?
            then FirstAccepted(PackOffers(packs[..n], disabled), key)
            else FirstAccepted(Offers(packs[n], disabled), key)
  {
    FirstConcat(PackOffers(packs[..n], disabled), Offers(packs[n], disabled), key);
  }

  /** What the first packs decide, later ones do not change. */
  lemma {:induction false} DecidedEarly(
    packs: seq<Pack>, disabled: set<string>, m: nat, key: Key, first: Option<Contribution>)
    requires m <= |packs| && first.Some? && FirstAccepted(PackOffers(packs[..m], disabled), key) == first
    ensures FirstAccepted(PackOffers(packs, disabled), key) == first
  {
    if m == |packs| {
      CutWhole(packs);
    } else {
      var n := |packs| - 1;
      assert packs[..n][..m] == packs[..m];
      DecidedEarly(packs[..n], disabled, m, key, first);
      PackStep(packs, disabled, n, key);
    }
  }

  lemma FirstBringerDecides(
    packs: seq<Pack>, disabled: set<string>, p: nat, k: nat, key: Key, first: Option<Contribution>)
    requires FirstToBring(packs, disabled, p, k, key)
    requires first.Some? && FirstAccepted(Offers(packs[p], disabled), key) == first
    ensures FirstAccepted(PackOffers(packs, disabled), key) == first
  {
    NoneBefore(packs, disabled, p, k, key);
    TakeOneMore(packs, p);
    Pushed(packs[..p], packs[p]);
    PackStep(packs[..p + 1], disabled, p, key);
    DecidedEarly(packs, disabled, p + 1, key, first);
  }

  /**
   The first acceptable contribution for a key, in the order of the enabled packs, is the entry as a built-in of its
   pack, unless some project or local extension brings the key.
   */
  lemma BuiltInIsEntry(input: Input, p: nat, k: nat, key: Key)
    requires FirstToBring(input.builtIns, Settings(input).disabled, p, k, key)
    requires forall c :: c in ProjectOffers(input) || c in LocalOffers(input) ==> !Acceptable(c, key)
    ensures key in Run(LoadCalls(input)).table
    ensures var pack, entry := input.builtIns[p], Run(LoadCalls(input)).table[key];
            && Some(entry) == Normalize(Packed(pack.contributions[k], pack))
            && entry.source == BuiltIn && entry.extensionId == pack.id
  {
    var packs, disabled := input.builtIns, Settings(input).disabled;
    var packed := Packed(packs[p].contributions[k], packs[p]);
    FirstInPackDecides(packs, disabled, p, k, key);
    FirstBringerDecides(packs, disabled, p, k, key, Normalize(packed));
    NothingLocal(input, key);
    NormalizeKeeps(packed);
  }

  lemma NothingLocal(input: Input, key: Key)
    requires forall c :: c in ProjectOffers(input) || c in LocalOffers(input) ==> !Acceptable(c, key)
    ensures Entry(Run(LoadCalls(input)), key) == FirstAccepted(BuiltInOffers(input), key)
  {
    NoneAmong(ProjectOffers(input), key);
    NoneAmong(LocalOffers(input), key);
    TableExactly(input, key);
  }

  lemma NoneAmong(offers: seq<Contribution>, key: Key)
    requires forall c :: c in offers ==> !Acceptable(c, key)
    ensures FirstAccepted(offers, key) == None
  {
    NoneAccepted(offers, key);
  }

  lemma LastBrings(packs: seq<Pack>, disabled: set<string>, p: nat, k: nat, key: Key)
    requires Brings(packs, disabled, p, k, key)
    ensures FirstAccepted(Offers(packs[p], disabled), key) != None
  {
    OffersBring(packs, disabled, p, k, key);
    NoneAccepted(Offers(packs[p], disabled), key);
  }

  lemma {:induction false} FirstBringer(packs: seq<Pack>, disabled: set<string>, p: nat, k: nat, key: Key)
    requires Brings(packs, disabled, p, k, key)
    ensures FirstAccepted(PackOffers(packs, disabled), key) != None
  {
    var n := |packs| - 1;
    PackStep(packs, disabled, n, key);
    if p < n {
      assert Brings(packs[..n], disabled, p, k, key);
      FirstBringer(packs[..n], disabled, p, k, key);
    } else {
      LastBrings(packs, disabled, p, k, key);
    }
  }

  /** Every acceptable contribution of an enabled pack has an entry, its own or one that took its place. */
  lemma BuiltInsAreThere(input: Input, p: nat, k: nat, key: Key)
    requires Brings(input.builtIns, Settings(input).disabled, p, k, key)
    ensures key in Run(LoadCalls(input)).table
  {
    FirstBringer(input.builtIns, Settings(input).disabled, p, k, key);
    TableExactly(input, key);
  }

  /** So has every name of an active extension whose code loads, and the entry is that of an extension with code. */
  lemma NamesAreThere(input: Input, m: Manifest, i: nat)
    requires Active(input, m) && m.kind != DeclarativeExt && m.entrypoint.Exports? && i < |m.names|
    ensures var key, table := Key(Programmatic(m.names[i].0), m.names[i].1), Run(LoadCalls(input)).table;
            key in table && table[key].source == Local
  {
    var key := Key(Programmatic(m.names[i].0), m.names[i].1);
    var dir :| dir in LocalDirs(input) && ManifestAt(input, dir) == Some(m);
    var offers := ManifestOffers(input, m);
    var listed := ListOffers(input, m, m.declaratives, Local);
    assert offers[|listed| + i] == NameOffers(m)[i];
    assert Acceptable(offers[|listed| + i], key);
    NoneAccepted(offers, key);
    DirOfferFound(input, LocalDirs(input), dir, key);
    LocalOffered(input);
    OfferingFirst(LoadCalls(input), key, Local, LocalOffers(input));
    FirstIsOf(LoadCalls(input), key, Local);
    TableExactly(input, key);
  }

  lemma {:induction false} DirOfferFound(input: Input, dirs: seq<Path>, dir: Path, key: Key)
    requires dir in dirs && FirstAccepted(DirOffers(input, dir, true), key) != None
    ensures FirstAccepted(ExtensionOffers(input, dirs, true), key) != None
  {
    var n := |dirs| - 1;
    if dirs[n] != dir {
      DirOfferFound(input, dirs[..n], dir, key);
    }
    FirstConcat(ExtensionOffers(input, dirs[..n], true), DirOffers(input, dirs[n], true), key);
  }
}
