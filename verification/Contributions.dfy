/** The registry of contributions and its rules for conflicts (packages/extension-runtime/src/contributions.ts). */
module Contributions {
  import opened Wrappers
  import opened Definitions

  datatype ProgKind =
    | WorkItemProvider | CommunicationProvider | ModelProvider | AgentAdapter | Tool
    | ContextSource | Exporter | PolicyEvaluator | VcsProvider | EnterpriseSyncProvider

  datatype Kind = Declarative(decl: DeclKind) | Programmatic(prog: ProgKind)

  datatype Source = BuiltIn | Project | Local | Npm | Enterprise

  /** `SOURCE_RANK`: sources loaded later override earlier ones. */
  function Rank(s: Source): nat {
    match s
    case BuiltIn => 0
    case Project => 1
    case Local => 2
    case Npm => 3
    case Enterprise => 4
  }

  datatype Contribution = Contribution(
    kind: Kind,
    id: string,
    extensionId: string,
    source: Source,
    definition: Option<Definition>,
    value: Option<string>)

  datatype Key = Key(kind: Kind, id: string)

  function KeyOf(c: Contribution): Key {
    Key(c.kind, c.id)
  }

  datatype Warning =
    | Duplicate(key: Key, source: Source, ignored: string, existing: string)
    | Outranked(key: Key, source: Source, above: Source)
    | Invalid(key: Key, extensionId: string)
    | Note(text: string)

  /** The registry as a value: one entry for each kind and id. */
  datatype Registry = Registry(table: map<Key, Contribution>, warnings: seq<Warning>)

  /** What the program asks of the registry. */
  datatype Call = Register(c: Contribution) | Warn(text: string)

  /** The contribution with its definition parsed, or nothing when it is rejected. */
  function Normalize(c: Contribution): Option<Contribution> {
    if c.kind.Programmatic? || c.definition.None? then Some(c)
    else
      match Parse(c.kind.decl, c.definition.value)
      case None => None
      case Some(d) => Some(c.(definition := Some(d)))
  }

  function Warned(r: Registry, w: Warning): Registry {
    r.(warnings := r.warnings + [w])
  }

  function Stored(r: Registry, n: Contribution): Registry {
    r.(table := r.table[KeyOf(n) := n])
  }

  function Conflict(n: Contribution, existing: Contribution): Warning {
    if n.source == existing.source
    then Duplicate(KeyOf(n), n.source, n.extensionId, existing.extensionId)
    else Outranked(KeyOf(n), n.source, existing.source)
  }

  function Step(r: Registry, call: Call): Registry {
    match call
    case Warn(text) => Warned(r, Note(text))
    case Register(c) =>
      match Normalize(c)
      case None => Warned(r, Invalid(KeyOf(c), c.extensionId))
      case Some(n) =>
        if KeyOf(n) !in r.table || Rank(n.source) > Rank(r.table[KeyOf(n)].source) then Stored(r, n)
        else Warned(r, Conflict(n, r.table[KeyOf(n)]))
  }

  class ContributionRegistry {
    var byKind: map<Kind, map<string, Contribution>>
    var warningList: seq<Warning>
    /** The entries of all the inner maps. */
    ghost var table: map<Key, Contribution>

    ghost predicate Valid()
      reads this
    {
      && (forall k, id :: Key(k, id) in table <==> k in byKind && id in byKind[k])
      && (forall k, id :: k in byKind && id in byKind[k] ==> table[Key(k, id)] == byKind[k][id])
    }

    ghost function Model(): Registry
      reads this
    {
      Registry(table, warningList)
    }

    constructor ()
      ensures Valid() && Model() == Registry(map[], [])
    {
      byKind := map[];
      warningList := [];
      table := map[];
    }

    method Get(kind: Kind, id: string) returns (r: Option<Contribution>)
      requires Valid()
      ensures r == if Key(kind, id) in table then Some(table[Key(kind, id)]) else None
    {
      if kind in byKind && id in byKind[kind] {
        return Some(byKind[kind][id]);
      }
      return None;
    }

    method AddWarning(w: Warning)
      requires Valid()
      modifies this`warningList
      ensures Valid() && Model() == Warned(old(Model()), w)
    {
      warningList := warningList + [w];
    }

    /** `forKind.set(id, c)`, with the inner map made on first use. */
    method Store(n: Contribution)
      requires Valid()
      modifies this`byKind, this`table
      ensures Valid() && Model() == Stored(old(Model()), n)
    {
      var forKind := if n.kind in byKind then byKind[n.kind] else map[];
      byKind := byKind[n.kind := forKind[n.id := n]];
      table := table[KeyOf(n) := n];
    }

    method Register(c: Contribution)
      requires Valid()
      modifies this
      ensures Valid() && Model() == Step(old(Model()), Call.Register(c))
    {
      var normalized := Normalize(c);
      if normalized.None? {
        AddWarning(Invalid(KeyOf(c), c.extensionId));
        return;
      }
      var n := normalized.value;
      var existing := Get(n.kind, n.id);
      if existing.None? {
        Store(n);
        return;
      }
      if existing.value.source == n.source {
        AddWarning(Duplicate(KeyOf(n), n.source, n.extensionId, existing.value.extensionId));
        return;
      }
      if Rank(n.source) > Rank(existing.value.source) {
        Store(n);
        return;
      }
      AddWarning(Outranked(KeyOf(n), n.source, existing.value.source));
    }
  }

  // --- whole runs ---

  function Run(calls: seq<Call>): Registry {
    if calls == [] then Registry(map[], []) else Step(Run(calls[..|calls| - 1]), calls[|calls| - 1])
  }

  /** The parsed contribution of a call, if it is a valid one for the key and from the source. */
  function Claim(call: Call, key: Key, source: Source): Option<Contribution> {
    if call.Register? && KeyOf(call.c) == key && call.c.source == source then Normalize(call.c) else None
  }

  /** The first valid contribution of a source for a key. */
  function FirstOf(calls: seq<Call>, key: Key, source: Source): Option<Contribution> {
    if calls == [] then None
    else
      match FirstOf(calls[..|calls| - 1], key, source)
      case None => Claim(calls[|calls| - 1], key, source)
      case Some(c) => Some(c)
  }

  /** The first valid contribution of the highest-ranked source that has one. */
  function Winner(calls: seq<Call>, key: Key): Option<Contribution> {
    if FirstOf(calls, key, Enterprise).Some? then FirstOf(calls, key, Enterprise)
    else if FirstOf(calls, key, Npm).Some? then FirstOf(calls, key, Npm)
    else if FirstOf(calls, key, Local).Some? then FirstOf(calls, key, Local)
    else if FirstOf(calls, key, Project).Some? then FirstOf(calls, key, Project)
    else FirstOf(calls, key, BuiltIn)
  }

  function Entry(r: Registry, key: Key): Option<Contribution> {
    if key in r.table then Some(r.table[key]) else None
  }

  /** Rejected is only a declarative contribution whose definition does not parse; parsing replaces the definition. */
  lemma AcceptedExactly(c: Contribution)
    ensures Normalize(c) == None
       <==> exists kind, d :: c.kind == Declarative(kind) && c.definition == Some(d) && Parse(kind, d) == None
    ensures Normalize(c).Some? ==>
              var n := Normalize(c).value;
              && KeyOf(n) == KeyOf(c) && n.extensionId == c.extensionId && n.source == c.source && n.value == c.value
              && n.definition == if c.kind.Programmatic? || c.definition == None then c.definition
                                 else Parse(c.kind.decl, c.definition.value)
  {
  }

  lemma NormalizeKeeps(c: Contribution)
    requires Normalize(c).Some?
    ensures KeyOf(Normalize(c).value) == KeyOf(c) && Normalize(c).value.source == c.source
    ensures Normalize(c).value.extensionId == c.extensionId
  {
  }

  lemma {:induction false} FirstIsOf(calls: seq<Call>, key: Key, source: Source)
    requires FirstOf(calls, key, source).Some?
    ensures KeyOf(FirstOf(calls, key, source).value) == key && FirstOf(calls, key, source).value.source == source
  {
    var front := calls[..|calls| - 1];
    if FirstOf(front, key, source).Some? {
      FirstIsOf(front, key, source);
    } else {
      NormalizeKeeps(calls[|calls| - 1].c);
    }
  }

  lemma WinnerIsOf(calls: seq<Call>, key: Key)
    requires Winner(calls, key).Some?
    ensures FirstOf(calls, key, Winner(calls, key).value.source) == Winner(calls, key)
    ensures KeyOf(Winner(calls, key).value) == key
  {
    if FirstOf(calls, key, Enterprise).Some? { FirstIsOf(calls, key, Enterprise); }
    else if FirstOf(calls, key, Npm).Some? { FirstIsOf(calls, key, Npm); }
    else if FirstOf(calls, key, Local).Some? { FirstIsOf(calls, key, Local); }
    else if FirstOf(calls, key, Project).Some? { FirstIsOf(calls, key, Project); }
    else { FirstIsOf(calls, key, BuiltIn); }
  }

  /** No source of higher rank than the winner's has a valid contribution. */
  lemma WinnerRanksHighest(calls: seq<Call>, key: Key, source: Source)
    requires FirstOf(calls, key, source).Some?
    ensures Winner(calls, key).Some? && Rank(source) <= Rank(Winner(calls, key).value.source)
  {
    WinnerIsOf(calls, key);
  }

  /** How one more call changes the winner. */
  lemma WinnerStep(front: seq<Call>, call: Call, key: Key)
    ensures Winner(front + [call], key) ==
            if call.Register? && KeyOf(call.c) == key && Normalize(call.c).Some?
               && (Winner(front, key).None? || Rank(call.c.source) > Rank(Winner(front, key).value.source))
            then Normalize(call.c)
            else Winner(front, key)
  {
    var calls := front + [call];
    assert calls[..|calls| - 1] == front;
    if Winner(front, key).Some? {
      WinnerIsOf(front, key);
    }
    forall source: Source
      ensures FirstOf(calls, key, source)
           == if FirstOf(front, key, source).Some? then FirstOf(front, key, source) else Claim(call, key, source)
    {
    }
    WinnerCases(front, call, key);
  }

  lemma WinnerCases(front: seq<Call>, call: Call, key: Key)
    requires forall source: Source ::
               FirstOf(front + [call], key, source)
               == if FirstOf(front, key, source).Some? then FirstOf(front, key, source) else Claim(call, key, source)
    requires Winner(front, key).Some? ==> FirstOf(front, key, Winner(front, key).value.source) == Winner(front, key)
    ensures Winner(front + [call], key) ==
            if call.Register? && KeyOf(call.c) == key && Normalize(call.c).Some?
               && (Winner(front, key).None? || Rank(call.c.source) > Rank(Winner(front, key).value.source))
            then Normalize(call.c)
            else Winner(front, key)
  {
    if Winner(front, key).Some? {
      forall source: Source | FirstOf(front, key, source).Some?
        ensures Rank(source) <= Rank(Winner(front, key).value.source)
      {
        WinnerRanksHighest(front, key, source);
      }
    }
  }

  /** After any calls, the entry for a key is the first valid one among those of the highest source rank. */
  lemma {:induction false} EntryIsWinner(calls: seq<Call>, key: Key)
    ensures Entry(Run(calls), key) == Winner(calls, key)
  {
    if calls != [] {
      var front, call := calls[..|calls| - 1], calls[|calls| - 1];
      EntryIsWinner(front, key);
      WinnerStep(front, call, key);
      assert front + [call] == calls;
      if call.Register? && Normalize(call.c).Some? {
        NormalizeKeeps(call.c);
      }
    }
  }

  /** What a call is warned about, after the calls before it. */
  function Complaint(before: seq<Call>, call: Call): seq<Warning> {
    match call
    case Warn(text) => [Note(text)]
    case Register(Contribution(kind, id, owner, source, _, _)) =>
      if Normalize(call.c).None? then [Invalid(Key(kind, id), owner)]
      else
        match Winner(before, Key(kind, id))
        case None => []
        case Some(holder) =>
          if holder.source == source then [Duplicate(Key(kind, id), source, owner, holder.extensionId)]
          else if Rank(holder.source) > Rank(source) then [Outranked(Key(kind, id), source, holder.source)]
          else []
  }

  function Complaints(calls: seq<Call>): seq<Warning> {
    if calls == [] then []
    else
      var n := |calls| - 1;
      Complaints(calls[..n]) + Complaint(calls[..n], calls[n])
  }

  lemma StepWarns(r: Registry, before: seq<Call>, call: Call)
    requires call.Register? ==> Entry(r, KeyOf(call.c)) == Winner(before, KeyOf(call.c))
    ensures Step(r, call).warnings == r.warnings + Complaint(before, call)
  {
    assert r.warnings + [] == r.warnings;
    if call.Register? && Normalize(call.c).Some? {
      NormalizeKeeps(call.c);
    }
  }

  /** After any calls, the warnings are those due to the notes, the rejected, the late and the outranked, in order. */
  lemma {:induction false} WarningsExactly(calls: seq<Call>)
    ensures Run(calls).warnings == Complaints(calls)
  {
    if calls != [] {
      var n := |calls| - 1;
      WarningsExactly(calls[..n]);
      if calls[n].Register? {
        EntryIsWinner(calls[..n], KeyOf(calls[n].c));
      }
      StepWarns(Run(calls[..n]), calls[..n], calls[n]);
    }
  }

  /** The calls of one source, in order. */
  function Only(calls: seq<Call>, source: Source): seq<Call> {
    if calls == [] then []
    else
      var last := calls[|calls| - 1];
      Only(calls[..|calls| - 1], source) + (if last.Register? && last.c.source == source then [last] else [])
  }

  lemma {:induction false} FirstOfOnly(calls: seq<Call>, key: Key, source: Source)
    ensures FirstOf(calls, key, source) == FirstOf(Only(calls, source), key, source)
  {
    if calls != [] {
      var front, last := calls[..|calls| - 1], calls[|calls| - 1];
      FirstOfOnly(front, key, source);
      if last.Register? && last.c.source == source {
        var only := Only(front, source) + [last];
        assert only[..|only| - 1] == Only(front, source);
      } else {
        assert Only(calls, source) == Only(front, source);
      }
    }
  }

  ghost predicate SameOrder(a: seq<Call>, b: seq<Call>) {
    forall source: Source :: Only(a, source) == Only(b, source)
  }

  /** Any interleaving that keeps the order within each source gives the same table. */
  lemma InterleavingIrrelevant(a: seq<Call>, b: seq<Call>)
    requires SameOrder(a, b)
    ensures Run(a).table == Run(b).table
  {
    forall key: Key
      ensures Entry(Run(a), key) == Entry(Run(b), key)
    {
      EntryIsWinner(a, key);
      EntryIsWinner(b, key);
      forall source: Source
        ensures FirstOf(a, key, source) == FirstOf(b, key, source)
      {
        FirstOfOnly(a, key, source);
        FirstOfOnly(b, key, source);
      }
    }
    EntriesMakeTable(Run(a), Run(b));
  }

  lemma EntriesMakeTable(r: Registry, q: Registry)
    requires forall key: Key :: Entry(r, key) == Entry(q, key)
    ensures r.table == q.table
  {
    forall key: Key
      ensures key in r.table <==> key in q.table
      ensures key in r.table && key in q.table ==> r.table[key] == q.table[key]
    {
      assert Entry(r, key) == Entry(q, key);
    }
  }

  /** Whether a call replaces the entry of a lower-ranked source. */
  predicate Overrides(r: Registry, call: Call) {
    && call.Register? && Normalize(call.c).Some? && KeyOf(call.c) in r.table
    && Rank(call.c.source) > Rank(r.table[KeyOf(call.c)].source)
  }

  function OverrideCount(calls: seq<Call>): nat {
    if calls == [] then 0
    else
      var front := calls[..|calls| - 1];
      OverrideCount(front) + if Overrides(Run(front), calls[|calls| - 1]) then 1 else 0
  }

  lemma StepCounts(r: Registry, call: Call)
    ensures |Step(r, call).table| + |Step(r, call).warnings| + (if Overrides(r, call) then 1 else 0)
         == |r.table| + |r.warnings| + 1
  {
    if call.Register? && Normalize(call.c).Some? {
      NormalizeKeeps(call.c);
      var n := Normalize(call.c).value;
      StoreCounts(r.table, KeyOf(n), n);
    }
  }

  lemma StoreCounts(t: map<Key, Contribution>, key: Key, n: Contribution)
    ensures |t[key := n]| == if key in t then |t| else |t| + 1
  {
    assert t[key := n].Keys == t.Keys + {key};
    assert |t[key := n]| == |t[key := n].Keys| && |t| == |t.Keys|;
  }

  /** Every call ends as an entry, as an override of one or as a warning. */
  lemma {:induction false} CallsAccounted(calls: seq<Call>)
    ensures |calls| == |Run(calls).table| + OverrideCount(calls) + |Run(calls).warnings|
  {
    if calls != [] {
      var front := calls[..|calls| - 1];
      CallsAccounted(front);
      StepCounts(Run(front), calls[|calls| - 1]);
    }
  }

  /** A contribution whose definition is parsed already is stored with that very definition. */
  lemma ParsedContributionStays(c: Contribution)
    requires Normalize(c).Some?
    ensures Normalize(Normalize(c).value) == Normalize(c)
  {
    if c.kind.Declarative? && c.definition.Some? {
      ParsedStays(c.kind.decl, c.definition.value);
    }
  }

  /** Every stored declarative definition is a parsed one, which is why the typed accessors may cast. */
  predicate StoredParsed(c: Contribution) {
    Normalize(c) == Some(c)
  }

  lemma {:induction false} EntriesParsed(calls: seq<Call>)
    ensures forall key :: key in Run(calls).table ==>
              StoredParsed(Run(calls).table[key]) && KeyOf(Run(calls).table[key]) == key
  {
    if calls != [] {
      var front, call := calls[..|calls| - 1], calls[|calls| - 1];
      EntriesParsed(front);
      if call.Register? && Normalize(call.c).Some? {
        ParsedContributionStays(call.c);
      }
    }
  }
}
