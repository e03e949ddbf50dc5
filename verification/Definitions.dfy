/**
 * Parsing declarative definitions: the refinements and default-filling transforms of workflows, methodologies
 * and artifact templates (packages/workflow-schema/src/schema.ts, packages/declarative-schemas/src/schemas.ts),
 * and the choice of a schema by type (packages/declarative-schemas/src/parse.ts, union.ts).
 * Whether the remaining fields have the right shape is decided by the schema library and is a given bit here.
 */
module Definitions {
  import opened Wrappers
  import opened Order
  import opened Templates

  datatype DeclKind =
    | Methodology | Workflow | QuestionPack | PromptTemplate | ArtifactTemplate
    | PolicyPreset | ModelRouting | ReportTemplate | RoleDefinition | CommandMapping

  datatype OnFailure = Abort | Continue | Retry

  datatype Risk = Low | Medium | High

  /** `others` stands for the fields that parsing copies. */
  datatype Phase = Phase(
    id: string,
    name: string,
    required: Option<bool>,
    optionally: Option<bool>,
    onFailure: Option<OnFailure>,
    others: string)

  datatype Body =
    | WorkflowBody(phases: seq<Phase>, levels: Option<seq<nat>>)
    | MethodologyBody(category: Option<string>, risk: Option<Risk>)
    | ArtifactBody(template: string, variables: Option<seq<string>>)
    | PlainBody(kind: DeclKind)

  datatype Definition = Definition(declared: Option<DeclKind>, id: string, shaped: bool, others: string, body: Body)

  const ALL_LEVELS: seq<nat> := [0, 1, 2, 3, 4]

  const DELIVERY := "delivery"

  // --- phases ---

  function NormalizePhase(p: Phase): Phase {
    p.(required := Some(if p.optionally == Some(true) then false else p.required.GetOr(true)),
    onFailure := Some(p.onFailure.GetOr(Abort)))
  }

  predicate Contradicts(p: Phase) {
    p.required == Some(true) && p.optionally == Some(true)
  }

  predicate PhaseAccepted(p: Phase) {
    p.id != "" && p.name != "" && !Contradicts(p)
  }

  /** A normalized phase says outright whether it is required and what a failure does. */
  predicate PhaseComplete(p: Phase) {
    PhaseAccepted(p) && p.required.Some? && p.onFailure.Some?
  }

  lemma NormalizedPhase(p: Phase)
    requires PhaseAccepted(p)
    ensures PhaseComplete(NormalizePhase(p))
    ensures NormalizePhase(p).required == Some(false) <==> p.optionally == Some(true) || p.required == Some(false)
    ensures PhaseComplete(p) <==> NormalizePhase(p) == p
  {
    var r := NormalizePhase(p);
    if PhaseComplete(p) {
      assert p.required.value ==> p.required == Some(true);
      assert p.required == Some(p.required.value);
      assert r.required == p.required;
    }
  }

  function NormalizePhases(ps: seq<Phase>): (r: seq<Phase>)
    ensures |r| == |ps| && forall i :: 0 <= i < |ps| ==> r[i] == NormalizePhase(ps[i])
  {
    seq(|ps|, i requires 0 <= i < |ps| => NormalizePhase(ps[i]))
  }

  // --- duplicate phase ids ---

  predicate Repeats(ps: seq<Phase>, k: nat)
    requires k < |ps|
  {
    exists j :: 0 <= j < k && ps[j].id == ps[k].id
  }

  predicate DistinctIds(ps: seq<Phase>) {
    forall j, k :: 0 <= j < k < |ps| ==> ps[j].id != ps[k].id
  }

  /** Reports every phase whose id an earlier phase has, in order. */
  method DuplicateIds(ps: seq<Phase>) returns (issues: seq<nat>)
    ensures forall k: nat :: k in issues <==> k < |ps| && Repeats(ps, k)
    ensures forall i, j :: 0 <= i < j < |issues| ==> issues[i] < issues[j]
    ensures issues == [] <==> DistinctIds(ps)
  {
    issues := [];
    var seen: set<string> := {};
    for i := 0 to |ps|
      invariant forall x :: x in seen <==> exists j :: 0 <= j < i && ps[j].id == x
      invariant forall k: nat :: k in issues <==> k < i && Repeats(ps, k)
      invariant forall a, b :: 0 <= a < b < |issues| ==> issues[a] < issues[b]
      invariant issues != [] ==> issues[|issues| - 1] in issues
    {
      if ps[i].id in seen {
        issues := issues + [i];
      }
      seen := seen + {ps[i].id};
    }
    if issues != [] {
      assert issues[0] in issues;
    }
    forall j, k | 0 <= j < k < |ps| && issues == []
      ensures ps[j].id != ps[k].id
    {
      assert k !in issues;
    }
  }

  // --- definitions ---

  function KindOf(b: Body): DeclKind {
    match b
    case WorkflowBody(_, _) => Workflow
    case MethodologyBody(_, _) => Methodology
    case ArtifactBody(_, _) => ArtifactTemplate
    case PlainBody(k) => k
  }

  /** The `type` field is optional on workflows and methodologies only. */
  predicate TypeFits(kind: DeclKind, declared: Option<DeclKind>) {
    declared == Some(kind) || (declared.None? && (kind == Workflow || kind == Methodology))
  }

  predicate PhasesAccepted(ps: seq<Phase>) {
    && ps != []
    && (forall i :: 0 <= i < |ps| ==> PhaseAccepted(ps[i]))
    && DistinctIds(ps)
  }

  predicate BodyAccepted(b: Body) {
    match b
    case WorkflowBody(phases, _) => PhasesAccepted(phases)
    case MethodologyBody(category, _) => category != Some("")
    case ArtifactBody(template, variables) =>
      template != "" && (variables.Some? ==> "" !in variables.value)
    case PlainBody(_) => true
  }

  predicate Accepted(kind: DeclKind, d: Definition) {
    d.shaped && d.id != "" && KindOf(d.body) == kind && TypeFits(kind, d.declared) && BodyAccepted(d.body)
  }

  /** The names of `more` that are not among `names`, in order and with their repetitions. */
  function Without(more: seq<string>, names: seq<string>): seq<string> {
    if more == [] then []
    else (if more[0] in names then [] else [more[0]]) + Without(more[1..], names)
  }

  function AllVariables(template: string, declared: Option<seq<string>>): seq<string> {
    Variables(template) + Without(declared.GetOr([]), Variables(template))
  }

  function NormalizeBody(b: Body): Body {
    match b
    case WorkflowBody(phases, levels) => WorkflowBody(NormalizePhases(phases), Some(levels.GetOr(ALL_LEVELS)))
    case MethodologyBody(category, risk) => MethodologyBody(Some(category.GetOr(DELIVERY)), Some(risk.GetOr(Medium)))
    case ArtifactBody(template, variables) => ArtifactBody(template, Some(AllVariables(template, variables)))
    case PlainBody(_) => b
  }

  /** `declarativeSchemasByType[kind].safeParse`. */
  function Parse(kind: DeclKind, d: Definition): Option<Definition> {
    if Accepted(kind, d) then Some(d.(body := NormalizeBody(d.body))) else None
  }

  /** The workflow schema as it runs: the phases one by one, then the check for duplicate ids, then the defaults. */
  method ParseWorkflow(d: Definition) returns (r: Option<Definition>)
    requires d.body.WorkflowBody?
    ensures r == Parse(Workflow, d)
  {
    var given := d.body.phases;
    var phases: seq<Phase> := [];
    for i := 0 to |given|
      invariant forall j :: 0 <= j < i ==> PhaseAccepted(given[j])
      invariant |phases| == i && forall j :: 0 <= j < i ==> phases[j] == NormalizePhase(given[j])
    {
      if !PhaseAccepted(given[i]) {
        return None;
      }
      phases := phases + [NormalizePhase(given[i])];
    }
    var issues := DuplicateIds(phases);
    SameIds(given, phases);
    assert phases == NormalizePhases(given);
    if !d.shaped || d.id == "" || !TypeFits(Workflow, d.declared) || given == [] || issues != [] {
      return None;
    }
    r := Some(d.(body := WorkflowBody(phases, Some(d.body.levels.GetOr(ALL_LEVELS)))));
  }

  lemma SameIds(given: seq<Phase>, phases: seq<Phase>)
    requires |phases| == |given| && forall i :: 0 <= i < |given| ==> phases[i] == NormalizePhase(given[i])
    ensures DistinctIds(phases) <==> DistinctIds(given)
  {
    assert forall i :: 0 <= i < |given| ==> phases[i].id == given[i].id;
  }

  // --- properties ---

  lemma {:induction false} WithoutSplits(more: seq<string>, names: seq<string>, x: string)
    ensures x in Without(more, names) <==> x in more && x !in names
  {
    if more != [] {
      WithoutSplits(more[1..], names, x);
    }
  }

  lemma {:induction false} WithoutNothing(more: seq<string>, names: seq<string>)
    requires forall x :: x in more ==> x !in names
    ensures Without(more, names) == more
  {
    if more != [] {
      WithoutNothing(more[1..], names);
    }
  }

  lemma {:induction false} WithoutThose(head: seq<string>, more: seq<string>, names: seq<string>)
    requires forall x :: x in head ==> x in names
    ensures Without(head + more, names) == Without(more, names)
  {
    if head == [] {
      assert head + more == more;
    } else {
      assert (head + more)[1..] == head[1..] + more;
      WithoutThose(head[1..], more, names);
    }
  }

  /** The variables of an artifact template: its placeholders in order of appearance, then the other declared ones. */
  lemma ArtifactVariables(template: string, declared: Option<seq<string>>)
    ensures forall x :: x in AllVariables(template, declared)
                   <==> x in Matches(template) || x in declared.GetOr([])
    ensures Variables(template) <= AllVariables(template, declared)
    ensures FirstAppearances(Variables(template), Matches(template))
  {
    VariablesInOrder(template);
    var names := Variables(template);
    forall x
      ensures x in AllVariables(template, declared) <==> x in Matches(template) || x in declared.GetOr([])
    {
      WithoutSplits(declared.GetOr([]), names, x);
    }
  }

  lemma VariablesStay(template: string, declared: Option<seq<string>>)
    ensures AllVariables(template, Some(AllVariables(template, declared))) == AllVariables(template, declared)
  {
    var names := Variables(template);
    var rest := Without(declared.GetOr([]), names);
    WithoutThose(names, rest, names);
    forall x | x in rest
      ensures x !in names
    {
      WithoutSplits(declared.GetOr([]), names, x);
    }
    WithoutNothing(rest, names);
  }

  lemma {:induction false} NamesNotEmpty(s: string)
    ensures "" !in Matches(s)
    decreases |s|
  {
    if s != "" {
      match MatchHere(s, OPEN, CLOSE)
      case NoMatch => NamesNotEmpty(s[1..]);
      case Match(name, rest) => NamesNotEmpty(rest);
    }
  }

  lemma VariablesNotEmpty(template: string, declared: Option<seq<string>>)
    requires declared.Some? ==> "" !in declared.value
    ensures "" !in AllVariables(template, declared)
  {
    ArtifactVariables(template, declared);
    NamesNotEmpty(template);
  }

  lemma PhasesStay(ps: seq<Phase>)
    requires PhasesAccepted(ps)
    ensures PhasesAccepted(NormalizePhases(ps)) && NormalizePhases(NormalizePhases(ps)) == NormalizePhases(ps)
  {
    SameIds(ps, NormalizePhases(ps));
    forall i | 0 <= i < |ps|
      ensures PhaseAccepted(NormalizePhases(ps)[i])
      ensures NormalizePhases(NormalizePhases(ps))[i] == NormalizePhases(ps)[i]
    {
      NormalizedPhase(ps[i]);
    }
  }

  lemma BodyStays(b: Body)
    requires BodyAccepted(b)
    ensures KindOf(NormalizeBody(b)) == KindOf(b) && BodyAccepted(NormalizeBody(b))
    ensures NormalizeBody(NormalizeBody(b)) == NormalizeBody(b)
  {
    match b
    case WorkflowBody(phases, levels) => PhasesStay(phases);
    case MethodologyBody(category, risk) =>
    case ArtifactBody(template, variables) =>
      VariablesStay(template, variables);
      VariablesNotEmpty(template, variables);
    case PlainBody(_) =>
  }

  /** Parsing an already parsed definition succeeds and changes nothing. */
  lemma ParsedStays(kind: DeclKind, d: Definition)
    requires Parse(kind, d).Some?
    ensures Parse(kind, Parse(kind, d).value) == Parse(kind, d)
  {
    BodyStays(d.body);
  }

  /** The definitions that parsing leaves alone are the accepted ones with every default filled in. */
  predicate Complete(b: Body) {
    match b
    case WorkflowBody(phases, levels) => levels.Some? && forall i :: 0 <= i < |phases| ==> PhaseComplete(phases[i])
    case MethodologyBody(category, risk) => category.Some? && risk.Some?
    case ArtifactBody(template, variables) =>
      variables.Some? && Variables(template) <= variables.value
      && forall i :: |Variables(template)| <= i < |variables.value| ==> variables.value[i] !in Variables(template)
    case PlainBody(_) => true
  }

  lemma VariablesFixed(template: string, vs: seq<string>)
    ensures AllVariables(template, Some(vs)) == vs
       <==> Variables(template) <= vs
            && forall i :: |Variables(template)| <= i < |vs| ==> vs[i] !in Variables(template)
  {
    var names := Variables(template);
    if AllVariables(template, Some(vs)) == vs {
      VariablesSplit(vs, names);
    }
    if names <= vs && forall i :: |names| <= i < |vs| ==> vs[i] !in names {
      var rest := vs[|names|..];
      assert vs == names + rest;
      WithoutThose(names, rest, names);
      WithoutNothing(rest, names);
    }
  }

  lemma VariablesSplit(vs: seq<string>, names: seq<string>)
    requires names + Without(vs, names) == vs
    ensures names <= vs && forall i :: |names| <= i < |vs| ==> vs[i] !in names
  {
    var rest := Without(vs, names);
    forall i | |names| <= i < |vs|
      ensures vs[i] !in names
    {
      assert vs[i] == rest[i - |names|];
      WithoutSplits(vs, names, vs[i]);
    }
  }

  lemma PhasesFixed(ps: seq<Phase>)
    requires PhasesAccepted(ps)
    ensures NormalizePhases(ps) == ps <==> forall i :: 0 <= i < |ps| ==> PhaseComplete(ps[i])
  {
    forall i | 0 <= i < |ps|
      ensures NormalizePhases(ps)[i] == ps[i] <==> PhaseComplete(ps[i])
    {
      NormalizedPhase(ps[i]);
    }
  }

  lemma FixedIff(kind: DeclKind, d: Definition)
    requires Accepted(kind, d)
    ensures Parse(kind, d) == Some(d) <==> Complete(d.body)
  {
    match d.body
    case WorkflowBody(phases, levels) => PhasesFixed(phases);
    case MethodologyBody(category, risk) =>
    case ArtifactBody(template, variables) =>
      if variables.Some? {
        VariablesFixed(template, variables.value);
      }
    case PlainBody(_) =>
  }

  // --- files ---

  /**
   * A YAML file, read with the type its place implies: a missing type is filled in, a conflicting one is an error;
   * without an implied type the file has to name its own.
   */
  function ParseFile(expected: Option<DeclKind>, raw: Option<Definition>): Option<Definition> {
    match raw
    case None => None
    case Some(d) =>
      match expected
      case None => if d.declared.None? then None else Parse(d.declared.value, d)
      case Some(kind) =>
        if d.declared.Some? && d.declared != Some(kind) then None else Parse(kind, d.(declared := Some(kind)))
  }

  /** What the loader gets from a file is registered as it is: the registry's own parse changes nothing. */
  lemma FileStays(expected: Option<DeclKind>, raw: Option<Definition>)
    requires ParseFile(expected, raw).Some?
    ensures var d := ParseFile(expected, raw).value;
            d.declared.Some? && (expected.Some? ==> d.declared == expected) && Parse(d.declared.value, d) == Some(d)
  {
    var d := raw.value;
    match expected
    case None => ParsedStays(d.declared.value, d);
    case Some(kind) => ParsedStays(kind, d.(declared := Some(kind)));
  }
}
