/**
 Which definitions are accepted, and what becomes of them, field by field (packages/workflow-schema/src/schema.ts,
 packages/declarative-schemas/src/schemas.ts, packages/declarative-schemas/src/parse.ts).
 */
module DefinitionForms {
  import opened Wrappers
  import opened Order
  import opened Templates
  import opened Definitions

  /** A definition is shaped and named, and says its type, which workflows and methodologies may leave out. */
  predicate IsFramed(d: Definition, kind: DeclKind) {
    && d.shaped && |d.id| > 0
    && (d.declared == Some(kind) || (d.declared == None && kind in {Workflow, Methodology}))
  }

  /** Named phases that are not required and optional at once, of which no two have the same id. */
  predicate PhasesFit(ps: seq<Phase>) {
    && |ps| > 0
    && (forall i :: 0 <= i < |ps| ==> |ps[i].id| > 0 && |ps[i].name| > 0)
    && (forall i :: 0 <= i < |ps| ==> ps[i].required != Some(true) || ps[i].optionally != Some(true))
    && (forall i, j :: 0 <= i < j < |ps| ==> ps[i].id != ps[j].id)
  }

  /** A phase is required unless it says otherwise, and a failure aborts unless it says otherwise. */
  predicate IsFilled(p: Phase, q: Phase) {
    && q.id == p.id && q.name == p.name && q.optionally == p.optionally && q.others == p.others
    && q.required == Some(p.optionally != Some(true) && p.required != Some(false))
    && q.onFailure == (if p.onFailure.Some? then p.onFailure else Some(Abort))
  }

  /** Everything but the body is copied. */
  predicate SameFrame(d: Definition, r: Definition) {
    r.declared == d.declared && r.id == d.id && r.shaped == d.shaped && r.others == d.others
  }

  lemma PhasesFitIff(ps: seq<Phase>)
    ensures PhasesAccepted(ps) <==> PhasesFit(ps)
  {
    if PhasesFit(ps) {
      forall i | 0 <= i < |ps|
        ensures PhaseAccepted(ps[i])
      {
        assert |ps[i].id| > 0;
      }
    }
    if PhasesAccepted(ps) {
      forall i | 0 <= i < |ps|
        ensures |ps[i].id| > 0 && |ps[i].name| > 0
        ensures ps[i].required != Some(true) || ps[i].optionally != Some(true)
      {
        assert PhaseAccepted(ps[i]);
      }
    }
  }

  lemma PhaseFilled(p: Phase)
    requires PhaseAccepted(p)
    ensures IsFilled(p, NormalizePhase(p))
  {
    match p.required
    case None =>
    case Some(b) =>
      assert b ==> p.required == Some(true);
      assert !b ==> p.required == Some(false);
  }

  /** Workflows: the five levels are all of them by default. */
  lemma WorkflowExactly(d: Definition)
    requires d.body.WorkflowBody?
    ensures Parse(Workflow, d).Some? <==> IsFramed(d, Workflow) && PhasesFit(d.body.phases)
    ensures Parse(Workflow, d).Some? ==>
              var r := Parse(Workflow, d).value;
              && SameFrame(d, r) && r.body.WorkflowBody? && |r.body.phases| == |d.body.phases|
              && r.body.levels == (if d.body.levels.Some? then d.body.levels else Some([0, 1, 2, 3, 4]))
              && forall i :: 0 <= i < |d.body.phases| ==> IsFilled(d.body.phases[i], r.body.phases[i])
  {
    PhasesFitIff(d.body.phases);
    if Parse(Workflow, d).Some? {
      forall i | 0 <= i < |d.body.phases|
        ensures IsFilled(d.body.phases[i], NormalizePhase(d.body.phases[i]))
      {
        PhaseFilled(d.body.phases[i]);
      }
    }
  }

  /** Methodologies: delivery at a medium risk by default. */
  lemma MethodologyExactly(d: Definition)
    requires d.body.MethodologyBody?
    ensures Parse(Methodology, d).Some? <==> IsFramed(d, Methodology) && d.body.category != Some("")
    ensures Parse(Methodology, d).Some? ==>
              var r := Parse(Methodology, d).value;
              && SameFrame(d, r) && r.body.MethodologyBody?
              && r.body.category == (if d.body.category.Some? then d.body.category else Some("delivery"))
              && r.body.risk == (if d.body.risk.Some? then d.body.risk else Some(Medium))
  {
  }

  /** Artifact templates: the placeholders in order of appearance, and then the declared variables that are none. */
  lemma ArtifactExactly(d: Definition)
    requires d.body.ArtifactBody?
    ensures Parse(ArtifactTemplate, d).Some?
       <==> IsFramed(d, ArtifactTemplate) && d.body.template != "" && "" !in d.body.variables.GetOr([])
    ensures Parse(ArtifactTemplate, d).Some? ==>
              var r := Parse(ArtifactTemplate, d).value;
              && SameFrame(d, r) && r.body.ArtifactBody? && r.body.template == d.body.template
              && r.body.variables.Some?
              && FirstAppearances(Variables(d.body.template), Matches(d.body.template))
              && Variables(d.body.template) <= r.body.variables.value
              && forall x :: x in r.body.variables.value
                        <==> x in Matches(d.body.template) || x in d.body.variables.GetOr([])
  {
    if Parse(ArtifactTemplate, d).Some? {
      ArtifactVariables(d.body.template, d.body.variables);
    }
  }

  /** A definition of another kind is copied if it is framed. */
  lemma PlainExactly(d: Definition, kind: DeclKind)
    requires d.body.PlainBody?
    ensures Parse(kind, d) == if IsFramed(d, kind) && d.body.kind == kind then Some(d) else None
  {
  }

  /**
   A file is read as the kind its place implies, unless it names another one; without an implied kind it is read as
   the kind it names, and has to name one.
   */
  lemma FileExactly(expected: Option<DeclKind>, d: Definition)
    ensures expected.Some? && (d.declared == None || d.declared == expected)
        ==> ParseFile(expected, Some(d))
            == Parse(expected.value, Definition(expected, d.id, d.shaped, d.others, d.body))
    ensures expected.Some? && d.declared != None && d.declared != expected ==> ParseFile(expected, Some(d)) == None
    ensures expected == None && d.declared.Some? ==> ParseFile(expected, Some(d)) == Parse(d.declared.value, d)
    ensures expected == None && d.declared == None ==> ParseFile(expected, Some(d)) == None
    ensures ParseFile(expected, None) == None
  {
    match expected
    case None =>
    case Some(kind) => assert d.declared == expected ==> d == d.(declared := Some(kind));
  }
}
