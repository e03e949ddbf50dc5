/** Kanban lanes and the projection of free status strings onto them (packages/work-items/src/lanes.ts). */
module Lanes {
  import opened Text

  datatype Lane = Backlog | Todo | InProgress | Review | Done

  const LANES := [Backlog, Todo, InProgress, Review, Done]

  function LaneName(lane: Lane): string {
    match lane
    case Backlog => "backlog"
    case Todo => "todo"
    case InProgress => "in_progress"
    case Review => "review"
    case Done => "done"
  }

  predicate IsGap(c: char) {
    IsSpace(c) || c == '-'
  }

  /** `replace(/[\s-]+/g, '_')`; `inGap` says that the run of gaps in front has its underscore already. */
  function Squeeze(s: string, inGap: bool): string {
    if s == "" then ""
    else if IsGap(s[0]) then (if inGap then "" else "_") + Squeeze(s[1..], true)
    else [s[0]] + Squeeze(s[1..], false)
  }

  function Norm(status: string): string {
    Squeeze(LowerAll(Trim(status)), false)
  }

  /** An absent status is the empty one. */
  function LaneOf(status: string): Lane {
    LaneCalled(Norm(status))
  }

  /** The canonical values and those of other trackers; anything else is to do. */
  function LaneCalled(s: string): Lane {
    if s == "backlog" then Backlog
    else if s == "in_progress" || s == "doing" || s == "started" || s == "active" then InProgress
    else if s == "review" || s == "in_review" || s == "reviewing" then Review
    else if s == "done" || s == "closed" || s == "completed" || s == "resolved" || s == "merged" then Done
    else Todo
  }

  /** Texts that normalizing leaves alone. */
  predicate IsPlain(s: string) {
    forall i :: 0 <= i < |s| ==> 'a' <= s[i] <= 'z' || s[i] == '_'
  }

  lemma {:induction false} SqueezePlain(s: string, inGap: bool)
    requires IsPlain(s)
    ensures Squeeze(s, inGap) == s
  {
    if s != "" {
      SqueezePlain(s[1..], false);
      assert !IsGap(s[0]);
    }
  }

  lemma PlainStays(s: string)
    requires IsPlain(s)
    ensures Norm(s) == s
  {
    TrimmedStays(s);
    assert LowerAll(s) == s;
    SqueezePlain(s, false);
  }

  lemma NameIsCalled(lane: Lane)
    ensures LaneCalled(LaneName(lane)) == lane
  {
  }

  /** A canonical lane name is its own lane. */
  lemma LaneOfName(lane: Lane)
    ensures LaneOf(LaneName(lane)) == lane
  {
    NameIsPlain(lane);
    NameIsCalled(lane);
    CalledPlain(LaneName(lane), lane);
  }

  lemma NameIsPlain(lane: Lane)
    ensures IsPlain(LaneName(lane))
  {
    match lane
    case InProgress =>
    case _ =>
  }

  lemma CalledPlain(name: string, lane: Lane)
    requires IsPlain(name) && LaneCalled(name) == lane
    ensures LaneOf(name) == lane
  {
    PlainStays(name);
  }
}
