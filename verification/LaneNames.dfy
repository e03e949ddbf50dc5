/** Which statuses belong to which lane, in whatever way they are written (packages/work-items/src/lanes.ts:24-60). */
module LaneNames {
  import opened Text
  import opened Seqs
  import opened Lanes

  /** The statuses of a lane; any other status is to do as well. */
  function NamesOf(lane: Lane): set<string> {
    match lane
    case Backlog => {"backlog"}
    case Todo => {"todo", "to_do", "open", "new", ""}
    case InProgress => {"in_progress", "doing", "started", "active"}
    case Review => {"review", "in_review", "reviewing"}
    case Done => {"done", "closed", "completed", "resolved", "merged"}
  }

  /** A status is in a lane exactly if it is one of its names; only the lane to do takes any other status. */
  lemma CalledIff(s: string, lane: Lane)
    ensures lane != Todo ==> (LaneCalled(s) == lane <==> s in NamesOf(lane))
    ensures s in NamesOf(lane) ==> LaneCalled(s) == lane
  {
  }

  // --- how a status may be written ---

  predicate IsPart(w: string) {
    w != "" && forall i :: 0 <= i < |w| ==> !IsSpace(w[i]) && w[i] != '-'
  }

  /** Space or dashes between two words. */
  predicate IsBetween(s: string) {
    s != "" && forall i :: 0 <= i < |s| ==> IsSpace(s[i]) || s[i] == '-'
  }

  predicate PartsFit(words: seq<string>, gaps: seq<string>) {
    && |words| == |gaps| + 1
    && (forall i :: 0 <= i < |words| ==> IsPart(words[i]))
    && (forall i :: 0 <= i < |gaps| ==> IsBetween(gaps[i]))
  }

  /** The words with the gaps between them. */
  function Spread(words: seq<string>, gaps: seq<string>): string
    requires |words| == |gaps| + 1
  {
    if gaps == [] then words[0] else words[0] + (gaps[0] + Spread(words[1..], gaps[1..]))
  }

  /** The words in small letters with one underscore between them. */
  function Canonical(words: seq<string>): string
    requires words != []
  {
    if |words| == 1 then LowerAll(words[0]) else LowerAll(words[0]) + ("_" + Canonical(words[1..]))
  }

  lemma LowerJoin(a: string, b: string)
    ensures LowerAll(a + b) == LowerAll(a) + LowerAll(b)
  {
  }

  lemma LowerGap(s: string)
    requires IsBetween(s)
    ensures LowerAll(s) == s
  {
  }

  /** Small letters are still no space and no dash. */
  lemma LowerPart(w: string)
    requires IsPart(w)
    ensures IsPart(LowerAll(w))
  {
    forall i | 0 <= i < |w|
      ensures !IsSpace(LowerAll(w)[i]) && LowerAll(w)[i] != '-'
    {
      LowerSolid(w[i]);
    }
  }

  lemma LowerSolid(c: char)
    requires !IsSpace(c) && c != '-'
    ensures !IsSpace(Lower(c)) && Lower(c) != '-'
  {
  }

  lemma {:induction false} SqueezeWord(w: string, rest: string, inGap: bool)
    requires IsPart(w)
    ensures Squeeze(w + rest, inGap) == w + Squeeze(rest, false)
  {
    assert (w + rest)[1..] == w[1..] + rest && !IsGap(w[0]);
    if |w| == 1 {
      assert w[1..] + rest == rest;
    } else {
      SqueezeWord(w[1..], rest, false);
      Headed(w);
      Regroup([w[0]], w[1..], Squeeze(rest, false));
    }
  }

  lemma {:induction false} SqueezeGap(gap: string, rest: string, inGap: bool)
    requires IsBetween(gap) && rest != "" && !IsGap(rest[0])
    ensures Squeeze(gap + rest, inGap) == (if inGap then "" else "_") + Squeeze(rest, false)
  {
    assert (gap + rest)[1..] == gap[1..] + rest;
    if |gap| == 1 {
      assert gap[1..] + rest == rest;
    } else {
      SqueezeGap(gap[1..], rest, true);
    }
  }

  lemma SpreadStarts(words: seq<string>, gaps: seq<string>)
    requires PartsFit(words, gaps)
    ensures Spread(words, gaps) != "" && Spread(words, gaps)[0] == words[0][0]
  {
  }

  lemma {:induction false} SpreadEnds(words: seq<string>, gaps: seq<string>)
    requires PartsFit(words, gaps)
    ensures Spread(words, gaps) != "" && !IsSpace(Spread(words, gaps)[|Spread(words, gaps)| - 1])
  {
    if gaps != [] {
      SpreadEnds(words[1..], gaps[1..]);
      EndsLike(words[0], gaps[0], Spread(words[1..], gaps[1..]));
    }
  }

  lemma EndsLike(a: string, b: string, c: string)
    requires c != ""
    ensures a + (b + c) != "" && (a + (b + c))[|a + (b + c)| - 1] == c[|c| - 1]
  {
  }

  lemma {:induction false} SpreadSqueezed(words: seq<string>, gaps: seq<string>, inGap: bool)
    requires PartsFit(words, gaps)
    ensures Squeeze(LowerAll(Spread(words, gaps)), inGap) == Canonical(words)
    ensures LowerAll(Spread(words, gaps)) != "" && !Lanes.IsGap(LowerAll(Spread(words, gaps))[0])
  {
    LowerPart(words[0]);
    SpreadStarts(words, gaps);
    LowerSolid(words[0][0]);
    if gaps == [] {
      SqueezeWord(LowerAll(words[0]), "", inGap);
      WithEmpty(LowerAll(words[0]));
    } else {
      var rest := Spread(words[1..], gaps[1..]);
      SpreadSqueezed(words[1..], gaps[1..], false);
      LowerJoin(words[0], gaps[0] + rest);
      LowerJoin(gaps[0], rest);
      LowerGap(gaps[0]);
      SqueezeWord(LowerAll(words[0]), gaps[0] + LowerAll(rest), inGap);
      SqueezeGap(gaps[0], LowerAll(rest), false);
    }
  }

  /** Space around it, the case of its letters and what separates its words do not matter to a status. */
  lemma NormExactly(before: string, words: seq<string>, gaps: seq<string>, behind: string)
    requires PartsFit(words, gaps) && AllSpace(before) && AllSpace(behind)
    ensures Norm(before + (Spread(words, gaps) + behind)) == Canonical(words)
  {
    var s := Spread(words, gaps);
    SpreadStarts(words, gaps);
    SpreadEnds(words, gaps);
    assert (s + behind)[0] == s[0];
    SpaceSkipped(before, s + behind);
    EndTrimmed(s, behind);
    SpreadSqueezed(words, gaps, false);
  }

  /** So a status is in a lane if its words, put together with underscores, are one of the lane's names. */
  lemma WrittenLane(before: string, words: seq<string>, gaps: seq<string>, behind: string, lane: Lane)
    requires PartsFit(words, gaps) && AllSpace(before) && AllSpace(behind)
    ensures lane != Todo ==>
              (LaneOf(before + (Spread(words, gaps) + behind)) == lane <==> Canonical(words) in NamesOf(lane))
    ensures Canonical(words) in NamesOf(lane) ==> LaneOf(before + (Spread(words, gaps) + behind)) == lane
  {
    NormExactly(before, words, gaps, behind);
    CalledIff(Canonical(words), lane);
  }
}
