/** Which placeholders a text holds, whatever else is in it (packages/declarative-schemas/src/schemas.ts:15-32). */
module TemplateForms {
  import opened Wrappers
  import opened Text
  import opened Seqs
  import opened Templates

  predicate IsNameText(s: string) {
    && |s| > 0 && IsWord(s[0])
    && forall i :: 0 <= i < |s| ==> IsWord(s[i]) || s[i] == '.' || s[i] == '-'
  }

  /** Two braces, a name with space around it or none, and two braces. */
  predicate IsHole(s: string, left: string, name: string, right: string, rest: string) {
    && s == "{{" + (left + (name + (right + ("}}" + rest))))
    && AllSpace(left) && IsNameText(name) && AllSpace(right)
  }

  /** A placeholder stands at the start of the text. */
  ghost predicate StartsHole(s: string, name: string, rest: string) {
    exists left, right :: IsHole(s, left, name, right, rest)
  }

  lemma {:induction false} NameCut(s: string)
    ensures forall i :: 0 <= i < NameLen(s) ==> IsNameChar(s[i])
  {
    if s != "" && IsNameChar(s[0]) {
      NameCut(s[1..]);
      assert forall i :: 0 < i < NameLen(s) ==> s[i] == s[1..][i - 1];
    }
  }

  lemma AfterCut(s: string, head: string)
    requires After(s, head).Some?
    ensures s == head + After(s, head).value
  {
  }

  lemma MatchSplits(s: string, open: string, close: string) returns (left: string, right: string)
    requires MatchHere(s, open, close).Match?
    ensures var m := MatchHere(s, open, close);
            && s == open + (left + (m.name + (right + (close + m.rest))))
            && AllSpace(left) && IsNameText(m.name) && AllSpace(right)
  {
    var t := After(s, open).value;
    AfterCut(s, open);
    left := SpaceCut(t);
    var u := TrimStart(t);
    var n := NameLen(u);
    NameCut(u);
    CutInTwo(u, n);
    right := SpaceCut(u[n..]);
    AfterCut(TrimStart(u[n..]), close);
  }

  lemma NameTextIsName(s: string)
    ensures IsNameText(s) <==> IsName(s)
  {
  }

  /** The pattern matches exactly the placeholders. */
  lemma MatchIff(s: string, name: string, rest: string)
    ensures MatchHere(s, OPEN, CLOSE) == Match(name, rest) <==> StartsHole(s, name, rest)
  {
    if MatchHere(s, OPEN, CLOSE) == Match(name, rest) {
      var left, right := MatchSplits(s, OPEN, CLOSE);
      assert IsHole(s, left, name, right, rest);
    }
    if left, right :| IsHole(s, left, name, right, rest) {
      NameTextIsName(name);
      HoleMatched(left, name, right, OPEN, CLOSE, rest);
    }
  }

  /** No placeholder starts before position `n`. */
  ghost predicate NoneBefore(s: string, n: nat)
    requires n <= |s|
  {
    forall i, name, rest :: 0 <= i < n ==> !StartsHole(s[i..], name, rest)
  }

  /** The names are those of the leftmost placeholders, each looked for behind the one before it. */
  ghost predicate AreFound(s: string, names: seq<string>)
    decreases |names|
  {
    if names == [] then NoneBefore(s, |s|)
    else exists n: nat, rest: string :: n <= |s| && FirstHole(s, n, names[0], rest) && AreFound(rest, names[1..])
  }

  ghost predicate FirstHole(s: string, n: nat, name: string, rest: string)
    requires n <= |s|
  {
    NoneBefore(s, n) && StartsHole(s[n..], name, rest)
  }

  lemma NoneHere(s: string)
    requires MatchHere(s, OPEN, CLOSE).NoMatch?
    ensures forall name, rest :: !StartsHole(s, name, rest)
  {
    forall name, rest
      ensures !StartsHole(s, name, rest)
    {
      MatchIff(s, name, rest);
    }
  }

  lemma NoneFurther(s: string, n: nat)
    requires s != "" && MatchHere(s, OPEN, CLOSE).NoMatch? && n < |s| && NoneBefore(s[1..], n)
    ensures NoneBefore(s, n + 1)
  {
    NoneHere(s);
    forall i, name, rest | 0 <= i < n + 1
      ensures !StartsHole(s[i..], name, rest)
    {
      if i == 0 {
        CutWhole(s);
      } else {
        assert s[i..] == s[1..][i - 1..];
      }
    }
  }

  lemma FoundFurther(s: string, names: seq<string>)
    requires s != "" && MatchHere(s, OPEN, CLOSE).NoMatch? && AreFound(s[1..], names)
    ensures AreFound(s, names)
  {
    if names == [] {
      NoneFurther(s, |s| - 1);
    } else {
      var n: nat, rest: string :|
        n <= |s[1..]| && FirstHole(s[1..], n, names[0], rest) && AreFound(rest, names[1..]);
      NoneFurther(s, n);
      assert s[1..][n..] == s[n + 1..];
      assert FirstHole(s, n + 1, names[0], rest);
    }
  }

  lemma FoundHere(s: string, name: string, rest: string, names: seq<string>)
    requires StartsHole(s, name, rest) && AreFound(rest, names)
    ensures AreFound(s, [name] + names)
  {
    HeadAndRest(name, names);
    CutWhole(s);
    assert FirstHole(s, 0, name, rest);
  }

  /** On every text, the names found are those of its leftmost placeholders; none is missed. */
  lemma {:induction false} MatchesExactly(s: string)
    ensures AreFound(s, Matches(s))
    decreases |s|
  {
    if s != "" {
      match MatchHere(s, OPEN, CLOSE)
      case NoMatch =>
        MatchesExactly(s[1..]);
        FoundFurther(s, Matches(s[1..]));
      case Match(name, rest) =>
        MatchesExactly(rest);
        MatchIff(s, name, rest);
        FoundHere(s, name, rest, Matches(rest));
    }
  }
}
