/** `{{variable}}` placeholders of artifact templates (packages/declarative-schemas/src/schemas.ts:15-32). */
module Templates {
  import opened Wrappers
  import opened Text
  import opened Seqs
  import opened Order

  predicate IsNameStart(c: char) {
    IsWord(c)
  }

  predicate IsNameChar(c: char) {
    IsWord(c) || c == '.' || c == '-'
  }

  function NameLen(s: string): (r: nat)
    ensures r <= |s|
  {
    if s != "" && IsNameChar(s[0]) then 1 + NameLen(s[1..]) else 0
  }

  datatype Match = NoMatch | Match(name: string, rest: string)

  /** Matches one placeholder at the start of a text. */
  function MatchHere(s: string, open: string, close: string): (r: Match)
    ensures r.Match? && open != "" ==> |r.rest| < |s|
  {
    match After(s, open)
    case None => NoMatch
    case Some(t) =>
      var u := TrimStart(t);
      TrimStartShorter(t);
      var n := NameLen(u);
      if n == 0 || !IsNameStart(u[0]) then NoMatch
      else
        var v := TrimStart(u[n..]);
        TrimStartShorter(u[n..]);
        match After(v, close)
        case None => NoMatch
        case Some(rest) => Match(u[..n], rest)
  }

  lemma {:induction false} TrimStartShorter(s: string)
    ensures |TrimStart(s)| <= |s|
  {
    if s != "" && IsSpace(s[0]) {
      TrimStartShorter(s[1..]);
    }
  }

  const OPEN := "{{"
  const CLOSE := "}}"

  /** All placeholder names, from left to right, without overlaps. */
  function Matches(s: string): seq<string>
    decreases |s|
  {
    if s == "" then []
    else
      match MatchHere(s, OPEN, CLOSE)
      case NoMatch => Matches(s[1..])
      case Match(name, rest) => [name] + Matches(rest)
  }

  function AddNew(names: seq<string>, more: seq<string>): seq<string>
    decreases |more|
  {
    if more == [] then names else AddNew(AddOne(names, more[0]), more[1..])
  }

  function Variables(template: string): seq<string> {
    AddNew([], Matches(template))
  }

  method ExtractTemplateVariables(template: string) returns (variables: seq<string>)
    ensures variables == Variables(template)
  {
    variables := [];
    var s := template;
    while s != ""
      invariant AddNew(variables, Matches(s)) == Variables(template)
      decreases |s|
    {
      match MatchHere(s, OPEN, CLOSE)
      case NoMatch => s := s[1..];
      case Match(name, rest) =>
        var more := [name] + Matches(rest);
        assert more[1..] == Matches(rest);
        if name !in variables {
          variables := variables + [name];
        }
        s := rest;
    }
  }

  /** The loop's invariant: after the first `k` placeholders. */
  lemma {:induction false} AddNewKeepsOrder(names: seq<string>, all: seq<string>, k: nat)
    requires k <= |all| && FirstAppearances(names, all[..k])
    ensures FirstAppearances(AddNew(names, all[k..]), all)
    decreases |all| - k
  {
    if k == |all| {
      assert all[..k] == all;
    } else {
      OneMoreName(names, all[..k], all[k]);
      assert all[..k] + [all[k]] == all[..k + 1];
      AddNewKeepsOrder(AddOne(names, all[k]), all, k + 1);
      assert all[k..][1..] == all[k + 1..];
    }
  }

  /** The variables are the distinct placeholder names in the order in which they first appear. */
  lemma VariablesInOrder(template: string)
    ensures FirstAppearances(Variables(template), Matches(template))
  {
    var all := Matches(template);
    assert all[0..] == all;
    AddNewKeepsOrder([], all, 0);
  }

  // --- templates that are put together from text and placeholders ---

  datatype Piece = Plain(text: string) | Hole(left: string, name: string, right: string)

  predicate IsName(s: string) {
    s != "" && IsNameStart(s[0]) && forall i :: 0 <= i < |s| ==> IsNameChar(s[i])
  }

  predicate PieceFit(p: Piece) {
    match p
    case Plain(text) => Free(text, '{')
    case Hole(left, name, right) => AllSpace(left) && IsName(name) && AllSpace(right)
  }

  function PieceText(p: Piece, open: string, close: string): string {
    match p
    case Plain(text) => text
    case Hole(left, name, right) => open + (left + (name + (right + close)))
  }

  function PiecesText(ps: seq<Piece>): string {
    if ps == [] then "" else PieceText(ps[0], OPEN, CLOSE) + PiecesText(ps[1..])
  }

  function Names(ps: seq<Piece>): seq<string> {
    if ps == [] then [] else NameIn(ps[0]) + Names(ps[1..])
  }

  lemma {:induction false} PlainSkipped(text: string, rest: string)
    requires Free(text, '{')
    ensures Matches(text + rest) == Matches(rest)
  {
    if text == "" {
      assert text + rest == rest;
    } else {
      var s := text + rest;
      assert s[0] == text[0] && s[1..] == text[1..] + rest;
      assert !StartsWith(s, OPEN);
      PlainSkipped(text[1..], rest);
    }
  }

  lemma {:induction false} NameTaken(name: string, s: string)
    requires (forall i :: 0 <= i < |name| ==> IsNameChar(name[i])) && (s == "" || !IsNameChar(s[0]))
    ensures NameLen(name + s) == |name|
  {
    if name == "" {
      assert name + s == s;
    } else {
      assert (name + s)[1..] == name[1..] + s;
      NameTaken(name[1..], s);
    }
  }

  lemma NameNotSpace(c: char)
    requires IsNameChar(c)
    ensures !IsSpace(c)
  {
  }

  lemma HoleMatched(left: string, name: string, right: string, open: string, close: string, rest: string)
    requires AllSpace(left) && IsName(name) && AllSpace(right)
    requires close != "" && !IsNameChar(close[0]) && !IsSpace(close[0])
    ensures MatchHere(open + (left + (name + (right + (close + rest)))), open, close) == Match(name, rest)
  {
    var v := close + rest;
    var u := name + (right + v);
    AfterHead(open, left + u);
    NameNotSpace(name[0]);
    SpaceSkipped(left, u);
    assert right == "" || IsSpace((right + v)[0]);
    SpaceNotName(right, v);
    NameTaken(name, right + v);
    assert u[..|name|] == name && u[|name|..] == right + v;
    SpaceSkipped(right, v);
    AfterHead(close, rest);
  }

  lemma SpaceNotName(right: string, v: string)
    requires AllSpace(right) && v != "" && !IsNameChar(v[0])
    ensures !IsNameChar((right + v)[0])
  {
    if right != "" && IsNameChar(right[0]) {
      NameNotSpace(right[0]);
    }
  }

  /** The placeholders of a template put together from text without braces and placeholders are found. */
  lemma {:induction false} PlaceholdersFound(ps: seq<Piece>)
    requires forall i :: 0 <= i < |ps| ==> PieceFit(ps[i])
    ensures Matches(PiecesText(ps)) == Names(ps)
  {
    if ps != [] {
      PlaceholdersFound(ps[1..]);
      PieceFound(ps[0], PiecesText(ps[1..]));
    }
  }

  function NameIn(p: Piece): seq<string> {
    match p
    case Plain(_) => []
    case Hole(_, name, _) => [name]
  }

  lemma PieceFound(p: Piece, rest: string)
    requires PieceFit(p)
    ensures Matches(PieceText(p, OPEN, CLOSE) + rest) == NameIn(p) + Matches(rest)
  {
    match p
    case Plain(text) =>
      PlainSkipped(text, rest);
      WithEmpty(Matches(rest));
    case Hole(left, name, right) =>
      HoleMatched(left, name, right, OPEN, CLOSE, rest);
      HoleFound(left, name, right, rest);
  }

  lemma HoleFound(left: string, name: string, right: string, rest: string)
    requires MatchHere(OPEN + (left + (name + (right + (CLOSE + rest)))), OPEN, CLOSE) == Match(name, rest)
    ensures Matches(PieceText(Hole(left, name, right), OPEN, CLOSE) + rest) == [name] + Matches(rest)
  {
    assert PieceText(Hole(left, name, right), OPEN, CLOSE) + rest == OPEN + (left + (name + (right + (CLOSE + rest))));
  }
}
