/** What the command parser guarantees (packages/work-items/src/commands.ts). */
module CommandProperties {
  import opened Wrappers
  import opened Text
  import opened Seqs
  import opened Commands

  // --- the first mention ---

  /** A mention at a position: not inside a word, and followed by a space, a colon, a comma or nothing. */
  predicate MentionAt(text: string, p: nat) {
    p <= |text| && (p == 0 || !IsWord(text[p - 1])) && IsMention(text[p..], MENTION)
  }

  /** No mention starts from `i` on and before `j`. */
  ghost predicate NoneBetween(text: string, i: nat, j: nat) {
    forall p: nat :: i <= p < j ==> !MentionAt(text, p)
  }

  ghost predicate NoneFrom(text: string, i: nat) {
    forall p: nat :: i <= p ==> !MentionAt(text, p)
  }

  /** The text `found` starts at the first mention from `i` on. */
  ghost predicate FirstFrom(text: string, i: nat, found: string) {
    exists p: nat :: i <= p && MentionAt(text, p) && found == text[p..] && NoneBetween(text, i, p)
  }

  lemma FirstLater(text: string, i: nat, found: string)
    requires !MentionAt(text, i) && FirstFrom(text, i + 1, found)
    ensures FirstFrom(text, i, found)
  {
    var p: nat :| i + 1 <= p && MentionAt(text, p) && found == text[p..] && NoneBetween(text, i + 1, p);
    assert NoneBetween(text, i, p);
  }

  lemma {:induction false} FindFrom(text: string, i: nat)
    requires i <= |text|
    ensures match Find(text[i..], i == 0 || !IsWord(text[i - 1]))
            case None => NoneFrom(text, i)
            case Some(found) => FirstFrom(text, i, found)
    decreases |text| - i
  {
    if i == |text| {
      assert !IsMention(text[i..], MENTION);
    } else if MentionAt(text, i) {
      assert NoneBetween(text, i, i);
    } else {
      FindNext(text, i);
      FindFrom(text, i + 1);
      if Find(text[i + 1..], !IsWord(text[i])).Some? {
        FirstLater(text, i, Find(text[i + 1..], !IsWord(text[i])).value);
      }
    }
  }

  lemma FindNext(text: string, i: nat)
    requires i < |text| && !MentionAt(text, i)
    ensures Find(text[i..], i == 0 || !IsWord(text[i - 1])) == Find(text[i + 1..], !IsWord(text[i]))
  {
    assert text[i..][1..] == text[i + 1..];
  }

  /** The search finds the first mention, if there is any. */
  lemma FindIsFirst(text: string)
    ensures match Find(text, true)
            case None => NoneFrom(text, 0)
            case Some(found) => FirstFrom(text, 0, found)
  {
    assert text[0..] == text;
    FindFrom(text, 0);
  }

  // --- only the mention's line counts ---

  lemma MentionExtends(s: string, t: string)
    requires t != "" && t[0] == '\n'
    ensures IsMention(s + t, MENTION) <==> IsMention(s, MENTION)
  {
    if |s| < |MENTION| {
      assert LowerAscii((s + t)[|s|]) != MENTION[|s|];
    }
  }

  lemma {:induction false} FindExtends(s: string, free: bool, t: string)
    requires Find(s, free).Some? && t != "" && t[0] == '\n'
    ensures Find(s + t, free) == Some(Find(s, free).value + t)
  {
    MentionExtends(s, t);
    if !(free && IsMention(s, MENTION)) {
      assert (s + t)[1..] == s[1..] + t;
      FindExtends(s[1..], !IsWord(s[0]), t);
    }
  }

  lemma FirstLineStays(x: string, b: string)
    ensures Lines(x + (NL + b))[0] == Lines(x)[0]
  {
    LinesOfTwo(x, b);
    Regroup(x, NL, b);
  }

  lemma CutConcat(s: string, t: string, n: nat)
    requires n <= |s|
    ensures (s + t)[..n] == s[..n] && (s + t)[n..] == s[n..] + t
  {
  }

  lemma MentionLineStays(s: string, t: string, b: string)
    requires IsMention(s, MENTION) && t == NL + b
    ensures IsMention(s + t, MENTION) && ParseMention(s + t) == ParseMention(s)
  {
    MentionExtends(s, t);
    CutConcat(s, t, |MENTION|);
    FirstLineStays(s[|MENTION|..], b);
  }

  /** Text after the line of the first mention never changes the result. */
  lemma LaterLinesIrrelevant(a: string, b: string)
    requires Find(a, true).Some?
    ensures Parse(a + NL + b) == Parse(a)
  {
    var t, s := NL + b, Find(a, true).value;
    FindExtends(a, true, t);
    Regroup(a, NL, b);
    MentionLineStays(s, t, b);
  }

  // --- every parsed command has an action ---

  predicate IsSubcommand(c: Cmd, sub: Option<string>) {
    match c
    case Planning => sub.Some? && sub.value in PLANNING_SUBS
    case Discovery => sub.None? || sub.value in DISCOVERY_SUBS
    case _ => sub.None?
  }

  /** An action fails exactly for an unknown command and for planning without a subcommand. */
  lemma ActionIff(p: Command)
    ensures ToAction(p).NoAction?
       <==> CmdOf(p.command).None? || (CmdOf(p.command) == Some(Planning) && p.subcommand.None?)
  {
    if CmdOf(p.command).Some? {
      ActionForIff(CmdOf(p.command).value, p);
    }
  }

  lemma ActionForIff(c: Cmd, p: Command)
    ensures ActionFor(c, p).NoAction? <==> c == Planning && p.subcommand.None?
  {
    match c
    case Planning =>
    case Discovery =>
    case _ =>
  }

  lemma SubFits(c: Cmd, tokens: seq<string>, raw: string)
    ensures match SubOf(c, tokens, raw)
            case BadSub(_) => c == Planning
            case NoSub => c != Planning && IsSubcommand(c, None)
            case Sub(sub) => IsSubcommand(c, Some(sub))
  {
    match c
    case Planning =>
    case Discovery =>
    case _ =>
  }

  lemma InterpretedHasAction(tokens: seq<string>, raw: string)
    requires Interpret(tokens, raw).Parsed?
    ensures var p := Interpret(tokens, raw).command;
            CmdOf(p.command).Some? && IsSubcommand(CmdOf(p.command).value, p.subcommand) && ToAction(p).Act?
  {
    var c := CmdOf(NormalizeWord(tokens[0])).value;
    SubFits(c, tokens[1..], raw);
    ActionIff(Interpret(tokens, raw).command);
  }

  /** Parsing only gives known commands with a fitting subcommand, and each of them maps to an action. */
  lemma ParsedHasAction(text: string)
    requires Parse(text).Parsed?
    ensures CmdOf(Parse(text).command.command).Some?
    ensures IsSubcommand(CmdOf(Parse(text).command.command).value, Parse(text).command.subcommand)
    ensures ToAction(Parse(text).command).Act?
  {
    var s := Find(text, true).value;
    var line := Lines(s[|MENTION|..])[0];
    InterpretedHasAction(Words(DropMark(line)), Trim(s[..|MENTION|] + line));
  }

  // --- every token has one role ---

  function FlagText(name: string, value: FlagValue): string {
    match value
    case Text(v) => DASHES + (name + ("=" + v))
    case True => DASHES + name
  }

  function TokensOf(role: Role): seq<string> {
    match role
    case Arg(token) => [token]
    case Inline(name, v) => [FlagText(name, Text(v))]
    case Valued(name, v) => [FlagText(name, True), v]
    case Bare(name) => [FlagText(name, True)]
  }

  function AllTokens(roles: seq<Role>): seq<string> {
    if roles == [] then [] else TokensOf(roles[0]) + AllTokens(roles[1..])
  }

  lemma FlagSplits(token: string)
    requires IsFlag(token)
    ensures FlagText(token[2..], True) == token
    ensures HasInline(token) ==> TokensOf(InlineRole(token)) == [token]
  {
    assert token[..2] == DASHES;
    var at := IndexOf(token, '=', 0);
    if at > 2 {
      assert token == token[..2] + (token[2..at] + ([token[at]] + token[at + 1..]));
    }
  }

  lemma AllTokensFirst(role: Role, roles: seq<Role>)
    ensures AllTokens([role] + roles) == TokensOf(role) + AllTokens(roles)
  {
    assert ([role] + roles)[1..] == roles;
  }

  /** The roles account for every token: written out again, they are the tokens. */
  lemma {:induction false} RolesAreTokens(tokens: seq<string>)
    ensures AllTokens(Roles(tokens)) == tokens
    decreases |tokens|
  {
    if tokens != [] {
      var first := tokens[0];
      if !IsFlag(first) {
        RolesAreTokens(tokens[1..]);
        AllTokensFirst(Arg(first), Roles(tokens[1..]));
      } else {
        FlagSplits(first);
        if HasInline(first) {
          RolesAreTokens(tokens[1..]);
          AllTokensFirst(InlineRole(first), Roles(tokens[1..]));
        } else if |tokens| > 1 && !IsFlag(tokens[1]) {
          RolesAreTokens(tokens[2..]);
          AllTokensFirst(Valued(first[2..], tokens[1]), Roles(tokens[2..]));
        } else {
          RolesAreTokens(tokens[1..]);
          AllTokensFirst(Bare(first[2..]), Roles(tokens[1..]));
        }
      }
    }
  }
}
