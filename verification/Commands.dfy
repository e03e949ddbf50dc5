/** The parser for `@excalibur` commands in comments (packages/work-items/src/commands.ts). */
module Commands {
  import opened Wrappers
  import opened Text

  // --- names ---

  datatype Cmd =
    | Refine | Plan | Review | SuggestPatch | GenerateTests | Implement | Careful | Explore
    | Status | Cancel | Daily | Planning | Discovery | Readiness | AcceptanceCriteria | SplitScope

  function NameOf(c: Cmd): string {
    match c
    case Refine => "refine"
    case Plan => "plan"
    case Review => "review"
    case SuggestPatch => "suggest-patch"
    case GenerateTests => "generate-tests"
    case Implement => "implement"
    case Careful => "careful"
    case Explore => "explore"
    case Status => "status"
    case Cancel => "cancel"
    case Daily => "daily"
    case Planning => "planning"
    case Discovery => "discovery"
    case Readiness => "readiness"
    case AcceptanceCriteria => "acceptance-criteria"
    case SplitScope => "split-scope"
  }

  const CMDS: seq<Cmd> :=
    [Refine, Plan, Review, SuggestPatch, GenerateTests, Implement, Careful, Explore,
     Status, Cancel, Daily, Planning, Discovery, Readiness, AcceptanceCriteria, SplitScope]

  function Lookup(s: string, k: nat): Option<Cmd>
    requires k <= |CMDS|
    decreases |CMDS| - k
  {
    if k == |CMDS| then None else if NameOf(CMDS[k]) == s then Some(CMDS[k]) else Lookup(s, k + 1)
  }

  function CmdOf(s: string): Option<Cmd> {
    Lookup(s, 0)
  }

  const PLANNING_SUBS := ["start", "propose", "approve", "revise", "add", "remove", "owner", "careful", "run"]

  const DISCOVERY_SUBS := ["complete", "create-linear", "update-ticket", "create-run", "save-decision"]

  predicate IsMark(c: char) {
    || c == ')' || c == ']' || c == '.' || c == ',' || c == '!' || c == '?' || c == ':' || c == ';'
    || c == '\'' || c == '"'
  }

  function StripMarks(s: string): string {
    if s != "" && IsMark(s[|s| - 1]) then StripMarks(s[..|s| - 1]) else s
  }

  function NormalizeWord(token: string): string {
    StripMarks(LowerAll(token))
  }

  // --- the mention ---

  const MENTION := "@excalibur"

  function LowerAscii(c: char): char {
    if 'A' <= c <= 'Z' then (c as int + 32) as char else c
  }

  /** `/@excalibur/i` at the start of a text. */
  predicate SaysMention(s: string, word: string) {
    |word| <= |s| && forall i :: 0 <= i < |word| ==> LowerAscii(s[i]) == word[i]
  }

  predicate MayFollow(c: char) {
    IsSpace(c) || c == ':' || c == ','
  }

  predicate IsMention(s: string, word: string) {
    SaysMention(s, word) && (|s| == |word| || MayFollow(s[|word|]))
  }

  /** The text from its first mention on; `free` says that no word character comes before `s`. */
  function Find(s: string, free: bool): (r: Option<string>)
    ensures r.Some? ==> IsMention(r.value, MENTION)
    decreases |s|
  {
    if s == "" then None
    else if free && IsMention(s, MENTION) then Some(s)
    else Find(s[1..], !IsWord(s[0]))
  }

  // --- tokens ---

  function WordLen(s: string): (r: nat)
    ensures r <= |s|
  {
    if s == "" || IsSpace(s[0]) then 0 else 1 + WordLen(s[1..])
  }

  /** `split(/\s+/)` without the empty pieces. */
  function Words(s: string): seq<string>
    decreases |s|
  {
    if s == "" then []
    else if IsSpace(s[0]) then Words(s[1..])
    else [s[..WordLen(s)]] + Words(s[WordLen(s)..])
  }

  function SkipBlanks(s: string): string {
    if s != "" && (s[0] == ' ' || s[0] == '\t') then SkipBlanks(s[1..]) else s
  }

  /** `replace(/^[ \t]*[:,]/, '')`. */
  function DropMark(s: string): string {
    var t := SkipBlanks(s);
    if t != "" && (t[0] == ':' || t[0] == ',') then t[1..] else s
  }

  const DASHES := "--"

  predicate IsFlag(token: string) {
    StartsWith(token, DASHES) && |token| > 2
  }

  // --- arguments and flags ---

  datatype FlagValue = Text(text: string) | True

  /** What a token, or a flag and the token after it, stands for. */
  datatype Role =
    | Arg(token: string)
    | Inline(name: string, value: string)
    | Valued(name: string, value: string)
    | Bare(name: string)

  /** The flag by itself; `=` right after the dashes does not separate anything. */
  predicate HasInline(token: string)
    requires IsFlag(token)
  {
    IndexOf(token, '=', 0) > 2
  }

  function InlineRole(token: string): Role
    requires IsFlag(token) && HasInline(token)
  {
    var at := IndexOf(token, '=', 0);
    Inline(token[2..at], token[at + 1..])
  }

  function Roles(tokens: seq<string>): seq<Role>
    decreases |tokens|
  {
    if tokens == [] then []
    else if !IsFlag(tokens[0]) then [Arg(tokens[0])] + Roles(tokens[1..])
    else if HasInline(tokens[0]) then [InlineRole(tokens[0])] + Roles(tokens[1..])
    else if |tokens| > 1 && !IsFlag(tokens[1]) then [Valued(tokens[0][2..], tokens[1])] + Roles(tokens[2..])
    else [Bare(tokens[0][2..])] + Roles(tokens[1..])
  }

  type Flags = map<string, FlagValue>

  const PROTO := "__proto__"

  /** Assigning a string or a boolean to `__proto__` of an object does nothing. */
  function SetFlag(flags: Flags, name: string, v: FlagValue): Flags {
    if name == PROTO then flags else flags[name := v]
  }

  function ArgsOf(roles: seq<Role>): seq<string> {
    if roles == [] then [] else (if roles[0].Arg? then [roles[0].token] else []) + ArgsOf(roles[1..])
  }

  function FlagOf(flags: Flags, role: Role): Flags {
    match role
    case Arg(_) => flags
    case Inline(name, v) => SetFlag(flags, name, Text(v))
    case Valued(name, v) => SetFlag(flags, name, Text(v))
    case Bare(name) => SetFlag(flags, name, True)
  }

  /** The flags a list of roles sets, one after the other. */
  function FlagsOf(flags: Flags, roles: seq<Role>): Flags
    decreases |roles|
  {
    if roles == [] then flags else FlagsOf(FlagOf(flags, roles[0]), roles[1..])
  }

  // --- commands ---

  datatype Command = Command(command: string, subcommand: Option<string>, args: seq<string>, flags: Flags, raw: string)

  datatype Error =
    | MissingCommand(raw: string)
    | UnknownCommand(token: string, raw: string)
    | MissingSubcommand(raw: string)
    | UnknownSubcommand(token: string, raw: string)

  datatype Outcome = NoMention | Failed(error: Error) | Parsed(command: Command)

  datatype Sub = NoSub | Sub(name: string) | BadSub(error: Error)

  /** The subcommand that planning demands and discovery may have. */
  function SubOf(c: Cmd, tokens: seq<string>, raw: string): (r: Sub)
    ensures r.Sub? ==> tokens != []
  {
    if c == Planning then
      if tokens == [] || IsFlag(tokens[0]) then BadSub(MissingSubcommand(raw))
      else if NormalizeWord(tokens[0]) !in PLANNING_SUBS then BadSub(UnknownSubcommand(tokens[0], raw))
      else Sub(NormalizeWord(tokens[0]))
    else if c == Discovery && tokens != [] && !IsFlag(tokens[0]) && NormalizeWord(tokens[0]) in DISCOVERY_SUBS then
      Sub(NormalizeWord(tokens[0]))
    else NoSub
  }

  function Built(name: string, sub: Option<string>, tokens: seq<string>, raw: string): Command {
    Command(name, sub, ArgsOf(Roles(tokens)), FlagsOf(map[], Roles(tokens)), raw)
  }

  function Interpret(tokens: seq<string>, raw: string): Outcome {
    if tokens == [] then Failed(MissingCommand(raw))
    else
      var name := NormalizeWord(tokens[0]);
      match CmdOf(name)
      case None => Failed(UnknownCommand(tokens[0], raw))
      case Some(c) =>
        match SubOf(c, tokens[1..], raw)
        case BadSub(e) => Failed(e)
        case NoSub => Parsed(Built(name, None, tokens[1..], raw))
        case Sub(sub) => Parsed(Built(name, Some(sub), tokens[2..], raw))
  }

  function ParseMention(s: string): Outcome
    requires IsMention(s, MENTION)
  {
    var line := Lines(s[|MENTION|..])[0];
    Interpret(Words(DropMark(line)), Trim(s[..|MENTION|] + line))
  }

  function Parse(text: string): Outcome {
    match Find(text, true)
    case None => NoMention
    case Some(s) => ParseMention(s)
  }

  // --- actions ---

  datatype Action =
    | Interaction(about: string)
    | Patch(variant: string)
    | Run(level: nat, style: string)
    | ShowStatus
    | CancelRun
    | ShowDaily
    | PlanningAction(sub: string, args: seq<string>)
    | DiscoveryAction(name: Option<string>, args: seq<string>)

  datatype ActionResult = Act(action: Action) | NoAction

  function ActionFor(c: Cmd, p: Command): ActionResult {
    match c
    case Refine => Act(Interaction("work_item_refinement"))
    case Plan => Act(Interaction("work_item_plan"))
    case Review => Act(Interaction("work_item_review"))
    case SuggestPatch => Act(Patch("suggest_patch"))
    case GenerateTests => Act(Patch("generate_tests"))
    case Implement => Act(Run(3, "team_default"))
    case Careful => Act(Run(4, "careful"))
    case Explore => Act(Run(3, "explore"))
    case Status => Act(ShowStatus)
    case Cancel => Act(CancelRun)
    case Daily => Act(ShowDaily)
    case Planning => if p.subcommand.None? then NoAction else Act(PlanningAction(p.subcommand.value, p.args))
    case Discovery => Act(DiscoveryAction(p.subcommand, p.args))
    case _ => Act(DiscoveryAction(Some(p.command), p.args))
  }

  function ToAction(p: Command): ActionResult {
    match CmdOf(p.command)
    case None => NoAction
    case Some(c) => ActionFor(c, p)
  }

  // --- as the program does it ---

  /** After a text that says the mention without being one, the search goes on behind it. */
  lemma {:induction false} SkipMention(s: string, word: string, free: bool)
    requires SaysMention(s, word) && word != "" && forall i :: 0 <= i < |word| ==> IsWord(word[i])
    ensures Find(s, free) == Find(s[|word|..], false)
    decreases |word|
  {
    assert LowerAscii(s[0]) == word[0] && s[0] != MENTION[0];
    assert !IsMention(s, MENTION);
    if |word| > 1 {
      SkipMention(s[1..], word[1..], false);
      assert s[1..][|word[1..]|..] == s[|word|..];
    }
  }

  lemma SkipWholeMention(s: string, free: bool)
    requires SaysMention(s, MENTION) && !IsMention(s, MENTION)
    ensures Find(s, free) == Find(s[|MENTION|..], false)
  {
    var word := "excalibur";
    assert MENTION[1..] == word;
    forall i | 0 <= i < |word|
      ensures LowerAscii(s[1..][i]) == word[i]
    {
      assert word[i] == MENTION[i + 1];
    }
    SkipMention(s[1..], word, true);
    assert s[1..][|word|..] == s[|MENTION|..];
  }

  /** The position of the first mention. The search moves past what only looks like one. */
  method FindFirstMention(text: string) returns (start: Option<nat>)
    ensures start.None? <==> Find(text, true).None?
    ensures start.Some? ==> start.value <= |text| && Find(text, true) == Some(text[start.value..])
  {
    var i := 0;
    while i < |text|
      invariant i <= |text|
      invariant Find(text, true) == Find(text[i..], i == 0 || !IsWord(text[i - 1]))
      decreases |text| - i
    {
      if (i == 0 || !IsWord(text[i - 1])) && SaysMention(text[i..], MENTION) {
        var end := i + |MENTION|;
        if end == |text| || MayFollow(text[end]) {
          return Some(i);
        }
        SkipWholeMention(text[i..], true);
        assert text[i..][|MENTION|..] == text[end..];
        LastOfMention(text[i..]);
        i := end;
      } else {
        assert text[i..][1..] == text[i + 1..];
        i := i + 1;
      }
    }
    return None;
  }

  lemma LastOfMention(s: string)
    requires SaysMention(s, MENTION)
    ensures IsWord(s[|MENTION| - 1])
  {
    assert LowerAscii(s[9]) == MENTION[9];
  }

  /** The argument or flag at a position, and the position behind it. */
  method ReadRole(tokens: seq<string>, index: nat) returns (role: Role, next: nat)
    requires index < |tokens|
    ensures index < next <= |tokens| && Roles(tokens[index..]) == [role] + Roles(tokens[next..])
  {
    var token := tokens[index];
    ghost var rest := tokens[index..];
    assert rest[1..] == tokens[index + 1..];
    if !IsFlag(token) {
      return Arg(token), index + 1;
    }
    var at := IndexOf(token, '=', 0);
    if at > 2 {
      return Inline(token[2..at], token[at + 1..]), index + 1;
    }
    var name := token[2..];
    if index + 1 < |tokens| && !IsFlag(tokens[index + 1]) {
      assert rest[2..] == tokens[index + 2..];
      return Valued(name, tokens[index + 1]), index + 2;
    }
    return Bare(name), index + 1;
  }

  method ParseArguments(tokens: seq<string>) returns (args: seq<string>, flags: Flags)
    ensures args == ArgsOf(Roles(tokens)) && flags == FlagsOf(map[], Roles(tokens))
  {
    args, flags := [], map[];
    var index := 0;
    while index < |tokens|
      invariant index <= |tokens|
      invariant args + ArgsOf(Roles(tokens[index..])) == ArgsOf(Roles(tokens))
      invariant FlagsOf(flags, Roles(tokens[index..])) == FlagsOf(map[], Roles(tokens))
      decreases |tokens| - index
    {
      var role, next := ReadRole(tokens, index);
      RoleFirst(tokens[index..], role, tokens[next..], args, flags);
      if role.Arg? {
        args := args + [role.token];
      } else {
        flags := FlagOf(flags, role);
      }
      index := next;
    }
  }

  lemma RoleFirst(tokens: seq<string>, role: Role, rest: seq<string>, args: seq<string>, flags: Flags)
    requires Roles(tokens) == [role] + Roles(rest)
    ensures args + ArgsOf(Roles(tokens)) == (if role.Arg? then args + [role.token] else args) + ArgsOf(Roles(rest))
    ensures FlagsOf(flags, Roles(tokens)) == FlagsOf(FlagOf(flags, role), Roles(rest))
  {
    var roles := Roles(tokens);
    assert roles[0] == role && roles[1..] == Roles(rest);
  }

  lemma {:induction false} FirstLine(s: string)
    ensures Lines(s)[0] == s[..if IndexOf(s, '\n', 0) == -1 then |s| else IndexOf(s, '\n', 0)]
  {
    var at := IndexOf(s, '\n', 0);
    if at == -1 {
      LinesOfFree(s);
      assert s[..|s|] == s;
    } else {
      LinesOfFree(s[..at]);
      LinesOfTwo(s[..at], s[at + 1..]);
      assert s == s[..at] + NL + s[at + 1..];
    }
  }

  method ReadSubcommand(c: Cmd, tokens: seq<string>, raw: string) returns (r: Sub)
    ensures r == SubOf(c, tokens, raw)
  {
    if c == Planning {
      if |tokens| == 0 || IsFlag(tokens[0]) {
        return BadSub(MissingSubcommand(raw));
      }
      var normalized := NormalizeWord(tokens[0]);
      if normalized !in PLANNING_SUBS {
        return BadSub(UnknownSubcommand(tokens[0], raw));
      }
      return Sub(normalized);
    }
    if c == Discovery && |tokens| > 0 && !IsFlag(tokens[0]) {
      var normalized := NormalizeWord(tokens[0]);
      if normalized in DISCOVERY_SUBS {
        return Sub(normalized);
      }
    }
    return NoSub;
  }

  method ReadCommand(given: seq<string>, raw: string) returns (r: Outcome)
    ensures r == Interpret(given, raw)
  {
    if |given| == 0 {
      return Failed(MissingCommand(raw));
    }
    var tokens := given[1..];
    var command := NormalizeWord(given[0]);
    var known := CmdOf(command);
    if known.None? {
      return Failed(UnknownCommand(given[0], raw));
    }
    var sub := ReadSubcommand(known.value, tokens, raw);
    if sub.BadSub? {
      return Failed(sub.error);
    }
    var subcommand: Option<string> := None;
    if sub.Sub? {
      subcommand := Some(sub.name);
      assert tokens[1..] == given[2..];
      tokens := tokens[1..];
    }
    var args, flags := ParseArguments(tokens);
    r := Parsed(Command(command, subcommand, args, flags, raw));
  }

  method ParseExcaliburCommand(text: string) returns (r: Outcome)
    ensures r == Parse(text)
  {
    var mention := FindFirstMention(text);
    if mention.None? {
      return NoMention;
    }
    var s := text[mention.value..];
    var after := s[|MENTION|..];
    var newline := IndexOf(after, '\n', 0);
    var line := after[..if newline == -1 then |after| else newline];
    FirstLine(after);
    r := ReadCommand(Words(DropMark(line)), Trim(s[..|MENTION|] + line));
  }
}
