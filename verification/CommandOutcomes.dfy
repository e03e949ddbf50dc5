/** Which comments are refused and what a command does (packages/work-items/src/commands.ts:119-267). */
module CommandOutcomes {
  import opened Wrappers
  import opened Text
  import opened Seqs
  import opened Commands
  import opened CommandProperties
  import opened CommandRoundTrip

  // --- refusals ---

  /** The token is the name of this command, in capitals or small letters and with marks behind it or not. */
  predicate Says(token: string, c: Cmd) {
    NormalizeWord(token) == NameOf(c)
  }

  lemma {:induction false} LookedUp(s: string, k: nat)
    requires k <= |CMDS| && Lookup(s, k).Some?
    ensures NameOf(Lookup(s, k).value) == s
    decreases |CMDS| - k
  {
    if NameOf(CMDS[k]) != s {
      LookedUp(s, k + 1);
    }
  }

  /** Names and commands correspond one to one. */
  lemma NamedIff(s: string, c: Cmd)
    ensures CmdOf(s) == Some(c) <==> s == NameOf(c)
  {
    if CmdOf(s) == Some(c) {
      LookedUp(s, 0);
    }
    if s == NameOf(c) {
      LookupFinds(c, 0);
    }
  }

  lemma UnnamedIff(s: string)
    ensures CmdOf(s) == None <==> forall c :: s != NameOf(c)
  {
    if CmdOf(s).Some? {
      NamedIff(s, CmdOf(s).value);
    }
    forall c | s == NameOf(c)
      ensures CmdOf(s) != None
    {
      NamedIff(s, c);
    }
  }

  /** Planning goes on with no token, or with a flag. */
  predicate LacksSub(tokens: seq<string>) {
    |tokens| < 2 || IsDashed(tokens[1])
  }

  lemma SubRefused(c: Cmd, tokens: seq<string>, raw: string)
    requires tokens != []
    ensures SubOf(c, tokens[1..], raw) == BadSub(MissingSubcommand(raw)) <==> c == Planning && LacksSub(tokens)
    ensures SubOf(c, tokens[1..], raw).BadSub? && !(c == Planning && LacksSub(tokens))
       <==> c == Planning && !LacksSub(tokens) && NormalizeWord(tokens[1]) !in PLANNING_SUBS
    ensures SubOf(c, tokens[1..], raw).BadSub? && !LacksSub(tokens)
        ==> SubOf(c, tokens[1..], raw).error == UnknownSubcommand(tokens[1], raw)
  {
    if |tokens| > 1 {
      DashedIsFlag(tokens[1]);
    }
  }

  /**
   The tokens behind a mention are refused exactly when there is none, when the first one names no command, or when
   it is `planning` without a subcommand or with an unknown one; the error holds the token at fault.
   */
  lemma RefusedExactly(tokens: seq<string>, raw: string)
    ensures Interpret(tokens, raw) == Failed(MissingCommand(raw)) <==> tokens == []
    ensures tokens != [] ==>
              (Interpret(tokens, raw) == Failed(UnknownCommand(tokens[0], raw)) <==> forall c :: !Says(tokens[0], c))
    ensures Interpret(tokens, raw) == Failed(MissingSubcommand(raw))
       <==> tokens != [] && Says(tokens[0], Planning) && LacksSub(tokens)
    ensures |tokens| > 1 ==>
              (Interpret(tokens, raw) == Failed(UnknownSubcommand(tokens[1], raw))
               <==> Says(tokens[0], Planning) && !LacksSub(tokens) && NormalizeWord(tokens[1]) !in PLANNING_SUBS)
  {
    if tokens != [] {
      var name := NormalizeWord(tokens[0]);
      UnnamedIff(name);
      NamedIff(name, Planning);
      if CmdOf(name).Some? {
        NamedIff(name, CmdOf(name).value);
        SubRefused(CmdOf(name).value, tokens, raw);
        assert Says(tokens[0], CmdOf(name).value);
      }
    }
  }

  lemma MentionOfLine(mention: string, line: string, tail: string)
    requires SpelledAs(mention, "@excalibur") && Free(line, '\n')
    requires (line == "" || MayFollow(line[0])) && (tail == "" || tail[0] == '\n')
    ensures IsMention(mention + (line + tail), MENTION) && mention != "" && mention[0] == '@'
    ensures ParseMention(mention + (line + tail)) == Interpret(Words(DropMark(line)), Trim(mention + line))
  {
    EndMayFollow(line, tail);
    MentionSaid(mention, line + tail);
    MentionCut(mention, line + tail);
    LineRead(line, tail);
  }

  lemma EndMayFollow(line: string, tail: string)
    requires (line == "" || MayFollow(line[0])) && (tail == "" || tail[0] == '\n')
    ensures line + tail == "" || MayFollow((line + tail)[0])
  {
    assert IsSpace('\n');
  }

  /** What a comment says is read from the words on the line of its mention, wherever the mention stands. */
  lemma CommentRead(prefix: string, mention: string, line: string, tail: string)
    requires MayPrecede(prefix) && SpelledAs(mention, "@excalibur") && Free(line, '\n')
    requires (line == "" || MayFollow(line[0])) && (tail == "" || tail[0] == '\n')
    ensures Parse(prefix + (mention + (line + tail))) == Interpret(Words(DropMark(line)), Trim(mention + line))
  {
    MentionOfLine(mention, line, tail);
    FoundBehind(prefix, mention + (line + tail));
  }

  // --- actions ---

  lemma Acts(p: Command, c: Cmd, name: string)
    requires name == NameOf(c)
    ensures p.command == name ==> ToAction(p) == ActionFor(c, p)
  {
    NamedIff(name, c);
  }

  /** A command that talks about the work item or proposes a patch for it. */
  lemma TalkActions(p: Command)
    ensures p.command == "refine" ==> ToAction(p) == Act(Interaction("work_item_refinement"))
    ensures p.command == "plan" ==> ToAction(p) == Act(Interaction("work_item_plan"))
    ensures p.command == "review" ==> ToAction(p) == Act(Interaction("work_item_review"))
    ensures p.command == "suggest-patch" ==> ToAction(p) == Act(Patch("suggest_patch"))
    ensures p.command == "generate-tests" ==> ToAction(p) == Act(Patch("generate_tests"))
  {
    Acts(p, Refine, "refine");
    Acts(p, Plan, "plan");
    Acts(p, Review, "review");
    Acts(p, SuggestPatch, "suggest-patch");
    Acts(p, GenerateTests, "generate-tests");
  }

  /** A command that starts a run, with its autonomy level and style, or asks about one. */
  lemma RunActions(p: Command)
    ensures p.command == "implement" ==> ToAction(p) == Act(Run(3, "team_default"))
    ensures p.command == "careful" ==> ToAction(p) == Act(Run(4, "careful"))
    ensures p.command == "explore" ==> ToAction(p) == Act(Run(3, "explore"))
    ensures p.command == "status" ==> ToAction(p) == Act(ShowStatus)
    ensures p.command == "cancel" ==> ToAction(p) == Act(CancelRun)
    ensures p.command == "daily" ==> ToAction(p) == Act(ShowDaily)
  {
    Acts(p, Implement, "implement");
    Acts(p, Careful, "careful");
    Acts(p, Explore, "explore");
    Acts(p, Status, "status");
    Acts(p, Cancel, "cancel");
    Acts(p, Daily, "daily");
  }

  lemma PlanningActs(p: Command, name: string)
    requires name == NameOf(Planning) && p.command == name
    ensures ToAction(p) == if p.subcommand.None? then NoAction else Act(PlanningAction(p.subcommand.value, p.args))
  {
    Acts(p, Planning, name);
  }

  /** Planning acts by its subcommand, and without one it fails. */
  lemma PlanningActions(p: Command)
    requires p.command == "planning"
    ensures ToAction(p) == if p.subcommand.None? then NoAction else Act(PlanningAction(p.subcommand.value, p.args))
  {
    PlanningActs(p, p.command);
  }

  lemma DiscoveryActs(p: Command, c: Cmd, name: string, step: Option<string>)
    requires name == NameOf(c) && p.command == name
    requires (c == Discovery && step == p.subcommand)
          || ((c == Readiness || c == AcceptanceCriteria || c == SplitScope) && step == Some(name))
    ensures ToAction(p) == Act(DiscoveryAction(step, p.args))
  {
    Acts(p, c, name);
  }

  /** Discovery hands on the subcommand it may have. */
  lemma DiscoveryActions(p: Command)
    requires p.command == "discovery"
    ensures ToAction(p) == Act(DiscoveryAction(p.subcommand, p.args))
  {
    DiscoveryActs(p, Discovery, p.command, p.subcommand);
  }

  /** Three commands are discovery steps of their own name. */
  lemma DiscoverySteps(p: Command)
    requires p.command == "readiness" || p.command == "acceptance-criteria" || p.command == "split-scope"
    ensures ToAction(p) == Act(DiscoveryAction(Some(p.command), p.args))
  {
    if p.command == "readiness" {
      DiscoveryActs(p, Readiness, p.command, Some(p.command));
    } else if p.command == "split-scope" {
      DiscoveryActs(p, SplitScope, p.command, Some(p.command));
    } else {
      DiscoveryActs(p, AcceptanceCriteria, p.command, Some(p.command));
    }
  }
}
