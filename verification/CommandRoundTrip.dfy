/** Commands written out in any of the accepted ways and parsed again (packages/work-items/src/commands.ts). */
module CommandRoundTrip {
  import opened Wrappers
  import opened Text
  import opened Seqs
  import opened Commands
  import opened CommandProperties

  // --- how a command may be written ---

  predicate NoSpace(s: string) {
    forall i :: 0 <= i < |s| ==> !IsSpace(s[i])
  }

  predicate IsToken(w: string) {
    w != "" && NoSpace(w)
  }

  /** Space that does not end the line. */
  predicate IsGap(s: string) {
    forall i :: 0 <= i < |s| ==> IsSpace(s[i]) && s[i] != '\n'
  }

  /** The word in any mixture of small and capital letters. */
  predicate SpelledAs(s: string, word: string) {
    && |s| == |word|
    && forall i :: 0 <= i < |s| ==> s[i] == word[i] || ('A' <= s[i] <= 'Z' && s[i] as int + 32 == word[i] as int)
  }

  /** The marks that prose may leave behind a command. */
  const MARKS := ")].,!?:;'\""

  predicate AllMarks(s: string) {
    forall i :: 0 <= i < |s| ==> s[i] in MARKS
  }

  /** Two dashes and a name. */
  predicate IsDashed(w: string) {
    |w| > 2 && w[0] == '-' && w[1] == '-'
  }

  /** An argument, or a flag: `--name=value`, `--name value` or `--name`. */
  datatype Item =
    | Plain(text: string)
    | Joined(name: string, value: string)
    | Apart(name: string, value: string)
    | Alone(name: string)

  predicate ItemFits(item: Item) {
    match item
    case Plain(text) => IsToken(text) && !IsDashed(text)
    case Joined(name, value) => IsToken(name) && Free(name, '=') && NoSpace(value)
    case Apart(name, value) => IsAloneName(name) && IsToken(value) && !IsDashed(value)
    case Alone(name) => IsAloneName(name)
  }

  /** An `=` is part of a name only if the name starts with one. */
  predicate IsAloneName(name: string) {
    IsToken(name) && (Free(name, '=') || name[0] == '=')
  }

  /** An argument right behind a bare flag would be its value. */
  predicate ItemsFit(items: seq<Item>) {
    && (forall i :: 0 <= i < |items| ==> ItemFits(items[i]))
    && (forall i :: 0 < i < |items| ==> !(items[i - 1].Alone? && items[i].Plain?))
  }

  function ItemTokens(item: Item): (r: seq<string>)
    ensures r != []
  {
    match item
    case Plain(text) => [text]
    case Joined(name, value) => ["--" + (name + ("=" + value))]
    case Apart(name, value) => ["--" + name, value]
    case Alone(name) => ["--" + name]
  }

  function AllItemTokens(items: seq<Item>): seq<string> {
    if items == [] then [] else ItemTokens(items[0]) + AllItemTokens(items[1..])
  }

  function PlainTexts(items: seq<Item>): seq<string> {
    if items == [] then [] else (if items[0].Plain? then [items[0].text] else []) + PlainTexts(items[1..])
  }

  function ValueOf(item: Item): FlagValue
    requires !item.Plain?
  {
    if item.Alone? then True else Text(item.value)
  }

  /** The flags as they are meant: a later one of the same name counts. */
  function Meant(flags: Flags, items: seq<Item>): Flags
    decreases |items|
  {
    if items == [] then flags
    else Meant(if items[0].Plain? then flags else flags[items[0].name := ValueOf(items[0])], items[1..])
  }

  /** The flags as they are assigned. */
  function Assigned(flags: Flags, items: seq<Item>): Flags
    decreases |items|
  {
    if items == [] then flags
    else Assigned(if items[0].Plain? then flags else SetFlag(flags, items[0].name, ValueOf(items[0])), items[1..])
  }

  predicate HasFlag(items: seq<Item>, name: string) {
    exists i :: 0 <= i < |items| && !items[i].Plain? && items[i].name == name
  }

  /** A name as it is meant and as it is spelled, marks behind it included. */
  datatype Spelling = Spelling(name: string, spelled: string, marks: string)

  predicate SpellingFits(s: Spelling) {
    SpelledAs(s.spelled, s.name) && AllMarks(s.marks)
  }

  function Spell(s: Spelling): string {
    s.spelled + s.marks
  }

  /** `lead` is the mark that may follow the mention; `gaps` go in front of the words and `end` behind them. */
  datatype Order = Order(
    mention: string,
    lead: string,
    c: Cmd,
    name: Spelling,
    sub: Option<Spelling>,
    items: seq<Item>,
    gaps: seq<string>,
    end: string)

  predicate IsLead(s: string) {
    || s == ""
    || ((s[|s| - 1] == ':' || s[|s| - 1] == ',') && forall i :: 0 <= i < |s| - 1 ==> s[i] == ' ' || s[i] == '\t')
  }

  function SubTokens(o: Order): seq<string> {
    if o.sub.Some? then [Spell(o.sub.value)] else []
  }

  function OrderTokens(o: Order): seq<string> {
    [Spell(o.name)] + (SubTokens(o) + AllItemTokens(o.items))
  }

  predicate GapsFit(gaps: seq<string>, lead: string) {
    forall i :: 0 <= i < |gaps| ==> IsGap(gaps[i]) && (i > 0 || lead == "" ==> gaps[i] != "")
  }

  function SubName(o: Order): Option<string> {
    if o.sub.Some? then Some(o.sub.value.name) else None
  }

  /** Without a subcommand, discovery must not go on with the name of one. */
  predicate SubFits(o: Order) {
    && IsSubcommand(o.c, SubName(o)) && (o.sub.Some? ==> SpellingFits(o.sub.value))
    && (o.c == Discovery && o.sub.None? && o.items != [] && o.items[0].Plain?
        ==> NormalizeWord(o.items[0].text) !in DISCOVERY_SUBS)
  }

  predicate OrderFits(o: Order) {
    && SpelledAs(o.mention, "@excalibur") && IsLead(o.lead) && IsGap(o.end)
    && o.name.name == NameOf(o.c) && SpellingFits(o.name) && SubFits(o) && ItemsFit(o.items)
    && |o.gaps| == |OrderTokens(o)| && GapsFit(o.gaps, o.lead)
  }

  function Gapped(gaps: seq<string>, words: seq<string>): string
    requires |gaps| == |words|
  {
    if words == [] then "" else gaps[0] + (words[0] + Gapped(gaps[1..], words[1..]))
  }

  function Said(o: Order): string
    requires OrderFits(o)
  {
    o.mention + (o.lead + Gapped(o.gaps, OrderTokens(o)))
  }

  function Expected(o: Order): Command
    requires OrderFits(o)
  {
    Command(NameOf(o.c), SubName(o), PlainTexts(o.items), Meant(map[], o.items), Said(o))
  }

  function Read(o: Order): Command
    requires OrderFits(o)
  {
    Expected(o).(flags := Assigned(map[], o.items))
  }

  // --- words ---

  lemma {:induction false} WordTaken(w: string, rest: string)
    requires NoSpace(w) && (rest == "" || IsSpace(rest[0]))
    ensures WordLen(w + rest) == |w|
  {
    if w == "" {
      assert w + rest == rest;
    } else {
      assert (w + rest)[1..] == w[1..] + rest;
      WordTaken(w[1..], rest);
    }
  }

  predicate AllTokensFit(words: seq<string>) {
    forall i :: 0 <= i < |words| ==> IsToken(words[i])
  }

  lemma {:induction false} GapSkipped(gap: string, rest: string)
    requires IsGap(gap)
    ensures Words(gap + rest) == Words(rest)
  {
    if gap == "" {
      assert gap + rest == rest;
    } else {
      assert (gap + rest)[1..] == gap[1..] + rest;
      GapSkipped(gap[1..], rest);
    }
  }

  lemma WordFirst(w: string, rest: string)
    requires IsToken(w) && (rest == "" || IsSpace(rest[0]))
    ensures Words(w + rest) == [w] + Words(rest)
  {
    WordTaken(w, rest);
    var s := w + rest;
    assert s[..|w|] == w && s[|w|..] == rest;
    assert s[0] == w[0];
  }

  predicate GapsSeparate(gaps: seq<string>) {
    forall i :: 0 <= i < |gaps| ==> IsGap(gaps[i]) && gaps[i] != ""
  }

  lemma {:induction false} WordsOfGapped(gaps: seq<string>, words: seq<string>, end: string)
    requires AllTokensFit(words) && |gaps| == |words| && IsGap(end)
    requires forall i :: 0 <= i < |gaps| ==> IsGap(gaps[i]) && (i > 0 ==> gaps[i] != "")
    ensures Words(Gapped(gaps, words) + end) == words
  {
    if words == [] {
      GapSkipped(end, "");
      WithEmpty(end);
    } else {
      var rest := Gapped(gaps[1..], words[1..]) + end;
      WordsOfGapped(gaps[1..], words[1..], end);
      RestIsSpaced(gaps[1..], words[1..], end);
      WordFirst(words[0], rest);
      GapSkipped(gaps[0], words[0] + rest);
      GappedFirst(gaps, words, end);
      Headed(words);
    }
  }

  lemma GappedFirst(gaps: seq<string>, words: seq<string>, end: string)
    requires |gaps| == |words| > 0
    ensures Gapped(gaps, words) + end == gaps[0] + (words[0] + (Gapped(gaps[1..], words[1..]) + end))
  {
    Regroup(words[0], Gapped(gaps[1..], words[1..]), end);
    Regroup(gaps[0], words[0] + Gapped(gaps[1..], words[1..]), end);
  }

  lemma RestIsSpaced(gaps: seq<string>, words: seq<string>, end: string)
    requires |gaps| == |words| && IsGap(end) && GapsSeparate(gaps)
    ensures var rest := Gapped(gaps, words) + end; rest == "" || IsSpace(rest[0])
  {
    if words != [] {
      assert (Gapped(gaps, words) + end)[0] == gaps[0][0];
    } else {
      assert Gapped(gaps, words) + end == end;
    }
  }

  lemma GapOnOneLine(s: string)
    requires IsGap(s)
    ensures Free(s, '\n')
  {
  }

  lemma TokenOnOneLine(w: string)
    requires IsToken(w)
    ensures Free(w, '\n')
  {
    assert IsSpace('\n');
  }

  lemma FreeConcat(a: string, b: string, c: char)
    requires Free(a, c) && Free(b, c)
    ensures Free(a + b, c)
  {
  }

  lemma {:induction false} GappedOnOneLine(gaps: seq<string>, words: seq<string>)
    requires AllTokensFit(words) && |gaps| == |words| && forall i :: 0 <= i < |gaps| ==> IsGap(gaps[i])
    ensures Free(Gapped(gaps, words), '\n')
  {
    if words != [] {
      GappedOnOneLine(gaps[1..], words[1..]);
      GapOnOneLine(gaps[0]);
      TokenOnOneLine(words[0]);
      FreeConcat(words[0], Gapped(gaps[1..], words[1..]), '\n');
      FreeConcat(gaps[0], words[0] + Gapped(gaps[1..], words[1..]), '\n');
    }
  }

  lemma {:induction false} GappedEnds(gaps: seq<string>, words: seq<string>)
    requires AllTokensFit(words) && |gaps| == |words| > 0
    ensures Gapped(gaps, words) != "" && !IsSpace(Gapped(gaps, words)[|Gapped(gaps, words)| - 1])
  {
    if |words| == 1 {
      assert Gapped(gaps, words) == gaps[0] + words[0];
    } else {
      GappedEnds(gaps[1..], words[1..]);
    }
  }

  // --- fixed names ---

  predicate IsKebab(s: string) {
    s != "" && 'a' <= s[0] <= 'z' && forall i :: 0 <= i < |s| ==> 'a' <= s[i] <= 'z' || s[i] == '-'
  }

  lemma NameIsKebab(c: Cmd)
    ensures IsKebab(NameOf(c))
  {
    match c
    case SuggestPatch => LongNamesAreKebab();
    case GenerateTests => LongNamesAreKebab();
    case AcceptanceCriteria => LongestNameIsKebab();
    case SplitScope => LongNamesAreKebab();
    case _ => ShortNameIsKebab(c);
  }

  lemma ShortNameIsKebab(c: Cmd)
    requires |NameOf(c)| <= 9
    ensures IsKebab(NameOf(c))
  {
  }

  lemma LongNamesAreKebab()
    ensures IsKebab(NameOf(SuggestPatch)) && IsKebab(NameOf(GenerateTests)) && IsKebab(NameOf(SplitScope))
  {
  }

  lemma LongestNameIsKebab()
    ensures IsKebab(NameOf(AcceptanceCriteria))
  {
  }

  lemma SubIsKebab(c: Cmd, sub: string)
    requires IsSubcommand(c, Some(sub))
    ensures IsKebab(sub)
  {
    if c == Planning {
      PlanningIsKebab(sub);
    } else {
      DiscoveryIsKebab(sub);
    }
  }

  lemma PlanningIsKebab(sub: string)
    requires sub in PLANNING_SUBS
    ensures IsKebab(sub)
  {
  }

  lemma DiscoveryIsKebab(sub: string)
    requires sub in DISCOVERY_SUBS
    ensures IsKebab(sub)
  {
  }

  function Place(c: Cmd): (r: nat)
    ensures r < |CMDS| && CMDS[r] == c
  {
    match c
    case Refine => 0
    case Plan => 1
    case Review => 2
    case SuggestPatch => 3
    case GenerateTests => 4
    case Implement => 5
    case Careful => 6
    case Explore => 7
    case Status => 8
    case Cancel => 9
    case Daily => 10
    case Planning => 11
    case Discovery => 12
    case Readiness => 13
    case AcceptanceCriteria => 14
    case SplitScope => 15
  }

  /** Two command names differ in their length or in their first or third letter. */
  lemma NamesDiffer(c: Cmd, d: Cmd)
    requires NameOf(c) == NameOf(d)
    ensures c == d
  {
    assert |NameOf(c)| == |NameOf(d)| && NameOf(c)[0] == NameOf(d)[0];
    assert NameOf(c)[2] == NameOf(d)[2];
  }

  lemma {:induction false} LookupFinds(c: Cmd, k: nat)
    requires k <= Place(c)
    ensures Lookup(NameOf(c), k) == Some(c)
    decreases |CMDS| - k
  {
    if k < Place(c) {
      if NameOf(CMDS[k]) == NameOf(c) {
        NamesDiffer(CMDS[k], c);
      }
      LookupFinds(c, k + 1);
    }
  }

  // --- spelled names ---

  lemma LowerOfSpelled(s: string, word: string)
    requires SpelledAs(s, word) && IsKebab(word)
    ensures LowerAll(s) == word
  {
  }

  lemma LowerOfMarks(marks: string)
    requires AllMarks(marks)
    ensures LowerAll(marks) == marks && forall i :: 0 <= i < |marks| ==> IsMark(marks[i])
  {
    forall i | 0 <= i < |marks|
      ensures Lower(marks[i]) == marks[i] && IsMark(marks[i])
    {
      OneMark(marks[i]);
    }
  }

  lemma OneMark(c: char)
    requires c in MARKS
    ensures Lower(c) == c && IsMark(c) && !IsSpace(c)
  {
  }

  lemma {:induction false} MarksStripped(word: string, marks: string)
    requires IsKebab(word) && forall i :: 0 <= i < |marks| ==> IsMark(marks[i])
    ensures StripMarks(word + marks) == word
  {
    if marks == "" {
      WithEmpty(word);
    } else {
      var n := |marks| - 1;
      assert (word + marks)[..|word + marks| - 1] == word + marks[..n];
      MarksStripped(word, marks[..n]);
    }
  }

  lemma LowerConcat(a: string, b: string)
    ensures LowerAll(a + b) == LowerAll(a) + LowerAll(b)
  {
  }

  lemma SpellingRead(s: Spelling)
    requires SpellingFits(s) && IsKebab(s.name)
    ensures NormalizeWord(Spell(s)) == s.name
  {
    LowerOfSpelled(s.spelled, s.name);
    LowerOfMarks(s.marks);
    LowerConcat(s.spelled, s.marks);
    MarksStripped(s.name, s.marks);
  }

  lemma SpellingIsToken(s: Spelling)
    requires SpellingFits(s) && IsKebab(s.name)
    ensures IsToken(Spell(s)) && !IsFlag(Spell(s))
    ensures 'a' <= Spell(s)[0] <= 'z' || 'A' <= Spell(s)[0] <= 'Z'
  {
    forall i | 0 <= i < |s.marks|
      ensures !IsSpace(s.marks[i])
    {
      OneMark(s.marks[i]);
    }
    assert Spell(s)[0] == s.spelled[0];
  }

  // --- roles ---

  function RoleOf(item: Item): Role {
    match item
    case Plain(text) => Arg(text)
    case Joined(name, value) => Inline(name, value)
    case Apart(name, value) => Valued(name, value)
    case Alone(name) => Bare(name)
  }

  function RolesOf(items: seq<Item>): seq<Role> {
    Map(item => RoleOf(item), items)
  }

  lemma DashedIsFlag(w: string)
    ensures IsFlag(w) <==> IsDashed(w)
  {
  }

  lemma IndexAt(s: string, c: char, at: nat)
    requires at < |s| && s[at] == c && forall i :: 0 <= i < at ==> s[i] != c
    ensures IndexOf(s, c, 0) == at
  {
  }

  lemma Dashed(name: string)
    requires name != ""
    ensures IsFlag("--" + name) && ("--" + name)[2..] == name
  {
    DashedIsFlag("--" + name);
  }

  lemma JoinedRead(name: string, value: string, token: string, rest: seq<string>)
    requires IsToken(name) && Free(name, '=') && token == "--" + (name + ("=" + value))
    ensures Roles([token] + rest) == [Inline(name, value)] + Roles(rest)
  {
    Dashed(name + ("=" + value));
    IndexAt(token, '=', 2 + |name|);
    assert token[2..2 + |name|] == name;
    assert token[2 + |name| + 1..] == value;
    HeadAndRest(token, rest);
  }

  lemma AloneNotJoined(name: string, token: string)
    requires IsAloneName(name) && token == "--" + name
    ensures IsFlag(token) && !HasInline(token) && token[2..] == name
  {
    Dashed(name);
    if Free(name, '=') {
      assert Free(token, '=');
    } else {
      IndexAt(token, '=', 2);
    }
  }

  lemma ApartRead(name: string, value: string, token: string, rest: seq<string>)
    requires IsAloneName(name) && !IsDashed(value) && token == "--" + name
    ensures Roles([token, value] + rest) == [Valued(name, value)] + Roles(rest)
  {
    AloneNotJoined(name, token);
    DashedIsFlag(value);
    assert ([token, value] + rest)[2..] == rest;
  }

  lemma AloneRead(name: string, token: string, rest: seq<string>)
    requires IsAloneName(name) && token == "--" + name && (rest == [] || IsFlag(rest[0]))
    ensures Roles([token] + rest) == [Bare(name)] + Roles(rest)
  {
    AloneNotJoined(name, token);
    HeadAndRest(token, rest);
  }

  lemma PlainRead(text: string, rest: seq<string>)
    requires !IsDashed(text)
    ensures Roles([text] + rest) == [Arg(text)] + Roles(rest)
  {
    DashedIsFlag(text);
    HeadAndRest(text, rest);
  }

  lemma ItemStarts(item: Item)
    requires ItemFits(item)
    ensures !item.Plain? ==> IsFlag(ItemTokens(item)[0])
  {
    match item
    case Plain(_) =>
    case Joined(name, value) => Dashed(name + ("=" + value));
    case Apart(name, _) => Dashed(name);
    case Alone(name) => Dashed(name);
  }

  lemma ItemRead(item: Item, rest: seq<string>)
    requires ItemFits(item) && (item.Alone? ==> rest == [] || IsFlag(rest[0]))
    ensures Roles(ItemTokens(item) + rest) == [RoleOf(item)] + Roles(rest)
  {
    match item
    case Plain(text) => PlainRead(text, rest);
    case Joined(name, value) => JoinedRead(name, value, ItemTokens(item)[0], rest);
    case Apart(name, value) => ApartRead(name, value, ItemTokens(item)[0], rest);
    case Alone(name) => AloneRead(name, ItemTokens(item)[0], rest);
  }

  lemma NextItemStarts(items: seq<Item>)
    requires ItemsFit(items) && items != [] && items[0].Alone?
    ensures AllItemTokens(items[1..]) == [] || IsFlag(AllItemTokens(items[1..])[0])
  {
    if |items| > 1 {
      ItemStarts(items[1]);
      assert items[1..][0] == items[1];
    }
  }

  lemma {:induction false} ItemsRead(items: seq<Item>)
    requires ItemsFit(items)
    ensures Roles(AllItemTokens(items)) == RolesOf(items)
  {
    if items != [] {
      ItemsRead(items[1..]);
      if items[0].Alone? {
        NextItemStarts(items);
      }
      ItemRead(items[0], AllItemTokens(items[1..]));
      RolesFirst(items);
    }
  }

  lemma RolesFirst(items: seq<Item>)
    requires items != []
    ensures RolesOf(items) == [RoleOf(items[0])] + RolesOf(items[1..])
  {
  }

  lemma {:induction false} ArgsRead(items: seq<Item>)
    ensures ArgsOf(RolesOf(items)) == PlainTexts(items)
  {
    if items != [] {
      ArgsRead(items[1..]);
      RolesFirst(items);
      HeadAndRest(RoleOf(items[0]), RolesOf(items[1..]));
    }
  }

  lemma {:induction false} FlagsRead(flags: Flags, items: seq<Item>)
    ensures FlagsOf(flags, RolesOf(items)) == Assigned(flags, items)
    decreases |items|
  {
    if items != [] {
      RolesFirst(items);
      HeadAndRest(RoleOf(items[0]), RolesOf(items[1..]));
      FlagsRead(FlagOf(flags, RoleOf(items[0])), items[1..]);
    }
  }

  /** The flags meant are exactly those of the items, each with the value of the last item of its name. */
  lemma {:induction false} MeantExactly(flags: Flags, items: seq<Item>, name: string)
    ensures name in Meant(flags, items) <==> name in flags || HasFlag(items, name)
    ensures forall i :: 0 <= i < |items| && LastOfName(items, i, name) ==>
              name in Meant(flags, items) && Meant(flags, items)[name] == ValueOf(items[i])
    ensures name in flags && !HasFlag(items, name) ==> Meant(flags, items)[name] == flags[name]
    decreases |items|
  {
    if items != [] {
      var rest := items[1..];
      var next := if items[0].Plain? then flags else flags[items[0].name := ValueOf(items[0])];
      MeantExactly(next, rest, name);
      HasFlagFirst(items, name);
      forall i | 0 < i < |items| && LastOfName(items, i, name)
        ensures LastOfName(rest, i - 1, name) && rest[i - 1] == items[i]
      {
        LastInRest(items, i, i - 1, name);
      }
      if LastOfName(items, 0, name) {
        NoneInRest(items, name);
      }
    }
  }

  /** No later item has this name, and this one has. */
  ghost predicate LastOfName(items: seq<Item>, i: nat, name: string)
    requires i < |items|
  {
    && !items[i].Plain? && items[i].name == name
    && forall j :: i < j < |items| ==> items[j].Plain? || items[j].name != name
  }

  lemma HasFlagFirst(items: seq<Item>, name: string)
    requires items != []
    ensures HasFlag(items, name) <==> (!items[0].Plain? && items[0].name == name) || HasFlag(items[1..], name)
  {
    if HasFlag(items, name) {
      var i :| 0 <= i < |items| && !items[i].Plain? && items[i].name == name;
      assert i > 0 ==> items[1..][i - 1] == items[i];
    }
    if HasFlag(items[1..], name) {
      var i :| 0 <= i < |items[1..]| && !items[1..][i].Plain? && items[1..][i].name == name;
      assert items[i + 1] == items[1..][i];
    }
  }

  lemma LastInRest(items: seq<Item>, i: nat, before: nat, name: string)
    requires before + 1 == i < |items| && LastOfName(items, i, name)
    ensures LastOfName(items[1..], before, name)
  {
    forall j | before < j < |items[1..]|
      ensures items[1..][j].Plain? || items[1..][j].name != name
    {
      assert items[1..][j] == items[j + 1];
    }
  }

  lemma NoneInRest(items: seq<Item>, name: string)
    requires items != [] && LastOfName(items, 0, name)
    ensures !HasFlag(items[1..], name)
  {
    forall j | 0 <= j < |items[1..]|
      ensures items[1..][j].Plain? || items[1..][j].name != name
    {
      assert items[1..][j] == items[j + 1];
    }
  }

  // --- the round trip ---

  lemma TokensJoin(a: seq<string>, b: seq<string>)
    requires AllTokensFit(a) && AllTokensFit(b)
    ensures AllTokensFit(a + b)
  {
  }

  lemma DashedToken(rest: string)
    requires NoSpace(rest)
    ensures IsToken("--" + rest)
  {
  }

  lemma ItemTokensFit(item: Item)
    requires ItemFits(item)
    ensures AllTokensFit(ItemTokens(item))
  {
    match item
    case Plain(_) =>
    case Joined(name, value) => DashedToken(name + ("=" + value));
    case Apart(name, _) => DashedToken(name);
    case Alone(name) => DashedToken(name);
  }

  lemma {:induction false} ItemsTokensFit(items: seq<Item>)
    requires forall i :: 0 <= i < |items| ==> ItemFits(items[i])
    ensures AllTokensFit(AllItemTokens(items))
  {
    if items != [] {
      ItemTokensFit(items[0]);
      ItemsTokensFit(items[1..]);
      TokensJoin(ItemTokens(items[0]), AllItemTokens(items[1..]));
    }
  }

  lemma SubTokensFit(o: Order)
    requires OrderFits(o)
    ensures AllTokensFit(SubTokens(o))
  {
    if o.sub.Some? {
      SubIsKebab(o.c, o.sub.value.name);
      SpellingIsToken(o.sub.value);
    }
  }

  lemma TokensFit(o: Order)
    requires OrderFits(o)
    ensures AllTokensFit(OrderTokens(o))
  {
    NameIsKebab(o.c);
    SpellingIsToken(o.name);
    SubTokensFit(o);
    ItemsTokensFit(o.items);
    TokensJoin(SubTokens(o), AllItemTokens(o.items));
    TokensJoin([Spell(o.name)], SubTokens(o) + AllItemTokens(o.items));
  }

  lemma BuiltExpected(o: Order, raw: string)
    requires OrderFits(o)
    ensures Built(NameOf(o.c), SubName(o), AllItemTokens(o.items), raw) == Read(o).(raw := raw)
  {
    ItemsRead(o.items);
    ArgsRead(o.items);
    FlagsRead(map[], o.items);
  }

  lemma SubRead(o: Order, raw: string)
    requires OrderFits(o)
    ensures SubOf(o.c, SubTokens(o) + AllItemTokens(o.items), raw)
         == if o.sub.Some? then Sub(o.sub.value.name) else NoSub
  {
    var tokens := SubTokens(o) + AllItemTokens(o.items);
    if o.sub.Some? {
      SubIsKebab(o.c, o.sub.value.name);
      SpellingRead(o.sub.value);
      SpellingIsToken(o.sub.value);
      assert tokens[0] == Spell(o.sub.value);
    } else {
      WithEmpty(AllItemTokens(o.items));
      NoSubRead(o, raw);
    }
  }

  lemma NoSubRead(o: Order, raw: string)
    requires OrderFits(o) && o.sub.None?
    ensures SubOf(o.c, AllItemTokens(o.items), raw) == NoSub
  {
    if o.items != [] {
      ItemStarts(o.items[0]);
      assert AllItemTokens(o.items)[0] == ItemTokens(o.items[0])[0];
    }
  }

  lemma TokensInterpreted(o: Order, raw: string)
    requires OrderFits(o)
    ensures Interpret(OrderTokens(o), raw) == Parsed(Read(o).(raw := raw))
  {
    NameIsKebab(o.c);
    SpellingRead(o.name);
    LookupFinds(o.c, 0);
    var rest := SubTokens(o) + AllItemTokens(o.items);
    HeadAndRest(Spell(o.name), rest);
    SubRead(o, raw);
    BuiltExpected(o, raw);
    if o.sub.Some? {
      HeadAndRest(Spell(o.sub.value), AllItemTokens(o.items));
      assert OrderTokens(o)[2..] == rest[1..];
    } else {
      WithEmpty(AllItemTokens(o.items));
    }
  }

  // --- the line of the mention ---

  lemma {:induction false} BlanksSkipped(blanks: string, rest: string)
    requires forall i :: 0 <= i < |blanks| ==> blanks[i] == ' ' || blanks[i] == '\t'
    requires rest != "" && rest[0] != ' ' && rest[0] != '\t'
    ensures SkipBlanks(blanks + rest) == rest
  {
    if blanks == "" {
      WithEmpty(rest);
    } else {
      assert (blanks + rest)[1..] == blanks[1..] + rest;
      BlanksSkipped(blanks[1..], rest);
    }
  }

  lemma LeadDropped(lead: string, rest: string)
    requires IsLead(lead) && lead != ""
    ensures DropMark(lead + rest) == rest
  {
    var n := |lead| - 1;
    FrontAndLast(lead, n);
    Regroup(lead[..n], [lead[n]], rest);
    BlanksSkipped(lead[..n], [lead[n]] + rest);
    HeadAndRest(lead[n], rest);
  }

  lemma {:induction false} NoMarkBehind(gap: string, rest: string)
    requires IsGap(gap) && rest != "" && !IsSpace(rest[0]) && rest[0] != ':' && rest[0] != ','
    ensures var t := SkipBlanks(gap + rest); t != "" && t[0] != ':' && t[0] != ','
  {
    if gap == "" {
      WithEmpty(rest);
    } else {
      assert (gap + rest)[1..] == gap[1..] + rest;
      NoMarkBehind(gap[1..], rest);
    }
  }

  lemma NothingDropped(gaps: seq<string>, words: seq<string>, end: string)
    requires |gaps| == |words| > 0 && IsGap(gaps[0]) && IsToken(words[0])
    requires words[0][0] != ':' && words[0][0] != ','
    ensures DropMark(Gapped(gaps, words) + end) == Gapped(gaps, words) + end
  {
    GappedFirst(gaps, words, end);
    NoMarkBehind(gaps[0], words[0] + (Gapped(gaps[1..], words[1..]) + end));
  }

  lemma LeadRead(o: Order, words: seq<string>)
    requires OrderFits(o) && words == OrderTokens(o)
    ensures DropMark(o.lead + (Gapped(o.gaps, words) + o.end)) == Gapped(o.gaps, words) + o.end
  {
    if o.lead == "" {
      NameIsKebab(o.c);
      SpellingIsToken(o.name);
      NothingDropped(o.gaps, words, o.end);
      WithEmpty(Gapped(o.gaps, words) + o.end);
    } else {
      LeadDropped(o.lead, Gapped(o.gaps, words) + o.end);
    }
  }

  lemma LineRead(x: string, tail: string)
    requires Free(x, '\n') && (tail == "" || tail[0] == '\n')
    ensures Lines(x + tail)[0] == x
  {
    LinesOfFree(x);
    if tail == "" {
      assert x + tail == x;
    } else {
      LinesOfTwo(x, tail[1..]);
      assert x + tail == x + NL + tail[1..];
    }
  }

  lemma MentionSaid(mention: string, rest: string)
    requires SpelledAs(mention, "@excalibur") && (rest == "" || MayFollow(rest[0]))
    ensures IsMention(mention + rest, MENTION) && |mention| == |MENTION| && mention[0] == '@'
  {
    forall i | 0 <= i < |MENTION|
      ensures LowerAscii((mention + rest)[i]) == MENTION[i]
    {
      assert (mention + rest)[i] == mention[i];
      LetterSaid(mention[i], MENTION[i], i);
    }
    assert rest != "" ==> (mention + rest)[|mention|] == rest[0];
  }

  lemma LetterSaid(c: char, letter: char, i: nat)
    requires i < |MENTION| && MENTION[i] == letter
    requires c == letter || ('A' <= c <= 'Z' && c as int + 32 == letter as int)
    ensures LowerAscii(c) == letter && (i == 0 ==> c == '@')
  {
  }

  lemma LeadMayFollow(o: Order, rest: string)
    requires OrderFits(o)
    ensures var line := o.lead + (Gapped(o.gaps, OrderTokens(o)) + rest); line != "" && MayFollow(line[0])
  {
    var words := OrderTokens(o);
    var line := o.lead + (Gapped(o.gaps, words) + rest);
    if o.lead == "" {
      assert line[0] == o.gaps[0][0];
    } else {
      assert line[0] == o.lead[0];
      assert IsSpace(' ') && IsSpace('\t');
    }
  }

  lemma LeadOnOneLine(lead: string)
    requires IsLead(lead)
    ensures Free(lead, '\n')
  {
  }

  /** What stands behind the mention on its line. */
  function Behind(o: Order): string
    requires OrderFits(o)
  {
    o.lead + (Gapped(o.gaps, OrderTokens(o)) + o.end)
  }

  lemma BehindOnOneLine(o: Order)
    requires OrderFits(o)
    ensures Free(Behind(o), '\n')
  {
    TokensFit(o);
    GappedOnOneLine(o.gaps, OrderTokens(o));
    GapOnOneLine(o.end);
    LeadOnOneLine(o.lead);
    FreeConcat(Gapped(o.gaps, OrderTokens(o)), o.end, '\n');
    FreeConcat(o.lead, Gapped(o.gaps, OrderTokens(o)) + o.end, '\n');
  }

  lemma RawTrimmed(o: Order)
    requires OrderFits(o)
    ensures Trim(o.mention + Behind(o)) == Said(o)
  {
    var words := OrderTokens(o);
    var said := Said(o);
    TokensFit(o);
    GappedEnds(o.gaps, words);
    EndsLikeLast(o.mention, o.lead, Gapped(o.gaps, words));
    Regroup(o.lead, Gapped(o.gaps, words), o.end);
    Regroup(o.mention, o.lead + Gapped(o.gaps, words), o.end);
    LetterSaid(o.mention[0], '@', 0);
    assert (said + o.end)[0] == '@';
    EndTrimmed(said, o.end);
  }

  lemma EndsLikeLast(a: string, b: string, c: string)
    requires c != ""
    ensures a + (b + c) != "" && (a + (b + c))[|a + (b + c)| - 1] == c[|c| - 1]
  {
  }

  lemma MentionCut(mention: string, rest: string)
    requires |mention| == |MENTION|
    ensures (mention + rest)[..|MENTION|] == mention && (mention + rest)[|MENTION|..] == rest
  {
  }

  /** A mention and its line, whatever the lines behind it. */
  lemma MentionRead(o: Order, tail: string)
    requires OrderFits(o) && (tail == "" || tail[0] == '\n')
    ensures IsMention(o.mention + (Behind(o) + tail), MENTION)
    ensures o.mention != "" && o.mention[0] == '@'
    ensures ParseMention(o.mention + (Behind(o) + tail)) == Parsed(Read(o))
  {
    LeadMayFollow(o, o.end);
    MentionSaid(o.mention, Behind(o) + tail);
    MentionCut(o.mention, Behind(o) + tail);
    BehindOnOneLine(o);
    LineRead(Behind(o), tail);
    LineInterpreted(o, OrderTokens(o));
  }

  lemma LineInterpreted(o: Order, words: seq<string>)
    requires OrderFits(o) && words == OrderTokens(o)
    ensures Interpret(Words(DropMark(Behind(o))), Trim(o.mention + Behind(o))) == Parsed(Read(o))
  {
    LeadRead(o, words);
    TokensFit(o);
    WordsOfGapped(o.gaps, words, o.end);
    RawTrimmed(o);
    TokensInterpreted(o, Said(o));
  }

  lemma OneAtSign(k: nat)
    requires 0 < k < |MENTION|
    ensures MENTION[k] != '@'
  {
  }

  lemma CutMention(prefix: string, s: string)
    requires 0 < |prefix| < |MENTION| && s != "" && s[0] == '@'
    ensures !SaysMention(prefix + s, MENTION)
  {
    OneAtSign(|prefix|);
    assert (prefix + s)[|prefix|] == '@';
    assert LowerAscii('@') != MENTION[|prefix|];
  }

  /** A mention does not reach into a text that starts with the next one. */
  lemma MentionInside(prefix: string, s: string)
    requires prefix != "" && s != "" && s[0] == '@'
    ensures IsMention(prefix + s, MENTION) ==> IsMention(prefix, MENTION)
  {
    if |prefix| < |MENTION| {
      CutMention(prefix, s);
    } else {
      SaysInside(prefix, s, MENTION);
    }
  }

  lemma SaysInside(prefix: string, s: string, word: string)
    requires |prefix| >= |word|
    ensures IsMention(prefix + s, word) ==> IsMention(prefix, word)
  {
    assert forall i :: 0 <= i < |prefix| ==> (prefix + s)[i] == prefix[i];
  }

  lemma {:induction false} PrefixSkipped(prefix: string, free: bool, s: string)
    requires prefix != "" && Find(prefix, free).None? && s != "" && s[0] == '@'
    ensures Find(prefix + s, free) == Find(s, !IsWord(prefix[|prefix| - 1]))
  {
    var t := prefix + s;
    assert t[1..] == prefix[1..] + s;
    MentionInside(prefix, s);
    if |prefix| > 1 {
      PrefixSkipped(prefix[1..], !IsWord(t[0]), s);
    } else {
      assert prefix[1..] + s == s;
    }
  }

  /** A text in front of a command: there is no mention in it, and the command's mention does not continue a word. */
  predicate MayPrecede(prefix: string) {
    Find(prefix, true).None? && (prefix == "" || !IsWord(prefix[|prefix| - 1]))
  }

  lemma FoundHere(s: string)
    requires IsMention(s, MENTION) && s != ""
    ensures Find(s, true) == Some(s)
  {
  }

  lemma FoundBehind(prefix: string, s: string)
    requires MayPrecede(prefix) && IsMention(s, MENTION) && s != "" && s[0] == '@'
    ensures Find(prefix + s, true) == Some(s)
  {
    FoundHere(s);
    if prefix == "" {
      WithEmpty(s);
    } else {
      PrefixSkipped(prefix, true, s);
    }
  }

  lemma WrittenIsRead(prefix: string, o: Order, tail: string)
    requires OrderFits(o) && MayPrecede(prefix)
    requires tail == "" || tail[0] == '\n'
    ensures Parse(prefix + (o.mention + (Behind(o) + tail))) == Parsed(Read(o))
  {
    MentionRead(o, tail);
    FoundBehind(prefix, o.mention + (Behind(o) + tail));
  }

  lemma {:induction false} AssignedIsMeant(flags: Flags, items: seq<Item>)
    requires !HasFlag(items, PROTO)
    ensures Assigned(flags, items) == Meant(flags, items)
    decreases |items|
  {
    if items != [] {
      HasFlagFirst(items, PROTO);
      AssignedIsMeant(if items[0].Plain? then flags else flags[items[0].name := ValueOf(items[0])], items[1..]);
    }
  }

  lemma {:induction false} ProtoNeverAssigned(flags: Flags, items: seq<Item>)
    requires PROTO !in flags
    ensures PROTO !in Assigned(flags, items)
    decreases |items|
  {
    if items != [] {
      ProtoNeverAssigned(if items[0].Plain? then flags else SetFlag(flags, items[0].name, ValueOf(items[0])),
                         items[1..]);
    }
  }

  /**
   * A command in any accepted spelling, anywhere in a comment, is parsed as what it says if and only if none of its
   * flags is called `__proto__`: behind any text that holds no mention and does not end in a word character, and in
   * front of any further lines.
   */
  lemma RoundTripIff(prefix: string, o: Order, tail: string)
    requires OrderFits(o) && MayPrecede(prefix)
    requires tail == "" || tail[0] == '\n'
    ensures Parse(prefix + (o.mention + (Behind(o) + tail))) == Parsed(Expected(o))
       <==> !HasFlag(o.items, "__proto__")
  {
    WrittenIsRead(prefix, o, tail);
    if HasFlag(o.items, PROTO) {
      ProtoNeverAssigned(map[], o.items);
      MeantExactly(map[], o.items, PROTO);
    } else {
      AssignedIsMeant(map[], o.items);
    }
  }

  // --- a flag that is lost ---

  const LOST := Order("@Excalibur", ":", Plan, Spelling("plan", "Plan", ""), None, [Alone(PROTO)], [" ", " "], "")

  lemma LostFits()
    ensures OrderFits(LOST)
  {
    assert ItemFits(Alone(PROTO));
    assert LOST.items[1..] == [];
    assert AllItemTokens(LOST.items) == ItemTokens(Alone(PROTO));
  }

  lemma NothingPrecedes()
    ensures MayPrecede("")
  {
  }

  /** A written command that is not read back. */
  lemma LostFlagExists()
    ensures OrderFits(LOST) && MayPrecede("")
    ensures Parse("" + (LOST.mention + (Behind(LOST) + ""))) != Parsed(Expected(LOST))
  {
    LostFits();
    NothingPrecedes();
    assert LOST.items[0] == Alone(PROTO);
    RoundTripIff("", LOST, "");
  }
}
