/** Strings as the program handles them: splitting into lines, trimming, prefixes and searching. */
module Text {
  import opened Wrappers
  import opened Seqs

  const NL := "\n"

  /** JavaScript's `\s`, and what `trim` removes. */
  predicate IsSpace(c: char) {
    || c == ' ' || '\t' <= c <= '\r' || c == '\U{00A0}' || c == '\U{1680}' || '\U{2000}' <= c <= '\U{200A}'
    || c == '\U{2028}' || c == '\U{2029}' || c == '\U{202F}' || c == '\U{205F}' || c == '\U{3000}' || c == '\U{FEFF}'
  }

  /** The characters `.` does not match in a regular expression. */
  predicate IsLineTerminator(c: char) {
    c == '\n' || c == '\r' || c == '\U{2028}' || c == '\U{2029}'
  }

  /** What `.*` matches. */
  predicate Unbroken(s: string) {
    forall i :: 0 <= i < |s| ==> !IsLineTerminator(s[i])
  }

  predicate IsDigit(c: char) {
    '0' <= c <= '9'
  }

  /** JavaScript's `\w`. */
  predicate IsWord(c: char) {
    'a' <= c <= 'z' || 'A' <= c <= 'Z' || IsDigit(c) || c == '_'
  }

  /**
   * `toLowerCase` as far as it can produce ASCII: the capital letters and the Kelvin sign. Every other character
   * lowers to something that is not ASCII and is left as it is.
   */
  function Lower(c: char): char {
    if 'A' <= c <= 'Z' then (c as int + 32) as char else if c == '\U{212A}' then 'k' else c
  }

  function LowerAll(s: string): (r: string)
    ensures |r| == |s| && forall i :: 0 <= i < |s| ==> r[i] == Lower(s[i])
  {
    seq(|s|, i requires 0 <= i < |s| => Lower(s[i]))
  }

  predicate StartsWith(s: string, p: string) {
    p <= s
  }

  /** What follows `head`. */
  function After(s: string, head: string): Option<string> {
    if StartsWith(s, head) then Some(s[|head|..]) else None
  }

  lemma AfterHead(head: string, rest: string)
    ensures After(head + rest, head) == Some(rest)
  {
  }

  predicate EndsWith(s: string, p: string) {
    |p| <= |s| && s[|s| - |p|..] == p
  }

  predicate Free(s: string, c: char) {
    c !in s
  }

  // --- decimal numbers ---

  function Digit(n: nat): char
    requires n < 10
  {
    ['0', '1', '2', '3', '4', '5', '6', '7', '8', '9'][n]
  }

  function Decimal(n: nat): string {
    if n < 10 then [Digit(n)] else Decimal(n / 10) + [Digit(n % 10)]
  }

  function DigitValue(c: char): nat
    requires IsDigit(c)
  {
    (c as int - '0' as int) as nat
  }

  predicate AllDigits(s: string) {
    forall i :: 0 <= i < |s| ==> IsDigit(s[i])
  }

  /** The number a string of digits denotes. */
  function NatOf(s: string): nat
    requires AllDigits(s)
  {
    if s == "" then 0 else NatOf(s[..|s| - 1]) * 10 + DigitValue(s[|s| - 1])
  }

  lemma DigitIsDigit(n: nat)
    requires n < 10
    ensures IsDigit(Digit(n)) && DigitValue(Digit(n)) == n
  {
  }

  lemma {:induction false} DecimalDenotes(n: nat)
    ensures Decimal(n) != "" && AllDigits(Decimal(n)) && NatOf(Decimal(n)) == n
  {
    DigitIsDigit(n % 10);
    if n < 10 {
      assert Decimal(n)[..0] == "";
    } else {
      DecimalDenotes(n / 10);
      assert Decimal(n)[..|Decimal(n)| - 1] == Decimal(n / 10);
    }
  }

  function TrimStart(s: string): string {
    if s != "" && IsSpace(s[0]) then TrimStart(s[1..]) else s
  }

  function TrimEnd(s: string): string {
    if s != "" && IsSpace(s[|s| - 1]) then TrimEnd(s[..|s| - 1]) else s
  }

  function Trim(s: string): string {
    TrimEnd(TrimStart(s))
  }

  predicate IsTrimmed(s: string) {
    s == "" || (!IsSpace(s[0]) && !IsSpace(s[|s| - 1]))
  }

  /** The first position of `c` at or after `from`, or -1. */
  function IndexOf(s: string, c: char, from: nat): (r: int)
    requires from <= |s|
    ensures r == -1 || (from <= r < |s| && s[r] == c)
    ensures forall i :: from <= i < (if r == -1 then |s| else r) ==> s[i] != c
    decreases |s| - from
  {
    if from == |s| then -1 else if s[from] == c then from else IndexOf(s, c, from + 1)
  }

  /** Puts a character in front of the first line. */
  function Push(c: char, ls: seq<string>): seq<string>
    requires ls != []
  {
    [[c] + ls[0]] + ls[1..]
  }

  /** `s.split('\n')`. */
  function Lines(s: string): (r: seq<string>)
    ensures r != []
  {
    if s == "" then [""]
    else if s[0] == '\n' then [""] + Lines(s[1..])
    else
      Push(s[0], Lines(s[1..]))
  }

  /** `ls.join('\n')`. */
  function Join(ls: seq<string>): string {
    if ls == [] then "" else if |ls| == 1 then ls[0] else ls[0] + NL + Join(ls[1..])
  }

  predicate AllFree(ls: seq<string>, c: char) {
    forall i :: 0 <= i < |ls| ==> Free(ls[i], c)
  }

  lemma {:induction false} LinesAreFree(s: string)
    ensures AllFree(Lines(s), '\n')
  {
    if s != "" {
      LinesAreFree(s[1..]);
    }
  }

  /** The lines of two texts joined end to end: the last of the one runs on into the first of the other. */
  function Splice(p: seq<string>, q: seq<string>): (r: seq<string>)
    requires p != [] && q != []
    ensures r != []
  {
    p[..|p| - 1] + [p[|p| - 1] + q[0]] + q[1..]
  }

  lemma SplicePush(c: char, p: seq<string>, q: seq<string>)
    requires p != [] && q != []
    ensures Splice(Push(c, p), q) == Push(c, Splice(p, q))
  {
    if |p| == 1 {
      assert [c] + (p[0] + q[0]) == [c] + p[0] + q[0];
    }
  }

  lemma SpliceCons(x: string, p: seq<string>, q: seq<string>)
    requires p != [] && q != []
    ensures Splice([x] + p, q) == [x] + Splice(p, q)
  {
  }

  lemma {:induction false} LinesOfConcat(a: string, b: string)
    ensures Lines(a + b) == Splice(Lines(a), Lines(b))
  {
    if a == "" {
      assert a + b == b;
      assert "" + Lines(b)[0] == Lines(b)[0];
    } else {
      assert (a + b)[1..] == a[1..] + b && (a + b)[0] == a[0];
      LinesOfConcat(a[1..], b);
      if a[0] == '\n' {
        SpliceCons("", Lines(a[1..]), Lines(b));
      } else {
        SplicePush(a[0], Lines(a[1..]), Lines(b));
      }
    }
  }

  lemma LinesOfNewline(b: string)
    ensures Lines(NL + b) == [""] + Lines(b)
  {
    assert (NL + b)[1..] == b;
  }

  /** A newline ends one text's lines and starts the next one's. */
  lemma LinesOfTwo(a: string, b: string)
    ensures Lines(a + NL + b) == Lines(a) + Lines(b)
  {
    LinesOfConcat(a, NL + b);
    LinesOfNewline(b);
    Regroup(a, NL, b);
    SpliceNewline(Lines(a), Lines(b));
  }

  lemma SpliceNewline(a: seq<string>, b: seq<string>)
    requires a != []
    ensures Splice(a, [""] + b) == a + b
  {
    HeadAndRest("", b);
    WithEmpty(a[|a| - 1]);
    FrontAndLast(a, |a| - 1);
  }

  lemma {:induction false} LinesOfFree(s: string)
    requires Free(s, '\n')
    ensures Lines(s) == [s]
  {
    if s != "" {
      LinesOfFree(s[1..]);
      assert [s[0]] + s[1..] == s;
    }
  }

  /** Every line followed by a newline. */
  function Terminated(lines: seq<string>): string {
    if lines == [] then "" else lines[0] + NL + Terminated(lines[1..])
  }

  lemma {:induction false} LinesOfTerminated(lines: seq<string>)
    requires AllFree(lines, '\n')
    ensures Lines(Terminated(lines)) == lines + [""]
  {
    if lines != [] {
      LinesOfTerminated(lines[1..]);
      LinesOfFree(lines[0]);
      LinesOfTwo(lines[0], Terminated(lines[1..]));
      assert [lines[0]] + (lines[1..] + [""]) == lines + [""];
    }
  }

  lemma TrimmedStays(s: string)
    requires IsTrimmed(s)
    ensures Trim(s) == s
  {
  }

  predicate AllSpace(s: string) {
    forall i :: 0 <= i < |s| ==> IsSpace(s[i])
  }

  lemma {:induction false} SpaceSkipped(pad: string, s: string)
    requires AllSpace(pad) && (s == "" || !IsSpace(s[0]))
    ensures TrimStart(pad + s) == s
  {
    if pad == "" {
      assert pad + s == s;
    } else {
      assert (pad + s)[1..] == pad[1..] + s;
      SpaceSkipped(pad[1..], s);
    }
  }

  lemma {:induction false} SpaceCut(s: string) returns (pad: string)
    ensures AllSpace(pad) && s == pad + TrimStart(s)
    ensures TrimStart(s) == "" || !IsSpace(TrimStart(s)[0])
  {
    pad := "";
    if s != "" && IsSpace(s[0]) {
      pad := SpaceCut(s[1..]);
      Headed(s);
      Regroup([s[0]], pad, TrimStart(s[1..]));
      pad := [s[0]] + pad;
    } else {
      WithEmpty(s);
    }
  }

  lemma {:induction false} EndTrimmed(s: string, pad: string)
    requires AllSpace(pad) && s != "" && !IsSpace(s[|s| - 1])
    ensures TrimEnd(s + pad) == s
  {
    if pad == "" {
      WithEmpty(s);
    } else {
      var n := |pad| - 1;
      assert (s + pad)[..|s + pad| - 1] == s + pad[..n];
      EndTrimmed(s, pad[..n]);
    }
  }
}
