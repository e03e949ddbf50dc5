/**
 The changed span of a deleted and an added line (packages/tui/src/diff-view.ts:214-247): what is
 left of each after the longest common prefix and then the longest common suffix are cut off.
 Characters are code points; the spans are UTF-16 offsets.
 */
module DiffSpans {
  import opened Wrappers
  import opened Seqs

  /** A UTF-16 code unit, by the code point it encodes or helps to encode. */
  datatype Unit = Whole(c: char) | HighSurrogate(c: char) | LowSurrogate(c: char)

  /** The UTF-16 code units of a code point: one, or a surrogate pair. */
  function UnitsOf(c: char): seq<Unit> {
    if c < '\U{10000}' then [Whole(c)] else [HighSurrogate(c), LowSurrogate(c)]
  }

  function Units(s: string): seq<Unit> {
    if s == "" then [] else UnitsOf(s[0]) + Units(s[1..])
  }

  function Min(a: nat, b: nat): nat {
    if a <= b then a else b
  }

  /** The length of the common prefix, of which `p` code points are known. */
  function PrefixFrom(a: string, b: string, p: nat): (r: nat)
    requires p <= |a| && p <= |b|
    ensures p <= r <= |a| && r <= |b|
    decreases |a| - p
  {
    if p < |a| && p < |b| && a[p] == b[p] then PrefixFrom(a, b, p + 1) else p
  }

  /** The length of the common suffix that leaves the first `p` code points alone, of which `s` are known. */
  function SuffixFrom(a: string, b: string, p: nat, s: nat): (r: nat)
    requires p + s <= |a| && p + s <= |b|
    ensures s <= r && p + r <= |a| && p + r <= |b|
    decreases |a| - s
  {
    if s < |a| - p && s < |b| - p && a[|a| - 1 - s] == b[|b| - 1 - s] then SuffixFrom(a, b, p, s + 1) else s
  }

  lemma {:induction false} PrefixIsLongest(a: string, b: string, p: nat)
    requires p <= |a| && p <= |b|
    ensures var r := PrefixFrom(a, b, p);
            && (forall i :: p <= i < r ==> a[i] == b[i])
            && (r == |a| || r == |b| || a[r] != b[r])
    decreases |a| - p
  {
    if p < |a| && p < |b| && a[p] == b[p] {
      PrefixIsLongest(a, b, p + 1);
    }
  }

  lemma {:induction false} SuffixIsLongest(a: string, b: string, p: nat, s: nat)
    requires p + s <= |a| && p + s <= |b|
    ensures var r := SuffixFrom(a, b, p, s);
            && a[|a| - r..|a| - s] == b[|b| - r..|b| - s]
            && (p + r == |a| || p + r == |b| || a[|a| - 1 - r] != b[|b| - 1 - r])
    decreases |a| - s
  {
    if s < |a| - p && s < |b| - p && a[|a| - 1 - s] == b[|b| - 1 - s] {
      SuffixIsLongest(a, b, p, s + 1);
      SuffixGrows(a, b, s, SuffixFrom(a, b, p, s));
    }
  }

  lemma SuffixGrows(a: string, b: string, s: nat, r: nat)
    requires s < r <= |a| && r <= |b| && a[|a| - 1 - s] == b[|b| - 1 - s]
    requires a[|a| - r..|a| - (s + 1)] == b[|b| - r..|b| - (s + 1)]
    ensures a[|a| - r..|a| - s] == b[|b| - r..|b| - s]
  {
    SliceOneMore(a, |a| - r, |a| - s);
    SliceOneMore(b, |b| - r, |b| - s);
  }

  datatype SpanPair = SpanPair(del: (nat, nat), add: (nat, nat))

  /** Where the changed middles begin, and where that of each text ends, in code points. */
  datatype Cut = Cut(start: nat, delEnd: nat, addEnd: nat)

  function Middle(del: string, add: string): (r: Cut)
    ensures r.start <= r.delEnd <= |del| && r.start <= r.addEnd <= |add|
  {
    var p := PrefixFrom(del, add, 0);
    var s := SuffixFrom(del, add, p, 0);
    Cut(p, |del| - s, |add| - s)
  }

  function SpanOf(del: string, add: string): Option<SpanPair> {
    var m := Middle(del, add);
    if m.start >= m.delEnd && m.start >= m.addEnd then None
    else if m.start == 0 && m.delEnd == |del| && m.addEnd == |add| then None
    else
      Some(SpanPair((|Units(del[..m.start])|, |Units(del[..m.delEnd])|),
                    (|Units(add[..m.start])|, |Units(add[..m.addEnd])|)))
  }

  method ComputeSpan(del: string, add: string) returns (r: Option<SpanPair>)
    ensures r == SpanOf(del, add)
  {
    var p := 0;
    var min := Min(|del|, |add|);
    while p < min && del[p] == add[p]
      invariant p <= min
      invariant PrefixFrom(del, add, 0) == PrefixFrom(del, add, p)
    {
      p := p + 1;
    }
    var s := 0;
    while s < |del| - p && s < |add| - p && del[|del| - 1 - s] == add[|add| - 1 - s]
      invariant s <= |del| - p && s <= |add| - p
      invariant SuffixFrom(del, add, p, 0) == SuffixFrom(del, add, p, s)
    {
      s := s + 1;
    }
    var delEnd, addEnd := |del| - s, |add| - s;
    if p >= delEnd && p >= addEnd { return None; }
    if p == 0 && delEnd == |del| && addEnd == |add| { return None; }
    r := Some(SpanPair((|Units(del[..p])|, |Units(del[..delEnd])|), (|Units(add[..p])|, |Units(add[..addEnd])|)));
  }

  lemma {:induction false} UnitsOfConcat(a: string, b: string)
    ensures Units(a + b) == Units(a) + Units(b)
  {
    if a == "" {
      assert a + b == b;
    } else {
      assert (a + b)[1..] == a[1..] + b;
      UnitsOfConcat(a[1..], b);
    }
  }

  /** Offsets that are the lengths of code-point prefixes cut the units between code points. */
  lemma UnitsOfSlice(s: string, p: nat, e: nat)
    requires p <= e <= |s|
    ensures |Units(s[..p])| <= |Units(s[..e])| <= |Units(s)|
    ensures Units(s)[..|Units(s[..p])|] == Units(s[..p])
    ensures Units(s)[|Units(s[..p])|..|Units(s[..e])|] == Units(s[p..e])
    ensures Units(s)[|Units(s[..e])|..] == Units(s[e..])
  {
    assert s[..p] + s[p..e] == s[..e] && s[..e] + s[e..] == s;
    UnitsOfConcat(s[..p], s[p..e]);
    UnitsOfConcat(s[..e], s[e..]);
  }

  lemma PrefixAgrees(a: string, b: string)
    ensures var p := PrefixFrom(a, b, 0);
            a[..p] == b[..p] && (p == |a| || p == |b| || a[p] != b[p])
  {
    PrefixIsLongest(a, b, 0);
  }

  lemma SuffixAgrees(a: string, b: string, p: nat, aEnd: nat, bEnd: nat)
    requires p <= aEnd <= |a| && p <= bEnd <= |b|
    requires |a| - aEnd == |b| - bEnd == SuffixFrom(a, b, p, 0)
    ensures a[aEnd..] == b[bEnd..] && (p == aEnd || p == bEnd || a[aEnd - 1] != b[bEnd - 1])
  {
    SuffixIsLongest(a, b, p, 0);
    var r := SuffixFrom(a, b, p, 0);
    assert aEnd == |a| - r && bEnd == |b| - r;
    CutToEnd(a, aEnd, |a|);
    CutToEnd(b, bEnd, |b|);
  }

  /** `m` takes off the longest common prefix and then the longest common suffix. */
  predicate CutsEnds(del: string, add: string, m: Cut)
    requires m.start <= m.delEnd <= |del| && m.start <= m.addEnd <= |add|
  {
    && del[..m.start] == add[..m.start]
    && del[m.delEnd..] == add[m.addEnd..]
    && (m.start == |del| || m.start == |add| || del[m.start] != add[m.start])
    && (m.start == m.delEnd || m.start == m.addEnd || del[m.delEnd - 1] != add[m.addEnd - 1])
  }

  lemma MiddleIsMiddle(del: string, add: string)
    ensures CutsEnds(del, add, Middle(del, add))
  {
    var m := Middle(del, add);
    PrefixAgrees(del, add);
    SuffixAgrees(del, add, m.start, m.delEnd, m.addEnd);
  }

  lemma EqualTextsHaveNoMiddle(s: string)
    ensures Middle(s, s).start == |s|
  {
    PrefixIsLongest(s, s, 0);
  }

  /**
   No span is given exactly when the texts are equal or agree neither in their first nor in their last
   code point.
   */
  lemma NoSpanIff(del: string, add: string)
    ensures SpanOf(del, add).None? <==>
              || del == add
              || (&& (del == "" || add == "" || del[0] != add[0])
                  && (del == "" || add == "" || del[|del| - 1] != add[|add| - 1]))
  {
    var m := Middle(del, add);
    MiddleIsMiddle(del, add);
    EqualTextsHaveNoMiddle(del);
    if m.start >= m.delEnd && m.start >= m.addEnd {
      assert del == del[..m.start] + del[m.delEnd..];
      assert add == add[..m.start] + add[m.addEnd..];
    }
    if m.start > 0 {
      assert del[..m.start][0] == add[..m.start][0];
    }
    if m.delEnd < |del| {
      assert del[m.delEnd..][|del| - m.delEnd - 1] == add[m.addEnd..][|del| - m.delEnd - 1];
    }
  }

  /**
   A span cuts both texts, as UTF-16, into the same prefix, a middle and the same suffix; the cuts fall
   between code points; and no longer common prefix, nor after it a longer common suffix, exists.
   */
  lemma SpansCutCommonEnds(del: string, add: string)
    requires SpanOf(del, add).Some?
    ensures var s, m := SpanOf(del, add).value, Middle(del, add);
            && s.del.0 <= s.del.1 <= |Units(del)| && s.add.0 <= s.add.1 <= |Units(add)|
            && Units(del)[s.del.0..s.del.1] == Units(del[m.start..m.delEnd])
            && Units(add)[s.add.0..s.add.1] == Units(add[m.start..m.addEnd])
            && Units(del)[..s.del.0] == Units(add)[..s.add.0] == Units(del[..m.start])
            && Units(del)[s.del.1..] == Units(add)[s.add.1..] == Units(del[m.delEnd..])
            && (m.start == |del| || m.start == |add| || del[m.start] != add[m.start])
            && (m.start == m.delEnd || m.start == m.addEnd || del[m.delEnd - 1] != add[m.addEnd - 1])
  {
    var m := Middle(del, add);
    MiddleIsMiddle(del, add);
    UnitsOfSlice(del, m.start, m.delEnd);
    UnitsOfSlice(add, m.start, m.addEnd);
  }
}
