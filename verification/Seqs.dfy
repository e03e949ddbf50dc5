/** Facts about sequences that proofs by recursion over them use, whatever their elements are. */
module Seqs {
  function Map<A, B>(f: A -> B, xs: seq<A>): seq<B> {
    seq(|xs|, i requires 0 <= i < |xs| => f(xs[i]))
  }

  lemma MapLast<A, B>(f: A -> B, xs: seq<A>, n: nat)
    requires n == |xs| - 1
    ensures Map(f, xs) == Map(f, xs[..n]) + [f(xs[n])]
  {
  }

  lemma HeadAndRest<T>(x: T, rest: seq<T>)
    ensures ([x] + rest)[0] == x && ([x] + rest)[1..] == rest
  {
  }

  lemma Headed<T>(xs: seq<T>)
    requires xs != []
    ensures xs == [xs[0]] + xs[1..]
  {
  }

  lemma FrontAndLast<T>(xs: seq<T>, n: nat)
    requires n == |xs| - 1
    ensures xs[..n] + [xs[n]] == xs
  {
  }

  lemma Pushed<T>(front: seq<T>, last: T)
    ensures (front + [last])[..|front|] == front && (front + [last])[|front|] == last
  {
  }

  lemma CutAt<T>(xs: seq<T>, i: nat)
    requires i < |xs|
    ensures xs[i..] == [xs[i]] + xs[i + 1..]
  {
  }

  lemma CutWhole<T>(xs: seq<T>)
    ensures xs[0..] == xs && xs[|xs|..] == [] && xs[..|xs|] == xs && xs[..0] == []
  {
  }

  lemma TakeOneMore<T>(xs: seq<T>, i: nat)
    requires i < |xs|
    ensures xs[..i + 1] == xs[..i] + [xs[i]]
  {
  }

  lemma SliceOneMore<T>(xs: seq<T>, i: nat, j: nat)
    requires i < j <= |xs|
    ensures xs[i..j] == xs[i..j - 1] + [xs[j - 1]]
  {
  }

  lemma CutInTwo<T>(xs: seq<T>, i: nat)
    requires i <= |xs|
    ensures xs == xs[..i] + xs[i..]
  {
  }

  lemma CutToEnd<T>(xs: seq<T>, i: nat, n: nat)
    requires i <= n == |xs|
    ensures xs[i..n] == xs[i..]
  {
  }

  lemma TakeTwice<T>(xs: seq<T>, n: nat, j: nat)
    requires j <= n <= |xs|
    ensures xs[..n][..j] == xs[..j] && xs[j..n] == xs[..n][j..]
  {
  }

  lemma CutInside<T>(xs: seq<T>, i: nat, k: nat, j: nat)
    requires i + k == j <= |xs|
    ensures xs[i..][..k] == xs[i..j] && xs[i..][k..] == xs[j..]
    ensures k > 0 ==> xs[i..][k - 1] == xs[j - 1]
  {
  }

  lemma Regroup<T>(a: seq<T>, b: seq<T>, c: seq<T>)
    ensures (a + b) + c == a + (b + c)
  {
  }

  lemma Longer<T>(prefix: seq<T>, a: seq<T>, b: seq<T>)
    requires prefix <= a
    ensures prefix <= a + b
  {
  }

  lemma WithEmpty<T>(xs: seq<T>)
    ensures xs + [] == xs && [] + xs == xs
  {
  }
}
