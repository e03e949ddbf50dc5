/** Lists that keep the first appearance of each element of another list. */
module Order {
  import opened Seqs

  /** Appends the element unless it is there already. */
  function AddOne<T(==)>(names: seq<T>, x: T): seq<T> {
    if x in names then names else names + [x]
  }

  predicate Distinct<T(==)>(names: seq<T>) {
    forall i, j :: 0 <= i < j < |names| ==> names[i] != names[j]
  }

  function First<T(==)>(all: seq<T>, x: T): (r: nat)
    ensures r <= |all|
  {
    if all == [] || all[0] == x then 0 else 1 + First(all[1..], x)
  }

  /** The names are those of the whole list, each once, in the order in which they first appear. */
  ghost predicate FirstAppearances<T(!new)>(names: seq<T>, all: seq<T>) {
    && Distinct(names)
    && (forall x :: x in names <==> x in all)
    && (forall i, j :: 0 <= i < j < |names| ==> First(all, names[i]) < First(all, names[j]))
  }

  lemma {:induction false} FirstInside<T>(all: seq<T>, x: T)
    ensures x in all <==> First(all, x) < |all|
    ensures x in all ==> all[First(all, x)] == x
  {
    if all != [] && all[0] != x {
      FirstInside(all[1..], x);
    }
  }

  lemma {:induction false} FirstOfPrefix<T>(all: seq<T>, more: seq<T>, x: T)
    requires x in all
    ensures First(all + more, x) == First(all, x)
  {
    if all[0] != x {
      assert (all + more)[1..] == all[1..] + more;
      FirstOfPrefix(all[1..], more, x);
    }
  }

  lemma {:induction false} FirstOfNew<T>(all: seq<T>, x: T)
    requires x !in all
    ensures First(all + [x], x) == |all|
  {
    if all == [] {
      assert all + [x] == [x];
    } else {
      assert (all + [x])[1..] == all[1..] + [x];
      FirstOfNew(all[1..], x);
    }
  }

  lemma OneMoreName<T(!new)>(names: seq<T>, seen: seq<T>, x: T)
    requires FirstAppearances(names, seen)
    ensures FirstAppearances(AddOne(names, x), seen + [x])
  {
    var r := AddOne(names, x);
    forall i, j | 0 <= i < j < |r|
      ensures First(seen + [x], r[i]) < First(seen + [x], r[j])
    {
      FirstOfPrefix(seen, [x], r[i]);
      FirstInside(seen, r[i]);
      if r[j] in seen {
        FirstOfPrefix(seen, [x], r[j]);
      } else {
        FirstOfNew(seen, x);
      }
    }
  }
}
