/** What the board shows, for any directory (packages/work-items/src/local-provider.ts:111-131, 282-290). */
module WorkItemBoard {
  import opened Wrappers
  import opened Lanes
  import opened WorkItems

  // --- sorting ---

  lemma {:induction false} InsertPermutes(items: seq<Item>, x: Item, after: (Item, Item) -> bool)
    ensures multiset(Insert(items, x, after)) == multiset(items) + multiset{x}
  {
    if items != [] && after(items[|items| - 1], x) {
      var front, last := items[..|items| - 1], items[|items| - 1];
      InsertPermutes(front, x, after);
      assert items == front + [last];
    }
  }

  lemma MultisetOfLast(front: seq<Item>, last: Item)
    ensures multiset(front + [last]) == multiset(front) + multiset{last}
  {
  }

  lemma {:induction false} SortPermutes(items: seq<Item>, after: (Item, Item) -> bool)
    ensures multiset(Sort(items, after)) == multiset(items)
  {
    if items != [] {
      var front, last := items[..|items| - 1], items[|items| - 1];
      SortPermutes(front, after);
      InsertPermutes(Sort(front, after), last, after);
      MultisetOfLast(front, last);
      assert items == front + [last];
    }
  }

  /** A comparison that is a strict weak order, read from a pair of numbers. */
  ghost predicate Ordered(items: seq<Item>, after: (Item, Item) -> bool) {
    forall i, j :: 0 <= i < j < |items| ==> !after(items[i], items[j])
  }

  ghost predicate Weak(after: (Item, Item) -> bool) {
    && (forall a, b :: after(a, b) ==> !after(b, a))
    && (forall a, b, c :: !after(a, b) && !after(b, c) ==> !after(a, c))
  }

  lemma {:induction false} InsertOrdered(items: seq<Item>, x: Item, after: (Item, Item) -> bool)
    requires Weak(after) && Ordered(items, after)
    ensures Ordered(Insert(items, x, after), after)
    ensures forall y :: y in Insert(items, x, after) <==> y in items || y == x
  {
    if items != [] && after(items[|items| - 1], x) {
      var front, last := items[..|items| - 1], items[|items| - 1];
      InsertOrdered(front, x, after);
      assert items == front + [last];
      AppendOrdered(Insert(front, x, after), last, after);
    } else if items != [] {
      forall y | y in items
        ensures !after(y, x)
      {
        LastIsLast(items, y, after);
      }
      AppendOrdered(items, x, after);
    }
  }

  lemma LastIsLast(items: seq<Item>, y: Item, after: (Item, Item) -> bool)
    requires Weak(after) && Ordered(items, after) && y in items
    ensures !after(y, items[|items| - 1])
  {
    var i :| 0 <= i < |items| && items[i] == y;
  }

  lemma AppendOrdered(items: seq<Item>, x: Item, after: (Item, Item) -> bool)
    requires Ordered(items, after) && forall y :: y in items ==> !after(y, x)
    ensures Ordered(items + [x], after)
  {
  }

  lemma {:induction false} SortOrdered(items: seq<Item>, after: (Item, Item) -> bool)
    requires Weak(after)
    ensures Ordered(Sort(items, after), after)
  {
    if items != [] {
      SortOrdered(items[..|items| - 1], after);
      InsertOrdered(Sort(items[..|items| - 1], after), items[|items| - 1], after);
    }
  }

  lemma RankIsWeak()
    ensures Weak(AfterByRank())
  {
  }

  lemma AgeIsWeak()
    ensures Weak(AfterByAge())
  {
  }

  // --- lanes ---

  lemma {:induction false} FilterElements(items: seq<Item>, keep: Item -> bool, x: Item)
    ensures multiset(Filter(items, keep))[x] == if keep(x) then multiset(items)[x] else 0
  {
    if items != [] {
      var front, last := items[..|items| - 1], items[|items| - 1];
      FilterElements(front, keep, x);
      assert items == front + [last];
    }
  }

  lemma OfLaneElements(items: seq<Item>, lane: Lane, x: Item)
    ensures multiset(OfLane(items, lane))[x] == if LaneOf(x.status) == lane then multiset(items)[x] else 0
  {
    FilterElements(items, IsIn(lane), x);
  }

  /** A lane of the board holds that lane's items, as often as they are stored, sorted by rank and then by key. */
  lemma BoardLaneSorted(dir: Dir, names: seq<string>, lane: Lane, x: Item)
    requires forall name :: name in names ==> name in dir
    ensures InBoardOrder(BoardLane(dir, names, lane))
    ensures multiset(BoardLane(dir, names, lane))[x]
         == if LaneOf(x.status) == lane then multiset(Readable(dir, names))[x] else 0
  {
    var all := ReadAll(dir, names);
    SortPermutes(Readable(dir, names), AfterByAge());
    OfLaneElements(all, lane, x);
    SortPermutes(OfLane(all, lane), AfterByRank());
    RankIsWeak();
    SortOrdered(OfLane(all, lane), AfterByRank());
  }

  /** The whole list is newest first. */
  lemma ReadAllSorted(dir: Dir, names: seq<string>)
    requires forall name :: name in names ==> name in dir
    ensures NewestFirst(ReadAll(dir, names)) && multiset(ReadAll(dir, names)) == multiset(Readable(dir, names))
  {
    AgeIsWeak();
    SortOrdered(Readable(dir, names), AfterByAge());
    SortPermutes(Readable(dir, names), AfterByAge());
  }

  /** All lanes of the board, one after the other. */
  function WholeBoard(dir: Dir, names: seq<string>, n: nat): seq<Item>
    requires n <= |LANES| && forall name :: name in names ==> name in dir
  {
    if n == 0 then [] else WholeBoard(dir, names, n - 1) + BoardLane(dir, names, LANES[n - 1])
  }

  function Position(lane: Lane): (r: nat)
    ensures r < |LANES| && LANES[r] == lane
  {
    match lane
    case Backlog => 0
    case Todo => 1
    case InProgress => 2
    case Review => 3
    case Done => 4
  }

  lemma OneMoreLane(dir: Dir, names: seq<string>, n: nat, x: Item)
    requires 0 < n <= |LANES| && forall name :: name in names ==> name in dir
    ensures multiset(WholeBoard(dir, names, n))[x]
         == multiset(WholeBoard(dir, names, n - 1))[x] + multiset(BoardLane(dir, names, LANES[n - 1]))[x]
  {
  }

  lemma LaneCount(dir: Dir, names: seq<string>, lane: Lane, x: Item)
    requires forall name :: name in names ==> name in dir
    ensures multiset(BoardLane(dir, names, lane))[x]
         == if LaneOf(x.status) == lane then multiset(Readable(dir, names))[x] else 0
  {
    BoardLaneSorted(dir, names, lane, x);
  }

  lemma {:induction false} CountUpTo(dir: Dir, names: seq<string>, n: nat, x: Item)
    requires n <= |LANES| && forall name :: name in names ==> name in dir
    ensures multiset(WholeBoard(dir, names, n))[x]
         == if Position(LaneOf(x.status)) < n then multiset(Readable(dir, names))[x] else 0
  {
    if n > 0 {
      CountUpTo(dir, names, n - 1, x);
      OneMoreLane(dir, names, n, x);
      LaneCount(dir, names, LANES[n - 1], x);
      LanesDiffer(n - 1, LaneOf(x.status));
    }
  }

  lemma LanesDiffer(n: nat, lane: Lane)
    requires n < |LANES|
    ensures LANES[n] == lane <==> Position(lane) == n
  {
  }

  /** The five lanes together are a permutation of all items. */
  lemma BoardPartition(dir: Dir, names: seq<string>)
    requires forall name :: name in names ==> name in dir
    ensures multiset(WholeBoard(dir, names, |LANES|)) == multiset(Readable(dir, names))
  {
    forall x
      ensures multiset(WholeBoard(dir, names, |LANES|))[x] == multiset(Readable(dir, names))[x]
    {
      CountUpTo(dir, names, |LANES|, x);
    }
  }
}
