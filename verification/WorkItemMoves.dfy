/**
 How one operation changes the board of a tidy store, which every run leaves behind
 (packages/work-items/src/local-provider.ts).
 */
module WorkItemMoves {
  import opened Wrappers
  import opened Text
  import opened Lanes
  import opened WorkItems
  import opened WorkItemBoard
  import opened WorkItemRuns

  // --- a lane as the one sequence of its items by rank and then by key ---

  predicate Climbs(xs: seq<Item>) {
    forall i, j :: 0 <= i < j < |xs| ==> Before(xs[i], xs[j])
  }

  ghost predicate HasItem(dir: Dir, lane: Lane, x: Item) {
    exists name :: InLane(dir, name, lane) && dir[name].item == x
  }

  ghost predicate LaneView(dir: Dir, lane: Lane, xs: seq<Item>) {
    Climbs(xs) && forall x :: x in xs <==> HasItem(dir, lane, x)
  }

  lemma LastsAgree(xs: seq<Item>, ys: seq<Item>)
    requires xs != [] && ys != [] && Climbs(xs) && Climbs(ys) && forall x :: x in xs <==> x in ys
    ensures xs[|xs| - 1] == ys[|ys| - 1]
  {
    var x, y := xs[|xs| - 1], ys[|ys| - 1];
    assert x in ys && y in xs;
  }

  lemma FrontElements(xs: seq<Item>, x: Item)
    requires xs != [] && Climbs(xs)
    ensures x in xs[..|xs| - 1] <==> x in xs && x != xs[|xs| - 1]
  {
    assert xs == xs[..|xs| - 1] + [xs[|xs| - 1]];
  }

  lemma BothEmpty(xs: seq<Item>, ys: seq<Item>)
    requires forall x :: x in xs <==> x in ys
    ensures xs == [] <==> ys == []
  {
    if xs != [] {
      assert xs[0] in ys;
    }
    if ys != [] {
      assert ys[0] in xs;
    }
  }

  lemma {:induction false} ClimbsUnique(xs: seq<Item>, ys: seq<Item>)
    requires Climbs(xs) && Climbs(ys) && forall x :: x in xs <==> x in ys
    ensures xs == ys
  {
    BothEmpty(xs, ys);
    if xs != [] {
      LastsAgree(xs, ys);
      var n, m := |xs| - 1, |ys| - 1;
      forall x
        ensures x in xs[..n] <==> x in ys[..m]
      {
        FrontElements(xs, x);
        FrontElements(ys, x);
      }
      ClimbsUnique(xs[..n], ys[..m]);
      assert xs == xs[..n] + [xs[n]] && ys == ys[..m] + [ys[m]];
    }
  }

  // --- the board shows it ---

  lemma {:induction false} ReadableElements(dir: Dir, names: seq<string>, x: Item)
    requires forall name :: name in names ==> name in dir
    ensures x in Readable(dir, names) <==> exists name :: name in names && IsItem(dir, name) && dir[name].item == x
  {
    if names != [] {
      var front, last := names[..|names| - 1], names[|names| - 1];
      assert names == front + [last];
      ReadableElements(dir, front, x);
      assert last in names;
    }
  }

  lemma {:induction false} ReadableOnce(dir: Dir, names: seq<string>, x: Item)
    requires AllNamed(dir) && forall name :: name in names ==> name in dir
    requires forall i, j :: 0 <= i < j < |names| ==> names[i] != names[j]
    ensures multiset(Readable(dir, names))[x] <= 1
  {
    if names != [] {
      var front, last := names[..|names| - 1], names[|names| - 1];
      ReadableOnce(dir, front, x);
      assert Named(dir, last);
      if x in Readable(dir, front) {
        ReadableElements(dir, front, x);
        var name :| name in front && IsItem(dir, name) && dir[name].item == x;
        assert Named(dir, name);
        assert dir[last].item == x ==> name == last;
      }
    }
  }

  lemma TwiceCounts(xs: seq<Item>, i: nat, j: nat)
    requires i < j < |xs| && xs[i] == xs[j]
    ensures multiset(xs)[xs[i]] >= 2
  {
    assert xs == xs[..j] + xs[j..];
    assert xs[..j][i] == xs[i] && xs[j..][0] == xs[j];
    assert xs[i] in xs[..j] && xs[i] in xs[j..];
  }

  lemma BoardElements(dir: Dir, names: seq<string>, lane: Lane, x: Item)
    requires Lists(names, dir)
    ensures x in BoardLane(dir, names, lane) <==> HasItem(dir, lane, x)
  {
    BoardLaneSorted(dir, names, lane, x);
    ReadableElements(dir, names, x);
    if HasItem(dir, lane, x) {
      var name :| InLane(dir, name, lane) && dir[name].item == x;
      assert name in names;
    }
  }

  lemma BoardClimbs(dir: Dir, names: seq<string>, lane: Lane)
    requires Tidy(dir) && Lists(names, dir)
    ensures Climbs(BoardLane(dir, names, lane))
  {
    var xs := BoardLane(dir, names, lane);
    forall i, j | 0 <= i < j < |xs|
      ensures Before(xs[i], xs[j])
    {
      BoardLaneSorted(dir, names, lane, xs[i]);
      BoardElements(dir, names, lane, xs[i]);
      BoardElements(dir, names, lane, xs[j]);
      var a :| InLane(dir, a, lane) && dir[a].item == xs[i];
      var b :| InLane(dir, b, lane) && dir[b].item == xs[j];
      if a == b {
        TwiceCounts(xs, i, j);
        ReadableOnce(dir, names, xs[i]);
      }
      assert !Before(xs[j], xs[i]);
    }
  }

  /** In a tidy store, each lane of the board is its items by rank and key, however the directory is listed. */
  lemma BoardIsView(dir: Dir, names: seq<string>, lane: Lane)
    requires Tidy(dir) && Lists(names, dir)
    ensures LaneView(dir, lane, BoardLane(dir, names, lane))
  {
    BoardClimbs(dir, names, lane);
    forall x
      ensures x in BoardLane(dir, names, lane) <==> HasItem(dir, lane, x)
    {
      BoardElements(dir, names, lane, x);
    }
  }

  // --- one operation ---

  function Minus(xs: seq<Item>, x: Item): seq<Item> {
    if xs == [] then []
    else Minus(xs[..|xs| - 1], x) + (if xs[|xs| - 1] == x then [] else [xs[|xs| - 1]])
  }

  lemma {:induction false} MinusElements(xs: seq<Item>, x: Item, y: Item)
    ensures y in Minus(xs, x) <==> y in xs && y != x
  {
    if xs != [] {
      assert xs == xs[..|xs| - 1] + [xs[|xs| - 1]];
      MinusElements(xs[..|xs| - 1], x, y);
    }
  }

  lemma {:induction false} MinusClimbs(xs: seq<Item>, x: Item)
    requires Climbs(xs)
    ensures Climbs(Minus(xs, x))
  {
    if xs != [] {
      var front, last := xs[..|xs| - 1], xs[|xs| - 1];
      MinusClimbs(front, x);
      if last != x {
        forall y | y in Minus(front, x)
          ensures Before(y, last)
        {
          MinusElements(front, x, y);
        }
        ClimbsPlus(Minus(front, x), last);
      }
    }
  }

  lemma ClimbsPlus(xs: seq<Item>, x: Item)
    requires Climbs(xs) && forall y :: y in xs ==> Before(y, x)
    ensures Climbs(xs + [x])
  {
  }

  /** What is left of a lane when the file of a key is overwritten or removed. */
  function Rest(dir: Dir, key: string, xs: seq<Item>): seq<Item> {
    if FileName(key) in dir && dir[FileName(key)].Stored? then Minus(xs, dir[FileName(key)].item) else xs
  }

  ghost predicate Elsewhere(dir: Dir, at: string, lane: Lane, x: Item) {
    exists name :: name != at && InLane(dir, name, lane) && dir[name].item == x
  }

  lemma RestElements(dir: Dir, key: string, lane: Lane, xs: seq<Item>, x: Item)
    requires AllNamed(dir) && LaneView(dir, lane, xs)
    ensures x in Rest(dir, key, xs) <==> Elsewhere(dir, FileName(key), lane, x)
  {
    var at := FileName(key);
    assert x in xs <==> HasItem(dir, lane, x);
    if at in dir {
      assert Named(dir, at);
      MinusElements(xs, dir[at].item, x);
    }
    if HasItem(dir, lane, x) {
      var name :| InLane(dir, name, lane) && dir[name].item == x;
      assert Named(dir, name);
      assert name != at ==> Elsewhere(dir, at, lane, x);
    }
    if Elsewhere(dir, at, lane, x) {
      var name :| name != at && InLane(dir, name, lane) && dir[name].item == x;
      assert Named(dir, name);
    }
  }

  lemma RestClimbs(dir: Dir, key: string, xs: seq<Item>)
    requires Climbs(xs)
    ensures Climbs(Rest(dir, key, xs))
  {
    if FileName(key) in dir && dir[FileName(key)].Stored? {
      MinusClimbs(xs, dir[FileName(key)].item);
    }
  }

  lemma PlacedHas(dir: Dir, item: Item, lane: Lane, dir': Dir, l: Lane, x: Item)
    requires Placed(dir, item, lane, dir')
    ensures HasItem(dir', l, x) <==> Elsewhere(dir, FileName(item.key), l, x) || (l == lane && x == item)
  {
    PlacedName(dir, item, lane, dir');
    var at := FileName(item.key);
    if HasItem(dir', l, x) {
      var name :| InLane(dir', name, l) && dir'[name].item == x;
      if name != at {
        assert InLane(dir, name, l) && dir[name].item == x;
      }
    }
    if Elsewhere(dir, at, l, x) {
      var name :| name != at && InLane(dir, name, l) && dir[name].item == x;
      assert InLane(dir', name, l) && dir'[name].item == x;
    }
    if l == lane && x == item {
      assert InLane(dir', at, l) && dir'[at].item == x;
    }
  }

  /** A placed item is last in its lane; all the others keep their order. */
  lemma PlacedView(dir: Dir, item: Item, lane: Lane, dir': Dir, l: Lane, xs: seq<Item>)
    requires AllNamed(dir) && Placed(dir, item, lane, dir') && LaneView(dir, l, xs)
    ensures LaneView(dir', l, Rest(dir, item.key, xs) + (if l == lane then [item] else []))
  {
    var rest := Rest(dir, item.key, xs);
    RestClimbs(dir, item.key, xs);
    forall x
      ensures x in rest <==> Elsewhere(dir, FileName(item.key), l, x)
      ensures HasItem(dir', l, x) <==> Elsewhere(dir, FileName(item.key), l, x) || (l == lane && x == item)
    {
      RestElements(dir, item.key, l, xs, x);
      PlacedHas(dir, item, lane, dir', l, x);
    }
    if l == lane {
      ClimbsPlus(rest, item);
    }
  }

  lemma DeletedView(dir: Dir, key: string, res: Result<bool>, dir': Dir, lane: Lane, xs: seq<Item>)
    requires AllNamed(dir) && Deletes(dir, key, res, dir') && res.Success? && LaneView(dir, lane, xs)
    ensures LaneView(dir', lane, Rest(dir, key, xs))
  {
    RestClimbs(dir, key, xs);
    forall x
      ensures x in Rest(dir, key, xs) <==> HasItem(dir', lane, x)
    {
      RestElements(dir, key, lane, xs, x);
      DeletedHas(dir, FileName(key), dir', lane, x);
    }
  }

  lemma DeletedHas(dir: Dir, at: string, dir': Dir, lane: Lane, x: Item)
    requires dir' == dir - {at}
    ensures HasItem(dir', lane, x) <==> Elsewhere(dir, at, lane, x)
  {
    if HasItem(dir', lane, x) {
      var name :| InLane(dir', name, lane) && dir'[name].item == x;
      assert InLane(dir, name, lane);
    }
    if Elsewhere(dir, at, lane, x) {
      var name :| name != at && InLane(dir, name, lane) && dir[name].item == x;
      assert InLane(dir', name, lane) && dir'[name].item == x;
    }
  }

  /** A created item comes last in its lane; nothing else on the board changes. */
  lemma CreatedLast(
    dir: Dir, input: NewItem, ts: string, item: Item, dir': Dir, names: seq<string>, names': seq<string>, lane: Lane)
    requires Tidy(dir) && Creates(dir, input, ts, item, dir') && Lists(names, dir) && Lists(names', dir')
    ensures BoardLane(dir', names', lane)
         == BoardLane(dir, names, lane) + (if lane == LaneOf(item.status) then [item] else [])
  {
    CreatesPlaces(dir, input, ts, item, dir');
    StepTidy(dir, Create(input), ts, dir');
    BoardIsView(dir, names, lane);
    BoardIsView(dir', names', lane);
    PlacedView(dir, item, LaneOf(item.status), dir', lane, BoardLane(dir, names, lane));
    ClimbsUnique(BoardLane(dir', names', lane),
                 BoardLane(dir, names, lane) + (if lane == LaneOf(item.status) then [item] else []));
  }

  /** A moved item leaves its lane and comes last in the target lane, perhaps the same; the others keep their order. */
  lemma MovedLast(
    dir: Dir, key: string, target: Lane, ts: string, res: Result<Item>, dir': Dir,
    names: seq<string>, names': seq<string>, lane: Lane)
    requires Tidy(dir) && Moves(dir, key, target, None, ts, res, dir') && res.Success?
    requires Lists(names, dir) && Lists(names', dir')
    ensures ReadOne(dir, key).Success?
    ensures BoardLane(dir', names', lane)
         == Minus(BoardLane(dir, names, lane), ReadOne(dir, key).value) + (if lane == target then [res.value] else [])
  {
    MovesPlaces(dir, key, target, ts, res, dir');
    StepTidy(dir, Move(key, target, None), ts, dir');
    BoardIsView(dir, names, lane);
    BoardIsView(dir', names', lane);
    PlacedView(dir, res.value, target, dir', lane, BoardLane(dir, names, lane));
    ClimbsUnique(BoardLane(dir', names', lane),
                 Rest(dir, key, BoardLane(dir, names, lane)) + (if lane == target then [res.value] else []));
  }

  /** A deleted item leaves its lane; the others keep their order. */
  lemma DeletedGone(
    dir: Dir, key: string, res: Result<bool>, dir': Dir, names: seq<string>, names': seq<string>, lane: Lane)
    requires Tidy(dir) && Deletes(dir, key, res, dir') && res == Success(true)
    requires Lists(names, dir) && Lists(names', dir')
    ensures ReadOne(dir, key).Success?
    ensures BoardLane(dir', names', lane) == Minus(BoardLane(dir, names, lane), ReadOne(dir, key).value)
  {
    assert Named(dir, FileName(key));
    DeletesTidy(dir, key, res, dir');
    BoardIsView(dir, names, lane);
    BoardIsView(dir', names', lane);
    DeletedView(dir, key, res, dir', lane, BoardLane(dir, names, lane));
    ClimbsUnique(BoardLane(dir', names', lane), Rest(dir, key, BoardLane(dir, names, lane)));
  }

  // --- checklists ---

  predicate DistinctCheckIds(list: seq<CheckItem>) {
    forall i, j :: 0 <= i < j < |list| ==> list[i].id != list[j].id
  }

  /** Whatever ids a checklist has, an added entry gets one that is not among them; distinct ids stay distinct. */
  lemma CheckIdsStayDistinct(list: seq<CheckItem>, op: CheckOp, list': seq<CheckItem>)
    requires Checks(list, op, list') && DistinctCheckIds(list)
    ensures DistinctCheckIds(list')
  {
    match op
    case Add(text) =>
      if Trim(text) != "" {
        var n: nat :| IsNextCheck(list, n) && list' == list + [CheckItem(CL + Decimal(n), Trim(text), false)];
        AddedStaysDistinct(list, n, list');
      }
    case Toggle(id) =>
      ToggledStaysDistinct(list, list');
    case Remove(id) =>
      RemovedStaysDistinct(list, FirstAt(list, id), list');
  }

  lemma AddedStaysDistinct(list: seq<CheckItem>, n: nat, list': seq<CheckItem>)
    requires DistinctCheckIds(list) && IsNextCheck(list, n)
    requires |list'| == |list| + 1 && list'[..|list|] == list && list'[|list|].id == CL + Decimal(n)
    ensures DistinctCheckIds(list')
  {
    NumberedDecimal(CL, n);
    forall i | 0 <= i < |list|
      ensures list'[i] == list[i] && list[i].id != CL + Decimal(n)
    {
      assert list'[..|list|][i] == list[i];
    }
  }

  lemma ToggledStaysDistinct(list: seq<CheckItem>, list': seq<CheckItem>)
    requires DistinctCheckIds(list) && |list'| == |list|
    requires forall i :: 0 <= i < |list| ==> list'[i].id == list[i].id
    ensures DistinctCheckIds(list')
  {
  }

  lemma RemovedStaysDistinct(list: seq<CheckItem>, at: nat, list': seq<CheckItem>)
    requires DistinctCheckIds(list) && at <= |list|
    requires list' == if at == |list| then list else list[..at] + list[at + 1..]
    ensures DistinctCheckIds(list')
  {
  }

  lemma FirstAtLast(list: seq<CheckItem>, x: CheckItem)
    requires forall i :: 0 <= i < |list| ==> list[i].id != x.id
    ensures FirstAt(list + [x], x.id) == |list|
  {
    assert forall i :: 0 <= i < |list| ==> (list + [x])[i] == list[i];
    assert (list + [x])[|list|] == x;
  }

  /** Removing what was just added gives the old checklist back. */
  lemma RemoveUndoesAdd(list: seq<CheckItem>, text: string, added: seq<CheckItem>, removed: seq<CheckItem>)
    requires Trim(text) != "" && Checks(list, Add(text), added)
    ensures |added| == |list| + 1
    ensures Checks(added, Remove(added[|list|].id), removed) ==> removed == list
  {
    var n: nat :| IsNextCheck(list, n) && added == list + [CheckItem(CL + Decimal(n), Trim(text), false)];
    NumberedDecimal(CL, n);
    FirstAtLast(list, added[|list|]);
  }

  lemma FirstAtIs(list: seq<CheckItem>, id: string, at: nat)
    requires at < |list| && list[at].id == id && forall i :: 0 <= i < at ==> list[i].id != id
    ensures FirstAt(list, id) == at
  {
  }

  /** Toggling twice gives the old checklist back. */
  lemma ToggleTwice(list: seq<CheckItem>, id: string, once: seq<CheckItem>, twice: seq<CheckItem>)
    requires Checks(list, Toggle(id), once) && Checks(once, Toggle(id), twice)
    ensures twice == list
  {
    var at := FirstAt(list, id);
    if at < |list| {
      FirstAtIs(once, id, at);
    }
  }
}
