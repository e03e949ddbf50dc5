/** Runs of the work-item store: keys, ranks and the board (packages/work-items/src/local-provider.ts). */
module WorkItemRuns {
  import opened Wrappers
  import opened Text
  import opened Lanes
  import opened WorkItems
  import opened WorkItemBoard

  // --- keys ---

  /** Whatever is in the directory, a new key names no file, however its number is written. */
  lemma KeyIsFresh(dir: Dir, n: nat)
    requires IsNextNumber(dir, n)
    ensures FileName(WI + Decimal(n)) !in dir
    ensures forall name :: name in dir ==> NumberOf(name) != Some(n)
  {
    StripName(WI + Decimal(n), JSON);
    NumberedDecimal(WI, n);
  }

  /** Two numbers that are next for the same directory are the same. */
  lemma NextNumberUnique(dir: Dir, n: nat, m: nat)
    requires IsNextNumber(dir, n) && IsNextNumber(dir, m)
    ensures n == m
  {
  }

  /** Deleting a new item undoes its creation, so its key is given out again. */
  lemma DeletedKeyReturns(dir: Dir, input: NewItem, ts: string, item: Item, dir': Dir, res: Result<bool>, dir'': Dir)
    requires Creates(dir, input, ts, item, dir') && Deletes(dir', item.key, res, dir'')
    ensures res == Success(true) && dir'' == dir
  {
    var n: nat, r: int :|
      && IsNextNumber(dir, n)
      && IsNextOrder(dir, LaneOf(input.status.GetOr(OPEN)), r)
      && item == Item(WI + Decimal(n), input.title, input.status.GetOr(OPEN), Some(r), [], ts, ts, NewDetails(input))
      && dir' == dir[FileName(item.key) := Stored(item)];
    KeyIsFresh(dir, n);
    NumberedDecimal(WI, n);
  }

  // --- tidy stores ---

  predicate Named(dir: Dir, name: string) {
    IsItem(dir, name) && FileName(dir[name].item.key) == name && Numbered(WI, dir[name].item.key).Some?
  }

  ghost predicate AllNamed(dir: Dir) {
    forall name :: name in dir ==> Named(dir, name)
  }

  ghost predicate NumbersDistinct(dir: Dir) {
    forall a, b :: IsItem(dir, a) && IsItem(dir, b) && a != b ==> KeyNum(dir[a].item.key) != KeyNum(dir[b].item.key)
  }

  /** Every file holds the item its name says, so keys are unique, and no two keys have the same number. */
  ghost predicate Tidy(dir: Dir) {
    AllNamed(dir) && NumbersDistinct(dir)
  }

  ghost predicate RanksDistinct(dir: Dir) {
    forall a, b, lane :: InLane(dir, a, lane) && InLane(dir, b, lane) && a != b
                         ==> Rank(dir[a].item) != Rank(dir[b].item)
  }

  /** An item put at the end of its lane, under its own key. */
  ghost predicate Placed(dir: Dir, item: Item, lane: Lane, dir': Dir) {
    && dir' == dir[FileName(item.key) := Stored(item)]
    && Numbered(WI, item.key).Some?
    && LaneOf(item.status) == lane
    && IsNextOrder(dir, lane, Rank(item))
  }

  lemma PlacedName(dir: Dir, item: Item, lane: Lane, dir': Dir)
    requires Placed(dir, item, lane, dir')
    ensures IsItem(dir', FileName(item.key)) && InLane(dir', FileName(item.key), lane)
    ensures forall name, l :: name != FileName(item.key) ==> (InLane(dir', name, l) <==> InLane(dir, name, l))
    ensures forall name, l :: name != FileName(item.key) && InLane(dir', name, l) ==> dir'[name] == dir[name]
  {
    StripName(item.key, JSON);
  }

  lemma PlacedNamed(dir: Dir, item: Item, lane: Lane, dir': Dir)
    requires AllNamed(dir) && Placed(dir, item, lane, dir')
    ensures AllNamed(dir')
  {
    StripName(item.key, JSON);
    forall name | name in dir'
      ensures Named(dir', name)
    {
      if name != FileName(item.key) {
        assert Named(dir, name);
      }
    }
  }

  lemma PlacedDistinct(dir: Dir, item: Item, lane: Lane, dir': Dir)
    requires RanksDistinct(dir) && Placed(dir, item, lane, dir')
    ensures RanksDistinct(dir')
  {
    PlacedName(dir, item, lane, dir');
    var at := FileName(item.key);
    forall a, b, l | InLane(dir', a, l) && InLane(dir', b, l) && a != b
      ensures Rank(dir'[a].item) != Rank(dir'[b].item)
    {
      if a != at && b != at {
        assert InLane(dir, a, l) && InLane(dir, b, l);
      } else if a == at {
        assert l == lane && InLane(dir, b, l);
      } else {
        assert l == lane && InLane(dir, a, l);
      }
    }
  }

  lemma CreatesPlaces(dir: Dir, input: NewItem, ts: string, item: Item, dir': Dir)
    requires Creates(dir, input, ts, item, dir')
    ensures Placed(dir, item, LaneOf(item.status), dir') && FileName(item.key) !in dir
    ensures forall name :: name in dir && NumberOf(name).Some? ==> NumberOf(name).value < KeyNum(item.key)
  {
    var n: nat, r: int :|
      && IsNextNumber(dir, n)
      && IsNextOrder(dir, LaneOf(input.status.GetOr(OPEN)), r)
      && item == Item(WI + Decimal(n), input.title, input.status.GetOr(OPEN), Some(r), [], ts, ts, NewDetails(input))
      && dir' == dir[FileName(item.key) := Stored(item)];
    KeyIsFresh(dir, n);
    NumberedDecimal(WI, n);
  }

  lemma CreatesTidy(dir: Dir, input: NewItem, ts: string, item: Item, dir': Dir)
    requires Tidy(dir) && Creates(dir, input, ts, item, dir')
    ensures Tidy(dir')
  {
    CreatesPlaces(dir, input, ts, item, dir');
    PlacedNamed(dir, item, LaneOf(item.status), dir');
    var at := FileName(item.key);
    forall name | IsItem(dir, name)
      ensures KeyNum(dir[name].item.key) < KeyNum(item.key)
    {
      assert Named(dir, name);
      StripName(dir[name].item.key, JSON);
    }
    forall a, b | IsItem(dir', a) && IsItem(dir', b) && a != b
      ensures KeyNum(dir'[a].item.key) != KeyNum(dir'[b].item.key)
    {
      assert a != at ==> IsItem(dir, a);
      assert b != at ==> IsItem(dir, b);
    }
  }

  /** The item a key names in a tidy store. */
  lemma KeyNames(dir: Dir, key: string)
    requires AllNamed(dir) && ReadOne(dir, key).Success?
    ensures InLane(dir, FileName(key), LaneOf(ReadOne(dir, key).value.status))
    ensures dir[FileName(key)].item == ReadOne(dir, key).value && ReadOne(dir, key).value.key == key
  {
    assert Named(dir, FileName(key));
    var item := dir[FileName(key)].item;
    StripName(key, JSON);
    StripName(item.key, JSON);
  }

  lemma MovesPlaces(dir: Dir, key: string, lane: Lane, ts: string, res: Result<Item>, dir': Dir)
    requires AllNamed(dir) && Moves(dir, key, lane, None, ts, res, dir')
    ensures res.Success? <==> ReadOne(dir, key).Success?
    ensures res.Success? ==> Placed(dir, res.value, lane, dir') && res.value.key == key
    ensures res.Failure? ==> dir' == dir
  {
    if ReadOne(dir, key).Success? {
      KeyNames(dir, key);
      LaneOfName(lane);
    }
  }

  /** An item is overwritten by one with the same key. */
  ghost predicate Rewritten(dir: Dir, item: Item, dir': Dir) {
    && dir' == dir[FileName(item.key) := Stored(item)]
    && FileName(item.key) in dir && Numbered(WI, item.key).Some?
  }

  lemma RewrittenTidy(dir: Dir, item: Item, dir': Dir)
    requires Tidy(dir) && Rewritten(dir, item, dir')
    ensures Tidy(dir')
  {
    var at := FileName(item.key);
    assert Named(dir, at);
    StripName(item.key, JSON);
    StripName(dir[at].item.key, JSON);
    assert dir[at].item.key == item.key;
    forall name | name in dir'
      ensures Named(dir', name) && IsItem(dir, name) && dir'[name].item.key == dir[name].item.key
    {
      assert Named(dir, name);
    }
  }

  lemma DeletesTidy(dir: Dir, key: string, res: Result<bool>, dir': Dir)
    requires Tidy(dir) && Deletes(dir, key, res, dir')
    ensures Tidy(dir')
  {
    forall name | name in dir'
      ensures Named(dir', name)
    {
      assert Named(dir, name);
    }
    forall a, b | IsItem(dir', a) && IsItem(dir', b) && a != b
      ensures KeyNum(dir'[a].item.key) != KeyNum(dir'[b].item.key)
    {
      assert IsItem(dir, a) && IsItem(dir, b);
    }
  }

  /** The number of a file in a tidy store is that of the key it is named for. */
  lemma NumberOfFile(dir: Dir, key: string)
    requires AllNamed(dir) && FileName(key) in dir
    ensures NumberOf(FileName(key)) == Numbered(WI, key) && Numbered(WI, key).Some?
  {
    assert Named(dir, FileName(key));
    StripName(key, JSON);
    StripName(dir[FileName(key)].item.key, JSON);
  }

  /**
   After a delete, the next number is at most the deleted one, so that this key is given out again before any larger
   one, if and only if no file had a larger number.
   */
  lemma DeleteFreesIff(dir: Dir, key: string, res: Result<bool>, dir': Dir, n: nat)
    requires Tidy(dir) && Deletes(dir, key, res, dir') && res == Success(true) && KeyNum(key) > 0
    requires IsNextNumber(dir', n)
    ensures n <= KeyNum(key)
       <==> forall name :: name in dir && NumberOf(name).Some? ==> NumberOf(name).value <= KeyNum(key)
  {
    var at, k := FileName(key), KeyNum(key);
    NumberOfFile(dir, key);
    if n <= k {
      forall name | name in dir && NumberOf(name).Some?
        ensures NumberOf(name).value <= k
      {
        if name != at {
          assert name in dir';
        }
      }
    } else if n > 1 {
      var name :| name in dir' && NumberOf(name) == Some(n - 1);
      NumbersOfFilesDiffer(dir, name, at);
    }
  }

  lemma NumbersOfFilesDiffer(dir: Dir, a: string, b: string)
    requires Tidy(dir) && a in dir && b in dir && a != b
    ensures NumberOf(a) != NumberOf(b)
  {
    assert Named(dir, a) && Named(dir, b);
    NumberOfFile(dir, dir[a].item.key);
    NumberOfFile(dir, dir[b].item.key);
  }

  // --- runs ---

  datatype Op =
    | Create(input: NewItem)
    | Move(key: string, lane: Lane, order: Option<int>)
    | Update(key: string, patch: Patch)
    | Delete(key: string)
    | Check(key: string, op: CheckOp)

  ghost predicate Step(dir: Dir, op: Op, ts: string, dir': Dir) {
    match op
    case Create(input) => exists item: Item :: Creates(dir, input, ts, item, dir')
    case Move(key, lane, order) => exists res: Result<Item> :: Moves(dir, key, lane, order, ts, res, dir')
    case Update(key, patch) => exists res: Result<Item> :: Updates(dir, key, patch, ts, res, dir')
    case Delete(key) => exists res: Result<bool> :: Deletes(dir, key, res, dir')
    case Check(key, check) => exists res: Result<Item> :: ChecksItem(dir, key, check, ts, res, dir')
  }

  lemma SavedTidy(dir: Dir, key: string, item: Item, res: Result<Item>, dir': Dir)
    requires Tidy(dir) && ReadOne(dir, key).Success? && item.key == ReadOne(dir, key).value.key
    requires SavedAs(dir, item, res, dir')
    ensures Rewritten(dir, item, dir') && Tidy(dir')
  {
    KeyNames(dir, key);
    RewrittenTidy(dir, item, dir');
  }

  lemma StepTidy(dir: Dir, op: Op, ts: string, dir': Dir)
    requires Tidy(dir) && Step(dir, op, ts, dir')
    ensures Tidy(dir')
  {
    match op
    case Create(input) =>
      var item: Item :| Creates(dir, input, ts, item, dir');
      CreatesTidy(dir, input, ts, item, dir');
    case Move(key, lane, order) =>
      var res: Result<Item> :| Moves(dir, key, lane, order, ts, res, dir');
      MovesTidy(dir, key, lane, order, ts, res, dir');
    case Update(key, patch) =>
      var res: Result<Item> :| Updates(dir, key, patch, ts, res, dir');
      if ReadOne(dir, key).Success? {
        SavedTidy(dir, key, Patched(ReadOne(dir, key).value, patch, ts), res, dir');
      }
    case Delete(key) =>
      var res: Result<bool> :| Deletes(dir, key, res, dir');
      DeletesTidy(dir, key, res, dir');
    case Check(key, check) =>
      var res: Result<Item> :| ChecksItem(dir, key, check, ts, res, dir');
      ChecksTidy(dir, key, check, ts, res, dir');
  }

  lemma MovesTidy(dir: Dir, key: string, lane: Lane, order: Option<int>, ts: string, res: Result<Item>, dir': Dir)
    requires Tidy(dir) && Moves(dir, key, lane, order, ts, res, dir')
    ensures Tidy(dir')
  {
    if ReadOne(dir, key).Success? {
      var item := ReadOne(dir, key).value;
      var r: int :|
        && (if order.Some? then r == order.value else IsNextOrder(dir, lane, r))
        && SavedAs(dir, MovedItem(item, lane, r, ts), res, dir');
      SavedTidy(dir, key, MovedItem(item, lane, r, ts), res, dir');
    }
  }

  lemma ChecksTidy(dir: Dir, key: string, op: CheckOp, ts: string, res: Result<Item>, dir': Dir)
    requires Tidy(dir) && ChecksItem(dir, key, op, ts, res, dir')
    ensures Tidy(dir')
  {
    if ReadOne(dir, key).Success? {
      var item := ReadOne(dir, key).value;
      var list: seq<CheckItem> :|
        Checks(item.checklist, op, list) && SavedAs(dir, item.(checklist := list, updatedAt := ts), res, dir');
      SavedTidy(dir, key, item.(checklist := list, updatedAt := ts), res, dir');
    }
  }

  /** A run from the empty store: the directories before, between and after the operations. */
  ghost predicate IsRun(ops: seq<(Op, string)>, dirs: seq<Dir>) {
    && |dirs| == |ops| + 1 && dirs[0] == map[]
    && forall i: nat :: i < |ops| ==> StepAt(ops, dirs, i)
  }

  ghost predicate StepAt(ops: seq<(Op, string)>, dirs: seq<Dir>, i: nat)
    requires i < |ops| && |dirs| == |ops| + 1
  {
    Step(dirs[i], ops[i].0, ops[i].1, dirs[i + 1])
  }

  lemma RunStep(ops: seq<(Op, string)>, dirs: seq<Dir>, i: nat)
    requires IsRun(ops, dirs) && i < |ops|
    ensures Step(dirs[i], ops[i].0, ops[i].1, dirs[i + 1])
  {
    assert StepAt(ops, dirs, i);
  }

  /** Over every run of any operations, keys are unique and each names its own file. */
  lemma {:induction false} RunsStayTidy(ops: seq<(Op, string)>, dirs: seq<Dir>, k: nat)
    requires IsRun(ops, dirs) && k <= |ops|
    ensures Tidy(dirs[k])
  {
    if k > 0 {
      RunsStayTidy(ops, dirs, k - 1);
      RunStep(ops, dirs, k - 1);
      StepTidy(dirs[k - 1], ops[k - 1].0, ops[k - 1].1, dirs[k]);
    }
  }

  // --- keys over a run ---

  /** The operation at `i` of a run creates the item with number `n`. */
  ghost predicate GivenAt(ops: seq<(Op, string)>, dirs: seq<Dir>, i: nat, n: nat)
    requires i < |ops| && |dirs| == |ops| + 1
  {
    ops[i].0.Create? && IsNextNumber(dirs[i], n)
  }

  ghost predicate GivenBefore(ops: seq<(Op, string)>, dirs: seq<Dir>, k: nat, n: nat)
    requires k <= |ops| && |dirs| == |ops| + 1
  {
    exists i: nat :: i < k && GivenAt(ops, dirs, i, n)
  }

  function FileOf(n: nat): string {
    FileName(WI + Decimal(n))
  }

  /** The first `k` operations gave out the numbers 1, 2, ..., m and no others. */
  ghost predicate GaveUpTo(ops: seq<(Op, string)>, dirs: seq<Dir>, k: nat, m: nat)
    requires k <= |ops| && |dirs| == |ops| + 1
  {
    forall n: nat :: GivenBefore(ops, dirs, k, n) <==> 0 < n <= m
  }

  /** The files have the names that belong to the numbers up to `m`. */
  ghost predicate NamedUpTo(dir: Dir, m: nat) {
    forall name :: name in dir ==> IsFileUpTo(name, m)
  }

  ghost predicate IsFileUpTo(name: string, m: nat) {
    exists n: nat :: 0 < n <= m && name == FileOf(n)
  }

  /** The only new name is the one of the number `n`. */
  ghost predicate AddsFile(dir: Dir, n: nat, dir': Dir) {
    forall name :: name in dir' <==> name in dir || name == FileOf(n)
  }

  predicate AddsNothing(dir: Dir, dir': Dir) {
    forall name :: name in dir' ==> name in dir
  }

  lemma NumberOfFileOf(n: nat)
    ensures NumberOf(FileOf(n)) == Some(n)
  {
    StripName(WI + Decimal(n), JSON);
    NumberedDecimal(WI, n);
  }

  lemma NextAtMost(dir: Dir, m: nat, n: nat)
    requires NamedUpTo(dir, m) && IsNextNumber(dir, n)
    ensures n <= m + 1
    ensures n == m + 1 <==> m == 0 || FileOf(m) in dir
  {
    if n > 1 {
      var name :| name in dir && NumberOf(name) == Some(n - 1);
      assert IsFileUpTo(name, m);
      var k: nat :| 0 < k <= m && name == FileOf(k);
      NumberOfFileOf(k);
    }
    if m > 0 {
      NumberOfFileOf(m);
    }
  }

  /** What one operation does to the names in the directory. */
  lemma StepNames(dir: Dir, op: Op, ts: string, dir': Dir)
    requires Tidy(dir) && Step(dir, op, ts, dir')
    ensures !op.Create? ==> AddsNothing(dir, dir')
    ensures op.Create? ==> exists n: nat :: IsNextNumber(dir, n) && AddsFile(dir, n, dir')
  {
    match op
    case Create(input) =>
      var item: Item :| Creates(dir, input, ts, item, dir');
      CreateNames(dir, input, ts, item, dir');
    case Move(key, lane, order) =>
      var res: Result<Item> :| Moves(dir, key, lane, order, ts, res, dir');
      MoveNames(dir, key, lane, order, ts, res, dir');
    case Update(key, patch) =>
      var res: Result<Item> :| Updates(dir, key, patch, ts, res, dir');
      if ReadOne(dir, key).Success? {
        SavedTidy(dir, key, Patched(ReadOne(dir, key).value, patch, ts), res, dir');
      }
    case Delete(key) =>
    case Check(key, check) =>
      var res: Result<Item> :| ChecksItem(dir, key, check, ts, res, dir');
      CheckNames(dir, key, check, ts, res, dir');
  }

  lemma CreateNames(dir: Dir, input: NewItem, ts: string, item: Item, dir': Dir)
    requires Creates(dir, input, ts, item, dir')
    ensures exists n: nat :: IsNextNumber(dir, n) && AddsFile(dir, n, dir')
  {
    var n: nat, r: int :|
      && IsNextNumber(dir, n)
      && IsNextOrder(dir, LaneOf(input.status.GetOr(OPEN)), r)
      && item == Item(WI + Decimal(n), input.title, input.status.GetOr(OPEN), Some(r), [], ts, ts, NewDetails(input))
      && dir' == dir[FileName(item.key) := Stored(item)];
    assert FileName(item.key) == FileOf(n);
    assert AddsFile(dir, n, dir');
  }

  lemma MoveNames(dir: Dir, key: string, lane: Lane, order: Option<int>, ts: string, res: Result<Item>, dir': Dir)
    requires Tidy(dir) && Moves(dir, key, lane, order, ts, res, dir')
    ensures forall name :: name in dir' ==> name in dir
  {
    if ReadOne(dir, key).Success? {
      var item := ReadOne(dir, key).value;
      var r: int :|
        && (if order.Some? then r == order.value else IsNextOrder(dir, lane, r))
        && SavedAs(dir, MovedItem(item, lane, r, ts), res, dir');
      SavedTidy(dir, key, MovedItem(item, lane, r, ts), res, dir');
    }
  }

  lemma CheckNames(dir: Dir, key: string, op: CheckOp, ts: string, res: Result<Item>, dir': Dir)
    requires Tidy(dir) && ChecksItem(dir, key, op, ts, res, dir')
    ensures forall name :: name in dir' ==> name in dir
  {
    if ReadOne(dir, key).Success? {
      var item := ReadOne(dir, key).value;
      var list: seq<CheckItem> :|
        Checks(item.checklist, op, list) && SavedAs(dir, item.(checklist := list, updatedAt := ts), res, dir');
      SavedTidy(dir, key, item.(checklist := list, updatedAt := ts), res, dir');
    }
  }

  lemma GivenNext(ops: seq<(Op, string)>, dirs: seq<Dir>, k: nat, n: nat)
    requires k < |ops| && |dirs| == |ops| + 1
    ensures GivenBefore(ops, dirs, k + 1, n) <==> GivenBefore(ops, dirs, k, n) || GivenAt(ops, dirs, k, n)
  {
    if GivenBefore(ops, dirs, k, n) {
      var i: nat :| i < k && GivenAt(ops, dirs, i, n);
      assert i < k + 1;
    }
  }

  lemma NothingNew(ops: seq<(Op, string)>, dirs: seq<Dir>, k: nat, m: nat, next: nat)
    requires k < |ops| && |dirs| == |ops| + 1 && GaveUpTo(ops, dirs, k, m) && !ops[k].0.Create? && next == k + 1
    ensures GaveUpTo(ops, dirs, next, m)
  {
    forall n: nat
      ensures GivenBefore(ops, dirs, next, n) <==> 0 < n <= m
    {
      GivenNext(ops, dirs, k, n);
    }
  }

  lemma OneMore(ops: seq<(Op, string)>, dirs: seq<Dir>, k: nat, m: nat, n: nat, next: nat)
    requires k < |ops| && |dirs| == |ops| + 1 && GaveUpTo(ops, dirs, k, m) && ops[k].0.Create? && next == k + 1
    requires IsNextNumber(dirs[k], n) && 0 < n <= m + 1
    ensures GaveUpTo(ops, dirs, next, if n > m then n else m)
  {
    forall x: nat
      ensures GivenBefore(ops, dirs, next, x) <==> 0 < x <= (if n > m then n else m)
    {
      GivenNext(ops, dirs, k, x);
      OnlyNext(ops, dirs, k, n, x);
    }
  }

  lemma OneMoreFile(dir: Dir, m: nat, n: nat, dir': Dir)
    requires NamedUpTo(dir, m) && AddsFile(dir, n, dir') && 0 < n
    ensures NamedUpTo(dir', if n > m then n else m)
  {
    forall name | name in dir'
      ensures IsFileUpTo(name, if n > m then n else m)
    {
      if name in dir {
        assert IsFileUpTo(name, m);
      }
    }
  }

  lemma OneMoreKey(ops: seq<(Op, string)>, dirs: seq<Dir>, k: nat, m: nat) returns (m': nat)
    requires IsRun(ops, dirs) && k < |ops| && ops[k].0.Create?
    requires GaveUpTo(ops, dirs, k, m) && NamedUpTo(dirs[k], m)
    ensures GaveUpTo(ops, dirs, k + 1, m') && NamedUpTo(dirs[k + 1], m')
  {
    RunsStayTidy(ops, dirs, k);
    RunStep(ops, dirs, k);
    StepNames(dirs[k], ops[k].0, ops[k].1, dirs[k + 1]);
    var n: nat :| IsNextNumber(dirs[k], n) && AddsFile(dirs[k], n, dirs[k + 1]);
    NextAtMost(dirs[k], m, n);
    m' := if n > m then n else m;
    OneMore(ops, dirs, k, m, n, k + 1);
    OneMoreFile(dirs[k], m, n, dirs[k + 1]);
  }

  lemma OnlyNext(ops: seq<(Op, string)>, dirs: seq<Dir>, k: nat, n: nat, x: nat)
    requires k < |ops| && |dirs| == |ops| + 1 && ops[k].0.Create? && IsNextNumber(dirs[k], n)
    ensures GivenAt(ops, dirs, k, x) <==> x == n
  {
    if GivenAt(ops, dirs, k, x) {
      NextNumberUnique(dirs[k], n, x);
    }
  }

  /** The numbers given out so far are 1, 2, ..., m for some m, and every file has one of them. */
  lemma {:induction false} NumbersGiven(ops: seq<(Op, string)>, dirs: seq<Dir>, k: nat) returns (m: nat)
    requires IsRun(ops, dirs) && k <= |ops|
    ensures GaveUpTo(ops, dirs, k, m) && NamedUpTo(dirs[k], m)
  {
    if k == 0 {
      m := 0;
      assert dirs[0] == map[];
    } else {
      m := NumbersGiven(ops, dirs, k - 1);
      if ops[k - 1].0.Create? {
        m := OneMoreKey(ops, dirs, k - 1, m);
      } else {
        RunsStayTidy(ops, dirs, k - 1);
        RunStep(ops, dirs, k - 1);
        StepNames(dirs[k - 1], ops[k - 1].0, ops[k - 1].1, dirs[k]);
        NothingNew(ops, dirs, k - 1, m, k);
      }
    }
  }

  /** The largest number given out by the first `k` operations, 0 if there is none. */
  ghost predicate LargestGiven(ops: seq<(Op, string)>, dirs: seq<Dir>, k: nat, m: nat)
    requires k <= |ops| && |dirs| == |ops| + 1
  {
    && (m > 0 ==> GivenBefore(ops, dirs, k, m))
    && (forall n: nat :: GivenBefore(ops, dirs, k, n) ==> n <= m)
  }

  /**
   Over every run, a create gives out a key for the second time if and only if the item with the largest number
   given out so far is no longer in the directory.
   */
  lemma KeyReusedIff(ops: seq<(Op, string)>, dirs: seq<Dir>, k: nat, n: nat, m: nat)
    requires IsRun(ops, dirs) && k < |ops| && GivenAt(ops, dirs, k, n) && LargestGiven(ops, dirs, k, m)
    ensures GivenBefore(ops, dirs, k, n) <==> m > 0 && FileOf(m) !in dirs[k]
  {
    var top := NumbersGiven(ops, dirs, k);
    assert top > 0 ==> GivenBefore(ops, dirs, k, top);
    assert m == top;
    NextAtMost(dirs[k], m, n);
  }

  // --- ranks ---

  /** The operations that leave the choice of a rank to the store. */
  predicate Unranked(op: Op) {
    match op
    case Move(_, _, order) => order.None?
    case Update(_, patch) => patch.status.None? && patch.order.None?
    case _ => true
  }

  lemma SameRanks(dir: Dir, item: Item, dir': Dir)
    requires AllNamed(dir) && RanksDistinct(dir) && Rewritten(dir, item, dir')
    requires dir[FileName(item.key)].Stored?
    requires dir[FileName(item.key)].item.status == item.status && dir[FileName(item.key)].item.order == item.order
    ensures RanksDistinct(dir')
  {
    assert Named(dir, FileName(item.key));
    forall a, b, lane | InLane(dir', a, lane) && InLane(dir', b, lane) && a != b
      ensures Rank(dir'[a].item) != Rank(dir'[b].item)
    {
      assert InLane(dir, a, lane) && InLane(dir, b, lane);
    }
  }

  lemma SavedRanks(dir: Dir, key: string, item: Item, res: Result<Item>, dir': Dir)
    requires Tidy(dir) && RanksDistinct(dir) && ReadOne(dir, key).Success? && SavedAs(dir, item, res, dir')
    requires item.key == ReadOne(dir, key).value.key
    requires item.status == ReadOne(dir, key).value.status && item.order == ReadOne(dir, key).value.order
    ensures RanksDistinct(dir')
  {
    KeyNames(dir, key);
    SavedTidy(dir, key, item, res, dir');
    SameRanks(dir, item, dir');
  }

  lemma ChecksRanks(dir: Dir, key: string, op: CheckOp, ts: string, res: Result<Item>, dir': Dir)
    requires Tidy(dir) && RanksDistinct(dir) && ChecksItem(dir, key, op, ts, res, dir')
    ensures RanksDistinct(dir')
  {
    if ReadOne(dir, key).Success? {
      var item := ReadOne(dir, key).value;
      var list: seq<CheckItem> :|
        Checks(item.checklist, op, list) && SavedAs(dir, item.(checklist := list, updatedAt := ts), res, dir');
      SavedRanks(dir, key, item.(checklist := list, updatedAt := ts), res, dir');
    }
  }

  lemma DeletesRanks(dir: Dir, key: string, res: Result<bool>, dir': Dir)
    requires RanksDistinct(dir) && Deletes(dir, key, res, dir')
    ensures RanksDistinct(dir')
  {
    forall a, b, lane | InLane(dir', a, lane) && InLane(dir', b, lane) && a != b
      ensures Rank(dir'[a].item) != Rank(dir'[b].item)
    {
      assert InLane(dir, a, lane) && InLane(dir, b, lane);
    }
  }

  lemma StepRanks(dir: Dir, op: Op, ts: string, dir': Dir)
    requires Tidy(dir) && RanksDistinct(dir) && Unranked(op) && Step(dir, op, ts, dir')
    ensures RanksDistinct(dir')
  {
    match op
    case Create(input) =>
      var item: Item :| Creates(dir, input, ts, item, dir');
      CreatesPlaces(dir, input, ts, item, dir');
      PlacedDistinct(dir, item, LaneOf(item.status), dir');
    case Move(key, lane, order) =>
      var res: Result<Item> :| Moves(dir, key, lane, order, ts, res, dir');
      MovesPlaces(dir, key, lane, ts, res, dir');
      if res.Success? {
        PlacedDistinct(dir, res.value, lane, dir');
      }
    case Update(key, patch) =>
      var res: Result<Item> :| Updates(dir, key, patch, ts, res, dir');
      if ReadOne(dir, key).Success? {
        SavedRanks(dir, key, Patched(ReadOne(dir, key).value, patch, ts), res, dir');
      }
    case Delete(key) =>
      var res: Result<bool> :| Deletes(dir, key, res, dir');
      DeletesRanks(dir, key, res, dir');
    case Check(key, check) =>
      var res: Result<Item> :| ChecksItem(dir, key, check, ts, res, dir');
      ChecksRanks(dir, key, check, ts, res, dir');
  }

  lemma NoRanks(dir: Dir)
    requires dir == map[]
    ensures RanksDistinct(dir)
  {
  }

  predicate AllUnranked(ops: seq<(Op, string)>, k: nat)
    requires k <= |ops|
  {
    forall i :: 0 <= i < k ==> Unranked(ops[i].0)
  }

  ghost predicate UnrankedRun(ops: seq<(Op, string)>, dirs: seq<Dir>, k: nat) {
    IsRun(ops, dirs) && k <= |ops| && AllUnranked(ops, k)
  }

  lemma RanksFirst(ops: seq<(Op, string)>, dirs: seq<Dir>)
    requires IsRun(ops, dirs)
    ensures RanksDistinct(dirs[0])
  {
    NoRanks(dirs[0]);
  }

  ghost predicate DistinctAt(dirs: seq<Dir>, k: nat) {
    k < |dirs| && RanksDistinct(dirs[k])
  }

  lemma RanksNext(ops: seq<(Op, string)>, dirs: seq<Dir>, i: nat)
    requires IsRun(ops, dirs) && i < |ops| && Unranked(ops[i].0) && DistinctAt(dirs, i)
    ensures DistinctAt(dirs, i + 1)
  {
    RunsStayTidy(ops, dirs, i);
    RunStep(ops, dirs, i);
    StepRanks(dirs[i], ops[i].0, ops[i].1, dirs[i + 1]);
  }

  lemma RanksLast(ops: seq<(Op, string)>, dirs: seq<Dir>, k: nat, last: nat)
    requires UnrankedRun(ops, dirs, k) && k == last + 1 && DistinctAt(dirs, last)
    ensures DistinctAt(dirs, k)
  {
    UnrankedLast(ops, dirs, k, last);
    RanksNext(ops, dirs, last);
  }

  lemma UnrankedLast(ops: seq<(Op, string)>, dirs: seq<Dir>, k: nat, last: nat)
    requires UnrankedRun(ops, dirs, k) && k == last + 1
    ensures IsRun(ops, dirs) && last < |ops| && Unranked(ops[last].0)
  {
  }

  lemma UnrankedAt(ops: seq<(Op, string)>, dirs: seq<Dir>, k: nat)
    requires UnrankedRun(ops, dirs, k) && k > 0
    ensures UnrankedRun(ops, dirs, k - 1)
  {
  }

  /** Over every run that never sets a rank or a status from outside, the ranks inside a lane are pairwise distinct. */
  lemma {:induction false} RunsKeepRanksDistinct(ops: seq<(Op, string)>, dirs: seq<Dir>, k: nat)
    requires UnrankedRun(ops, dirs, k)
    ensures DistinctAt(dirs, k)
  {
    if k == 0 {
      RanksFirst(ops, dirs);
    } else {
      UnrankedAt(ops, dirs, k);
      RunsKeepRanksDistinct(ops, dirs, k - 1);
      RanksLast(ops, dirs, k, k - 1);
    }
  }

  /** Another item than the one of the key has the rank in the lane. */
  ghost predicate RankTaken(dir: Dir, key: string, lane: Lane, r: int) {
    exists name :: name != FileName(key) && InLane(dir, name, lane) && Rank(dir[name].item) == r
  }

  lemma ClashAt(dir: Dir, item: Item, dir': Dir, name: string)
    requires Tidy(dir) && Rewritten(dir, item, dir') && RanksDistinct(dir')
    requires name != FileName(item.key) && InLane(dir, name, LaneOf(item.status))
    ensures Rank(dir[name].item) != Rank(item)
  {
    StripName(item.key, JSON);
    assert InLane(dir', FileName(item.key), LaneOf(item.status)) && InLane(dir', name, LaneOf(item.status));
  }

  lemma NoClash(dir: Dir, item: Item, dir': Dir, a: string, b: string, lane: Lane)
    requires Tidy(dir) && RanksDistinct(dir) && Rewritten(dir, item, dir')
    requires !RankTaken(dir, item.key, LaneOf(item.status), Rank(item))
    requires InLane(dir', a, lane) && InLane(dir', b, lane) && a != b
    ensures Rank(dir'[a].item) != Rank(dir'[b].item)
  {
    var at := FileName(item.key);
    assert a != at ==> InLane(dir, a, lane);
    assert b != at ==> InLane(dir, b, lane);
  }

  /** Rewriting an item keeps the ranks of a lane distinct if and only if no other item of its lane has its rank. */
  lemma RewrittenRanksIff(dir: Dir, item: Item, dir': Dir)
    requires Tidy(dir) && RanksDistinct(dir) && Rewritten(dir, item, dir')
    ensures RanksDistinct(dir') <==> !RankTaken(dir, item.key, LaneOf(item.status), Rank(item))
  {
    if RankTaken(dir, item.key, LaneOf(item.status), Rank(item)) {
      var name :|
        name != FileName(item.key) && InLane(dir, name, LaneOf(item.status)) && Rank(dir[name].item) == Rank(item);
      if RanksDistinct(dir') {
        ClashAt(dir, item, dir', name);
      }
    } else {
      forall a, b, l | InLane(dir', a, l) && InLane(dir', b, l) && a != b
        ensures Rank(dir'[a].item) != Rank(dir'[b].item)
      {
        NoClash(dir, item, dir', a, b, l);
      }
    }
  }

  lemma RankedPlace(dir: Dir, key: string, lane: Lane, r: int, ts: string, res: Result<Item>, dir': Dir)
    requires Tidy(dir) && ReadOne(dir, key).Success? && Moves(dir, key, lane, Some(r), ts, res, dir')
    ensures res.Success? && res.value.key == key && Rewritten(dir, res.value, dir')
    ensures Rank(res.value) == r && LaneOf(res.value.status) == lane
  {
    KeyNames(dir, key);
    LaneOfName(lane);
  }

  /** A move to a given rank keeps the ranks of a lane distinct if and only if no other item there has that rank. */
  lemma RankedMoveIff(dir: Dir, key: string, lane: Lane, r: int, ts: string, res: Result<Item>, dir': Dir)
    requires Tidy(dir) && RanksDistinct(dir) && ReadOne(dir, key).Success?
    requires Moves(dir, key, lane, Some(r), ts, res, dir')
    ensures RanksDistinct(dir') <==> !RankTaken(dir, key, lane, r)
  {
    RankedPlace(dir, key, lane, r, ts, res, dir');
    RewrittenRanksIff(dir, res.value, dir');
  }

  /**
   An update keeps the ranks of a lane distinct if and only if no other item of the lane that the item is in
   afterwards has the rank it has afterwards.
   */
  lemma UpdateRanksIff(dir: Dir, key: string, patch: Patch, ts: string, res: Result<Item>, dir': Dir)
    requires Tidy(dir) && RanksDistinct(dir) && ReadOne(dir, key).Success?
    requires Updates(dir, key, patch, ts, res, dir')
    ensures RanksDistinct(dir')
       <==> !RankTaken(dir, key, LaneOf(patch.status.GetOr(ReadOne(dir, key).value.status)),
                       if patch.order.Some? then patch.order.value else Rank(ReadOne(dir, key).value))
  {
    var item := Patched(ReadOne(dir, key).value, patch, ts);
    KeyNames(dir, key);
    SavedTidy(dir, key, item, res, dir');
    RewrittenRanksIff(dir, item, dir');
  }

  /**
   A status update takes the old rank along into the new lane, so it keeps the ranks distinct if and only if no item
   there has that rank already.
   */
  lemma StatusOnlyIff(dir: Dir, key: string, status: string, ts: string, res: Result<Item>, dir': Dir)
    requires Tidy(dir) && RanksDistinct(dir) && ReadOne(dir, key).Success?
    requires Updates(dir, key, NO_PATCH.(status := Some(status)), ts, res, dir')
    ensures RanksDistinct(dir') <==> !RankTaken(dir, key, LaneOf(status), Rank(ReadOne(dir, key).value))
  {
    UpdateRanksIff(dir, key, NO_PATCH.(status := Some(status)), ts, res, dir');
  }

  // --- ranks over a run ---

  /** The operation puts an item at a rank that another item of that lane has. */
  ghost predicate Clashes(dir: Dir, op: Op) {
    match op
    case Move(key, lane, Some(r)) => ReadOne(dir, key).Success? && RankTaken(dir, key, lane, r)
    case Update(key, patch) =>
      && ReadOne(dir, key).Success?
      && RankTaken(dir, key, LaneOf(patch.status.GetOr(ReadOne(dir, key).value.status)),
                   if patch.order.Some? then patch.order.value else Rank(ReadOne(dir, key).value))
    case _ => false
  }

  lemma StepRanksIff(dir: Dir, op: Op, ts: string, dir': Dir)
    requires Tidy(dir) && RanksDistinct(dir) && Step(dir, op, ts, dir')
    ensures RanksDistinct(dir') <==> !Clashes(dir, op)
  {
    match op
    case Move(key, lane, Some(r)) =>
      var res: Result<Item> :| Moves(dir, key, lane, Some(r), ts, res, dir');
      if ReadOne(dir, key).Success? {
        RankedMoveIff(dir, key, lane, r, ts, res, dir');
      }
    case Update(key, patch) =>
      var res: Result<Item> :| Updates(dir, key, patch, ts, res, dir');
      if ReadOne(dir, key).Success? {
        UpdateRanksIff(dir, key, patch, ts, res, dir');
      }
    case _ =>
      StepRanks(dir, op, ts, dir');
  }

  /** None of the first `k` operations clashes. */
  ghost predicate NoClashBefore(ops: seq<(Op, string)>, dirs: seq<Dir>, k: nat)
    requires k <= |ops| && |dirs| == |ops| + 1
  {
    forall i :: 0 <= i < k ==> !Clashes(dirs[i], ops[i].0)
  }

  /** The ranks are distinct in each of the first `k` + 1 states. */
  ghost predicate DistinctUpTo(dirs: seq<Dir>, k: nat)
    requires k < |dirs|
  {
    forall i :: 0 <= i <= k ==> RanksDistinct(dirs[i])
  }

  lemma ClashNext(ops: seq<(Op, string)>, dirs: seq<Dir>, i: nat)
    requires IsRun(ops, dirs) && i < |ops| && RanksDistinct(dirs[i])
    ensures RanksDistinct(dirs[i + 1]) <==> !Clashes(dirs[i], ops[i].0)
  {
    RunsStayTidy(ops, dirs, i);
    RunStep(ops, dirs, i);
    StepRanksIff(dirs[i], ops[i].0, ops[i].1, dirs[i + 1]);
  }

  lemma ClashUpTo(ops: seq<(Op, string)>, dirs: seq<Dir>, i: nat, next: nat)
    requires IsRun(ops, dirs) && i < |ops| && next == i + 1 && DistinctUpTo(dirs, i)
    ensures DistinctUpTo(dirs, next) <==> !Clashes(dirs[i], ops[i].0)
  {
    ClashNext(ops, dirs, i);
  }

  lemma DistinctBefore(dirs: seq<Dir>, k: nat, last: nat)
    requires k == last + 1 < |dirs|
    ensures DistinctUpTo(dirs, k) ==> DistinctUpTo(dirs, last)
  {
  }

  lemma NoClashMore(ops: seq<(Op, string)>, dirs: seq<Dir>, k: nat, last: nat)
    requires k == last + 1 <= |ops| && |dirs| == |ops| + 1
    ensures NoClashBefore(ops, dirs, k) <==> NoClashBefore(ops, dirs, last) && !Clashes(dirs[last], ops[last].0)
  {
  }

  lemma DistinctFirst(ops: seq<(Op, string)>, dirs: seq<Dir>)
    requires IsRun(ops, dirs)
    ensures DistinctUpTo(dirs, 0)
  {
    RanksFirst(ops, dirs);
  }

  /** Over every run, the ranks inside a lane have been distinct all along if and only if no operation has clashed. */
  lemma {:induction false} RunRanksIff(ops: seq<(Op, string)>, dirs: seq<Dir>, k: nat)
    requires IsRun(ops, dirs) && k <= |ops|
    ensures DistinctUpTo(dirs, k) <==> NoClashBefore(ops, dirs, k)
  {
    if k == 0 {
      DistinctFirst(ops, dirs);
    } else {
      var last := k - 1;
      RunRanksIff(ops, dirs, last);
      DistinctBefore(dirs, k, last);
      NoClashMore(ops, dirs, k, last);
      if DistinctUpTo(dirs, last) {
        ClashUpTo(ops, dirs, last, k);
      }
    }
  }

  // --- operations that clash ---

  function FirstInLane(n: nat, lane: Lane): Item {
    Item(WI + Decimal(n), "", LaneName(lane), Some(0), [], "", "",
         Details(None, [], None, None, None, None, None, None))
  }

  /** Two lanes with one item each, both of the rank that an empty lane gives. */
  function TwoLanes(): Dir {
    map[FileOf(1) := Stored(FirstInLane(1, Todo)), FileOf(2) := Stored(FirstInLane(2, InProgress))]
  }

  lemma FileInLane(dir: Dir, n: nat, lane: Lane)
    requires FileOf(n) in dir && dir[FileOf(n)] == Stored(FirstInLane(n, lane))
    ensures Named(dir, FileOf(n)) && InLane(dir, FileOf(n), lane) && Rank(dir[FileOf(n)].item) == 0
    ensures KeyNum(dir[FileOf(n)].item.key) == n && ReadOne(dir, WI + Decimal(n)) == Success(FirstInLane(n, lane))
  {
    NumberedDecimal(WI, n);
    StripName(WI + Decimal(n), JSON);
    LaneOfName(lane);
  }

  lemma TwoFilesNumbered(dir: Dir, a: string, b: string)
    requires (forall name :: name in dir ==> name == a || name == b) && a in dir && b in dir
    requires Named(dir, a) && Named(dir, b) && KeyNum(dir[a].item.key) != KeyNum(dir[b].item.key)
    ensures Tidy(dir)
  {
  }

  lemma TwoFilesTidy(dir: Dir, a: string, b: string)
    requires dir.Keys == {a, b} && Named(dir, a) && Named(dir, b)
    requires KeyNum(dir[a].item.key) != KeyNum(dir[b].item.key)
    requires LaneOf(dir[a].item.status) != LaneOf(dir[b].item.status)
    ensures Tidy(dir) && RanksDistinct(dir)
  {
    TwoFilesNumbered(dir, a, b);
    forall x, y, lane | InLane(dir, x, lane) && InLane(dir, y, lane)
      ensures x == y
    {
    }
  }

  lemma TwoLanesTidy()
    ensures Tidy(TwoLanes()) && RanksDistinct(TwoLanes())
    ensures FileOf(1) != FileOf(2) && InLane(TwoLanes(), FileOf(2), InProgress)
    ensures Rank(TwoLanes()[FileOf(2)].item) == 0
    ensures ReadOne(TwoLanes(), WI + Decimal(1)) == Success(FirstInLane(1, Todo))
  {
    NumberOfFileOf(1);
    NumberOfFileOf(2);
    FileInLane(TwoLanes(), 1, Todo);
    FileInLane(TwoLanes(), 2, InProgress);
    TwoFilesTidy(TwoLanes(), FileOf(1), FileOf(2));
  }

  /** A tidy store in which a ranked move and a status update each make two ranks of a lane equal. */
  lemma ClashExists()
    ensures Tidy(TwoLanes()) && RanksDistinct(TwoLanes())
    ensures Clashes(TwoLanes(), Move(WI + Decimal(1), InProgress, Some(0)))
    ensures Clashes(TwoLanes(), Update(WI + Decimal(1), NO_PATCH.(status := Some(LaneName(InProgress)))))
  {
    TwoLanesTidy();
    LaneOfName(InProgress);
    assert RankTaken(TwoLanes(), WI + Decimal(1), InProgress, 0);
  }
}
