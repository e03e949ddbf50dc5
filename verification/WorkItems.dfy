/**
 * The local work-item store (packages/work-items/src/local-provider.ts). Its directory is a map from file names to
 * contents; a file holds an item or something that does not decode. The clock is a parameter.
 */
module WorkItems {
  import opened Wrappers
  import opened Text
  import opened Lanes

  datatype CheckItem = CheckItem(id: string, text: string, done: bool)

  /** The fields neither keys nor the board depend on. */
  datatype Details = Details(
    description: Option<string>,
    labels: seq<string>,
    priority: Option<string>,
    assignee: Option<string>,
    parent: Option<string>,
    blockedBy: Option<seq<string>>,
    estimate: Option<real>,
    cycle: Option<string>)

  datatype Item = Item(
    key: string,
    title: string,
    status: string,
    order: Option<int>,
    checklist: seq<CheckItem>,
    createdAt: string,
    updatedAt: string,
    details: Details)

  datatype File = Stored(item: Item) | Unreadable

  type Dir = map<string, File>

  datatype Error = InvalidKey(key: string) | NotFound(key: string) | Corrupt(key: string)

  datatype Result<T> = Success(value: T) | Failure(error: Error)

  const WI := "WI-"
  const CL := "cl-"
  const JSON := ".json"
  const OPEN := "open"

  // --- keys ---

  /** The number of a name made of a prefix and decimal digits: `/^WI-(\d+)$/` and `/^cl-(\d+)$/`. */
  function Numbered(prefix: string, s: string): Option<nat> {
    if StartsWith(s, prefix) && |s| > |prefix| && AllDigits(s[|prefix|..]) then Some(NatOf(s[|prefix|..])) else None
  }

  lemma NumberedDecimal(prefix: string, n: nat)
    ensures Numbered(prefix, prefix + Decimal(n)) == Some(n)
  {
    DecimalDenotes(n);
    assert (prefix + Decimal(n))[|prefix|..] == Decimal(n);
  }

  function Strip(name: string, ext: string): string {
    if EndsWith(name, ext) then name[..|name| - |ext|] else name
  }

  lemma StripName(key: string, ext: string)
    ensures EndsWith(key + ext, ext) && Strip(key + ext, ext) == key
  {
    assert (key + ext)[|key|..] == ext;
  }

  function FileName(key: string): string {
    key + JSON
  }

  function NumberOf(name: string): Option<nat> {
    Numbered(WI, Strip(name, JSON))
  }

  function KeyNum(key: string): nat {
    Numbered(WI, key).GetOr(0)
  }

  /** One more than the largest number in use, in any file name of the directory. */
  ghost predicate IsNextNumber(dir: Dir, n: nat) {
    && n > 0
    && (forall name :: name in dir && NumberOf(name).Some? ==> NumberOf(name).value < n)
    && (n > 1 ==> exists name :: name in dir && NumberOf(name) == Some(n - 1))
  }

  // --- reading and writing ---

  function ReadOne(dir: Dir, key: string): Result<Item> {
    if Numbered(WI, key).None? then Failure(InvalidKey(key))
    else if FileName(key) !in dir then Failure(NotFound(key))
    else
      match dir[FileName(key)]
      case Stored(item) => Success(item)
      case Unreadable => Failure(Corrupt(key))
  }

  /** Writing an item goes to the file its own key names. */
  function Saved(dir: Dir, item: Item): Result<Dir> {
    if Numbered(WI, item.key).None? then Failure(InvalidKey(item.key))
    else Success(dir[FileName(item.key) := Stored(item)])
  }

  predicate IsItem(dir: Dir, name: string) {
    name in dir && EndsWith(name, JSON) && dir[name].Stored?
  }

  predicate InLane(dir: Dir, name: string, lane: Lane) {
    IsItem(dir, name) && LaneOf(dir[name].item.status) == lane
  }

  function Rank(item: Item): int {
    item.order.GetOr(0)
  }

  /** The rank after the last one in a lane, 0 when the lane is empty. */
  ghost predicate IsNextOrder(dir: Dir, lane: Lane, r: int) {
    && (forall name :: InLane(dir, name, lane) ==> Rank(dir[name].item) < r)
    && ((exists name :: InLane(dir, name, lane) && Rank(dir[name].item) == r - 1)
        || (r == 0 && forall name :: !InLane(dir, name, lane)))
  }

  /** The ranks of a lane's items, in the order in which the directory is listed. */
  function Orders(dir: Dir, names: seq<string>, lane: Lane): seq<int> {
    if names == [] then []
    else
      var name := names[|names| - 1];
      Orders(dir, names[..|names| - 1], lane) + (if InLane(dir, name, lane) then [Rank(dir[name].item)] else [])
  }

  function Max(xs: seq<int>): (r: int)
    requires xs != []
    ensures r in xs && forall x :: x in xs ==> x <= r
  {
    var front, last := xs[..|xs| - 1], xs[|xs| - 1];
    assert xs == front + [last];
    if front == [] then last
    else
      var m := Max(front);
      if m > last then m else last
  }

  ghost predicate HasRank(dir: Dir, names: seq<string>, lane: Lane, x: int) {
    exists name :: name in names && InLane(dir, name, lane) && Rank(dir[name].item) == x
  }

  lemma {:induction false} OrdersAreRanks(dir: Dir, names: seq<string>, lane: Lane, x: int)
    ensures x in Orders(dir, names, lane) <==> HasRank(dir, names, lane, x)
  {
    if names != [] {
      var front, name := names[..|names| - 1], names[|names| - 1];
      OrdersAreRanks(dir, front, lane, x);
      assert names == front + [name];
      if HasRank(dir, front, lane, x) {
        var other :| other in front && InLane(dir, other, lane) && Rank(dir[other].item) == x;
        assert other in names;
      }
    }
  }

  lemma OrdersGiveNext(dir: Dir, names: seq<string>, lane: Lane)
    requires Lists(names, dir)
    ensures var orders := Orders(dir, names, lane);
            IsNextOrder(dir, lane, if |orders| == 0 then 0 else Max(orders) + 1)
  {
    var orders := Orders(dir, names, lane);
    forall name | InLane(dir, name, lane)
      ensures Rank(dir[name].item) in orders
    {
      OrdersAreRanks(dir, names, lane, Rank(dir[name].item));
    }
    if |orders| > 0 {
      OrdersAreRanks(dir, names, lane, Max(orders));
    }
  }

  // --- operations as relations between directories ---

  /** An absent field is nothing; a null one is an absent one here, as it is for creation. */
  datatype NewItem = NewItem(
    title: string,
    status: Option<string>,
    description: Option<string>,
    labels: Option<seq<string>>,
    priority: Option<string>,
    assignee: Option<string>,
    parent: Option<string>,
    blockedBy: Option<seq<string>>,
    estimate: Option<real>,
    cycle: Option<string>)

  /** A blank name is nobody. */
  function UserFromName(name: Option<string>): Option<string> {
    if name.None? || Trim(name.value) == "" then None else name
  }

  function NewDetails(input: NewItem): Details {
    Details(input.description, input.labels.GetOr([]), input.priority, UserFromName(input.assignee), input.parent,
            if input.blockedBy == Some([]) then None else input.blockedBy, input.estimate, input.cycle)
  }

  ghost predicate Creates(dir: Dir, input: NewItem, ts: string, item: Item, dir': Dir) {
    exists n: nat, r: int ::
      && IsNextNumber(dir, n)
      && IsNextOrder(dir, LaneOf(input.status.GetOr(OPEN)), r)
      && item == Item(WI + Decimal(n), input.title, input.status.GetOr(OPEN), Some(r), [], ts, ts, NewDetails(input))
      && dir' == dir[FileName(item.key) := Stored(item)]
  }

  function MovedItem(item: Item, lane: Lane, r: int, ts: string): Item {
    item.(status := LaneName(lane), order := Some(r), updatedAt := ts)
  }

  ghost predicate Moves(
    dir: Dir, key: string, lane: Lane, order: Option<int>, ts: string, res: Result<Item>, dir': Dir)
  {
    match ReadOne(dir, key)
    case Failure(e) => res == Failure(e) && dir' == dir
    case Success(item) =>
      exists r: int ::
        && (if order.Some? then r == order.value else IsNextOrder(dir, lane, r))
        && SavedAs(dir, MovedItem(item, lane, r, ts), res, dir')
  }

  /** The fields to change: an absent one is kept, and those that may be cleared are given as an option. */
  datatype Patch = Patch(
    title: Option<string>,
    status: Option<string>,
    order: Option<int>,
    description: Option<Option<string>>,
    labels: Option<seq<string>>,
    priority: Option<Option<string>>,
    assignee: Option<Option<string>>,
    parent: Option<Option<string>>,
    blockedBy: Option<seq<string>>,
    estimate: Option<real>,
    cycle: Option<Option<string>>)

  const NO_PATCH := Patch(None, None, None, None, None, None, None, None, None, None, None)

  function PatchedDetails(d: Details, patch: Patch): Details {
    PatchedPlan(PatchedText(d, patch), patch)
  }

  /** What the item is about, and who works on it. */
  function PatchedText(d: Details, patch: Patch): Details {
    d.(description := patch.description.GetOr(d.description),
       labels := patch.labels.GetOr(d.labels),
       priority := patch.priority.GetOr(d.priority),
       assignee := if patch.assignee.Some? then UserFromName(patch.assignee.value) else d.assignee)
  }

  /** Where it belongs, and when it can be done. */
  function PatchedPlan(d: Details, patch: Patch): Details {
    d.(parent := patch.parent.GetOr(d.parent),
       blockedBy := if patch.blockedBy.Some? then patch.blockedBy else d.blockedBy,
       estimate := if patch.estimate.Some? then patch.estimate else d.estimate,
       cycle := patch.cycle.GetOr(d.cycle))
  }

  function Patched(item: Item, patch: Patch, ts: string): Item {
    item.(title := patch.title.GetOr(item.title),
    status := patch.status.GetOr(item.status),
    order := if patch.order.Some? then patch.order else item.order,
    details := PatchedDetails(item.details, patch),
    updatedAt := ts)
  }

  predicate Updates(dir: Dir, key: string, patch: Patch, ts: string, res: Result<Item>, dir': Dir) {
    match ReadOne(dir, key)
    case Failure(e) => res == Failure(e) && dir' == dir
    case Success(item) => SavedAs(dir, Patched(item, patch, ts), res, dir')
  }

  predicate SavedAs(dir: Dir, item: Item, res: Result<Item>, dir': Dir) {
    match Saved(dir, item)
    case Failure(e) => res == Failure(e) && dir' == dir
    case Success(d) => res == Success(item) && dir' == d
  }

  predicate Deletes(dir: Dir, key: string, res: Result<bool>, dir': Dir) {
    if Numbered(WI, key).None? then res == Failure(InvalidKey(key)) && dir' == dir
    else res == Success(FileName(key) in dir) && dir' == dir - {FileName(key)}
  }

  // --- checklists ---

  datatype CheckOp = Add(text: string) | Toggle(id: string) | Remove(id: string)

  /** The first position of an id, or the length. */
  function FirstAt(list: seq<CheckItem>, id: string): (r: nat)
    ensures r <= |list| && (r < |list| ==> list[r].id == id)
    ensures forall i :: 0 <= i < r ==> list[i].id != id
  {
    if list == [] || list[0].id == id then 0
    else
      var r := FirstAt(list[1..], id);
      assert forall i :: 0 < i < r + 1 ==> list[i] == list[1..][i - 1];
      r + 1
  }

  ghost predicate IsNextCheck(list: seq<CheckItem>, n: nat) {
    && n > 0
    && (forall i :: 0 <= i < |list| && Numbered(CL, list[i].id).Some? ==> Numbered(CL, list[i].id).value < n)
    && (n > 1 ==> exists i :: 0 <= i < |list| && Numbered(CL, list[i].id) == Some(n - 1))
  }

  ghost predicate Checks(list: seq<CheckItem>, op: CheckOp, list': seq<CheckItem>) {
    match op
    case Add(text) =>
      if Trim(text) == "" then list' == list
      else exists n: nat :: IsNextCheck(list, n) && list' == list + [CheckItem(CL + Decimal(n), Trim(text), false)]
    case Toggle(id) =>
      var at := FirstAt(list, id);
      list' == if at == |list| then list else list[at := list[at].(done := !list[at].done)]
    case Remove(id) =>
      var at := FirstAt(list, id);
      list' == if at == |list| then list else list[..at] + list[at + 1..]
  }

  ghost predicate ChecksItem(dir: Dir, key: string, op: CheckOp, ts: string, res: Result<Item>, dir': Dir) {
    match ReadOne(dir, key)
    case Failure(e) => res == Failure(e) && dir' == dir
    case Success(item) =>
      exists list: seq<CheckItem> ::
        Checks(item.checklist, op, list) && SavedAs(dir, item.(checklist := list, updatedAt := ts), res, dir')
  }

  // --- the board ---

  /** The order of names in which the file system lists the directory: any. */
  ghost predicate Lists(names: seq<string>, dir: Dir) {
    && (forall i, j :: 0 <= i < j < |names| ==> names[i] != names[j])
    && (forall name :: name in names <==> name in dir)
  }

  function Readable(dir: Dir, names: seq<string>): seq<Item>
    requires forall name :: name in names ==> name in dir
  {
    if names == [] then []
    else
      Readable(dir, names[..|names| - 1])
      + (if IsItem(dir, names[|names| - 1]) then [dir[names[|names| - 1]].item] else [])
  }

  predicate Before(a: Item, b: Item) {
    Rank(a) < Rank(b) || (Rank(a) == Rank(b) && KeyNum(a.key) < KeyNum(b.key))
  }

  predicate InBoardOrder(items: seq<Item>) {
    forall i, j :: 0 <= i < j < |items| ==> !Before(items[j], items[i])
  }

  predicate NewestFirst(items: seq<Item>) {
    forall i, j :: 0 <= i < j < |items| ==> KeyNum(items[i].key) >= KeyNum(items[j].key)
  }

  /** `Array.prototype.filter`. */
  function Filter(items: seq<Item>, keep: Item -> bool): seq<Item> {
    if items == [] then []
    else Filter(items[..|items| - 1], keep) + (if keep(items[|items| - 1]) then [items[|items| - 1]] else [])
  }

  function IsIn(lane: Lane): Item -> bool {
    (item: Item) => LaneOf(item.status) == lane
  }

  function OfLane(items: seq<Item>, lane: Lane): seq<Item> {
    Filter(items, IsIn(lane))
  }

  /** Stable insertion, behind the items that are not to come after the new one. */
  function Insert(items: seq<Item>, x: Item, after: (Item, Item) -> bool): seq<Item> {
    if items != [] && after(items[|items| - 1], x) then
      Insert(items[..|items| - 1], x, after) + [items[|items| - 1]]
    else items + [x]
  }

  /** `Array.prototype.sort`, which is stable. */
  function Sort(items: seq<Item>, after: (Item, Item) -> bool): seq<Item> {
    if items == [] then [] else Insert(Sort(items[..|items| - 1], after), items[|items| - 1], after)
  }

  function AfterByRank(): (Item, Item) -> bool {
    (a, b) => Before(b, a)
  }

  function AfterByAge(): (Item, Item) -> bool {
    (a: Item, b: Item) => KeyNum(a.key) < KeyNum(b.key)
  }

  function ReadAll(dir: Dir, names: seq<string>): seq<Item>
    requires forall name :: name in names ==> name in dir
  {
    Sort(Readable(dir, names), AfterByAge())
  }

  function BoardLane(dir: Dir, names: seq<string>, lane: Lane): seq<Item>
    requires forall name :: name in names ==> name in dir
  {
    Sort(OfLane(ReadAll(dir, names), lane), AfterByRank())
  }

  // --- the store ---

  class LocalWorkItemProvider {
    var dir: Dir

    constructor ()
      ensures dir == map[]
    {
      dir := map[];
    }

    method ReadDir() returns (names: seq<string>)
      ensures Lists(names, dir)
    {
      names := [];
      var rest := dir.Keys;
      while rest != {}
        invariant rest <= dir.Keys
        invariant forall name :: name in names <==> name in dir && name !in rest
        invariant forall i, j :: 0 <= i < j < |names| ==> names[i] != names[j]
        decreases |rest|
      {
        ghost var some := AnElement(rest);
        var name :| name in rest;
        names := names + [name];
        rest := rest - {name};
      }
    }

    method NextKey() returns (n: nat)
      ensures IsNextNumber(dir, n)
    {
      var names := ReadDir();
      var max: nat := 0;
      for i := 0 to |names|
        invariant forall j :: 0 <= j < i && NumberOf(names[j]).Some? ==> NumberOf(names[j]).value <= max
        invariant max > 0 ==> exists j :: 0 <= j < i && NumberOf(names[j]) == Some(max)
      {
        var m := NumberOf(names[i]);
        if m.Some? && m.value > max {
          max := m.value;
        }
      }
      n := max + 1;
    }

    method NextOrder(lane: Lane) returns (r: int)
      ensures IsNextOrder(dir, lane, r)
    {
      var names := ReadDir();
      var orders := Orders(dir, names, lane);
      r := if |orders| == 0 then 0 else Max(orders) + 1;
      OrdersGiveNext(dir, names, lane);
    }

    method CreateWorkItem(input: NewItem, ts: string) returns (item: Item)
      modifies this
      ensures Creates(old(dir), input, ts, item, dir)
    {
      var n := NextKey();
      var status := input.status.GetOr(OPEN);
      var r := NextOrder(LaneOf(status));
      item := Item(WI + Decimal(n), input.title, status, Some(r), [], ts, ts, NewDetails(input));
      dir := dir[FileName(item.key) := Stored(item)];
    }

    method Write(item: Item) returns (res: Result<Item>)
      modifies this
      ensures SavedAs(old(dir), item, res, dir)
    {
      if Numbered(WI, item.key).None? {
        return Failure(InvalidKey(item.key));
      }
      dir := dir[FileName(item.key) := Stored(item)];
      return Success(item);
    }

    method MoveWorkItem(key: string, lane: Lane, order: Option<int>, ts: string) returns (res: Result<Item>)
      modifies this
      ensures Moves(old(dir), key, lane, order, ts, res, dir)
    {
      var found := ReadOne(dir, key);
      if found.Failure? {
        return Failure(found.error);
      }
      var r: int;
      if order.Some? {
        r := order.value;
      } else {
        r := NextOrder(lane);
      }
      res := Write(MovedItem(found.value, lane, r, ts));
    }

    method UpdateWorkItem(key: string, patch: Patch, ts: string) returns (res: Result<Item>)
      modifies this
      ensures Updates(old(dir), key, patch, ts, res, dir)
    {
      var found := ReadOne(dir, key);
      if found.Failure? {
        return Failure(found.error);
      }
      var item := found.value;
      if patch.title.Some? {
        item := item.(title := patch.title.value);
      }
      if patch.status.Some? {
        item := item.(status := patch.status.value);
      }
      if patch.order.Some? {
        item := item.(order := patch.order);
      }
      var details := PatchDetails(item.details, patch);
      res := Write(item.(details := details, updatedAt := ts));
    }

    static method PatchDetails(given: Details, patch: Patch) returns (d: Details)
      ensures d == PatchedDetails(given, patch)
    {
      d := given;
      if patch.description.Some? {
        d := d.(description := patch.description.value);
      }
      if patch.labels.Some? {
        d := d.(labels := patch.labels.value);
      }
      if patch.priority.Some? {
        d := d.(priority := patch.priority.value);
      }
      if patch.assignee.Some? {
        d := d.(assignee := UserFromName(patch.assignee.value));
      }
      d := PatchPlan(d, patch);
    }

    static method PatchPlan(given: Details, patch: Patch) returns (d: Details)
      ensures d == PatchedPlan(given, patch)
    {
      d := given;
      if patch.parent.Some? {
        d := d.(parent := patch.parent.value);
      }
      if patch.blockedBy.Some? {
        d := d.(blockedBy := patch.blockedBy);
      }
      if patch.estimate.Some? {
        d := d.(estimate := patch.estimate);
      }
      if patch.cycle.Some? {
        d := d.(cycle := patch.cycle.value);
      }
    }

    method UpdateStatus(key: string, status: string, ts: string) returns (res: Result<Item>)
      modifies this
      ensures Updates(old(dir), key, NO_PATCH.(status := Some(status)), ts, res, dir)
    {
      res := UpdateWorkItem(key, NO_PATCH.(status := Some(status)), ts);
    }

    method DeleteWorkItem(key: string) returns (res: Result<bool>)
      modifies this
      ensures Deletes(old(dir), key, res, dir)
    {
      if Numbered(WI, key).None? {
        return Failure(InvalidKey(key));
      }
      if FileName(key) !in dir {
        assert dir - {FileName(key)} == dir;
        return Success(false);
      }
      dir := dir - {FileName(key)};
      return Success(true);
    }

    static method NextCheck(list: seq<CheckItem>) returns (n: nat)
      ensures IsNextCheck(list, n)
    {
      var max: nat := 0;
      for i := 0 to |list|
        invariant forall j :: 0 <= j < i && Numbered(CL, list[j].id).Some? ==> Numbered(CL, list[j].id).value <= max
        invariant max > 0 ==> exists j :: 0 <= j < i && Numbered(CL, list[j].id) == Some(max)
      {
        var m := Numbered(CL, list[i].id);
        if m.Some? && m.value > max {
          max := m.value;
        }
      }
      n := max + 1;
    }

    static method Mutate(list: seq<CheckItem>, op: CheckOp) returns (list': seq<CheckItem>)
      ensures Checks(list, op, list')
    {
      list' := list;
      match op
      case Add(given) =>
        var text := Trim(given);
        if text != "" {
          var n := NextCheck(list);
          list' := list + [CheckItem(CL + Decimal(n), text, false)];
        }
      case Toggle(id) =>
        var at := FirstAt(list, id);
        if at < |list| {
          list' := list[at := list[at].(done := !list[at].done)];
        }
      case Remove(id) =>
        var at := FirstAt(list, id);
        if at < |list| {
          list' := list[..at] + list[at + 1..];
        }
    }

    method MutateChecklist(key: string, op: CheckOp, ts: string) returns (res: Result<Item>)
      modifies this
      ensures ChecksItem(old(dir), key, op, ts, res, dir)
    {
      var found := ReadOne(dir, key);
      if found.Failure? {
        return Failure(found.error);
      }
      var list := Mutate(found.value.checklist, op);
      res := Write(found.value.(checklist := list, updatedAt := ts));
    }

    /** Every lane with its items, for some order in which the file system lists the directory. */
    method Board() returns (lanes: seq<(Lane, seq<Item>)>, ghost names: seq<string>)
      ensures Lists(names, dir) && |lanes| == |LANES|
      ensures forall i :: 0 <= i < |lanes| ==> lanes[i] == (LANES[i], BoardLane(dir, names, LANES[i]))
    {
      var listed := ReadDir();
      names := listed;
      var all := ReadAll(dir, listed);
      lanes := seq(|LANES|, i requires 0 <= i < |LANES| => (LANES[i], Sort(OfLane(all, LANES[i]), AfterByRank())));
    }
  }
}
