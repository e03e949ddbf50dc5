/**
 What can be read back after one operation of the store, field by field, and that no other item changes
 (packages/work-items/src/local-provider.ts:133-360).
 */
module WorkItemEffects {
  import opened Wrappers
  import opened Text
  import opened Lanes
  import opened WorkItems
  import opened WorkItemBoard
  import opened WorkItemRuns
  import opened WorkItemMoves

  // --- keys and files ---

  /** A key is `WI-` and decimal digits, which may start with zeros. */
  ghost predicate IsKey(key: string) {
    exists digits: string :: digits != "" && AllDigits(digits) && key == "WI-" + digits
  }

  lemma KeyIff(key: string)
    ensures Numbered(WI, key).Some? <==> IsKey(key)
  {
    if Numbered(WI, key).Some? {
      var digits := key[3..];
      assert key == "WI-" + digits;
    }
    if digits: string :| digits != "" && AllDigits(digits) && key == "WI-" + digits {
      assert key[3..] == digits;
    }
  }

  /** Reading fails exactly for a text that is no key, a missing file and one that does not decode. */
  lemma ReadExactly(dir: Dir, key: string)
    ensures ReadOne(dir, key) == Failure(InvalidKey(key)) <==> !IsKey(key)
    ensures ReadOne(dir, key) == Failure(NotFound(key)) <==> IsKey(key) && key + ".json" !in dir
    ensures ReadOne(dir, key) == Failure(Corrupt(key))
       <==> IsKey(key) && key + ".json" in dir && dir[key + ".json"] == Unreadable
    ensures forall item :: ReadOne(dir, key) == Success(item)
                      <==> IsKey(key) && key + ".json" in dir && dir[key + ".json"] == Stored(item)
  {
    KeyIff(key);
  }

  lemma NamesDiffer(a: string, b: string)
    requires FileName(a) == FileName(b)
    ensures a == b
  {
    StripName(a, JSON);
    StripName(b, JSON);
  }

  /** Every other key reads as before. */
  ghost predicate OthersKept(dir: Dir, key: string, dir': Dir) {
    forall other: string :: other != key ==> ReadOne(dir', other) == ReadOne(dir, other)
  }

  lemma WriteKeepsOthers(dir: Dir, item: Item, dir': Dir)
    requires dir' == dir[FileName(item.key) := Stored(item)]
    ensures OthersKept(dir, item.key, dir')
  {
    forall other: string | other != item.key
      ensures ReadOne(dir', other) == ReadOne(dir, other)
    {
      if FileName(other) == FileName(item.key) {
        NamesDiffer(other, item.key);
      }
    }
  }

  /** Only this item can differ, and it reads as `item`. */
  ghost predicate NowReads(dir: Dir, item: Item, dir': Dir) {
    ReadOne(dir', item.key) == Success(item) && OthersKept(dir, item.key, dir')
  }

  lemma SavedReads(dir: Dir, key: string, item: Item, res: Result<Item>, dir': Dir)
    requires AllNamed(dir) && ReadOne(dir, key).Success? && item.key == ReadOne(dir, key).value.key
    requires SavedAs(dir, item, res, dir')
    ensures res == Success(item) && item.key == key && NowReads(dir, item, dir')
  {
    KeyNames(dir, key);
    assert Named(dir, FileName(key));
    WriteKeepsOthers(dir, item, dir');
  }

  // --- people ---

  /** An assignee is the user of that name, and nobody if the name is blank. */
  predicate IsAssigned(given: Option<string>, assignee: Option<string>) {
    match given
    case None => assignee.None?
    case Some(name) => if forall i :: 0 <= i < |name| ==> IsSpace(name[i]) then assignee.None? else assignee == given
  }

  lemma {:induction false} TrimStartEmpty(s: string)
    ensures TrimStart(s) == "" <==> forall i :: 0 <= i < |s| ==> IsSpace(s[i])
    ensures TrimStart(s) != "" ==> !IsSpace(TrimStart(s)[0])
  {
    if s != "" && IsSpace(s[0]) {
      TrimStartEmpty(s[1..]);
      assert forall i :: 0 < i < |s| ==> s[i] == s[1..][i - 1];
    }
  }

  lemma {:induction false} TrimEndSome(s: string)
    requires s != "" && !IsSpace(s[0])
    ensures TrimEnd(s) != ""
  {
    if IsSpace(s[|s| - 1]) {
      TrimEndSome(s[..|s| - 1]);
    }
  }

  lemma UserAssigned(given: Option<string>)
    ensures IsAssigned(given, UserFromName(given))
  {
    if given.Some? {
      TrimStartEmpty(given.value);
      if TrimStart(given.value) != "" {
        TrimEndSome(TrimStart(given.value));
      }
    }
  }

  // --- creating ---

  /** The fields of a new item are the given ones; what is not given is empty. */
  ghost predicate HoldsNew(d: Details, input: NewItem) {
    && d.description == input.description && d.priority == input.priority && d.parent == input.parent
    && d.estimate == input.estimate && d.cycle == input.cycle && IsAssigned(input.assignee, d.assignee)
    && d.labels == (if input.labels.Some? then input.labels.value else [])
    && d.blockedBy == (if input.blockedBy.Some? && |input.blockedBy.value| > 0 then input.blockedBy else None)
  }

  /** A created item reads back as given, and open unless a status is given; its file is new and no other changes. */
  lemma CreatedReads(dir: Dir, input: NewItem, ts: string, item: Item, dir': Dir)
    requires Creates(dir, input, ts, item, dir')
    ensures NowReads(dir, item, dir') && item.key + ".json" !in dir
    ensures item.title == input.title && item.status == (if input.status.Some? then input.status.value else "open")
    ensures item.createdAt == ts && item.updatedAt == ts && item.checklist == [] && item.order.Some?
    ensures HoldsNew(item.details, input)
  {
    CreatesPlaces(dir, input, ts, item, dir');
    WriteKeepsOthers(dir, item, dir');
    UserAssigned(input.assignee);
  }

  // --- moving ---

  /** Everything but status, rank and the time of the change is as before. */
  predicate SameButPlace(before: Item, item: Item) {
    && item.key == before.key && item.title == before.title && item.checklist == before.checklist
    && item.createdAt == before.createdAt && item.details == before.details
  }

  /** A moved item reads back in the lane, with the given rank or the next one, and else as before. */
  lemma MovedReads(dir: Dir, key: string, lane: Lane, order: Option<int>, ts: string, res: Result<Item>, dir': Dir)
    requires AllNamed(dir) && Moves(dir, key, lane, order, ts, res, dir')
    ensures ReadOne(dir, key).Failure? ==> res == ReadOne(dir, key) && dir' == dir
    ensures ReadOne(dir, key).Success? ==>
              && res.Success? && res.value.key == key && NowReads(dir, res.value, dir')
              && SameButPlace(ReadOne(dir, key).value, res.value)
              && LaneOf(res.value.status) == lane && res.value.updatedAt == ts && res.value.order.Some?
              && (if order.Some? then res.value.order == order else IsNextOrder(dir, lane, res.value.order.value))
  {
    if ReadOne(dir, key).Success? {
      var item := ReadOne(dir, key).value;
      var r: int :| (if order.Some? then r == order.value else IsNextOrder(dir, lane, r))
                    && SavedAs(dir, MovedItem(item, lane, r, ts), res, dir');
      SavedReads(dir, key, MovedItem(item, lane, r, ts), res, dir');
      LaneOfName(lane);
    }
  }

  // --- updating ---

  /** A field holds what is given, or else what it held before. */
  predicate Holds<T(==)>(now: T, given: Option<T>, before: T) {
    now == if given.Some? then given.value else before
  }

  ghost predicate HoldsPatch(now: Details, patch: Patch, before: Details) {
    && Holds(now.description, patch.description, before.description)
    && Holds(now.labels, patch.labels, before.labels)
    && Holds(now.priority, patch.priority, before.priority)
    && Holds(now.parent, patch.parent, before.parent)
    && Holds(now.cycle, patch.cycle, before.cycle)
    && now.blockedBy == (if patch.blockedBy.Some? then patch.blockedBy else before.blockedBy)
    && now.estimate == (if patch.estimate.Some? then patch.estimate else before.estimate)
    && (if patch.assignee.Some? then IsAssigned(patch.assignee.value, now.assignee)
        else now.assignee == before.assignee)
  }

  /** An updated item reads back with every given field, the time of the change, and everything else as before. */
  lemma UpdatedReads(dir: Dir, key: string, patch: Patch, ts: string, res: Result<Item>, dir': Dir)
    requires AllNamed(dir) && Updates(dir, key, patch, ts, res, dir')
    ensures ReadOne(dir, key).Failure? ==> res == ReadOne(dir, key) && dir' == dir
    ensures ReadOne(dir, key).Success? ==>
              && res.Success? && res.value.key == key && NowReads(dir, res.value, dir')
              && var before := ReadOne(dir, key).value;
              && Holds(res.value.title, patch.title, before.title)
              && Holds(res.value.status, patch.status, before.status)
              && res.value.order == (if patch.order.Some? then patch.order else before.order)
              && res.value.checklist == before.checklist && res.value.createdAt == before.createdAt
              && res.value.updatedAt == ts && HoldsPatch(res.value.details, patch, before.details)
  {
    if ReadOne(dir, key).Success? {
      SavedReads(dir, key, Patched(ReadOne(dir, key).value, patch, ts), res, dir');
      if patch.assignee.Some? {
        UserAssigned(patch.assignee.value);
      }
    }
  }

  // --- deleting ---

  /** After a delete the key names nothing and no other item has changed; the result says whether there was a file. */
  lemma DeletedReads(dir: Dir, key: string, res: Result<bool>, dir': Dir)
    requires Deletes(dir, key, res, dir')
    ensures !IsKey(key) ==> res == Failure(InvalidKey(key)) && dir' == dir
    ensures IsKey(key) ==> res == Success(key + ".json" in dir) && ReadOne(dir', key) == Failure(NotFound(key))
    ensures OthersKept(dir, key, dir')
  {
    KeyIff(key);
    forall other: string | other != key
      ensures ReadOne(dir', other) == ReadOne(dir, other)
    {
      if FileName(other) == FileName(key) {
        NamesDiffer(other, key);
      }
    }
  }

  // --- checklists ---

  /** Of the entries with the id, the first one is at `at`. */
  predicate IsFirst(list: seq<CheckItem>, id: string, at: nat) {
    at < |list| && list[at].id == id && forall i :: 0 <= i < at ==> list[i].id != id
  }

  predicate HasId(list: seq<CheckItem>, id: string) {
    exists i :: 0 <= i < |list| && list[i].id == id
  }

  lemma FirstIs(list: seq<CheckItem>, id: string) returns (at: nat)
    ensures at == FirstAt(list, id) && (HasId(list, id) <==> IsFirst(list, id, at))
    ensures !HasId(list, id) <==> at == |list|
  {
    at := FirstAt(list, id);
    if at < |list| {
      assert list[at].id == id;
    }
  }

  /** Toggling flips the mark of the first entry with the id and nothing else; without one it changes nothing. */
  lemma ToggleFlips(list: seq<CheckItem>, id: string, list': seq<CheckItem>)
    requires Checks(list, Toggle(id), list')
    ensures |list'| == |list|
    ensures forall i :: 0 <= i < |list| ==>
              list'[i] == CheckItem(list[i].id, list[i].text,
                                    if IsFirst(list, id, i) then !list[i].done else list[i].done)
  {
    var at := FirstIs(list, id);
  }

  /** Removing takes out the first entry with the id and nothing else; without one it changes nothing. */
  lemma RemoveTakes(list: seq<CheckItem>, id: string, list': seq<CheckItem>, at: nat)
    requires Checks(list, Remove(id), list')
    ensures !HasId(list, id) ==> list' == list
    ensures IsFirst(list, id, at) ==> list == list'[..at] + [list[at]] + list'[at..] && |list'| == |list| - 1
  {
    var found := FirstIs(list, id);
    if IsFirst(list, id, at) {
      assert found == at;
      assert list'[..at] == list[..at] && list'[at..] == list[at + 1..];
    }
  }

  /** Adding puts a new entry with the trimmed text behind the others, not done and with an id of its own. */
  lemma AddAppends(list: seq<CheckItem>, text: string, list': seq<CheckItem>)
    requires Checks(list, Add(text), list')
    ensures Trim(text) == "" ==> list' == list
    ensures Trim(text) != "" ==>
              && |list'| == |list| + 1 && list'[..|list|] == list
              && list'[|list|].text == Trim(text) && !list'[|list|].done && !HasId(list, list'[|list|].id)
  {
    if Trim(text) != "" {
      var n: nat :| IsNextCheck(list, n) && list' == list + [CheckItem(CL + Decimal(n), Trim(text), false)];
      NumberedDecimal(CL, n);
    }
  }

  /** A checklist change reads back in the item, which else is as before but for the time of the change. */
  lemma CheckedReads(dir: Dir, key: string, op: CheckOp, ts: string, res: Result<Item>, dir': Dir)
    requires AllNamed(dir) && ChecksItem(dir, key, op, ts, res, dir')
    ensures ReadOne(dir, key).Failure? ==> res == ReadOne(dir, key) && dir' == dir
    ensures ReadOne(dir, key).Success? ==>
              && res.Success? && res.value.key == key && NowReads(dir, res.value, dir')
              && var before := ReadOne(dir, key).value;
              && Checks(before.checklist, op, res.value.checklist) && res.value.updatedAt == ts
              && res.value == before.(checklist := res.value.checklist, updatedAt := ts)
  {
    if ReadOne(dir, key).Success? {
      var item := ReadOne(dir, key).value;
      var list: seq<CheckItem> :|
        Checks(item.checklist, op, list) && SavedAs(dir, item.(checklist := list, updatedAt := ts), res, dir');
      SavedReads(dir, key, item.(checklist := list, updatedAt := ts), res, dir');
    }
  }

  // --- the orders ---

  predicate NotBehind(a: Item, b: Item) {
    var x, y := (if a.order.Some? then a.order.value else 0), if b.order.Some? then b.order.value else 0;
    x < y || (x == y && KeyNum(a.key) <= KeyNum(b.key))
  }

  /** On the board a lane goes by rank, an item without one counting as 0, and then by the number of the key. */
  lemma LaneOrder(dir: Dir, names: seq<string>, lane: Lane, i: nat, j: nat)
    requires forall name :: name in names ==> name in dir
    requires i < j < |BoardLane(dir, names, lane)|
    ensures NotBehind(BoardLane(dir, names, lane)[i], BoardLane(dir, names, lane)[j])
  {
    BoardLaneSorted(dir, names, lane, BoardLane(dir, names, lane)[i]);
    assert !Before(BoardLane(dir, names, lane)[j], BoardLane(dir, names, lane)[i]);
  }

  /** The item is in a readable file of the directory whose name ends in `.json`. */
  ghost predicate IsStored(dir: Dir, item: Item) {
    exists name :: IsFileOf(dir, name, item)
  }

  predicate IsFileOf(dir: Dir, name: string, item: Item) {
    name in dir && dir[name] == Stored(item) && |name| >= 5 && name[|name| - 5..] == ".json"
  }

  lemma FileOfIff(dir: Dir, name: string, item: Item)
    ensures IsFileOf(dir, name, item) <==> IsItem(dir, name) && dir[name].item == item
  {
  }

  /** The list holds exactly the stored items. */
  lemma ListedIff(dir: Dir, names: seq<string>, item: Item)
    requires Lists(names, dir)
    ensures item in ReadAll(dir, names) <==> IsStored(dir, item)
  {
    ReadAllSorted(dir, names);
    assert item in ReadAll(dir, names) <==> item in multiset(ReadAll(dir, names));
    ReadableElements(dir, names, item);
    if name :| name in names && IsItem(dir, name) && dir[name].item == item {
      FileOfIff(dir, name, item);
    }
    if name :| IsFileOf(dir, name, item) {
      FileOfIff(dir, name, item);
      assert name in names;
    }
  }

  /** A lane of the board holds exactly the stored items of that lane. */
  lemma BoardIff(dir: Dir, names: seq<string>, lane: Lane, item: Item)
    requires Lists(names, dir)
    ensures item in BoardLane(dir, names, lane) <==> IsStored(dir, item) && LaneOf(item.status) == lane
  {
    BoardElements(dir, names, lane, item);
    if name :| InLane(dir, name, lane) && dir[name].item == item {
      FileOfIff(dir, name, item);
    }
    if name :| IsFileOf(dir, name, item) {
      FileOfIff(dir, name, item);
      assert LaneOf(item.status) == lane ==> InLane(dir, name, lane);
    }
  }
}
