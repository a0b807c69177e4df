/**
 The Agent's delta builder.  The functions say which operations are produced;
 the methods follow the Agent's loops and are proved to produce exactly those.
 */
module DeltaSender {
  import opened Wrappers
  import opened Json
  import opened DeltaReceiver
  import opened DeltaWire
  import SortedKeys

  const LIVE_GAME_PARTICIPANT_COUNT := 10

  /** Two's-complement wrap of a 64-bit signed subtraction in a release build. */
  function WrapI64(n: int): int {
    (n + 0x8000_0000_0000_0000) % 0x1_0000_0000_0000_0000 - 0x8000_0000_0000_0000
  }

  predicate IsItemsPath(path: Path) {
    |path| == 3 && path[0] == Key("participants") && path[2] == Key("items")
    && path[1].Idx? && path[1].index < LIVE_GAME_PARTICIPANT_COUNT
  }

  // ---------- inventories ----------

  function ItemIdentity(v: Json): Option<(Json, Option<string>)> {
    if v.Obj? && "id" in v.fields then
      Some((v.fields["id"],
            if "name" in v.fields && v.fields["name"].Str? then Some(v.fields["name"].s) else None))
    else None
  }

  function ItemCount64(v: Json): Option<int> {
    if v.Obj? && "count" in v.fields && v.fields["count"].Int?
       && -0x8000_0000_0000_0000 <= v.fields["count"].n < 0x8000_0000_0000_0000
    then Some(v.fields["count"].n) else None
  }

  predicate Supplies(working: seq<Json>, next: seq<Json>, slot: nat, source: nat)
    requires |working| == |next| == 7 && slot < 7 && source < 7
  {
    source != slot && working[source] == next[slot] && working[source] != next[source]
  }

  /** The first slot at or after `from` that holds what `slot` should hold and is itself due to change. */
  function FindSource(working: seq<Json>, next: seq<Json>, slot: nat, from: nat): (source: Option<nat>)
    requires |working| == |next| == 7 && slot < 7 && from <= 7
    ensures source.Some? ==> source.value < 7 && Supplies(working, next, slot, source.value)
    decreases 7 - from
  {
    if from == 7 then None
    else if Supplies(working, next, slot, from) then Some(from)
    else FindSource(working, next, slot, from + 1)
  }

  datatype SlotAction =
    | Keep
    | Swap(source: nat)
    | Recount(delta: int)
    | Clear
    | Add(id: Json, name: Json, count: Json)
    | Abort

  function ActionFor(working: seq<Json>, next: seq<Json>, slot: nat): (action: SlotAction)
    requires |working| == |next| == 7 && slot < 7
    ensures action.Swap? ==> action.source < 7 && Supplies(working, next, slot, action.source)
  {
    var want := next[slot];
    var source := FindSource(working, next, slot, 0);
    if working[slot] == want then Keep
    else if want != Null && source.Some? then Swap(source.value)
    else if ItemIdentity(working[slot]).Some? && ItemIdentity(working[slot]) == ItemIdentity(want)
            && ItemCount64(working[slot]).Some? && ItemCount64(want).Some?
            && WrapI64(ItemCount64(want).value - ItemCount64(working[slot]).value) != 0
    then Recount(WrapI64(ItemCount64(want).value - ItemCount64(working[slot]).value))
    else if want == Null then Clear
    else if want.Obj? && "id" in want.fields then
      Add(want.fields["id"],
          if "name" in want.fields then want.fields["name"] else Null,
          if "count" in want.fields then want.fields["count"] else Int(1))
    else Abort
  }

  function ActionOps(p: nat, slot: nat, action: SlotAction): seq<Json> {
    match action
    case Keep => []
    case Swap(source) => [SwapOp(p, slot, source)]
    case Recount(delta) => [CountOp(p, slot, delta)]
    case Clear => [ClearOp(p, slot)]
    case Add(id, name, count) => [AddOp(p, slot, id, name, count)]
    case Abort => []
  }

  /** The Agent's own picture of the inventory after an action. */
  function AfterAction(working: seq<Json>, next: seq<Json>, slot: nat): (after: seq<Json>)
    requires |working| == |next| == 7 && slot < 7
    ensures |after| == 7
  {
    match ActionFor(working, next, slot)
    case Keep => working
    case Swap(source) => working[slot := working[source]][source := working[slot]]
    case _ => working[slot := next[slot]]
  }

  /** Whether every slot from `slot` on could be handled, and the operations pushed until then. */
  function ItemDelta(p: nat, working: seq<Json>, next: seq<Json>, slot: nat): (bool, seq<Json>)
    requires |working| == |next| == 7 && slot <= 7
    decreases 7 - slot
  {
    if slot == 7 then (true, [])
    else
      var action := ActionFor(working, next, slot);
      if action.Abort? then (false, [])
      else
        var (handled, ops) := ItemDelta(p, AfterAction(working, next, slot), next, slot + 1);
        (handled, ActionOps(p, slot, action) + ops)
  }

  function ItemPhase(previous: seq<Json>, next: seq<Json>, path: Path): (bool, seq<Json>) {
    if IsItemsPath(path) && |previous| == |next| == 7
    then ItemDelta(path[1].index, previous, next, 0)
    else (false, [])
  }

  method ChooseAction(working: seq<Json>, next: seq<Json>, slot: nat) returns (action: SlotAction)
    requires |working| == |next| == 7 && slot < 7
    ensures action == ActionFor(working, next, slot)
  {
    if working[slot] == next[slot] {
      return Keep;
    }
    if next[slot] != Null {
      for source := 0 to 7
        invariant FindSource(working, next, slot, 0) == FindSource(working, next, slot, source)
      {
        if source != slot && working[source] == next[slot] && working[source] != next[source] {
          return Swap(source);
        }
      }
    }
    var before, after := ItemIdentity(working[slot]), ItemIdentity(next[slot]);
    if before.Some? && before == after {
      var beforeCount, afterCount := ItemCount64(working[slot]), ItemCount64(next[slot]);
      if beforeCount.Some? && afterCount.Some? {
        var delta := WrapI64(afterCount.value - beforeCount.value);
        if delta != 0 {
          return Recount(delta);
        }
      }
    }
    if next[slot] == Null {
      return Clear;
    }
    if !next[slot].Obj? || "id" !in next[slot].fields {
      return Abort;
    }
    var item := next[slot].fields;
    action := Add(item["id"],
                  if "name" in item then item["name"] else Null,
                  if "count" in item then item["count"] else Int(1));
  }

  lemma {:induction false} ItemDeltaStep(p: nat, working: seq<Json>, next: seq<Json>, slot: nat)
    requires |working| == |next| == 7 && slot < 7
    ensures var action := ActionFor(working, next, slot);
            if action.Abort? then ItemDelta(p, working, next, slot) == (false, [])
            else
              var rest := ItemDelta(p, AfterAction(working, next, slot), next, slot + 1);
              ItemDelta(p, working, next, slot) == (rest.0, ActionOps(p, slot, action) + rest.1)
  {
    hide ActionFor, AfterAction, ActionOps;
  }

  lemma {:induction false} ItemDeltaEnd(p: nat, working: seq<Json>, next: seq<Json>)
    requires |working| == |next| == 7
    ensures ItemDelta(p, working, next, 7) == (true, [])
  {
  }

  method PushLiveItemDeltaOps(p: nat, previous: seq<Json>, next: seq<Json>) returns (handled: bool, ops: seq<Json>)
    ensures |previous| == |next| == 7 ==> (handled, ops) == ItemDelta(p, previous, next, 0)
    ensures !(|previous| == |next| == 7) ==> !handled && ops == []
  {
    hide ItemDelta, ActionFor, AfterAction, ActionOps;
    ops := [];
    if |previous| != 7 || |next| != 7 {
      return false, ops;
    }
    var working := previous;
    ghost var all := ItemDelta(p, previous, next, 0);
    for slot := 0 to 7
      invariant |working| == 7
      invariant all.0 == ItemDelta(p, working, next, slot).0
      invariant all.1 == ops + ItemDelta(p, working, next, slot).1
    {
      ItemDeltaStep(p, working, next, slot);
      var action := ChooseAction(working, next, slot);
      if action.Abort? {
        assert ops + [] == ops;
        return false, ops;
      }
      ghost var rest := ItemDelta(p, AfterAction(working, next, slot), next, slot + 1).1;
      assert ops + (ActionOps(p, slot, action) + rest) == (ops + ActionOps(p, slot, action)) + rest;
      ops := ops + ActionOps(p, slot, action);
      working := AfterAction(working, next, slot);
    }
    ItemDeltaEnd(p, working, next);
    assert ops + [] == ops;
    handled := true;
  }

  // ---------- trees ----------

  function DiffOps(prev: Json, next: Json, path: Path): seq<Json>
    decreases prev, 2, 0
  {
    if prev == next then []
    else if prev.Obj? && next.Obj? then
      DiffKeys(prev, next, SortedKeys.Sorted(prev.fields.Keys + next.fields.Keys), path)
    else if prev.Arr? && next.Arr? then
      var (handled, itemOps) := ItemPhase(prev.elems, next.elems, path);
      if handled then itemOps
      else itemOps + DiffElems(prev, next, 0, path) + DiffTail(prev.elems, next.elems, path)
    else [SetOp(path, next)]
  }

  function DiffKey(prev: Json, next: Json, k: string, path: Path): seq<Json>
    requires prev.Obj? && next.Obj?
    decreases prev, 0, 0
  {
    if k in prev.fields && k in next.fields then DiffOps(prev.fields[k], next.fields[k], path + [Key(k)])
    else if k in next.fields then [SetOp(path + [Key(k)], next.fields[k])]
    else if k in prev.fields then [DeleteOp(path + [Key(k)])]
    else []
  }

  function DiffKeys(prev: Json, next: Json, keys: seq<string>, path: Path): seq<Json>
    requires prev.Obj? && next.Obj?
    decreases prev, 1, |keys|
  {
    if keys == [] then []
    else DiffKey(prev, next, keys[0], path) + DiffKeys(prev, next, keys[1..], path)
  }

  function Common(prev: Json, next: Json): nat
    requires prev.Arr? && next.Arr?
  {
    if |prev.elems| < |next.elems| then |prev.elems| else |next.elems|
  }

  function DiffElems(prev: Json, next: Json, i: nat, path: Path): seq<Json>
    requires prev.Arr? && next.Arr? && i <= Common(prev, next)
    decreases prev, 1, Common(prev, next) - i
  {
    if i == Common(prev, next) then []
    else DiffOps(prev.elems[i], next.elems[i], path + [Idx(i)]) + DiffElems(prev, next, i + 1, path)
  }

  function DiffTail(prev: seq<Json>, next: seq<Json>, path: Path): seq<Json> {
    if |next| > |prev| then [AppendOp(path, next[|prev|..])]
    else if |next| < |prev| then [TruncateOp(path, |next|)]
    else []
  }

  method JsonDeltaOps(prev: Json, next: Json, path: Path) returns (ops: seq<Json>)
    ensures ops == DiffOps(prev, next, path)
    decreases prev, 1
  {
    if prev == next {
      ops := [];
    } else if prev.Obj? && next.Obj? {
      ops := ObjectDeltaOps(prev, next, path);
    } else if prev.Arr? && next.Arr? {
      ops := ArrayDeltaOps(prev, next, path);
    } else {
      ops := [SetOp(path, next)];
    }
  }

  method ObjectDeltaOps(prev: Json, next: Json, path: Path) returns (ops: seq<Json>)
    requires prev.Obj? && next.Obj?
    ensures ops == DiffKeys(prev, next, SortedKeys.Sorted(prev.fields.Keys + next.fields.Keys), path)
    decreases prev, 0
  {
    hide DiffOps, SortedKeys.Sorted, SetOp, DeleteOp;
    ops := [];
    var keys := SortedKeys.Sorted(prev.fields.Keys + next.fields.Keys);
    ghost var all := DiffKeys(prev, next, keys, path);
    assert keys[0..] == keys && [] + all == all;
    for i := 0 to |keys|
      invariant ops + DiffKeys(prev, next, keys[i..], path) == all
    {
      var k := keys[i];
      assert k in keys;
      ghost var before, rest := ops, DiffKeys(prev, next, keys[i + 1..], path);
      assert keys[i..][0] == k && keys[i..][1..] == keys[i + 1..];
      assert before + (DiffKey(prev, next, k, path) + rest) == (before + DiffKey(prev, next, k, path)) + rest;
      if k in prev.fields && k in next.fields {
        var inner := JsonDeltaOps(prev.fields[k], next.fields[k], path + [Key(k)]);
        ops := ops + inner;
      } else if k in next.fields {
        ops := ops + [SetOp(path + [Key(k)], next.fields[k])];
      } else {
        ops := ops + [DeleteOp(path + [Key(k)])];
      }
      assert ops == before + DiffKey(prev, next, k, path);
    }
    assert keys[|keys|..] == [] && ops + [] == ops;
  }

  method ArrayDeltaOps(prev: Json, next: Json, path: Path) returns (ops: seq<Json>)
    requires prev.Arr? && next.Arr? && prev != next
    ensures ops == DiffOps(prev, next, path)
    decreases prev, 0
  {
    hide ItemDelta, DiffKeys, AppendOp, TruncateOp, SetOp;
    ops := [];
    if IsItemsPath(path) {
      var handled, itemOps := PushLiveItemDeltaOps(path[1].index, prev.elems, next.elems);
      ops := itemOps;
      if handled {
        return;
      }
    }
    ghost var itemOps := ops;
    assert ItemPhase(prev.elems, next.elems, path) == (false, itemOps);
    var common := Common(prev, next);
    for i := 0 to common
      invariant ops + DiffElems(prev, next, i, path) == itemOps + DiffElems(prev, next, 0, path)
    {
      var inner := JsonDeltaOps(prev.elems[i], next.elems[i], path + [Idx(i)]);
      ghost var rest := DiffElems(prev, next, i + 1, path);
      assert ops + (inner + rest) == (ops + inner) + rest;
      ops := ops + inner;
    }
    assert ops + [] == ops;
    if |next.elems| > |prev.elems| {
      ops := ops + [AppendOp(path, next.elems[|prev.elems|..])];
    } else if |next.elems| < |prev.elems| {
      ops := ops + [TruncateOp(path, |next.elems|)];
    } else {
      assert ops + [] == ops;
    }
  }
}
