/**
 Concrete states for which the Agent's delta does not reproduce the new state,
 one for each condition of the round trip.
 */
module DeltaCounterexamples {
  import opened Wrappers
  import opened Json
  import opened DeltaReceiver
  import opened DeltaWire
  import opened DeltaLaws
  import opened DeltaSender
  import opened DeltaItems
  import opened DeltaEffect
  import SortedKeys

  function Item(id: int, count: int): Json {
    ItemRecord(Int(id), Str("Boots"), Int(count))
  }

  function Row(items: seq<Json>): Json {
    Obj(map["items" := Arr(items)])
  }

  /** A state with one participant. */
  function OneInventory(items: seq<Json>): Json {
    Obj(map["participants" := Arr([Row(items)])])
  }

  lemma {:induction false} SortedOne(k: string)
    ensures SortedKeys.Sorted({k}) == [k]
  {
    var ks := SortedKeys.Sorted({k});
    assert k in ks;
    assert forall i | 0 <= i < |ks| :: ks[i] in ks;
  }

  lemma {:induction false} OneKeyDiff(k: string, a: Json, b: Json, path: Path)
    requires a != b
    ensures DiffOps(Obj(map[k := a]), Obj(map[k := b]), path) == DiffOps(a, b, path + [Key(k)])
  {
    var prev, next := Obj(map[k := a]), Obj(map[k := b]);
    assert prev.fields[k] != next.fields[k];
    assert prev.fields.Keys + next.fields.Keys == {k};
    SortedOne(k);
    assert DiffKeys(prev, next, [k], path) == DiffKey(prev, next, k, path) + DiffKeys(prev, next, [k][1..], path);
    assert [k][1..] == [];
  }

  lemma {:induction false} OneElemDiff(a: Json, b: Json, path: Path)
    requires a != b
    ensures DiffOps(Arr([a]), Arr([b]), path) == DiffOps(a, b, path + [Idx(0)])
  {
    hide DiffOps, IsItemsPath;
    var prev, next := Arr([a]), Arr([b]);
    assert prev.elems[0] != next.elems[0];
    PlainArray(prev, next, prev, path);
    assert DiffElems(prev, next, 1, path) == [];
    assert DiffElems(prev, next, 0, path) == DiffOps(a, b, path + [Idx(0)]) + DiffElems(prev, next, 1, path);
  }

  lemma {:induction false} OneInventoryDiff(xs: seq<Json>, ys: seq<Json>)
    requires xs != ys
    ensures DiffOps(OneInventory(xs), OneInventory(ys), []) == DiffOps(Arr(xs), Arr(ys), ItemsPath(0))
  {
    var p1: Path := [Key("participants")];
    var p2 := p1 + [Idx(0)];
    assert [] + p1 == p1 && p2 + [Key("items")] == ItemsPath(0);
    assert Row(xs).fields["items"] != Row(ys).fields["items"];
    assert Arr([Row(xs)]).elems[0] != Arr([Row(ys)]).elems[0];
    OneKeyDiff("participants", Arr([Row(xs)]), Arr([Row(ys)]), []);
    OneElemDiff(Row(xs), Row(ys), p1);
    OneKeyDiff("items", Arr(xs), Arr(ys), p2);
  }

  lemma {:induction false} ItemsPathSteps(root: Json, participant: nat)
    ensures Lookup(root, ItemsPath(participant)) ==
            match Child(root, Key("participants")) { case None => None case Some(rows) =>
            match Child(rows, Idx(participant)) { case None => None case Some(row) => Child(row, Key("items")) } }
  {
    var path := ItemsPath(participant);
    assert path == [Key("participants")] + ([Idx(participant)] + [Key("items")]);
    LookupJoin(root, [Key("participants")], [Idx(participant)] + [Key("items")]);
    match Child(root, Key("participants"))
    case None =>
    case Some(rows) => LookupJoin(rows, [Idx(participant)], [Key("items")]);
  }

  lemma {:induction false} InventoryLookup(items: seq<Json>)
    ensures Lookup(OneInventory(items), ItemsPath(0)) == Some(Arr(items))
  {
    ItemsPathSteps(OneInventory(items), 0);
  }

  lemma {:induction false} InventorySet(items: seq<Json>, items': seq<Json>)
    ensures Lookup(OneInventory(items), ItemsPath(0)).Some?
    ensures SetAt(OneInventory(items), ItemsPath(0), Arr(items')) == OneInventory(items')
  {
    InventoryLookup(items);
    var p := ItemsPath(0);
    var p1 := p[1..];
    var p2 := p1[1..];
    assert p1[0] == Idx(0) && p2[0] == Key("items") && p2[1..] == [];
    assert SetAt(Row(items), p2, Arr(items')) == Row(items') by {
      assert SetAt(Arr(items), p2[1..], Arr(items')) == Arr(items');
      assert Row(items).fields["items" := Arr(items')] == Row(items').fields;
    }
    assert SetAt(Arr([Row(items)]), p1, Arr(items')) == Arr([Row(items')]) by {
      assert [Row(items)][0 := Row(items')] == [Row(items')];
    }
    assert OneInventory(items).fields["participants" := Arr([Row(items')])] == OneInventory(items').fields;
  }

  function Padded(items: seq<Json>): seq<Json> {
    items + [Null, Null, Null, Null]
  }

  lemma {:induction false} NoSource(working: seq<Json>, next: seq<Json>, slot: nat, from: nat)
    requires |working| == |next| == 7 && slot < 7 && from <= 7
    requires forall j | 0 <= j < 7 :: working[j] != next[slot]
    ensures FindSource(working, next, slot, from).None?
    decreases 7 - from
  {
    if from < 7 {
      NoSource(working, next, slot, from + 1);
    }
  }

  lemma {:induction false} AllKept(p: nat, items: seq<Json>, slot: nat)
    requires |items| == 7 && slot <= 7
    ensures ItemDelta(p, items, items, slot) == (true, [])
    decreases 7 - slot
  {
    if slot < 7 {
      AllKept(p, items, slot + 1);
      assert ActionFor(items, items, slot) == Keep;
      assert ActionOps(p, slot, Keep) + [] == [];
    }
  }

  const Worn: Json := Obj(map["id" := Int(1001), "name" := Str("Boots"), "count" := Int(1), "used" := Bool(true)])

  /** Any two arrays of seven slots whose diff ends after one slot. */
  lemma {:induction false} OneSlotDiff(xs: seq<Json>, ys: seq<Json>, action: SlotAction)
    requires |xs| == |ys| == 7 && xs != ys && !action.Abort?
    requires ActionFor(xs, ys, 0) == action && AfterAction(xs, ys, 0) == ys
    ensures DiffOps(Arr(xs), Arr(ys), ItemsPath(0)) == ActionOps(0, 0, action)
  {
    hide ActionFor, AfterAction, ActionOps;
    AllKept(0, ys, 1);
    assert ActionOps(0, 0, action) + [] == ActionOps(0, 0, action);
    assert ItemDelta(0, xs, ys, 0) == (true, ActionOps(0, 0, action));
  }

  lemma {:induction false} WornDiff()
    ensures var xs, ys := Padded([Null, Null, Null]), Padded([Worn, Null, Null]);
            DiffOps(Arr(xs), Arr(ys), ItemsPath(0)) == ActionOps(0, 0, Add(Int(1001), Str("Boots"), Int(1)))
  {
    hide DiffOps, ActionOps;
    var xs, ys := Padded([Null, Null, Null]), Padded([Worn, Null, Null]);
    assert xs[0] == Null && ys[0] == Worn;
    NoSource(xs, ys, 0, 0);
    assert AfterAction(xs, ys, 0) == ys;
    OneSlotDiff(xs, ys, Add(Int(1001), Str("Boots"), Int(1)));
  }

  lemma {:induction false} ActionOnInventory(items: seq<Json>, slot: nat, action: SlotAction, after: seq<Json>)
    requires |items| == 7 && slot < 7 && (action.Swap? || action.Add? || (action.Recount? && action.delta != 0))
    requires action.Swap? ==> action.source < 7 && action.source != slot
    requires ActionResult(items, slot, action) == Some(after)
    ensures ApplyOps(OneInventory(items), ActionOps(0, slot, action)) == Some(OneInventory(after))
  {
    InventoryLookup(items);
    ActionEffect(OneInventory(items), 0, items, slot, action);
    InventorySet(items, after);
  }

  lemma {:induction false} InventoriesDiffer(xs: seq<Json>, ys: seq<Json>)
    requires xs != ys
    ensures OneInventory(xs) != OneInventory(ys)
  {
    InventoryLookup(xs);
    InventoryLookup(ys);
  }

  /** A field other than id, name and count is silently lost when an item is added. */
  lemma {:induction false} ExtraFieldIsLost()
    ensures var prev, next := OneInventory(Padded([Null, Null, Null])), OneInventory(Padded([Worn, Null, Null]));
            var got := OneInventory(Padded([Item(1001, 1), Null, Null]));
            ApplyOps(prev, DiffOps(prev, next, [])) == Some(got) && got != next
  {
    hide ApplyOps, DiffOps, OneInventory;
    var xs, ys, zs := Padded([Null, Null, Null]), Padded([Worn, Null, Null]), Padded([Item(1001, 1), Null, Null]);
    assert xs[0] == Null && ys[0] == Worn && zs[0] == Item(1001, 1);
    assert "used" in Worn.fields && "used" !in Item(1001, 1).fields;
    WornDiff();
    OneInventoryDiff(xs, ys);
    var action := Add(Int(1001), Str("Boots"), Int(1));
    assert ActionResult(xs, 0, action) == Some(zs) by {
      assert xs[0 := Item(1001, 1)] == zs;
    }
    ActionOnInventory(xs, 0, action, zs);
    InventoriesDiffer(zs, ys);
  }

  /** A record as the Agent builds it: the name is whatever JSON value the game client sent. */
  function Named(name: Json, count: int): Json {
    ItemRecord(Int(7), name, Int(count))
  }

  lemma {:induction false} NamedDistinct(name: Json, count: int, name': Json, count': int)
    ensures Named(name, count) == Named(name', count') <==> name == name' && count == count'
    ensures Named(name, count) != Null
  {
    assert Named(name, count).fields["name"] == name && Named(name, count).fields["count"] == Int(count);
    assert Named(name', count').fields["name"] == name' && Named(name', count').fields["count"] == Int(count');
  }

  lemma {:induction false} RenamedDiff()
    ensures var xs, ys := Padded([Named(Null, 1), Null, Null]), Padded([Named(Int(5), 2), Null, Null]);
            DiffOps(Arr(xs), Arr(ys), ItemsPath(0)) == ActionOps(0, 0, Recount(1))
  {
    hide DiffOps, ActionOps;
    var xs, ys := Padded([Named(Null, 1), Null, Null]), Padded([Named(Int(5), 2), Null, Null]);
    NamedDistinct(Null, 1, Int(5), 2);
    assert xs[0] == Named(Null, 1) && ys[0] == Named(Int(5), 2);
    NoSource(xs, ys, 0, 0);
    assert AfterAction(xs, ys, 0) == ys;
    OneSlotDiff(xs, ys, Recount(1));
  }

  /** Two names that are not strings pass for the same name, and the relay keeps the old one. */
  lemma {:induction false} RenamedItemKeepsName()
    ensures var prev, next := OneInventory(Padded([Named(Null, 1), Null, Null])), OneInventory(Padded([Named(Int(5), 2), Null, Null]));
            var got := OneInventory(Padded([Named(Null, 2), Null, Null]));
            ApplyOps(prev, DiffOps(prev, next, [])) == Some(got) && got != next
  {
    hide ApplyOps, DiffOps, OneInventory;
    var xs, ys := Padded([Named(Null, 1), Null, Null]), Padded([Named(Int(5), 2), Null, Null]);
    var zs := Padded([Named(Null, 2), Null, Null]);
    NamedDistinct(Null, 1, Int(5), 2);
    NamedDistinct(Null, 2, Int(5), 2);
    assert xs[0] == Named(Null, 1) && ys[0] == Named(Int(5), 2) && zs[0] == Named(Null, 2);
    RenamedDiff();
    OneInventoryDiff(xs, ys);
    assert ActionResult(xs, 0, Recount(1)) == Some(zs) by {
      assert Named(Null, 1).fields["count" := Int(2)] == Named(Null, 2).fields;
      assert xs[0 := Named(Null, 2)] == zs;
    }
    ActionOnInventory(xs, 0, Recount(1), zs);
    InventoriesDiffer(zs, ys);
  }

  // An inventory diff that gives up halfway.  Slot 0 is filled by swapping slots 0 and 2; slot 1
  // then holds something that is not an item, so the Agent falls back to comparing the old and the
  // new array element by element, although the relay's slot 2 already holds the other item.

  function Before(): seq<Json> { Padded([Item(1, 1), Null, Item(3, 1)]) }
  function Swapped(): seq<Json> { Padded([Item(3, 1), Null, Item(1, 1)]) }
  function Wanted(): seq<Json> { Padded([Item(3, 1), Int(5), Item(3, 2)]) }
  function Received(): seq<Json> { Padded([Item(3, 1), Int(5), Item(1, 2)]) }

  function SlotPath(slot: nat): Path { ItemsPath(0) + [Idx(slot)] }

  function FallbackOps(): seq<Json> {
    [SetOp(SlotPath(0) + [Key("id")], Int(3)),
     SetOp(SlotPath(1), Int(5)),
     SetOp(SlotPath(2) + [Key("count")], Int(2))]
  }

  lemma {:induction false} ItemsDistinct(id: int, count: int, id': int, count': int)
    ensures Item(id, count) == Item(id', count') <==> id == id' && count == count'
    ensures Item(id, count) != Null
  {
    assert Item(id, count).fields["id"] == Int(id) && Item(id, count).fields["count"] == Int(count);
    assert Item(id', count').fields["id"] == Int(id') && Item(id', count').fields["count"] == Int(count');
  }

  lemma {:induction false} GivesUpAfterSwap()
    ensures ItemDelta(0, Before(), Wanted(), 0) == (false, [SwapOp(0, 0, 2)])
  {
    var xs, ys, mid := Before(), Wanted(), Swapped();
    ItemsDistinct(1, 1, 3, 1);
    ItemsDistinct(3, 1, 3, 2);
    assert !Supplies(xs, ys, 0, 0) && !Supplies(xs, ys, 0, 1) && Supplies(xs, ys, 0, 2);
    assert FindSource(xs, ys, 0, 1) == FindSource(xs, ys, 0, 2);
    assert FindSource(xs, ys, 0, 0) == Some(2);
    assert ActionFor(xs, ys, 0) == Swap(2);
    assert AfterAction(xs, ys, 0) == mid;
    NoSource(mid, ys, 1, 0);
    assert ActionFor(mid, ys, 1) == Abort;
    assert ActionOps(0, 0, Swap(2)) + [] == [SwapOp(0, 0, 2)];
  }

  lemma {:induction false} OneFieldDiff(a: Json, b: Json, k: string, path: Path)
    requires a.Obj? && b.Obj? && a.fields.Keys == b.fields.Keys
    requires k in a.fields && a.fields[k] != b.fields[k] && b == Obj(a.fields[k := b.fields[k]])
    requires !b.fields[k].Obj? && !b.fields[k].Arr?
    ensures DiffOps(a, b, path) == [SetOp(path + [Key(k)], b.fields[k])]
  {
    var all := a.fields.Keys + b.fields.Keys;
    assert all == a.fields.Keys && a != b;
    var keys := SortedKeys.Sorted(all);
    assert k in keys;
    OneFieldKeys(a, b, k, keys, path);
  }

  lemma {:induction false} OneFieldKeys(a: Json, b: Json, k: string, keys: seq<string>, path: Path)
    requires a.Obj? && b.Obj? && k in a.fields && k in b.fields && a.fields[k] != b.fields[k]
    requires !b.fields[k].Obj? && !b.fields[k].Arr?
    requires forall i, j | 0 <= i < j < |keys| :: keys[i] != keys[j]
    requires forall j | j in keys :: j in a.fields && j in b.fields && (j != k ==> a.fields[j] == b.fields[j])
    ensures DiffKeys(a, b, keys, path) == if k in keys then [SetOp(path + [Key(k)], b.fields[k])] else []
  {
    if keys != [] {
      assert keys[0] in keys && forall j | j in keys[1..] :: j in keys;
      assert forall j :: j in keys <==> j == keys[0] || j in keys[1..];
      OneFieldKeys(a, b, k, keys[1..], path);
      var set' := [SetOp(path + [Key(k)], b.fields[k])];
      assert DiffKey(a, b, keys[0], path) == if keys[0] == k then set' else [];
      assert set' + [] == set' && [] + set' == set';
      if keys[0] == k {
        assert k !in keys[1..];
      }
    }
  }

  lemma {:induction false} EqualTail(xs: seq<Json>, ys: seq<Json>, i: nat, path: Path)
    requires |xs| == |ys| && i <= |xs| && forall j | i <= j < |xs| :: xs[j] == ys[j]
    ensures DiffElems(Arr(xs), Arr(ys), i, path) == []
    decreases |xs| - i
  {
    if i < |xs| {
      EqualTail(xs, ys, i + 1, path);
    }
  }

  lemma {:induction false} SlotDiffs()
    ensures DiffOps(Item(1, 1), Item(3, 1), SlotPath(0)) == [FallbackOps()[0]]
    ensures DiffOps(Null, Int(5), SlotPath(1)) == [FallbackOps()[1]]
    ensures DiffOps(Item(3, 1), Item(3, 2), SlotPath(2)) == [FallbackOps()[2]]
  {
    hide SetOp, DiffKeys, DiffElems, ItemPhase, SlotPath, SortedKeys.Sorted;
    assert DiffOps(Null, Int(5), SlotPath(1)) == [FallbackOps()[1]];
    hide DiffOps;
    ItemsDistinct(1, 1, 3, 1);
    ItemsDistinct(3, 1, 3, 2);
    assert Item(1, 1).fields["id" := Int(3)] == Item(3, 1).fields;
    assert Item(3, 1).fields["count" := Int(2)] == Item(3, 2).fields;
    OneFieldDiff(Item(1, 1), Item(3, 1), "id", SlotPath(0));
    OneFieldDiff(Item(3, 1), Item(3, 2), "count", SlotPath(2));
  }

  lemma {:induction false} ThreeElems(prev: Json, next: Json, path: Path, ops: seq<Json>)
    requires prev.Arr? && next.Arr? && Common(prev, next) >= 3 && |ops| == 3
    requires DiffElems(prev, next, 3, path) == []
    requires forall i | 0 <= i < 3 :: DiffOps(prev.elems[i], next.elems[i], path + [Idx(i)]) == [ops[i]]
    ensures DiffElems(prev, next, 0, path) == ops
  {
    hide DiffOps;
    assert DiffElems(prev, next, 2, path) == [ops[2]] + [];
    assert DiffElems(prev, next, 1, path) == [ops[1]] + DiffElems(prev, next, 2, path);
    assert DiffElems(prev, next, 0, path) == [ops[0]] + DiffElems(prev, next, 1, path);
  }

  lemma {:induction false} FallbackSlots(i: nat)
    requires i < 3
    ensures |Before()| == |Wanted()| == 7
    ensures DiffOps(Before()[i], Wanted()[i], ItemsPath(0) + [Idx(i)]) == [FallbackOps()[i]]
  {
    SlotDiffs();
    hide DiffOps, FallbackOps, Item;
    assert Before()[..3] == [Item(1, 1), Null, Item(3, 1)] && Wanted()[..3] == [Item(3, 1), Int(5), Item(3, 2)];
    assert Before()[i] == Before()[..3][i] && Wanted()[i] == Wanted()[..3][i];
    assert SlotPath(i) == ItemsPath(0) + [Idx(i)];
  }

  lemma {:induction false} FallbackElems()
    ensures DiffElems(Arr(Before()), Arr(Wanted()), 0, ItemsPath(0)) == FallbackOps()
  {
    FallbackSlots(0);
    EqualTail(Before(), Wanted(), 3, ItemsPath(0));
    hide DiffOps, DiffElems, Item, SetOp, ItemsPath, Before, Wanted;
    forall i | 0 <= i < 3 ensures DiffOps(Before()[i], Wanted()[i], ItemsPath(0) + [Idx(i)]) == [FallbackOps()[i]] {
      FallbackSlots(i);
    }
    ThreeElems(Arr(Before()), Arr(Wanted()), ItemsPath(0), FallbackOps());
  }

  lemma {:induction false} FallbackIsStale()
    ensures DiffOps(Arr(Before()), Arr(Wanted()), ItemsPath(0)) == [SwapOp(0, 0, 2)] + FallbackOps()
  {
    GivesUpAfterSwap();
    FallbackElems();
    hide ItemDelta, DiffElems, SwapOp, FallbackOps;
    var prev, next := Arr(Before()), Arr(Wanted());
    assert prev.elems[1] == Null && next.elems[1] == Int(5);
    assert [SwapOp(0, 0, 2)] + FallbackOps() + [] == [SwapOp(0, 0, 2)] + FallbackOps();
  }

  /** What the fallback operations do to the relay's swapped inventory. */
  lemma {:induction false} FallbackEffect()
    ensures ApplyOps(OneInventory(Swapped()), FallbackOps()) == Some(OneInventory(Received()))
  {
    hide ApplyOps, SetOp, SlotPath, OneInventory;
    SlotFieldSet(Swapped(), 0, "id", Int(3));
    var mid1 := Swapped()[0 := Obj(Item(3, 1).fields["id" := Int(3)])];
    assert mid1[0] == Item(3, 1) by { assert Item(3, 1).fields["id" := Int(3)] == Item(3, 1).fields; }
    assert mid1 == Swapped();
    SlotSet(Swapped(), 1, Int(5));
    var mid2 := Swapped()[1 := Int(5)];
    SlotFieldSet(mid2, 2, "count", Int(2));
    assert Item(1, 1).fields["count" := Int(2)] == Item(1, 2).fields;
    assert mid2[2 := Item(1, 2)] == Received();
    var ops := FallbackOps();
    assert ops == [ops[0]] + ([ops[1]] + [ops[2]]);
    ApplyJoin(OneInventory(Swapped()), [ops[0]], [ops[1]] + [ops[2]]);
    ApplyJoin(OneInventory(Swapped()), [ops[1]], [ops[2]]);
  }

  lemma {:induction false} SlotSet(items: seq<Json>, slot: nat, v: Json)
    requires slot < |items| && slot <= 6
    ensures ApplyOps(OneInventory(items), [SetOp(SlotPath(slot), v)]) == Some(OneInventory(items[slot := v]))
  {
    InventoryLookup(items);
    SetOpEffect(OneInventory(items), ItemsPath(0), Idx(slot), v);
    InventorySet(items, items[slot := v]);
  }

  lemma {:induction false} SlotFieldSet(items: seq<Json>, slot: nat, k: string, v: Json)
    requires slot < |items| && slot <= 6 && items[slot].Obj? && k in ["id", "count"]
    ensures ApplyOps(OneInventory(items), [SetOp(SlotPath(slot) + [Key(k)], v)]) ==
            Some(OneInventory(items[slot := Obj(items[slot].fields[k := v])]))
  {
    var root, path := OneInventory(items), ItemsPath(0);
    InventoryLookup(items);
    LookupJoin(root, path, [Idx(slot)]);
    SetOpEffect(root, SlotPath(slot), Key(k), v);
    SetAtJoin(root, path, [Idx(slot)], Obj(items[slot].fields[k := v]));
    InventorySet(items, items[slot := Obj(items[slot].fields[k := v])]);
  }

  /** After giving up halfway the delta is accepted, but the relay ends with a wrong inventory. */
  lemma {:induction false} HalfwayFallbackIsWrong()
    ensures var prev, next := OneInventory(Before()), OneInventory(Wanted());
            && ApplyOps(prev, DiffOps(prev, next, [])) == Some(OneInventory(Received()))
            && OneInventory(Received()) != next
  {
    hide ApplyOps, DiffOps, OneInventory;
    ItemsDistinct(1, 2, 3, 2);
    assert Before()[1] == Null && Wanted()[1] == Int(5) && Received()[2] == Item(1, 2) && Wanted()[2] == Item(3, 2);
    OneInventoryDiff(Before(), Wanted());
    FallbackIsStale();
    ApplyJoin(OneInventory(Before()), [SwapOp(0, 0, 2)], FallbackOps());
    assert ActionResult(Before(), 0, Swap(2)) == Some(Swapped()) by {
      assert Before()[0 := Before()[2]][2 := Before()[0]] == Swapped();
    }
    ActionOnInventory(Before(), 0, Swap(2), Swapped());
    FallbackEffect();
    InventoriesDiffer(Received(), Wanted());
  }

  /** An empty object key is refused: such a state can never be sent as a delta. */
  lemma {:induction false} EmptyKeyIsRefused()
    ensures ApplyOps(Obj(map[]), DiffOps(Obj(map[]), Obj(map["" := Null]), [])).None?
  {
    var prev, next := Obj(map[]), Obj(map["" := Null]);
    assert "" in next.fields;
    assert prev.fields.Keys + next.fields.Keys == {""};
    SortedOne("");
    var path: Path := [] + [Key("")];
    assert !ValidSeg(path[0]);
    assert DiffKeys(prev, next, [""], []) == [SetOp(path, Null)] + DiffKeys(prev, next, [""][1..], []);
    ApplyOne(prev, SetOp(path, Null));
    DecodeSet(path, Null);
  }
}
