/** What the relay makes of an inventory's operations, and when that is what the Agent wants. */
module DeltaItems {
  import opened Wrappers
  import opened Json
  import opened DeltaReceiver
  import opened DeltaWire
  import opened DeltaLaws
  import opened DeltaSender

  /** The relay will accept this slot's operation and end with exactly the wanted item. */
  predicate SlotFits(working: seq<Json>, next: seq<Json>, slot: nat)
    requires |working| == |next| == 7 && slot < 7
  {
    match ActionFor(working, next, slot)
    case Recount(_) =>
      var before, after := ItemCount64(working[slot]).value, ItemCount64(next[slot]).value;
      && 1 <= after <= 999 && -999 <= after - before <= 999
      && next[slot].fields == working[slot].fields["count" := Int(after)]
    case Add(id, name, count) => ValidItem(id, name, count) && next[slot] == ItemRecord(id, name, count)
    case _ => true
  }

  predicate ItemsFit(working: seq<Json>, next: seq<Json>, slot: nat)
    requires |working| == |next| == 7 && slot <= 7
    decreases 7 - slot
  {
    slot == 7 || (SlotFits(working, next, slot) && ItemsFit(AfterAction(working, next, slot), next, slot + 1))
  }

  /** What the relay keeps or writes besides the count is what is wanted: a recounted item has the
      fields it had, an added one has id, name and count only. */
  predicate SlotKept(working: seq<Json>, next: seq<Json>, slot: nat)
    requires |working| == |next| == 7 && slot < 7
  {
    match ActionFor(working, next, slot)
    case Recount(_) => next[slot].fields == working[slot].fields["count" := next[slot].fields["count"]]
    case Add(id, name, count) => next[slot] == ItemRecord(id, name, count)
    case Abort => false
    case _ => true
  }

  predicate ItemsKept(working: seq<Json>, next: seq<Json>, slot: nat)
    requires |working| == |next| == 7 && slot <= 7
    decreases 7 - slot
  {
    slot == 7 || (SlotKept(working, next, slot) && ItemsKept(AfterAction(working, next, slot), next, slot + 1))
  }

  // ---------- which operation a slot gets ----------

  /** The slot holds what is wanted in another, and is itself to change. */
  predicate CanSupply(working: seq<Json>, next: seq<Json>, slot: nat, source: int)
    requires |working| == |next| == 7 && slot < 7
  {
    0 <= source < 7 && source != slot && working[source] == next[slot] && next[source] != next[slot]
  }

  /** The count of a record, when it is an integer of 64 bits. */
  predicate HasCount(v: Json, count: int) {
    v.Obj? && "count" in v.fields && v.fields["count"] == Int(count)
    && -9_223_372_036_854_775_808 <= count <= 9_223_372_036_854_775_807
  }

  /** Two records with the same id and with the same name, where a name that is not a string is as good as none. */
  predicate SameItem(a: Json, b: Json) {
    && a.Obj? && b.Obj? && "id" in a.fields && "id" in b.fields && a.fields["id"] == b.fields["id"]
    && (("name" in a.fields && a.fields["name"].Str?) <==> ("name" in b.fields && b.fields["name"].Str?))
    && ("name" in a.fields && a.fields["name"].Str? ==> b.fields["name"] == a.fields["name"])
  }

  lemma {:induction false} FirstSource(working: seq<Json>, next: seq<Json>, slot: nat, from: nat)
    requires |working| == |next| == 7 && slot < 7 && from <= 7
    ensures var found := FindSource(working, next, slot, from);
            match found {
              case None => forall k | from <= k < 7 :: !CanSupply(working, next, slot, k)
              case Some(source) =>
                && CanSupply(working, next, slot, source) && from <= source
                && forall k | from <= k < source :: !CanSupply(working, next, slot, k)
            }
    decreases 7 - from
  {
    if from < 7 {
      FirstSource(working, next, slot, from + 1);
    }
  }

  lemma {:induction false} WrapsOnce(n: int)
    ensures -9_223_372_036_854_775_808 <= WrapI64(n) <= 9_223_372_036_854_775_807
    ensures (WrapI64(n) - n) % 18_446_744_073_709_551_616 == 0
    ensures -9_223_372_036_854_775_808 <= n <= 9_223_372_036_854_775_807 ==> WrapI64(n) == n
  {
  }

  /** A slot that is not as wanted is swapped with the first slot that can supply it; else the same item
      with another count is recounted, by the difference in 64 bits; else it is cleared, or the wanted
      record with an id is added, without a name as null and without a count as one. */
  lemma {:induction false} ActionReads(working: seq<Json>, next: seq<Json>, slot: nat)
    requires |working| == |next| == 7 && slot < 7
    ensures var have, want, action := working[slot], next[slot], ActionFor(working, next, slot);
            if have == want then action == Keep
            else if want != Null && exists k :: CanSupply(working, next, slot, k) then
              && action.Swap? && CanSupply(working, next, slot, action.source)
              && forall k :: CanSupply(working, next, slot, k) ==> action.source <= k
            else if SameItem(have, want) && exists a, b :: HasCount(have, a) && HasCount(want, b) && a != b then
              action == Recount(WrapI64(want.fields["count"].n - have.fields["count"].n))
            else if want == Null then action == Clear
            else if want.Obj? && "id" in want.fields then
              action == Add(want.fields["id"],
                            if "name" in want.fields then want.fields["name"] else Null,
                            if "count" in want.fields then want.fields["count"] else Int(1))
            else action == Abort
  {
    hide FindSource, WrapI64;
    var have, want := working[slot], next[slot];
    FirstSource(working, next, slot, 0);
    if FindSource(working, next, slot, 0).Some? {
      assert CanSupply(working, next, slot, FindSource(working, next, slot, 0).value);
    }
    CountsDiffer(have, want);
    SameIdentity(have, want);
    hide ItemCount64, ItemIdentity, HasCount, SameItem;
  }

  lemma {:induction false} SameIdentity(a: Json, b: Json)
    ensures SameItem(a, b) <==> ItemIdentity(a).Some? && ItemIdentity(a) == ItemIdentity(b)
  {
  }

  lemma {:induction false} CountsDiffer(have: Json, want: Json)
    ensures (exists a, b :: HasCount(have, a) && HasCount(want, b) && a != b) <==>
            ItemCount64(have).Some? && ItemCount64(want).Some? && WrapI64(ItemCount64(want).value - ItemCount64(have).value) != 0
    ensures ItemCount64(have).Some? ==> have.Obj? && "count" in have.fields && have.fields["count"] == Int(ItemCount64(have).value)
    ensures ItemCount64(want).Some? ==> want.Obj? && "count" in want.fields && want.fields["count"] == Int(ItemCount64(want).value)
  {
    if ItemCount64(have).Some? && ItemCount64(want).Some? {
      assert HasCount(have, ItemCount64(have).value) && HasCount(want, ItemCount64(want).value);
    }
  }

  // ---------- what the relay keeps ----------

  /** A slot as the Agent builds it: empty, or an id/name/count record.  The Agent copies the name
      whatever its type; `named` says that it is a string. */
  predicate SlotShaped(v: Json, named: bool) {
    v == Null || (v.Obj? && v.fields.Keys == {"id", "name", "count"} && (named ==> v.fields["name"].Str?))
  }

  /** What an inventory becomes when the relay runs one action's operations on it. */
  function ActionResult(items: seq<Json>, slot: nat, action: SlotAction): (after: Option<seq<Json>>)
    requires |items| == 7 && slot < 7
    requires action.Swap? ==> action.source < 7
    ensures after.Some? ==> |after.value| == 7
    ensures after.Some? ==> forall j | 0 <= j < 7 && j != slot && action != Swap(j) :: after.value[j] == items[j]
  {
    match action
    case Keep => Some(items)
    case Abort => Some(items)
    case Swap(source) => EditItems(items, ItemSwap(slot, source))
    case Clear => EditItems(items, ItemRemove(slot))
    case Add(id, name, count) =>
      if ValidItem(id, name, count) then EditItems(items, ItemAdd(slot, ItemRecord(id, name, count))) else None
    case Recount(delta) => if -999 <= delta <= 999 then EditItems(items, ItemCount(slot, delta)) else None
  }

  lemma {:induction false} ItemEditStep(root: Json, p: nat, items: seq<Json>, op: Json, edit: Edit)
    requires |items| == 7 && Lookup(root, ItemsPath(p)) == Some(Arr(items))
    requires Decode(op) == Some(EditAt(ItemsPath(p), edit))
    requires edit.ItemAdd? || edit.ItemCount? || edit.ItemSwap? || edit.ItemRemove?
    ensures ApplyOps(root, [op]) == InventoryAt(root, p, EditItems(items, edit))
  {
    ApplyOne(root, op);
  }

  function InventoryAt(root: Json, p: nat, items: Option<seq<Json>>): Option<Json>
    requires Lookup(root, ItemsPath(p)).Some?
  {
    match items
    case None => None
    case Some(xs) => Some(SetAt(root, ItemsPath(p), Arr(xs)))
  }

  lemma {:induction false} ActionEffect(root: Json, p: nat, items: seq<Json>, slot: nat, action: SlotAction)
    requires p < 10 && |items| == 7 && slot < 7
    requires Lookup(root, ItemsPath(p)) == Some(Arr(items))
    requires action.Swap? ==> action.source < 7 && action.source != slot
    requires action.Recount? ==> action.delta != 0
    ensures ApplyOps(root, ActionOps(p, slot, action)) == InventoryAt(root, p, ActionResult(items, slot, action))
  {
    match action
    case Keep => SetAtSame(root, ItemsPath(p));
    case Abort => SetAtSame(root, ItemsPath(p));
    case Swap(source) => ItemEditStep(root, p, items, SwapOp(p, slot, source), ItemSwap(slot, source));
    case Clear => ItemEditStep(root, p, items, ClearOp(p, slot), ItemRemove(slot));
    case Add(id, name, count) =>
      if ValidItem(id, name, count) {
        ItemEditStep(root, p, items, AddOp(p, slot, id, name, count), ItemAdd(slot, ItemRecord(id, name, count)));
      } else {
        ApplyOne(root, AddOp(p, slot, id, name, count));
      }
    case Recount(delta) =>
      if -999 <= delta <= 999 {
        ItemEditStep(root, p, items, CountOp(p, slot, delta), ItemCount(slot, delta));
      } else {
        ApplyOne(root, CountOp(p, slot, delta));
      }
  }

  /** While the relay agrees with the Agent's picture, one action keeps them agreed exactly when it
      fits; otherwise the slot is wrong, or the operation is refused. */
  lemma {:induction false} SlotExact(working: seq<Json>, next: seq<Json>, slot: nat)
    requires |working| == |next| == 7 && slot < 7 && !ActionFor(working, next, slot).Abort?
    ensures AfterAction(working, next, slot)[slot] == next[slot]
    ensures var got := ActionResult(working, slot, ActionFor(working, next, slot));
            && (SlotFits(working, next, slot) ==> got == Some(AfterAction(working, next, slot)))
            && (!SlotFits(working, next, slot) && got.Some? ==> got.value[slot] != next[slot])
            && (got.Some? ==> (SlotKept(working, next, slot) <==> SlotFits(working, next, slot)))
  {
    var got := ActionResult(working, slot, ActionFor(working, next, slot));
    match ActionFor(working, next, slot)
    case Recount(delta) =>
      var before, after := working[slot], next[slot];
      if got.Some? {
        var count := got.value[slot].fields["count"];
        assert count == after.fields["count"];
      }
    case _ =>
  }

  /** The relay's inventory after the operations the Agent pushes for the slots from `slot` on, whether
      the Agent gets to the last slot or gives up before. */
  function Relayed(working: seq<Json>, actual: seq<Json>, next: seq<Json>, slot: nat): (after: Option<seq<Json>>)
    requires |working| == |actual| == |next| == 7 && slot <= 7
    ensures after.Some? ==> |after.value| == 7
    decreases 7 - slot
  {
    if slot == 7 || ActionFor(working, next, slot).Abort? then Some(actual)
    else match ActionResult(actual, slot, ActionFor(working, next, slot))
      case None => None
      case Some(mid) => Relayed(AfterAction(working, next, slot), mid, next, slot + 1)
  }

  lemma {:induction false} ItemsEffect(root: Json, p: nat, working: seq<Json>, actual: seq<Json>, next: seq<Json>, slot: nat)
    requires p < 10 && |working| == |actual| == |next| == 7 && slot <= 7
    requires Lookup(root, ItemsPath(p)) == Some(Arr(actual))
    ensures ApplyOps(root, ItemDelta(p, working, next, slot).1) == InventoryAt(root, p, Relayed(working, actual, next, slot))
    decreases 7 - slot
  {
    hide Step, ActionResult;
    var path := ItemsPath(p);
    if slot == 7 || ActionFor(working, next, slot).Abort? {
      SetAtSame(root, path);
    } else {
      var action, after := ActionFor(working, next, slot), AfterAction(working, next, slot);
      ApplyJoin(root, ActionOps(p, slot, action), ItemDelta(p, after, next, slot + 1).1);
      ActionEffect(root, p, actual, slot, action);
      var mid := ActionResult(actual, slot, action);
      if mid.Some? {
        LookupSetAt(root, path, Arr(mid.value));
        ItemsEffect(SetAt(root, path, Arr(mid.value)), p, after, mid.value, next, slot + 1);
        var got := Relayed(after, mid.value, next, slot + 1);
        if got.Some? {
          SetAtTwice(root, path, Arr(mid.value), Arr(got.value));
        }
      }
    }
  }

  /** Slots the Agent has dealt with are right in its picture and are never touched again. */
  lemma {:induction false} SettledSlots(working: seq<Json>, actual: seq<Json>, next: seq<Json>, slot: nat)
    requires |working| == |actual| == |next| == 7 && slot < 7 && !ActionFor(working, next, slot).Abort?
    requires forall j | 0 <= j < slot :: working[j] == next[j]
    ensures forall j | 0 <= j <= slot :: AfterAction(working, next, slot)[j] == next[j]
    ensures var mid := ActionResult(actual, slot, ActionFor(working, next, slot));
            mid.Some? ==> forall j | 0 <= j < slot :: mid.value[j] == actual[j]
  {
  }

  lemma {:induction false} RelayedKeeps(working: seq<Json>, actual: seq<Json>, next: seq<Json>, slot: nat)
    requires |working| == |actual| == |next| == 7 && slot <= 7
    requires forall j | 0 <= j < slot :: working[j] == next[j]
    ensures var got := Relayed(working, actual, next, slot);
            got.Some? ==> forall j | 0 <= j < slot :: got.value[j] == actual[j]
    decreases 7 - slot
  {
    hide ActionResult, AfterAction, ActionFor;
    if slot < 7 && !ActionFor(working, next, slot).Abort? {
      SettledSlots(working, actual, next, slot);
      var mid := ActionResult(actual, slot, ActionFor(working, next, slot));
      if mid.Some? {
        RelayedKeeps(AfterAction(working, next, slot), mid.value, next, slot + 1);
      }
    }
  }

  /** Starting from agreement and getting to the last slot, the relay ends with `next` exactly when
      every slot fits; when every item is kept it never ends with anything else. */
  lemma {:induction false} RelayedExact(p: nat, working: seq<Json>, next: seq<Json>, slot: nat)
    requires |working| == |next| == 7 && slot <= 7
    requires forall j | 0 <= j < slot :: working[j] == next[j]
    requires ItemDelta(p, working, next, slot).0
    ensures Relayed(working, working, next, slot) == Some(next) <==> ItemsFit(working, next, slot)
    ensures ItemsKept(working, next, slot) && Relayed(working, working, next, slot).Some?
            ==> Relayed(working, working, next, slot).value == next
    decreases 7 - slot
  {
    if slot == 7 {
      assert working == next;
    } else {
      SlotExact(working, next, slot);
      SettledSlots(working, working, next, slot);
      hide ActionResult, AfterAction, ActionFor, SlotFits, SlotKept;
      var after, mid := AfterAction(working, next, slot), ActionResult(working, slot, ActionFor(working, next, slot));
      if SlotFits(working, next, slot) {
        RelayedExact(p, after, next, slot + 1);
      } else if mid.Some? {
        RelayedKeeps(after, mid.value, next, slot + 1);
      }
    }
  }

  lemma {:induction false} ShapedStays(working: seq<Json>, next: seq<Json>, slot: nat, named: bool)
    requires |working| == |next| == 7 && slot < 7
    ensures (forall j | 0 <= j < 7 :: SlotShaped(working[j], named) && SlotShaped(next[j], named))
            ==> forall j | 0 <= j < 7 :: SlotShaped(AfterAction(working, next, slot)[j], named)
  {
    hide SlotShaped;
  }

  /** With records the Agent never gives up. */
  lemma {:induction false} ShapedHandled(p: nat, working: seq<Json>, next: seq<Json>, slot: nat)
    requires |working| == |next| == 7 && slot <= 7
    requires forall j | 0 <= j < 7 :: SlotShaped(next[j], false)
    ensures ItemDelta(p, working, next, slot).0
    decreases 7 - slot
  {
    if slot < 7 {
      ShapedHandled(p, AfterAction(working, next, slot), next, slot + 1);
    }
  }

  lemma {:induction false} KeptHandled(p: nat, working: seq<Json>, next: seq<Json>, slot: nat)
    requires |working| == |next| == 7 && slot <= 7 && ItemsKept(working, next, slot)
    ensures ItemDelta(p, working, next, slot).0
    decreases 7 - slot
  {
    if slot < 7 {
      hide AfterAction;
      KeptHandled(p, AfterAction(working, next, slot), next, slot + 1);
    }
  }

  /** Records whose names are strings are always kept: the Agent recounts only what has the same id and name. */
  lemma {:induction false} NamedSlotKept(working: seq<Json>, next: seq<Json>, slot: nat)
    requires |working| == |next| == 7 && slot < 7
    requires SlotShaped(working[slot], true) && SlotShaped(next[slot], true)
    ensures SlotKept(working, next, slot)
  {
    var before, after := working[slot], next[slot];
    match ActionFor(working, next, slot)
    case Recount(_) =>
      assert after.fields == before.fields["count" := after.fields["count"]];
    case Add(id, name, count) =>
      assert after.fields == map["id" := id, "name" := name, "count" := count];
    case _ =>
  }

  lemma {:induction false} NamedItemsKept(working: seq<Json>, next: seq<Json>, slot: nat)
    requires |working| == |next| == 7 && slot <= 7
    requires forall j | 0 <= j < 7 :: SlotShaped(working[j], true) && SlotShaped(next[j], true)
    ensures ItemsKept(working, next, slot)
    decreases 7 - slot
  {
    if slot < 7 {
      NamedSlotKept(working, next, slot);
      ShapedStays(working, next, slot, true);
      hide SlotShaped, SlotKept, AfterAction;
      NamedItemsKept(AfterAction(working, next, slot), next, slot + 1);
    }
  }

  lemma {:induction false} FittingItemsKept(working: seq<Json>, next: seq<Json>, slot: nat)
    requires |working| == |next| == 7 && slot <= 7 && ItemsFit(working, next, slot)
    requires forall j | 0 <= j < 7 :: SlotShaped(next[j], false)
    ensures ItemsKept(working, next, slot)
    decreases 7 - slot
  {
    if slot < 7 {
      assert SlotKept(working, next, slot);
      FittingItemsKept(AfterAction(working, next, slot), next, slot + 1);
    }
  }
}
