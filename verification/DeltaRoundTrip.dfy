/**
 A condition a caller can read off the two states before sending: when the
 operations the Agent builds make the relay reproduce its new state.
 */
module DeltaRoundTrip {
  import opened Wrappers
  import opened Json
  import opened DeltaReceiver
  import opened DeltaSender
  import opened DeltaItems
  import opened DeltaEffect
  import SortedKeys

  predicate Handled(prev: Json, next: Json, path: Path)
    requires prev.Arr? && next.Arr?
  {
    ItemPhase(prev.elems, next.elems, path).0
  }

  /** The inventory diff gives up after it has already pushed operations. */
  predicate GaveUpHalfway(prev: Json, next: Json, path: Path)
    requires prev.Arr? && next.Arr?
  {
    !Handled(prev, next, path) && ItemPhase(prev.elems, next.elems, path).1 != []
  }

  /** Every change sits at a path within the relay's limits, and every inventory change fits.  Only for
      an inventory diff that gives up halfway its operations have to be followed to tell. */
  predicate Fits(prev: Json, next: Json, path: Path)
    decreases prev
  {
    if prev == next then true
    else if prev.Obj? && next.Obj? then
      && (forall k | k in prev.fields ::
            if k in next.fields then Fits(prev.fields[k], next.fields[k], path + [Key(k)])
            else ValidPath(path + [Key(k)]))
      && (forall k | k in next.fields && k !in prev.fields :: ValidPath(path + [Key(k)]))
    else if prev.Arr? && next.Arr? then
      if Handled(prev, next, path) then ItemsFit(prev.elems, next.elems, 0)
      else if GaveUpHalfway(prev, next, path) then Lands(prev, next, prev, path)
      else
        && (forall i | 0 <= i < Common(prev, next) :: Fits(prev.elems[i], next.elems[i], path + [Idx(i)]))
        && (|prev.elems| == |next.elems| || ValidPath(path))
    else ValidPath(path)
  }

  /** No inventory diff gives up after it has already pushed operations. */
  predicate Unmixed(prev: Json, next: Json, path: Path)
    decreases prev
  {
    if prev.Obj? && next.Obj? then
      forall k | k in prev.fields && k in next.fields :: Unmixed(prev.fields[k], next.fields[k], path + [Key(k)])
    else if prev.Arr? && next.Arr? then
      || Handled(prev, next, path)
      || (&& !GaveUpHalfway(prev, next, path)
          && forall i | 0 <= i < Common(prev, next) :: Unmixed(prev.elems[i], next.elems[i], path + [Idx(i)]))
    else true
  }

  ghost predicate SameVerdict(prev: Json, next: Json, path: Path) {
    Lands(prev, next, prev, path) <==> Fits(prev, next, path)
  }

  lemma {:induction false} ObjectVerdict(prev: Json, next: Json, path: Path)
    requires prev.Obj? && next.Obj? && prev != next
    requires forall k | k in prev.fields && k in next.fields :: SameVerdict(prev.fields[k], next.fields[k], path + [Key(k)])
    ensures SameVerdict(prev, next, path)
  {
    forall k | k in prev.fields && k in next.fields
      ensures KeyLands(prev, next, prev, k, path) <==> Fits(prev.fields[k], next.fields[k], path + [Key(k)])
    {
      OverwriteFits(prev.fields[k], next.fields[k], path + [Key(k)]);
      assert SameVerdict(prev.fields[k], next.fields[k], path + [Key(k)]);
    }
    hide Overwrites;
  }

  lemma {:induction false} OverwriteFits(prev: Json, next: Json, path: Path)
    ensures Overwrites(prev, next) ==> (Fits(prev, next, path) <==> ValidPath(path))
  {
  }

  /** An inventory diff that gives up without having pushed anything leaves the relay's array alone. */
  lemma {:induction false} NothingRelayed(p: nat, working: seq<Json>, next: seq<Json>, slot: nat)
    requires |working| == |next| == 7 && slot <= 7
    requires ItemDelta(p, working, next, slot) == (false, [])
    ensures Relayed(working, working, next, slot) == Some(working)
    decreases 7 - slot
  {
    if slot < 7 && !ActionFor(working, next, slot).Abort? {
      assert ActionOps(p, slot, ActionFor(working, next, slot)) == [];
      NothingRelayed(p, working, next, slot + 1);
    }
  }

  lemma {:induction false} ArrayLands(prev: Json, next: Json, path: Path)
    requires prev.Arr? && next.Arr? && prev != next && ItemPhase(prev.elems, next.elems, path) == (false, [])
    ensures Lands(prev, next, prev, path) <==>
            ElemsLand(prev, next, prev, 0, path) && EndLands(|prev.elems|, |next.elems|, |prev.elems|, path)
  {
    hide Lands, ElemsLand, EndLands, ItemDelta, Relayed;
    if InventoryChange(prev, next, path) {
      NothingRelayed(path[1].index, prev.elems, next.elems, 0);
      MixedLands(prev, next, path);
    } else {
      PlainArray(prev, next, prev, path);
    }
  }

  lemma {:induction false} ArrayVerdict(prev: Json, next: Json, path: Path)
    requires prev.Arr? && next.Arr? && prev != next && ItemPhase(prev.elems, next.elems, path) == (false, [])
    requires forall i | 0 <= i < Common(prev, next) :: SameVerdict(prev.elems[i], next.elems[i], path + [Idx(i)])
    ensures SameVerdict(prev, next, path)
  {
    ArrayLands(prev, next, path);
    hide Lands, ItemPhase, Overwrites;
    forall i | 0 <= i < Common(prev, next)
      ensures ChildLands(prev.elems[i], next.elems[i], prev, Idx(i), path) <==> Fits(prev.elems[i], next.elems[i], path + [Idx(i)])
    {
      assert SameVerdict(prev.elems[i], next.elems[i], path + [Idx(i)]);
    }
    hide ChildLands;
  }

  lemma {:induction false} HandledVerdict(prev: Json, next: Json, path: Path)
    requires prev.Arr? && next.Arr? && prev != next && Handled(prev, next, path)
    ensures SameVerdict(prev, next, path)
  {
    RelayedExact(path[1].index, prev.elems, next.elems, 0);
    WholeLands(prev, next, path);
    hide Lands, ItemDelta, Relayed, ItemsFit;
  }

  /** A change lands exactly when it fits. */
  lemma {:induction false} LandsIffFits(prev: Json, next: Json, path: Path)
    ensures SameVerdict(prev, next, path)
    decreases prev
  {
    if prev != next && prev.Obj? && next.Obj? {
      forall k | k in prev.fields && k in next.fields ensures SameVerdict(prev.fields[k], next.fields[k], path + [Key(k)]) {
        LandsIffFits(prev.fields[k], next.fields[k], path + [Key(k)]);
      }
      hide SameVerdict;
      ObjectVerdict(prev, next, path);
    } else if prev != next && prev.Arr? && next.Arr? {
      if Handled(prev, next, path) {
        HandledVerdict(prev, next, path);
      } else if !GaveUpHalfway(prev, next, path) {
        forall i | 0 <= i < Common(prev, next) ensures SameVerdict(prev.elems[i], next.elems[i], path + [Idx(i)]) {
          LandsIffFits(prev.elems[i], next.elems[i], path + [Idx(i)]);
        }
        hide SameVerdict;
        ArrayVerdict(prev, next, path);
      }
    }
  }

  /** The relay ends with exactly the Agent's new state if and only if every change sits at a path
      within its limits and every inventory change fits. */
  lemma {:induction false} ReproducesIffFits(prev: Json, next: Json)
    requires prev.Obj? && next.Obj?
    ensures ApplyOps(prev, DiffOps(prev, next, [])) == Some(next) <==> Fits(prev, next, [])
  {
    hide Lands, Fits, DiffOps, ApplyOps;
    ReproducesIffLands(prev, next);
    LandsIffFits(prev, next, []);
  }

  lemma {:induction false} ShapedUnmixed(prev: Json, next: Json, path: Path)
    requires Shaped(prev, path, false) && Shaped(next, path, false)
    ensures Unmixed(prev, next, path)
    decreases prev
  {
    if prev.Obj? && next.Obj? {
      forall k | k in prev.fields && k in next.fields
        ensures Unmixed(prev.fields[k], next.fields[k], path + [Key(k)])
      {
        ShapedUnmixed(prev.fields[k], next.fields[k], path + [Key(k)]);
      }
    } else if prev.Arr? && next.Arr? {
      if IsItemsPath(path) && |prev.elems| == |next.elems| == 7 {
        ShapedHandled(path[1].index, prev.elems, next.elems, 0);
      } else {
        forall i | 0 <= i < Common(prev, next)
          ensures Unmixed(prev.elems[i], next.elems[i], path + [Idx(i)])
        {
          ShapedUnmixed(prev.elems[i], next.elems[i], path + [Idx(i)]);
        }
      }
    }
  }

  lemma {:induction false} FittingKept(prev: Json, next: Json, path: Path)
    requires Shaped(prev, path, false) && Shaped(next, path, false) && Fits(prev, next, path)
    ensures Kept(prev, next, path)
    decreases prev
  {
    if prev.Obj? && next.Obj? {
      forall k | k in prev.fields && k in next.fields ensures Kept(prev.fields[k], next.fields[k], path + [Key(k)]) {
        if prev == next { FitsSame(prev.fields[k], path + [Key(k)]); }
        FittingKept(prev.fields[k], next.fields[k], path + [Key(k)]);
      }
    } else if InventoryChange(prev, next, path) {
      ShapedHandled(path[1].index, prev.elems, next.elems, 0);
      if prev == next { SameItemsFit(prev.elems, 0); }
      FittingItemsKept(prev.elems, next.elems, 0);
    } else if prev.Arr? && next.Arr? {
      forall i | 0 <= i < Common(prev, next) ensures Kept(prev.elems[i], next.elems[i], path + [Idx(i)]) {
        FittingKept(prev.elems[i], next.elems[i], path + [Idx(i)]);
      }
    }
  }

  lemma {:induction false} FitsSame(j: Json, path: Path)
    ensures Fits(j, j, path)
  {
  }

  lemma {:induction false} SameItemsFit(items: seq<Json>, slot: nat)
    requires |items| == 7 && slot <= 7
    ensures ItemsFit(items, items, slot)
    decreases 7 - slot
  {
    if slot < 7 {
      SameItemsFit(items, slot + 1);
    }
  }

  /** For states of the Agent's shape, a delta the relay accepts is right exactly when every item is
      kept: when no item is recounted whose name, not being a string, has changed. */
  lemma {:induction false} AcceptedRightIffKept(prev: Json, next: Json)
    requires prev.Obj? && next.Obj? && Shaped(prev, [], false) && Shaped(next, [], false)
    ensures var got := ApplyOps(prev, DiffOps(prev, next, []));
            got.Some? ==> (got.value == next <==> Kept(prev, next, []))
  {
    hide Lands, Fits, Shaped, Kept, DiffOps, ApplyOps;
    ReproducesIffFits(prev, next);
    if Fits(prev, next, []) {
      FittingKept(prev, next, []);
    }
    if Kept(prev, next, []) {
      KeptDeltaNeverWrong(prev, next);
    }
  }

  // ---------- operation kinds ----------

  /** Every operation begins with a string, so the relay never fails over its kind. */
  predicate Named(ops: seq<Json>) {
    forall i | 0 <= i < |ops| :: ops[i].Arr? && |ops[i].elems| >= 2 && ops[i].elems[0].Str?
  }

  lemma {:induction false} ItemDeltaNamed(p: nat, working: seq<Json>, next: seq<Json>, slot: nat)
    requires |working| == |next| == 7 && slot <= 7
    ensures Named(ItemDelta(p, working, next, slot).1)
    decreases 7 - slot
  {
    if slot < 7 {
      var action := ActionFor(working, next, slot);
      assert Named(ActionOps(p, slot, action));
      ItemDeltaNamed(p, AfterAction(working, next, slot), next, slot + 1);
    }
  }

  lemma {:induction false} DiffNamed(prev: Json, next: Json, path: Path)
    ensures Named(DiffOps(prev, next, path))
    decreases prev, 2, 0
  {
    hide ItemDelta;
    if prev != next && prev.Obj? && next.Obj? {
      DiffKeysNamed(prev, next, SortedKeys.Sorted(prev.fields.Keys + next.fields.Keys), path);
    } else if prev != next && prev.Arr? && next.Arr? {
      if IsItemsPath(path) && |prev.elems| == |next.elems| == 7 {
        ItemDeltaNamed(path[1].index, prev.elems, next.elems, 0);
      }
      DiffElemsNamed(prev, next, 0, path);
      assert Named(DiffTail(prev.elems, next.elems, path));
    }
  }

  lemma {:induction false} DiffKeysNamed(prev: Json, next: Json, keys: seq<string>, path: Path)
    requires prev.Obj? && next.Obj?
    ensures Named(DiffKeys(prev, next, keys, path))
    decreases prev, 1, |keys|
  {
    if keys != [] {
      var k := keys[0];
      if k in prev.fields && k in next.fields {
        DiffNamed(prev.fields[k], next.fields[k], path + [Key(k)]);
      }
      DiffKeysNamed(prev, next, keys[1..], path);
    }
  }

  lemma {:induction false} DiffElemsNamed(prev: Json, next: Json, i: nat, path: Path)
    requires prev.Arr? && next.Arr? && i <= Common(prev, next)
    ensures Named(DiffElems(prev, next, i, path))
    decreases prev, 1, Common(prev, next) - i
  {
    if i < Common(prev, next) {
      DiffNamed(prev.elems[i], next.elems[i], path + [Idx(i)]);
      DiffElemsNamed(prev, next, i + 1, path);
    }
  }

  lemma {:induction false} NamedNeverCrashes(root: Json, ops: seq<Json>)
    requires Named(ops)
    ensures !Crashes(root, ops)
    decreases |ops|
  {
    if ops != [] && Step(root, ops[0]).Some? {
      assert Named(ops[1..]);
      NamedNeverCrashes(Step(root, ops[0]).value, ops[1..]);
    }
  }
}
