/**
 What the Agent's operations for a change from one state to another do to any
 state the relay may hold: exactly when they leave it with the new state.
 */
module DeltaEffect {
  import opened Wrappers
  import opened Json
  import opened DeltaReceiver
  import opened DeltaWire
  import opened DeltaLaws
  import opened DeltaSender
  import opened DeltaItems
  import SortedKeys

  // ---------- the condition ----------

  /** The change is a single write of the new value. */
  predicate Overwrites(prev: Json, next: Json) {
    prev != next && !(prev.Obj? && next.Obj?) && !(prev.Arr? && next.Arr?)
  }

  /** The relay's array after the inventory operations of the diff, and whether they are all of it. */
  function AfterItems(prev: seq<Json>, next: seq<Json>, cur: seq<Json>, path: Path): Option<(bool, seq<Json>)> {
    if !IsItemsPath(path) || !(|prev| == |next| == |cur| == 7) then Some((false, cur))
    else match Relayed(prev, cur, next, 0)
      case None => None
      case Some(after) => Some((ItemDelta(path[1].index, prev, next, 0).0, after))
  }

  /** The appended or cut end comes out right. */
  predicate EndLands(prev: nat, next: nat, cur: nat, path: Path) {
    if next > prev then cur == prev && ValidPath(path)
    else if next < prev then cur >= next && ValidPath(path)
    else cur == next
  }

  /** Where the diff from `prev` to `next` is silent, `cur` already has what `next` has; where it writes,
      the path is within the relay's limits and leads somewhere in `cur`. */
  predicate Lands(prev: Json, next: Json, cur: Json, path: Path)
    decreases prev
  {
    if prev == next then cur == next
    else if prev.Obj? && next.Obj? then
      && cur.Obj?
      && (forall k | k in prev.fields && k in next.fields ::
            if Overwrites(prev.fields[k], next.fields[k]) then ValidPath(path + [Key(k)])
            else k in cur.fields && Lands(prev.fields[k], next.fields[k], cur.fields[k], path + [Key(k)]))
      && (forall k | k in prev.fields && k !in next.fields :: k in cur.fields && ValidPath(path + [Key(k)]))
      && (forall k | k in next.fields && k !in prev.fields :: ValidPath(path + [Key(k)]))
      && (forall k | k in cur.fields :: k in prev.fields || k in next.fields)
    else if prev.Arr? && next.Arr? then
      && cur.Arr?
      && match AfterItems(prev.elems, next.elems, cur.elems, path)
         case None => false
         case Some((whole, after)) =>
           if whole then after == next.elems
           else
             && EndLands(|prev.elems|, |next.elems|, |after|, path)
             && forall i | 0 <= i < Common(prev, next) ::
                  i < |after| && Lands(prev.elems[i], next.elems[i], after[i], path + [Idx(i)])
    else ValidPath(path)
  }

  predicate InventoryChange(prev: Json, next: Json, path: Path) {
    prev.Arr? && next.Arr? && IsItemsPath(path) && |prev.elems| == |next.elems| == 7
  }

  /** Every changed inventory is dealt with slot by slot to the end, and its items are kept. */
  predicate Kept(prev: Json, next: Json, path: Path)
    decreases prev
  {
    if prev.Obj? && next.Obj? then
      forall k | k in prev.fields && k in next.fields :: Kept(prev.fields[k], next.fields[k], path + [Key(k)])
    else if InventoryChange(prev, next, path) then ItemsKept(prev.elems, next.elems, 0)
    else if prev.Arr? && next.Arr? then
      forall i | 0 <= i < Common(prev, next) :: Kept(prev.elems[i], next.elems[i], path + [Idx(i)])
    else true
  }

  /** Every seven-slot inventory holds only empty slots and id/name/count records, as the Agent builds
      them; `named` says that the names are strings. */
  predicate Shaped(j: Json, path: Path, named: bool)
    decreases j
  {
    match j
    case Obj(fields) => forall k | k in fields :: Shaped(fields[k], path + [Key(k)], named)
    case Arr(xs) =>
      && (IsItemsPath(path) && |xs| == 7 ==> forall i | 0 <= i < 7 :: SlotShaped(xs[i], named))
      && forall i | 0 <= i < |xs| :: Shaped(xs[i], path + [Idx(i)], named)
    case _ => true
  }

  // ---------- single operations ----------

  function SubtreeAt(root: Json, path: Path, subtree: Option<Json>): Option<Json>
    requires Lookup(root, path).Some?
  {
    match subtree
    case None => None
    case Some(v) => Some(SetAt(root, path, v))
  }

  predicate SameKey(a: Json, b: Json, k: string) {
    Child(a, Key(k)) == Child(b, Key(k))
  }

  /** The operation that writes `v` at a child of an existing object or over an existing array element. */
  lemma {:induction false} SetOpEffect(root: Json, path: Path, s: Seg, v: Json)
    requires Lookup(root, path).Some?
    requires var node := Lookup(root, path).value; (s.Key? && node.Obj?) || Child(node, s).Some?
    ensures ApplyOps(root, [SetOp(path + [s], v)]) ==
            if ValidPath(path + [s]) then Some(SetAt(root, path, EditNode(Lookup(root, path).value, Put(s, v)).value)) else None
  {
    ApplyOne(root, SetOp(path + [s], v));
    DecodeSet(path + [s], v);
    assert (path + [s])[..|path|] == path;
  }

  lemma {:induction false} SetOpStep(root: Json, path: Path, s: Seg, v: Json)
    ensures Step(root, SetOp(path + [s], v)) == if ValidPath(path + [s]) then EditPath(root, path, Put(s, v)) else None
  {
    hide EditPath, SetOp;
    DecodeSet(path + [s], v);
    assert (path + [s])[..|path|] == path;
  }

  lemma {:induction false} DeleteOpStep(root: Json, path: Path, s: Seg)
    ensures Step(root, DeleteOp(path + [s])) == if ValidPath(path + [s]) then EditPath(root, path, Remove(s)) else None
  {
    hide EditPath, DeleteOp;
    DecodeDelete(path + [s]);
    assert (path + [s])[..|path|] == path;
  }

  lemma {:induction false} AppendStep(root: Json, path: Path, vs: seq<Json>)
    ensures Step(root, AppendOp(path, vs)) == if ValidPath(path) then EditPath(root, path, Extend(vs)) else None
  {
    hide EditPath, AppendOp;
    DecodeAppend(path, vs);
  }

  lemma {:induction false} TruncateStep(root: Json, path: Path, n: nat)
    ensures Step(root, TruncateOp(path, n)) == if ValidPath(path) then EditPath(root, path, Truncate(n)) else None
  {
    hide EditPath, TruncateOp;
    DecodeTruncate(path, n);
  }

  predicate KeyKept(prev: Json, next: Json, k: string, path: Path)
    requires prev.Obj? && next.Obj?
  {
    k in prev.fields && k in next.fields ==>
      Kept(prev.fields[k], next.fields[k], path + [Key(k)])
  }

  // ---------- changes below something the relay does not have ----------

  ghost predicate AllRefused(root: Json, ops: seq<Json>) {
    forall i | 0 <= i < |ops| :: Step(root, ops[i]).None?
  }

  lemma {:induction false} RefusedJoin(root: Json, xs: seq<Json>, ys: seq<Json>)
    requires AllRefused(root, xs) && AllRefused(root, ys)
    ensures AllRefused(root, xs + ys)
  {
    hide Step;
  }

  lemma {:induction false} NothingBelow(root: Json, anchor: Path, path: Path)
    requires Lookup(root, anchor).None? && anchor <= path
    ensures Lookup(root, path).None?
  {
    LookupJoin(root, anchor, path[|anchor|..]);
    assert path == anchor + path[|anchor|..];
  }

  /** Writes below, and appends and cuts at, a place the relay does not have are refused. */
  lemma {:induction false} WriteRefused(root: Json, anchor: Path, path: Path, v: Json)
    requires Lookup(root, anchor).None? && anchor <= path && anchor != path
    ensures AllRefused(root, [SetOp(path, v)]) && AllRefused(root, [DeleteOp(path)])
  {
    var n := |path| - 1;
    assert path == path[..n] + [path[n]] && anchor <= path[..n];
    NothingBelow(root, anchor, path[..n]);
    SetOpStep(root, path[..n], path[n], v);
    DeleteOpStep(root, path[..n], path[n]);
    hide Step, SetOp, DeleteOp;
  }

  lemma {:induction false} TailRefused(root: Json, anchor: Path, path: Path, prev: seq<Json>, next: seq<Json>)
    requires Lookup(root, anchor).None? && anchor <= path
    ensures AllRefused(root, DiffTail(prev, next, path))
  {
    NothingBelow(root, anchor, path);
    hide Step, AppendOp, TruncateOp;
    if |next| > |prev| {
      AppendStep(root, path, next[|prev|..]);
    } else if |next| < |prev| {
      TruncateStep(root, path, |next|);
    }
  }

  /** Below an inventory there are only plain changes. */
  lemma {:induction false} DeepIsPlain(prev: seq<Json>, next: seq<Json>, path: Path)
    requires |path| > 3
    ensures ItemPhase(prev, next, path) == (false, [])
  {
  }

  lemma {:induction false} DiffRefused(root: Json, anchor: Path, prev: Json, next: Json, path: Path)
    requires Lookup(root, anchor).None? && anchor <= path && |path| > 3
    requires anchor == path ==> !Overwrites(prev, next)
    ensures AllRefused(root, DiffOps(prev, next, path))
    decreases prev, 2, 0
  {
    hide Step, AllRefused;
    if prev == next {
      NoneRefused(root);
    } else if prev.Obj? && next.Obj? {
      KeysRefused(root, anchor, prev, next, SortedKeys.Sorted(prev.fields.Keys + next.fields.Keys), path);
    } else if prev.Arr? && next.Arr? {
      DeepIsPlain(prev.elems, next.elems, path);
      ElemsRefused(root, anchor, prev, next, 0, path);
      TailRefused(root, anchor, path, prev.elems, next.elems);
      RefusedJoin(root, DiffElems(prev, next, 0, path), DiffTail(prev.elems, next.elems, path));
      assert [] + DiffElems(prev, next, 0, path) == DiffElems(prev, next, 0, path);
    } else {
      WriteRefused(root, anchor, path, next);
    }
  }

  lemma {:induction false} NoneRefused(root: Json)
    ensures AllRefused(root, [])
  {
  }

  lemma {:induction false} KeysRefused(root: Json, anchor: Path, prev: Json, next: Json, keys: seq<string>, path: Path)
    requires Lookup(root, anchor).None? && anchor <= path && |path| > 3 && prev.Obj? && next.Obj?
    ensures AllRefused(root, DiffKeys(prev, next, keys, path))
    decreases prev, 1, |keys|
  {
    hide Step, AllRefused, DiffOps;
    NoneRefused(root);
    if keys != [] {
      var k, below := keys[0], path + [Key(keys[0])];
      if k in prev.fields && k in next.fields {
        DiffRefused(root, anchor, prev.fields[k], next.fields[k], below);
      } else if k in next.fields {
        WriteRefused(root, anchor, below, next.fields[k]);
      } else if k in prev.fields {
        WriteRefused(root, anchor, below, Null);
      }
      KeysRefused(root, anchor, prev, next, keys[1..], path);
      RefusedJoin(root, DiffKey(prev, next, k, path), DiffKeys(prev, next, keys[1..], path));
    }
  }

  lemma {:induction false} ElemsRefused(root: Json, anchor: Path, prev: Json, next: Json, i: nat, path: Path)
    requires Lookup(root, anchor).None? && anchor <= path && |path| > 3
    requires prev.Arr? && next.Arr? && i <= Common(prev, next)
    ensures AllRefused(root, DiffElems(prev, next, i, path))
    decreases prev, 1, Common(prev, next) - i
  {
    hide Step, AllRefused, DiffOps;
    NoneRefused(root);
    if i < Common(prev, next) {
      DiffRefused(root, anchor, prev.elems[i], next.elems[i], path + [Idx(i)]);
      ElemsRefused(root, anchor, prev, next, i + 1, path);
      RefusedJoin(root, DiffOps(prev.elems[i], next.elems[i], path + [Idx(i)]), DiffElems(prev, next, i + 1, path));
    }
  }

  /** A change always has operations. */
  lemma {:induction false} ChangeHasOps(prev: Json, next: Json, path: Path)
    requires prev != next && |path| > 3
    ensures DiffOps(prev, next, path) != []
    decreases prev, 2, 0
  {
    if prev.Obj? && next.Obj? {
      var keys := SortedKeys.Sorted(prev.fields.Keys + next.fields.Keys);
      var k := DifferingKey(prev, next);
      assert k in keys;
      KeysHaveOps(prev, next, k, keys, path);
    } else if prev.Arr? && next.Arr? {
      DeepIsPlain(prev.elems, next.elems, path);
      if |prev.elems| == |next.elems| {
        ElemsHaveOps(prev, next, 0, path);
      }
    }
  }

  lemma {:induction false} DifferingKey(a: Json, b: Json) returns (k: string)
    requires a.Obj? && b.Obj? && a != b
    ensures (k in a.fields || k in b.fields) && !SameKey(a, b, k)
  {
    if s: string :| s in a.fields && !SameKey(a, b, s) {
      k := s;
    } else {
      k :| k in b.fields && !SameKey(a, b, k);
    }
  }

  lemma {:induction false} KeysHaveOps(prev: Json, next: Json, k: string, keys: seq<string>, path: Path)
    requires |path| > 3 && prev.Obj? && next.Obj? && k in keys && !SameKey(prev, next, k)
    requires k in prev.fields || k in next.fields
    ensures DiffKeys(prev, next, keys, path) != []
    decreases prev, 1, |keys|
  {
    hide DiffOps;
    if k == keys[0] {
      if k in prev.fields && k in next.fields {
        ChangeHasOps(prev.fields[k], next.fields[k], path + [Key(k)]);
      }
      assert DiffKey(prev, next, k, path) != [];
    } else {
      KeysHaveOps(prev, next, k, keys[1..], path);
    }
  }

  lemma {:induction false} ElemsHaveOps(prev: Json, next: Json, i: nat, path: Path)
    requires |path| > 3 && prev.Arr? && next.Arr? && |prev.elems| == |next.elems| && i <= |prev.elems|
    requires prev.elems[i..] != next.elems[i..]
    ensures DiffElems(prev, next, i, path) != []
    decreases prev, 1, Common(prev, next) - i
  {
    hide DiffOps;
    assert i < |prev.elems|;
    if prev.elems[i] != next.elems[i] {
      ChangeHasOps(prev.elems[i], next.elems[i], path + [Idx(i)]);
    } else {
      assert prev.elems[i..] == [prev.elems[i]] + prev.elems[i + 1..] && next.elems[i..] == [next.elems[i]] + next.elems[i + 1..];
      ElemsHaveOps(prev, next, i + 1, path);
    }
  }

  /** A change inside something the relay does not have is refused. */
  lemma {:induction false} AbsentEffect(root: Json, prev: Json, next: Json, path: Path)
    requires Lookup(root, path).None? && |path| > 3 && prev != next && !Overwrites(prev, next)
    ensures ApplyOps(root, DiffOps(prev, next, path)).None?
  {
    DiffRefused(root, path, prev, next, path);
    ChangeHasOps(prev, next, path);
    hide DiffOps;
    assert Step(root, DiffOps(prev, next, path)[0]).None?;
  }

  // ---------- changes inside something of another kind ----------

  lemma {:induction false} ChildRefused(root: Json, prev: Json, next: Json, cur: Json, s: Seg, path: Path)
    requires Lookup(root, path) == Some(cur) && Child(cur, s).None? && |path| >= 3
    requires s.Key? ==> !cur.Obj?
    ensures AllRefused(root, DiffOps(prev, next, path + [s]))
    ensures AllRefused(root, [SetOp(path + [s], next)]) && AllRefused(root, [DeleteOp(path + [s])])
  {
    var below := path + [s];
    LookupJoin(root, path, [s]);
    assert Lookup(cur, [s]) == Child(cur, s);
    SetOpStep(root, path, s, next);
    DeleteOpStep(root, path, s);
    hide Step, SetOp, DeleteOp, Lookup, DiffKeys, ItemPhase, DiffElems, DiffTail;
    if Overwrites(prev, next) {
      assert DiffOps(prev, next, below) == [SetOp(below, next)];
    } else {
      DiffRefused(root, below, prev, next, below);
    }
  }

  lemma {:induction false} KeysRefusedIn(root: Json, prev: Json, next: Json, cur: Json, keys: seq<string>, path: Path)
    requires Lookup(root, path) == Some(cur) && !cur.Obj? && |path| > 3 && prev.Obj? && next.Obj?
    ensures AllRefused(root, DiffKeys(prev, next, keys, path))
    decreases |keys|
  {
    hide Step, AllRefused, DiffOps;
    NoneRefused(root);
    if keys != [] {
      var k := keys[0];
      if k in prev.fields && k in next.fields {
        ChildRefused(root, prev.fields[k], next.fields[k], cur, Key(k), path);
      } else {
        ChildRefused(root, Null, if k in next.fields then next.fields[k] else Null, cur, Key(k), path);
      }
      KeysRefusedIn(root, prev, next, cur, keys[1..], path);
      RefusedJoin(root, DiffKey(prev, next, k, path), DiffKeys(prev, next, keys[1..], path));
    }
  }

  lemma {:induction false} ElemsRefusedIn(root: Json, prev: Json, next: Json, cur: Json, i: nat, path: Path)
    requires Lookup(root, path) == Some(cur) && !cur.Arr? && |path| > 3
    requires prev.Arr? && next.Arr? && i <= Common(prev, next)
    ensures AllRefused(root, DiffElems(prev, next, i, path))
    decreases Common(prev, next) - i
  {
    hide Step, AllRefused, DiffOps;
    NoneRefused(root);
    if i < Common(prev, next) {
      ChildRefused(root, prev.elems[i], next.elems[i], cur, Idx(i), path);
      ElemsRefusedIn(root, prev, next, cur, i + 1, path);
      RefusedJoin(root, DiffOps(prev.elems[i], next.elems[i], path + [Idx(i)]), DiffElems(prev, next, i + 1, path));
    }
  }

  lemma {:induction false} TailRefusedIn(root: Json, prev: seq<Json>, next: seq<Json>, cur: Json, path: Path)
    requires Lookup(root, path) == Some(cur) && !cur.Arr?
    ensures AllRefused(root, DiffTail(prev, next, path))
  {
    hide Step, AppendOp, TruncateOp;
    if |next| > |prev| {
      AppendStep(root, path, next[|prev|..]);
    } else if |next| < |prev| {
      TruncateStep(root, path, |next|);
    }
  }

  /** A change inside an object or array is refused where the relay has something of another kind. */
  lemma {:induction false} OtherKindEffect(root: Json, prev: Json, next: Json, cur: Json, path: Path)
    requires Lookup(root, path) == Some(cur) && |path| > 3 && prev != next
    requires (prev.Obj? && next.Obj? && !cur.Obj?) || (prev.Arr? && next.Arr? && !cur.Arr?)
    ensures ApplyOps(root, DiffOps(prev, next, path)).None? && !Lands(prev, next, cur, path)
  {
    ChangeHasOps(prev, next, path);
    hide Step;
    if prev.Obj? {
      KeysRefusedIn(root, prev, next, cur, SortedKeys.Sorted(prev.fields.Keys + next.fields.Keys), path);
    } else {
      DeepIsPlain(prev.elems, next.elems, path);
      ElemsRefusedIn(root, prev, next, cur, 0, path);
      TailRefusedIn(root, prev.elems, next.elems, cur, path);
      RefusedJoin(root, DiffElems(prev, next, 0, path), DiffTail(prev.elems, next.elems, path));
      assert [] + DiffElems(prev, next, 0, path) == DiffElems(prev, next, 0, path);
    }
    assert Step(root, DiffOps(prev, next, path)[0]).None?;
  }

  // ---------- what the operations do ----------

  /** `exact` says that the relay holds the Agent's old state here; otherwise we are below an inventory. */
  lemma {:induction false} DiffEffect(root: Json, prev: Json, next: Json, cur: Json, path: Path, exact: bool) returns (got: Option<Json>)
    requires Lookup(root, path) == Some(cur) && (path == [] ==> prev.Obj? && next.Obj?)
    requires if exact then cur == prev else |path| > 3
    ensures ApplyOps(root, DiffOps(prev, next, path)) == SubtreeAt(root, path, got)
    ensures got == Some(next) <==> Lands(prev, next, cur, path)
    ensures exact && Kept(prev, next, path) && got.Some? ==> got.value == next
    decreases prev, 3, 0
  {
    if prev == next {
      SetAtSame(root, path);
      got := Some(cur);
    } else if prev.Obj? && next.Obj? {
      got := ObjectEffect(root, prev, next, cur, path, exact);
    } else if prev.Arr? && next.Arr? {
      got := ArrayEffect(root, prev, next, cur, path, exact);
    } else {
      OverwriteEffect(root, next, path);
      got := if ValidPath(path) then Some(next) else None;
    }
  }

  lemma {:induction false} OverwriteEffect(root: Json, next: Json, path: Path)
    requires path != [] && Lookup(root, path).Some?
    ensures ApplyOps(root, [SetOp(path, next)]) == if ValidPath(path) then Some(SetAt(root, path, next)) else None
  {
    var n := |path| - 1;
    var parent, s := path[..n], path[n];
    assert path == parent + [s];
    LookupJoin(root, parent, [s]);
    SetOpEffect(root, parent, s, next);
    hide SetOp, ApplyOps;
    assert Lookup(Lookup(root, parent).value, [s]).Some?;
    SetAtJoin(root, parent, [s], next);
  }

  // Objects.

  predicate KeyLands(prev: Json, next: Json, cur: Json, k: string, path: Path)
    requires prev.Obj? && next.Obj? && cur.Obj?
  {
    if k in prev.fields && k in next.fields then
      if Overwrites(prev.fields[k], next.fields[k]) then ValidPath(path + [Key(k)])
      else k in cur.fields && Lands(prev.fields[k], next.fields[k], cur.fields[k], path + [Key(k)])
    else if k in next.fields then ValidPath(path + [Key(k)])
    else k in prev.fields && k in cur.fields && ValidPath(path + [Key(k)])
  }

  /** When the change at the child lands. */
  predicate ChildLands(prev: Json, next: Json, cur: Json, s: Seg, path: Path) {
    if Overwrites(prev, next) && s.Key? then ValidPath(path + [s])
    else Child(cur, s).Some? && Lands(prev, next, Child(cur, s).value, path + [s])
  }

  lemma {:induction false} PresentEffect(root: Json, prev: Json, next: Json, cur: Json, s: Seg, path: Path, exact: bool) returns (got: Option<Json>)
    requires Lookup(root, path) == Some(cur) && Child(cur, s).Some?
    requires if exact then Child(cur, s) == Some(prev) else |path| >= 3
    ensures ApplyOps(root, DiffOps(prev, next, path + [s])) == SubtreeAt(root, path, got)
    ensures got.Some? ==> Child(got.value, s).Some? && got.value == WithChild(cur, s, Child(got.value, s).value)
    ensures (got.Some? && Child(got.value, s) == Some(next)) <==> ChildLands(prev, next, cur, s, path)
    ensures exact && Kept(prev, next, path + [s]) && got.Some? ==> Child(got.value, s) == Some(next)
    decreases prev, 4, 0
  {
    hide DiffOps, Lands, Kept, ApplyOps, Overwrites;
    var below := path + [s];
    LookupJoin(root, path, [s]);
    assert Lookup(cur, [s]) == Child(cur, s);
    var inner := DiffEffect(root, prev, next, Child(cur, s).value, below, exact);
    OverwriteLands(prev, next, Child(cur, s).value, below);
    if inner.Some? {
      SetAtJoin(root, path, [s], inner.value);
      got := Some(WithChild(cur, s, inner.value));
    } else {
      got := None;
    }
  }

  lemma {:induction false} OverwriteLands(prev: Json, next: Json, cur: Json, path: Path)
    ensures Overwrites(prev, next) ==> (Lands(prev, next, cur, path) <==> ValidPath(path))
  {
  }

  lemma {:induction false} MissingEffect(root: Json, prev: Json, next: Json, cur: Json, s: Seg, path: Path) returns (got: Option<Json>)
    requires Lookup(root, path) == Some(cur) && Child(cur, s).None? && |path| >= 3
    requires if s.Key? then cur.Obj? else cur.Arr?
    ensures ApplyOps(root, DiffOps(prev, next, path + [s])) == SubtreeAt(root, path, got)
    ensures got.Some? ==> got.value == cur || (s.Key? && got.value == Obj(cur.fields[s.key := next]))
    ensures (got.Some? && Child(got.value, s) == Some(next)) <==> ChildLands(prev, next, cur, s, path)
  {
    hide Lands;
    var below := path + [s];
    LookupJoin(root, path, [s]);
    assert Lookup(cur, [s]) == Child(cur, s);
    if prev == next {
      SetAtSame(root, path);
      got := Some(cur);
    } else if Overwrites(prev, next) {
      assert DiffOps(prev, next, below) == [SetOp(below, next)];
      hide DiffOps, Overwrites;
      SetOpStep(root, path, s, next);
      ApplyOne(root, SetOp(below, next));
      hide Step, SetOp, ApplyOps;
      got := if s.Key? && ValidPath(below) then Some(Obj(cur.fields[s.key := next])) else None;
    } else {
      AbsentEffect(root, prev, next, below);
      got := None;
    }
  }

  /** A change at or below one child. */
  lemma {:induction false} ChildEffect(root: Json, prev: Json, next: Json, cur: Json, s: Seg, path: Path, exact: bool) returns (got: Option<Json>)
    requires Lookup(root, path) == Some(cur)
    requires if exact then Child(cur, s) == Some(prev) else |path| >= 3
    requires if s.Key? then cur.Obj? else cur.Arr?
    ensures ApplyOps(root, DiffOps(prev, next, path + [s])) == SubtreeAt(root, path, got)
    ensures got.Some? ==> forall t | t != s :: Child(got.value, t) == Child(cur, t)
    ensures got.Some? ==> if s.Key? then got.value.Obj? else got.value.Arr? && |got.value.elems| == |cur.elems|
    ensures (got.Some? && Child(got.value, s) == Some(next)) <==> ChildLands(prev, next, cur, s, path)
    ensures exact && Kept(prev, next, path + [s]) && got.Some? ==> Child(got.value, s) == Some(next)
    decreases prev, 5, 0
  {
    hide DiffOps, ChildLands, Kept, ApplyOps, Lookup;
    if Child(cur, s).Some? {
      got := PresentEffect(root, prev, next, cur, s, path, exact);
    } else {
      got := MissingEffect(root, prev, next, cur, s, path);
    }
  }

  lemma {:induction false} KeyEffect(root: Json, prev: Json, next: Json, cur: Json, k: string, path: Path, exact: bool) returns (got: Option<Json>)
    requires prev.Obj? && next.Obj? && cur.Obj? && (k in prev.fields || k in next.fields)
    requires Lookup(root, path) == Some(cur)
    requires if exact then SameKey(cur, prev, k) else |path| >= 3
    ensures ApplyOps(root, DiffKey(prev, next, k, path)) == SubtreeAt(root, path, got)
    ensures got.Some? ==> got.value.Obj? && forall j | j != k :: SameKey(got.value, cur, j)
    ensures (got.Some? && SameKey(got.value, next, k)) <==> KeyLands(prev, next, cur, k, path)
    ensures exact && KeyKept(prev, next, k, path) && got.Some? ==> SameKey(got.value, next, k)
    decreases prev, 0, 0
  {
    var below := path + [Key(k)];
    if k in prev.fields && k in next.fields {
      hide DiffOps, Lands, Kept, Overwrites;
      got := ChildEffect(root, prev.fields[k], next.fields[k], cur, Key(k), path, exact);
      assert Child(next, Key(k)) == Some(next.fields[k]);
    } else if k in next.fields {
      SetOpStep(root, path, Key(k), next.fields[k]);
      ApplyOne(root, SetOp(below, next.fields[k]));
      hide Step, SetOp;
      got := if ValidPath(below) then Some(Obj(cur.fields[k := next.fields[k]])) else None;
    } else {
      DeleteOpStep(root, path, Key(k));
      ApplyOne(root, DeleteOp(below));
      hide Step, DeleteOp;
      got := if ValidPath(below) && k in cur.fields then Some(Obj(cur.fields - {k})) else None;
    }
  }

  predicate KeysLand(prev: Json, next: Json, cur: Json, keys: seq<string>, path: Path)
    requires prev.Obj? && next.Obj? && cur.Obj?
  {
    keys == [] || (KeyLands(prev, next, cur, keys[0], path) && KeysLand(prev, next, cur, keys[1..], path))
  }

  predicate SameKeys(a: Json, b: Json, keys: seq<string>) {
    keys == [] || (SameKey(a, b, keys[0]) && SameKeys(a, b, keys[1..]))
  }

  lemma {:induction false} SameKeysAll(a: Json, b: Json, keys: seq<string>)
    ensures SameKeys(a, b, keys) <==> forall k | k in keys :: SameKey(a, b, k)
  {
    if keys != [] {
      SameKeysAll(a, b, keys[1..]);
      assert forall k :: k in keys <==> k == keys[0] || k in keys[1..];
    }
  }

  lemma {:induction false} KeysLandAll(prev: Json, next: Json, cur: Json, keys: seq<string>, path: Path)
    requires prev.Obj? && next.Obj? && cur.Obj?
    ensures KeysLand(prev, next, cur, keys, path) <==> forall k | k in keys :: KeyLands(prev, next, cur, k, path)
  {
    hide KeyLands;
    if keys != [] {
      KeysLandAll(prev, next, cur, keys[1..], path);
      assert forall k :: k in keys <==> k == keys[0] || k in keys[1..];
    }
  }

  /** Whether the later keys land does not depend on the earlier ones. */
  lemma {:induction false} KeysLandSame(prev: Json, next: Json, a: Json, b: Json, keys: seq<string>, path: Path)
    requires prev.Obj? && next.Obj? && a.Obj? && b.Obj? && SameKeys(a, b, keys)
    ensures KeysLand(prev, next, a, keys, path) <==> KeysLand(prev, next, b, keys, path)
  {
    hide Lands, Overwrites;
    if keys != [] {
      KeysLandSame(prev, next, a, b, keys[1..], path);
    }
  }

  lemma {:induction false} RestSame(prev: Json, cur: Json, mid: Json, k: string, rest: seq<string>)
    requires k !in rest && forall j | j != k :: SameKey(mid, cur, j)
    ensures SameKeys(mid, cur, rest)
    ensures SameKeys(cur, prev, rest) ==> SameKeys(mid, prev, rest)
  {
    SameKeysAll(mid, cur, rest);
    SameKeysAll(cur, prev, rest);
    SameKeysAll(mid, prev, rest);
  }

  lemma {:induction false} SameKeysStep(a: Json, b: Json, keys: seq<string>)
    requires keys != []
    ensures SameKeys(a, b, keys) <==> SameKey(a, b, keys[0]) && SameKeys(a, b, keys[1..])
  {
  }

  /** `kept` says whether the items below these keys are known to be kept. */
  lemma {:induction false} KeysEffect(root: Json, prev: Json, next: Json, cur: Json, keys: seq<string>, path: Path, exact: bool, kept: bool)
    returns (got: Option<Json>)
    requires prev.Obj? && next.Obj? && cur.Obj?
    requires Lookup(root, path) == Some(cur)
    requires if exact then SameKeys(cur, prev, keys) else |path| >= 3
    requires forall k | k in keys :: k in prev.fields || k in next.fields
    requires forall i, j | 0 <= i < j < |keys| :: keys[i] != keys[j]
    requires kept ==> exact && forall k | k in keys :: KeyKept(prev, next, k, path)
    ensures ApplyOps(root, DiffKeys(prev, next, keys, path)) == SubtreeAt(root, path, got)
    ensures got.Some? ==> got.value.Obj? && forall k | k !in keys :: SameKey(got.value, cur, k)
    ensures (got.Some? && SameKeys(got.value, next, keys)) <==> KeysLand(prev, next, cur, keys, path)
    ensures kept && got.Some? ==> SameKeys(got.value, next, keys)
    decreases prev, 1, |keys|
  {
    hide Step, KeyLands, KeyKept, DiffKey;
    if keys == [] {
      SetAtSame(root, path);
      got := Some(cur);
    } else {
      var k, rest := keys[0], keys[1..];
      assert k in keys && k !in rest && forall j | j in rest :: j in keys;
      ApplyJoin(root, DiffKey(prev, next, k, path), DiffKeys(prev, next, rest, path));
      got := KeyEffect(root, prev, next, cur, k, path, exact);
      if got.Some? {
        var mid := got.value;
        LookupSetAt(root, path, mid);
        RestSame(prev, cur, mid, k, rest);
        KeysLandSame(prev, next, mid, cur, rest, path);
        hide SameKeys;
        got := KeysEffect(SetAt(root, path, mid), prev, next, mid, rest, path, exact, kept);
        if got.Some? {
          SetAtTwice(root, path, mid, got.value);
          assert SameKey(got.value, mid, k);
          SameKeysStep(got.value, next, keys);
          assert forall j | j !in keys :: SameKey(got.value, mid, j) && SameKey(mid, cur, j);
        }
      }
    }
  }

  lemma {:induction false} ObjectEffect(root: Json, prev: Json, next: Json, cur: Json, path: Path, exact: bool) returns (got: Option<Json>)
    requires Lookup(root, path) == Some(cur) && prev.Obj? && next.Obj? && prev != next
    requires if exact then cur == prev else |path| > 3
    ensures ApplyOps(root, DiffOps(prev, next, path)) == SubtreeAt(root, path, got)
    ensures got == Some(next) <==> Lands(prev, next, cur, path)
    ensures exact && Kept(prev, next, path) && got.Some? ==> got.value == next
    decreases prev, 2, 0
  {
    var keys := SortedKeys.Sorted(prev.fields.Keys + next.fields.Keys);
    if cur.Obj? {
      var kept := exact && Kept(prev, next, path);
      assert kept ==> forall k | k in keys :: KeyKept(prev, next, k, path);
      SameKeysAll(prev, prev, keys);
      got := KeysEffect(root, prev, next, cur, keys, path, exact, kept);
      ObjectLands(prev, next, cur, keys, path);
      if got.Some? {
        SameKeysEqual(got.value, next, prev, cur, keys);
      }
    } else {
      OtherKindEffect(root, prev, next, cur, path);
      got := None;
    }
  }

  lemma {:induction false} ObjectLands(prev: Json, next: Json, cur: Json, keys: seq<string>, path: Path)
    requires prev.Obj? && next.Obj? && cur.Obj? && prev != next
    requires forall k :: k in keys <==> k in prev.fields || k in next.fields
    ensures Lands(prev, next, cur, path) <==> KeysLand(prev, next, cur, keys, path) && forall k | k in cur.fields :: k in keys
  {
    KeysLandAll(prev, next, cur, keys, path);
    hide Overwrites;
    if KeysLand(prev, next, cur, keys, path) {
      forall k | k in prev.fields ensures KeyLands(prev, next, cur, k, path) { assert k in keys; }
      forall k | k in next.fields ensures KeyLands(prev, next, cur, k, path) { assert k in keys; }
    }
  }

  lemma {:induction false} SameKeysEqual(a: Json, next: Json, prev: Json, cur: Json, keys: seq<string>)
    requires a.Obj? && next.Obj? && prev.Obj? && cur.Obj?
    requires forall k | k !in keys :: SameKey(a, cur, k)
    requires forall k :: k in keys <==> k in prev.fields || k in next.fields
    ensures a == next <==> SameKeys(a, next, keys) && forall k | k in cur.fields :: k in keys
  {
    SameKeysAll(a, next, keys);
    if SameKeys(a, next, keys) && forall k | k in cur.fields :: k in keys {
      forall k: string ensures SameKey(a, next, k) {
        if k !in keys { assert SameKey(a, cur, k); }
      }
      assert forall k | k in a.fields :: SameKey(a, next, k);
      assert forall k | k in next.fields :: SameKey(a, next, k);
      assert a.fields == next.fields;
    } else if SameKeys(a, next, keys) {
      var k :| k in cur.fields && k !in keys;
      assert SameKey(a, cur, k) && k in a.fields && k !in next.fields;
    }
  }

  // Arrays.

  predicate ElemsKept(prev: Json, next: Json, path: Path)
    requires prev.Arr? && next.Arr?
  {
    forall j | 0 <= j < Common(prev, next) :: Kept(prev.elems[j], next.elems[j], path + [Idx(j)])
  }

  predicate ElemsLand(prev: Json, next: Json, cur: Json, i: nat, path: Path)
    requires prev.Arr? && next.Arr?
  {
    forall j | i <= j < Common(prev, next) :: ChildLands(prev.elems[j], next.elems[j], cur, Idx(j), path)
  }

  /** From index i on, `got` holds what `next` holds, as far as both arrays reach. */
  predicate ElemsRight(got: Json, prev: Json, next: Json, i: nat)
    requires prev.Arr? && next.Arr?
  {
    forall j | i <= j < Common(prev, next) :: Child(got, Idx(j)) == Some(next.elems[j])
  }

  ghost predicate SameFrom(a: Json, b: Json, i: nat) {
    forall j: nat | i <= j :: Child(a, Idx(j)) == Child(b, Idx(j))
  }

  lemma {:induction false} ElemsStep(prev: Json, next: Json, cur: Json, mid: Json, got: Json, i: nat, path: Path)
    requires prev.Arr? && next.Arr? && i < Common(prev, next) && SameFrom(mid, cur, i + 1)
    ensures ElemsLand(prev, next, cur, i, path) <==>
            ChildLands(prev.elems[i], next.elems[i], cur, Idx(i), path) && ElemsLand(prev, next, mid, i + 1, path)
    ensures ElemsRight(got, prev, next, i) <==> Child(got, Idx(i)) == Some(next.elems[i]) && ElemsRight(got, prev, next, i + 1)
  {
    hide Lands, Overwrites;
  }

  lemma {:induction false} ElemsEffect(root: Json, prev: Json, next: Json, cur: Json, i: nat, path: Path, exact: bool, kept: bool)
    returns (got: Option<Json>)
    requires prev.Arr? && next.Arr? && cur.Arr? && i <= Common(prev, next)
    requires Lookup(root, path) == Some(cur)
    requires if exact then SameFrom(cur, prev, i) else |path| >= 3
    requires kept ==> exact && ElemsKept(prev, next, path)
    ensures ApplyOps(root, DiffElems(prev, next, i, path)) == SubtreeAt(root, path, got)
    ensures got.Some? ==> got.value.Arr? && |got.value.elems| == |cur.elems|
    ensures got.Some? ==> forall j | 0 <= j < i :: Child(got.value, Idx(j)) == Child(cur, Idx(j))
    ensures got.Some? ==> SameFrom(got.value, cur, Common(prev, next))
    ensures (got.Some? && ElemsRight(got.value, prev, next, i)) <==> ElemsLand(prev, next, cur, i, path)
    ensures kept && got.Some? ==> ElemsRight(got.value, prev, next, i)
    decreases prev, 1, Common(prev, next) - i
  {
    hide Step, Kept, DiffOps, ChildLands, Lookup, SetAt;
    if i == Common(prev, next) {
      SetAtSame(root, path);
      got := Some(cur);
    } else {
      ApplyJoin(root, DiffOps(prev.elems[i], next.elems[i], path + [Idx(i)]), DiffElems(prev, next, i + 1, path));
      got := ChildEffect(root, prev.elems[i], next.elems[i], cur, Idx(i), path, exact);
      if got.Some? {
        var mid := got.value;
        LookupSetAt(root, path, mid);
        assert SameFrom(mid, cur, i + 1);
        hide ElemsLand, ElemsKept;
        got := ElemsEffect(SetAt(root, path, mid), prev, next, mid, i + 1, path, exact, kept);
        if got.Some? {
          SetAtTwice(root, path, mid, got.value);
          ElemsStep(prev, next, cur, mid, got.value, i, path);
        } else {
          ElemsStep(prev, next, cur, mid, mid, i, path);
        }
      }
    }
  }

  lemma {:induction false} TailEffect(root: Json, prev: seq<Json>, next: seq<Json>, cur: seq<Json>, path: Path) returns (got: Option<seq<Json>>)
    requires Lookup(root, path) == Some(Arr(cur))
    ensures ApplyOps(root, DiffTail(prev, next, path)) ==
            match got { case None => None case Some(xs) => Some(SetAt(root, path, Arr(xs))) }
    ensures got == if |prev| == |next| then Some(cur)
                   else if !ValidPath(path) then None
                   else if |next| > |prev| then Some(cur + next[|prev|..])
                   else if |next| <= |cur| then Some(cur[..|next|])
                   else None
  {
    hide Step, AppendOp, TruncateOp;
    if |next| > |prev| {
      ApplyOne(root, AppendOp(path, next[|prev|..]));
      AppendStep(root, path, next[|prev|..]);
      got := if ValidPath(path) then Some(cur + next[|prev|..]) else None;
    } else if |next| < |prev| {
      ApplyOne(root, TruncateOp(path, |next|));
      TruncateStep(root, path, |next|);
      got := if ValidPath(path) && |next| <= |cur| then Some(cur[..|next|]) else None;
    } else {
      SetAtSame(root, path);
      got := Some(cur);
    }
  }

  /** The end comes out right exactly when the elements before it do and the lengths agree. */
  lemma {:induction false} EndExact(prev: Json, next: Json, mid: Json, got: Option<seq<Json>>, path: Path)
    requires prev.Arr? && next.Arr? && mid.Arr?
    requires got == if |prev.elems| == |next.elems| then Some(mid.elems)
                    else if !ValidPath(path) then None
                    else if |next.elems| > |prev.elems| then Some(mid.elems + next.elems[|prev.elems|..])
                    else if |next.elems| <= |mid.elems| then Some(mid.elems[..|next.elems|])
                    else None
    ensures got == Some(next.elems) <==>
            ElemsRight(mid, prev, next, 0) && EndLands(|prev.elems|, |next.elems|, |mid.elems|, path)
  {
    if got == Some(next.elems) {
      forall j | 0 <= j < Common(prev, next) ensures Child(mid, Idx(j)) == Some(next.elems[j]) {
        assert got.value[j] == mid.elems[j];
      }
    }
    if ElemsRight(mid, prev, next, 0) && EndLands(|prev.elems|, |next.elems|, |mid.elems|, path) {
      forall j | 0 <= j < Common(prev, next) ensures mid.elems[j] == next.elems[j] {
        assert Child(mid, Idx(j)) == Some(next.elems[j]);
      }
      assert got.Some? && got.value == next.elems;
    }
  }

  lemma {:induction false} PlainArrayEffect(root: Json, prev: Json, next: Json, cur: Json, path: Path, exact: bool, kept: bool)
    returns (got: Option<Json>)
    requires Lookup(root, path) == Some(cur) && prev.Arr? && next.Arr? && cur.Arr?
    requires if exact then cur == prev else |path| >= 3
    requires kept ==> exact && ElemsKept(prev, next, path)
    ensures ApplyOps(root, DiffElems(prev, next, 0, path) + DiffTail(prev.elems, next.elems, path)) == SubtreeAt(root, path, got)
    ensures got == Some(next) <==>
            ElemsLand(prev, next, cur, 0, path) && EndLands(|prev.elems|, |next.elems|, |cur.elems|, path)
    ensures kept && got.Some? ==> got.value == next
    decreases prev, 1, Common(prev, next) + 1
  {
    hide Step, ElemsLand, ElemsRight, ElemsKept, EndLands;
    ApplyJoin(root, DiffElems(prev, next, 0, path), DiffTail(prev.elems, next.elems, path));
    got := ElemsEffect(root, prev, next, cur, 0, path, exact, kept);
    if got.Some? {
      var mid := got.value;
      LookupSetAt(root, path, mid);
      var end := TailEffect(SetAt(root, path, mid), prev.elems, next.elems, mid.elems, path);
      EndExact(prev, next, mid, end, path);
      if end.Some? {
        SetAtTwice(root, path, mid, Arr(end.value));
        got := Some(Arr(end.value));
        if kept {
          KeptEnd(prev.elems, next.elems, path);
        }
      } else {
        got := None;
      }
    }
  }

  lemma {:induction false} KeptEnd(prev: seq<Json>, next: seq<Json>, path: Path)
    ensures |prev| == |next| || ValidPath(path) ==> EndLands(|prev|, |next|, |prev|, path)
  {
  }

  /** An inventory the Agent deals with slot by slot to the end. */
  lemma {:induction false} WholeInventoryEffect(root: Json, prev: Json, next: Json, path: Path) returns (got: Option<Json>)
    requires Lookup(root, path) == Some(prev) && InventoryChange(prev, next, path) && prev != next
    requires ItemDelta(path[1].index, prev.elems, next.elems, 0).0
    ensures ApplyOps(root, DiffOps(prev, next, path)) == SubtreeAt(root, path, got)
    ensures got == Some(next) <==> Lands(prev, next, prev, path)
    ensures Kept(prev, next, path) && got.Some? ==> got.value == next
  {
    var p := path[1].index;
    assert path == ItemsPath(p);
    hide ApplyOps, ItemDelta, Relayed, ItemsFit, DiffElems, DiffTail;
    ItemsEffect(root, p, prev.elems, prev.elems, next.elems, 0);
    RelayedExact(p, prev.elems, next.elems, 0);
    var after := Relayed(prev.elems, prev.elems, next.elems, 0);
    WholeLands(prev, next, path);
    hide Lands, ItemsPath;
    got := match after { case None => None case Some(xs) => Some(Arr(xs)) };
  }

  lemma {:induction false} WholeLands(prev: Json, next: Json, path: Path)
    requires InventoryChange(prev, next, path) && prev != next
    requires ItemDelta(path[1].index, prev.elems, next.elems, 0).0
    ensures Lands(prev, next, prev, path) <==> Relayed(prev.elems, prev.elems, next.elems, 0) == Some(next.elems)
  {
    hide ItemDelta, Relayed, EndLands;
  }

  /** An inventory whose slot by slot operations stop early, followed by the plain array diff. */
  lemma {:induction false} MixedInventoryEffect(root: Json, prev: Json, next: Json, path: Path) returns (got: Option<Json>)
    requires Lookup(root, path) == Some(prev) && InventoryChange(prev, next, path) && prev != next
    requires !ItemDelta(path[1].index, prev.elems, next.elems, 0).0
    ensures ApplyOps(root, DiffOps(prev, next, path)) == SubtreeAt(root, path, got)
    ensures got == Some(next) <==> Lands(prev, next, prev, path)
    decreases prev, 1, Common(prev, next) + 2
  {
    var p := path[1].index;
    assert path == ItemsPath(p);
    ItemsEffect(root, p, prev.elems, prev.elems, next.elems, 0);
    var itemOps, plainOps := ItemDelta(p, prev.elems, next.elems, 0).1, DiffElems(prev, next, 0, path) + DiffTail(prev.elems, next.elems, path);
    assert DiffOps(prev, next, path) == itemOps + plainOps by {
      assert itemOps + DiffElems(prev, next, 0, path) + DiffTail(prev.elems, next.elems, path) == itemOps + plainOps;
    }
    ApplyJoin(root, itemOps, plainOps);
    var after := Relayed(prev.elems, prev.elems, next.elems, 0);
    MixedLands(prev, next, path);
    hide DiffOps, ItemDelta, Relayed, ApplyOps, Lands, ElemsLand, EndLands, ItemsPath;
    if after.None? {
      got := None;
    } else {
      var cur := Arr(after.value);
      LookupSetAt(root, path, cur);
      got := PlainArrayEffect(SetAt(root, path, cur), prev, next, cur, path, false, false);
      if got.Some? {
        SetAtTwice(root, path, cur, got.value);
      }
    }
  }

  lemma {:induction false} MixedLands(prev: Json, next: Json, path: Path)
    requires InventoryChange(prev, next, path) && prev != next
    requires !ItemDelta(path[1].index, prev.elems, next.elems, 0).0
    ensures var after := Relayed(prev.elems, prev.elems, next.elems, 0);
            Lands(prev, next, prev, path) <==>
            && after.Some? && ElemsLand(prev, next, Arr(after.value), 0, path)
            && EndLands(|prev.elems|, |next.elems|, |after.value|, path)
  {
    hide ItemDelta, Relayed, EndLands;
  }

  lemma {:induction false} ArrayEffect(root: Json, prev: Json, next: Json, cur: Json, path: Path, exact: bool) returns (got: Option<Json>)
    requires Lookup(root, path) == Some(cur) && prev.Arr? && next.Arr? && prev != next
    requires if exact then cur == prev else |path| > 3
    ensures ApplyOps(root, DiffOps(prev, next, path)) == SubtreeAt(root, path, got)
    ensures got == Some(next) <==> Lands(prev, next, cur, path)
    ensures exact && Kept(prev, next, path) && got.Some? ==> got.value == next
    decreases prev, 2, 0
  {
    if !cur.Arr? {
      OtherKindEffect(root, prev, next, cur, path);
      got := None;
    } else if InventoryChange(prev, next, path) {
      KeptInventory(prev, next, path);
      hide DiffOps, Lands, Kept, ItemDelta;
      if ItemDelta(path[1].index, prev.elems, next.elems, 0).0 {
        got := WholeInventoryEffect(root, prev, next, path);
      } else {
        got := MixedInventoryEffect(root, prev, next, path);
      }
    } else {
      var kept := exact && Kept(prev, next, path);
      PlainArray(prev, next, cur, path);
      hide DiffOps, Lands, Kept, ElemsLand, EndLands;
      got := PlainArrayEffect(root, prev, next, cur, path, exact, kept);
    }
  }

  lemma {:induction false} KeptInventory(prev: Json, next: Json, path: Path)
    requires InventoryChange(prev, next, path)
    ensures Kept(prev, next, path) ==> ItemDelta(path[1].index, prev.elems, next.elems, 0).0
  {
    if Kept(prev, next, path) {
      KeptHandled(path[1].index, prev.elems, next.elems, 0);
    }
  }

  lemma {:induction false} PlainArray(prev: Json, next: Json, cur: Json, path: Path)
    requires prev.Arr? && next.Arr? && cur.Arr? && prev != next && !InventoryChange(prev, next, path)
    ensures DiffOps(prev, next, path) == DiffElems(prev, next, 0, path) + DiffTail(prev.elems, next.elems, path)
    ensures Lands(prev, next, cur, path) <==>
            ElemsLand(prev, next, cur, 0, path) && EndLands(|prev.elems|, |next.elems|, |cur.elems|, path)
    ensures Kept(prev, next, path) ==> ElemsKept(prev, next, path)
  {
    assert [] + DiffElems(prev, next, 0, path) == DiffElems(prev, next, 0, path);
    hide EndLands, DiffElems, DiffTail;
  }

  // ---------- main results ----------

  /** The relay, holding the old state, ends with exactly the Agent's new state if and only if the change lands. */
  lemma {:induction false} ReproducesIffLands(prev: Json, next: Json)
    requires prev.Obj? && next.Obj?
    ensures ApplyOps(prev, DiffOps(prev, next, [])) == Some(next) <==> Lands(prev, next, prev, [])
  {
    hide DiffOps, Lands, Kept, ApplyOps;
    var got := DiffEffect(prev, prev, next, prev, [], true);
  }

  /** When every item is kept, the relay refuses the delta or ends with the new state, nothing else. */
  lemma {:induction false} KeptDeltaNeverWrong(prev: Json, next: Json)
    requires prev.Obj? && next.Obj? && Kept(prev, next, [])
    ensures ApplyOps(prev, DiffOps(prev, next, [])) in [None, Some(next)]
  {
    hide DiffOps, Lands, Kept, ApplyOps;
    var got := DiffEffect(prev, prev, next, prev, [], true);
  }

  /** States of the Agent's shape whose item names are strings keep every item. */
  lemma {:induction false} NamedKept(prev: Json, next: Json, path: Path)
    requires Shaped(prev, path, true) && Shaped(next, path, true)
    ensures Kept(prev, next, path)
    decreases prev
  {
    if prev.Obj? && next.Obj? {
      forall k | k in prev.fields && k in next.fields ensures Kept(prev.fields[k], next.fields[k], path + [Key(k)]) {
        NamedKept(prev.fields[k], next.fields[k], path + [Key(k)]);
      }
    } else if InventoryChange(prev, next, path) {
      NamedItemsKept(prev.elems, next.elems, 0);
    } else if prev.Arr? && next.Arr? {
      forall i | 0 <= i < Common(prev, next) ensures Kept(prev.elems[i], next.elems[i], path + [Idx(i)]) {
        NamedKept(prev.elems[i], next.elems[i], path + [Idx(i)]);
      }
    }
  }

  /** In particular, inventories of empty slots and records with string names are never reproduced wrongly. */
  lemma {:induction false} ShapedDeltaNeverWrong(prev: Json, next: Json)
    requires prev.Obj? && next.Obj? && Shaped(prev, [], true) && Shaped(next, [], true)
    ensures ApplyOps(prev, DiffOps(prev, next, [])) in [None, Some(next)]
  {
    hide DiffOps, Kept, Shaped, ApplyOps;
    NamedKept(prev, next, []);
    KeptDeltaNeverWrong(prev, next);
  }
}
