/** What the relay's tree and inventory operations guarantee. */
module DeltaLaws {
  import opened Wrappers
  import opened Json
  import opened DeltaReceiver
  import opened DeltaWire

  /** Applying a concatenation is applying the parts in turn, failures included. */
  lemma {:induction false} ApplyJoin(base: Json, xs: seq<Json>, ys: seq<Json>)
    ensures ApplyOps(base, xs + ys) ==
            match ApplyOps(base, xs) { case None => None case Some(mid) => ApplyOps(mid, ys) }
    decreases |xs|
  {
    if xs == [] {
      assert xs + ys == ys;
    } else {
      assert (xs + ys)[0] == xs[0] && (xs + ys)[1..] == xs[1..] + ys;
      match Step(base, xs[0])
      case None =>
      case Some(next) => ApplyJoin(next, xs[1..], ys);
    }
  }

  lemma {:induction false} ApplyOne(base: Json, op: Json)
    ensures ApplyOps(base, [op]) == Step(base, op)
  {
    match Step(base, op)
    case None =>
    case Some(next) => assert ApplyOps(next, [op][1..]) == Some(next);
  }

  /** A list that is accepted contains no operation the static checks refuse. */
  lemma {:induction false} AcceptedOpsDecode(base: Json, ops: seq<Json>)
    requires ApplyOps(base, ops).Some?
    ensures forall i | 0 <= i < |ops| :: Decode(ops[i]).Some?
    decreases |ops|
  {
    if ops != [] {
      AcceptedOpsDecode(Step(base, ops[0]).value, ops[1..]);
      forall i | 0 <= i < |ops| ensures Decode(ops[i]).Some? {
        if i > 0 { assert ops[i] == ops[1..][i - 1]; }
      }
    }
  }

  /** The state stays an object through every prefix of an accepted list. */
  lemma {:induction false} RootStaysObject(base: Json, ops: seq<Json>, n: nat)
    requires base.Obj? && n <= |ops| && ApplyOps(base, ops).Some?
    ensures ApplyOps(base, ops[..n]).Some? && ApplyOps(base, ops[..n]).value.Obj?
    decreases |ops|
  {
    if n > 0 {
      StepKeepsObject(base, ops[0]);
      RootStaysObject(Step(base, ops[0]).value, ops[1..], n - 1);
      assert ops[..n][1..] == ops[1..][..n - 1];
    }
  }

  // ---------- tree edits ----------

  lemma {:induction false} DivergeAtLast(p: Path, s: Seg, q: Path)
    requires Diverge(p + [s], q)
    ensures Diverge(p, q) || (|q| > |p| && q[..|p|] == p && q[|p|] != s)
  {
    if p == [] {
      assert p + [s] == [s];
    } else {
      assert (p + [s])[0] == p[0] && (p + [s])[1..] == p[1..] + [s];
      if p[0] == q[0] {
        DivergeAtLast(p[1..], s, q[1..]);
        if !Diverge(p[1..], q[1..]) {
          assert q[..|p|] == [q[0]] + q[1..][..|p| - 1];
          assert p == [p[0]] + p[1..];
        }
      }
    }
  }

  /** An edit of the container at `path` that leaves `s`'s siblings alone leaves diverging paths alone. */
  lemma {:induction false} SiblingFrame(root: Json, path: Path, s: Seg, node: Json, q: Path)
    requires Lookup(root, path).Some? && Diverge(path + [s], q)
    requires forall t: Seg | t != s :: Child(node, t) == Child(Lookup(root, path).value, t)
    ensures Lookup(SetAt(root, path, node), q) == Lookup(root, q)
  {
    DivergeAtLast(path, s, q);
    if Diverge(path, q) {
      SetAtFrame(root, path, node, q);
    } else {
      var n := |path|;
      assert q == path + q[n..] && q[n..] == [q[n]] + q[n + 1..];
      LookupSetAt(root, path, node);
      LookupJoin(root, path, q[n..]);
      LookupJoin(SetAt(root, path, node), path, q[n..]);
    }
  }

  lemma {:induction false} SetAsEdit(root: Json, parent: Path, s: Seg, v: Json)
    requires Step(root, SetOp(parent + [s], v)).Some?
    ensures Lookup(root, parent).Some?
    ensures (s.Key? && Lookup(root, parent).value.Obj?) || Child(Lookup(root, parent).value, s).Some?
    ensures Step(root, SetOp(parent + [s], v)) ==
            Some(SetAt(root, parent, EditNode(Lookup(root, parent).value, Put(s, v)).value))
  {
    hide SetOp, DecodeItemOp, DecodeTreeOp;
    DecodeSet(parent + [s], v);
    assert (parent + [s])[..|parent|] == parent;
  }

  /** After "s" at a path, that path reads the value and diverging paths read as before. */
  lemma {:induction false} SetReadsBack(root: Json, path: Path, v: Json, q: Path)
    requires path != [] && Step(root, SetOp(path, v)).Some?
    ensures Lookup(Step(root, SetOp(path, v)).value, path) == Some(v)
    ensures Diverge(path, q) ==> Lookup(Step(root, SetOp(path, v)).value, q) == Lookup(root, q)
  {
    var n := |path| - 1;
    var parent, s := path[..n], path[n];
    assert path == parent + [s];
    SetAsEdit(root, parent, s, v);
    hide Step, SetOp;
    var edited := EditNode(Lookup(root, parent).value, Put(s, v)).value;
    var after := SetAt(root, parent, edited);
    LookupSetAt(root, parent, edited);
    LookupJoin(after, parent, [s]);
    assert Child(edited, s) == Some(v);
    if Diverge(path, q) {
      SiblingFrame(root, parent, s, edited, q);
    }
  }

  /** "s" succeeds exactly when the path is within limits and its container can hold the last segment. */
  lemma {:induction false} SetSucceeds(root: Json, path: Path, v: Json)
    requires path != []
    ensures Step(root, SetOp(path, v)).Some? <==>
            && ValidPath(path)
            && var parent := Lookup(root, path[..|path| - 1]);
            && parent.Some?
            && match path[|path| - 1] {
                 case Key(k) => parent.value.Obj?
                 case Idx(i) => parent.value.Arr? && i < |parent.value.elems|
               }
  {
    DecodeSet(path, v);
  }

  lemma {:induction false} DeleteAsEdit(root: Json, parent: Path, s: Seg)
    requires Step(root, DeleteOp(parent + [s])).Some?
    ensures Lookup(root, parent).Some? && Child(Lookup(root, parent).value, s).Some?
    ensures Step(root, DeleteOp(parent + [s])) ==
            Some(SetAt(root, parent, EditNode(Lookup(root, parent).value, Remove(s)).value))
  {
    hide DeleteOp, DecodeItemOp, DecodeTreeOp;
    DecodeDelete(parent + [s]);
    assert (parent + [s])[..|parent|] == parent;
  }

  /** After "d" of an object key the key is gone and diverging paths read as before. */
  lemma {:induction false} DeleteKeyRemoves(root: Json, path: Path, q: Path)
    requires path != [] && path[|path| - 1].Key? && Step(root, DeleteOp(path)).Some?
    ensures Lookup(root, path).Some? && Lookup(Step(root, DeleteOp(path)).value, path).None?
    ensures Diverge(path, q) ==> Lookup(Step(root, DeleteOp(path)).value, q) == Lookup(root, q)
  {
    var n := |path| - 1;
    var parent, s := path[..n], path[n];
    assert path == parent + [s];
    DeleteAsEdit(root, parent, s);
    hide Step, DeleteOp;
    var edited := EditNode(Lookup(root, parent).value, Remove(s)).value;
    LookupSetAt(root, parent, edited);
    LookupJoin(SetAt(root, parent, edited), parent, [s]);
    LookupJoin(root, parent, [s]);
    if Diverge(path, q) {
      SiblingFrame(root, parent, s, edited, q);
    }
  }

  /** After "d" of an array index the later elements move down one place and nothing else changes. */
  lemma {:induction false} DeleteIndexShifts(root: Json, parent: Path, i: nat, j: nat)
    requires Step(root, DeleteOp(parent + [Idx(i)])).Some?
    ensures var after := Step(root, DeleteOp(parent + [Idx(i)])).value;
            Lookup(after, parent + [Idx(j)]) == Lookup(root, parent + [Idx(if j < i then j else j + 1)])
  {
    DeleteAsEdit(root, parent, Idx(i));
    hide Step, DeleteOp;
    var edited := EditNode(Lookup(root, parent).value, Remove(Idx(i))).value;
    LookupSetAt(root, parent, edited);
    LookupJoin(SetAt(root, parent, edited), parent, [Idx(j)]);
    LookupJoin(root, parent, [Idx(if j < i then j else j + 1)]);
  }

  /** Truncating to the old length after "a" restores the whole tree. */
  lemma {:induction false} TruncateUndoesAppend(root: Json, path: Path, vs: seq<Json>)
    requires Step(root, AppendOp(path, vs)).Some?
    ensures Lookup(root, path).Some? && Lookup(root, path).value.Arr?
    ensures Step(Step(root, AppendOp(path, vs)).value, TruncateOp(path, |Lookup(root, path).value.elems|)) == Some(root)
  {
    DecodeAppend(path, vs);
    var old' := Lookup(root, path).value;
    DecodeTruncate(path, |old'.elems|);
    var longer := Arr(old'.elems + vs);
    LookupSetAt(root, path, longer);
    SetAtTwice(root, path, longer, old');
    assert longer.elems[..|old'.elems|] == old'.elems;
    SetAtSame(root, path);
  }

  // ---------- inventories ----------

  predicate SlotOk(item: Json) {
    item == Null || (item.Obj? && "count" in item.fields && item.fields["count"].Int? && 1 <= item.fields["count"].n <= 999)
  }

  predicate Inventory(node: Json) {
    node.Arr? && |node.elems| == 7 && forall i | 0 <= i < 7 :: SlotOk(node.elems[i])
  }

  predicate IsItemOp(raw: Json) {
    raw.Arr? && |raw.elems| >= 2 && IsItemKind(raw.elems[0])
  }

  /** The participant an accepted item operation addresses. */
  function Addressed(raw: Json): nat
    requires IsItemOp(raw) && Decode(raw).Some?
  {
    raw.elems[1].n
  }

  lemma {:induction false} ItemPathsDiverge(p: nat, p': nat)
    requires p != p'
    ensures Diverge(ItemsPath(p), ItemsPath(p'))
  {
    assert ItemsPath(p)[1..][0] == Idx(p) && ItemsPath(p')[1..][0] == Idx(p');
  }

  /** One accepted item operation: the addressed node was a seven-slot inventory and stays one;
      every diverging path, in particular every other participant's inventory, is unchanged. */
  lemma {:induction false} ItemStep(root: Json, raw: Json, q: Path)
    requires IsItemOp(raw) && Step(root, raw).Some?
    ensures Decode(raw).Some?
    ensures var path := ItemsPath(Addressed(raw));
            var before := Lookup(root, path);
            var after := Lookup(Step(root, raw).value, path);
            && before.Some? && before.value.Arr? && |before.value.elems| == 7
            && after.Some? && after.value.Arr? && |after.value.elems| == 7
            && (Inventory(before.value) ==> Inventory(after.value))
            && (Diverge(path, q) ==> Lookup(Step(root, raw).value, q) == Lookup(root, q))
  {
    var EditAt(path, edit) := Decode(raw).value;
    var before := Lookup(root, path).value;
    var after := EditNode(before, edit).value;
    LookupSetAt(root, path, after);
    if Diverge(path, q) {
      SetAtFrame(root, path, after, q);
    }
  }

  predicate AllInventories(root: Json, participants: nat) {
    forall p | 0 <= p < participants :: var node := Lookup(root, ItemsPath(p)); node.Some? && Inventory(node.value)
  }

  /** Any accepted list of item operations keeps every inventory at seven slots, each empty or
      with a count in 1..999, and leaves every participant it does not address unchanged. */
  lemma {:induction false} ItemOpsKeepInventories(root: Json, ops: seq<Json>, participants: nat)
    requires forall i | 0 <= i < |ops| :: IsItemOp(ops[i])
    requires ApplyOps(root, ops).Some? && AllInventories(root, participants)
    ensures AllInventories(ApplyOps(root, ops).value, participants)
    ensures forall i | 0 <= i < |ops| :: Decode(ops[i]).Some?
    ensures forall p: nat | (forall i | 0 <= i < |ops| :: Addressed(ops[i]) != p) ::
              Lookup(ApplyOps(root, ops).value, ItemsPath(p)) == Lookup(root, ItemsPath(p))
    decreases |ops|
  {
    AcceptedOpsDecode(root, ops);
    if ops != [] {
      var mid := Step(root, ops[0]).value;
      var a := Addressed(ops[0]);
      forall p: nat ensures p != a ==> Lookup(mid, ItemsPath(p)) == Lookup(root, ItemsPath(p)) {
        if p != a { ItemPathsDiverge(a, p); }
        ItemStep(root, ops[0], ItemsPath(p));
      }
      assert AllInventories(mid, participants) by { ItemStep(root, ops[0], []); }
      ItemOpsKeepInventories(mid, ops[1..], participants);
      forall p: nat | (forall i | 0 <= i < |ops| :: Addressed(ops[i]) != p)
        ensures Lookup(ApplyOps(root, ops).value, ItemsPath(p)) == Lookup(root, ItemsPath(p))
      {
        assert Addressed(ops[0]) != p;
        assert forall i | 0 <= i < |ops[1..]| :: ops[1..][i] == ops[i + 1];
      }
    }
  }

  /** "is" permutes the slots, and the same "is" again restores the whole state. */
  lemma {:induction false} SwapUndoesItself(root: Json, p: nat, l: nat, r: nat)
    requires Step(root, SwapOp(p, l, r)).Some?
    ensures Step(Step(root, SwapOp(p, l, r)).value, SwapOp(p, l, r)) == Some(root)
    ensures var path := ItemsPath(p);
            var before := Lookup(root, path);
            var after := Lookup(Step(root, SwapOp(p, l, r)).value, path);
            && before.Some? && before.value.Arr? && after.Some? && after.value.Arr?
            && multiset(after.value.elems) == multiset(before.value.elems)
  {
    var path := ItemsPath(p);
    assert Decode(SwapOp(p, l, r)) == Some(EditAt(path, ItemSwap(l, r)));
    var xs := Lookup(root, path).value.elems;
    var ys := xs[l := xs[r]][r := xs[l]];
    LookupSetAt(root, path, Arr(ys));
    SetAtTwice(root, path, Arr(ys), Arr(xs));
    assert ys[l := ys[r]][r := ys[l]] == xs;
    SetAtSame(root, path);
  }
}
