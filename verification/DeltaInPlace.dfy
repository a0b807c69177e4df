/**
 The relay's loops over live-delta operations.  They edit the lists and
 dictionaries of a copied state in place, and are proved to leave what
 `DeltaReceiver.ApplyOps` says; nothing that existed before is touched.
 */
module DeltaInPlace {
  import opened Wrappers
  import opened Json
  import opened JsonHeap
  import opened DeltaReceiver

  /** All below the topmost object of a picture is right. */
  ghost predicate PartsFit(t: Tree)
    reads Nodes(t)
  {
    && (t.Branch? ==> forall i | 0 <= i < |t.elems| :: Fits(t.elems[i]))
    && (t.Table? ==> forall k | k in t.fields :: Fits(t.fields[k]))
  }

  /** `c` redraws the topmost object of `sub` as `v`, with parts of `sub` and of `added`. */
  ghost predicate Redrawn(sub: Tree, c: Tree, added: set<Node>, v: Json)
    reads Nodes(c)
  {
    && c.node == sub.node && Apart(c) && PartsFit(c)
    && Nodes(c) <= Nodes(sub) + added && Value(c) == v
  }

  lemma {:induction false} ListPut(sub: Tree, i: nat, x: Tree)
    requires sub.Branch? && i < |sub.elems| && Fits(sub) && Apart(sub)
    requires Fits(x) && Apart(x) && Nodes(x) !! Nodes(sub)
    ensures Redrawn(sub, sub.(elems := sub.elems[i := x]), Nodes(x), Arr(Value(sub).elems[i := Value(x)]))
  {
    var c := sub.(elems := sub.elems[i := x]);
    assert Value(c).elems == Value(sub).elems[i := Value(x)];
  }

  /** A list of some of the parts, none of them twice. */
  lemma {:induction false} Rearranged(sub: Tree, ts: seq<Tree>, from: seq<nat>)
    requires sub.Branch? && Fits(sub) && Apart(sub) && |from| == |ts|
    requires forall k | 0 <= k < |ts| :: from[k] < |sub.elems| && ts[k] == sub.elems[from[k]]
    requires forall j, k | 0 <= j < k < |ts| :: from[j] != from[k]
    ensures var c := sub.(elems := ts); Apart(c) && PartsFit(c) && Nodes(c) <= Nodes(sub)
  {
    forall j, k | 0 <= j < k < |ts| ensures Nodes(ts[j]) !! Nodes(ts[k]) {
      assert from[j] < from[k] || from[k] < from[j];
    }
  }

  lemma {:induction false} ListRemove(sub: Tree, i: nat)
    requires sub.Branch? && i < |sub.elems| && Fits(sub) && Apart(sub)
    ensures Redrawn(sub, sub.(elems := sub.elems[..i] + sub.elems[i + 1..]), {}, Arr(Value(sub).elems[..i] + Value(sub).elems[i + 1..]))
  {
    var c := sub.(elems := sub.elems[..i] + sub.elems[i + 1..]);
    Rearranged(sub, c.elems, seq(|c.elems|, k requires 0 <= k < |c.elems| => if k < i then k else k + 1));
    hide Fits, Apart, PartsFit, Nodes;
    assert Value(c).elems == Value(sub).elems[..i] + Value(sub).elems[i + 1..];
  }

  lemma {:induction false} ListExtend(sub: Tree, more: Tree)
    requires sub.Branch? && Fits(sub) && Apart(sub)
    requires more.Branch? && Fits(more) && Apart(more) && Nodes(more) !! Nodes(sub)
    ensures Redrawn(sub, sub.(elems := sub.elems + more.elems), Nodes(more), Arr(Value(sub).elems + Value(more).elems))
  {
    var c := sub.(elems := sub.elems + more.elems);
    forall i, j | 0 <= i < j < |c.elems| ensures Nodes(c.elems[i]) !! Nodes(c.elems[j]) {
      assert i < |sub.elems| ==> Nodes(c.elems[i]) <= Nodes(sub);
      assert j >= |sub.elems| ==> Nodes(c.elems[j]) <= Nodes(more);
    }
    assert Value(c).elems == Value(sub).elems + Value(more).elems;
  }

  lemma {:induction false} ListTruncate(sub: Tree, n: nat)
    requires sub.Branch? && n <= |sub.elems| && Fits(sub) && Apart(sub)
    ensures Redrawn(sub, sub.(elems := sub.elems[..n]), {}, Arr(Value(sub).elems[..n]))
  {
    var c := sub.(elems := sub.elems[..n]);
    Rearranged(sub, c.elems, seq(n, k requires 0 <= k < n => k));
    hide Fits, Apart, PartsFit, Nodes;
    assert Value(c).elems == Value(sub).elems[..n];
  }

  lemma {:induction false} ListSwap(sub: Tree, l: nat, r: nat)
    requires sub.Branch? && l < |sub.elems| && r < |sub.elems| && Fits(sub) && Apart(sub)
    ensures Redrawn(sub, sub.(elems := sub.elems[l := sub.elems[r]][r := sub.elems[l]]), {},
              Arr(Value(sub).elems[l := Value(sub).elems[r]][r := Value(sub).elems[l]]))
  {
    var c := sub.(elems := sub.elems[l := sub.elems[r]][r := sub.elems[l]]);
    Rearranged(sub, c.elems, seq(|c.elems|, k requires 0 <= k < |c.elems| => if k == l then r else if k == r then l else k));
    hide Fits, Apart, PartsFit, Nodes;
    assert Value(c).elems == Value(sub).elems[l := Value(sub).elems[r]][r := Value(sub).elems[l]];
  }

  lemma {:induction false} DictPutApart(sub: Tree, k: string, x: Tree)
    requires sub.Table? && Fits(sub) && Apart(sub)
    requires Fits(x) && Apart(x) && Nodes(x) !! Nodes(sub)
    ensures var c := sub.(fields := sub.fields[k := x]); Apart(c) && PartsFit(c) && Nodes(c) <= Nodes(sub) + Nodes(x)
  {
    var ts := sub.fields[k := x];
    forall l | l in ts ensures Nodes(ts[l]) <= if l == k then Nodes(x) else Nodes(sub) {
    }
  }

  lemma {:induction false} DictPut(sub: Tree, k: string, x: Tree)
    requires sub.Table? && Fits(sub) && Apart(sub)
    requires Fits(x) && Apart(x) && Nodes(x) !! Nodes(sub)
    ensures Redrawn(sub, sub.(fields := sub.fields[k := x]), Nodes(x), Obj(Value(sub).fields[k := Value(x)]))
  {
    var c := sub.(fields := sub.fields[k := x]);
    DictPutApart(sub, k, x);
    hide Fits, Apart, PartsFit, Nodes;
    assert Value(c).fields == Value(sub).fields[k := Value(x)];
  }

  lemma {:induction false} DictRemove(sub: Tree, k: string)
    requires sub.Table? && Fits(sub) && Apart(sub)
    ensures Redrawn(sub, sub.(fields := sub.fields - {k}), {}, Obj(Value(sub).fields - {k}))
  {
    var c := sub.(fields := sub.fields - {k});
    assert Value(c).fields == Value(sub).fields - {k};
  }

  lemma {:induction false} PartsFitBut(t: Tree)
    requires Apart(t) && PartsFit(t)
    ensures FitsBut(t, t.node)
  {
    match t
    case Leaf(_, _) =>
    case Branch(_, ts) =>
      forall i | 0 <= i < |ts| ensures FitsBut(ts[i], t.node) { FitsFitsBut(ts[i], t.node); }
    case Table(_, ts) =>
      forall k | k in ts ensures FitsBut(ts[k], t.node) { FitsFitsBut(ts[k], t.node); }
  }

  lemma {:induction false} FitsFromParts(t: Tree)
    requires Apart(t) && FitsBut(t, t.node) && Holds(t.node.cell, t)
    ensures Fits(t)
  {
    match t
    case Leaf(_, _) =>
    case Branch(_, ts) =>
      forall i | 0 <= i < |ts| ensures Fits(ts[i]) { FitsFitsBut(ts[i], t.node); }
    case Table(_, ts) =>
      forall k | k in ts ensures Fits(ts[k]) { FitsFitsBut(ts[k], t.node); }
  }

  /** One object somewhere in a tree is overwritten. */
  method Overwrite(node: Node, cell: Cell, ghost t: Tree, ghost path: Path, ghost c: Tree, ghost added: set<Node>, ghost v: Json)
    returns (ghost next: Tree)
    requires Fits(t) && Apart(t) && At(t, path).Some? && node == At(t, path).value.node
    requires Redrawn(At(t, path).value, c, added, v) && Holds(cell, c) && added !! Nodes(t)
    modifies node
    ensures Lookup(Value(t), path).Some?
    ensures Represents(t.node, next, SetAt(Value(t), path, v)) && Nodes(next) <= Nodes(t) + added
  {
    hide Fits, FitsBut, Apart, Nodes, Holds, Value, At;
    PartApart(t, path);
    FitsFitsBut(t, node);
    PartsFitBut(c) by { assert PartsFit(c); }
    node.cell := cell;
    FitsFromParts(c);
    ReplaceFits(t, path, c);
    ReplaceApart(t, path, c);
    ValueReplace(t, path, c);
    next := ReplaceAt(t, path, c);
  }

  // ---------- one object ----------

  /** A picture and its object agree on kind and size. */
  lemma {:induction false} SameKind(t: Tree, path: Path)
    requires Fits(t) && At(t, path).Some?
    ensures var sub := At(t, path).value;
            && Fits(sub) && Holds(sub.node.cell, sub) && sub.node in Nodes(t) && Nodes(sub) <= Nodes(t) && Lookup(Value(t), path) == Some(Value(sub))
            && (Apart(t) ==> Apart(sub))
            && (sub.node.cell.List? <==> sub.Branch?) && (sub.Branch? <==> Value(sub).Arr?)
            && (sub.node.cell.Dict? <==> sub.Table?) && (sub.Table? <==> Value(sub).Obj?)
            && (sub.Leaf? ==> sub.node.cell == Cell.Scalar(sub.value) && Value(sub) == sub.value)
            && (sub.Branch? ==> |sub.node.cell.elems| == |sub.elems| == |Value(sub).elems|)
            && (sub.Table? ==> sub.node.cell.fields.Keys == sub.fields.Keys == Value(sub).fields.Keys)
  {
    PartFits(t, path);
    PartApart(t, path);
    ValueAt(t, path);
  }

  /** The list or dictionary at `path` of the tree below `root` is `node`. */
  ghost predicate Hangs(node: Node, t: Tree, path: Path)
    reads Nodes(t)
  {
    Fits(t) && Apart(t) && At(t, path).Some? && At(t, path).value.node == node
  }

  /** Only the value at `path` has changed, to `v`, with new objects at most. */
  ghost predicate Became(t: Tree, path: Path, next: Tree, v: Json)
    reads Nodes(next)
  {
    && Lookup(Value(t), path).Some?
    && Represents(t.node, next, SetAt(Value(t), path, v))
  }

  function ValueOf(t: Tree, path: Path): Json
    requires At(t, path).Some?
  {
    Value(At(t, path).value)
  }

  method PutElem(node: Node, i: nat, value: Json, ghost t: Tree, ghost path: Path) returns (ghost next: Tree)
    requires Hangs(node, t, path) && node.cell.List? && i < |node.cell.elems|
    modifies node
    ensures ValueOf(t, path).Arr? && i < |ValueOf(t, path).elems|
    ensures Became(t, path, next, Arr(ValueOf(t, path).elems[i := value])) && fresh(Nodes(next) - Nodes(t))
  {
    hide Fits, Apart, Nodes, Redrawn, Value, Represents, FitsBut, PartsFit, SetAt, Lookup, At;
    ghost var sub := At(t, path).value;
    SameKind(t, path);
    assert allocated(Nodes(t));
    var item, x := Load(value);
    ListPut(sub, i, x);
    next := Overwrite(node, List(node.cell.elems[i := item]), t, path, sub.(elems := sub.elems[i := x]), Nodes(x),
      Arr(Value(sub).elems[i := value]));
  }

  method RemoveElem(node: Node, i: nat, ghost t: Tree, ghost path: Path) returns (ghost next: Tree)
    requires Hangs(node, t, path) && node.cell.List? && i < |node.cell.elems|
    modifies node
    ensures ValueOf(t, path).Arr? && i < |ValueOf(t, path).elems|
    ensures Became(t, path, next, Arr(ValueOf(t, path).elems[..i] + ValueOf(t, path).elems[i + 1..]))
    ensures fresh(Nodes(next) - Nodes(t))
  {
    hide Fits, Apart, Nodes, Redrawn, Value, Represents, FitsBut, PartsFit, SetAt, Lookup, At;
    ghost var sub := At(t, path).value;
    SameKind(t, path);
    ListRemove(sub, i);
    next := Overwrite(node, List(node.cell.elems[..i] + node.cell.elems[i + 1..]), t, path,
      sub.(elems := sub.elems[..i] + sub.elems[i + 1..]), {}, Arr(Value(sub).elems[..i] + Value(sub).elems[i + 1..]));
  }

  lemma {:induction false} LoadedList(node: Node, t: Tree, values: seq<Json>)
    requires Represents(node, t, Arr(values))
    ensures t.Branch? && node.cell.List? && Holds(node.cell, t) && Fits(t) && Apart(t) && Value(t) == Arr(values)
  {
  }

  method ExtendList(node: Node, values: seq<Json>, ghost t: Tree, ghost path: Path) returns (ghost next: Tree)
    requires Hangs(node, t, path) && node.cell.List?
    modifies node
    ensures ValueOf(t, path).Arr?
    ensures Became(t, path, next, Arr(ValueOf(t, path).elems + values)) && fresh(Nodes(next) - Nodes(t))
  {
    hide Fits, Apart, Nodes, Redrawn, Value, Represents, FitsBut, PartsFit, SetAt, Lookup, At;
    ghost var sub := At(t, path).value;
    SameKind(t, path);
    assert allocated(Nodes(t));
    var more, x := Load(Arr(values));
    LoadedList(more, x, values);
    ListExtend(sub, x);
    next := Overwrite(node, List(node.cell.elems + more.cell.elems), t, path, sub.(elems := sub.elems + x.elems), Nodes(x),
      Arr(Value(sub).elems + values));
  }

  method TruncateList(node: Node, n: nat, ghost t: Tree, ghost path: Path) returns (ghost next: Tree)
    requires Hangs(node, t, path) && node.cell.List? && n <= |node.cell.elems|
    modifies node
    ensures ValueOf(t, path).Arr? && n <= |ValueOf(t, path).elems|
    ensures Became(t, path, next, Arr(ValueOf(t, path).elems[..n])) && fresh(Nodes(next) - Nodes(t))
  {
    hide Fits, Apart, Nodes, Redrawn, Value, Represents, FitsBut, PartsFit, SetAt, Lookup, At;
    ghost var sub := At(t, path).value;
    SameKind(t, path);
    ListTruncate(sub, n);
    next := Overwrite(node, List(node.cell.elems[..n]), t, path, sub.(elems := sub.elems[..n]), {}, Arr(Value(sub).elems[..n]));
  }

  method SwapElems(node: Node, l: nat, r: nat, ghost t: Tree, ghost path: Path) returns (ghost next: Tree)
    requires Hangs(node, t, path) && node.cell.List? && l < |node.cell.elems| && r < |node.cell.elems|
    modifies node
    ensures ValueOf(t, path).Arr? && l < |ValueOf(t, path).elems| && r < |ValueOf(t, path).elems|
    ensures var xs := ValueOf(t, path).elems; Became(t, path, next, Arr(xs[l := xs[r]][r := xs[l]]))
    ensures fresh(Nodes(next) - Nodes(t))
  {
    hide Fits, Apart, Nodes, Redrawn, Value, Represents, FitsBut, PartsFit, SetAt, Lookup, At;
    ghost var sub := At(t, path).value;
    SameKind(t, path);
    ListSwap(sub, l, r);
    next := Overwrite(node, List(node.cell.elems[l := node.cell.elems[r]][r := node.cell.elems[l]]), t, path,
      sub.(elems := sub.elems[l := sub.elems[r]][r := sub.elems[l]]), {},
      Arr(Value(sub).elems[l := Value(sub).elems[r]][r := Value(sub).elems[l]]));
  }

  method PutField(node: Node, k: string, value: Json, ghost t: Tree, ghost path: Path) returns (ghost next: Tree)
    requires Hangs(node, t, path) && node.cell.Dict?
    modifies node
    ensures ValueOf(t, path).Obj?
    ensures Became(t, path, next, Obj(ValueOf(t, path).fields[k := value])) && fresh(Nodes(next) - Nodes(t))
  {
    hide Fits, Apart, Nodes, Redrawn, Value, Represents, FitsBut, PartsFit, SetAt, Lookup, At;
    ghost var sub := At(t, path).value;
    SameKind(t, path);
    assert allocated(Nodes(t));
    var item, x := Load(value);
    DictPut(sub, k, x);
    next := Overwrite(node, Dict(node.cell.fields[k := item]), t, path, sub.(fields := sub.fields[k := x]), Nodes(x),
      Obj(Value(sub).fields[k := value]));
  }

  method RemoveField(node: Node, k: string, ghost t: Tree, ghost path: Path) returns (ghost next: Tree)
    requires Hangs(node, t, path) && node.cell.Dict?
    modifies node
    ensures ValueOf(t, path).Obj?
    ensures Became(t, path, next, Obj(ValueOf(t, path).fields - {k})) && fresh(Nodes(next) - Nodes(t))
  {
    hide Fits, Apart, Nodes, Redrawn, Value, Represents, FitsBut, PartsFit, SetAt, Lookup, At;
    ghost var sub := At(t, path).value;
    SameKind(t, path);
    DictRemove(sub, k);
    next := Overwrite(node, Dict(node.cell.fields - {k}), t, path, sub.(fields := sub.fields - {k}), {},
      Obj(Value(sub).fields - {k}));
  }

  // ---------- the relay's loops ----------

  lemma {:induction false} NextNode(t: Tree, s: Seg)
    requires Fits(t)
    ensures match s
            case Idx(i) => Sub(t, s).Some? <==> t.node.cell.List? && i < |t.node.cell.elems|
            case Key(k) => Sub(t, s).Some? <==> t.node.cell.Dict? && k in t.node.cell.fields
    ensures Sub(t, s).Some? ==>
              && Fits(Sub(t, s).value)
              && Sub(t, s).value.node == match s { case Idx(i) => t.node.cell.elems[i] case Key(k) => t.node.cell.fields[k] }
  {
  }

  method LiveDeltaTarget(root: Node, path: Path, ghost t: Tree) returns (target: Option<Node>)
    requires t.node == root && Fits(t)
    ensures target == match At(t, path) { case None => None case Some(sub) => Some(sub.node) }
  {
    hide Fits, Sub;
    var current := root;
    ghost var sub := t;
    for i := 0 to |path|
      invariant At(t, path[..i]) == Some(sub) && sub.node == current && Fits(sub)
    {
      AtJoin(t, path[..i], path[i..]);
      assert path[..i] + path[i..] == path;
      AtJoin(t, path[..i], [path[i]]);
      assert path[..i] + [path[i]] == path[..i + 1];
      NextNode(sub, path[i]);
      if path[i].Idx? {
        if !current.cell.List? || path[i].index >= |current.cell.elems| {
          return None;
        }
        current := current.cell.elems[path[i].index];
      } else {
        if !current.cell.Dict? || path[i].key !in current.cell.fields {
          return None;
        }
        current := current.cell.fields[path[i].key];
      }
      sub := Sub(sub, path[i]).value;
    }
    assert path[..|path|] == path;
    target := Some(current);
  }

  /** Either the operation is refused, or the tree below `next` is what it makes of `before`. */
  ghost predicate Performed(before: Json, op: Option<Op>, next: Option<Node>, after: Tree)
    reads Nodes(after)
  {
    match Perform(before, op)
    case None => next.None?
    case Some(v) => next.Some? && Represents(next.value, after, v)
  }

  function Write(seg: Seg, value: Option<Json>): Edit {
    if value.Some? then Put(seg, value.value) else Remove(seg)
  }

  method EditElem(root: Node, node: Node, path: Path, i: nat, value: Option<Json>, ghost t: Tree)
    returns (next: Option<Node>, ghost after: Tree)
    requires Hangs(root, t, []) && Hangs(node, t, path)
    modifies Nodes(t)
    ensures Performed(Value(t), Some(EditAt(path, Write(Idx(i), value))), next, after)
    ensures fresh(Nodes(after) - Nodes(t))
  {
    hide Fits, Apart, Redrawn, Value, Represents, FitsBut, PartsFit, SetAt, Lookup;
    after := t;
    SameKind(t, path);
    if !node.cell.List? || i >= |node.cell.elems| {
      return None, t;
    }
    if value.Some? {
      after := PutElem(node, i, value.value, t, path);
    } else {
      after := RemoveElem(node, i, t, path);
    }
    next := Some(root);
  }

  method EditField(root: Node, node: Node, path: Path, k: string, value: Option<Json>, ghost t: Tree)
    returns (next: Option<Node>, ghost after: Tree)
    requires Hangs(root, t, []) && Hangs(node, t, path)
    modifies Nodes(t)
    ensures Performed(Value(t), Some(EditAt(path, Write(Key(k), value))), next, after)
    ensures fresh(Nodes(after) - Nodes(t))
  {
    hide Fits, Apart, Redrawn, Value, Represents, FitsBut, PartsFit, SetAt, Lookup;
    after := t;
    SameKind(t, path);
    if !node.cell.Dict? || (value.None? && k !in node.cell.fields) {
      return None, t;
    }
    if value.Some? {
      after := PutField(node, k, value.value, t, path);
    } else {
      after := RemoveField(node, k, t, path);
    }
    next := Some(root);
  }

  /** "s" and "d" below the root: the container of the last segment is edited. */
  method EditContainer(root: Node, parentPath: Path, seg: Seg, value: Option<Json>, ghost t: Tree)
    returns (next: Option<Node>, ghost after: Tree)
    requires Hangs(root, t, [])
    modifies Nodes(t)
    ensures Performed(Value(t), Some(EditAt(parentPath, Write(seg, value))), next, after)
    ensures fresh(Nodes(after) - Nodes(t))
  {
    hide Fits, Apart, Redrawn, Value, FitsBut, PartsFit, SetAt;
    after := t;
    ValueAt(t, parentPath);
    assert allocated(Nodes(t));
    var parent := LiveDeltaTarget(root, parentPath, t);
    if parent.None? {
      return None, t;
    }
    match seg
    case Idx(i) =>
      next, after := EditElem(root, parent.value, parentPath, i, value, t);
    case Key(k) =>
      next, after := EditField(root, parent.value, parentPath, k, value, t);
  }

  /** "a" and "t": the array at the path grows or shrinks. */
  method EditLength(root: Node, path: Path, edit: Edit, ghost t: Tree) returns (next: Option<Node>, ghost after: Tree)
    requires Hangs(root, t, []) && (edit.Extend? || edit.Truncate?)
    modifies Nodes(t)
    ensures Performed(Value(t), Some(EditAt(path, edit)), next, after)
    ensures fresh(Nodes(after) - Nodes(t))
  {
    hide Fits, Apart, Redrawn, Value, Represents, FitsBut, PartsFit, SetAt, Lookup;
    after := t;
    ValueAt(t, path);
    assert allocated(Nodes(t));
    var target := LiveDeltaTarget(root, path, t);
    if target.None? {
      return None, t;
    }
    var node := target.value;
    SameKind(t, path);
    if !node.cell.List? || (edit.Truncate? && edit.length > |node.cell.elems|) {
      return None, t;
    }
    if edit.Extend? {
      after := ExtendList(node, edit.values, t, path);
    } else {
      after := TruncateList(node, edit.length, t, path);
    }
    next := Some(root);
  }

  method ApplyTreeOp(root: Node, op: seq<Json>, ghost t: Tree) returns (next: Option<Node>, ghost after: Tree)
    requires |op| >= 2 && Hangs(root, t, [])
    modifies Nodes(t)
    ensures Performed(Value(t), DecodeTreeOp(op), next, after)
    ensures fresh(Nodes(after) - Nodes(t))
  {
    hide Fits, Apart, Value, EditPath;
    after := t;
    assert allocated(Nodes(t));
    var decoded := LiveDeltaPath(op[1]);
    if decoded.None? {
      return None, t;
    }
    var path := decoded.value;
    if op[0] == Str("s") {
      if |op| != 3 {
        return None, t;
      }
      if path == [] {
        if !op[2].Obj? {
          return None, t;
        }
        next, after := ReplaceWith(op[2]);
      } else {
        next, after := EditContainer(root, path[..|path| - 1], path[|path| - 1], Some(op[2]), t);
      }
    } else if op[0] == Str("d") {
      if |op| != 2 || path == [] {
        return None, t;
      }
      next, after := EditContainer(root, path[..|path| - 1], path[|path| - 1], None, t);
    } else if op[0] == Str("a") {
      if |op| != 3 || !op[2].Arr? {
        return None, t;
      }
      next, after := EditLength(root, path, Extend(op[2].elems), t);
    } else if op[0] == Str("t") {
      if |op| != 3 || !op[2].Int? || op[2].n < 0 {
        return None, t;
      }
      next, after := EditLength(root, path, Truncate(op[2].n), t);
    } else {
      next := None;
    }
  }

  method ReplaceWith(state: Json) returns (next: Option<Node>, ghost after: Tree)
    ensures next.Some? && Represents(next.value, after, state) && fresh(Nodes(after))
  {
    var value, x := Load(state);
    next, after := Some(value), x;
  }

  // ---------- inventories ----------

  lemma {:induction false} SlotsPathSteps(t: Tree, participant: nat)
    ensures At(t, ItemsPath(participant)) ==
            match Sub(t, Key("participants")) { case None => None case Some(rows) =>
            match Sub(rows, Idx(participant)) { case None => None case Some(row) => Sub(row, Key("items")) } }
  {
    var path := ItemsPath(participant);
    assert path == [Key("participants")] + ([Idx(participant)] + [Key("items")]);
    AtJoin(t, [Key("participants")], [Idx(participant)] + [Key("items")]);
    match Sub(t, Key("participants"))
    case None =>
    case Some(rows) => AtJoin(rows, [Idx(participant)], [Key("items")]);
  }

  method LiveItemSlots(root: Node, participant: nat, ghost t: Tree) returns (items: Option<Node>)
    requires t.node == root && Fits(t)
    ensures items == match At(t, ItemsPath(participant)) {
                       case Some(Branch(node, slots)) => if |slots| == 7 then Some(node) else None
                       case _ => None
                     }
  {
    SlotsPathSteps(t, participant);
    if !root.cell.Dict? || "participants" !in root.cell.fields {
      return None;
    }
    var participants := root.cell.fields["participants"];
    if !participants.cell.List? || participant >= |participants.cell.elems| {
      return None;
    }
    var row := participants.cell.elems[participant];
    assert Fits(t.fields["participants"].elems[participant]);
    if !row.cell.Dict? || "items" !in row.cell.fields {
      return None;
    }
    var slots := row.cell.fields["items"];
    if !slots.cell.List? || |slots.cell.elems| != 7 {
      return None;
    }
    items := Some(slots);
  }

  /** Changing one slot inside an inventory is changing the inventory. */
  lemma {:induction false} SlotInside(v: Json, path: Path, slot: nat, x: Json)
    requires Lookup(v, path).Some? && Lookup(v, path).value.Arr? && slot < |Lookup(v, path).value.elems|
    ensures Lookup(v, path + [Idx(slot)]) == Some(Lookup(v, path).value.elems[slot])
    ensures SetAt(v, path + [Idx(slot)], x) == SetAt(v, path, Arr(Lookup(v, path).value.elems[slot := x]))
  {
    var items := Lookup(v, path).value;
    LookupJoin(v, path, [Idx(slot)]);
    assert Lookup(items, [Idx(slot)]) == Some(items.elems[slot]);
    SetAtJoin(v, path, [Idx(slot)], x);
    assert SetAt(items.elems[slot], [Idx(slot)][1..], x) == x;
  }

  /** The integer count of an item. */
  function CountOf(v: Json): Option<int> {
    if v.Obj? && "count" in v.fields && v.fields["count"].Int? then Some(v.fields["count"].n) else None
  }

  method ReadCount(item: Node, ghost t: Tree) returns (count: Option<int>)
    requires t.node == item && Fits(t)
    ensures count == CountOf(Value(t)) && (count.Some? ==> item.cell.Dict?)
  {
    hide Fits, Value;
    SameKind(t, []);
    if !item.cell.Dict? || "count" !in item.cell.fields {
      return None;
    }
    NextNode(t, Key("count"));
    ValueSub(t, Key("count"));
    SameKind(t.fields["count"], []);
    var cell := item.cell.fields["count"].cell;
    count := if cell.Scalar? && cell.value.Int? then Some(cell.value.n) else None;
  }

  /** A recount of a slot is a new count in the item it holds. */
  lemma {:induction false} CountInside(v: Json, path: Path, slot: nat, delta: int)
    requires Lookup(v, path).Some? && Lookup(v, path).value.Arr? && |Lookup(v, path).value.elems| == 7 && slot < 7
    ensures Lookup(v, path + [Idx(slot)]).Some?
    ensures var item := Lookup(v, path + [Idx(slot)]).value;
            EditPath(v, path, ItemCount(slot, delta)) ==
            match CountOf(item) {
              case None => None
              case Some(n) =>
                if 0 < n + delta <= 999
                then Some(SetAt(v, path + [Idx(slot)], Obj(item.fields["count" := Int(n + delta)]))) else None
            }
  {
    SlotInside(v, path, slot, Null);
    var item := Lookup(v, path + [Idx(slot)]).value;
    match CountOf(item)
    case None =>
    case Some(n) => SlotInside(v, path, slot, Obj(item.fields["count" := Int(n + delta)]));
  }

  method CountItem(root: Node, items: Node, path: Path, slot: nat, delta: int, ghost t: Tree)
    returns (next: Option<Node>, ghost after: Tree)
    requires Hangs(root, t, []) && Hangs(items, t, path)
    requires items.cell.List? && |items.cell.elems| == 7 && slot < 7
    modifies Nodes(t)
    ensures Performed(Value(t), Some(EditAt(path, ItemCount(slot, delta))), next, after)
    ensures fresh(Nodes(after) - Nodes(t))
  {
    hide Fits, Apart, Redrawn, Value, Represents, FitsBut, PartsFit, SetAt, Lookup, EditPath, CountOf;
    after := t;
    SameKind(t, path);
    AtJoin(t, path, [Idx(slot)]);
    NextNode(At(t, path).value, Idx(slot));
    ghost var place := path + [Idx(slot)];
    ghost var sub := At(t, place).value;
    SameKind(t, place);
    CountInside(Value(t), path, slot, delta);
    var item := items.cell.elems[slot];
    assert allocated(Nodes(t));
    var count := ReadCount(item, sub);
    if count.None? || count.value + delta <= 0 || count.value + delta > 999 {
      return None, t;
    }
    after := PutField(item, "count", Int(count.value + delta), t, place);
    next := Some(root);
  }

  /** An edit of slots that every inventory has. */
  predicate InventoryEdit(edit: Edit) {
    match edit
    case ItemAdd(slot, _) => slot < 7
    case ItemCount(slot, _) => slot < 7
    case ItemSwap(l, r) => l < 7 && r < 7
    case ItemRemove(slot) => slot < 7
    case _ => false
  }

  lemma {:induction false} DecodedItemOp(op: seq<Json>)
    requires op != [] && IsItemKind(op[0]) && DecodeItemOp(op).Some?
    ensures |op| > 1 && op[1].Int? && op[1].n >= 0
    ensures DecodeItemOp(op).value.EditAt? && DecodeItemOp(op).value.path == ItemsPath(op[1].n)
    ensures InventoryEdit(DecodeItemOp(op).value.edit)
  {
  }

  lemma {:induction false} NoInventory(v: Json, path: Path, edit: Edit)
    requires InventoryEdit(edit)
    requires !(Lookup(v, path).Some? && Lookup(v, path).value.Arr? && |Lookup(v, path).value.elems| == 7)
    ensures EditPath(v, path, edit).None?
  {
  }

  /** What an item operation does to the seven slots it has found. */
  method EditInventory(root: Node, items: Node, path: Path, edit: Edit, ghost t: Tree)
    returns (next: Option<Node>, ghost after: Tree)
    requires Hangs(root, t, []) && Hangs(items, t, path)
    requires items.cell.List? && |items.cell.elems| == 7
    requires InventoryEdit(edit)
    modifies Nodes(t)
    ensures Performed(Value(t), Some(EditAt(path, edit)), next, after)
    ensures fresh(Nodes(after) - Nodes(t))
  {
    hide Fits, Apart, Value, Represents, Redrawn, FitsBut, PartsFit, SetAt;
    SameKind(t, path);
    match edit
    case ItemAdd(slot, item) =>
      after := PutElem(items, slot, item, t, path);
      next := Some(root);
    case ItemCount(slot, delta) =>
      next, after := CountItem(root, items, path, slot, delta, t);
    case ItemSwap(l, r) =>
      after := SwapElems(items, l, r, t, path);
      next := Some(root);
    case ItemRemove(slot) =>
      after := PutElem(items, slot, Null, t, path);
      next := Some(root);
  }

  /** Item operations edit one inventory; anything else is left to the tree operations. */
  method ApplyLiveItemOp(root: Node, op: seq<Json>, ghost t: Tree)
    returns (handled: bool, next: Option<Node>, ghost after: Tree)
    requires op != [] && Hangs(root, t, [])
    modifies Nodes(t)
    ensures handled == IsItemKind(op[0])
    ensures !handled ==> Fits(t)
    ensures handled ==> Performed(Value(t), DecodeItemOp(op), next, after)
    ensures fresh(Nodes(after) - Nodes(t))
  {
    hide Fits, Apart, Value, Represents, Redrawn, FitsBut, PartsFit, SetAt, Lookup, DecodeItemOp, ItemsPath, InventoryEdit;
    after := t;
    if !IsItemKind(op[0]) {
      return false, None, t;
    }
    handled := true;
    var decoded := DecodeItemOp(op);
    if decoded.None? {
      return true, None, t;
    }
    DecodedItemOp(op);
    var path := ItemsPath(op[1].n);
    ValueAt(t, path);
    assert allocated(Nodes(t));
    var items := LiveItemSlots(root, op[1].n, t);
    if At(t, path).Some? {
      SameKind(t, path);
    }
    if items.None? {
      NoInventory(Value(t), path, decoded.value.edit);
      return true, None, t;
    }
    next, after := EditInventory(root, items.value, path, decoded.value.edit, t);
  }

  method ApplyOp(root: Node, raw: Json, ghost t: Tree) returns (crashed: bool, next: Option<Node>, ghost after: Tree)
    requires Hangs(root, t, [])
    modifies Nodes(t)
    ensures crashed == RaisesTypeError(raw)
    ensures Performed(Value(t), Decode(raw), next, after)
    ensures fresh(Nodes(after) - Nodes(t))
  {
    hide Fits, Apart, Value, DecodeItemOp, DecodePath;
    crashed, after := false, t;
    if !raw.Arr? || |raw.elems| < 2 {
      return false, None, t;
    }
    if Unhashable(raw.elems[0]) {
      return true, None, t;
    }
    var handled;
    handled, next, after := ApplyLiveItemOp(root, raw.elems, t);
    if !handled {
      next, after := ApplyTreeOp(root, raw.elems, t);
    }
  }

  /** The base is left as it is: only copies are changed. */
  method ApplyLiveDeltaOps(base: Node, ops: seq<Json>, ghost t: Tree)
    returns (crashed: bool, state: Option<Node>, ghost after: Tree)
    requires t.node == base && Fits(t) && Value(t).Obj?
    ensures crashed == Crashes(Value(t), ops)
    ensures match ApplyOps(Value(t), ops)
            case None => state.None?
            case Some(v) => state.Some? && v.Obj? && Represents(state.value, after, v) && fresh(Nodes(after))
    ensures Fits(t)
  {
    hide Fits, Apart, Value, Decode, EditPath, RaisesTypeError;
    assert allocated(Nodes(t));
    var text := Dump(base, t);
    var root, now := Load(text);
    after := now;
    ghost var current := text;
    for i := 0 to |ops|
      invariant fresh(Nodes(now)) && Represents(root, now, current) && current.Obj?
      invariant ApplyOps(Value(t), ops) == ApplyOps(current, ops[i..])
      invariant Crashes(Value(t), ops) == Crashes(current, ops[i..])
    {
      assert ops[i..][0] == ops[i] && ops[i..][1..] == ops[i + 1..];
      var failed, next, edited := ApplyOp(root, ops[i], now);
      if next.None? {
        return failed, None, now;
      }
      NoCrash(current, ops[i]);
      StepKeepsObject(current, ops[i]);
      root, now, current := next.value, edited, Step(current, ops[i]).value;
    }
    SameKind(now, []);
    if !root.cell.Dict? {
      return false, None, now;
    }
    crashed, state, after := false, Some(root), now;
  }

  lemma {:induction false} NoCrash(root: Json, raw: Json)
    requires Step(root, raw).Some?
    ensures !RaisesTypeError(raw)
  {
    if RaisesTypeError(raw) {
      CrashIsNoResult(root, [raw]);
    }
  }
}
