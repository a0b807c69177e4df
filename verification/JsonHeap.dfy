/**
 JSON as a running process holds it: lists and dictionaries are objects that
 are changed in place.  A `Tree` is a ghost picture of what hangs below an
 object: which objects they are and what they say.
 */
module JsonHeap {
  import opened Wrappers
  import opened Json

  type Scalar = j: Json | !j.Arr? && !j.Obj? witness Null

  datatype Cell = Scalar(value: Scalar) | List(elems: seq<Node>) | Dict(fields: map<string, Node>)

  class Node {
    var cell: Cell

    constructor (cell: Cell)
      ensures this.cell == cell
    {
      this.cell := cell;
    }
  }

  datatype Tree =
    | Leaf(node: Node, value: Scalar)
    | Branch(node: Node, elems: seq<Tree>)
    | Table(node: Node, fields: map<string, Tree>)

  /** The JSON value a picture shows. */
  function Value(t: Tree): Json {
    match t
    case Leaf(_, v) => v
    case Branch(_, ts) => Arr(seq(|ts|, i requires 0 <= i < |ts| => Value(ts[i])))
    case Table(_, ts) => Obj(map k | k in ts :: Value(ts[k]))
  }

  ghost function Nodes(t: Tree): set<Node> {
    match t
    case Leaf(n, _) => {n}
    case Branch(n, ts) => {n} + set i, m | 0 <= i < |ts| && m in Nodes(ts[i]) :: m
    case Table(n, ts) => {n} + set k, m | k in ts && m in Nodes(ts[k]) :: m
  }

  /** What the topmost object of a picture holds. */
  ghost predicate Holds(cell: Cell, t: Tree) {
    match t
    case Leaf(_, v) => cell == Cell.Scalar(v)
    case Branch(_, ts) =>
      cell.List? && |cell.elems| == |ts| && forall i | 0 <= i < |ts| :: cell.elems[i] == ts[i].node
    case Table(_, ts) =>
      cell.Dict? && cell.fields.Keys == ts.Keys && forall k | k in ts :: cell.fields[k] == ts[k].node
  }

  /** The objects are as the picture shows them. */
  ghost predicate Fits(t: Tree)
    reads Nodes(t)
  {
    && Holds(t.node.cell, t)
    && (t.Branch? ==> forall i | 0 <= i < |t.elems| :: Fits(t.elems[i]))
    && (t.Table? ==> forall k | k in t.fields :: Fits(t.fields[k]))
  }

  /** All objects but `out` are. */
  ghost predicate FitsBut(t: Tree, out: Node)
    reads Nodes(t) - {out}
  {
    && (t.node != out ==> Holds(t.node.cell, t))
    && (t.Branch? ==> forall i | 0 <= i < |t.elems| :: FitsBut(t.elems[i], out))
    && (t.Table? ==> forall k | k in t.fields :: FitsBut(t.fields[k], out))
  }

  /** No object hangs in two places. */
  ghost predicate Apart(t: Tree) {
    match t
    case Leaf(_, _) => true
    case Branch(n, ts) =>
      && (forall i | 0 <= i < |ts| :: n !in Nodes(ts[i]) && Apart(ts[i]))
      && forall i, j | 0 <= i < j < |ts| :: Nodes(ts[i]) !! Nodes(ts[j])
    case Table(n, ts) =>
      && (forall k | k in ts :: n !in Nodes(ts[k]) && Apart(ts[k]))
      && forall k, l | k in ts && l in ts && k != l :: Nodes(ts[k]) !! Nodes(ts[l])
  }

  // ---------- paths ----------

  function Sub(t: Tree, s: Seg): (c: Option<Tree>)
    ensures c.Some? ==> c.value < t
  {
    match s
    case Key(k) => if t.Table? && k in t.fields then Some(t.fields[k]) else None
    case Idx(i) => if t.Branch? && i < |t.elems| then Some(t.elems[i]) else None
  }

  function WithSub(t: Tree, s: Seg, c: Tree): Tree
    requires Sub(t, s).Some?
  {
    match s
    case Key(k) => t.(fields := t.fields[k := c])
    case Idx(i) => t.(elems := t.elems[i := c])
  }

  function At(t: Tree, path: Path): Option<Tree> {
    if path == [] then Some(t)
    else match Sub(t, path[0])
      case None => None
      case Some(c) => At(c, path[1..])
  }

  function ReplaceAt(t: Tree, path: Path, c: Tree): Tree
    requires At(t, path).Some?
  {
    if path == [] then c
    else WithSub(t, path[0], ReplaceAt(Sub(t, path[0]).value, path[1..], c))
  }

  lemma {:induction false} ValueSub(t: Tree, s: Seg)
    ensures Child(Value(t), s) == match Sub(t, s) { case None => None case Some(c) => Some(Value(c)) }
  {
  }

  lemma {:induction false} ValueAt(t: Tree, path: Path)
    ensures Lookup(Value(t), path) == match At(t, path) { case None => None case Some(c) => Some(Value(c)) }
  {
    if path != [] {
      ValueSub(t, path[0]);
      match Sub(t, path[0])
      case None =>
      case Some(c) => ValueAt(c, path[1..]);
    }
  }

  lemma {:induction false} ValueReplace(t: Tree, path: Path, c: Tree)
    requires At(t, path).Some?
    ensures Lookup(Value(t), path).Some?
    ensures Value(ReplaceAt(t, path, c)) == SetAt(Value(t), path, Value(c))
  {
    ValueAt(t, path);
    if path != [] {
      var sub := Sub(t, path[0]).value;
      ValueSub(t, path[0]);
      ValueReplace(sub, path[1..], c);
      match path[0]
      case Key(k) =>
        assert Value(ReplaceAt(t, path, c)).fields == Value(t).fields[k := Value(ReplaceAt(sub, path[1..], c))];
      case Idx(i) =>
        assert Value(ReplaceAt(t, path, c)).elems == Value(t).elems[i := Value(ReplaceAt(sub, path[1..], c))];
    }
  }

  lemma {:induction false} AtJoin(t: Tree, p: Path, q: Path)
    ensures At(t, p + q) == match At(t, p) { case None => None case Some(c) => At(c, q) }
  {
    if p == [] {
      assert p + q == q;
    } else {
      assert (p + q)[0] == p[0] && (p + q)[1..] == p[1..] + q;
      match Sub(t, p[0])
      case None =>
      case Some(c) => AtJoin(c, p[1..], q);
    }
  }

  lemma {:induction false} OwnNode(t: Tree)
    ensures t.node in Nodes(t)
  {
  }

  /** What holds of a picture holds of every part of it. */
  lemma {:induction false} PartFits(t: Tree, path: Path)
    requires Fits(t) && At(t, path).Some?
    ensures Fits(At(t, path).value)
  {
    if path != [] {
      PartFits(Sub(t, path[0]).value, path[1..]);
    }
  }

  lemma {:induction false} PartApart(t: Tree, path: Path)
    requires At(t, path).Some?
    ensures Nodes(At(t, path).value) <= Nodes(t)
    ensures Apart(t) ==> Apart(At(t, path).value)
  {
    if path != [] {
      PartApart(Sub(t, path[0]).value, path[1..]);
    }
  }

  lemma {:induction false} WithSubApart(t: Tree, s: Seg, c: Tree)
    requires Apart(t) && Apart(c) && Sub(t, s).Some?
    requires Nodes(c) * Nodes(t) <= Nodes(Sub(t, s).value)
    ensures Apart(WithSub(t, s, c))
    ensures Nodes(WithSub(t, s, c)) <= Nodes(t) + Nodes(c)
  {
  }

  /** Replacing a part by one made of its own and of new objects keeps everything apart. */
  lemma {:induction false} ReplaceApart(t: Tree, path: Path, c: Tree)
    requires Apart(t) && Apart(c) && At(t, path).Some?
    requires Nodes(c) * Nodes(t) <= Nodes(At(t, path).value)
    ensures Apart(ReplaceAt(t, path, c))
    ensures Nodes(ReplaceAt(t, path, c)) <= Nodes(t) + Nodes(c)
  {
    hide Nodes, Apart, WithSub;
    if path != [] {
      var sub := Sub(t, path[0]).value;
      PartApart(t, [path[0]]);
      assert At(sub, []) == Some(sub);
      PartApart(sub, path[1..]);
      ReplaceApart(sub, path[1..], c);
      WithSubApart(t, path[0], ReplaceAt(sub, path[1..], c));
    }
  }

  lemma {:induction false} FitsFitsBut(t: Tree, out: Node)
    ensures Fits(t) ==> FitsBut(t, out)
    ensures FitsBut(t, out) && out !in Nodes(t) ==> Fits(t)
  {
    match t
    case Leaf(_, _) =>
    case Branch(_, ts) =>
      forall i | 0 <= i < |ts|
        ensures Fits(ts[i]) ==> FitsBut(ts[i], out)
        ensures FitsBut(ts[i], out) && out !in Nodes(ts[i]) ==> Fits(ts[i])
      {
        FitsFitsBut(ts[i], out);
      }
    case Table(_, ts) =>
      forall k | k in ts
        ensures Fits(ts[k]) ==> FitsBut(ts[k], out)
        ensures FitsBut(ts[k], out) && out !in Nodes(ts[k]) ==> Fits(ts[k])
      {
        FitsFitsBut(ts[k], out);
      }
  }

  lemma {:induction false} WithSubFits(t: Tree, s: Seg, c: Tree, out: Node)
    requires Apart(t) && Sub(t, s).Some? && c.node == Sub(t, s).value.node
    requires FitsBut(t, out) && out in Nodes(Sub(t, s).value) && Fits(c)
    ensures Fits(WithSub(t, s, c))
  {
    match s
    case Key(k) =>
      forall l | l in t.fields && l != k ensures Fits(t.fields[l]) {
        FitsFitsBut(t.fields[l], out);
      }
    case Idx(i) =>
      forall j | 0 <= j < |t.elems| && j != i ensures Fits(t.elems[j]) {
        FitsFitsBut(t.elems[j], out);
      }
  }

  /** When only the object at `path` has changed, redrawing that part makes the picture right. */
  lemma {:induction false} ReplaceFits(t: Tree, path: Path, c: Tree)
    requires Apart(t) && At(t, path).Some? && c.node == At(t, path).value.node
    requires FitsBut(t, c.node) && Fits(c)
    ensures Fits(ReplaceAt(t, path, c))
    ensures ReplaceAt(t, path, c).node == t.node
  {
    hide Holds, Nodes;
    if path != [] {
      var sub := Sub(t, path[0]).value;
      PartApart(sub, path[1..]);
      OwnNode(At(sub, path[1..]).value);
      ReplaceFits(sub, path[1..], c);
      WithSubFits(t, path[0], ReplaceAt(sub, path[1..], c), c.node);
    }
  }

  // ---------- reading and writing text ----------

  /** `node` stands for `v`, and nothing below it is shared. */
  ghost predicate Represents(node: Node, t: Tree, v: Json)
    reads Nodes(t)
  {
    t.node == node && Fits(t) && Apart(t) && Value(t) == v
  }

  lemma {:induction false} ListRepresents(t: Tree, nodes: seq<Node>, v: Json)
    requires t.Branch? && t.node.cell == List(nodes) && v.Arr? && |nodes| == |t.elems| == |v.elems|
    requires forall i | 0 <= i < |nodes| :: t.node !in Nodes(t.elems[i]) && Represents(nodes[i], t.elems[i], v.elems[i])
    requires forall i, j | 0 <= i < j < |nodes| :: Nodes(t.elems[i]) !! Nodes(t.elems[j])
    ensures Represents(t.node, t, v)
    ensures forall m | m in Nodes(t) && m != t.node :: exists i :: 0 <= i < |nodes| && m in Nodes(t.elems[i])
  {
    forall i | 0 <= i < |nodes| ensures nodes[i] == t.elems[i].node {
      assert Represents(nodes[i], t.elems[i], v.elems[i]);
    }
    assert Value(t).elems == v.elems;
  }

  ghost predicate Loaded(nodes: map<string, Node>, trees: map<string, Tree>, v: Json, used: set<Node>)
    requires v.Obj?
    reads used
  {
    && nodes.Keys == trees.Keys <= v.fields.Keys
    && (forall k | k in nodes :: Nodes(trees[k]) <= used && Represents(nodes[k], trees[k], v.fields[k]))
    && forall k, l | k in nodes && l in nodes && k != l :: Nodes(trees[k]) !! Nodes(trees[l])
  }

  lemma {:induction false} LoadedMore(nodes: map<string, Node>, trees: map<string, Tree>, v: Json, used: set<Node>,
      k: string, child: Node, childTree: Tree)
    requires v.Obj? && Loaded(nodes, trees, v, used)
    requires k in v.fields && Represents(child, childTree, v.fields[k]) && Nodes(childTree) !! used
    ensures Loaded(nodes[k := child], trees[k := childTree], v, used + Nodes(childTree))
  {
    hide Represents, Nodes;
  }

  lemma {:induction false} NothingLoaded(v: Json)
    requires v.Obj?
    ensures Loaded(map[], map[], v, {})
  {
  }

  lemma {:induction false} DictRepresents(t: Tree, nodes: map<string, Node>, v: Json, used: set<Node>)
    requires t.Table? && t.node.cell == Dict(nodes) && v.Obj? && nodes.Keys == v.fields.Keys
    requires Loaded(nodes, t.fields, v, used) && t.node !in used
    ensures Represents(t.node, t, v) && Nodes(t) <= {t.node} + used
  {
    forall k | k in nodes ensures nodes[k] == t.fields[k].node {
      assert Represents(nodes[k], t.fields[k], v.fields[k]);
    }
    assert Value(t).fields == v.fields;
  }

  /** `json.loads`: new objects for the value. */
  method Load(v: Json) returns (node: Node, ghost t: Tree)
    ensures Represents(node, t, v) && fresh(Nodes(t))
    decreases v
  {
    match v
    case Arr(elems) =>
      node, t := LoadList(v);
    case Obj(fields) =>
      node, t := LoadDict(v);
    case _ =>
      node := new Node(Cell.Scalar(v));
      t := Leaf(node, v);
  }

  method LoadList(v: Json) returns (node: Node, ghost t: Tree)
    requires v.Arr?
    ensures Represents(node, t, v) && fresh(Nodes(t))
    decreases v, 0
  {
    hide *;
    var nodes: seq<Node> := [];
    ghost var trees: seq<Tree> := [];
    for i := 0 to |v.elems|
      invariant |nodes| == |trees| == i
      invariant forall j | 0 <= j < i :: Represents(nodes[j], trees[j], v.elems[j]) && fresh(Nodes(trees[j]))
      invariant forall j, k | 0 <= j < k < i :: Nodes(trees[j]) !! Nodes(trees[k])
    {
      assert forall j | 0 <= j < i :: allocated(Nodes(trees[j]));
      var child, childTree := Load(v.elems[i]);
      nodes, trees := nodes + [child], trees + [childTree];
    }
    assert forall j | 0 <= j < |trees| :: allocated(Nodes(trees[j]));
    node := new Node(List(nodes));
    t := Branch(node, trees);
    ListRepresents(t, nodes, v);
  }

  method LoadDict(v: Json) returns (node: Node, ghost t: Tree)
    requires v.Obj?
    ensures Represents(node, t, v) && fresh(Nodes(t))
    decreases v, 0
  {
    hide Represents, Nodes, Loaded;
    var nodes: map<string, Node> := map[];
    ghost var trees: map<string, Tree> := map[];
    ghost var used: set<Node> := {};
    NothingLoaded(v);
    var rest := v.fields.Keys;
    while rest != {}
      invariant rest <= v.fields.Keys && nodes.Keys == v.fields.Keys - rest
      invariant fresh(used) && Loaded(nodes, trees, v, used)
      decreases |rest|
    {
      var k :| k in rest;
      rest := rest - {k};
      var child, childTree := Load(v.fields[k]);
      LoadedMore(nodes, trees, v, used, k, child, childTree);
      nodes, trees, used := nodes[k := child], trees[k := childTree], used + Nodes(childTree);
    }
    node := new Node(Dict(nodes));
    t := Table(node, trees);
    DictRepresents(t, nodes, v, used);
  }

  /** `json.dumps`: the value an object stands for. */
  method Dump(node: Node, ghost t: Tree) returns (v: Json)
    requires t.node == node && Fits(t)
    ensures v == Value(t)
    decreases t
  {
    match node.cell
    case Scalar(value) =>
      v := value;
    case List(nodes) =>
      v := DumpList(nodes, t);
    case Dict(nodes) =>
      v := DumpDict(nodes, t);
  }

  method DumpList(nodes: seq<Node>, ghost t: Tree) returns (v: Json)
    requires t.Branch? && |nodes| == |t.elems|
    requires forall i | 0 <= i < |nodes| :: nodes[i] == t.elems[i].node && Fits(t.elems[i])
    ensures v == Value(t)
    decreases t, 0
  {
    hide Fits;
    assert forall i | 0 <= i < |nodes| :: allocated(Nodes(t.elems[i]));
    var elems: seq<Json> := [];
    for i := 0 to |nodes|
      invariant |elems| == i
      invariant forall j | 0 <= j < i :: elems[j] == Value(t.elems[j])
    {
      var elem := Dump(nodes[i], t.elems[i]);
      elems := elems + [elem];
    }
    v := Arr(elems);
  }

  lemma {:induction false} DictValue(t: Tree, fields: map<string, Json>)
    requires t.Table? && fields.Keys == t.fields.Keys && forall k | k in fields :: fields[k] == Value(t.fields[k])
    ensures Value(t) == Obj(fields)
  {
    assert Value(t).fields == fields;
  }

  method DumpDict(nodes: map<string, Node>, ghost t: Tree) returns (v: Json)
    requires t.Table? && nodes.Keys == t.fields.Keys
    requires forall k | k in nodes :: nodes[k] == t.fields[k].node && Fits(t.fields[k])
    ensures v == Value(t)
    decreases t, 0
  {
    hide *;
    assert forall k | k in nodes :: allocated(Nodes(t.fields[k]));
    var fields: map<string, Json> := map[];
    var rest := nodes.Keys;
    while rest != {}
      invariant rest <= nodes.Keys
      invariant fields.Keys == nodes.Keys - rest
      invariant forall k | k in fields :: fields[k] == Value(t.fields[k])
      decreases |rest|
    {
      var k :| k in rest;
      rest := rest - {k};
      var field := Dump(nodes[k], t.fields[k]);
      fields := fields[k := field];
    }
    v := Obj(fields);
    DictValue(t, fields);
  }
}
