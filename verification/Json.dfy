/**
 JSON values as the live-delta stream sees them, and reading and writing a
 subtree at a path.  A number is either an integer of any size or an opaque
 float; the two never compare equal.
 */
module Json {
  import opened Wrappers

  datatype Json =
    | Null
    | Bool(b: bool)
    | Int(n: int)
    | Float(bits: nat)
    | Str(s: string)
    | Arr(elems: seq<Json>)
    | Obj(fields: map<string, Json>)

  datatype Seg = Key(key: string) | Idx(index: nat)
  type Path = seq<Seg>

  /** One step of a walk: an array index or an existing object key. */
  function Child(j: Json, s: Seg): Option<Json> {
    match s
    case Key(k) => if j.Obj? && k in j.fields then Some(j.fields[k]) else None
    case Idx(i) => if j.Arr? && i < |j.elems| then Some(j.elems[i]) else None
  }

  function WithChild(j: Json, s: Seg, v: Json): Json
    requires Child(j, s).Some?
  {
    match s
    case Key(k) => Obj(j.fields[k := v])
    case Idx(i) => Arr(j.elems[i := v])
  }

  function Lookup(root: Json, path: Path): Option<Json> {
    if path == [] then Some(root)
    else match Child(root, path[0])
      case None => None
      case Some(c) => Lookup(c, path[1..])
  }

  function SetAt(root: Json, path: Path, v: Json): Json
    requires Lookup(root, path).Some?
  {
    if path == [] then v
    else WithChild(root, path[0], SetAt(Child(root, path[0]).value, path[1..], v))
  }

  /** Neither path is a prefix of the other. */
  predicate Diverge(p: Path, q: Path) {
    p != [] && q != [] && (p[0] != q[0] || Diverge(p[1..], q[1..]))
  }

  lemma {:induction false} LookupJoin(root: Json, p: Path, q: Path)
    ensures Lookup(root, p + q) ==
            match Lookup(root, p) { case None => None case Some(c) => Lookup(c, q) }
  {
    if p == [] {
      assert p + q == q;
    } else {
      assert (p + q)[0] == p[0] && (p + q)[1..] == p[1..] + q;
      match Child(root, p[0])
      case None =>
      case Some(c) => LookupJoin(c, p[1..], q);
    }
  }

  lemma {:induction false} LookupSetAt(root: Json, p: Path, v: Json)
    requires Lookup(root, p).Some?
    ensures Lookup(SetAt(root, p, v), p) == Some(v)
  {
    if p != [] {
      LookupSetAt(Child(root, p[0]).value, p[1..], v);
    }
  }

  lemma {:induction false} WithChildTwice(root: Json, s: Seg, v: Json, w: Json)
    requires Child(root, s).Some?
    ensures Child(WithChild(root, s, v), s) == Some(v)
    ensures WithChild(WithChild(root, s, v), s, w) == WithChild(root, s, w)
  {
    match s
    case Key(k) => assert root.fields[k := v][k := w] == root.fields[k := w];
    case Idx(i) => assert root.elems[i := v][i := w] == root.elems[i := w];
  }

  lemma {:induction false} SetAtTwice(root: Json, p: Path, v: Json, w: Json)
    requires Lookup(root, p).Some?
    ensures Lookup(SetAt(root, p, v), p).Some?
    ensures SetAt(SetAt(root, p, v), p, w) == SetAt(root, p, w)
    decreases |p|
  {
    hide WithChild, Child;
    LookupSetAt(root, p, v);
    if p != [] {
      var c := Child(root, p[0]).value;
      SetAtTwice(c, p[1..], v, w);
      WithChildTwice(root, p[0], SetAt(c, p[1..], v), SetAt(c, p[1..], w));
    }
  }

  lemma {:induction false} SetAtSame(root: Json, p: Path)
    requires Lookup(root, p).Some?
    ensures SetAt(root, p, Lookup(root, p).value) == root
  {
    if p != [] {
      SetAtSame(Child(root, p[0]).value, p[1..]);
    }
  }

  /** Writing below p is writing p with the deeper write made inside it. */
  lemma {:induction false} SetAtJoin(root: Json, p: Path, q: Path, v: Json)
    requires Lookup(root, p).Some? && Lookup(Lookup(root, p).value, q).Some?
    ensures Lookup(root, p + q).Some?
    ensures SetAt(root, p + q, v) == SetAt(root, p, SetAt(Lookup(root, p).value, q, v))
  {
    LookupJoin(root, p, q);
    if p == [] {
      assert p + q == q;
    } else {
      assert (p + q)[0] == p[0] && (p + q)[1..] == p[1..] + q;
      SetAtJoin(Child(root, p[0]).value, p[1..], q, v);
    }
  }

  /** A write leaves every diverging path alone. */
  lemma {:induction false} SetAtFrame(root: Json, p: Path, v: Json, q: Path)
    requires Lookup(root, p).Some? && Diverge(p, q)
    ensures Lookup(SetAt(root, p, v), q) == Lookup(root, q)
  {
    if p[0] == q[0] {
      SetAtFrame(Child(root, p[0]).value, p[1..], v, q[1..]);
    }
  }
}
