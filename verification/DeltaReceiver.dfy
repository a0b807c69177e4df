/**
 What the relay's live-delta operations mean: an operation is decoded, the
 node at its path is looked up, edited and put back.  `None` is the relay's
 ValueError, or the TypeError of `Crashes`.  `DeltaInPlace` has the loops that do this to objects.
 */
module DeltaReceiver {
  import opened Wrappers
  import opened Json

  const MAX_LIVE_DELTA_PATH_DEPTH := 24
  const MAX_ARRAY_INDEX := 4096
  const MAX_KEY_LENGTH := 128

  /** What happens to the container (or inventory) a path leads to. */
  datatype Edit =
    | Put(seg: Seg, value: Json)
    | Remove(seg: Seg)
    | Extend(values: seq<Json>)
    | Truncate(length: nat)
    | ItemAdd(slot: nat, item: Json)
    | ItemCount(slot: nat, delta: int)
    | ItemSwap(left: nat, right: nat)
    | ItemRemove(slot: nat)

  datatype Op = ReplaceRoot(state: Json) | EditAt(path: Path, edit: Edit)

  // ---------- decoding ----------

  predicate ValidSeg(s: Seg) {
    match s
    case Key(k) => 0 < |k| <= MAX_KEY_LENGTH
    case Idx(i) => i <= MAX_ARRAY_INDEX
  }

  predicate ValidPath(p: Path) {
    |p| <= MAX_LIVE_DELTA_PATH_DEPTH && forall i | 0 <= i < |p| :: ValidSeg(p[i])
  }

  function DecodeSeg(part: Json): Option<Seg> {
    match part
    case Int(n) => if 0 <= n <= MAX_ARRAY_INDEX then Some(Idx(n)) else None
    case Str(s) => if 0 < |s| <= MAX_KEY_LENGTH then Some(Key(s)) else None
    case _ => None
  }

  function DecodeSegs(parts: seq<Json>): Option<Path> {
    if parts == [] then Some([])
    else
      var n := |parts| - 1;
      match (DecodeSegs(parts[..n]), DecodeSeg(parts[n]))
      case (Some(p), Some(s)) => Some(p + [s])
      case _ => None
  }

  function DecodePath(raw: Json): Option<Path> {
    if raw.Arr? && |raw.elems| <= MAX_LIVE_DELTA_PATH_DEPTH then DecodeSegs(raw.elems) else None
  }

  method LiveDeltaPath(raw: Json) returns (path: Option<Path>)
    ensures path == DecodePath(raw)
  {
    if !raw.Arr? || |raw.elems| > MAX_LIVE_DELTA_PATH_DEPTH {
      return None;
    }
    var segs: Path := [];
    for i := 0 to |raw.elems|
      invariant DecodeSegs(raw.elems[..i]) == Some(segs)
    {
      var upTo := raw.elems[..i + 1];
      assert upTo[..i] == raw.elems[..i];
      var part := raw.elems[i];
      if part.Int? {
        if part.n < 0 || part.n > MAX_ARRAY_INDEX {
          DecodeSegsStuck(raw.elems, i);
          return None;
        }
        segs := segs + [Idx(part.n)];
      } else if part.Str? {
        if part.s == "" || |part.s| > MAX_KEY_LENGTH {
          DecodeSegsStuck(raw.elems, i);
          return None;
        }
        segs := segs + [Key(part.s)];
      } else {
        DecodeSegsStuck(raw.elems, i);
        return None;
      }
    }
    assert raw.elems[..|raw.elems|] == raw.elems;
    path := Some(segs);
  }

  lemma {:induction false} DecodeSegsStuck(parts: seq<Json>, i: nat)
    requires i < |parts| && DecodeSeg(parts[i]).None?
    ensures DecodeSegs(parts).None?
    decreases |parts|
  {
    if i < |parts| - 1 {
      DecodeSegsStuck(parts[..|parts| - 1], i);
    }
  }

  /** An integer (not a boolean) between 0 and `maximum`. */
  function ItemIndex(v: Json, maximum: nat): Option<nat> {
    if v.Int? && 0 <= v.n <= maximum then Some(v.n) else None
  }

  function ItemsPath(participant: nat): Path {
    [Key("participants"), Idx(participant), Key("items")]
  }

  predicate IsItemKind(kind: Json) {
    kind in [Str("ia"), Str("ic"), Str("is"), Str("ir")]
  }

  predicate ValidItem(id: Json, name: Json, count: Json) {
    && id.Int? && 0 < id.n <= 1_000_000
    && name.Str? && |name.s| <= 256
    && count.Int? && 0 < count.n <= 999
  }

  function ItemRecord(id: Json, name: Json, count: Json): Json {
    Obj(map["id" := id, "name" := name, "count" := count])
  }

  function DecodeItemOp(op: seq<Json>): Option<Op>
    requires op != [] && IsItemKind(op[0])
  {
    if op[0] == Str("ia") then
      if |op| == 6 && ItemIndex(op[1], 9).Some? && ItemIndex(op[2], 6).Some? && ValidItem(op[3], op[4], op[5])
      then Some(EditAt(ItemsPath(op[1].n), ItemAdd(op[2].n, ItemRecord(op[3], op[4], op[5]))))
      else None
    else if op[0] == Str("ic") then
      if |op| == 4 && ItemIndex(op[1], 9).Some? && ItemIndex(op[2], 6).Some?
         && op[3].Int? && op[3].n != 0 && -999 <= op[3].n <= 999
      then Some(EditAt(ItemsPath(op[1].n), ItemCount(op[2].n, op[3].n)))
      else None
    else if op[0] == Str("is") then
      if |op| == 4 && ItemIndex(op[1], 9).Some? && ItemIndex(op[2], 6).Some? && ItemIndex(op[3], 6).Some?
         && op[2].n != op[3].n
      then Some(EditAt(ItemsPath(op[1].n), ItemSwap(op[2].n, op[3].n)))
      else None
    else
      if |op| == 3 && ItemIndex(op[1], 9).Some? && ItemIndex(op[2], 6).Some?
      then Some(EditAt(ItemsPath(op[1].n), ItemRemove(op[2].n)))
      else None
  }

  function DecodeTreeOp(op: seq<Json>): Option<Op>
    requires |op| >= 2
  {
    match DecodePath(op[1])
    case None => None
    case Some(path) =>
      if op[0] == Str("s") then
        if |op| != 3 then None
        else if path == [] then if op[2].Obj? then Some(ReplaceRoot(op[2])) else None
        else Some(EditAt(path[..|path| - 1], Put(path[|path| - 1], op[2])))
      else if op[0] == Str("d") then
        if |op| != 2 || path == [] then None
        else Some(EditAt(path[..|path| - 1], Remove(path[|path| - 1])))
      else if op[0] == Str("a") then
        if |op| == 3 && op[2].Arr? then Some(EditAt(path, Extend(op[2].elems))) else None
      else if op[0] == Str("t") then
        if |op| == 3 && op[2].Int? && op[2].n >= 0 then Some(EditAt(path, Truncate(op[2].n))) else None
      else None
  }

  /** The checks on an operation that do not look at the state. */
  function Decode(raw: Json): Option<Op> {
    if !raw.Arr? || |raw.elems| < 2 then None
    else if IsItemKind(raw.elems[0]) then DecodeItemOp(raw.elems)
    else DecodeTreeOp(raw.elems)
  }

  // ---------- meaning ----------

  function EditNode(node: Json, edit: Edit): Option<Json> {
    match edit
    case Put(Idx(i), v) => if node.Arr? && i < |node.elems| then Some(Arr(node.elems[i := v])) else None
    case Put(Key(k), v) => if node.Obj? then Some(Obj(node.fields[k := v])) else None
    case Remove(Idx(i)) =>
      if node.Arr? && i < |node.elems| then Some(Arr(node.elems[..i] + node.elems[i + 1..])) else None
    case Remove(Key(k)) => if node.Obj? && k in node.fields then Some(Obj(node.fields - {k})) else None
    case Extend(vs) => if node.Arr? then Some(Arr(node.elems + vs)) else None
    case Truncate(n) => if node.Arr? && n <= |node.elems| then Some(Arr(node.elems[..n])) else None
    case _ =>
      if node.Arr? && |node.elems| == 7 then
        match EditItems(node.elems, edit) { case None => None case Some(xs) => Some(Arr(xs)) }
      else None
  }

  function EditItems(items: seq<Json>, edit: Edit): Option<seq<Json>>
    requires |items| == 7
    requires edit.ItemAdd? || edit.ItemCount? || edit.ItemSwap? || edit.ItemRemove?
  {
    match edit
    case ItemAdd(slot, item) => if slot < 7 then Some(items[slot := item]) else None
    case ItemCount(slot, delta) =>
      if slot < 7 && items[slot].Obj? && "count" in items[slot].fields && items[slot].fields["count"].Int? then
        var next := items[slot].fields["count"].n + delta;
        if 0 < next <= 999 then Some(items[slot := Obj(items[slot].fields["count" := Int(next)])]) else None
      else None
    case ItemSwap(l, r) => if l < 7 && r < 7 then Some(items[l := items[r]][r := items[l]]) else None
    case ItemRemove(slot) => if slot < 7 then Some(items[slot := Null]) else None
  }

  /** Walk to the node at `path` and edit it; fails when the walk or the edit fails. */
  function EditPath(root: Json, path: Path, edit: Edit): Option<Json> {
    match Lookup(root, path)
    case None => None
    case Some(node) =>
      match EditNode(node, edit)
      case None => None
      case Some(edited) => Some(SetAt(root, path, edited))
  }

  /** What an operation, once decoded, makes of a state. */
  function Perform(root: Json, op: Option<Op>): Option<Json> {
    match op
    case None => None
    case Some(ReplaceRoot(v)) => Some(v)
    case Some(EditAt(path, edit)) => EditPath(root, path, edit)
  }

  function Step(root: Json, raw: Json): Option<Json> {
    Perform(root, Decode(raw))
  }

  function ApplyOps(root: Json, ops: seq<Json>): Option<Json>
    decreases |ops|
  {
    if ops == [] then Some(root)
    else match Step(root, ops[0])
      case None => None
      case Some(next) => ApplyOps(next, ops[1..])
  }

  /** Looking a list or dictionary up in a set of strings raises a TypeError. */
  predicate Unhashable(v: Json) {
    v.Arr? || v.Obj?
  }

  predicate RaisesTypeError(raw: Json) {
    raw.Arr? && |raw.elems| >= 2 && Unhashable(raw.elems[0])
  }

  /** Whether the operations end in a TypeError, which the relay does not catch. */
  predicate Crashes(root: Json, ops: seq<Json>)
    decreases |ops|
  {
    ops != [] && (RaisesTypeError(ops[0]) || (Step(root, ops[0]).Some? && Crashes(Step(root, ops[0]).value, ops[1..])))
  }

  lemma {:induction false} CrashIsNoResult(root: Json, ops: seq<Json>)
    requires Crashes(root, ops)
    ensures ApplyOps(root, ops).None?
    decreases |ops|
  {
    if !RaisesTypeError(ops[0]) {
      CrashIsNoResult(Step(root, ops[0]).value, ops[1..]);
    }
  }

  lemma {:induction false} NewRootIsObject(raw: Json)
    ensures Decode(raw).Some? && Decode(raw).value.ReplaceRoot? ==> Decode(raw).value.state.Obj?
  {
    hide DecodePath;
  }

  lemma {:induction false} EditKeepsObject(root: Json, path: Path, edit: Edit)
    requires root.Obj?
    ensures EditPath(root, path, edit).Some? ==> EditPath(root, path, edit).value.Obj?
  {
    hide EditItems;
  }

  /** The root is an object after every operation, so the relay's final check never fires. */
  lemma {:induction false} StepKeepsObject(root: Json, raw: Json)
    requires root.Obj?
    ensures Step(root, raw).Some? ==> Step(root, raw).value.Obj?
  {
    hide Decode, EditPath;
    NewRootIsObject(raw);
    match Decode(raw)
    case Some(EditAt(path, edit)) => EditKeepsObject(root, path, edit);
    case _ =>
  }
}
