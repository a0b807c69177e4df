/**
 Which operations the relay takes, and what a taken one leaves behind, said of
 the JSON on the wire and in the figures a sender can check.
 */
module DeltaLimits {
  import opened Wrappers
  import opened Json
  import opened DeltaReceiver
  import opened DeltaLaws

  // ---------- inventories ----------

  /** The state has a seven-slot item list under participants, the number, "items". */
  predicate SevenSlots(root: Json, p: int) {
    && root.Obj? && "participants" in root.fields
    && var list := root.fields["participants"];
    && list.Arr? && 0 <= p < |list.elems|
    && var one := list.elems[p];
    && one.Obj? && "items" in one.fields
    && one.fields["items"].Arr? && |one.fields["items"].elems| == 7
  }

  function Slots(root: Json, p: int): (items: seq<Json>)
    requires SevenSlots(root, p)
    ensures |items| == 7
  {
    root.fields["participants"].elems[p].fields["items"].elems
  }

  /** The state with one participant's item list replaced and nothing else changed. */
  function WithSlots(root: Json, p: int, items: seq<Json>): Json
    requires SevenSlots(root, p)
  {
    var list := root.fields["participants"].elems;
    Obj(root.fields["participants" := Arr(list[p := Obj(list[p].fields["items" := Arr(items)])])])
  }

  predicate Within(v: Json, least: int, most: int) {
    v.Int? && least <= v.n <= most
  }

  lemma {:induction false} ThreeSteps(root: Json, a: Seg, b: Seg, c: Seg)
    ensures Lookup(root, [a, b, c]) ==
            match Child(root, a) {
              case None => None
              case Some(x) => match Child(x, b) { case None => None case Some(y) => Child(y, c) }
            }
    ensures Lookup(root, [a, b, c]).Some? ==> forall v ::
              var x := Child(root, a).value;
              SetAt(root, [a, b, c], v) == WithChild(root, a, WithChild(x, b, WithChild(Child(x, b).value, c, v)))
  {
    hide Child, WithChild;
    assert [a, b, c][1..] == [b, c] && [b, c][1..] == [c] && [c][1..] == [];
    match Child(root, a)
    case None =>
    case Some(x) =>
      match Child(x, b)
      case None =>
      case Some(y) =>
        assert Lookup(y, [c]) == Child(y, c);
        assert Lookup(x, [b, c]) == Child(y, c);
        if Child(y, c).Some? {
          forall v ensures SetAt(root, [a, b, c], v) == WithChild(root, a, WithChild(x, b, WithChild(y, c, v))) {
            assert SetAt(y, [c], v) == WithChild(y, c, v);
            assert SetAt(x, [b, c], v) == WithChild(x, b, WithChild(y, c, v));
          }
        }
  }

  lemma {:induction false} SlotsAsLookup(root: Json, p: nat)
    ensures SevenSlots(root, p) <==>
            Lookup(root, ItemsPath(p)).Some? && Lookup(root, ItemsPath(p)).value.Arr? && |Lookup(root, ItemsPath(p)).value.elems| == 7
    ensures SevenSlots(root, p) ==> Slots(root, p) == Lookup(root, ItemsPath(p)).value.elems
  {
    hide Lookup, SetAt;
    ThreeSteps(root, Key("participants"), Idx(p), Key("items"));
  }

  lemma {:induction false} WithSlotsAsSetAt(root: Json, p: nat, items: seq<Json>)
    requires SevenSlots(root, p)
    ensures Lookup(root, ItemsPath(p)).Some?
    ensures SetAt(root, ItemsPath(p), Arr(items)) == WithSlots(root, p, items)
  {
    hide Lookup, SetAt;
    SlotsAsLookup(root, p);
    ThreeSteps(root, Key("participants"), Idx(p), Key("items"));
  }

  /** An item edit of a participant replaces the item list as `EditItems` says, if there is one. */
  lemma {:induction false} ItemEdit(root: Json, p: nat, edit: Edit)
    requires edit.ItemAdd? || edit.ItemCount? || edit.ItemSwap? || edit.ItemRemove?
    ensures EditPath(root, ItemsPath(p), edit) ==
            if !SevenSlots(root, p) then None
            else match EditItems(Slots(root, p), edit) { case None => None case Some(xs) => Some(WithSlots(root, p, xs)) }
  {
    hide SevenSlots, Slots, Lookup, SetAt, EditItems, WithSlots, ItemsPath;
    SlotsAsLookup(root, p);
    if SevenSlots(root, p) {
      match EditItems(Slots(root, p), edit)
      case None =>
      case Some(xs) => WithSlotsAsSetAt(root, p, xs);
    }
  }

  /** `["ia", participant, slot, id, name, count]`. */
  lemma {:induction false} AddIsTaken(root: Json, fields: seq<Json>)
    ensures ApplyOps(root, [Arr([Str("ia")] + fields)]) ==
            if && |fields| == 5
               && Within(fields[0], 0, 9) && Within(fields[1], 0, 6)
               && Within(fields[2], 1, 1_000_000)
               && fields[3].Str? && |fields[3].s| <= 256
               && Within(fields[4], 1, 999)
               && SevenSlots(root, fields[0].n)
            then
              var record := Obj(map["id" := fields[2], "name" := fields[3], "count" := fields[4]]);
              Some(WithSlots(root, fields[0].n, Slots(root, fields[0].n)[fields[1].n := record]))
            else None
  {
    hide SevenSlots, Slots, WithSlots, EditPath;
    var op := [Str("ia")] + fields;
    ApplyOne(root, Arr(op));
    assert forall i | 0 <= i < |fields| :: op[i + 1] == fields[i];
    if Decode(Arr(op)).Some? {
      ItemEdit(root, op[1].n, Decode(Arr(op)).value.edit);
    }
  }

  /** `["ic", participant, slot, delta]`. */
  lemma {:induction false} CountIsTaken(root: Json, fields: seq<Json>)
    ensures ApplyOps(root, [Arr([Str("ic")] + fields)]) ==
            if && |fields| == 3
               && Within(fields[0], 0, 9) && Within(fields[1], 0, 6)
               && Within(fields[2], -999, 999) && fields[2].n != 0
               && SevenSlots(root, fields[0].n)
               && var item := Slots(root, fields[0].n)[fields[1].n];
               && item.Obj? && "count" in item.fields && item.fields["count"].Int?
               && 1 <= item.fields["count"].n + fields[2].n <= 999
            then
              var items, slot := Slots(root, fields[0].n), fields[1].n;
              var next := Int(items[slot].fields["count"].n + fields[2].n);
              Some(WithSlots(root, fields[0].n, items[slot := Obj(items[slot].fields["count" := next])]))
            else None
  {
    hide SevenSlots, Slots, WithSlots, EditPath;
    var op := [Str("ic")] + fields;
    ApplyOne(root, Arr(op));
    assert forall i | 0 <= i < |fields| :: op[i + 1] == fields[i];
    if Decode(Arr(op)).Some? {
      ItemEdit(root, op[1].n, Decode(Arr(op)).value.edit);
    }
  }

  /** `["is", participant, left, right]`. */
  lemma {:induction false} SwapIsTaken(root: Json, fields: seq<Json>)
    ensures ApplyOps(root, [Arr([Str("is")] + fields)]) ==
            if && |fields| == 3
               && Within(fields[0], 0, 9) && Within(fields[1], 0, 6) && Within(fields[2], 0, 6)
               && fields[1] != fields[2]
               && SevenSlots(root, fields[0].n)
            then
              var items, l, r := Slots(root, fields[0].n), fields[1].n, fields[2].n;
              Some(WithSlots(root, fields[0].n, items[l := items[r]][r := items[l]]))
            else None
  {
    hide SevenSlots, Slots, WithSlots, EditPath;
    var op := [Str("is")] + fields;
    ApplyOne(root, Arr(op));
    assert forall i | 0 <= i < |fields| :: op[i + 1] == fields[i];
    if Decode(Arr(op)).Some? {
      ItemEdit(root, op[1].n, Decode(Arr(op)).value.edit);
    }
  }

  /** `["ir", participant, slot]`. */
  lemma {:induction false} ClearIsTaken(root: Json, fields: seq<Json>)
    ensures ApplyOps(root, [Arr([Str("ir")] + fields)]) ==
            if |fields| == 2 && Within(fields[0], 0, 9) && Within(fields[1], 0, 6) && SevenSlots(root, fields[0].n)
            then Some(WithSlots(root, fields[0].n, Slots(root, fields[0].n)[fields[1].n := Null]))
            else None
  {
    hide SevenSlots, Slots, WithSlots, EditPath;
    var op := [Str("ir")] + fields;
    ApplyOne(root, Arr(op));
    assert forall i | 0 <= i < |fields| :: op[i + 1] == fields[i];
    if Decode(Arr(op)).Some? {
      ItemEdit(root, op[1].n, Decode(Arr(op)).value.edit);
    }
  }

  // ---------- paths ----------

  /** At most 24 parts, each an index up to 4096 or a key of 1 to 128 characters. */
  predicate PathAllowed(path: Json) {
    && path.Arr? && |path.elems| <= 24
    && forall i | 0 <= i < |path.elems| :: PartAllowed(path.elems[i])
  }

  predicate PartAllowed(part: Json) {
    Within(part, 0, 4096) || (part.Str? && 1 <= |part.s| <= 128)
  }

  /** What stands at a path of the wire: an index reads an array, a key reads an object. */
  function ReadAt(root: Json, parts: seq<Json>): Option<Json> {
    if parts == [] then Some(root)
    else if parts[0].Int? && root.Arr? && 0 <= parts[0].n < |root.elems| then ReadAt(root.elems[parts[0].n], parts[1..])
    else if parts[0].Str? && root.Obj? && parts[0].s in root.fields then ReadAt(root.fields[parts[0].s], parts[1..])
    else None
  }

  predicate SameParts(parts: seq<Json>, path: Path) {
    |parts| == |path| && forall i | 0 <= i < |parts| :: SamePart(parts[i], path[i])
  }

  predicate SamePart(part: Json, s: Seg) {
    match s
    case Key(k) => part == Str(k)
    case Idx(i) => part == Int(i)
  }

  lemma {:induction false} SegsAreParts(parts: seq<Json>)
    ensures DecodeSegs(parts).Some? <==> forall i | 0 <= i < |parts| :: PartAllowed(parts[i])
    ensures DecodeSegs(parts).Some? ==> SameParts(parts, DecodeSegs(parts).value)
    decreases |parts|
  {
    if parts != [] {
      var n := |parts| - 1;
      var front := parts[..n];
      SegsAreParts(front);
      assert forall i | 0 <= i < n :: front[i] == parts[i];
      assert PartAllowed(parts[n]) <==> DecodeSeg(parts[n]).Some?;
    }
  }

  lemma {:induction false} AllowedIsDecoded(raw: Json)
    ensures DecodePath(raw).Some? <==> PathAllowed(raw)
    ensures DecodePath(raw).Some? ==> SameParts(raw.elems, DecodePath(raw).value)
  {
    hide DecodeSegs, SameParts, PartAllowed;
    if raw.Arr? {
      SegsAreParts(raw.elems);
    }
  }

  lemma {:induction false} ReadIsLookup(root: Json, parts: seq<Json>, path: Path)
    requires SameParts(parts, path)
    ensures ReadAt(root, parts) == Lookup(root, path)
    decreases |parts|
  {
    if parts != [] {
      assert SamePart(parts[0], path[0]);
      assert forall i | 0 <= i < |parts[1..]| :: parts[1..][i] == parts[i + 1] && path[1..][i] == path[i + 1];
      assert SameParts(parts[1..], path[1..]);
      match Child(root, path[0])
      case None =>
      case Some(c) => ReadIsLookup(c, parts[1..], path[1..]);
    }
  }

  /** An edit at a path is made exactly when something stands there that can be edited so. */
  lemma {:induction false} EditIsRead(root: Json, parts: seq<Json>, path: Path, edit: Edit)
    requires SameParts(parts, path)
    ensures var found := ReadAt(root, parts);
            var after := EditPath(root, path, edit);
            && (after.Some? <==> found.Some? && EditNode(found.value, edit).Some?)
            && (after.Some? ==> ReadAt(after.value, parts) == EditNode(found.value, edit))
  {
    hide EditNode, SameParts, ReadAt, Lookup, SetAt;
    ReadIsLookup(root, parts, path);
    match Lookup(root, path)
    case None =>
    case Some(node) =>
      if EditNode(node, edit).Some? {
        var after := SetAt(root, path, EditNode(node, edit).value);
        LookupSetAt(root, path, EditNode(node, edit).value);
        ReadIsLookup(after, parts, path);
      }
  }

  // ---------- the state as a tree ----------

  /** The part can be written in the container: an index it has, or any key of an object. */
  predicate CanWrite(container: Json, part: Json) {
    (part.Int? && container.Arr? && 0 <= part.n < |container.elems|) || (part.Str? && container.Obj?)
  }

  function Written(container: Json, part: Json, v: Json): Json
    requires CanWrite(container, part)
  {
    if part.Int? then Arr(container.elems[part.n := v]) else Obj(container.fields[part.s := v])
  }

  predicate CanDelete(container: Json, part: Json) {
    CanWrite(container, part) && (part.Str? ==> part.s in container.fields)
  }

  function Deleted(container: Json, part: Json): Json
    requires CanDelete(container, part)
  {
    if part.Int? then Arr(container.elems[..part.n] + container.elems[part.n + 1..])
    else Obj(map k | k in container.fields && k != part.s :: container.fields[k])
  }

  lemma {:induction false} WrittenAsEdit(container: Json, part: Json, s: Seg, v: Json)
    requires SamePart(part, s)
    ensures EditNode(container, Put(s, v)) ==
            if CanWrite(container, part) then Some(Written(container, part, v)) else None
  {
  }

  lemma {:induction false} DeletedAsEdit(container: Json, part: Json, s: Seg)
    requires SamePart(part, s)
    ensures EditNode(container, Remove(s)) ==
            if CanDelete(container, part) then Some(Deleted(container, part)) else None
  {
    if part.Str? && container.Obj? {
      assert container.fields - {part.s} == map k | k in container.fields && k != part.s :: container.fields[k];
    }
  }

  /** `["s", path, value]`. */
  lemma {:induction false} SetIsTaken(root: Json, path: Json, rest: seq<Json>)
    ensures var after := ApplyOps(root, [Arr([Str("s"), path] + rest)]);
            if !(|rest| == 1 && PathAllowed(path)) then after == None
            else if path.elems == [] then after == if rest[0].Obj? then Some(rest[0]) else None
            else
              var n := |path.elems| - 1;
              var part, container := path.elems[n], ReadAt(root, path.elems[..n]);
              && (after.Some? <==> container.Some? && CanWrite(container.value, part))
              && (after.Some? ==> ReadAt(after.value, path.elems[..n]) == Some(Written(container.value, part, rest[0])))
  {
    hide EditNode, CanWrite, CanDelete, Written, Deleted, ReadAt, SameParts, DecodePath, EditPath, Lookup, SetAt, PartAllowed;
    var op := [Str("s"), path] + rest;
    ApplyOne(root, Arr(op));
    AllowedIsDecoded(path);
    assert op[0] == Str("s") && op[1] == path && (|rest| == 1 ==> op[2] == rest[0]);
    if |rest| == 1 && PathAllowed(path) {
      var segs := DecodePath(path).value;
      LastPart(path.elems, segs);
      if path.elems != [] {
        EditIsRead(root, path.elems[..|path.elems| - 1], segs[..|segs| - 1], Put(segs[|segs| - 1], rest[0]));
        var container := ReadAt(root, path.elems[..|segs| - 1]);
        if container.Some? {
          WrittenAsEdit(container.value, path.elems[|segs| - 1], segs[|segs| - 1], rest[0]);
        }
      }
    }
  }

  lemma {:induction false} LastPart(parts: seq<Json>, path: Path)
    requires SameParts(parts, path)
    ensures |parts| == |path|
    ensures parts != [] ==> SameParts(parts[..|parts| - 1], path[..|path| - 1]) && SamePart(parts[|parts| - 1], path[|path| - 1])
  {
    hide SamePart;
  }

  /** `["d", path]`. */
  lemma {:induction false} DeleteIsTaken(root: Json, path: Json, rest: seq<Json>)
    ensures var after := ApplyOps(root, [Arr([Str("d"), path] + rest)]);
            if !(rest == [] && PathAllowed(path) && path.elems != []) then after == None
            else
              var n := |path.elems| - 1;
              var part, container := path.elems[n], ReadAt(root, path.elems[..n]);
              && (after.Some? <==> container.Some? && CanDelete(container.value, part))
              && (after.Some? ==> ReadAt(after.value, path.elems[..n]) == Some(Deleted(container.value, part)))
  {
    hide EditNode, CanWrite, CanDelete, Written, Deleted, ReadAt, SameParts, DecodePath, EditPath, Lookup, SetAt, PartAllowed;
    var op := [Str("d"), path] + rest;
    ApplyOne(root, Arr(op));
    AllowedIsDecoded(path);
    assert op[0] == Str("d") && op[1] == path;
    if rest == [] && PathAllowed(path) {
      var segs := DecodePath(path).value;
      LastPart(path.elems, segs);
      if path.elems != [] {
        EditIsRead(root, path.elems[..|path.elems| - 1], segs[..|segs| - 1], Remove(segs[|segs| - 1]));
        var container := ReadAt(root, path.elems[..|segs| - 1]);
        if container.Some? {
          DeletedAsEdit(container.value, path.elems[|segs| - 1], segs[|segs| - 1]);
        }
      }
    }
  }

  /** `["a", path, values]`. */
  lemma {:induction false} AppendIsTaken(root: Json, path: Json, rest: seq<Json>)
    ensures var after := ApplyOps(root, [Arr([Str("a"), path] + rest)]);
            if !(|rest| == 1 && rest[0].Arr? && PathAllowed(path)) then after == None
            else
              var found := ReadAt(root, path.elems);
              && (after.Some? <==> found.Some? && found.value.Arr?)
              && (after.Some? ==> ReadAt(after.value, path.elems) == Some(Arr(found.value.elems + rest[0].elems)))
  {
    hide ReadAt, SameParts, DecodePath, EditPath, Lookup, SetAt, PartAllowed;
    var op := [Str("a"), path] + rest;
    ApplyOne(root, Arr(op));
    AllowedIsDecoded(path);
    assert op[0] == Str("a") && op[1] == path && (|rest| == 1 ==> op[2] == rest[0]);
    if |rest| == 1 && rest[0].Arr? && PathAllowed(path) {
      EditIsRead(root, path.elems, DecodePath(path).value, Extend(rest[0].elems));
    }
  }

  /** `["t", path, length]`. */
  lemma {:induction false} TruncateIsTaken(root: Json, path: Json, rest: seq<Json>)
    ensures var after := ApplyOps(root, [Arr([Str("t"), path] + rest)]);
            if !(|rest| == 1 && rest[0].Int? && rest[0].n >= 0 && PathAllowed(path)) then after == None
            else
              var found := ReadAt(root, path.elems);
              && (after.Some? <==> found.Some? && found.value.Arr? && rest[0].n <= |found.value.elems|)
              && (after.Some? ==> ReadAt(after.value, path.elems) == Some(Arr(found.value.elems[..rest[0].n])))
  {
    hide ReadAt, SameParts, DecodePath, EditPath, Lookup, SetAt, PartAllowed;
    var op := [Str("t"), path] + rest;
    ApplyOne(root, Arr(op));
    AllowedIsDecoded(path);
    assert op[0] == Str("t") && op[1] == path && (|rest| == 1 ==> op[2] == rest[0]);
    if |rest| == 1 && rest[0].Int? && rest[0].n >= 0 && PathAllowed(path) {
      EditIsRead(root, path.elems, DecodePath(path).value, Truncate(rest[0].n));
    }
  }

  /** Anything else is refused. */
  lemma {:induction false} OtherIsRefused(root: Json, op: Json)
    requires op.Arr? && |op.elems| >= 2 ==>
               op.elems[0] !in [Str("ia"), Str("ic"), Str("is"), Str("ir"), Str("s"), Str("d"), Str("a"), Str("t")]
    ensures ApplyOps(root, [op]) == None
  {
    hide DecodePath, EditPath, DecodeItemOp;
    ApplyOne(root, op);
  }

  /** The list gets as far as operation i, which begins with a list or a dictionary. */
  predicate RaisesAt(root: Json, ops: seq<Json>, i: nat)
    requires i < |ops|
  {
    && ApplyOps(root, ops[..i]).Some?
    && ops[i].Arr? && |ops[i].elems| >= 2 && (ops[i].elems[0].Arr? || ops[i].elems[0].Obj?)
  }

  /** The relay fails with a TypeError, instead of refusing, exactly when that happens somewhere. */
  lemma {:induction false} CrashesWhere(root: Json, ops: seq<Json>)
    ensures Crashes(root, ops) <==> exists i | 0 <= i < |ops| :: RaisesAt(root, ops, i)
    decreases |ops|
  {
    hide Step;
    if ops != [] {
      assert ops[..0] == [] && ApplyOps(root, []) == Some(root);
      if RaisesTypeError(ops[0]) {
        assert RaisesAt(root, ops, 0);
      } else if Step(root, ops[0]).Some? {
        var next, rest := Step(root, ops[0]).value, ops[1..];
        CrashesWhere(next, rest);
        forall i | 0 <= i < |rest| ensures RaisesAt(root, ops, i + 1) == RaisesAt(next, rest, i) {
          assert ops[..i + 1][0] == ops[0] && ops[..i + 1][1..] == rest[..i];
        }
        if i :| 0 <= i < |rest| && RaisesAt(next, rest, i) {
          assert RaisesAt(root, ops, i + 1);
        }
        if i :| 0 <= i < |ops| && RaisesAt(root, ops, i) {
          assert RaisesAt(next, rest, i - 1);
        }
      } else {
        forall i | 0 < i < |ops| ensures ApplyOps(root, ops[..i]) == None {
          assert ops[..i][0] == ops[0];
        }
      }
    }
  }
}
