/**
 Operations as they are written on the wire, and what the relay reads back.
 */
module DeltaWire {
  import opened Wrappers
  import opened Json
  import opened DeltaReceiver

  function EncodeSeg(s: Seg): Json {
    match s
    case Key(k) => Str(k)
    case Idx(i) => Int(i)
  }

  function EncodePath(p: Path): Json {
    Arr(seq(|p|, i requires 0 <= i < |p| => EncodeSeg(p[i])))
  }

  function SetOp(path: Path, v: Json): Json { Arr([Str("s"), EncodePath(path), v]) }
  function DeleteOp(path: Path): Json { Arr([Str("d"), EncodePath(path)]) }
  function AppendOp(path: Path, vs: seq<Json>): Json { Arr([Str("a"), EncodePath(path), Arr(vs)]) }
  function TruncateOp(path: Path, n: nat): Json { Arr([Str("t"), EncodePath(path), Int(n)]) }
  function SwapOp(p: nat, l: nat, r: nat): Json { Arr([Str("is"), Int(p), Int(l), Int(r)]) }
  function CountOp(p: nat, slot: nat, delta: int): Json { Arr([Str("ic"), Int(p), Int(slot), Int(delta)]) }
  function ClearOp(p: nat, slot: nat): Json { Arr([Str("ir"), Int(p), Int(slot)]) }
  function AddOp(p: nat, slot: nat, id: Json, name: Json, count: Json): Json {
    Arr([Str("ia"), Int(p), Int(slot), id, name, count])
  }

  lemma {:induction false} SegRoundTrip(s: Seg)
    ensures DecodeSeg(EncodeSeg(s)) == if ValidSeg(s) then Some(s) else None
  {
  }

  predicate AllValid(p: Path) {
    forall i | 0 <= i < |p| :: ValidSeg(p[i])
  }

  lemma {:induction false} AllValidStep(p: Path)
    requires p != []
    ensures AllValid(p) <==> AllValid(p[..|p| - 1]) && ValidSeg(p[|p| - 1])
  {
    hide ValidSeg;
    var front := p[..|p| - 1];
    assert forall i | 0 <= i < |front| :: front[i] == p[i];
  }

  lemma {:induction false} SegsRoundTrip(p: Path)
    ensures DecodeSegs(EncodePath(p).elems) == if AllValid(p) then Some(p) else None
  {
    hide ValidSeg, EncodeSeg, DecodeSeg, AllValid;
    if p == [] {
      assert AllValid(p) by { NoneInvalid(); }
    } else {
      var n := |p| - 1;
      SegsRoundTrip(p[..n]);
      var parts := EncodePath(p).elems;
      assert parts[..n] == EncodePath(p[..n]).elems;
      assert p == p[..n] + [p[n]];
      assert parts[n] == EncodeSeg(p[n]);
      SegRoundTrip(p[n]);
      AllValidStep(p);
    }
  }

  lemma {:induction false} NoneInvalid()
    ensures AllValid([])
  {
  }

  /** The relay reads back exactly the paths within its limits. */
  lemma {:induction false} PathRoundTrip(p: Path)
    ensures DecodePath(EncodePath(p)) == if ValidPath(p) then Some(p) else None
  {
    SegsRoundTrip(p);
  }

  lemma {:induction false} DecodeSet(path: Path, v: Json)
    requires path != []
    ensures Decode(SetOp(path, v)) ==
            if ValidPath(path) then Some(EditAt(path[..|path| - 1], Put(path[|path| - 1], v))) else None
  {
    PathRoundTrip(path);
  }

  lemma {:induction false} DecodeDelete(path: Path)
    requires path != []
    ensures Decode(DeleteOp(path)) ==
            if ValidPath(path) then Some(EditAt(path[..|path| - 1], Remove(path[|path| - 1]))) else None
  {
    PathRoundTrip(path);
  }

  lemma {:induction false} DecodeAppend(path: Path, vs: seq<Json>)
    ensures Decode(AppendOp(path, vs)) == if ValidPath(path) then Some(EditAt(path, Extend(vs))) else None
  {
    PathRoundTrip(path);
  }

  lemma {:induction false} DecodeTruncate(path: Path, n: nat)
    ensures Decode(TruncateOp(path, n)) == if ValidPath(path) then Some(EditAt(path, Truncate(n))) else None
  {
    PathRoundTrip(path);
  }
}
