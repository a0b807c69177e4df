/** The generator's own book as the parser reads it back, in figures. */
module GlbFigures {
  import opened Wrappers
  import opened GlbFormat
  import opened GlbReader
  import opened GlbWriter
  import opened GlbRoundTrip

  /** The six numbers of vertex j of a parsed model. */
  predicate VertexReads(vertices: seq<Number>, j: nat, p: Position, t: TexCoord, face: nat, f32: real -> Word) {
    6 * j + 6 <= |vertices| &&
    vertices[6 * j..6 * j + 6] == [F32(f32(p.x)), F32(f32(p.y)), F32(f32(p.z)), F32(f32(t.u)), F32(f32(t.v)), Whole(face)]
  }

  function IndexCount(shapes: seq<Shape>, n: nat): nat
    requires n <= |shapes|
  {
    if n == 0 then 0 else IndexCount(shapes, n - 1) + |shapes[n - 1].indices|
  }

  lemma {:induction false} VertexInShape(s: Shape, face: nat, i: nat, f32: real -> Word)
    requires i < |s.positions| == |s.uvs|
    ensures VertexReads(ShapeVertices(s, face, f32), i, s.positions[i], s.uvs[i], face, f32)
  {
    var own := ShapeVertices(s, face, f32);
    forall k | 0 <= k < 6 ensures own[6 * i + k] == VertexField(s, face, f32, i, k) {
      assert (6 * i + k) / 6 == i && (6 * i + k) % 6 == k;
    }
  }

  lemma {:induction false} ReadsInJoin(a: seq<Number>, b: seq<Number>, m: nat, j: nat, p: Position, t: TexCoord, face: nat, f32: real -> Word)
    requires |a| == 6 * m
    ensures VertexReads(a, j, p, t, face, f32) ==> VertexReads(a + b, j, p, t, face, f32)
    ensures VertexReads(b, j, p, t, face, f32) ==> VertexReads(a + b, m + j, p, t, face, f32)
  {
    if 6 * j + 6 <= |a| {
      assert (a + b)[6 * j..6 * j + 6] == a[6 * j..6 * j + 6];
    }
    if 6 * j + 6 <= |b| {
      assert (a + b)[6 * (m + j)..6 * (m + j) + 6] == b[6 * j..6 * j + 6];
    }
  }

  lemma {:induction false} VertexInBook(shapes: seq<Shape>, n: nat, face: nat, i: nat, f32: real -> Word)
    requires face < n <= |shapes| && AllWellFormed(shapes) && i < |shapes[face].positions| == |shapes[face].uvs|
    ensures VertexReads(BookVertices(shapes, n, f32), VertexCount(shapes, face) + i,
                        shapes[face].positions[i], shapes[face].uvs[i], face, f32)
    decreases n
  {
    assert WellFormed(shapes[n - 1]);
    hide WellFormed, AllWellFormed, ShapeVertices, VertexReads;
    var before, last := BookVertices(shapes, n - 1, f32), ShapeVertices(shapes[n - 1], n - 1, f32);
    assert BookVertices(shapes, n, f32) == before + last;
    var p, t, m := shapes[face].positions[i], shapes[face].uvs[i], VertexCount(shapes, n - 1);
    if face < n - 1 {
      VertexInBook(shapes, n - 1, face, i, f32);
      ReadsInJoin(before, last, m, VertexCount(shapes, face) + i, p, t, face, f32);
    } else {
      VertexInShape(shapes[face], face, i, f32);
      ReadsInJoin(before, last, m, i, p, t, face, f32);
    }
  }

  lemma {:induction false} VertexBelongs(shapes: seq<Shape>, n: nat, j: nat) returns (face: nat, i: nat)
    requires n <= |shapes| && j < VertexCount(shapes, n)
    ensures face < n && i < |shapes[face].positions| && j == VertexCount(shapes, face) + i
    decreases n
  {
    if j < VertexCount(shapes, n - 1) {
      face, i := VertexBelongs(shapes, n - 1, j);
    } else {
      face, i := n - 1, j - VertexCount(shapes, n - 1);
    }
  }

  lemma {:induction false} IndexInBook(shapes: seq<Shape>, n: nat, face: nat, k: nat)
    requires face < n <= |shapes| && k < |shapes[face].indices|
    ensures |BookIndices(shapes, n)| == IndexCount(shapes, n) && IndexCount(shapes, face) + k < IndexCount(shapes, n)
    ensures BookIndices(shapes, n)[IndexCount(shapes, face) + k] == VertexCount(shapes, face) + shapes[face].indices[k]
    decreases n
  {
    IndexTotal(shapes, n);
    IndexTotal(shapes, n - 1);
    if face < n - 1 {
      IndexInBook(shapes, n - 1, face, k);
    }
  }

  lemma {:induction false} IndexTotal(shapes: seq<Shape>, n: nat)
    requires n <= |shapes|
    ensures |BookIndices(shapes, n)| == IndexCount(shapes, n)
  {
    if n > 0 { IndexTotal(shapes, n - 1); }
  }

  // ---------- sizes ----------

  predicate Sized(shapes: seq<Shape>) {
    |shapes| == 8 && forall face | 0 <= face < 8 :: SizedShape(shapes[face], if face < 2 then 3328 else 4, if face < 2 then 4992 else 6)
  }

  predicate SizedShape(s: Shape, vertices: nat, indices: nat) {
    |s.positions| == |s.uvs| == vertices && |s.indices| == indices
  }

  lemma {:induction false} SheetSize(s: Shape, z: real, side: Position)
    requires IsSheet(s, z, side)
    ensures SizedShape(s, 3328, 4992)
  {
    hide CellCorners, CellTriangles;
  }

  lemma {:induction false} EdgeSize(s: Shape, first: Position, last: Position, inward: Position)
    requires IsEdge(s, first, last, inward)
    ensures SizedShape(s, 4, 6) && s.indices == [0, 1, 2, 2, 1, 3]
  {
    hide TurnsTo, BoxCorner;
  }

  lemma {:induction false} BookIsSized(shapes: seq<Shape>)
    requires IsBook(shapes)
    ensures Sized(shapes)
    ensures forall face | 2 <= face < 8 :: shapes[face].indices == [0, 1, 2, 2, 1, 3]
  {
    hide WellFormed, IsSheet, IsEdge, SizedShape;
    SheetSize(shapes[0], -0.135, Position(0.0, 0.0, 1.0));
    SheetSize(shapes[1], 0.135, Position(0.0, 0.0, -1.0));
    EdgeSize(shapes[2], Position(-1.0, 1.0, 0.135), Position(-1.0, -1.0, -0.135), Position(1.0, 0.0, 0.0));
    EdgeSize(shapes[3], Position(1.0, 1.0, -0.135), Position(1.0, -1.0, 0.135), Position(-1.0, 0.0, 0.0));
    EdgeSize(shapes[4], Position(-1.0, 1.0, 0.135), Position(0.0, 1.0, -0.135), Position(0.0, -1.0, 0.0));
    EdgeSize(shapes[5], Position(-1.0, -1.0, -0.135), Position(0.0, -1.0, 0.135), Position(0.0, 1.0, 0.0));
    EdgeSize(shapes[6], Position(0.0, 1.0, 0.135), Position(1.0, 1.0, -0.135), Position(0.0, -1.0, 0.0));
    EdgeSize(shapes[7], Position(0.0, -1.0, -0.135), Position(1.0, -1.0, 0.135), Position(0.0, 1.0, 0.0));
  }

  lemma {:induction false} CountsAt(shapes: seq<Shape>, n: nat)
    requires Sized(shapes) && n <= 8
    ensures VertexCount(shapes, n) == if n < 2 then 3328 * n else 6656 + 4 * (n - 2)
    ensures IndexCount(shapes, n) == if n < 2 then 4992 * n else 9984 + 6 * (n - 2)
  {
    if n > 0 {
      CountsAt(shapes, n - 1);
      assert SizedShape(shapes[n - 1], if n - 1 < 2 then 3328 else 4, if n - 1 < 2 then 4992 else 6);
    }
  }

  // ---------- where everything stands ----------

  /** Where the face of a parsed vertex stands. */
  predicate StandsOn(vertices: seq<Number>, j: nat, f32: real -> Word)
    requires 6 * j + 6 <= |vertices|
  {
    var x, y, z := vertices[6 * j], vertices[6 * j + 1], vertices[6 * j + 2];
    var minus, one, zero := F32(f32(-1.0)), F32(f32(1.0)), F32(f32(0.0));
    match vertices[6 * j + 5]
    case Whole(0) => j < 3328 && z == F32(f32(-0.135))
    case Whole(1) => 3328 <= j < 6656 && z == F32(f32(0.135))
    case Whole(2) => 6656 <= j < 6660 && x == minus
    case Whole(3) => 6660 <= j < 6664 && x == one
    case Whole(4) => 6664 <= j < 6668 && y == one && x in [minus, zero]
    case Whole(5) => 6668 <= j < 6672 && y == minus && x in [minus, zero]
    case Whole(6) => 6672 <= j < 6676 && y == one && x in [zero, one]
    case Whole(7) => 6676 <= j && y == minus && x in [zero, one]
    case _ => false
  }

  lemma {:induction false} SheetStands(s: Shape, i: nat, z: real, side: Position)
    requires IsSheet(s, z, side) && i < 3328
    ensures s.positions[i].z == z
  {
    var c, row, col := i / 4, i / 4 / 32, i / 4 % 32;
    assert c == 32 * row + col && row < 26 && col < 32;
    assert CellCorners(s, row, col, z);
    assert i in [4 * c, 4 * c + 1, 4 * c + 2, 4 * c + 3];
  }

  /** The corners of a sheet are corners of the box, so the edges begin and end where the sheets do. */
  lemma {:induction false} SheetEnds(s: Shape, z: real, side: Position)
    requires IsSheet(s, z, side)
    ensures s.positions[0] == Position(-1.0, 1.0, z) && s.positions[126] == Position(1.0, 1.0, z)
    ensures s.positions[3201] == Position(-1.0, -1.0, z) && s.positions[3327] == Position(1.0, -1.0, z)
  {
    assert CellCorners(s, 0, 0, z) && CellCorners(s, 0, 31, z) && CellCorners(s, 25, 0, z) && CellCorners(s, 25, 31, z);
  }

  lemma {:induction false} EdgeStands(s: Shape, i: nat, first: Position, last: Position, inward: Position)
    requires IsEdge(s, first, last, inward) && i < 4
    ensures BoxCorner(s.positions[i], first, last)
  {
  }

  /** The corner of a face, in the words of the file, is on the face's plane. */
  predicate PlaneOf(face: nat, p: Position) {
    match face
    case 0 => p.z == -0.135
    case 1 => p.z == 0.135
    case 2 => p.x == -1.0
    case 3 => p.x == 1.0
    case 4 => p.y == 1.0 && p.x in [-1.0, 0.0]
    case 5 => p.y == -1.0 && p.x in [-1.0, 0.0]
    case 6 => p.y == 1.0 && p.x in [0.0, 1.0]
    case _ => p.y == -1.0 && p.x in [0.0, 1.0]
  }

  lemma {:induction false} FaceStands(shapes: seq<Shape>, face: nat, i: nat)
    requires IsBook(shapes) && Sized(shapes) && face < 8 && i < |shapes[face].positions|
    ensures PlaneOf(face, shapes[face].positions[i])
  {
    hide IsSheet, IsEdge, WellFormed;
    var p := shapes[face].positions[i];
    match face
    case 0 => SheetStands(shapes[0], i, -0.135, Position(0.0, 0.0, 1.0));
    case 1 => SheetStands(shapes[1], i, 0.135, Position(0.0, 0.0, -1.0));
    case 2 => EdgeStands(shapes[2], i, Position(-1.0, 1.0, 0.135), Position(-1.0, -1.0, -0.135), Position(1.0, 0.0, 0.0));
    case 3 => EdgeStands(shapes[3], i, Position(1.0, 1.0, -0.135), Position(1.0, -1.0, 0.135), Position(-1.0, 0.0, 0.0));
    case 4 => EdgeStands(shapes[4], i, Position(-1.0, 1.0, 0.135), Position(0.0, 1.0, -0.135), Position(0.0, -1.0, 0.0));
    case 5 => EdgeStands(shapes[5], i, Position(-1.0, -1.0, -0.135), Position(0.0, -1.0, 0.135), Position(0.0, 1.0, 0.0));
    case 6 => EdgeStands(shapes[6], i, Position(0.0, 1.0, 0.135), Position(1.0, 1.0, -0.135), Position(0.0, -1.0, 0.0));
    case 7 => EdgeStands(shapes[7], i, Position(0.0, -1.0, -0.135), Position(1.0, -1.0, 0.135), Position(0.0, 1.0, 0.0));
  }

  lemma {:induction false} ReadsStand(vertices: seq<Number>, j: nat, p: Position, t: TexCoord, face: nat, f32: real -> Word)
    requires VertexReads(vertices, j, p, t, face, f32) && face < 8 && PlaneOf(face, p)
    requires if face < 2 then 3328 * face <= j < 3328 * face + 3328 else 6656 + 4 * (face - 2) <= j < 6660 + 4 * (face - 2)
    ensures StandsOn(vertices, j, f32)
  {
    var six := vertices[6 * j..6 * j + 6];
    assert vertices[6 * j] == six[0] && vertices[6 * j + 1] == six[1] && vertices[6 * j + 2] == six[2] && vertices[6 * j + 5] == six[5];
  }

  lemma {:induction false} VertexStands(shapes: seq<Shape>, j: nat, f32: real -> Word)
    requires IsBook(shapes) && AllWellFormed(shapes) && j < 6680
    ensures |BookVertices(shapes, 8, f32)| == 6 * 6680
    ensures StandsOn(BookVertices(shapes, 8, f32), j, f32)
  {
    hide IsBook, BookVertices, VertexCount, IndexCount, WellFormed, AllWellFormed, StandsOn, VertexReads, PlaneOf;
    BookIsSized(shapes);
    CountsAt(shapes, 8);
    var face, i := VertexBelongs(shapes, 8, j);
    CountsAt(shapes, face);
    assert SizedShape(shapes[face], if face < 2 then 3328 else 4, if face < 2 then 4992 else 6);
    FaceStands(shapes, face, i);
    VertexInBook(shapes, 8, face, i, f32);
    ReadsStand(BookVertices(shapes, 8, f32), j, shapes[face].positions[i], shapes[face].uvs[i], face, f32);
  }

  /** Two triangles over the four vertices from `at` on. */
  predicate QuadIndices(indices: seq<int>, k: nat, at: nat) {
    k + 6 <= |indices| && indices[k..k + 6] == [at, at + 1, at + 2, at + 2, at + 1, at + 3]
  }

  lemma {:induction false} EdgeIndices(shapes: seq<Shape>, face: nat)
    requires IsBook(shapes) && 2 <= face < 8
    ensures QuadIndices(BookIndices(shapes, 8), 9984 + 6 * (face - 2), 6656 + 4 * (face - 2))
  {
    hide IsBook, BookIndices, VertexCount, IndexCount;
    BookIsSized(shapes);
    CountsAt(shapes, face);
    CountsAt(shapes, 8);
    IndexInBook(shapes, 8, face, 0);
    IndexInBook(shapes, 8, face, 1);
    IndexInBook(shapes, 8, face, 2);
    IndexInBook(shapes, 8, face, 3);
    IndexInBook(shapes, 8, face, 4);
    IndexInBook(shapes, 8, face, 5);
  }

  /** Vertex i of face f of the book. */
  function VertexNumber(f: nat, i: nat): nat {
    if f < 2 then 3328 * f + i else 6656 + 4 * (f - 2) + i
  }

  predicate FaceReads(m: Model, s: Shape, face: nat, f32: real -> Word)
    requires |s.positions| == |s.uvs|
  {
    && (forall i: nat | i < |s.positions| :: VertexReads(m.vertices, VertexNumber(face, i), s.positions[i], s.uvs[i], face, f32))
    && (face >= 2 ==> QuadIndices(m.indices, 9984 + 6 * (face - 2), VertexNumber(face, 0)))
  }

  lemma {:induction false} FaceIsRead(shapes: seq<Shape>, face: nat, f32: real -> Word)
    requires IsBook(shapes) && AllWellFormed(shapes) && Sized(shapes) && face < 8
    ensures |shapes[face].positions| == |shapes[face].uvs|
    ensures FaceReads(BookModel(shapes, f32), shapes[face], face, f32)
  {
    hide IsBook, BookVertices, BookIndices, VertexReads, QuadIndices, AllWellFormed, VertexCount;
    assert SizedShape(shapes[face], if face < 2 then 3328 else 4, if face < 2 then 4992 else 6);
    CountsAt(shapes, face);
    forall i: nat | i < |shapes[face].positions|
      ensures VertexReads(BookVertices(shapes, 8, f32), VertexNumber(face, i), shapes[face].positions[i], shapes[face].uvs[i], face, f32)
    {
      VertexInBook(shapes, 8, face, i, f32);
    }
    if face >= 2 {
      EdgeIndices(shapes, face);
    }
  }

  /** The generator's own file, parsed: 6680 vertices and 10020 indices; every vertex, by the face it is
      tagged with, stands where the book has that face; every face has its own corners, and every edge
      is two triangles over its four. */
  lemma {:induction false} ParsedBookInFigures(shapes: seq<Shape>, codec: Codec, m: Model)
    requires IsBook(shapes) && FaithfulCodec(codec)
    requires Written(shapes, MATERIAL_NAMES, codec).Some?
    requires Parse(Written(shapes, MATERIAL_NAMES, codec).value, codec) == Some(m)
    ensures |m.vertices| == 6 * 6680 && |m.indices| == 10020 && !m.wide
    ensures forall j: nat | j < 6680 :: StandsOn(m.vertices, j, codec.f32)
    ensures Sized(shapes)
    ensures forall face: nat | face < 8 :: |shapes[face].positions| == |shapes[face].uvs| && FaceReads(m, shapes[face], face, codec.f32)
  {
    hide IsBook, Parse, Written, FaithfulCodec, Packable, PutShapes, BookVertices, BookIndices, StandsOn, FaceReads, AllWellFormed, VertexCount, IndexCount;
    BookIsSized(shapes);
    GeneratedBookSurvives(shapes, codec);
    assert |shapes| == 8 && m == BookModel(shapes, codec.f32);
    CountsAt(shapes, 8);
    IndexTotal(shapes, 8);
    forall j: nat | j < 6680 ensures StandsOn(m.vertices, j, codec.f32) {
      VertexStands(shapes, j, codec.f32);
    }
    forall face: nat | face < 8 ensures |shapes[face].positions| == |shapes[face].uvs| && FaceReads(m, shapes[face], face, codec.f32) {
      FaceIsRead(shapes, face, codec.f32);
    }
  }
}
