/** Writing the book model: the geometry, its buffer views and accessors, and the container. */
module GlbWriter {
  import opened Wrappers
  import opened GlbFormat

  const COLUMNS := 32
  const ROWS := 26
  const HALF_WIDTH := 1.0
  const HALF_HEIGHT := 1.0
  const HALF_DEPTH := 0.135

  datatype Position = Position(x: real, y: real, z: real)
  datatype TexCoord = TexCoord(u: real, v: real)
  datatype Shape = Shape(positions: seq<Position>, uvs: seq<TexCoord>, indices: seq<nat>)

  const MATERIAL_NAMES: seq<string> :=
    ["Yummi_Page_Front", "Yummi_Cover", "Yummi_Spine_Left", "Yummi_Spine_Right",
     "Yummi_Page_Top_Left", "Yummi_Page_Bottom_Left", "Yummi_Page_Top_Right", "Yummi_Page_Bottom_Right"]

  // ---------- geometry ----------

  function Corner(row: nat, col: nat, k: nat): TexCoord
    requires k < 4
  {
    TexCoord((col + k / 2) as real / COLUMNS as real, (row + k % 2) as real / ROWS as real)
  }

  function OnPlane(t: TexCoord, z: real): Position {
    Position((t.u * 2.0 - 1.0) * HALF_WIDTH, (1.0 - t.v * 2.0) * HALF_HEIGHT, z)
  }

  function CellIndices(vertex: nat, reverse: bool): seq<nat> {
    if reverse then [vertex, vertex + 2, vertex + 1, vertex + 2, vertex + 3, vertex + 1]
    else [vertex, vertex + 1, vertex + 2, vertex + 2, vertex + 1, vertex + 3]
  }

  /** Every cell of the grid has its own four corners, and its two triangles use exactly those. */
  ghost predicate IsGrid(s: Shape, z: real, reverse: bool, cells: nat) {
    && |s.positions| == |s.uvs| == 4 * cells && |s.indices| == 6 * cells
    && (forall i: nat | i < 4 * cells ::
          s.uvs[i] == Corner(i / 4 / COLUMNS, i / 4 % COLUMNS, i % 4) && s.positions[i] == OnPlane(s.uvs[i], z))
    && (forall c: nat | c < cells :: s.indices[6 * c..6 * c + 6] == CellIndices(4 * c, reverse))
  }

  method SubdividedPlane(z: real, reverse: bool) returns (s: Shape)
    ensures IsGrid(s, z, reverse, ROWS * COLUMNS)
    ensures IsSheet(s, z, Position(0.0, 0.0, if reverse then -1.0 else 1.0))
  {
    hide Corner, OnPlane, CellIndices, IsSheet;
    var positions, uvs, indices, vertex := [], [], [], 0;
    for row := 0 to ROWS
      invariant vertex == 4 * (COLUMNS * row)
      invariant IsGrid(Shape(positions, uvs, indices), z, reverse, COLUMNS * row)
    {
      for col := 0 to COLUMNS
        invariant vertex == 4 * (COLUMNS * row + col)
        invariant IsGrid(Shape(positions, uvs, indices), z, reverse, COLUMNS * row + col)
      {
        ghost var before := Shape(positions, uvs, indices);
        for k := 0 to 4
          invariant |positions| == |uvs| == |before.uvs| + k
          invariant before.positions <= positions && before.uvs <= uvs
          invariant forall j | 0 <= j < k :: uvs[|before.uvs| + j] == Corner(row, col, j)
          invariant forall i | |before.uvs| <= i < |uvs| :: positions[i] == OnPlane(uvs[i], z)
        {
          var uv := Corner(row, col, k);
          positions, uvs := positions + [OnPlane(uv, z)], uvs + [uv];
        }
        indices := indices + CellIndices(vertex, reverse);
        CellAdded(before, Shape(positions, uvs, indices), z, reverse, row, col);
        vertex := vertex + 4;
      }
    }
    s := Shape(positions, uvs, indices);
    GridIsSheet(s, z, reverse);
  }

  lemma {:induction false} CellAdded(before: Shape, after: Shape, z: real, reverse: bool, row: nat, col: nat)
    requires col < COLUMNS && IsGrid(before, z, reverse, COLUMNS * row + col)
    requires |after.positions| == |after.uvs| == |before.uvs| + 4
    requires before.positions <= after.positions && before.uvs <= after.uvs
    requires forall j | 0 <= j < 4 :: after.uvs[|before.uvs| + j] == Corner(row, col, j)
    requires forall i | |before.uvs| <= i < |after.uvs| :: after.positions[i] == OnPlane(after.uvs[i], z)
    requires after.indices == before.indices + CellIndices(4 * (COLUMNS * row + col), reverse)
    ensures IsGrid(after, z, reverse, COLUMNS * row + col + 1)
  {
    hide Corner, OnPlane;
    var cell := COLUMNS * row + col;
    forall i: nat | i < 4 * (cell + 1)
      ensures after.uvs[i] == Corner(i / 4 / COLUMNS, i / 4 % COLUMNS, i % 4) && after.positions[i] == OnPlane(after.uvs[i], z)
    {
      if i >= 4 * cell {
        var j := i - 4 * cell;
        assert i / 4 == cell && i % 4 == j && cell / COLUMNS == row && cell % COLUMNS == col;
        assert after.uvs[|before.uvs| + j] == Corner(row, col, j);
      }
    }
    forall c: nat | c < cell + 1 ensures after.indices[6 * c..6 * c + 6] == CellIndices(4 * c, reverse) {
      if c < cell {
        assert after.indices[6 * c..6 * c + 6] == before.indices[6 * c..6 * c + 6];
      }
    }
  }

  function Quad(corners: seq<Position>): Shape {
    Shape(corners, [TexCoord(0.0, 0.0), TexCoord(0.0, 1.0), TexCoord(1.0, 0.0), TexCoord(1.0, 1.0)], [0, 1, 2, 2, 1, 3])
  }

  /** As many texture coordinates as positions, and triangles that use only them. */
  ghost predicate WellFormed(s: Shape) {
    && 0 < |s.positions| == |s.uvs| <= U16_LIMIT
    && s.indices != []
    && (forall k | 0 <= k < |s.indices| :: s.indices[k] < |s.positions|)
  }

  lemma {:induction false} GridIsWellFormed(s: Shape, z: real, reverse: bool)
    requires IsGrid(s, z, reverse, ROWS * COLUMNS)
    ensures WellFormed(s)
  {
    hide Corner, OnPlane;
    forall k | 0 <= k < |s.indices| ensures s.indices[k] < |s.positions| {
      var c := k / 6;
      assert s.indices[k] == s.indices[6 * c..6 * c + 6][k - 6 * c] == CellIndices(4 * c, reverse)[k - 6 * c];
    }
  }

  // ---------- the book in figures ----------

  function Minus(a: Position, b: Position): Position { Position(a.x - b.x, a.y - b.y, a.z - b.z) }

  function Cross(a: Position, b: Position): Position {
    Position(a.y * b.z - a.z * b.y, a.z * b.x - a.x * b.z, a.x * b.y - a.y * b.x)
  }

  /** Which way the triangle turns, by the right-hand rule: its normal is along `side`, not against it. */
  predicate TurnsTo(a: Position, b: Position, c: Position, side: Position) {
    var n := Cross(Minus(b, a), Minus(c, a));
    n.x * side.x + n.y * side.y + n.z * side.z > 0.0
  }

  predicate BoxCorner(p: Position, first: Position, last: Position) {
    p.x in [first.x, last.x] && p.y in [first.y, last.y] && p.z in [first.z, last.z]
  }

  /** A rectangle with opposite corners `first` and `last`, as two triangles that turn into the book. */
  predicate IsEdge(s: Shape, first: Position, last: Position, inward: Position) {
    && |s.positions| == 4 && s.positions[0] == first && s.positions[3] == last
    && (forall i | 0 <= i < 4 :: BoxCorner(s.positions[i], first, last))
    && (forall i, j | 0 <= i < j < 4 :: s.positions[i] != s.positions[j])
    && s.uvs == [TexCoord(0.0, 0.0), TexCoord(0.0, 1.0), TexCoord(1.0, 0.0), TexCoord(1.0, 1.0)]
    && s.indices == [0, 1, 2, 2, 1, 3]
    && TurnsTo(s.positions[0], s.positions[1], s.positions[2], inward)
    && TurnsTo(s.positions[2], s.positions[1], s.positions[3], inward)
  }

  predicate VertexIs(s: Shape, i: nat, x: real, y: real, z: real, u: real, v: real) {
    i < |s.positions| && i < |s.uvs| && s.positions[i] == Position(x, y, z) && s.uvs[i] == TexCoord(u, v)
  }

  /** The corners of the cell in row 0 to 25 from the top and column 0 to 31 from the left. */
  predicate CellCorners(s: Shape, row: nat, col: nat, z: real) {
    var at := 4 * (32 * row + col);
    var left, top := col as real / 16.0 - 1.0, 1.0 - row as real / 13.0;
    var u, v := col as real / 32.0, row as real / 26.0;
    && VertexIs(s, at, left, top, z, u, v)
    && VertexIs(s, at + 1, left, top - 1.0 / 13.0, z, u, v + 1.0 / 26.0)
    && VertexIs(s, at + 2, left + 1.0 / 16.0, top, z, u + 1.0 / 32.0, v)
    && VertexIs(s, at + 3, left + 1.0 / 16.0, top - 1.0 / 13.0, z, u + 1.0 / 32.0, v + 1.0 / 26.0)
  }

  predicate TriangleTurns(s: Shape, i: nat, j: nat, k: nat, side: Position) {
    i < |s.positions| && j < |s.positions| && k < |s.positions| && TurnsTo(s.positions[i], s.positions[j], s.positions[k], side)
  }

  /** The two triangles of cell c, on either side of its diagonal, both turning to `side`. */
  predicate CellTriangles(s: Shape, c: nat, side: Position)
    requires 6 * c + 6 <= |s.indices|
  {
    var t, at := s.indices[6 * c..6 * c + 6], 4 * c;
    && t in [[at, at + 1, at + 2, at + 2, at + 1, at + 3], [at, at + 2, at + 1, at + 2, at + 3, at + 1]]
    && TriangleTurns(s, t[0], t[1], t[2], side) && TriangleTurns(s, t[3], t[4], t[5], side)
  }

  /** A sheet of 26 rows and 32 columns over x and y from -1 to 1. */
  ghost predicate IsSheet(s: Shape, z: real, side: Position) {
    && |s.positions| == |s.uvs| == 3328 && |s.indices| == 4992
    && (forall row: nat, col: nat | row < 26 && col < 32 :: CellCorners(s, row, col, z))
    && (forall c: nat | c < 832 :: CellTriangles(s, c, side))
  }

  lemma {:induction false} CornerInFigures(row: nat, col: nat, k: nat, z: real)
    requires k < 4
    ensures OnPlane(Corner(row, col, k), z) ==
            Position(col as real / 16.0 - 1.0 + (if k >= 2 then 1.0 / 16.0 else 0.0),
                     1.0 - row as real / 13.0 - (if k % 2 == 1 then 1.0 / 13.0 else 0.0), z)
    ensures Corner(row, col, k) ==
            TexCoord(col as real / 32.0 + (if k >= 2 then 1.0 / 32.0 else 0.0),
                     row as real / 26.0 + (if k % 2 == 1 then 1.0 / 26.0 else 0.0))
  {
  }

  lemma {:induction false} GridCorners(s: Shape, z: real, reverse: bool, row: nat, col: nat)
    requires IsGrid(s, z, reverse, ROWS * COLUMNS) && row < 26 && col < 32
    ensures CellCorners(s, row, col, z)
  {
    hide Corner, OnPlane, CellIndices;
    var c := 32 * row + col;
    CornerInFigures(row, col, 0, z);
    CornerInFigures(row, col, 1, z);
    CornerInFigures(row, col, 2, z);
    CornerInFigures(row, col, 3, z);
    assert c / 32 == row && c % 32 == col;
    assert (4 * c) / 4 == c && (4 * c + 1) / 4 == c && (4 * c + 2) / 4 == c && (4 * c + 3) / 4 == c;
    assert (4 * c) % 4 == 0 && (4 * c + 1) % 4 == 1 && (4 * c + 2) % 4 == 2 && (4 * c + 3) % 4 == 3;
  }

  lemma {:induction false} GridTriangles(s: Shape, z: real, reverse: bool, c: nat)
    requires IsGrid(s, z, reverse, ROWS * COLUMNS) && c < 832
    ensures CellTriangles(s, c, Position(0.0, 0.0, if reverse then -1.0 else 1.0))
  {
    hide Corner, OnPlane;
    assert s.indices[6 * c..6 * c + 6] == CellIndices(4 * c, reverse);
    assert c == 32 * (c / 32) + c % 32;
    GridCorners(s, z, reverse, c / 32, c % 32);
  }

  lemma {:induction false} GridIsSheet(s: Shape, z: real, reverse: bool)
    requires IsGrid(s, z, reverse, ROWS * COLUMNS)
    ensures IsSheet(s, z, Position(0.0, 0.0, if reverse then -1.0 else 1.0))
  {
    hide Corner, OnPlane, CellCorners, CellTriangles, CellIndices;
    assert |s.positions| == 3328 && |s.indices| == 4992;
    forall row: nat, col: nat | row < 26 && col < 32 ensures CellCorners(s, row, col, z) {
      GridCorners(s, z, reverse, row, col);
    }
    var side := Position(0.0, 0.0, if reverse then -1.0 else 1.0);
    forall c: nat | c < 832 ensures CellTriangles(s, c, side) {
      GridTriangles(s, z, reverse, c);
    }
  }

  /** The eight shapes of the book: the front at z = -0.135 and the back at z = 0.135, and the edges at
      left, right, and in two halves each at top and bottom.  Every triangle turns into the book. */
  ghost predicate IsBook(shapes: seq<Shape>) {
    && |shapes| == 8 && (forall i | 0 <= i < 8 :: WellFormed(shapes[i]))
    && IsSheet(shapes[0], -0.135, Position(0.0, 0.0, 1.0))
    && IsSheet(shapes[1], 0.135, Position(0.0, 0.0, -1.0))
    && IsEdge(shapes[2], Position(-1.0, 1.0, 0.135), Position(-1.0, -1.0, -0.135), Position(1.0, 0.0, 0.0))
    && IsEdge(shapes[3], Position(1.0, 1.0, -0.135), Position(1.0, -1.0, 0.135), Position(-1.0, 0.0, 0.0))
    && IsEdge(shapes[4], Position(-1.0, 1.0, 0.135), Position(0.0, 1.0, -0.135), Position(0.0, -1.0, 0.0))
    && IsEdge(shapes[5], Position(-1.0, -1.0, -0.135), Position(0.0, -1.0, 0.135), Position(0.0, 1.0, 0.0))
    && IsEdge(shapes[6], Position(0.0, 1.0, 0.135), Position(1.0, 1.0, -0.135), Position(0.0, -1.0, 0.0))
    && IsEdge(shapes[7], Position(0.0, -1.0, -0.135), Position(1.0, -1.0, 0.135), Position(0.0, 1.0, 0.0))
  }

  lemma {:induction false} SameSign(a: real, b: real)
    requires (a > 0.0 && b > 0.0) || (a < 0.0 && b < 0.0)
    ensures a * b > 0.0
  {
  }

  /** A rectangle in a plane of constant x, drawn downwards first, turns to the side the second column is away from. */
  lemma {:induction false} UprightEdge(corners: seq<Position>, inward: real)
    requires |corners| == 4 && inward in [1.0, -1.0]
    requires corners[0].x == corners[1].x == corners[2].x == corners[3].x
    requires corners[0].y == corners[2].y > corners[1].y == corners[3].y
    requires corners[0].z == corners[1].z && corners[2].z == corners[3].z && (corners[0].z - corners[2].z) * inward > 0.0
    ensures IsEdge(Quad(corners), corners[0], corners[3], Position(inward, 0.0, 0.0)) && WellFormed(Quad(corners))
  {
    var down, across := corners[1].y - corners[0].y, corners[2].z - corners[0].z;
    SameSign(down * inward, across);
  }

  /** A rectangle in a plane of constant y, drawn to the right second. */
  lemma {:induction false} LevelEdge(corners: seq<Position>, inward: real)
    requires |corners| == 4 && inward in [1.0, -1.0]
    requires corners[0].y == corners[1].y == corners[2].y == corners[3].y
    requires corners[0].x == corners[1].x < corners[2].x == corners[3].x
    requires corners[0].z == corners[2].z && corners[1].z == corners[3].z && (corners[1].z - corners[0].z) * inward > 0.0
    ensures IsEdge(Quad(corners), corners[0], corners[3], Position(0.0, inward, 0.0)) && WellFormed(Quad(corners))
  {
    var deep, across := corners[1].z - corners[0].z, corners[2].x - corners[0].x;
    SameSign(deep * inward, across);
  }

  /** The six quads, for any half width, height and depth. */
  method BuildEdges(w: real, h: real, d: real) returns (edges: seq<Shape>)
    requires w > 0.0 && h > 0.0 && d > 0.0
    ensures |edges| == 6 && (forall i | 0 <= i < 6 :: WellFormed(edges[i]))
    ensures IsEdge(edges[0], Position(-w, h, d), Position(-w, -h, -d), Position(1.0, 0.0, 0.0))
    ensures IsEdge(edges[1], Position(w, h, -d), Position(w, -h, d), Position(-1.0, 0.0, 0.0))
    ensures IsEdge(edges[2], Position(-w, h, d), Position(0.0, h, -d), Position(0.0, -1.0, 0.0))
    ensures IsEdge(edges[3], Position(-w, -h, -d), Position(0.0, -h, d), Position(0.0, 1.0, 0.0))
    ensures IsEdge(edges[4], Position(0.0, h, d), Position(w, h, -d), Position(0.0, -1.0, 0.0))
    ensures IsEdge(edges[5], Position(0.0, -h, -d), Position(w, -h, d), Position(0.0, 1.0, 0.0))
  {
    hide IsEdge, Quad, WellFormed;
    var left := [Position(-w, h, d), Position(-w, -h, d), Position(-w, h, -d), Position(-w, -h, -d)];
    var right := [Position(w, h, -d), Position(w, -h, -d), Position(w, h, d), Position(w, -h, d)];
    var topLeft := [Position(-w, h, d), Position(-w, h, -d), Position(0.0, h, d), Position(0.0, h, -d)];
    var bottomLeft := [Position(-w, -h, -d), Position(-w, -h, d), Position(0.0, -h, -d), Position(0.0, -h, d)];
    var topRight := [Position(0.0, h, d), Position(0.0, h, -d), Position(w, h, d), Position(w, h, -d)];
    var bottomRight := [Position(0.0, -h, -d), Position(0.0, -h, d), Position(w, -h, -d), Position(w, -h, d)];
    UprightEdge(left, 1.0);
    UprightEdge(right, -1.0);
    LevelEdge(topLeft, -1.0);
    LevelEdge(bottomLeft, 1.0);
    LevelEdge(topRight, -1.0);
    LevelEdge(bottomRight, 1.0);
    edges := [Quad(left), Quad(right), Quad(topLeft), Quad(bottomLeft), Quad(topRight), Quad(bottomRight)];
  }

  method BuildPrimitives() returns (shapes: seq<Shape>)
    ensures IsBook(shapes)
  {
    hide IsGrid, IsSheet, IsEdge, WellFormed;
    var front := SubdividedPlane(-HALF_DEPTH, false);
    var back := SubdividedPlane(HALF_DEPTH, true);
    GridIsWellFormed(front, -HALF_DEPTH, false);
    GridIsWellFormed(back, HALF_DEPTH, true);
    var edges := BuildEdges(HALF_WIDTH, HALF_HEIGHT, HALF_DEPTH);
    shapes := [front, back] + edges;
  }

  // ---------- layout ----------

  function PositionWords(s: Shape, f32: real -> Word): (words: seq<Word>)
    ensures |words| == 3 * |s.positions|
  {
    seq(3 * |s.positions|, k requires 0 <= k < 3 * |s.positions| =>
      var p := s.positions[k / 3];
      f32(if k % 3 == 0 then p.x else if k % 3 == 1 then p.y else p.z))
  }

  function TexCoordWords(s: Shape, f32: real -> Word): (words: seq<Word>)
    ensures |words| == 2 * |s.uvs|
  {
    seq(2 * |s.uvs|, k requires 0 <= k < 2 * |s.uvs| => f32(if k % 2 == 0 then s.uvs[k / 2].u else s.uvs[k / 2].v))
  }

  predicate Packable(s: Shape) {
    s.positions != [] && s.indices != [] && forall k | 0 <= k < |s.indices| :: s.indices[k] < U16_LIMIT
  }

  function IndexShorts(s: Shape): (shorts: seq<Short>)
    requires Packable(s)
    ensures |shorts| == |s.indices|
  {
    seq(|s.indices|, k requires 0 <= k < |s.indices| => s.indices[k] as Short)
  }

  datatype Scene = Scene(binary: Bytes, views: seq<BufferView>, accessors: seq<Accessor>, primitives: seq<Primitive>)

  const NoScene: Scene := Scene([], [], [], [])

  /** A payload goes to the next multiple of four, and a view says where. */
  function PutView(s: Scene, payload: Bytes): Scene {
    var padded := Pad4(s.binary, 0);
    s.(binary := padded + payload, views := s.views + [BufferView(Some(|padded|), |payload|, None)])
  }

  function PutShape(s: Scene, shape: Shape, face: nat, f32: real -> Word): Scene
    requires Packable(shape)
  {
    var v, a := |s.views|, |s.accessors|;
    var t := PutView(PutView(PutView(s, PackU32(PositionWords(shape, f32))), PackU32(TexCoordWords(shape, f32))),
                     PackU16(IndexShorts(shape)));
    t.(accessors := s.accessors + [
         Accessor(Some(v), None, COMPONENT_F32, |shape.positions|, "VEC3", false),
         Accessor(Some(v + 1), None, COMPONENT_F32, |shape.uvs|, "VEC2", false),
         Accessor(Some(v + 2), None, COMPONENT_U16, |shape.indices|, "SCALAR", false)],
       primitives := s.primitives + [Primitive(Some(a), Some(a + 1), Some(a + 2), Some(face), Some(4), Some(face))])
  }

  /** Nothing if some shape cannot be packed. */
  function PutShapes(s: Scene, shapes: seq<Shape>, i: nat, f32: real -> Word): Option<Scene>
    requires i <= |shapes|
    decreases |shapes| - i
  {
    if i == |shapes| then Some(s)
    else if !Packable(shapes[i]) then None
    else PutShapes(PutShape(s, shapes[i], i, f32), shapes, i + 1, f32)
  }

  function NamesOf(names: seq<string>): seq<Option<string>> {
    seq(|names|, k requires 0 <= k < |names| => Some(names[k]))
  }

  function DocumentOf(s: Scene, names: seq<string>): Document {
    Document(s.views, s.accessors, NamesOf(names), [Mesh(Some("YummiBook"), s.primitives)])
  }

  function Container(json: Bytes, binary: Bytes): Option<Bytes> {
    var total := 12 + 8 + |json| + 8 + |binary|;
    if total >= U32_LIMIT then None
    else Some(U32(GLB_MAGIC) + U32(GLB_VERSION) + U32(total) + (U32(|json|) + U32(JSON_CHUNK) + json + (U32(|binary|) + U32(BIN_CHUNK) + binary)))
  }

  function Written(shapes: seq<Shape>, names: seq<string>, codec: Codec): Option<Bytes> {
    match PutShapes(NoScene, shapes, 0, codec.f32)
    case None => None
    case Some(s) => Container(Pad4(codec.encode(DocumentOf(s, names)), 32), Pad4(s.binary, 0))
  }

  class Writer {
    var binary: Bytes
    var bufferViews: seq<BufferView>
    var accessors: seq<Accessor>
    var gltfPrimitives: seq<Primitive>

    function State(): Scene
      reads this
    {
      Scene(binary, bufferViews, accessors, gltfPrimitives)
    }

    constructor ()
      ensures State() == NoScene
    {
      binary, bufferViews, accessors, gltfPrimitives := [], [], [], [];
    }

    method AddBlob(payload: Bytes) returns (offset: nat, length: nat)
      modifies this`binary
      ensures offset == |Pad4(old(binary), 0)| && offset % 4 == 0 && length == |payload|
      ensures binary == Pad4(old(binary), 0) + payload
    {
      hide Pad4;
      ghost var padded := Pad4(binary, 0);
      while |binary| % 4 != 0
        invariant |old(binary)| <= |binary| <= |padded| && binary == padded[..|binary|]
        decreases |padded| - |binary|
      {
        assert padded[..|binary| + 1] == padded[..|binary|] + [padded[|binary|]];
        binary := binary + [0];
      }
      offset, length := |binary|, |payload|;
      binary := binary + payload;
    }

    method MakeView(payload: Bytes) returns (idx: nat)
      modifies this`binary, this`bufferViews
      ensures State() == PutView(old(State()), payload) && idx == |old(bufferViews)|
    {
      var offset, length := AddBlob(payload);
      idx := |bufferViews|;
      bufferViews := bufferViews + [BufferView(Some(offset), length, None)];
    }

    method AddShape(shape: Shape, face: nat, f32: real -> Word)
      requires Packable(shape)
      modifies this
      ensures State() == PutShape(old(State()), shape, face, f32)
    {
      hide PutView, PackU32, PackU16, PositionWords, TexCoordWords, IndexShorts;
      var posView := MakeView(PackU32(PositionWords(shape, f32)));
      var uvView := MakeView(PackU32(TexCoordWords(shape, f32)));
      var idxView := MakeView(PackU16(IndexShorts(shape)));
      assert uvView == posView + 1 && idxView == posView + 2 by { ViewsGrow(); }
      var posAccessor := |accessors|;
      accessors := accessors + [Accessor(Some(posView), None, COMPONENT_F32, |shape.positions|, "VEC3", false)];
      var uvAccessor := |accessors|;
      accessors := accessors + [Accessor(Some(uvView), None, COMPONENT_F32, |shape.uvs|, "VEC2", false)];
      var idxAccessor := |accessors|;
      accessors := accessors + [Accessor(Some(idxView), None, COMPONENT_U16, |shape.indices|, "SCALAR", false)];
      gltfPrimitives := gltfPrimitives + [Primitive(Some(posAccessor), Some(uvAccessor), Some(idxAccessor), Some(face), Some(4), Some(face))];
    }
  }

  lemma {:induction false} ViewsGrow()
    ensures forall s, payload :: |PutView(s, payload).views| == |s.views| + 1
    ensures forall s, payload :: PutView(s, payload).accessors == s.accessors && PutView(s, payload).primitives == s.primitives
  {
  }

  method Generate(shapes: seq<Shape>, names: seq<string>, codec: Codec) returns (output: Option<Bytes>)
    ensures output == Written(shapes, names, codec)
  {
    hide PutShape, Packable;
    var writer := new Writer();
    for face := 0 to |shapes|
      invariant PutShapes(NoScene, shapes, 0, codec.f32) == PutShapes(writer.State(), shapes, face, codec.f32)
    {
      if !Packable(shapes[face]) {
        return None;
      }
      writer.AddShape(shapes[face], face, codec.f32);
    }
    var json := Pad4(codec.encode(DocumentOf(writer.State(), names)), 32);
    output := Container(json, Pad4(writer.binary, 0));
  }

  /** The generator: the book's shapes, and the file written for them. */
  method GenerateBook(codec: Codec) returns (shapes: seq<Shape>, output: Option<Bytes>)
    ensures IsBook(shapes) && output == Written(shapes, MATERIAL_NAMES, codec)
  {
    shapes := BuildPrimitives();
    output := Generate(shapes, MATERIAL_NAMES, codec);
  }
}
