/**
 The grid mesh that an effect is drawn on: its cells in row order, each with
 four corners of its own and two triangles.
 */
module GridMesh {
  import opened Wrappers

  const MAX_VERTICES := 65_535

  datatype Cell = Cell(row: nat, col: nat)
  datatype Mesh = Mesh(vertices: seq<real>, indices: seq<nat>)

  // ---------- what the mesh is ----------

  function RowCells(row: nat, columns: nat): (cells: seq<Cell>)
    ensures |cells| == columns
  {
    seq(columns, col requires 0 <= col < columns => Cell(row, col))
  }

  function Cells(columns: nat, rows: nat): seq<Cell> {
    if rows == 0 then [] else Cells(columns, rows - 1) + RowCells(rows - 1, columns)
  }

  /** The edge after `k` of `n` equal parts of the unit interval. */
  function Edge(k: nat, n: nat): real
    requires n > 0
  {
    k as real / n as real
  }

  /** One corner of a cell: clip-space position, texture coordinates and the centre of its cell. */
  function CornerNumbers(c: Cell, columns: nat, rows: nat, right: bool, low: bool): (numbers: seq<real>)
    requires columns > 0 && rows > 0
    ensures |numbers| == 6
  {
    var u, v := Edge(if right then c.col + 1 else c.col, columns), Edge(if low then c.row + 1 else c.row, rows);
    [u * 2.0 - 1.0, 1.0 - v * 2.0, u, v,
     (Edge(c.col, columns) + Edge(c.col + 1, columns)) / 2.0, (Edge(c.row, rows) + Edge(c.row + 1, rows)) / 2.0]
  }

  function CellNumbers(c: Cell, columns: nat, rows: nat): (numbers: seq<real>)
    requires columns > 0 && rows > 0
    ensures |numbers| == 24
  {
    CornerNumbers(c, columns, rows, false, false) + CornerNumbers(c, columns, rows, false, true) +
    CornerNumbers(c, columns, rows, true, false) + CornerNumbers(c, columns, rows, true, true)
  }

  function Triangles(vertex: nat): (triangles: seq<nat>)
    ensures |triangles| == 6
  {
    [vertex, vertex + 1, vertex + 2, vertex + 2, vertex + 1, vertex + 3]
  }

  /** The mesh has these cells, in this order. */
  ghost predicate HasCells(m: Mesh, cells: seq<Cell>, columns: nat, rows: nat) {
    && (cells != [] ==> columns > 0 && rows > 0)
    && |m.vertices| == 24 * |cells| && |m.indices| == 6 * |cells|
    && (forall i | 0 <= i < |cells| :: m.vertices[24 * i..24 * i + 24] == CellNumbers(cells[i], columns, rows))
    && (forall i | 0 <= i < |cells| :: m.indices[6 * i..6 * i + 6] == Triangles(4 * i))
  }

  // ---------- the loops ----------

  lemma {:induction false} CellAdded(m: Mesh, cells: seq<Cell>, c: Cell, columns: nat, rows: nat)
    requires columns > 0 && rows > 0 && HasCells(m, cells, columns, rows)
    ensures HasCells(Mesh(m.vertices + CellNumbers(c, columns, rows), m.indices + Triangles(4 * |cells|)), cells + [c], columns, rows)
  {
    hide CellNumbers, Triangles;
    var n := |cells|;
    var after := Mesh(m.vertices + CellNumbers(c, columns, rows), m.indices + Triangles(4 * n));
    forall i | 0 <= i < n + 1
      ensures after.vertices[24 * i..24 * i + 24] == CellNumbers((cells + [c])[i], columns, rows)
      ensures after.indices[6 * i..6 * i + 6] == Triangles(4 * i)
    {
      if i < n {
        assert after.vertices[24 * i..24 * i + 24] == m.vertices[24 * i..24 * i + 24];
        assert after.indices[6 * i..6 * i + 6] == m.indices[6 * i..6 * i + 6];
      }
    }
  }

  method CreateMesh(columns: nat, rows: nat, buffersMade: bool) returns (mesh: Option<Mesh>)
    ensures mesh.Some? <==> buffersMade && 4 * (columns * rows) <= 65_535
    ensures mesh.Some? ==> HasCells(mesh.value, Cells(columns, rows), columns, rows)
  {
    hide CellNumbers, Triangles;
    var m, vertex := Mesh([], []), 0;
    for row := 0 to rows
      invariant HasCells(m, Cells(columns, row), columns, rows) && vertex == 4 * |Cells(columns, row)|
    {
      for col := 0 to columns
        invariant HasCells(m, Cells(columns, row) + RowCells(row, col), columns, rows)
        invariant vertex == 4 * |Cells(columns, row) + RowCells(row, col)|
      {
        ghost var cells := Cells(columns, row) + RowCells(row, col);
        var cell := Cell(row, col);
        CellAdded(m, cells, cell, columns, rows);
        assert Cells(columns, row) + RowCells(row, col + 1) == cells + [cell];
        m := Mesh(m.vertices + CellNumbers(cell, columns, rows), m.indices + Triangles(vertex));
        vertex := vertex + 4;
      }
    }
    CellsCount(columns, rows);
    mesh := if buffersMade && vertex <= MAX_VERTICES then Some(m) else None;
  }

  // ---------- what it guarantees ----------

  /** The grid has exactly the cells within its rows and columns. */
  lemma {:induction false} CellsInside(columns: nat, rows: nat, c: Cell)
    ensures c in Cells(columns, rows) <==> c.row < rows && c.col < columns
  {
    if rows > 0 {
      CellsInside(columns, rows - 1, c);
      var before, last := Cells(columns, rows - 1), RowCells(rows - 1, columns);
      assert c in before + last <==> c in before || c in last;
      if c.row == rows - 1 && c.col < columns {
        assert last[c.col] == c;
      }
    }
  }

  lemma {:induction false} CellsCount(columns: nat, rows: nat)
    ensures |Cells(columns, rows)| == columns * rows
  {
    if rows > 0 {
      CellsCount(columns, rows - 1);
      assert columns * rows == columns * (rows - 1) + columns;
    }
  }

  /** The cells come row by row. */
  lemma {:induction false} CellAt(columns: nat, rows: nat, row: nat, col: nat)
    requires row < rows && col < columns
    ensures var i := columns * row + col; 0 <= i < |Cells(columns, rows)| && Cells(columns, rows)[i] == Cell(row, col)
  {
    CellsCount(columns, rows - 1);
    if row < rows - 1 {
      CellAt(columns, rows - 1, row, col);
    } else {
      assert columns * row + col == |Cells(columns, rows - 1)| + col;
    }
  }

  /** One corner in figures: position, texture coordinates, centre of the cell. */
  function CornerAt(u: real, v: real, centreU: real, centreV: real): seq<real> {
    [2.0 * u - 1.0, 1.0 - 2.0 * v, u, v, centreU, centreV]
  }

  /** What stands in the buffers for the cell in a row and column: its four corners, top left, bottom left,
      top right, bottom right, and the two triangles on either side of the diagonal between the middle two. */
  lemma {:induction false} MeshInFigures(m: Mesh, columns: nat, rows: nat, row: nat, col: nat)
    requires HasCells(m, Cells(columns, rows), columns, rows) && row < rows && col < columns
    ensures var i := columns * row + col;
            var left, right := col as real / columns as real, (col + 1) as real / columns as real;
            var top, bottom := row as real / rows as real, (row + 1) as real / rows as real;
            var u, v := (left + right) / 2.0, (top + bottom) / 2.0;
            && 0 <= i && 24 * i + 24 <= |m.vertices| && 6 * i + 6 <= |m.indices|
            && m.vertices[24 * i..24 * i + 24] ==
               CornerAt(left, top, u, v) + CornerAt(left, bottom, u, v) + CornerAt(right, top, u, v) + CornerAt(right, bottom, u, v)
            && m.indices[6 * i..6 * i + 6] == [4 * i, 4 * i + 1, 4 * i + 2, 4 * i + 2, 4 * i + 1, 4 * i + 3]
  {
    CellInFigures(columns, rows, row, col);
    hide CellNumbers, CornerAt, Cells;
    CellAt(columns, rows, row, col);
    var i := columns * row + col;
    assert m.vertices[24 * i..24 * i + 24] == CellNumbers(Cells(columns, rows)[i], columns, rows);
    assert m.indices[6 * i..6 * i + 6] == Triangles(4 * i);
  }

  lemma {:induction false} CellInFigures(columns: nat, rows: nat, row: nat, col: nat)
    requires row < rows && col < columns
    ensures var left, right := col as real / columns as real, (col + 1) as real / columns as real;
            var top, bottom := row as real / rows as real, (row + 1) as real / rows as real;
            var u, v := (left + right) / 2.0, (top + bottom) / 2.0;
            CellNumbers(Cell(row, col), columns, rows) ==
            CornerAt(left, top, u, v) + CornerAt(left, bottom, u, v) + CornerAt(right, top, u, v) + CornerAt(right, bottom, u, v)
  {
  }

  /** No cell comes twice. */
  lemma {:induction false} CellsOnce(columns: nat, rows: nat, i: nat, j: nat)
    requires i < j < |Cells(columns, rows)|
    ensures Cells(columns, rows)[i] != Cells(columns, rows)[j]
  {
    var before, last := Cells(columns, rows - 1), RowCells(rows - 1, columns);
    if j < |before| {
      CellsOnce(columns, rows - 1, i, j);
    } else if i < |before| {
      CellsInside(columns, rows - 1, before[i]);
      assert before[i].row != last[j - |before|].row;
    }
  }

  /** Every triangle corner is one of the cell's own vertices, and fits the 16-bit index buffer. */
  lemma {:induction false} IndicesFit(m: Mesh, columns: nat, rows: nat)
    requires HasCells(m, Cells(columns, rows), columns, rows) && 4 * |Cells(columns, rows)| <= MAX_VERTICES
    ensures forall k | 0 <= k < |m.indices| :: m.indices[k] / 4 == k / 6 && 6 * m.indices[k] + 6 <= |m.vertices| && m.indices[k] < 65_536
  {
    forall k | 0 <= k < |m.indices|
      ensures m.indices[k] / 4 == k / 6 && 6 * m.indices[k] + 6 <= |m.vertices| && m.indices[k] < 65_536
    {
      var i := k / 6;
      assert m.indices[k] == m.indices[6 * i..6 * i + 6][k - 6 * i] == Triangles(4 * i)[k - 6 * i];
    }
  }

  predicate Inside(c: Cell, columns: nat, rows: nat, u: real, v: real)
    requires columns > 0 && rows > 0
  {
    Edge(c.col, columns) <= u < Edge(c.col + 1, columns) && Edge(c.row, rows) <= v < Edge(c.row + 1, rows)
  }

  lemma {:induction false} EdgeTimes(j: nat, n: nat, x: real)
    requires n > 0
    ensures Edge(j, n) <= x <==> j as real <= x * n as real
  {
    assert Edge(j, n) * n as real == j as real;
  }

  /** Exactly one of the parts of the unit interval holds `x`. */
  lemma {:induction false} PartOf(x: real, n: nat) returns (k: nat)
    requires n > 0 && 0.0 <= x < 1.0
    ensures k < n && Edge(k, n) <= x < Edge(k + 1, n)
  {
    EdgeTimes(0, n, x);
    hide Edge;
    var parts := n as real;
    var y := x * parts;
    assert (1.0 - x) * parts > 0.0;
    assert (1.0 - x) * parts == parts - y;
    k := y.Floor;
    EdgeTimes(k, n, x);
    EdgeTimes(k + 1, n, x);
  }

  lemma {:induction false} PartsApart(x: real, n: nat, j: nat, k: nat)
    requires n > 0 && Edge(j, n) <= x < Edge(j + 1, n) && Edge(k, n) <= x < Edge(k + 1, n)
    ensures j == k
  {
    EdgeTimes(j, n, x);
    EdgeTimes(j + 1, n, x);
    EdgeTimes(k, n, x);
    EdgeTimes(k + 1, n, x);
    hide Edge;
    var y := x * n as real;
    assert y.Floor == j && y.Floor == k;
  }

  /** The cells tile the picture: each of its points is inside exactly one of them. */
  lemma {:induction false} CellsTile(columns: nat, rows: nat, u: real, v: real)
    requires columns > 0 && rows > 0 && 0.0 <= u < 1.0 && 0.0 <= v < 1.0
    ensures exists c | c in Cells(columns, rows) ::
              Inside(c, columns, rows, u, v) && forall d :: Inside(d, columns, rows, u, v) ==> d == c
  {
    var col := PartOf(u, columns);
    var row := PartOf(v, rows);
    var c := Cell(row, col);
    CellsInside(columns, rows, c);
    assert c in Cells(columns, rows) && Inside(c, columns, rows, u, v);
    forall d | Inside(d, columns, rows, u, v) ensures d == c {
      PartsApart(u, columns, d.col, col);
      PartsApart(v, rows, d.row, row);
    }
  }

  lemma {:induction false} EdgesIncrease(k: nat, n: nat)
    requires n > 0
    ensures Edge(k, n) < Edge(k + 1, n)
  {
    EdgeTimes(k + 1, n, Edge(k, n));
    assert Edge(k, n) * n as real == k as real;
  }

  /** All four corners of a cell carry the same centre, and it is inside that cell. */
  lemma {:induction false} CentreIsInside(c: Cell, columns: nat, rows: nat, right: bool, low: bool)
    requires columns > 0 && rows > 0
    ensures var numbers := CornerNumbers(c, columns, rows, right, low);
            && numbers[4..] == CornerNumbers(c, columns, rows, false, false)[4..]
            && Inside(c, columns, rows, numbers[4], numbers[5])
  {
    EdgesIncrease(c.col, columns);
    EdgesIncrease(c.row, rows);
    hide Edge;
  }
}
