/** What the writer lays out, the reader reads back: the book survives the trip through its file. */
module GlbRoundTrip {
  import opened Wrappers
  import opened GlbFormat
  import opened GlbReader
  import opened GlbWriter

  // ---------- where the payloads stand ----------

  /** View v says where the payload stands, at a multiple of four. */
  predicate ViewHolds(views: seq<BufferView>, binary: Bytes, v: nat, payload: Bytes) {
    && v < |views|
    && views[v].byteOffset.Some? && views[v].byteStride.None? && views[v].byteLength == |payload|
    && views[v].byteOffset.value % 4 == 0
    && StandsAt(binary, views[v].byteOffset.value, payload)
  }

  /** Views follow each other without overlap, inside the binary chunk. */
  ghost predicate InOrder(s: Scene) {
    && (forall v | 0 <= v < |s.views| ::
          && s.views[v].byteOffset.Some? && 0 <= s.views[v].byteOffset.value && 0 <= s.views[v].byteLength
          && s.views[v].byteOffset.value % 4 == 0
          && s.views[v].byteOffset.value + s.views[v].byteLength <= |s.binary|)
    && (forall v, w | 0 <= v < w < |s.views| ::
          s.views[v].byteOffset.value + s.views[v].byteLength <= s.views[w].byteOffset.value)
  }

  /** A later payload leaves the earlier ones where they are. */
  lemma {:induction false} PutViewEffect(s: Scene, payload: Bytes)
    ensures var t := PutView(s, payload);
            && ViewHolds(t.views, t.binary, |s.views|, payload)
            && (forall v, p | ViewHolds(s.views, s.binary, v, p) :: ViewHolds(t.views, t.binary, v, p))
            && (InOrder(s) ==> InOrder(t))
            && |t.views| == |s.views| + 1 && t.accessors == s.accessors && t.primitives == s.primitives
            && s.binary <= t.binary && |t.binary| - |payload| - |s.binary| in [0, 1, 2, 3]
            && forall k | |s.binary| <= k < |t.binary| - |payload| :: t.binary[k] == 0
  {
    var padded, t := Pad4(s.binary, 0), PutView(s, payload);
    assert t.binary[|padded|..|padded| + |payload|] == payload;
    assert s.binary <= t.binary;
    forall v: nat, p | ViewHolds(s.views, s.binary, v, p) ensures ViewHolds(t.views, t.binary, v, p) {
      StandsLonger(s.binary, t.binary, s.views[v].byteOffset.value, p);
      assert t.views[v] == s.views[v];
    }
  }

  predicate AccessorsFit(accessors: seq<Accessor>, shape: Shape, j: nat)
    requires 3 * j + 3 <= |accessors|
  {
    && accessors[3 * j] == Accessor(Some(3 * j), None, COMPONENT_F32, |shape.positions|, "VEC3", false)
    && accessors[3 * j + 1] == Accessor(Some(3 * j + 1), None, COMPONENT_F32, |shape.uvs|, "VEC2", false)
    && accessors[3 * j + 2] == Accessor(Some(3 * j + 2), None, COMPONENT_U16, |shape.indices|, "SCALAR", false)
  }

  /** Everything the reader needs to find shape j. */
  predicate ShapeLaid(s: Scene, shape: Shape, j: nat, f32: real -> Word) {
    && Packable(shape) && j < |s.primitives| && 3 * j + 3 <= |s.accessors|
    && s.primitives[j] == Primitive(Some(3 * j), Some(3 * j + 1), Some(3 * j + 2), Some(j), Some(4), Some(j))
    && AccessorsFit(s.accessors, shape, j)
    && ViewHolds(s.views, s.binary, 3 * j, PackU32(PositionWords(shape, f32)))
    && ViewHolds(s.views, s.binary, 3 * j + 1, PackU32(TexCoordWords(shape, f32)))
    && ViewHolds(s.views, s.binary, 3 * j + 2, PackU16(IndexShorts(shape)))
  }

  ghost predicate Laid(s: Scene, shapes: seq<Shape>, n: nat, f32: real -> Word)
    requires n <= |shapes|
  {
    && |s.primitives| == n && |s.accessors| == |s.views| == 3 * n && InOrder(s)
    && forall j | 0 <= j < n :: ShapeLaid(s, shapes[j], j, f32)
  }

  lemma {:induction false} ShapeStaysLaid(s: Scene, t: Scene, shape: Shape, j: nat, f32: real -> Word)
    requires ShapeLaid(s, shape, j, f32)
    requires forall v, p | ViewHolds(s.views, s.binary, v, p) :: ViewHolds(t.views, t.binary, v, p)
    requires s.accessors <= t.accessors && s.primitives <= t.primitives
    ensures ShapeLaid(t, shape, j, f32)
  {
    hide ViewHolds, PackU32, PackU16, PositionWords, TexCoordWords, IndexShorts;
  }

  lemma {:induction false} ViewsAfterShape(s: Scene, shape: Shape, face: nat, f32: real -> Word)
    requires Packable(shape)
    ensures var t, v := PutShape(s, shape, face, f32), |s.views|;
            && ViewHolds(t.views, t.binary, v, PackU32(PositionWords(shape, f32)))
            && ViewHolds(t.views, t.binary, v + 1, PackU32(TexCoordWords(shape, f32)))
            && ViewHolds(t.views, t.binary, v + 2, PackU16(IndexShorts(shape)))
            && (forall w, p | ViewHolds(s.views, s.binary, w, p) :: ViewHolds(t.views, t.binary, w, p))
            && (InOrder(s) ==> InOrder(t)) && |t.views| == v + 3
  {
    hide PutView, ViewHolds, PackU32, PackU16, PositionWords, TexCoordWords, IndexShorts;
    var a, b, c := PackU32(PositionWords(shape, f32)), PackU32(TexCoordWords(shape, f32)), PackU16(IndexShorts(shape));
    PutViewEffect(s, a);
    PutViewEffect(PutView(s, a), b);
    PutViewEffect(PutView(PutView(s, a), b), c);
  }

  lemma {:induction false} PutShapeLays(s: Scene, shapes: seq<Shape>, n: nat, f32: real -> Word)
    requires n < |shapes| && Laid(s, shapes, n, f32) && Packable(shapes[n])
    ensures Laid(PutShape(s, shapes[n], n, f32), shapes, n + 1, f32)
  {
    var t := PutShape(s, shapes[n], n, f32);
    ViewsAfterShape(s, shapes[n], n, f32);
    hide InOrder, ViewHolds, PackU32, PackU16, PositionWords, TexCoordWords, IndexShorts, PutView, Packable;
    ViewsGrow();
    forall j | 0 <= j < n + 1 ensures ShapeLaid(t, shapes[j], j, f32) {
      if j < n {
        ShapeStaysLaid(s, t, shapes[j], j, f32);
      }
    }
  }

  /** The layout of a whole book, and that it exists exactly when every shape can be packed. */
  lemma {:induction false} PutShapesLays(s: Scene, shapes: seq<Shape>, n: nat, f32: real -> Word)
    requires n <= |shapes| && Laid(s, shapes, n, f32)
    ensures PutShapes(s, shapes, n, f32).Some? <==> forall j | n <= j < |shapes| :: Packable(shapes[j])
    ensures PutShapes(s, shapes, n, f32).Some? ==> Laid(PutShapes(s, shapes, n, f32).value, shapes, |shapes|, f32)
    decreases |shapes| - n
  {
    hide Laid, Packable, PutShape;
    if n < |shapes| && Packable(shapes[n]) {
      PutShapeLays(s, shapes, n, f32);
      PutShapesLays(PutShape(s, shapes[n], n, f32), shapes, n + 1, f32);
    }
  }

  // ---------- reading an accessor back ----------

  function Floats(words: seq<Word>): seq<Number> {
    seq(|words|, k requires 0 <= k < |words| => F32(words[k]))
  }

  function Wholes(shorts: seq<Short>): seq<Number> {
    seq(|shorts|, k requires 0 <= k < |shorts| => Whole(shorts[k]))
  }

  lemma {:induction false} PackedOffset(l: Layout, k: nat)
    requires LayoutOk(l) && l.components <= 3 && l.stride == l.components * ComponentSize(l.componentType)
    ensures Offset(l, k) == l.start + k * ComponentSize(l.componentType)
  {
    var c, size := l.components, ComponentSize(l.componentType);
    if c == 1 {
      assert k / c == k && k % c == 0;
    } else if c == 2 {
      assert k == 2 * (k / c) + k % c;
    } else {
      assert k == 3 * (k / c) + k % c;
    }
  }

  lemma {:induction false} FloatAt(l: Layout, binary: Bytes, words: seq<Word>, k: nat)
    requires l.componentType == COMPONENT_F32 && 1 <= l.components <= 3 && l.stride == l.components * 4
    requires StandsAt(binary, l.start, PackU32(words)) && k < |words|
    ensures Readable(l, binary, k) && GetNumber(binary, COMPONENT_F32, Offset(l, k)) == F32(words[k])
  {
    hide PackU32, Offset, GetU32;
    PackedOffset(l, k);
    PackedU32At(words, k);
    StandsU32(binary, l.start, PackU32(words), 4 * k);
  }

  lemma {:induction false} ReadsFloats(d: Document, binary: Bytes, a: nat, v: nat, count: nat, shape: string, words: seq<Word>)
    requires a < |d.accessors| && d.accessors[a] == Accessor(Some(v), None, COMPONENT_F32, count, shape, false)
    requires (shape == "VEC3" && |words| == 3 * count) || (shape == "VEC2" && |words| == 2 * count)
    requires ViewHolds(d.bufferViews, binary, v, PackU32(words))
    ensures ReadAccessor(d, binary, a, shape) == Some(Floats(words))
  {
    var l, at := Resolve(d, a, shape).value, d.bufferViews[v].byteOffset.value;
    assert l == Layout(COMPONENT_F32, ComponentCount(shape), at, 4 * ComponentCount(shape), count);
    hide PackU32, Offset, GetNumber, Resolve, StandsAt, Readable;
    forall k: nat | k < |words| ensures Readable(l, binary, k) && GetNumber(binary, COMPONENT_F32, Offset(l, k)) == F32(words[k]) {
      FloatAt(l, binary, words, k);
    }
    assert Numbers(l, binary, |words|) == Floats(words);
  }

  lemma {:induction false} ReadsShorts(d: Document, binary: Bytes, a: nat, v: nat, shorts: seq<Short>)
    requires a < |d.accessors| && d.accessors[a] == Accessor(Some(v), None, COMPONENT_U16, |shorts|, "SCALAR", false)
    requires ViewHolds(d.bufferViews, binary, v, PackU16(shorts))
    ensures ReadAccessor(d, binary, a, "SCALAR") == Some(Wholes(shorts))
  {
    var l, at := Resolve(d, a, "SCALAR").value, d.bufferViews[v].byteOffset.value;
    assert l == Layout(COMPONENT_U16, 1, at, 2, |shorts|);
    hide PackU16, Offset, GetU16;
    forall k: nat | k < |shorts| ensures Readable(l, binary, k) && GetNumber(binary, COMPONENT_U16, Offset(l, k)) == Whole(shorts[k]) {
      PackedOffset(l, k);
      StandsU16(binary, at, PackU16(shorts), 2 * k);
      PackedU16At(shorts, k);
    }
    assert Numbers(l, binary, |shorts|) == Wholes(shorts);
  }

  // ---------- the book, as it should come out ----------

  /** Six numbers a vertex: position, texture coordinate, face. */
  function VertexField(s: Shape, face: int, f32: real -> Word, vertex: nat, field: nat): Number
    requires vertex < |s.positions| == |s.uvs| && field < 6
  {
    var p, t := s.positions[vertex], s.uvs[vertex];
    match field
    case 0 => F32(f32(p.x))
    case 1 => F32(f32(p.y))
    case 2 => F32(f32(p.z))
    case 3 => F32(f32(t.u))
    case 4 => F32(f32(t.v))
    case _ => Whole(face)
  }

  function ShapeVertices(s: Shape, face: int, f32: real -> Word): seq<Number>
    requires |s.positions| == |s.uvs|
  {
    seq(6 * |s.positions|, k requires 0 <= k < 6 * |s.positions| => VertexField(s, face, f32, k / 6, k % 6))
  }

  function ShapeIndices(s: Shape, base: int): seq<int> {
    seq(|s.indices|, k requires 0 <= k < |s.indices| => base + s.indices[k])
  }

  function VertexCount(shapes: seq<Shape>, n: nat): nat
    requires n <= |shapes|
  {
    if n == 0 then 0 else VertexCount(shapes, n - 1) + |shapes[n - 1].positions|
  }

  ghost predicate AllWellFormed(shapes: seq<Shape>) {
    forall i | 0 <= i < |shapes| :: WellFormed(shapes[i])
  }

  /** The first n shapes' vertices, each tagged with its shape's number. */
  ghost function BookVertices(shapes: seq<Shape>, n: nat, f32: real -> Word): (vertices: seq<Number>)
    requires n <= |shapes| && AllWellFormed(shapes)
    ensures |vertices| == 6 * VertexCount(shapes, n)
  {
    if n == 0 then [] else BookVertices(shapes, n - 1, f32) + ShapeVertices(shapes[n - 1], n - 1, f32)
  }

  /** The first n shapes' indices, each shape's counted from its own first vertex. */
  function BookIndices(shapes: seq<Shape>, n: nat): seq<int>
    requires n <= |shapes|
  {
    if n == 0 then [] else BookIndices(shapes, n - 1) + ShapeIndices(shapes[n - 1], VertexCount(shapes, n - 1))
  }

  lemma {:induction false} WordsOfVertex(s: Shape, f32: real -> Word, m: nat)
    requires m < |s.positions| == |s.uvs|
    ensures var p, words := s.positions[m], PositionWords(s, f32);
            words[3 * m] == f32(p.x) && words[3 * m + 1] == f32(p.y) && words[3 * m + 2] == f32(p.z)
    ensures var t, words := s.uvs[m], TexCoordWords(s, f32); words[2 * m] == f32(t.u) && words[2 * m + 1] == f32(t.v)
  {
  }

  lemma {:induction false} OneVertexAt(s: Shape, face: int, f32: real -> Word, m: nat)
    requires m < |s.positions| == |s.uvs|
    ensures ShapeVertices(s, face, f32)[6 * m..6 * m + 6] ==
            OneVertex(Floats(PositionWords(s, f32)), Floats(TexCoordWords(s, f32)), face, m)
  {
    var all, one := ShapeVertices(s, face, f32), OneVertex(Floats(PositionWords(s, f32)), Floats(TexCoordWords(s, f32)), face, m);
    WordsOfVertex(s, f32, m);
    hide PositionWords, TexCoordWords;
    forall k | 0 <= k < 6 ensures all[6 * m + k] == one[k] {
      assert (6 * m + k) / 6 == m && (6 * m + k) % 6 == k;
      assert all[6 * m + k] == VertexField(s, face, f32, m, k);
    }
  }

  lemma {:induction false} VertexBlockIsPrefix(s: Shape, face: int, f32: real -> Word, n: nat)
    requires n <= |s.positions| == |s.uvs|
    ensures 6 * n <= |ShapeVertices(s, face, f32)|
    ensures VertexBlock(Floats(PositionWords(s, f32)), Floats(TexCoordWords(s, f32)), face, n) == ShapeVertices(s, face, f32)[..6 * n]
  {
    hide PositionWords, TexCoordWords, OneVertex;
    var all := ShapeVertices(s, face, f32);
    if n > 0 {
      VertexBlockIsPrefix(s, face, f32, n - 1);
      OneVertexAt(s, face, f32, n - 1);
      var m := n - 1;
      assert all[..6 * n] == all[..6 * m] + all[6 * m..6 * m + 6];
    }
  }

  /** The document the reader gets, with the padded binary chunk. */
  ghost predicate Found(d: Document, binary: Bytes, s: Scene) {
    d.bufferViews == s.views && d.accessors == s.accessors && s.binary <= binary
  }

  lemma {:induction false} ReadsShape(d: Document, binary: Bytes, s: Scene, shape: Shape, j: nat, f32: real -> Word)
    requires Found(d, binary, s) && ShapeLaid(s, shape, j, f32) && WellFormed(shape)
    ensures ReadAccessor(d, binary, 3 * j, "VEC3") == Some(Floats(PositionWords(shape, f32)))
    ensures ReadAccessor(d, binary, 3 * j + 1, "VEC2") == Some(Floats(TexCoordWords(shape, f32)))
    ensures ReadAccessor(d, binary, 3 * j + 2, "SCALAR") == Some(Wholes(IndexShorts(shape)))
  {
    hide PackU32, PackU16, ReadAccessor, StandsAt, Floats, Wholes;
    StandsLonger(s.binary, binary, s.views[3 * j].byteOffset.value, PackU32(PositionWords(shape, f32)));
    StandsLonger(s.binary, binary, s.views[3 * j + 1].byteOffset.value, PackU32(TexCoordWords(shape, f32)));
    StandsLonger(s.binary, binary, s.views[3 * j + 2].byteOffset.value, PackU16(IndexShorts(shape)));
    ReadsFloats(d, binary, 3 * j, 3 * j, |shape.positions|, "VEC3", PositionWords(shape, f32));
    ReadsFloats(d, binary, 3 * j + 1, 3 * j + 1, |shape.uvs|, "VEC2", TexCoordWords(shape, f32));
    ReadsShorts(d, binary, 3 * j + 2, 3 * j + 2, IndexShorts(shape));
  }

  lemma {:induction false} IndicesRebased(shape: Shape, base: int, whole: Word -> Option<int>)
    requires WellFormed(shape) && Packable(shape)
    ensures forall k | 0 <= k < |shape.indices| :: GoodIndex(Wholes(IndexShorts(shape))[k], |shape.positions|, whole)
    ensures Rebased(Wholes(IndexShorts(shape)), |shape.positions|, base, whole) == ShapeIndices(shape, base)
  {
  }

  lemma {:induction false} AddsIndices(d: Document, binary: Bytes, s: Scene, shape: Shape, j: nat, base: int, f32: real -> Word, whole: Word -> Option<int>)
    requires Found(d, binary, s) && ShapeLaid(s, shape, j, f32) && WellFormed(shape)
    ensures AddIndices(d, binary, s.primitives[j], |shape.positions|, base, whole) == Some(ShapeIndices(shape, base))
  {
    ReadsShape(d, binary, s, shape, j, f32);
    IndicesRebased(shape, base, whole);
    hide ReadAccessor, ViewHolds, PositionWords, TexCoordWords, GoodIndex, Rebased, ShapeIndices, Found;
  }

  lemma {:induction false} AddsShape(d: Document, binary: Bytes, s: Scene, shape: Shape, j: nat, parts: Parts, f32: real -> Word, whole: Word -> Option<int>)
    requires Found(d, binary, s) && ShapeLaid(s, shape, j, f32) && WellFormed(shape) && j < 8
    requires |parts.vertices| % 6 == 0
    ensures AddPrimitive(d, binary, s.primitives[j], j, parts, whole) ==
            Some(Parts(parts.vertices + ShapeVertices(shape, j, f32), parts.indices + ShapeIndices(shape, |parts.vertices| / 6)))
  {
    hide ReadAccessor, VertexBlock, PositionWords, TexCoordWords, ShapeVertices, AddIndices, ShapeIndices, Floats, Wholes, IndexShorts;
    ReadsShape(d, binary, s, shape, j, f32);
    AddsIndices(d, binary, s, shape, j, |parts.vertices| / 6, f32, whole);
    VertexBlockIsPrefix(shape, j, f32, |shape.positions|);
    FloatsSize(PositionWords(shape, f32));
    FloatsSize(TexCoordWords(shape, f32));
    ShapeSize(shape, j, f32);
    var all := ShapeVertices(shape, j, f32);
    assert all[..6 * |shape.positions|] == all;
    assert s.primitives[j] == Primitive(Some(3 * j), Some(3 * j + 1), Some(3 * j + 2), Some(j), Some(4), Some(j));
    hide Found, ShapeLaid, WellFormed;
  }

  lemma {:induction false} FloatsSize(words: seq<Word>)
    ensures |Floats(words)| == |words|
  {
  }

  lemma {:induction false} ShapeSize(shape: Shape, face: int, f32: real -> Word)
    requires |shape.positions| == |shape.uvs|
    ensures |ShapeVertices(shape, face, f32)| == 6 * |shape.positions|
  {
  }

  lemma {:induction false} LaidAt(s: Scene, shapes: seq<Shape>, n: nat, f32: real -> Word)
    requires n < |shapes| && Laid(s, shapes, |shapes|, f32) && AllWellFormed(shapes)
    ensures ShapeLaid(s, shapes[n], n, f32) && WellFormed(shapes[n])
  {
    hide ShapeLaid, WellFormed;
  }

  lemma {:induction false} BookGrows(shapes: seq<Shape>, n: nat, f32: real -> Word)
    requires n < |shapes| && AllWellFormed(shapes)
    ensures BookVertices(shapes, n + 1, f32) == BookVertices(shapes, n, f32) + ShapeVertices(shapes[n], n, f32)
    ensures BookIndices(shapes, n + 1) == BookIndices(shapes, n) + ShapeIndices(shapes[n], |BookVertices(shapes, n, f32)| / 6)
  {
    hide ShapeVertices, ShapeIndices;
  }

  lemma {:induction false} AddsShapes(d: Document, binary: Bytes, s: Scene, shapes: seq<Shape>, n: nat, f32: real -> Word, whole: Word -> Option<int>)
    requires n <= |shapes| <= 8 && AllWellFormed(shapes)
    requires Found(d, binary, s) && Laid(s, shapes, |shapes|, f32)
    ensures AddPrimitives(d, binary, s.primitives, n, Parts(BookVertices(shapes, n, f32), BookIndices(shapes, n)), whole) ==
            Some(Parts(BookVertices(shapes, |shapes|, f32), BookIndices(shapes, |shapes|)))
    decreases |shapes| - n
  {
    hide AddPrimitive, ShapeLaid, Found, WellFormed, ShapeIndices, ShapeVertices, BookVertices, BookIndices, Laid, AllWellFormed;
    LaidSize(s, shapes, f32);
    if n < |shapes| {
      var parts := Parts(BookVertices(shapes, n, f32), BookIndices(shapes, n));
      LaidAt(s, shapes, n, f32);
      AddsShape(d, binary, s, shapes[n], n, parts, f32, whole);
      BookGrows(shapes, n, f32);
      AddsShapes(d, binary, s, shapes, n + 1, f32, whole);
    }
  }

  // ---------- the container ----------

  lemma {:induction false} TrimsPadding(json: Bytes, padded: Bytes)
    requires json <= padded && json != [] && !IsPadding(json[|json| - 1])
    requires forall k | |json| <= k < |padded| :: IsPadding(padded[k])
    ensures TrimEnd(padded) == json
    decreases |padded|
  {
    if |padded| > |json| {
      TrimsPadding(json, padded[..|padded| - 1]);
    }
  }

  function Chunk(kind: Word, payload: Bytes): Bytes
    requires |payload| < U32_LIMIT
  {
    U32(|payload|) + U32(kind) + payload
  }

  lemma {:induction false} ChunkStands(buffer: Bytes, cursor: nat, kind: Word, payload: Bytes)
    requires |payload| < U32_LIMIT && StandsAt(buffer, cursor, Chunk(kind, payload))
    ensures cursor + 8 + |payload| <= |buffer|
    ensures GetU32(buffer, cursor) == |payload| && GetU32(buffer, cursor + 4) == kind
    ensures buffer[cursor + 8..cursor + 8 + |payload|] == payload
  {
    hide U32, GetU32;
    var chunk := Chunk(kind, payload);
    assert StandsAt(chunk, 0, U32(|payload|)) && StandsAt(chunk, 4, U32(kind)) && chunk[8..] == payload;
    StandsU32(buffer, cursor, chunk, 0);
    StandsU32(buffer, cursor, chunk, 4);
    StandsU32(chunk, 0, U32(|payload|), 0);
    StandsU32(chunk, 4, U32(kind), 0);
    U32Back(|payload|);
    U32Back(kind);
    assert buffer[cursor + 8..cursor + 8 + |payload|] == buffer[cursor..cursor + |chunk|][8..];
  }

  lemma {:induction false} FileParts(json: Bytes, binary: Bytes)
    requires Container(json, binary).Some?
    ensures var file := Container(json, binary).value;
            && |file| == 28 + |json| + |binary|
            && GetU32(file, 0) == GLB_MAGIC && GetU32(file, 4) == GLB_VERSION && GetU32(file, 8) == |file|
            && StandsAt(file, 12, Chunk(JSON_CHUNK, json)) && StandsAt(file, 20 + |json|, Chunk(BIN_CHUNK, binary))
  {
    hide U32, GetU32;
    var file := Container(json, binary).value;
    var head, a, b := U32(GLB_MAGIC) + U32(GLB_VERSION) + U32(|file|), Chunk(JSON_CHUNK, json), Chunk(BIN_CHUNK, binary);
    assert file == head + (a + b);
    assert StandsAt(file, 0, U32(GLB_MAGIC)) && StandsAt(file, 4, U32(GLB_VERSION)) && StandsAt(file, 8, U32(|file|));
    assert file[12..12 + |a|] == a;
    assert file[12 + |a|..12 + |a| + |b|] == b;
    StandsU32(file, 0, U32(GLB_MAGIC), 0);
    StandsU32(file, 4, U32(GLB_VERSION), 0);
    StandsU32(file, 8, U32(|file|), 0);
    U32Back(GLB_MAGIC);
    U32Back(GLB_VERSION);
    U32Back(|file|);
  }

  lemma {:induction false} ChunksRead(json: Bytes, binary: Bytes, d: Document, decode: Bytes -> Option<Document>)
    requires Container(json, binary).Some? && decode(TrimEnd(json)) == Some(d)
    ensures ReadChunks(Container(json, binary).value, 12, Chunks(None, None), decode) == Some(Chunks(Some(d), Some(binary)))
  {
    hide Container, Chunk, GetU32, TrimEnd;
    var file := Container(json, binary).value;
    FileParts(json, binary);
    ChunkStands(file, 12, JSON_CHUNK, json);
    ChunkStands(file, 20 + |json|, BIN_CHUNK, binary);
    var one := Chunks(Some(d), None);
    assert ReadChunks(file, |file|, Chunks(Some(d), Some(binary)), decode) == Some(Chunks(Some(d), Some(binary)));
    assert ReadChunks(file, 20 + |json|, one, decode) == Some(Chunks(Some(d), Some(binary)));
  }

  // ---------- main results ----------

  lemma {:induction false} ModelRead(s: Scene, shapes: seq<Shape>, names: seq<string>, binary: Bytes, codec: Codec)
    requires 1 <= |shapes| <= 8 && AllWellFormed(shapes)
    requires Laid(s, shapes, |shapes|, codec.f32) && s.binary <= binary
    ensures ReadModel(DocumentOf(s, names), binary, codec.whole) == Some(BookModel(shapes, codec.f32))
  {
    hide AddPrimitives, Laid, AllWellFormed, BookVertices, BookIndices;
    var d := DocumentOf(s, names);
    LaidSize(s, shapes, codec.f32);
    assert BookMesh(d.meshes) == Some(d.meshes[0]);
    BookStart(shapes, codec.f32);
    AddsShapes(d, binary, s, shapes, 0, codec.f32, codec.whole);
    NotEmpty(shapes, codec.f32);
  }

  lemma {:induction false} BookStart(shapes: seq<Shape>, f32: real -> Word)
    requires AllWellFormed(shapes)
    ensures BookVertices(shapes, 0, f32) == [] && BookIndices(shapes, 0) == []
  {
  }

  /** The book the shapes describe: their vertices one after the other, each tagged with its face, and
      their indices rebased by the vertices before them. */
  ghost function BookModel(shapes: seq<Shape>, f32: real -> Word): Model
    requires AllWellFormed(shapes)
  {
    var indices := BookIndices(shapes, |shapes|);
    Model(BookVertices(shapes, |shapes|, f32), indices, exists k | 0 <= k < |indices| :: indices[k] > 65535)
  }

  /** Parsing the generated file gives exactly the book that was written. */
  lemma {:induction false} BookSurvives(shapes: seq<Shape>, names: seq<string>, codec: Codec)
    requires 1 <= |shapes| <= 8 && AllWellFormed(shapes) && FaithfulCodec(codec)
    requires Written(shapes, names, codec).Some?
    ensures Parse(Written(shapes, names, codec).value, codec) == Some(BookModel(shapes, codec.f32))
  {
    hide Container, GetU32, TrimEnd, PutShapes, ReadModel, ReadChunks, AllWellFormed, BookModel, Laid, DocumentOf;
    EmptyLaid(shapes, codec.f32);
    PutShapesLays(NoScene, shapes, 0, codec.f32);
    var scene := PutShapes(NoScene, shapes, 0, codec.f32).value;
    var d := DocumentOf(scene, names);
    var json, binary := Pad4(codec.encode(d), 32), Pad4(scene.binary, 0);
    TrimsPadding(codec.encode(d), json);
    FileParts(json, binary);
    ChunksRead(json, binary, d, codec.decode);
    ModelRead(scene, shapes, names, binary, codec);
  }

  lemma {:induction false} EmptyLaid(shapes: seq<Shape>, f32: real -> Word)
    ensures Laid(NoScene, shapes, 0, f32)
  {
  }

  lemma {:induction false} LaidSize(s: Scene, shapes: seq<Shape>, f32: real -> Word)
    requires Laid(s, shapes, |shapes|, f32)
    ensures |s.primitives| == |shapes|
  {
  }

  lemma {:induction false} NotEmpty(shapes: seq<Shape>, f32: real -> Word)
    requires shapes != [] && AllWellFormed(shapes)
    ensures BookVertices(shapes, |shapes|, f32) != [] && BookIndices(shapes, |shapes|) != []
  {
    assert WellFormed(shapes[|shapes| - 1]);
  }

  /** Every payload of the file stands aligned, apart from the others, where its view says. */
  lemma {:induction false} PayloadsApart(shapes: seq<Shape>, f32: real -> Word)
    requires PutShapes(NoScene, shapes, 0, f32).Some?
    ensures Laid(PutShapes(NoScene, shapes, 0, f32).value, shapes, |shapes|, f32)
  {
    PutShapesLays(NoScene, shapes, 0, f32);
  }

  /** A file comes out exactly when every shape has vertices and 16-bit indices and the file is under 4 GiB. */
  lemma {:induction false} WrittenIff(shapes: seq<Shape>, names: seq<string>, codec: Codec)
    ensures Written(shapes, names, codec).Some? <==>
            && (forall j | 0 <= j < |shapes| :: NarrowShape(shapes[j]))
            && PutShapes(NoScene, shapes, 0, codec.f32).Some?
            && var s := PutShapes(NoScene, shapes, 0, codec.f32).value;
               28 + |Pad4(codec.encode(DocumentOf(s, names)), 32)| + |Pad4(s.binary, 0)| < 4_294_967_296
  {
    PutShapesLays(NoScene, shapes, 0, codec.f32);
    forall j | 0 <= j < |shapes| ensures NarrowShape(shapes[j]) == Packable(shapes[j]) {
    }
    hide PutShapes, Packable, NarrowShape;
  }

  /** A shape with vertices, and with indices of 16 bits. */
  predicate NarrowShape(s: Shape) {
    |s.positions| > 0 && |s.indices| > 0 && forall k | 0 <= k < |s.indices| :: s.indices[k] <= 65535
  }

  /** Every triangle corner is a vertex of the book, so up to 65536 vertices the indices stay 16-bit. */
  lemma {:induction false} IndicesInside(shapes: seq<Shape>, n: nat)
    requires n <= |shapes| && AllWellFormed(shapes)
    ensures forall k | 0 <= k < |BookIndices(shapes, n)| :: 0 <= BookIndices(shapes, n)[k] < VertexCount(shapes, n)
  {
    if n > 0 {
      IndicesInside(shapes, n - 1);
      assert WellFormed(shapes[n - 1]);
    }
  }

  lemma {:induction false} SmallBookIsNarrow(shapes: seq<Shape>, f32: real -> Word)
    requires AllWellFormed(shapes) && VertexCount(shapes, |shapes|) <= U16_LIMIT
    ensures !BookModel(shapes, f32).wide
  {
    hide AllWellFormed, BookVertices, BookIndices;
    IndicesInside(shapes, |shapes|);
  }

  lemma {:induction false} BookSize(shapes: seq<Shape>)
    requires IsBook(shapes)
    ensures AllWellFormed(shapes) && VertexCount(shapes, 8) == 8 * ROWS * COLUMNS + 24
    ensures forall j | 0 <= j < |shapes| :: Packable(shapes[j])
  {
    forall j | 0 <= j < |shapes| ensures Packable(shapes[j]) {
      assert WellFormed(shapes[j]);
    }
    hide Packable, Quad, AllWellFormed;
    assert VertexCount(shapes, 0) == 0;
    assert VertexCount(shapes, 1) == 4 * (ROWS * COLUMNS);
    assert VertexCount(shapes, 2) == VertexCount(shapes, 1) + 4 * (ROWS * COLUMNS);
    assert VertexCount(shapes, 4) == VertexCount(shapes, 3) + 4 == VertexCount(shapes, 2) + 8;
    assert VertexCount(shapes, 6) == VertexCount(shapes, 5) + 4 == VertexCount(shapes, 4) + 8;
    assert VertexCount(shapes, 8) == VertexCount(shapes, 7) + 4 == VertexCount(shapes, 6) + 8;
  }

  /** The generator's own book: its file comes out exactly when it stays under 4 GiB, and is then parsed
      as the front, the back and the six edges, with 16-bit indices. */
  lemma {:induction false} GeneratedBookSurvives(shapes: seq<Shape>, codec: Codec)
    requires IsBook(shapes) && FaithfulCodec(codec)
    ensures AllWellFormed(shapes) && PutShapes(NoScene, shapes, 0, codec.f32).Some?
    ensures var s := PutShapes(NoScene, shapes, 0, codec.f32).value;
            var written := Written(shapes, MATERIAL_NAMES, codec);
            && (written.Some? <==> 28 + |Pad4(codec.encode(DocumentOf(s, MATERIAL_NAMES)), 32)| + |Pad4(s.binary, 0)| < U32_LIMIT)
            && (written.Some? ==> Parse(written.value, codec) == Some(BookModel(shapes, codec.f32)))
    ensures !BookModel(shapes, codec.f32).wide
  {
    BookSize(shapes);
    assert |shapes| == 8;
    hide IsBook, Packable, PutShapes, BookModel, AllWellFormed, VertexCount, Parse, Written, FaithfulCodec, Laid;
    AllPackableWrites(NoScene, shapes, 0, codec.f32);
    WrittenIff(shapes, MATERIAL_NAMES, codec);
    SmallBookIsNarrow(shapes, codec.f32);
    if Written(shapes, MATERIAL_NAMES, codec).Some? {
      BookSurvives(shapes, MATERIAL_NAMES, codec);
    }
  }

  lemma {:induction false} AllPackableWrites(s: Scene, shapes: seq<Shape>, i: nat, f32: real -> Word)
    requires i <= |shapes| && forall j | 0 <= j < |shapes| :: Packable(shapes[j])
    ensures PutShapes(s, shapes, i, f32).Some?
    decreases |shapes| - i
  {
    hide Packable, PutShape;
    if i < |shapes| {
      AllPackableWrites(PutShape(s, shapes[i], i, f32), shapes, i + 1, f32);
    }
  }

  /** A primitive that lost its face tag in another tool is still recognised by its material's name,
      wherever it ended up among the primitives. */
  lemma {:induction false} NamesRecoverFaces(s: Scene, p: Primitive, face: nat, primitiveIndex: nat)
    requires face < 8 && p.material == Some(face) && p.bookFace.None?
    ensures FaceOf(DocumentOf(s, MATERIAL_NAMES), p, primitiveIndex) == face
  {
    assert |MATERIAL_NAMES| == 8;
    var name := MATERIAL_NAMES[face];
    assert face in [0, 1, 2, 3, 4, 5, 6, 7];
    assert FaceByMaterial(name) == Some(face);
  }
}
