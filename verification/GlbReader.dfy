/** Reading the book model back from a GLB file. */
module GlbReader {
  import opened Wrappers
  import opened GlbFormat

  /** A JavaScript number read from the binary chunk: a float by its word, or an integer. */
  datatype Number = F32(word: Word) | Whole(n: int)

  datatype Model = Model(vertices: seq<Number>, indices: seq<int>, wide: bool)

  function At<T>(s: seq<T>, i: int): Option<T> {
    if 0 <= i < |s| then Some(s[i]) else None
  }

  function OrElse(o: Option<int>, otherwise: int): int {
    if o.Some? then o.value else otherwise
  }

  function ComponentSize(componentType: int): nat {
    if componentType == COMPONENT_U8 then 1
    else if componentType == COMPONENT_U16 then 2
    else if componentType == COMPONENT_U32 || componentType == COMPONENT_F32 then 4
    else 0
  }

  function ComponentCount(shape: string): nat {
    if shape == "SCALAR" then 1 else if shape == "VEC2" then 2 else if shape == "VEC3" then 3 else if shape == "VEC4" then 4 else 0
  }

  /** A `DataView` getter; out of range is an exception, which ends the parse with nothing. */
  function GetNumber(binary: Bytes, componentType: int, at: int): Number
    requires ComponentSize(componentType) > 0 && InRange(binary, at, ComponentSize(componentType))
  {
    if componentType == COMPONENT_U8 then Whole(binary[at])
    else if componentType == COMPONENT_U16 then Whole(GetU16(binary, at))
    else if componentType == COMPONENT_U32 then Whole(GetU32(binary, at))
    else F32(GetU32(binary, at))
  }

  /** An accessor resolved to where its numbers stand: number k is component k % components of element k / components. */
  datatype Layout = Layout(componentType: int, components: nat, start: int, stride: int, count: nat)

  function Resolve(d: Document, accessorIndex: int, shape: string): Option<Layout> {
    match At(d.accessors, accessorIndex)
    case None => None
    case Some(a) =>
      if a.shape != shape || a.sparse || a.bufferView.None? then None
      else match At(d.bufferViews, a.bufferView.value)
        case None => None
        case Some(view) =>
          var components, size := ComponentCount(a.shape), ComponentSize(a.componentType);
          if components < 1 || size < 1 then None
          else
            var stride := OrElse(view.byteStride, components * size);
            if stride < components * size then None
            else Some(Layout(a.componentType, components, OrElse(view.byteOffset, 0) + OrElse(a.byteOffset, 0), stride,
                             if a.count < 0 then 0 else a.count))
  }

  predicate LayoutOk(l: Layout) {
    l.components >= 1 && ComponentSize(l.componentType) >= 1
  }

  function Offset(l: Layout, k: nat): int
    requires LayoutOk(l)
  {
    l.start + k / l.components * l.stride + k % l.components * ComponentSize(l.componentType)
  }

  predicate Readable(l: Layout, binary: Bytes, k: nat)
    requires LayoutOk(l)
  {
    InRange(binary, Offset(l, k), ComponentSize(l.componentType))
  }

  /** The first n numbers. */
  function Numbers(l: Layout, binary: Bytes, n: nat): seq<Number>
    requires LayoutOk(l) && forall k: nat | k < n :: Readable(l, binary, k)
  {
    seq(n, k requires 0 <= k < n => assert Readable(l, binary, k); GetNumber(binary, l.componentType, Offset(l, k)))
  }

  /** All numbers of the accessor, or nothing if it is malformed or reaches outside the binary chunk. */
  ghost function ReadAccessor(d: Document, binary: Bytes, accessorIndex: int, shape: string): Option<seq<Number>> {
    match Resolve(d, accessorIndex, shape)
    case None => None
    case Some(l) =>
      if forall k: nat | k < l.count * l.components :: Readable(l, binary, k)
      then Some(Numbers(l, binary, l.count * l.components)) else None
  }

  lemma {:induction false} ElementOf(l: Layout, element: nat, component: nat)
    requires LayoutOk(l) && component < l.components
    ensures var k := element * l.components + component;
            k / l.components == element && k % l.components == component
            && Offset(l, k) == l.start + element * l.stride + component * ComponentSize(l.componentType)
  {
    DivModUnique(element, component, l.components);
  }

  lemma {:induction false} MultipleGap(a: nat, b: nat, d: nat)
    requires a < b
    ensures a * d + d <= b * d
  {
    assert (a + 1) * d <= b * d;
  }

  lemma {:induction false} SameQuotient(q: nat, r: nat, a: nat, b: nat, d: nat)
    requires q * d + r == a * d + b && r < d && b < d
    ensures q == a && r == b
  {
    if q < a {
      MultipleGap(q, a, d);
    } else if a < q {
      MultipleGap(a, q, d);
    }
  }

  lemma {:induction false} DivModUnique(q: nat, r: nat, d: nat)
    requires r < d
    ensures (q * d + r) / d == q && (q * d + r) % d == r
  {
    var x := q * d + r;
    var a, b := x / d, x % d;
    assert x == a * d + b;
    SameQuotient(q, r, a, b, d);
  }

  lemma {:induction false} BeforeLast(element: nat, component: nat, count: nat, components: nat)
    requires element < count && component < components
    ensures element * components + component < count * components
  {
    MultipleGap(element, count, components);
  }

  method ReadGlbAccessor(d: Document, binary: Bytes, accessorIndex: int, expectedType: string) returns (numbers: Option<seq<Number>>)
    ensures numbers == ReadAccessor(d, binary, accessorIndex, expectedType)
  {
    var layout := Resolve(d, accessorIndex, expectedType);
    if layout.None? {
      return None;
    }
    var l, values := layout.value, [];
    var size := ComponentSize(l.componentType);
    assert LayoutOk(l);
    for element := 0 to l.count
      invariant |values| == element * l.components
      invariant forall k: nat | k < |values| :: Readable(l, binary, k)
      invariant values == Numbers(l, binary, |values|)
    {
      var base := l.start + element * l.stride;
      for component := 0 to l.components
        invariant |values| == element * l.components + component
        invariant forall k: nat | k < |values| :: Readable(l, binary, k)
        invariant values == Numbers(l, binary, |values|)
      {
        ElementOf(l, element, component);
        BeforeLast(element, component, l.count, l.components);
        var at := base + component * size;
        if !InRange(binary, at, size) {
          assert !Readable(l, binary, |values|);
          return None;
        }
        assert Readable(l, binary, |values|);
        values := values + [GetNumber(binary, l.componentType, at)];
      }
    }
    numbers := Some(values);
  }

  // ---------- primitives ----------

  function FaceByMaterial(name: string): Option<int> {
    if name == "Yummi_Page_Front" then Some(0)
    else if name == "Yummi_Cover" then Some(1)
    else if name == "Yummi_Spine_Left" then Some(2)
    else if name == "Yummi_Spine_Right" then Some(3)
    else if name == "Yummi_Page_Top_Left" then Some(4)
    else if name == "Yummi_Page_Bottom_Left" then Some(5)
    else if name == "Yummi_Page_Top_Right" then Some(6)
    else if name == "Yummi_Page_Bottom_Right" then Some(7)
    else None
  }

  function FaceOf(d: Document, p: Primitive, primitiveIndex: int): int {
    var material := if p.material.Some? then At(d.materials, p.material.value) else None;
    var name := if material.Some? then material.value else None;
    if p.bookFace.Some? then p.bookFace.value
    else if name.Some? then OrElse(FaceByMaterial(name.value), primitiveIndex)
    else primitiveIndex
  }

  function OneVertex(positions: seq<Number>, uvs: seq<Number>, face: int, vertex: nat): seq<Number>
    requires 3 * vertex + 3 <= |positions| && 2 * vertex + 2 <= |uvs|
  {
    [positions[3 * vertex], positions[3 * vertex + 1], positions[3 * vertex + 2], uvs[2 * vertex], uvs[2 * vertex + 1], Whole(face)]
  }

  function VertexBlock(positions: seq<Number>, uvs: seq<Number>, face: int, n: nat): (block: seq<Number>)
    requires 3 * n <= |positions| && 2 * n <= |uvs|
    ensures |block| == 6 * n
  {
    if n == 0 then [] else VertexBlock(positions, uvs, face, n - 1) + OneVertex(positions, uvs, face, n - 1)
  }

  function IndexOf(number: Number, whole: Word -> Option<int>): Option<int> {
    match number { case Whole(n) => Some(n) case F32(word) => whole(word) }
  }

  predicate GoodIndex(number: Number, n: nat, whole: Word -> Option<int>) {
    var i := IndexOf(number, whole); i.Some? && 0 <= i.value < n
  }

  function Rebased(source: seq<Number>, n: nat, base: int, whole: Word -> Option<int>): seq<int>
    requires forall k | 0 <= k < |source| :: GoodIndex(source[k], n, whole)
  {
    seq(|source|, k requires 0 <= k < |source| => assert GoodIndex(source[k], n, whole); base + IndexOf(source[k], whole).value)
  }

  function Counted(base: int, n: nat): seq<int> {
    seq(n, k => base + k)
  }

  ghost function AddIndices(d: Document, binary: Bytes, p: Primitive, n: nat, base: int, whole: Word -> Option<int>): Option<seq<int>> {
    if p.indices.None? then Some(Counted(base, n))
    else match ReadAccessor(d, binary, p.indices.value, "SCALAR")
      case None => None
      case Some(source) =>
        if forall k | 0 <= k < |source| :: GoodIndex(source[k], n, whole) then Some(Rebased(source, n, base, whole)) else None
  }

  datatype Parts = Parts(vertices: seq<Number>, indices: seq<int>)

  ghost function AddPrimitive(d: Document, binary: Bytes, p: Primitive, primitiveIndex: nat, parts: Parts, whole: Word -> Option<int>): Option<Parts> {
    if p.mode.Some? && p.mode.value != 4 then Some(parts)
    else if p.position.None? || p.texCoord.None? then None
    else
      var positions, uvs := ReadAccessor(d, binary, p.position.value, "VEC3"), ReadAccessor(d, binary, p.texCoord.value, "VEC2");
      if positions.None? || uvs.None? || 2 * |positions.value| != 3 * |uvs.value| then None
      else
        var face, n := FaceOf(d, p, primitiveIndex), |positions.value| / 3;
        if face < 0 || face > 7 then None
        else match AddIndices(d, binary, p, n, |parts.vertices| / 6, whole)
          case None => None
          case Some(indices) =>
            Some(Parts(parts.vertices + VertexBlock(positions.value, uvs.value, face, n), parts.indices + indices))
  }

  ghost function AddPrimitives(d: Document, binary: Bytes, ps: seq<Primitive>, i: nat, parts: Parts, whole: Word -> Option<int>): Option<Parts>
    requires i <= |ps|
    decreases |ps| - i
  {
    if i == |ps| then Some(parts)
    else match AddPrimitive(d, binary, ps[i], i, parts, whole)
      case None => None
      case Some(next) => AddPrimitives(d, binary, ps, i + 1, next, whole)
  }

  function BookMesh(meshes: seq<Mesh>): Option<Mesh> {
    match NamedMesh(meshes)
    case Some(m) => Some(m)
    case None => At(meshes, 0)
  }

  function NamedMesh(meshes: seq<Mesh>): Option<Mesh> {
    if meshes == [] then None
    else if meshes[0].name == Some("YummiBook") then Some(meshes[0])
    else NamedMesh(meshes[1..])
  }

  // ---------- the container ----------

  function TrimEnd(text: Bytes): Bytes {
    if text != [] && IsPadding(text[|text| - 1]) then TrimEnd(text[..|text| - 1]) else text
  }

  datatype Chunks = Chunks(document: Option<Document>, binary: Option<Bytes>)

  function ReadChunks(buffer: Bytes, cursor: nat, found: Chunks, decode: Bytes -> Option<Document>): Option<Chunks>
    decreases |buffer| - cursor
  {
    if cursor + 8 > |buffer| then Some(found)
    else
      var length, kind, start := GetU32(buffer, cursor), GetU32(buffer, cursor + 4), cursor + 8;
      if start + length > |buffer| then None
      else
        var chunk := buffer[start..start + length];
        if kind == JSON_CHUNK then
          var document := decode(TrimEnd(chunk));
          if document.None? then None else ReadChunks(buffer, start + length, found.(document := document), decode)
        else if kind == BIN_CHUNK then ReadChunks(buffer, start + length, found.(binary := Some(chunk)), decode)
        else ReadChunks(buffer, start + length, found, decode)
  }

  ghost function ReadModel(d: Document, binary: Bytes, whole: Word -> Option<int>): Option<Model> {
    match BookMesh(d.meshes)
    case None => None
    case Some(mesh) =>
      if mesh.primitives == [] then None
      else match AddPrimitives(d, binary, mesh.primitives, 0, Parts([], []), whole)
        case None => None
        case Some(parts) =>
          if parts.vertices == [] || parts.indices == [] then None
          else Some(Model(parts.vertices, parts.indices, exists k | 0 <= k < |parts.indices| :: parts.indices[k] > 65535))
  }

  ghost function Parse(buffer: Bytes, codec: Codec): Option<Model> {
    if |buffer| < 20 || GetU32(buffer, 0) != GLB_MAGIC || GetU32(buffer, 4) != GLB_VERSION then None
    else match ReadChunks(buffer, 12, Chunks(None, None), codec.decode)
      case None => None
      case Some(chunks) =>
        if chunks.document.None? || chunks.binary.None? then None
        else ReadModel(chunks.document.value, chunks.binary.value, codec.whole)
  }

  // ---------- the parser's loops ----------

  lemma {:induction false} AccessorSize(d: Document, binary: Bytes, accessorIndex: int, shape: string)
    ensures var numbers := ReadAccessor(d, binary, accessorIndex, shape);
            numbers.Some? ==> (shape == "VEC3" ==> |numbers.value| % 3 == 0) && (shape == "VEC2" ==> |numbers.value| % 2 == 0)
  {
  }

  method ReadIndices(d: Document, binary: Bytes, p: Primitive, n: nat, base: int, whole: Word -> Option<int>) returns (indices: Option<seq<int>>)
    ensures indices == AddIndices(d, binary, p, n, base, whole)
  {
    var result := [];
    if p.indices.None? {
      for vertex := 0 to n
        invariant result == Counted(base, vertex)
      {
        result := result + [base + vertex];
      }
      return Some(result);
    }
    var source := ReadGlbAccessor(d, binary, p.indices.value, "SCALAR");
    if source.None? {
      return None;
    }
    for k := 0 to |source.value|
      invariant forall j | 0 <= j < k :: GoodIndex(source.value[j], n, whole)
      invariant |result| == k && forall j | 0 <= j < k :: result[j] == base + IndexOf(source.value[j], whole).value
    {
      if !GoodIndex(source.value[k], n, whole) {
        return None;
      }
      result := result + [base + IndexOf(source.value[k], whole).value];
    }
    assert result == Rebased(source.value, n, base, whole);
    indices := Some(result);
  }

  method ReadPrimitive(d: Document, binary: Bytes, p: Primitive, primitiveIndex: nat, parts: Parts, whole: Word -> Option<int>) returns (next: Option<Parts>)
    ensures next == AddPrimitive(d, binary, p, primitiveIndex, parts, whole)
  {
    hide ReadAccessor, AddIndices, FaceOf;
    if p.mode.Some? && p.mode.value != 4 {
      return Some(parts);
    }
    if p.position.None? || p.texCoord.None? {
      return None;
    }
    var positions := ReadGlbAccessor(d, binary, p.position.value, "VEC3");
    var uvs := ReadGlbAccessor(d, binary, p.texCoord.value, "VEC2");
    AccessorSize(d, binary, p.position.value, "VEC3");
    AccessorSize(d, binary, p.texCoord.value, "VEC2");
    if positions.None? || uvs.None? || |positions.value| / 3 != |uvs.value| / 2 {
      return None;
    }
    var face := FaceOf(d, p, primitiveIndex);
    if face < 0 || face > 7 {
      return None;
    }
    var vertices, n := parts.vertices, |positions.value| / 3;
    for vertex := 0 to n
      invariant vertices == parts.vertices + VertexBlock(positions.value, uvs.value, face, vertex)
    {
      var added := OneVertex(positions.value, uvs.value, face, vertex);
      assert parts.vertices + VertexBlock(positions.value, uvs.value, face, vertex + 1) == vertices + added;
      vertices := vertices + added;
    }
    var indices := ReadIndices(d, binary, p, n, |parts.vertices| / 6, whole);
    if indices.None? {
      return None;
    }
    next := Some(Parts(vertices, parts.indices + indices.value));
  }

  method ParseBookModelGlb(buffer: Bytes, codec: Codec) returns (model: Option<Model>)
    ensures model == Parse(buffer, codec)
  {
    hide AddPrimitive, BookMesh, GetU32, TrimEnd;
    if |buffer| < 20 || GetU32(buffer, 0) != GLB_MAGIC || GetU32(buffer, 4) != GLB_VERSION {
      return None;
    }
    var chunks := FindChunks(buffer, codec.decode);
    if chunks.None? || chunks.value.document.None? || chunks.value.binary.None? {
      return None;
    }
    var document, binary := chunks.value.document.value, chunks.value.binary.value;
    var mesh := BookMesh(document.meshes);
    if mesh.None? || mesh.value.primitives == [] {
      return None;
    }
    var ps, parts := mesh.value.primitives, Parts([], []);
    for i := 0 to |ps|
      invariant AddPrimitives(document, binary, ps, 0, Parts([], []), codec.whole) == AddPrimitives(document, binary, ps, i, parts, codec.whole)
    {
      var next := ReadPrimitive(document, binary, ps[i], i, parts, codec.whole);
      if next.None? {
        return None;
      }
      parts := next.value;
    }
    if parts.vertices == [] || parts.indices == [] {
      return None;
    }
    model := Some(Model(parts.vertices, parts.indices, exists k | 0 <= k < |parts.indices| :: parts.indices[k] > 65535));
  }

  method FindChunks(buffer: Bytes, decode: Bytes -> Option<Document>) returns (chunks: Option<Chunks>)
    requires |buffer| >= 12
    ensures chunks == ReadChunks(buffer, 12, Chunks(None, None), decode)
  {
    hide GetU32, TrimEnd;
    var cursor, document, binary := 12, None, None;
    while cursor + 8 <= |buffer|
      invariant ReadChunks(buffer, 12, Chunks(None, None), decode) == ReadChunks(buffer, cursor, Chunks(document, binary), decode)
      decreases |buffer| - cursor
    {
      var length, kind := GetU32(buffer, cursor), GetU32(buffer, cursor + 4);
      cursor := cursor + 8;
      if cursor + length > |buffer| {
        return None;
      }
      var chunk := buffer[cursor..cursor + length];
      if kind == JSON_CHUNK {
        document := decode(TrimEnd(chunk));
        if document.None? {
          return None;
        }
      } else if kind == BIN_CHUNK {
        binary := Some(chunk);
      }
      cursor := cursor + length;
    }
    chunks := Some(Chunks(document, binary));
  }
}
