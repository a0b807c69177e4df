/** What the parser takes from any file, in bytes and figures. */
module GlbReading {
  import opened Wrappers
  import opened GlbFormat
  import opened GlbReader
  import opened GlbWriter
  import opened GlbRoundTrip

  // ---------- accessors ----------

  /** Bytes of a component, and components of an element, as glTF names them; 0 for anything else. */
  function SizeOf(componentType: int): nat {
    match componentType { case 5121 => 1 case 5123 => 2 case 5125 => 4 case 5126 => 4 case _ => 0 }
  }

  function ComponentsOf(shape: string): nat {
    match shape { case "SCALAR" => 1 case "VEC2" => 2 case "VEC3" => 3 case "VEC4" => 4 case _ => 0 }
  }

  /** The number that stands at an offset, least byte first. */
  function NumberAt(binary: Bytes, componentType: int, at: nat): Number
    requires at + SizeOf(componentType) <= |binary| && SizeOf(componentType) > 0
  {
    var b0: int := binary[at];
    if componentType == 5121 then Whole(b0)
    else
      var b1: int := binary[at + 1];
      if componentType == 5123 then Whole(b0 + 256 * b1)
      else
        var b2: int, b3: int := binary[at + 2], binary[at + 3];
        var word := b0 + 256 * b1 + 65536 * b2 + 16777216 * b3;
        if componentType == 5125 then Whole(word) else F32(word)
  }

  /** The accessor is there with the type asked for, unsparse, over a view that is there, of known
      component and element types, and its stride leaves room for an element. */
  predicate Usable(d: Document, a: int, shape: string) {
    && 0 <= a < |d.accessors|
    && var acc := d.accessors[a];
    && acc.shape == shape && !acc.sparse && ComponentsOf(shape) > 0 && SizeOf(acc.componentType) > 0
    && acc.bufferView.Some? && 0 <= acc.bufferView.value < |d.bufferViews|
    && var view := d.bufferViews[acc.bufferView.value];
    && (view.byteStride.Some? ==> view.byteStride.value >= ComponentsOf(shape) * SizeOf(acc.componentType))
  }

  /** Where a component of an element stands. */
  function Place(d: Document, a: int, shape: string, element: nat, component: nat): int
    requires Usable(d, a, shape)
  {
    var acc := d.accessors[a];
    var view := d.bufferViews[acc.bufferView.value];
    var stride := if view.byteStride.Some? then view.byteStride.value else ComponentsOf(shape) * SizeOf(acc.componentType);
    (if view.byteOffset.Some? then view.byteOffset.value else 0) + (if acc.byteOffset.Some? then acc.byteOffset.value else 0)
    + element * stride + component * SizeOf(acc.componentType)
  }

  predicate Inside(binary: Bytes, at: int, size: nat) { 0 <= at && at + size <= |binary| }

  predicate ElementInside(d: Document, binary: Bytes, a: int, shape: string, element: nat)
    requires Usable(d, a, shape)
  {
    forall c: nat | c < ComponentsOf(shape) :: Inside(binary, Place(d, a, shape, element, c), SizeOf(d.accessors[a].componentType))
  }

  ghost predicate NumbersAre(ns: seq<Number>, d: Document, binary: Bytes, a: int, shape: string)
    requires Usable(d, a, shape)
  {
    var n, kind := ComponentsOf(shape), d.accessors[a].componentType;
    && |ns| == (if d.accessors[a].count > 0 then d.accessors[a].count * n else 0)
    && forall e: nat, c: nat | e < d.accessors[a].count && c < n ::
         var at := Place(d, a, shape, e, c);
         Inside(binary, at, SizeOf(kind)) && e * n + c < |ns| && ns[e * n + c] == NumberAt(binary, kind, at)
  }

  lemma {:induction false} SameSizes(componentType: int, shape: string)
    ensures ComponentSize(componentType) == SizeOf(componentType) && ComponentCount(shape) == ComponentsOf(shape)
  {
  }

  lemma {:induction false} SameNumber(binary: Bytes, componentType: int, at: nat)
    requires at + SizeOf(componentType) <= |binary| && SizeOf(componentType) > 0
    ensures ComponentSize(componentType) == SizeOf(componentType)
    ensures GetNumber(binary, componentType, at) == NumberAt(binary, componentType, at)
  {
  }

  lemma {:induction false} Resolved(d: Document, a: int, shape: string)
    ensures Resolve(d, a, shape).Some? <==> Usable(d, a, shape)
    ensures Usable(d, a, shape) ==>
              var l, acc := Resolve(d, a, shape).value, d.accessors[a];
              && l.componentType == acc.componentType && l.components == ComponentsOf(shape) && LayoutOk(l)
              && l.count == (if acc.count > 0 then acc.count else 0)
              && forall e: nat, c: nat :: Place(d, a, shape, e, c) == l.start + e * l.stride + c * ComponentSize(l.componentType)
  {
    if 0 <= a < |d.accessors| {
      SameSizes(d.accessors[a].componentType, shape);
      hide ComponentSize, SizeOf, ComponentCount, ComponentsOf;
    }
  }

  lemma {:induction false} MultipleAtLeast(a: nat, b: nat, d: nat)
    requires a <= b
    ensures a * d <= b * d
  {
  }

  /** An accessor is read exactly if it is usable and each of its numbers stands inside the binary
      chunk; and then the numbers are those, element by element. */
  lemma {:induction false} AccessorIsRead(d: Document, binary: Bytes, a: int, shape: string)
    ensures var numbers := ReadAccessor(d, binary, a, shape);
            && (numbers.Some? <==>
                  Usable(d, a, shape) && forall e: nat | e < d.accessors[a].count :: ElementInside(d, binary, a, shape, e))
            && (numbers.Some? ==> NumbersAre(numbers.value, d, binary, a, shape))
  {
    Resolved(d, a, shape);
    if Usable(d, a, shape) {
      var l := Resolve(d, a, shape).value;
      SameSizes(l.componentType, shape);
      hide Resolve, Usable, Place, ComponentSize, SizeOf, ComponentCount, ComponentsOf, Offset;
      forall k: nat | k < l.count * l.components && !Readable(l, binary, k)
        ensures exists e: nat | e < l.count :: !ElementInside(d, binary, a, shape, e)
      {
        var e: nat, c: nat := k / l.components, k % l.components;
        assert k == e * l.components + c;
        ElementOf(l, e, c);
        if e >= l.count {
          MultipleAtLeast(l.count, e, l.components);
        }
        assert !Inside(binary, Place(d, a, shape, e, c), SizeOf(l.componentType));
        assert !ElementInside(d, binary, a, shape, e);
      }
      forall e: nat, c: nat | e < l.count && c < l.components
        ensures e * l.components + c < l.count * l.components && Offset(l, e * l.components + c) == Place(d, a, shape, e, c)
      {
        ElementOf(l, e, c);
        BeforeLast(e, c, l.count, l.components);
      }
      var numbers := ReadAccessor(d, binary, a, shape);
      if numbers.Some? {
        forall e: nat, c: nat | e < l.count && c < l.components
          ensures var k := e * l.components + c;
                  Inside(binary, Place(d, a, shape, e, c), SizeOf(l.componentType)) && k < |numbers.value|
                  && numbers.value[k] == NumberAt(binary, l.componentType, Place(d, a, shape, e, c))
        {
          assert Readable(l, binary, e * l.components + c);
          SameNumber(binary, l.componentType, Place(d, a, shape, e, c));
        }
      }
    }
  }

  // ---------- primitives ----------

  /** The number is one of the first n integers. */
  predicate IsVertex(number: Number, n: nat, whole: Word -> Option<int>) {
    match number
    case Whole(i) => 0 <= i < n
    case F32(word) => whole(word).Some? && 0 <= whole(word).value < n
  }

  function VertexOf(number: Number, whole: Word -> Option<int>): int
    requires number.F32? ==> whole(number.word).Some?
  {
    match number { case Whole(i) => i case F32(word) => whole(word).value }
  }

  /** What is added to the model for one primitive: its vertices, each with its six numbers, and its indices
      counted from its first vertex; nothing comes out of a primitive that lacks something, has other
      than as many texture coordinates as positions, a face not from 0 to 7, or an index that is not one of
      its vertices.  Primitives that are not triangles are passed over. */
  lemma {:induction false} PrimitiveIsTaken(d: Document, binary: Bytes, p: Primitive, number: nat, parts: Parts, whole: Word -> Option<int>)
    requires |parts.vertices| % 6 == 0
    ensures var next := AddPrimitive(d, binary, p, number, parts, whole);
            if p.mode.Some? && p.mode != Some(4) then next == Some(parts)
            else if p.position.None? || p.texCoord.None? then next == None
            else
              var positions, uvs := ReadAccessor(d, binary, p.position.value, "VEC3"), ReadAccessor(d, binary, p.texCoord.value, "VEC2");
              var face := FaceOf(d, p, number);
              if positions.None? || uvs.None? || |positions.value| / 3 != |uvs.value| / 2 || face !in [0, 1, 2, 3, 4, 5, 6, 7] then next == None
              else
                var n, first := |positions.value| / 3, |parts.vertices| / 6;
                var source := if p.indices.Some? then ReadAccessor(d, binary, p.indices.value, "SCALAR") else None;
                && (next.Some? <==> p.indices.None? || (source.Some? && forall k | 0 <= k < |source.value| :: IsVertex(source.value[k], n, whole)))
                && (next.Some? ==>
                      && VerticesAre(next.value.vertices, parts.vertices, positions.value, uvs.value, face, n)
                      && parts.indices <= next.value.indices
                      && if p.indices.None? then
                           IndicesAre(next.value.indices[|parts.indices|..], first, n)
                         else
                           && |next.value.indices| == |parts.indices| + |source.value|
                           && forall k | 0 <= k < |source.value| ::
                                IsVertex(source.value[k], n, whole)
                                && next.value.indices[|parts.indices| + k] == first + VertexOf(source.value[k], whole))
  {
    hide ReadAccessor, FaceOf;
    if p.position.Some? && p.texCoord.Some? {
      AccessorSize(d, binary, p.position.value, "VEC3");
      AccessorSize(d, binary, p.texCoord.value, "VEC2");
      var positions, uvs := ReadAccessor(d, binary, p.position.value, "VEC3"), ReadAccessor(d, binary, p.texCoord.value, "VEC2");
      if positions.Some? && uvs.Some? && |positions.value| / 3 == |uvs.value| / 2 {
        BlockReads(positions.value, uvs.value, FaceOf(d, p, number), |positions.value| / 3);
      }
    }
  }

  predicate IndicesAre(indices: seq<int>, first: nat, n: nat) {
    |indices| == n && forall k | 0 <= k < n :: indices[k] == first + k
  }

  /** The vertices before, and then n more with their positions, texture coordinates and face. */
  predicate VerticesAre(after: seq<Number>, before: seq<Number>, positions: seq<Number>, uvs: seq<Number>, face: int, n: nat)
    requires 3 * n <= |positions| && 2 * n <= |uvs|
  {
    before <= after && BlockIs(after[|before|..], positions, uvs, face, n)
  }

  predicate BlockIs(block: seq<Number>, positions: seq<Number>, uvs: seq<Number>, face: int, n: nat)
    requires 3 * n <= |positions| && 2 * n <= |uvs|
  {
    |block| == 6 * n && forall v: nat | v < n :: SixAre(block, v, positions, uvs, face)
  }

  predicate SixAre(block: seq<Number>, v: nat, positions: seq<Number>, uvs: seq<Number>, face: int)
    requires 3 * v + 3 <= |positions| && 2 * v + 2 <= |uvs| && 6 * v + 6 <= |block|
  {
    && block[6 * v] == positions[3 * v] && block[6 * v + 1] == positions[3 * v + 1] && block[6 * v + 2] == positions[3 * v + 2]
    && block[6 * v + 3] == uvs[2 * v] && block[6 * v + 4] == uvs[2 * v + 1] && block[6 * v + 5] == Whole(face)
  }

  lemma {:induction false} BlockReads(positions: seq<Number>, uvs: seq<Number>, face: int, n: nat)
    requires 3 * n <= |positions| && 2 * n <= |uvs|
    ensures BlockIs(VertexBlock(positions, uvs, face, n), positions, uvs, face, n)
  {
    if n > 0 {
      BlockReads(positions, uvs, face, n - 1);
      var before, all := VertexBlock(positions, uvs, face, n - 1), VertexBlock(positions, uvs, face, n);
      forall v: nat | v < n ensures SixAre(all, v, positions, uvs, face) {
        if v < n - 1 {
          assert SixAre(before, v, positions, uvs, face);
        }
      }
    }
  }

  // ---------- the container ----------

  /** "glTF", version 2. */
  const HEADER: Bytes := [0x67, 0x6C, 0x54, 0x46, 2, 0, 0, 0]

  /** "JSON" and "BIN", the latter with a zero byte. */
  const JSON_NAME: Bytes := [0x4A, 0x53, 0x4F, 0x4E]
  const BIN_NAME: Bytes := [0x42, 0x49, 0x4E, 0]

  predicate BytesAt(buffer: Bytes, at: nat, bytes: Bytes) {
    at + |bytes| <= |buffer| && buffer[at..at + |bytes|] == bytes
  }

  lemma {:induction false} SameBytes(a: Byte, b: Byte, c: Byte, d: Byte, e: Byte, f: Byte, g: Byte, h: Byte)
    ensures (a as int + 256 * b as int + 65536 * c as int + 16777216 * d as int ==
             e as int + 256 * f as int + 65536 * g as int + 16777216 * h as int) <==> (a == e && b == f && c == g && d == h)
  {
  }

  lemma {:induction false} WordReads(buffer: Bytes, at: nat)
    requires at + 4 <= |buffer|
    ensures GetU32(buffer, at) == buffer[at] as int + 256 * buffer[at + 1] as int + 65536 * buffer[at + 2] as int + 16777216 * buffer[at + 3] as int
  {
  }

  lemma {:induction false} WordIs(buffer: Bytes, at: nat, bytes: Bytes)
    requires |bytes| == 4 && at + 4 <= |buffer|
    ensures BytesAt(buffer, at, bytes) <==> GetU32(buffer, at) == GetU32(bytes, 0)
  {
    WordReads(buffer, at);
    WordReads(bytes, 0);
    SameBytes(buffer[at], buffer[at + 1], buffer[at + 2], buffer[at + 3], bytes[0], bytes[1], bytes[2], bytes[3]);
    hide GetU32;
    assert buffer[at..at + 4] == [buffer[at], buffer[at + 1], buffer[at + 2], buffer[at + 3]];
    assert bytes == [bytes[0], bytes[1], bytes[2], bytes[3]];
  }

  lemma {:induction false} HeaderIs(buffer: Bytes)
    requires |buffer| >= 8
    ensures BytesAt(buffer, 0, HEADER) <==> GetU32(buffer, 0) == GLB_MAGIC && GetU32(buffer, 4) == GLB_VERSION
  {
    WordIs(buffer, 0, HEADER[..4]);
    WordIs(buffer, 4, HEADER[4..]);
    assert GetU32(HEADER[..4], 0) == GLB_MAGIC && GetU32(HEADER[4..], 0) == GLB_VERSION;
    assert HEADER == HEADER[..4] + HEADER[4..];
    assert buffer[0..8] == buffer[0..4] + buffer[4..8];
  }

  lemma {:induction false} NamesAre(buffer: Bytes, at: nat)
    requires at + 4 <= |buffer|
    ensures BytesAt(buffer, at, JSON_NAME) <==> GetU32(buffer, at) == JSON_CHUNK
    ensures BytesAt(buffer, at, BIN_NAME) <==> GetU32(buffer, at) == BIN_CHUNK
  {
    WordIs(buffer, at, JSON_NAME);
    WordIs(buffer, at, BIN_NAME);
  }

  /** Of the text of the document exactly the NULs and spaces at its end are left out. */
  lemma {:induction false} TrimReads(text: Bytes)
    ensures var t := TrimEnd(text);
            && t <= text && (t == [] || t[|t| - 1] !in [0, 32]) && forall i | |t| <= i < |text| :: text[i] in [0, 32]
    decreases |text|
  {
    if text != [] && IsPadding(text[|text| - 1]) {
      TrimReads(text[..|text| - 1]);
    }
  }

  /** The next chunk is read: its length, its kind, and what becomes of it. */
  lemma {:induction false} ChunkIsRead(buffer: Bytes, cursor: nat, found: Chunks, decode: Bytes -> Option<Document>)
    requires cursor + 8 <= |buffer|
    ensures var b0: int, b1: int, b2: int, b3: int := buffer[cursor], buffer[cursor + 1], buffer[cursor + 2], buffer[cursor + 3];
            var end := cursor + 8 + b0 + 256 * b1 + 65536 * b2 + 16777216 * b3;
            var after := ReadChunks(buffer, cursor, found, decode);
            if end > |buffer| then after == None
            else if BytesAt(buffer, cursor + 4, JSON_NAME) then
              var document := decode(TrimEnd(buffer[cursor + 8..end]));
              after == if document.None? then None else ReadChunks(buffer, end, found.(document := document), decode)
            else if BytesAt(buffer, cursor + 4, BIN_NAME) then
              after == ReadChunks(buffer, end, found.(binary := Some(buffer[cursor + 8..end])), decode)
            else after == ReadChunks(buffer, end, found, decode)
  {
    hide TrimEnd;
    NamesAre(buffer, cursor + 4);
  }

  /** The book's mesh is the first of its name, or else the first. */
  lemma {:induction false} MeshIsChosen(meshes: seq<Mesh>)
    ensures BookMesh(meshes).None? <==> meshes == []
    ensures meshes != [] && (forall i | 0 <= i < |meshes| :: meshes[i].name != Some("YummiBook")) ==> BookMesh(meshes) == Some(meshes[0])
    ensures forall i | 0 <= i < |meshes| && meshes[i].name == Some("YummiBook") && (forall j | 0 <= j < i :: meshes[j].name != Some("YummiBook")) ::
              BookMesh(meshes) == Some(meshes[i])
  {
    forall i | 0 <= i < |meshes| && meshes[i].name == Some("YummiBook") && (forall j | 0 <= j < i :: meshes[j].name != Some("YummiBook"))
      ensures BookMesh(meshes) == Some(meshes[i])
    {
      FirstNamed(meshes, i);
    }
    if forall i | 0 <= i < |meshes| :: meshes[i].name != Some("YummiBook") {
      NoneNamed(meshes);
    }
  }

  lemma {:induction false} FirstNamed(meshes: seq<Mesh>, i: nat)
    requires i < |meshes| && meshes[i].name == Some("YummiBook") && forall j | 0 <= j < i :: meshes[j].name != Some("YummiBook")
    ensures NamedMesh(meshes) == Some(meshes[i])
  {
    if i > 0 {
      FirstNamed(meshes[1..], i - 1);
    }
  }

  lemma {:induction false} NoneNamed(meshes: seq<Mesh>)
    requires forall i | 0 <= i < |meshes| :: meshes[i].name != Some("YummiBook")
    ensures NamedMesh(meshes).None?
  {
    if meshes != [] {
      NoneNamed(meshes[1..]);
    }
  }

  // ---------- what comes out ----------

  /** Six numbers a vertex, the last a face from 0 to 7, and indices of those vertices only. */
  predicate ModelOk(vertices: seq<Number>, indices: seq<int>) {
    && |vertices| % 6 == 0
    && (forall j: nat | j < |vertices| / 6 :: Tagged(vertices, j))
    && (forall k | 0 <= k < |indices| :: 0 <= indices[k] < |vertices| / 6)
  }

  predicate Tagged(vertices: seq<Number>, j: nat)
    requires 6 * j + 6 <= |vertices|
  {
    vertices[6 * j + 5].Whole? && 0 <= vertices[6 * j + 5].n <= 7
  }

  predicate AllTagged(vertices: seq<Number>) {
    |vertices| % 6 == 0 && forall j: nat | j < |vertices| / 6 :: Tagged(vertices, j)
  }

  predicate AllBelow(indices: seq<int>, n: nat) {
    forall k | 0 <= k < |indices| :: 0 <= indices[k] < n
  }

  lemma {:induction false} VerticesKeep(after: seq<Number>, before: seq<Number>, positions: seq<Number>, uvs: seq<Number>, face: int, n: nat)
    requires 3 * n <= |positions| && 2 * n <= |uvs| && 0 <= face <= 7
    requires AllTagged(before) && VerticesAre(after, before, positions, uvs, face, n)
    ensures AllTagged(after) && |after| / 6 == |before| / 6 + n
  {
    var first, block := |before| / 6, after[|before|..];
    assert |before| == 6 * first && |after| == 6 * (first + n);
    forall j: nat | j < first + n ensures Tagged(after, j) {
      if j < first {
        assert Tagged(before, j);
      } else {
        assert SixAre(block, j - first, positions, uvs, face);
        assert block[6 * (j - first) + 5] == after[6 * j + 5];
      }
    }
  }

  lemma {:induction false} CountedBelow(after: seq<int>, before: seq<int>, first: nat, n: nat)
    requires before <= after && AllBelow(before, first) && IndicesAre(after[|before|..], first, n)
    ensures AllBelow(after, first + n)
  {
    forall k | |before| <= k < |after| ensures after[k] == after[|before|..][k - |before|] {
    }
  }

  lemma {:induction false} RebasedBelow(after: seq<int>, before: seq<int>, source: seq<Number>, first: nat, n: nat, whole: Word -> Option<int>)
    requires before <= after && AllBelow(before, first) && |after| == |before| + |source|
    requires forall k | 0 <= k < |source| :: IsVertex(source[k], n, whole) && after[|before| + k] == first + VertexOf(source[k], whole)
    ensures AllBelow(after, first + n)
  {
    forall k | 0 <= k < |after| ensures 0 <= after[k] < first + n {
      if k >= |before| {
        var i := k - |before|;
        assert after[|before| + i] == first + VertexOf(source[i], whole);
      }
    }
  }

  lemma {:induction false} PrimitiveKeeps(d: Document, binary: Bytes, p: Primitive, number: nat, parts: Parts, whole: Word -> Option<int>)
    requires ModelOk(parts.vertices, parts.indices) && AddPrimitive(d, binary, p, number, parts, whole).Some?
    ensures var next := AddPrimitive(d, binary, p, number, parts, whole).value; ModelOk(next.vertices, next.indices)
  {
    hide AddPrimitive, ReadAccessor, FaceOf, Tagged, VerticesAre, IndicesAre, IsVertex, VertexOf;
    PrimitiveIsTaken(d, binary, p, number, parts, whole);
    var next := AddPrimitive(d, binary, p, number, parts, whole).value;
    if p.mode.None? || p.mode == Some(4) {
      var positions, uvs := ReadAccessor(d, binary, p.position.value, "VEC3").value, ReadAccessor(d, binary, p.texCoord.value, "VEC2").value;
      var face, first, n := FaceOf(d, p, number), |parts.vertices| / 6, |positions| / 3;
      assert 0 <= face <= 7;
      VerticesKeep(next.vertices, parts.vertices, positions, uvs, face, n);
      if p.indices.None? {
        CountedBelow(next.indices, parts.indices, first, n);
      } else {
        RebasedBelow(next.indices, parts.indices, ReadAccessor(d, binary, p.indices.value, "SCALAR").value, first, n, whole);
      }
    }
  }

  lemma {:induction false} PrimitivesKeep(d: Document, binary: Bytes, ps: seq<Primitive>, i: nat, parts: Parts, whole: Word -> Option<int>)
    requires i <= |ps| && ModelOk(parts.vertices, parts.indices) && AddPrimitives(d, binary, ps, i, parts, whole).Some?
    ensures var all := AddPrimitives(d, binary, ps, i, parts, whole).value; ModelOk(all.vertices, all.indices)
    decreases |ps| - i
  {
    hide AddPrimitive, ModelOk;
    if i < |ps| {
      PrimitiveKeeps(d, binary, ps[i], i, parts, whole);
      PrimitivesKeep(d, binary, ps, i + 1, AddPrimitive(d, binary, ps[i], i, parts, whole).value, whole);
    }
  }

  /** Whatever bytes are parsed, a model comes out only of a file that begins as a binary glTF 2 file, and
      then it has vertices with their faces and indices, every index is a vertex, and the indices are wide exactly if
      one of them is above 65535. */
  lemma {:induction false} ParsedIsWellFormed(buffer: Bytes, codec: Codec, m: Model)
    requires Parse(buffer, codec) == Some(m)
    ensures |buffer| >= 20 && BytesAt(buffer, 0, HEADER)
    ensures m.vertices != [] && m.indices != [] && ModelOk(m.vertices, m.indices)
    ensures m.wide <==> exists k | 0 <= k < |m.indices| :: m.indices[k] > 65535
  {
    HeaderIs(buffer);
    hide ReadChunks, AddPrimitives, BookMesh, GetU32;
    var chunks := ReadChunks(buffer, 12, Chunks(None, None), codec.decode).value;
    var ps := BookMesh(chunks.document.value.meshes).value.primitives;
    PrimitivesKeep(chunks.document.value, chunks.binary.value, ps, 0, Parts([], []), codec.whole);
  }

  /** The word at an offset is the number. */
  predicate SaysAt(buffer: Bytes, at: nat, n: int) {
    at + 4 <= |buffer| && buffer[at] as int + 256 * buffer[at + 1] as int + 65536 * buffer[at + 2] as int + 16777216 * buffer[at + 3] as int == n
  }

  lemma {:induction false} ContainerBegins(json: Bytes, binary: Bytes)
    requires Container(json, binary).Some?
    ensures var file := Container(json, binary).value;
            && |file| == 28 + |json| + |binary|
            && BytesAt(file, 0, HEADER) && SaysAt(file, 8, |file|)
            && SaysAt(file, 12, |json|) && BytesAt(file, 16, JSON_NAME) && BytesAt(file, 20, json)
            && SaysAt(file, 20 + |json|, |binary|) && BytesAt(file, 24 + |json|, BIN_NAME) && BytesAt(file, 28 + |json|, binary)
  {
    hide Container, Chunk, GetU32, StandsAt;
    FileParts(json, binary);
    var file := Container(json, binary).value;
    ChunkStands(file, 12, JSON_CHUNK, json);
    ChunkStands(file, 20 + |json|, BIN_CHUNK, binary);
    HeaderIs(file);
    NamesAre(file, 16);
    NamesAre(file, 24 + |json|);
    WordReads(file, 8);
    WordReads(file, 12);
    WordReads(file, 20 + |json|);
  }

  /** A written file, byte by byte: it begins as a binary glTF 2 file, says its own length, and then has the
      JSON chunk, filled up with spaces, and the binary chunk, filled up with NULs. */
  lemma {:induction false} WrittenBegins(shapes: seq<Shape>, names: seq<string>, codec: Codec)
    requires Written(shapes, names, codec).Some?
    ensures PutShapes(NoScene, shapes, 0, codec.f32).Some?
    ensures var file, s := Written(shapes, names, codec).value, PutShapes(NoScene, shapes, 0, codec.f32).value;
            var json, binary := Pad4(codec.encode(DocumentOf(s, names)), 32), Pad4(s.binary, 0);
            && |file| == 28 + |json| + |binary| && |json| % 4 == 0 && |binary| % 4 == 0
            && BytesAt(file, 0, HEADER) && SaysAt(file, 8, |file|)
            && SaysAt(file, 12, |json|) && BytesAt(file, 16, JSON_NAME) && BytesAt(file, 20, json)
            && SaysAt(file, 20 + |json|, |binary|) && BytesAt(file, 24 + |json|, BIN_NAME) && BytesAt(file, 28 + |json|, binary)
  {
    hide PutShapes, Container, BytesAt, SaysAt;
    var s := PutShapes(NoScene, shapes, 0, codec.f32).value;
    ContainerBegins(Pad4(codec.encode(DocumentOf(s, names)), 32), Pad4(s.binary, 0));
  }
}
