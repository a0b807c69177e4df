/**
 The binary glTF container: little-endian words, packed components, and the
 part of the JSON document that the book model uses.  Floats are their 32-bit
 words; the JSON text is opaque.
 */
module GlbFormat {
  import opened Wrappers

  const U32_LIMIT := 0x1_0000_0000
  const U16_LIMIT := 0x1_0000
  const GLB_MAGIC := 0x46546C67
  const GLB_VERSION := 2
  const JSON_CHUNK := 0x4E4F534A
  const BIN_CHUNK := 0x004E4942
  const COMPONENT_U8 := 5121
  const COMPONENT_U16 := 5123
  const COMPONENT_U32 := 5125
  const COMPONENT_F32 := 5126

  type Byte = b: int | 0 <= b < 256
  type Word = w: int | 0 <= w < U32_LIMIT
  type Short = h: int | 0 <= h < U16_LIMIT
  type Bytes = seq<Byte>

  function U16(n: Short): (bytes: Bytes)
    ensures |bytes| == 2
  {
    [n % 256, n / 256]
  }

  function U32(n: Word): (bytes: Bytes)
    ensures |bytes| == 4
  {
    [n % 256, n / 256 % 256, n / 65536 % 256, n / 16777216]
  }

  predicate InRange(bytes: Bytes, at: int, size: nat) { 0 <= at && at + size <= |bytes| }

  function GetU16(bytes: Bytes, at: int): Short
    requires InRange(bytes, at, 2)
  {
    var b0: int, b1: int := bytes[at], bytes[at + 1];
    b0 + 256 * b1
  }

  function GetU32(bytes: Bytes, at: int): Word
    requires InRange(bytes, at, 4)
  {
    var b0: int, b1: int, b2: int, b3: int := bytes[at], bytes[at + 1], bytes[at + 2], bytes[at + 3];
    b0 + 256 * b1 + 65536 * b2 + 16777216 * b3
  }

  lemma {:induction false} U32Back(n: Word)
    ensures GetU32(U32(n), 0) == n
  {
    var a, b, c := n / 256, n / 65536, n / 16777216;
    assert b == a / 256 && c == b / 256;
  }

  /** `struct.pack` of a run of words or shorts. */
  function PackU32(words: seq<Word>): (packed: Bytes)
    ensures |packed| == 4 * |words|
  {
    seq(4 * |words|, k requires 0 <= k < 4 * |words| => U32(words[k / 4])[k % 4])
  }

  function PackU16(shorts: seq<Short>): (packed: Bytes)
    ensures |packed| == 2 * |shorts|
  {
    seq(2 * |shorts|, k requires 0 <= k < 2 * |shorts| => U16(shorts[k / 2])[k % 2])
  }

  lemma {:induction false} PackedU32At(words: seq<Word>, k: nat)
    requires k < |words|
    ensures GetU32(PackU32(words), 4 * k) == words[k]
  {
    var packed, at := PackU32(words), 4 * k;
    assert packed[at] == U32(words[k])[0] && packed[at + 1] == U32(words[k])[1];
    assert packed[at + 2] == U32(words[k])[2] && packed[at + 3] == U32(words[k])[3];
    U32Back(words[k]);
  }

  lemma {:induction false} PackedU16At(shorts: seq<Short>, k: nat)
    requires k < |shorts|
    ensures GetU16(PackU16(shorts), 2 * k) == shorts[k]
  {
    var packed, at := PackU16(shorts), 2 * k;
    assert packed[at] == U16(shorts[k])[0] && packed[at + 1] == U16(shorts[k])[1];
  }

  /** The bytes of `inner` stand in `outer` at `at`. */
  predicate StandsAt(outer: Bytes, at: int, inner: Bytes) {
    InRange(outer, at, |inner|) && outer[at..at + |inner|] == inner
  }

  lemma {:induction false} StandsByte(outer: Bytes, at: int, inner: Bytes, k: nat)
    requires StandsAt(outer, at, inner) && k < |inner|
    ensures outer[at + k] == inner[k]
  {
    assert outer[at..at + |inner|][k] == inner[k];
  }

  lemma {:induction false} StandsU32(outer: Bytes, at: int, inner: Bytes, k: nat)
    requires StandsAt(outer, at, inner) && k + 4 <= |inner|
    ensures GetU32(outer, at + k) == GetU32(inner, k)
  {
    StandsByte(outer, at, inner, k);
    StandsByte(outer, at, inner, k + 1);
    StandsByte(outer, at, inner, k + 2);
    StandsByte(outer, at, inner, k + 3);
  }

  lemma {:induction false} StandsU16(outer: Bytes, at: int, inner: Bytes, k: nat)
    requires StandsAt(outer, at, inner) && k + 2 <= |inner|
    ensures GetU16(outer, at + k) == GetU16(inner, k)
  {
    StandsByte(outer, at, inner, k);
    StandsByte(outer, at, inner, k + 1);
  }

  lemma {:induction false} StandsLonger(outer: Bytes, more: Bytes, at: int, inner: Bytes)
    requires StandsAt(outer, at, inner) && outer <= more
    ensures StandsAt(more, at, inner)
  {
  }

  function Pad4(data: Bytes, pad: Byte): (padded: Bytes)
    ensures |padded| % 4 == 0 && data <= padded && |padded| < |data| + 4
    ensures forall k | |data| <= k < |padded| :: padded[k] == pad
  {
    data + seq((4 - |data| % 4) % 4, _ => pad)
  }

  // ---------- the document ----------

  datatype BufferView = BufferView(byteOffset: Option<int>, byteLength: int, byteStride: Option<int>)

  datatype Accessor = Accessor(
    bufferView: Option<int>, byteOffset: Option<int>, componentType: int, count: int, shape: string, sparse: bool)

  datatype Primitive = Primitive(
    position: Option<int>, texCoord: Option<int>, indices: Option<int>, material: Option<int>, mode: Option<int>, bookFace: Option<int>)

  datatype Mesh = Mesh(name: Option<string>, primitives: seq<Primitive>)

  /** An array that is absent reads like an empty one. */
  datatype Document = Document(
    bufferViews: seq<BufferView>, accessors: seq<Accessor>, materials: seq<Option<string>>, meshes: seq<Mesh>)

  /** The opaque encodings: JSON text both ways, rounding to a 32-bit float, and the integer a float
      stands for if it stands for one. */
  datatype Codec = Codec(
    encode: Document -> Bytes, decode: Bytes -> Option<Document>, f32: real -> Word, whole: Word -> Option<int>)

  predicate IsPadding(b: Byte) { b == 0 || b == 32 }

  /** Encoding is undone by decoding, and JSON text never ends in a space or a NUL. */
  ghost predicate FaithfulCodec(c: Codec) {
    forall d :: c.decode(c.encode(d)) == Some(d) && c.encode(d) != [] && !IsPadding(c.encode(d)[|c.encode(d)| - 1])
  }
}
