/** The GPU vertex buffer: the serializer of a captured draw (ps5/gpu/gx_geometry_buffer.cpp) and the
    reader of the vertex shader (ps5/gpu/shaders/gx_vertex_raw.c). */
module GxGeometryBuffer {
  import opened Bytes
  import opened GxVertexLayout
  import opened GxSnapshot

  const MAGIC: nat := 0x3156_5847
  const HEADER: nat := 32
  const META: nat := 704   // header and 21 attribute blocks of 32 bytes
  const MAX: nat := 0xFFFF_FFFF

  // ----- Words and blocks of the buffer -----

  function WordBytes(v: nat): (r: seq<byte>)
    ensures |r| == 4
  {
    [v % 256, v / 256 % 256, v / 256 / 256 % 256, v / 256 / 256 / 256 % 256]
  }

  lemma WordRoundTrip(v: nat)
    requires v < WORD
    ensures Little(WordBytes(v)) == v
  {
    var a := v / 256;
    var b := a / 256;
    assert v == v % 256 + 256 * a && a == a % 256 + 256 * b && b == b % 256 + 256 * (b / 256);
    NumberIsTerms(WordBytes(v), true);
    TermsSpelled(WordBytes(v), true);
  }

  /** The bytes `content` stand at `at`. */
  predicate Holds(out: seq<byte>, at: nat, content: seq<byte>) {
    at + |content| <= |out| && forall i :: at <= i < at + |content| ==> out[i] == content[i - at]
  }

  predicate HoldsWord(out: seq<byte>, at: nat, v: nat) {
    Holds(out, at, WordBytes(v))
  }

  /** Stores one word. */
  function PutWord(out: seq<byte>, at: nat, v: nat): (r: seq<byte>)
    requires at + 4 <= |out|
    ensures |r| == |out| && HoldsWord(r, at, v)
    ensures forall i :: 0 <= i < |out| && (i < at || at + 4 <= i) ==> r[i] == out[i]
  {
    out[..at] + WordBytes(v) + out[at + 4..]
  }

  function Pad(n: nat): (r: nat)
    ensures r % 4 == 0 && n <= r < n + 4
  {
    (n + 3) / 4 * 4
  }

  /** Nothing outside `lo..hi` changed, apart from bytes added at the end. */
  predicate OnlyWithin(before: seq<byte>, after: seq<byte>, lo: nat, hi: nat) {
    |before| <= |after| && forall i :: 0 <= i < |before| && (i < lo || hi <= i) ==> after[i] == before[i]
  }

  lemma HoldsKept(before: seq<byte>, after: seq<byte>, lo: nat, hi: nat, at: nat, content: seq<byte>)
    requires OnlyWithin(before, after, lo, hi) && Holds(before, at, content)
    requires at + |content| <= lo || hi <= at
    ensures Holds(after, at, content)
  {
  }

  // ----- What the buffer of a geometry contains -----

  /** Mode, type, component count, index count, fraction and byte order share one word; the fields do not
      overlap, so their union is their sum. */
  function Flags(d: AttributeLayout): nat {
    d.mode + 4 * d.typ + 32 * d.components + 512 * d.indexCount + 2048 * d.fraction
        + (if d.littleEndian then 65536 else 0)
  }

  function Block(attr: nat): nat {
    HEADER + 32 * attr
  }

  /** Where the bytes of array `attr` start. */
  function DataOffset(g: Geometry, attr: nat): nat
    requires attr <= |g.arrays|
  {
    if attr == 0 then META + Pad(|g.records|)
    else DataOffset(g, attr - 1) + Pad(|g.arrays[attr - 1].bytes|)
  }

  predicate AttributeDone(out: seq<byte>, g: Geometry, attr: nat)
    requires GeometryShaped(g) && attr < ATTRIBUTES
  {
    var d, s, at := g.layout.attributes[attr], g.arrays[attr], Block(attr);
    && HoldsWord(out, at, Flags(d))
    && HoldsWord(out, at + 4, d.offset)
    && HoldsWord(out, at + 8, d.arrayStride)
    && HoldsWord(out, at + 12, s.sourceOffset)
    && HoldsWord(out, at + 16, if s.bytes == [] then 0 else DataOffset(g, attr))
    && HoldsWord(out, at + 20, |s.bytes|)
    && (s.bytes != [] ==> Holds(out, DataOffset(g, attr), s.bytes))
  }

  predicate HeaderDone(out: seq<byte>, g: Geometry) {
    && HoldsWord(out, 0, MAGIC)
    && HoldsWord(out, 4, g.layout.stride)
    && HoldsWord(out, 8, META)
    && HoldsWord(out, 12, g.count)
    && HoldsWord(out, 16, g.currentPnMtx)
    && Holds(out, META, g.records)
  }

  /** The whole contents of the buffer. */
  predicate Serialized(out: seq<byte>, g: Geometry)
    requires GeometryShaped(g)
  {
    && |out| == DataOffset(g, ATTRIBUTES) + 4
    && (forall i :: DataOffset(g, ATTRIBUTES) <= i < |out| ==> out[i] == 0)
    && HeaderDone(out, g)
    && forall attr :: 0 <= attr < ATTRIBUTES ==> AttributeDone(out, g, attr)
  }

  predicate ArrayFits(g: Geometry, attr: nat)
    requires attr < |g.arrays|
  {
    g.arrays[attr].bytes != [] ==> DataOffset(g, attr) + |g.arrays[attr].bytes| + 7 <= MAX
  }

  /** Every appended part ends below the 32-bit limit, with room for its padding and the tail. */
  predicate Fits(g: Geometry)
    requires GeometryShaped(g)
  {
    && META + |g.records| + 7 <= MAX
    && forall attr :: 0 <= attr < ATTRIBUTES ==> ArrayFits(g, attr)
  }

  // ----- The serializer -----

  /** Appends bytes at the next multiple of four. */
  method Append(out: seq<byte>, data: seq<byte>) returns (r: Result<seq<byte>>)
    requires |out| % 4 == 0 && |out| + 7 <= MAX
    ensures r.Ok? <==> |out| + |data| + 7 <= MAX
    ensures r.Ok? ==> |r.value| == |out| + Pad(|data|) && r.value[..|out|] == out && Holds(r.value, |out|, data)
    ensures r.Ok? ==> |r.value| + 7 <= MAX
  {
    if |data| > MAX - |out| - 7 {
      return Err;
    }
    var zeros: seq<byte> := seq(Pad(|data|) - |data|, i => 0);
    var grown := out + data + zeros;
    return Ok(grown);
  }

  /** The four words every attribute has. */
  method WriteFields(out: seq<byte>, at: nat, d: AttributeLayout, sourceOffset: nat) returns (w: seq<byte>)
    requires at + 32 <= |out|
    ensures |w| == |out| && OnlyWithin(out, w, at, at + 16)
    ensures HoldsWord(w, at, Flags(d)) && HoldsWord(w, at + 4, d.offset)
    ensures HoldsWord(w, at + 8, d.arrayStride) && HoldsWord(w, at + 12, sourceOffset)
  {
    hide WordBytes, Flags;
    w := PutWord(out, at, Flags(d));
    w := PutWord(w, at + 4, d.offset);
    w := PutWord(w, at + 8, d.arrayStride);
    w := PutWord(w, at + 12, sourceOffset);
  }

  /** The array of an attribute, behind everything written so far, and the two words that locate it. */
  method WriteArray(out: seq<byte>, at: nat, bytes: seq<byte>) returns (r: Result<seq<byte>>)
    requires at + 32 <= |out| && |out| % 4 == 0 && |out| + 7 <= MAX
    ensures r.Ok? <==> |out| + |bytes| + 7 <= MAX
    ensures r.Ok? ==> |r.value| == |out| + Pad(|bytes|) && |r.value| + 7 <= MAX
    ensures r.Ok? ==> OnlyWithin(out, r.value, at + 16, at + 24)
    ensures r.Ok? ==> HoldsWord(r.value, at + 16, |out|) && HoldsWord(r.value, at + 20, |bytes|)
    ensures r.Ok? ==> Holds(r.value, |out|, bytes)
  {
    hide WordBytes;
    var grown := Append(out, bytes);
    if grown.Err? {
      return Err;
    }
    forall i | 0 <= i < |out|
      ensures grown.value[i] == out[i]
    {
      assert grown.value[..|out|][i] == out[i];
    }
    var w := PutWord(grown.value, at + 16, |out|);
    w := PutWord(w, at + 20, |bytes|);
    return Ok(w);
  }

  /** The body of the attribute loop. */
  method WriteAttribute(out: seq<byte>, g: Geometry, attr: nat) returns (r: Result<seq<byte>>)
    requires GeometryShaped(g) && attr < ATTRIBUTES
    requires |out| == DataOffset(g, attr) && |out| % 4 == 0 && META <= |out| && |out| + 7 <= MAX
    requires HoldsWord(out, Block(attr) + 16, 0) && HoldsWord(out, Block(attr) + 20, 0)
    ensures r.Ok? <==> ArrayFits(g, attr)
    ensures r.Ok? ==> |r.value| == DataOffset(g, attr + 1) && |r.value| + 7 <= MAX
    ensures r.Ok? ==> OnlyWithin(out, r.value, Block(attr), Block(attr) + 32) && AttributeDone(r.value, g, attr)
  {
    hide WordBytes, Flags;
    var d, s, at := g.layout.attributes[attr], g.arrays[attr], Block(attr);
    var w := WriteFields(out, at, d, s.sourceOffset);
    if s.bytes == [] {
      return Ok(w);
    }
    var grown := WriteArray(w, at, s.bytes);
    if grown.Err? {
      return Err;
    }
    return grown;
  }

  /** The header words, the attribute blocks still zero, and the vertex records. */
  method WriteHeader(g: Geometry) returns (r: Result<seq<byte>>)
    requires GeometryShaped(g)
    ensures r.Ok? <==> META + |g.records| + 7 <= MAX
    ensures r.Ok? ==> |r.value| == DataOffset(g, 0) && |r.value| + 7 <= MAX && HeaderDone(r.value, g)
    ensures r.Ok? ==> forall i :: HEADER <= i < META ==> r.value[i] == 0
  {
    hide WordBytes;
    var out: seq<byte> := seq(META, i => 0);
    out := PutWord(out, 0, MAGIC);
    out := PutWord(out, 4, g.layout.stride);
    out := PutWord(out, 12, g.count);
    out := PutWord(out, 16, g.currentPnMtx);
    var appended := Append(out, g.records);
    if appended.Err? {
      return Err;
    }
    forall i | 0 <= i < META
      ensures appended.value[i] == out[i]
    {
      assert appended.value[..META][i] == out[i];
    }
    return Ok(PutWord(appended.value, 8, META));
  }

  /** An attribute stays written when changes miss its block and the data area. */
  lemma AttributeKept(before: seq<byte>, after: seq<byte>, lo: nat, hi: nat, g: Geometry, a: nat)
    requires GeometryShaped(g) && a < ATTRIBUTES && hi <= META
    requires OnlyWithin(before, after, lo, hi) && (Block(a) + 32 <= lo || hi <= Block(a))
    requires AttributeDone(before, g, a)
    ensures AttributeDone(after, g, a)
  {
    hide WordBytes, Flags, OnlyWithin, Holds;
    DataBehind(g, a);
    var d, s, at := g.layout.attributes[a], g.arrays[a], Block(a);
    HoldsKept(before, after, lo, hi, at, WordBytes(Flags(d)));
    HoldsKept(before, after, lo, hi, at + 4, WordBytes(d.offset));
    HoldsKept(before, after, lo, hi, at + 8, WordBytes(d.arrayStride));
    HoldsKept(before, after, lo, hi, at + 12, WordBytes(s.sourceOffset));
    HoldsKept(before, after, lo, hi, at + 16, WordBytes(if s.bytes == [] then 0 else DataOffset(g, a)));
    HoldsKept(before, after, lo, hi, at + 20, WordBytes(|s.bytes|));
    if s.bytes != [] {
      HoldsKept(before, after, lo, hi, DataOffset(g, a), s.bytes);
    }
  }

  /** The header and the first `attr` attributes are written, everything fits, the other blocks are still zero. */
  predicate Written(out: seq<byte>, g: Geometry, attr: nat)
    requires GeometryShaped(g) && attr <= ATTRIBUTES
  {
    && |out| == DataOffset(g, attr) && META <= |out| && |out| + 7 <= MAX
    && HeaderDone(out, g)
    && (forall a :: 0 <= a < attr ==> AttributeDone(out, g, a) && ArrayFits(g, a))
    && (forall i :: Block(attr) <= i < META ==> out[i] == 0)
  }

  /** Writing one attribute disturbs neither the header nor the attributes before it. */
  lemma WrittenStep(before: seq<byte>, after: seq<byte>, g: Geometry, attr: nat)
    requires GeometryShaped(g) && attr < ATTRIBUTES && Written(before, g, attr)
    requires OnlyWithin(before, after, Block(attr), Block(attr) + 32) && AttributeDone(after, g, attr)
    requires ArrayFits(g, attr) && |after| == DataOffset(g, attr + 1) && |after| + 7 <= MAX
    ensures Written(after, g, attr + 1)
  {
    hide WordBytes, Flags, AttributeDone, ArrayFits, DataOffset;
    forall a | 0 <= a < attr + 1
      ensures AttributeDone(after, g, a) && ArrayFits(g, a)
    {
      if a < attr {
        AttributeKept(before, after, Block(attr), Block(attr) + 32, g, a);
      }
    }
  }

  lemma {:induction false} DataBehind(g: Geometry, attr: nat)
    requires attr <= |g.arrays|
    ensures META <= DataOffset(g, attr) && DataOffset(g, attr) % 4 == 0
  {
    if attr > 0 {
      DataBehind(g, attr - 1);
    }
  }

  /** `serialize_gx_geometry`: fails exactly when a part would pass the 32-bit limit. */
  method Serialize(g: Geometry) returns (r: Result<seq<byte>>)
    requires GeometryShaped(g)
    ensures r.Ok? <==> Fits(g)
    ensures r.Ok? ==> Serialized(r.value, g)
  {
    var start := WriteHeader(g);
    if start.Err? {
      return Err;
    }
    var out := start.value;
    assert Written(out, g, 0);
    hide *;
    for attr := 0 to ATTRIBUTES
      invariant Written(out, g, attr)
    {
      ReadyFor(out, g, attr);
      var written := WriteAttribute(out, g, attr);
      if written.Err? {
        NotFitting(g, attr);
        return Err;
      }
      WrittenStep(out, written.value, g, attr);
      out := written.value;
    }
    TailKeeps(out, g);
    return Ok(out + Tail);
  }

  const Tail: seq<byte> := [0, 0, 0, 0]

  lemma ReadyFor(out: seq<byte>, g: Geometry, attr: nat)
    requires GeometryShaped(g) && attr < ATTRIBUTES && Written(out, g, attr)
    ensures |out| == DataOffset(g, attr) && |out| % 4 == 0 && META <= |out| && |out| + 7 <= MAX
    ensures HoldsWord(out, Block(attr) + 16, 0) && HoldsWord(out, Block(attr) + 20, 0)
  {
    DataBehind(g, attr);
    ZeroWord(out, Block(attr) + 16);
    ZeroWord(out, Block(attr) + 20);
  }

  lemma NotFitting(g: Geometry, attr: nat)
    requires GeometryShaped(g) && attr < ATTRIBUTES && !ArrayFits(g, attr)
    ensures !Fits(g)
  {
  }

  lemma TailKeeps(out: seq<byte>, g: Geometry)
    requires GeometryShaped(g) && Written(out, g, ATTRIBUTES)
    ensures Serialized(out + Tail, g) && Fits(g)
  {
    var longer := out + Tail;
    assert OnlyWithin(out, longer, 0, 0);
    assert Fits(g) by {
      DataGrows(g, ATTRIBUTES);
    }
    hide WordBytes, Flags, AttributeDone;
    forall a | 0 <= a < ATTRIBUTES
      ensures AttributeDone(longer, g, a)
    {
      AttributeKept(out, longer, 0, 0, g, a);
    }
  }

  lemma {:induction false} DataGrows(g: Geometry, attr: nat)
    requires attr <= |g.arrays|
    ensures META + |g.records| <= DataOffset(g, attr)
  {
    if attr > 0 {
      DataGrows(g, attr - 1);
    }
  }

  lemma ZeroWord(out: seq<byte>, at: nat)
    requires at + 4 <= |out| && forall i :: at <= i < at + 4 ==> out[i] == 0
    ensures HoldsWord(out, at, 0)
  {
  }

  // ----- The vertex shader's reader -----

  /** One aligned 32-bit load; fails when it is not wholly inside the buffer. */
  function LoadWord(data: seq<byte>, at: nat): Result<nat> {
    var s :- Slice(data, at, 4);
    Ok(Little(s))
  }

  /** The value without its `k` low bytes. */
  function Right(value: nat, k: nat): nat {
    if k == 0 then value else if k == 1 then value / 256 else if k == 2 then value / 65536 else value / 16777216
  }

  /** The value with `k` zero bytes below it. */
  function Left(value: nat, k: nat): nat {
    if k == 1 then value * 256 else if k == 2 then value * 65536 else value * 16777216
  }

  /** The word at an unaligned address, from one or two aligned loads. The second word is shifted above the bits
      of the first, so the two parts do not overlap and their union is their sum; bits above 32 are dropped. */
  function Unaligned(data: seq<byte>, at: nat, width: nat): Result<nat> {
    var k := at % 4;
    var base := at - k;
    var word :- LoadWord(data, base);
    if k + width > 4 then
      var next :- LoadWord(data, base + 4);
      Ok((Right(word, k) + Left(next, 4 - k)) % WORD)
    else Ok(Right(word, k))
  }

  /** Masks a value to its width and swaps its bytes unless it is little-endian. */
  function Masked(value: nat, width: nat, little: bool): nat {
    if width == 1 then value % 256
    else if width == 2 then
      var v := value % 65536;
      if little then v else v % 256 * 256 + v / 256
    else if width == 3 then
      var v := value % 16777216;
      if little then v else v % 256 * 65536 + v / 256 % 256 * 256 + v / 65536
    else if little then value
    else value % 256 * 16777216 + value / 256 % 256 * 65536 + value / 65536 % 256 * 256 + value / 16777216
  }

  /** `read_uint`. */
  function ReadUint(data: seq<byte>, at: nat, width: nat, little: bool): Result<nat> {
    var value :- Unaligned(data, at, width);
    Ok(Masked(value, width, little))
  }

  /** The byte `i` places behind `at`. */
  function ByteAt(data: seq<byte>, i: nat): nat
    requires i < |data|
  {
    data[i]
  }

  lemma WordAt(data: seq<byte>, at: nat)
    requires at + 4 <= |data|
    ensures LoadWord(data, at)
         == Ok(ByteAt(data, at) + 256 * ByteAt(data, at + 1) + 65536 * ByteAt(data, at + 2)
               + 16777216 * ByteAt(data, at + 3))
  {
    var s := data[at..at + 4];
    NumberIsTerms(s, true);
    TermsSpelled(s, true);
  }

  /** The number of four bytes, least significant first. */
  function Four(b0: nat, b1: nat, b2: nat, b3: nat): nat {
    b0 + 256 * b1 + 65536 * b2 + 16777216 * b3
  }

  /** Dropping low bytes of a word. */
  lemma DropBytes(k: nat, b0: byte, b1: byte, b2: byte, b3: byte)
    requires k < 4
    ensures Right(Four(b0, b1, b2, b3), k)
         == if k == 0 then Four(b0, b1, b2, b3) else if k == 1 then Four(b1, b2, b3, 0)
             else if k == 2 then Four(b2, b3, 0, 0) else Four(b3, 0, 0, 0)
  {
  }

  /** Joining two words one byte in, two bytes in and three bytes in. */
  lemma JoinAtOne(b0: byte, b1: byte, b2: byte, b3: byte, c0: byte, c1: byte, c2: byte, c3: byte)
    ensures (Right(Four(b0, b1, b2, b3), 1) + Left(Four(c0, c1, c2, c3), 3)) % WORD == Four(b1, b2, b3, c0)
  {
    DropBytes(1, b0, b1, b2, b3);
    assert Right(Four(b0, b1, b2, b3), 1) + Left(Four(c0, c1, c2, c3), 3)
        == Four(b1, b2, b3, c0) + WORD * (c1 + 256 * c2 + 65536 * c3);
    WrapWord(Four(b1, b2, b3, c0), c1 + 256 * c2 + 65536 * c3);
  }

  lemma JoinAtTwo(b0: byte, b1: byte, b2: byte, b3: byte, c0: byte, c1: byte, c2: byte, c3: byte)
    ensures (Right(Four(b0, b1, b2, b3), 2) + Left(Four(c0, c1, c2, c3), 2)) % WORD == Four(b2, b3, c0, c1)
  {
    DropBytes(2, b0, b1, b2, b3);
    assert Right(Four(b0, b1, b2, b3), 2) + Left(Four(c0, c1, c2, c3), 2)
        == Four(b2, b3, c0, c1) + WORD * (c2 + 256 * c3);
    WrapWord(Four(b2, b3, c0, c1), c2 + 256 * c3);
  }

  lemma JoinAtThree(b0: byte, b1: byte, b2: byte, b3: byte, c0: byte, c1: byte, c2: byte, c3: byte)
    ensures (Right(Four(b0, b1, b2, b3), 3) + Left(Four(c0, c1, c2, c3), 1)) % WORD == Four(b3, c0, c1, c2)
  {
    DropBytes(3, b0, b1, b2, b3);
    assert Right(Four(b0, b1, b2, b3), 3) + Left(Four(c0, c1, c2, c3), 1) == Four(b3, c0, c1, c2) + WORD * c3;
    WrapWord(Four(b3, c0, c1, c2), c3);
  }

  lemma WrapWord(low: nat, high: nat)
    requires low < WORD
    ensures (low + WORD * high) % WORD == low
  {
  }

  lemma FourAt(data: seq<byte>, at: nat)
    requires at + 4 <= |data|
    ensures LoadWord(data, at) == Ok(Four(data[at], data[at + 1], data[at + 2], data[at + 3]))
  {
    WordAt(data, at);
  }

  /** An unaligned read inside one word. */
  lemma OneWord(data: seq<byte>, at: nat, width: nat, base: nat) returns (d1: byte, d2: byte, d3: byte)
    requires 1 <= width && base == at - at % 4 && at % 4 + width <= 4 && base + 4 <= |data|
    ensures Unaligned(data, at, width) == Ok(Four(data[at], d1, d2, d3))
    ensures (width > 1 ==> d1 == data[at + 1]) && (width > 2 ==> d2 == data[at + 2])
    ensures (width > 3 ==> d3 == data[at + 3])
  {
    var k := at % 4;
    FourAt(data, base);
    DropBytes(k, data[base], data[base + 1], data[base + 2], data[base + 3]);
    hide LoadWord, Four;
    d1 := if k == 3 then 0 else data[at + 1];
    d2 := if k >= 2 then 0 else data[at + 2];
    d3 := if k >= 1 then 0 else data[at + 3];
  }

  lemma UnalignedOfTwo(data: seq<byte>, at: nat, width: nat, k: nat, base: nat, next: nat, word: nat, other: nat)
    requires k == at % 4 && base == at - k && next == base + 4 && k + width > 4
    requires LoadWord(data, base) == Ok(word) && LoadWord(data, next) == Ok(other)
    ensures Unaligned(data, at, width) == Ok((Right(word, k) + Left(other, 4 - k)) % WORD)
  {
    hide LoadWord, Right, Left;
  }

  /** An unaligned read across two words. */
  lemma TwoWords(data: seq<byte>, at: nat, width: nat, base: nat, next: nat) returns (d1: byte, d2: byte, d3: byte)
    requires width <= 4 && base == at - at % 4 && next == base + 4 && at % 4 + width > 4 && next + 4 <= |data|
    ensures Unaligned(data, at, width) == Ok(Four(data[at], d1, d2, d3))
    ensures d1 == data[at + 1] && d2 == data[at + 2] && d3 == data[at + 3]
  {
    var k := at % 4;
    FourAt(data, base);
    FourAt(data, next);
    hide *;
    var b0, b1, b2, b3 := data[base], data[base + 1], data[base + 2], data[base + 3];
    var c0, c1, c2, c3 := data[next], data[next + 1], data[next + 2], data[next + 3];
    UnalignedOfTwo(data, at, width, k, base, next, Four(b0, b1, b2, b3), Four(c0, c1, c2, c3));
    if k == 1 {
      JoinAtOne(b0, b1, b2, b3, c0, c1, c2, c3);
      d1, d2, d3 := b2, b3, c0;
      assert at == base + 1;
    } else if k == 2 {
      JoinAtTwo(b0, b1, b2, b3, c0, c1, c2, c3);
      d1, d2, d3 := b3, c0, c1;
      assert at == base + 2;
    } else {
      JoinAtThree(b0, b1, b2, b3, c0, c1, c2, c3);
      d1, d2, d3 := c0, c1, c2;
      assert at == base + 3;
    }
  }

  /** Splitting a word behind its first byte, behind its second and behind its third. */
  lemma SplitWord(d0: byte, d1: byte, d2: byte, d3: byte)
    ensures var v := Four(d0, d1, d2, d3);
            && v % 256 == d0 && v / 256 == d1 + 256 * d2 + 65536 * d3
            && v % 65536 == d0 + 256 * d1 && v / 65536 == d2 + 256 * d3
            && v % 16777216 == d0 + 256 * d1 + 65536 * d2 && v / 16777216 == d3
  {
    SplitAt(d0, d1 + 256 * d2 + 65536 * d3, 256);
    SplitAt(d0 + 256 * d1, d2 + 256 * d3, 65536);
    SplitAt(d0 + 256 * d1 + 65536 * d2, d3, 16777216);
  }

  lemma SplitAt(low: nat, high: nat, place: nat)
    requires place in {256, 65536, 16777216} && low < place
    ensures (low + place * high) % place == low && (low + place * high) / place == high
  {
  }

  /** Reversing the bytes of a value of `width` bytes. */
  lemma SwapBytes(d0: byte, d1: byte, d2: byte, d3: byte)
    ensures var v := d0 + 256 * d1; v % 256 == d0 && v / 256 == d1
    ensures var v := d0 + 256 * d1 + 65536 * d2; v % 256 == d0 && v / 256 % 256 == d1 && v / 65536 == d2
    ensures var v := Four(d0, d1, d2, d3);
            v % 256 == d0 && v / 256 % 256 == d1 && v / 65536 % 256 == d2 && v / 16777216 == d3
  {
    SplitWord(d0, d1, d2, d3);
    SplitWord(d0, d1, d2, 0);
    SplitWord(d0, d1, 0, 0);
    SplitAt(d1, d2 + 256 * d3, 256);
    SplitAt(d1, d2, 256);
    SplitAt(d2, d3, 256);
  }

  /** Masking and swapping gives the number of the first bytes. */
  lemma MaskedIsNumber(s: seq<byte>, d0: byte, d1: byte, d2: byte, d3: byte, little: bool)
    requires 1 <= |s| <= 4
    requires At(s, 0) == d0 && (|s| > 1 ==> At(s, 1) == d1) && (|s| > 2 ==> At(s, 2) == d2)
    requires (|s| > 3 ==> At(s, 3) == d3)
    ensures Masked(Four(d0, d1, d2, d3), |s|, little) == Number(s, little)
  {
    NumberIsTerms(s, little);
    TermsSpelled(s, little);
    SplitWord(d0, d1, d2, d3);
    SwapBytes(d0, d1, d2, d3);
    hide Number, Terms, At;
  }

  /** `read_uint` gives the number stored at any address, in either byte order, without reading outside. */
  lemma ReadUintReads(data: seq<byte>, at: nat, width: nat, little: bool)
    requires 1 <= width <= 4 && at + width + 4 <= |data|
    ensures ReadUint(data, at, width, little) == Ok(Number(data[at..at + width], little))
  {
    var base := at - at % 4;
    var d1, d2, d3: byte;
    if at % 4 + width <= 4 {
      d1, d2, d3 := OneWord(data, at, width, base);
    } else {
      d1, d2, d3 := TwoWords(data, at, width, base, base + 4);
    }
    var s := data[at..at + width];
    assert At(s, 0) == data[at] && (width > 1 ==> At(s, 1) == d1) && (width > 2 ==> At(s, 2) == d2)
           && (width > 3 ==> At(s, 3) == d3);
    MaskedIsNumber(s, data[at], d1, d2, d3, little);
    hide Unaligned, Number, Masked;
  }

  // ----- Fetching an attribute -----

  /** The fields packed in the flags word. */
  function ModeOf(flags: nat): nat { flags % 4 }
  function TypeOf(flags: nat): nat { flags / 4 % 8 }
  function CountOf(flags: nat): nat { flags / 32 % 16 }
  function IndexCountOf(flags: nat): nat { flags / 512 % 4 }
  function FractionOf(flags: nat): nat { flags / 2048 % 32 }
  function LittleEndianOf(flags: nat): bool { flags / 65536 % 2 == 1 }

  /** Unpacking the flags gives back what was packed. */
  lemma FlagsRoundTrip(attr: nat, d: AttributeLayout)
    requires AttributeOk(attr, d)
    ensures var f := Flags(d);
            && f < WORD
            && ModeOf(f) == d.mode && TypeOf(f) == d.typ && CountOf(f) == d.components
               && IndexCountOf(f) == d.indexCount
            && FractionOf(f) == d.fraction && LittleEndianOf(f) == d.littleEndian
  {
    var e := if d.littleEndian then 1 else 0;
    var f := Flags(d);
    assert f / 4 == d.typ + 8 * (d.components + 16 * (d.indexCount + 4 * (d.fraction + 32 * e)));
    assert f / 32 == d.components + 16 * (d.indexCount + 4 * (d.fraction + 32 * e));
    assert f / 512 == d.indexCount + 4 * (d.fraction + 32 * e);
    assert f / 2048 == d.fraction + 32 * e;
    assert f / 65536 == e;
  }

  /** Several numbers of the same width in a row. */
  function ReadMany(data: seq<byte>, at: nat, n: nat, width: nat, little: bool): Result<seq<nat>> {
    if n == 0 then Ok([])
    else
      var front :- ReadMany(data, at, n - 1, width, little);
      var last :- ReadUint(data, (at + Span(width, n - 1)) % WORD, width, little);
      Ok(front + [last])
  }

  function TypeWidth(typ: nat): nat {
    if typ < 2 then 1 else if typ < 4 then 2 else 4
  }

  /** The values read at an address: colours by format, numbers up to three components. */
  function FetchRaw(data: seq<byte>, at: nat, isColor: bool, typ: nat, count: nat, fraction: nat,
                    little: bool): Result<Raw> {
    if isColor then
      if typ == 1 || typ == 2 || typ == 5 then
        var words :- ReadMany(data, at, if typ == 5 then 4 else 3, 1, true);
        Ok(Colour(typ, words))
      else
        var word :- ReadUint(data, at, if typ == 4 then 3 else 2, little);
        Ok(Colour(typ, [word]))
    else
      var components :- ReadMany(data, at, if count > 2 then 3 else if count > 1 then 2 else 1, TypeWidth(typ), little);
      Ok(Numeric(typ, fraction, components))
  }

  /** Address of an attribute of a vertex record, in 32-bit arithmetic. */
  function VertexAddress(records: nat, vertex: nat, stride: nat, offset: nat): nat {
    (records + vertex * stride + offset) % WORD
  }

  /** Address behind an array element, in 32-bit arithmetic. */
  function ElementAddress(data: nat, index: nat, arrayStride: nat, sourceOffset: nat, extra: nat): nat {
    (data + index * arrayStride - sourceOffset + extra) % WORD
  }

  /** The group number used: only nine-component normals have more than one. */
  function ShaderGroup(attr: nat, flags: nat, group: nat): nat {
    if attr != 10 || CountOf(flags) != 9 then 0 else group
  }

  /** The direct case: the value follows in the vertex record. */
  function FetchHere(data: seq<byte>, attr: nat, flags: nat, at: nat, g: nat): Result<Raw> {
    FetchRaw(data, (at + Span(TypeWidth(TypeOf(flags)), 3 * g)) % WORD, attr == 11 || attr == 12,
             TypeOf(flags), CountOf(flags), FractionOf(flags), false)
  }

  /** The indexed case: an index follows in the vertex record, the value is in the array. */
  function FetchThere(data: seq<byte>, attr: nat, flags: nat, at: nat, g: nat, arrayStride: nat,
                      sourceOffset: nat): Result<Raw> {
    var indexWidth := if ModeOf(flags) == 3 then 2 else 1;
    var separate := attr == 10 && IndexCountOf(flags) == 3;
    var index :- ReadUint(data, (at + (if separate then Span(indexWidth, g) else 0)) % WORD, indexWidth, false);
    var base :- LoadWord(data, Block(attr) + 16);
    FetchRaw(data, ElementAddress(base, index, arrayStride, sourceOffset, if separate then 0
                                  else Span(TypeWidth(TypeOf(flags)), 3 * g)),
             attr == 11 || attr == 12, TypeOf(flags), CountOf(flags), FractionOf(flags), LittleEndianOf(flags))
  }

  /** `attribute_group`: the attribute group of a vertex, fetched from the buffer alone. */
  function AttributeGroup(data: seq<byte>, vertex: nat, attr: nat, group: nat): Result<Raw> {
    var stride :- LoadWord(data, 4);
    var records :- LoadWord(data, 8);
    var flags :- LoadWord(data, Block(attr));
    var offset :- LoadWord(data, Block(attr) + 4);
    var arrayStride :- LoadWord(data, Block(attr) + 8);
    var sourceOffset :- LoadWord(data, Block(attr) + 12);
    var at := VertexAddress(records, vertex, stride, offset);
    if ModeOf(flags) == 0 then Ok(Absent)
    else if ModeOf(flags) == 1 then FetchHere(data, attr, flags, at, ShaderGroup(attr, flags, group))
    else FetchThere(data, attr, flags, at, ShaderGroup(attr, flags, group), arrayStride, sourceOffset)
  }

  /** The shader's read of a matrix index, when the vertices carry one. */
  function MatrixIndex(data: seq<byte>, vertex: nat, attr: nat): Result<Raw> {
    var stride :- LoadWord(data, 4);
    var records :- LoadWord(data, 8);
    var flags :- LoadWord(data, Block(attr));
    var offset :- LoadWord(data, Block(attr) + 4);
    if ModeOf(flags) == 0 then Ok(Absent)
    else
      var value :- ReadUint(data, VertexAddress(records, vertex, stride, offset), 1, false);
      Ok(Matrix(value))
  }

  // ----- Serialize, then fetch -----

  lemma HeldWord(out: seq<byte>, at: nat, v: nat)
    requires HoldsWord(out, at, v) && v < WORD
    ensures LoadWord(out, at) == Ok(v)
  {
    WordRoundTrip(v);
    assert out[at..at + 4] == WordBytes(v);
  }

  /** A window of a block is a window of the buffer. */
  lemma WindowInBuffer(out: seq<byte>, base: nat, content: seq<byte>, from: int, n: nat, w: seq<byte>, at: int)
    requires Holds(out, base, content) && Slice(content, from, n) == Ok(w) && at == base + from
    ensures Slice(out, at, n) == Ok(w) && at >= base && at + n <= base + |content|
  {
    assert out[at..at + n] == w;
  }

  lemma {:induction false} ReadManyReads(data: seq<byte>, at: nat, n: nat, width: nat, little: bool, window: seq<byte>)
    requires 1 <= width <= 4 && Slice(data, at, Span(width, n)) == Ok(window)
    requires at + Span(width, n) + 4 <= |data| < WORD
    ensures ReadMany(data, at, n, width, little) == Ok(Numbers(window, n, width, little))
    decreases n
  {
    hide ReadUint, Number;
    if n > 0 {
      var m := Span(width, n - 1);
      SubSlice(data, at, Span(width, n), 0, m);
      ReadManyReads(data, at, n - 1, width, little, window[..m]);
      ReadUintReads(data, at + m, width, little);
      assert data[at + m..at + m + width] == window[m..];
    }
  }

  lemma {:induction false} BytesAreNumbers(window: seq<byte>, n: nat)
    requires |window| == n
    ensures Span(1, n) == n
    ensures Numbers(window, n, 1, true) == seq(n, i requires 0 <= i < n => At(window, i))
    decreases n
  {
    SpanIsProduct(1, n);
    if n > 0 {
      SpanIsProduct(1, n - 1);
      BytesAreNumbers(window[..n - 1], n - 1);
      var last := window[n - 1..];
      NumberIsTerms(last, true);
      TermsSpelled(last, true);
      assert Number(last, true) == At(window, n - 1);
      assert Numbers(window, n, 1, true) == Numbers(window[..n - 1], n - 1, 1, true) + [At(window, n - 1)];
    }
  }

  /** The shader reads the same raw value from a window as the decoder. */
  lemma FetchReads(data: seq<byte>, at: nat, attr: nat, d: AttributeLayout, little: bool, window: seq<byte>)
    requires POS <= attr < ATTRIBUTES && AttributeOk(attr, d) && d.mode != NONE
    requires |window| == ReadBytes(attr, d) && Slice(data, at, ReadBytes(attr, d)) == Ok(window)
    requires at + ReadBytes(attr, d) + 4 <= |data| < WORD
    ensures FetchRaw(data, at, IsColor(attr), d.typ, d.components, d.fraction, little)
        == Ok(RawFrom(attr, d, window, little))
  {
    if IsColor(attr) {
      if ByteColor(d.typ) {
        var n := if d.typ == RGBA8 then 4 else 3;
        BytesAreNumbers(window, n);
        ReadManyReads(data, at, n, 1, true, window);
      } else {
        ReadUintReads(data, at, d.componentBytes, little);
      }
    } else {
      ReadManyReads(data, at, GroupComponents(attr, d), d.componentBytes, little, window);
    }
  }

  /** What is known of a geometry and its buffer when a vertex is fetched. */
  predicate Uploaded(out: seq<byte>, g: Geometry, v: nat, attr: nat) {
    && GeometryShaped(g) && LayoutOk(g.layout) && |g.records| == Span(g.layout.stride, g.count)
    && Serialized(out, g) && Fits(g)
    && v < g.count < WORD && attr < ATTRIBUTES && g.arrays[attr].sourceOffset < WORD
  }

  /** The buffer is smaller than 4 GiB, and records and arrays leave room for the four bytes of its tail. */
  lemma Room(out: seq<byte>, g: Geometry, attr: nat)
    requires GeometryShaped(g) && Serialized(out, g) && Fits(g) && attr < ATTRIBUTES
    ensures |out| < WORD
    ensures META + |g.records| + 4 <= |out|
    ensures g.arrays[attr].bytes != [] ==>
        META <= DataOffset(g, attr) && DataOffset(g, attr) + |g.arrays[attr].bytes| + 4 <= |out|
  {
    hide AttributeDone, HeaderDone;
    RoomBelow(g, attr + 1, ATTRIBUTES);
    RoomBelow(g, 0, ATTRIBUTES);
    DataBehind(g, attr);
    SmallBuffer(g, ATTRIBUTES);
  }

  lemma {:induction false} RoomBelow(g: Geometry, a: nat, b: nat)
    requires a <= b <= |g.arrays|
    ensures DataOffset(g, a) <= DataOffset(g, b)
  {
    if a < b {
      RoomBelow(g, a, b - 1);
    }
  }

  lemma {:induction false} SmallBuffer(g: Geometry, n: nat)
    requires GeometryShaped(g) && Fits(g) && n <= ATTRIBUTES
    ensures DataOffset(g, n) + 4 <= MAX
  {
    DataBehind(g, n);
    if n > 0 {
      SmallBuffer(g, n - 1);
      assert ArrayFits(g, n - 1);
    }
  }

  /** The header words of one attribute, as the shader loads them. */
  predicate HasHeader(out: seq<byte>, attr: nat, stride: nat, d: AttributeLayout, sourceOffset: nat) {
    && LoadWord(out, 4) == Ok(stride) && LoadWord(out, 8) == Ok(META)
    && LoadWord(out, Block(attr)) == Ok(Flags(d))
    && LoadWord(out, Block(attr) + 4) == Ok(d.offset)
    && LoadWord(out, Block(attr) + 8) == Ok(d.arrayStride)
    && LoadWord(out, Block(attr) + 12) == Ok(sourceOffset)
  }

  /** Every value written in the header fits its word. */
  lemma ValuesFit(out: seq<byte>, g: Geometry, v: nat, attr: nat)
    requires Uploaded(out, g, v, attr)
    ensures var d := g.layout.attributes[attr];
            && AttributeInRecord(attr, d, g.layout.stride)
            && Flags(d) < WORD && d.offset < WORD && g.layout.stride < WORD && d.arrayStride < WORD
    ensures g.arrays[attr].bytes != [] ==> DataOffset(g, attr) < WORD
  {
    var d := g.layout.attributes[attr];
    assert AttributeInRecord(attr, d, g.layout.stride);
    FlagsRoundTrip(attr, d);
    Room(out, g, attr);
    hide Flags, Serialized, Fits;
  }

  /** Written words that fit are loaded back. */
  lemma HeldHeader(out: seq<byte>, attr: nat, stride: nat, d: AttributeLayout, sourceOffset: nat, at: nat)
    requires at == Block(attr) && Flags(d) < WORD && d.offset < WORD && stride < WORD && d.arrayStride < WORD
    requires sourceOffset < WORD
    requires HoldsWord(out, 4, stride) && HoldsWord(out, 8, META)
    requires HoldsWord(out, at, Flags(d)) && HoldsWord(out, at + 4, d.offset)
    requires HoldsWord(out, at + 8, d.arrayStride) && HoldsWord(out, at + 12, sourceOffset)
    ensures HasHeader(out, attr, stride, d, sourceOffset)
  {
    hide LoadWord, HoldsWord, Holds, Flags, Block;
    HeldWord(out, 4, stride);
    HeldWord(out, 8, META);
    HeldWord(out, at, Flags(d));
    HeldWord(out, at + 4, d.offset);
    HeldWord(out, at + 8, d.arrayStride);
    HeldWord(out, at + 12, sourceOffset);
  }

  lemma PartsDone(out: seq<byte>, g: Geometry, attr: nat)
    requires GeometryShaped(g) && Serialized(out, g) && attr < ATTRIBUTES
    ensures HeaderDone(out, g) && AttributeDone(out, g, attr)
  {
  }

  lemma HeaderWords(out: seq<byte>, g: Geometry, v: nat, attr: nat)
    requires Uploaded(out, g, v, attr)
    ensures HasHeader(out, attr, g.layout.stride, g.layout.attributes[attr], g.arrays[attr].sourceOffset)
    ensures g.arrays[attr].bytes != [] ==> LoadWord(out, Block(attr) + 16) == Ok(DataOffset(g, attr))
  {
    hide LoadWord, HoldsWord, Holds, Flags, DataOffset, Serialized, Fits, LayoutOk, AttributeInRecord, HasHeader;
    var d, s, stride := g.layout.attributes[attr], g.arrays[attr], g.layout.stride;
    ValuesFit(out, g, v, attr);
    PartsDone(out, g, attr);
    HeldHeader(out, attr, stride, d, s.sourceOffset, Block(attr));
    if s.bytes != [] {
      HeldWord(out, Block(attr) + 16, DataOffset(g, attr));
    }
  }

  lemma AddressIs(vertex: nat, stride: nat, offset: nat, at: nat)
    requires at == META + Span(stride, vertex) + offset < WORD
    ensures VertexAddress(META, vertex, stride, offset) == at
  {
    SpanIsProduct(stride, vertex);
  }

  lemma ElementIs(data: nat, index: nat, arrayStride: nat, sourceOffset: nat, extra: nat, at: nat)
    requires at == data + Span(arrayStride, index) - sourceOffset + extra < WORD
    ensures ElementAddress(data, index, arrayStride, sourceOffset, extra) == at
  {
    SpanIsProduct(arrayStride, index);
  }

  lemma GroupsAgree(attr: nat, d: AttributeLayout, group: nat)
    requires POS <= attr < ATTRIBUTES && AttributeOk(attr, d) && d.mode != NONE
    ensures ShaderGroup(attr, Flags(d), group) == GroupOf(attr, d, group)
    ensures Span(TypeWidth(d.typ), 3 * GroupOf(attr, d, group)) == TripleOffset(d, GroupOf(attr, d, group))
    ensures d.indexCount == 3 <==> attr == NRM && d.indexCount == 3
  {
    FlagsRoundTrip(attr, d);
    hide Flags, CountOf;
  }

  /** The header words select one of three cases. */
  lemma GroupCases(out: seq<byte>, v: nat, attr: nat, group: nat, stride: nat, offset: nat, arrayStride: nat,
                   sourceOffset: nat, flags: nat)
    requires LoadWord(out, 4) == Ok(stride) && LoadWord(out, 8) == Ok(META)
    requires LoadWord(out, Block(attr)) == Ok(flags) && LoadWord(out, Block(attr) + 4) == Ok(offset)
    requires LoadWord(out, Block(attr) + 8) == Ok(arrayStride) && LoadWord(out, Block(attr) + 12) == Ok(sourceOffset)
    ensures AttributeGroup(out, v, attr, group)
         == var at, g := VertexAddress(META, v, stride, offset), ShaderGroup(attr, flags, group);
            if ModeOf(flags) == 0 then Ok(Absent)
            else if ModeOf(flags) == 1 then FetchHere(out, attr, flags, at, g)
            else FetchThere(out, attr, flags, at, g, arrayStride, sourceOffset)
  {
    hide LoadWord, VertexAddress, ShaderGroup, ModeOf, FetchHere, FetchThere;
  }

  /** The direct case, once its address is known. */
  lemma HereAt(data: seq<byte>, attr: nat, flags: nat, start: nat, g: nat, at: nat)
    requires at == start + Span(TypeWidth(TypeOf(flags)), 3 * g) < WORD
    ensures FetchHere(data, attr, flags, start, g)
         == FetchRaw(data, at, attr == 11 || attr == 12, TypeOf(flags), CountOf(flags), FractionOf(flags), false)
  {
    hide FetchRaw, TypeOf, CountOf, FractionOf, Span, TypeWidth;
  }

  /** The direct case, in the decoder's terms. */
  lemma HereIs(out: seq<byte>, attr: nat, d: AttributeLayout, start: nat, g: nat, at: nat)
    requires POS <= attr < ATTRIBUTES && AttributeOk(attr, d) && (IsColor(attr) ==> g == 0)
    requires d.mode != NONE && at == start + TripleOffset(d, g) < WORD
    ensures FetchHere(out, attr, Flags(d), start, g)
        == FetchRaw(out, at, IsColor(attr), d.typ, d.components, d.fraction, false)
  {
    FlagsRoundTrip(attr, d);
    TripleIs(attr, d, g);
    hide FetchRaw, FetchHere, TypeOf, CountOf, FractionOf, Flags, Span, TripleOffset, AttributeOk, TypeWidth, ModeOf,
        IndexCountOf, LittleEndianOf;
    HereAt(out, attr, Flags(d), start, g, at);
  }

  /** The indexed case, once its index and its address are known. */
  lemma ThereAt(data: seq<byte>, attr: nat, flags: nat, start: nat, g: nat, arrayStride: nat, sourceOffset: nat,
                width: nat, from: nat, index: nat, base: nat, extra: nat)
    requires width == (if ModeOf(flags) == 3 then 2 else 1)
    requires from == start + (if attr == 10 && IndexCountOf(flags) == 3 then Span(width, g) else 0) < WORD
    requires ReadUint(data, from, width, false) == Ok(index) && LoadWord(data, Block(attr) + 16) == Ok(base)
    requires extra == (if attr == 10 && IndexCountOf(flags) == 3 then 0 else Span(TypeWidth(TypeOf(flags)), 3 * g))
    ensures FetchThere(data, attr, flags, start, g, arrayStride, sourceOffset)
         == FetchRaw(data, ElementAddress(base, index, arrayStride, sourceOffset, extra),
                     attr == 11 || attr == 12, TypeOf(flags), CountOf(flags), FractionOf(flags), LittleEndianOf(flags))
  {
    hide FetchRaw, TypeOf, CountOf, FractionOf, IndexCountOf, LittleEndianOf, ModeOf, Span, TypeWidth, ReadUint,
        LoadWord, ElementAddress;
  }

  /** The indexed case, in the decoder's terms. */
  lemma ThereIs(out: seq<byte>, attr: nat, d: AttributeLayout, start: nat, g: nat, sourceOffset: nat, from: nat,
                index: nat, data: nat, at: nat)
    requires POS <= attr < ATTRIBUTES && AttributeOk(attr, d) && (IsColor(attr) ==> g == 0)
    requires IsIndexed(d)
    requires from == start + GroupIndexOffset(d, g) < WORD && ReadUint(out, from, IndexWidth(d), false) == Ok(index)
    requires LoadWord(out, Block(attr) + 16) == Ok(data)
    requires at == data + Span(d.arrayStride, index) - sourceOffset + GroupByteOffset(d, g) < WORD
    ensures FetchThere(out, attr, Flags(d), start, g, d.arrayStride, sourceOffset)
         == FetchRaw(out, at, IsColor(attr), d.typ, d.components, d.fraction, d.littleEndian)
  {
    FlagsRoundTrip(attr, d);
    ElementIs(data, index, d.arrayStride, sourceOffset, GroupByteOffset(d, g), at);
    TripleIs(attr, d, g);
    assert d.indexCount == 3 ==> attr == NRM;
    hide FetchRaw, FetchThere, TypeOf, CountOf, FractionOf, IndexCountOf, LittleEndianOf, ModeOf, Flags, Span,
        TripleOffset, AttributeOk, TypeWidth;
    hide ReadUint, LoadWord, ElementAddress;
    ThereAt(out, attr, Flags(d), start, g, d.arrayStride, sourceOffset, IndexWidth(d), from, index, data,
            GroupByteOffset(d, g));
  }

  /** The width the shader derives from a type is the component width; colours have one group only. */
  lemma TripleIs(attr: nat, d: AttributeLayout, g: nat)
    requires POS <= attr < ATTRIBUTES && AttributeOk(attr, d) && d.mode != NONE && (IsColor(attr) ==> g == 0)
    ensures Span(TypeWidth(d.typ), 3 * g) == TripleOffset(d, g)
  {
  }

  lemma DirectParts(attr: nat, d: AttributeLayout, data: seq<byte>, base: nat, group: nat, source: seq<byte>,
                    sourceOffset: nat, raw: Raw)
    returns (at: nat, w: seq<byte>)
    requires POS <= attr && d.mode == DIRECT
    requires Gather(attr, d, data, base, group, source, sourceOffset) == Ok(raw)
    ensures at == base + d.offset + TripleOffset(d, GroupOf(attr, d, group))
    ensures |w| == ReadBytes(attr, d) && Slice(data, at, ReadBytes(attr, d)) == Ok(w)
    ensures raw == RawFrom(attr, d, w, false)
  {
    hide RawFrom, ReadBytes, TripleOffset, GroupOf;
    at := base + d.offset + TripleOffset(d, GroupOf(attr, d, group));
    w := data[at..at + ReadBytes(attr, d)];
  }

  lemma IndexedParts(attr: nat, d: AttributeLayout, data: seq<byte>, base: nat, group: nat, source: seq<byte>,
                     sourceOffset: nat, raw: Raw)
    returns (from: nat, iw: seq<byte>, at: nat, w: seq<byte>)
    requires POS <= attr && IsIndexed(d)
    requires Gather(attr, d, data, base, group, source, sourceOffset) == Ok(raw)
    ensures from == base + d.offset + GroupIndexOffset(d, GroupOf(attr, d, group))
    ensures |iw| == IndexWidth(d) && Slice(data, from, IndexWidth(d)) == Ok(iw)
    ensures at == Span(d.arrayStride, Number(iw, false)) - sourceOffset + GroupByteOffset(d, GroupOf(attr, d, group))
    ensures |w| == ReadBytes(attr, d) && Slice(source, at, ReadBytes(attr, d)) == Ok(w)
    ensures raw == RawFrom(attr, d, w, d.littleEndian)
  {
    hide RawFrom, Number, ReadBytes, TripleOffset, GroupOf;
    from := base + d.offset + GroupIndexOffset(d, GroupOf(attr, d, group));
    iw := data[from..from + IndexWidth(d)];
    at := Span(d.arrayStride, Number(iw, false)) - sourceOffset + GroupByteOffset(d, GroupOf(attr, d, group));
    w := source[at..at + ReadBytes(attr, d)];
  }

  /** Serialize then fetch is the identity: whatever the decoder reads of a captured draw, the shader reads from
      the serialized buffer with every word load in bounds. */
  lemma FetchIsGather(out: seq<byte>, g: Geometry, v: nat, attr: nat, group: nat, raw: Raw)
    requires Uploaded(out, g, v, attr) && attr >= POS && group < 3
    requires Gather(attr, g.layout.attributes[attr], g.records, Span(g.layout.stride, v), group,
                    g.arrays[attr].bytes, g.arrays[attr].sourceOffset) == Ok(raw)
    ensures AttributeGroup(out, v, attr, group) == Ok(raw)
  {
    var d, s, stride := g.layout.attributes[attr], g.arrays[attr], g.layout.stride;
    HeaderWords(out, g, v, attr);
    Room(out, g, attr);
    if d.mode == NONE {
      FlagsRoundTrip(attr, d);
      GroupCases(out, v, attr, group, stride, d.offset, d.arrayStride, s.sourceOffset, Flags(d));
    } else {
      assert HeaderDone(out, g) && AttributeDone(out, g, attr) && AttributeInRecord(attr, d, stride);
      assert d.mode == DIRECT || IsIndexed(d);
      hide Flags, LoadWord, Gather, AttributeGroup, AttributeOk, Holds, HoldsWord;
      if d.mode == DIRECT {
        FetchDirect(out, g.records, stride, v, attr, group, d, s, raw);
      } else {
        FetchIndexed(out, g.records, stride, v, attr, group, d, s, DataOffset(g, attr), raw);
      }
    }
  }

  lemma FetchDirect(out: seq<byte>, records: seq<byte>, stride: nat, v: nat, attr: nat, group: nat, d: AttributeLayout,
                    s: ArraySnapshot, raw: Raw)
    requires POS <= attr < ATTRIBUTES && group < 3 && AttributeOk(attr, d) && d.mode == DIRECT
    requires HasHeader(out, attr, stride, d, s.sourceOffset)
    requires Holds(out, META, records) && META + |records| + 4 <= |out| < WORD
    requires Gather(attr, d, records, Span(stride, v), group, s.bytes, s.sourceOffset) == Ok(raw)
    ensures AttributeGroup(out, v, attr, group) == Ok(raw)
  {
    GroupCases(out, v, attr, group, stride, d.offset, d.arrayStride, s.sourceOffset, Flags(d));
    FlagsRoundTrip(attr, d);
    GroupsAgree(attr, d, group);
    var g := GroupOf(attr, d, group);
    assert IsColor(attr) ==> g == 0;
    assert DIRECT == 1;
    hide *;
    var from, w := DirectParts(attr, d, records, Span(stride, v), group, s.bytes, s.sourceOffset, raw);
    var start, at := META + Span(stride, v) + d.offset, META + from;
    WindowInBuffer(out, META, records, from, ReadBytes(attr, d), w, at);
    AddressIs(v, stride, d.offset, start);
    HereIs(out, attr, d, start, g, at);
    FetchReads(out, at, attr, d, false, w);
  }

  lemma FetchIndexed(out: seq<byte>, records: seq<byte>, stride: nat, v: nat, attr: nat, group: nat, d: AttributeLayout,
                     s: ArraySnapshot, data: nat, raw: Raw)
    requires POS <= attr < ATTRIBUTES && group < 3 && AttributeOk(attr, d) && IsIndexed(d)
    requires HasHeader(out, attr, stride, d, s.sourceOffset)
    requires Holds(out, META, records) && META + |records| + 4 <= |out| < WORD
    requires s.bytes != [] ==> LoadWord(out, Block(attr) + 16) == Ok(data) && Holds(out, data, s.bytes)
    requires s.bytes != [] ==> data + |s.bytes| + 4 <= |out|
    requires Gather(attr, d, records, Span(stride, v), group, s.bytes, s.sourceOffset) == Ok(raw)
    ensures AttributeGroup(out, v, attr, group) == Ok(raw)
  {
    GroupCases(out, v, attr, group, stride, d.offset, d.arrayStride, s.sourceOffset, Flags(d));
    FlagsRoundTrip(attr, d);
    GroupsAgree(attr, d, group);
    ReadsSomething(attr, d);
    var g := GroupOf(attr, d, group);
    assert IsColor(attr) ==> g == 0;
    assert 1 <= IndexWidth(d) <= 2 && d.mode >= 2;
    hide *;
    var from, iw, local, w := IndexedParts(attr, d, records, Span(stride, v), group, s.bytes, s.sourceOffset, raw);
    NotEmpty(s.bytes, local, ReadBytes(attr, d));
    var start, there, at := META + Span(stride, v) + d.offset, META + from, data + local;
    WindowInBuffer(out, META, records, from, IndexWidth(d), iw, there);
    ReadWindow(out, there, IndexWidth(d), false, iw);
    WindowInBuffer(out, data, s.bytes, local, ReadBytes(attr, d), w, at);
    AddressIs(v, stride, d.offset, start);
    ThereIs(out, attr, d, start, g, s.sourceOffset, there, Number(iw, false), data, at);
    FetchReads(out, at, attr, d, d.littleEndian, w);
  }

  lemma ReadsSomething(attr: nat, d: AttributeLayout)
    requires POS <= attr < ATTRIBUTES && AttributeOk(attr, d) && d.mode != NONE
    ensures ReadBytes(attr, d) >= 1
  {
    if !IsColor(attr) {
      SpanGrows(d.componentBytes, 1, GroupComponents(attr, d));
      SpanIsProduct(d.componentBytes, 1);
    }
  }

  lemma NotEmpty(data: seq<byte>, at: int, n: nat)
    requires n >= 1 && Slice(data, at, n).Ok?
    ensures data != []
  {
  }

  lemma ReadWindow(data: seq<byte>, at: nat, width: nat, little: bool, w: seq<byte>)
    requires 1 <= width <= 4 && Slice(data, at, width) == Ok(w) && at + width + 4 <= |data|
    ensures ReadUint(data, at, width, little) == Ok(Number(w, little))
  {
    ReadUintReads(data, at, width, little);
  }

  /** The same for the matrix indices of a vertex. */
  lemma MatrixIsGather(out: seq<byte>, g: Geometry, v: nat, attr: nat, group: nat, raw: Raw)
    requires Uploaded(out, g, v, attr) && attr < POS
    requires Gather(attr, g.layout.attributes[attr], g.records, Span(g.layout.stride, v), group,
                    g.arrays[attr].bytes, g.arrays[attr].sourceOffset) == Ok(raw)
    ensures MatrixIndex(out, v, attr) == Ok(raw)
  {
    var d, s, stride := g.layout.attributes[attr], g.arrays[attr], g.layout.stride;
    HeaderWords(out, g, v, attr);
    Room(out, g, attr);
    ValuesFit(out, g, v, attr);
    FlagsRoundTrip(attr, d);
    assert HeaderDone(out, g);
    hide Flags, LoadWord, Holds, HoldsWord, Serialized, Fits, DataOffset, AttributeDone, ReadUint, VertexAddress,
        AttributeOk;
    if d.mode != NONE {
      var from, at := Span(stride, v) + d.offset, META + Span(stride, v) + d.offset;
      var w := g.records[from..from + 1];
      WindowInBuffer(out, META, g.records, from, 1, w, at);
      ReadWindow(out, at, 1, false, w);
      AddressIs(v, stride, d.offset, at);
    }
  }

  /** Everything the vertex shader fetches for vertex `v`. */
  predicate Fetches(out: seq<byte>, v: nat, vertex: Vertex, attr: nat)
    requires attr < |vertex.attributes| && |vertex.attributes[attr]| == 3
  {
    if attr < POS then MatrixIndex(out, v, attr) == Ok(vertex.attributes[attr][0])
    else forall group :: 0 <= group < 3 ==> AttributeGroup(out, v, attr, group) == Ok(vertex.attributes[attr][group])
  }

  lemma {:induction false} GroupsAt(attr: nat, d: AttributeLayout, data: seq<byte>, base: nat, s: ArraySnapshot, k: nat)
    requires GatherGroups(attr, d, data, base, s, k).Ok?
    ensures var groups := GatherGroups(attr, d, data, base, s, k).value;
            |groups| == k && forall i :: 0 <= i < k ==>
                Gather(attr, d, data, base, i, s.bytes, s.sourceOffset) == Ok(groups[i])
  {
    hide Gather;
    if k > 0 {
      GroupsAt(attr, d, data, base, s, k - 1);
    }
  }

  lemma {:induction false} AttributesAt(layout: VertexLayout, data: seq<byte>, base: nat, sources: seq<ArraySnapshot>,
                                        n: nat)
    requires n <= |layout.attributes| && n <= |sources| && Attributes(layout, data, base, sources, n).Ok?
    ensures var all := Attributes(layout, data, base, sources, n).value;
            |all| == n && forall a :: 0 <= a < n ==>
                GatherGroups(a, layout.attributes[a], data, base, sources[a], 3) == Ok(all[a])
  {
    hide GatherGroups;
    if n > 0 {
      AttributesAt(layout, data, base, sources, n - 1);
    }
  }

  /** Array offsets of a captured draw are 32-bit values. */
  lemma OffsetsFit(layout: VertexLayout, state: RegisterState, n: nat, records: seq<byte>, attr: nat)
    requires LayoutOk(layout) && SnapshotOf(layout, state, n, records).Ok? && attr < ATTRIBUTES
    ensures SnapshotOf(layout, state, n, records).value.arrays[attr].sourceOffset < WORD
  {
    assert TrimOf(layout, state, attr, n, records).Ok?;
    hide HullOf, Span;
  }

  /** From the guest's registers to the shader: whatever the attributes of a vertex record mean under the full
      source arrays, the shader fetches from the serialized capture. */
  lemma ShaderKeepsMeaning(layout: VertexLayout, state: RegisterState, n: nat, records: seq<byte>, out: seq<byte>,
                           v: nat, attr: nat)
    requires LayoutOk(layout) && SnapshotOf(layout, state, n, records).Ok?
    requires v < n < WORD && attr < ATTRIBUTES
    requires var g := SnapshotOf(layout, state, n, records).value; Fits(g) && Serialized(out, g)
    ensures var m := Meaning(layout, state, Record(records, layout.stride, n, v));
            m.Ok? && |m.value.attributes| == ATTRIBUTES && |m.value.attributes[attr]| == 3
                && Fetches(out, v, m.value, attr)
  {
    var g := SnapshotOf(layout, state, n, records).value;
    CaptureKeepsMeaning(layout, state, n, records, v);
    OffsetsFit(layout, state, n, records, attr);
    assert Uploaded(out, g, v, attr);
    var base, s, d := Span(g.layout.stride, v), g.arrays[attr], g.layout.attributes[attr];
    AttributesAt(g.layout, g.records, base, g.arrays, ATTRIBUTES);
    GroupsAt(attr, d, g.records, base, s, 3);
    var vertex := Decode(g, v).value;
    assert GatherGroups(attr, d, g.records, base, s, 3) == Ok(vertex.attributes[attr]);
    hide Meaning, Decode, SnapshotOf, Serialized, Fits, Uploaded, GatherGroups, Attributes, Gather, AttributeGroup,
        MatrixIndex, LayoutOk, DataOffset;
    if attr < POS {
      MatrixIsGather(out, g, v, attr, 0, vertex.attributes[attr][0]);
    } else {
      forall group | 0 <= group < 3
        ensures AttributeGroup(out, v, attr, group) == Ok(vertex.attributes[attr][group])
      {
        FetchIsGather(out, g, v, attr, group, vertex.attributes[attr][group]);
      }
    }
  }
}
