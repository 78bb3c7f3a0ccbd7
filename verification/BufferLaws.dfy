/** The bytes of a serialized draw, in numbers (ps5/gpu/gx_geometry_buffer.cpp): what another reader of the format can
    rely on. */
module BufferLaws {
  import opened Bytes
  import opened GxVertexLayout
  import opened GxSnapshot
  import opened GxGeometryBuffer

  /** The 32-bit word at `at`, low byte first. */
  function WordAt(out: seq<byte>, at: nat): nat
    requires at + 4 <= |out|
  {
    At(out, at) + 0x100 * At(out, at + 1) + 0x1_0000 * At(out, at + 2) + 0x100_0000 * At(out, at + 3)
  }

  /** `n` bytes and zeros up to the next multiple of four. */
  function Filled(n: nat): nat {
    if n % 4 == 0 then n else n + 4 - n % 4
  }

  /** Where array `a` begins: behind the 704 bytes in front, the records and the arrays before it. */
  function ArrayAt(g: Geometry, a: nat): nat
    requires a <= |g.arrays|
  {
    if a == 0 then 704 + Filled(|g.records|) else ArrayAt(g, a - 1) + Filled(|g.arrays[a - 1].bytes|)
  }

  /** The first word of an attribute: mode in two bits, type in three, components in four, index count in two, fraction
      in five, and the byte order in bit 16. */
  predicate IsFlags(word: nat, d: AttributeLayout) {
    && word % 4 == d.mode && word / 4 % 8 == d.typ && word / 32 % 16 == d.components && word / 512 % 4 == d.indexCount
    && word / 2048 % 32 == d.fraction && word / 65536 == if d.littleEndian then 1 else 0
  }

  /** The 32 bytes of attribute `a`. */
  predicate IsBlock(out: seq<byte>, g: Geometry, a: nat)
    requires GeometryShaped(g) && a < 21 && |out| >= 704
  {
    var d, bytes, at := g.layout.attributes[a], g.arrays[a].bytes, 32 + 32 * a;
    && IsFlags(WordAt(out, at), d)
    && WordAt(out, at + 4) == d.offset % 0x1_0000_0000 && WordAt(out, at + 8) == d.arrayStride % 0x1_0000_0000
    && WordAt(out, at + 12) == g.arrays[a].sourceOffset % 0x1_0000_0000
    && WordAt(out, at + 16) == (if bytes == [] then 0 else ArrayAt(g, a) % 0x1_0000_0000)
    && WordAt(out, at + 20) == |bytes| % 0x1_0000_0000
    && (bytes != [] ==> ArrayAt(g, a) + |bytes| <= |out| && out[ArrayAt(g, a)..ArrayAt(g, a) + |bytes|] == bytes)
  }

  /** The header and the records behind the blocks. */
  predicate IsHeader(out: seq<byte>, g: Geometry) {
    && |out| >= 704 + |g.records|
    && out[0] == 0x47 && out[1] == 0x58 && out[2] == 0x56 && out[3] == 0x31
    && WordAt(out, 4) == g.layout.stride % 0x1_0000_0000 && WordAt(out, 8) == 704
    && WordAt(out, 12) == g.count % 0x1_0000_0000 && WordAt(out, 16) == g.currentPnMtx % 0x1_0000_0000
    && out[704..704 + |g.records|] == g.records
  }

  lemma Upper24(v: nat)
    ensures v % 0x1_0000_0000 == v % 256 + 256 * (v / 256 % 0x100_0000)
  {
  }

  lemma Upper16(v: nat)
    ensures v % 0x100_0000 == v % 256 + 256 * (v / 256 % 0x1_0000)
  {
  }

  lemma Upper8(v: nat)
    ensures v % 0x1_0000 == v % 256 + 256 * (v / 256 % 256)
  {
  }

  lemma Remainders(v: nat)
    ensures v % 256 + 256 * (v / 256 % 256) + 65536 * (v / 256 / 256 % 256) + 16777216 * (v / 256 / 256 / 256 % 256)
            == v % 0x1_0000_0000
  {
    Upper24(v);
    Upper16(v / 256);
    Upper8(v / 256 / 256);
  }

  lemma HeldWord(out: seq<byte>, at: nat, v: nat)
    requires HoldsWord(out, at, v)
    ensures at + 4 <= |out| && WordAt(out, at) == v % 0x1_0000_0000
  {
    var w := WordBytes(v);
    assert out[at] == w[0] && out[at + 1] == w[1] && out[at + 2] == w[2] && out[at + 3] == w[3];
    Remainders(v);
  }

  lemma {:induction false} OffsetIs(g: Geometry, a: nat)
    requires a <= |g.arrays|
    ensures DataOffset(g, a) == ArrayAt(g, a)
  {
    if a > 0 {
      OffsetIs(g, a - 1);
    }
  }

  lemma HeldBytes(out: seq<byte>, at: nat, content: seq<byte>)
    requires Holds(out, at, content)
    ensures at + |content| <= |out| && out[at..at + |content|] == content
  {
  }

  lemma FlagsAre(d: AttributeLayout, a: nat)
    requires AttributeOk(a, d)
    ensures IsFlags(Flags(d), d) && Flags(d) < 0x1_0000_0000
  {
    FlagsRoundTrip(a, d);
    FlagsSmall(d, a);
    hide Flags, AttributeOk;
  }

  lemma FlagsSmall(d: AttributeLayout, a: nat)
    requires AttributeOk(a, d)
    ensures Flags(d) < 131072
  {
  }

  lemma HeaderIs(out: seq<byte>, g: Geometry)
    requires HeaderDone(out, g)
    ensures IsHeader(out, g)
  {
    HeldBytes(out, 704, g.records);
    Magic(out);
    HeldWord(out, 4, g.layout.stride);
    HeldWord(out, 8, 704);
    HeldWord(out, 12, g.count);
    HeldWord(out, 16, g.currentPnMtx);
    hide Holds, HoldsWord, WordAt;
  }

  lemma SixWords(out: seq<byte>, at: nat, v0: nat, v1: nat, v2: nat, v3: nat, v4: nat, v5: nat)
    requires HoldsWord(out, at, v0) && HoldsWord(out, at + 4, v1) && HoldsWord(out, at + 8, v2)
    requires HoldsWord(out, at + 12, v3) && HoldsWord(out, at + 16, v4) && HoldsWord(out, at + 20, v5)
    ensures at + 24 <= |out|
    ensures WordAt(out, at) == v0 % 0x1_0000_0000 && WordAt(out, at + 4) == v1 % 0x1_0000_0000
    ensures WordAt(out, at + 8) == v2 % 0x1_0000_0000 && WordAt(out, at + 12) == v3 % 0x1_0000_0000
    ensures WordAt(out, at + 16) == v4 % 0x1_0000_0000 && WordAt(out, at + 20) == v5 % 0x1_0000_0000
  {
    hide HoldsWord, WordAt;
    HeldWord(out, at, v0);
    HeldWord(out, at + 4, v1);
    HeldWord(out, at + 8, v2);
    HeldWord(out, at + 12, v3);
    HeldWord(out, at + 16, v4);
    HeldWord(out, at + 20, v5);
  }

  lemma BlockIs(out: seq<byte>, g: Geometry, a: nat)
    requires GeometryShaped(g) && a < 21 && AttributeDone(out, g, a) && |out| >= 704
    requires AttributeOk(a, g.layout.attributes[a])
    ensures IsBlock(out, g, a)
  {
    hide Holds, HoldsWord, WordAt, Flags, IsFlags, AttributeOk, DataOffset, ArrayAt;
    var d, s := g.layout.attributes[a], g.arrays[a];
    SixWords(out, 32 + 32 * a, Flags(d), d.offset, d.arrayStride, s.sourceOffset,
             if s.bytes == [] then 0 else DataOffset(g, a), |s.bytes|);
    OffsetIs(g, a);
    FlagsAre(d, a);
    if s.bytes != [] {
      HeldBytes(out, DataOffset(g, a), s.bytes);
    }
  }

  /** A serialized draw is, byte by byte, the header, a block of 32 bytes for each attribute, the records and the
      arrays, each filled up to whole words, and one more word. */
  lemma SerializedIs(out: seq<byte>, g: Geometry, a: nat)
    requires GeometryShaped(g) && Serialized(out, g) && a < 21 && AttributeOk(a, g.layout.attributes[a])
    ensures IsHeader(out, g) && IsBlock(out, g, a) && |out| == ArrayAt(g, 21) + 4
  {
    hide AttributeOk, AttributeDone, HeaderDone, DataOffset, ArrayAt, IsBlock;
    OffsetIs(g, 21);
    HeaderIs(out, g);
    BlockIs(out, g, a);
  }

  lemma Magic(out: seq<byte>)
    requires HoldsWord(out, 0, MAGIC)
    ensures |out| >= 4 && out[0] == 0x47 && out[1] == 0x58 && out[2] == 0x56 && out[3] == 0x31
  {
    var w := WordBytes(MAGIC);
    assert out[0] == w[0] && out[1] == w[1] && out[2] == w[2] && out[3] == w[3];
  }
}
