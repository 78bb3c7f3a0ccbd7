/** What the draw opcodes mean, in plain arithmetic (ps5/gpu/gx_geometry.cpp, ps5/gpu/gx_draw.cpp): operands, the
    vertices each opcode draws and in which order, and where the next command is. */
module GxOpcodes {
  import opened Bytes
  import opened GxVertexLayout
  import opened GxPrimitives
  import opened GxSnapshot
  import opened GxDraw

  /** The first command at `at` is a draw of `n` vertices: an opcode from 0x80 to 0xBF and two bytes of count, in the
      stream's byte order. */
  predicate DrawAt(s: Stream, at: nat, n: nat) {
    && at + 3 <= |s.data| && 0x80 <= s.data[at] <= 0xBF
    && var first, second: int := s.data[at + 1], s.data[at + 2];
       n == if s.bigEndian then 256 * first + second else first + 256 * second
  }

  /** Bytes of `n` records. */
  function SizeOf(n: nat, stride: nat): nat {
    n * stride
  }

  /** The layout of the format that the opcode's three low bits name. */
  predicate DrawnUnder(s: Stream, at: nat, state: RegisterState, layout: VertexLayout)
    requires at < |s.data|
  {
    LayoutOk(layout) && Layout(state, s.data[at] % 8) == Ok(layout)
  }

  /** The vertices drawn by `n` records, element by element: for quads two triangles each, triangles, strips with every
      other triangle turned round, fans around the first vertex, lines, line strips and points. */
  predicate Numbered(vs: seq<nat>, opcode: int, n: nat) {
    && (0x80 <= opcode < 0x90 ==>
          && |vs| == n / 4 * 6
          && forall q :: 0 <= q < n / 4 ==>
               vs[6 * q..6 * q + 6] == [4 * q, 4 * q + 1, 4 * q + 2, 4 * q + 2, 4 * q + 3, 4 * q])
    && (0x90 <= opcode < 0x98 ==> |vs| == n / 3 * 3 && forall i :: 0 <= i < |vs| ==> vs[i] == i)
    && (0x98 <= opcode < 0xA0 ==>
          && |vs| == (if n < 3 then 0 else 3 * (n - 2))
          && forall k :: 0 <= k < n - 2 ==>
               vs[3 * k..3 * k + 3] == if k % 2 == 0 then [k, k + 1, k + 2] else [k + 1, k, k + 2])
    && (0xA0 <= opcode < 0xA8 ==>
          && |vs| == (if n < 3 then 0 else 3 * (n - 2))
          && forall k :: 0 <= k < n - 2 ==> vs[3 * k..3 * k + 3] == [0, k + 1, k + 2])
    && (0xA8 <= opcode < 0xB0 ==> |vs| == n / 2 * 2 && forall i :: 0 <= i < |vs| ==> vs[i] == i)
    && (0xB0 <= opcode < 0xB8 ==>
          && |vs| == (if n < 2 then 0 else 2 * (n - 1))
          && forall k :: 0 <= k < n - 1 ==> vs[2 * k..2 * k + 2] == [k, k + 1])
    && (0xB8 <= opcode < 0xC0 ==> |vs| == n && forall i :: 0 <= i < |vs| ==> vs[i] == i)
  }

  /** Corners of an element: three, two for lines, one for points. */
  function CornersEach(opcode: int): nat {
    if opcode < 0xA8 then 3 else if opcode < 0xB8 then 2 else 1
  }

  /** Record `v` of the command at `at`. */
  function RecordAt(s: Stream, at: nat, stride: nat, v: nat): seq<byte>
    requires at + 3 + SizeOf(v, stride) + stride <= |s.data|
  {
    s.data[at + 3 + SizeOf(v, stride)..at + 3 + SizeOf(v, stride) + stride]
  }

  /** The corners are the named records' vertices. */
  predicate Corners(corners: seq<Corner>, vs: seq<nat>, s: Stream, at: nat, n: nat, state: RegisterState,
                    layout: VertexLayout)
    requires at + 3 + SizeOf(n, layout.stride) <= |s.data| && |layout.attributes| == ATTRIBUTES
  {
    && |corners| == |vs|
    && forall i :: 0 <= i < |vs| ==>
         && vs[i] < n && at + 3 + SizeOf(vs[i], layout.stride) + layout.stride <= |s.data|
         && corners[i] == Corner(state, CornersEach(s.data[at]),
                                 Meaning(layout, state, RecordAt(s, at, layout.stride, vs[i])))
  }

  /** Records that can be captured. */
  predicate Capturable(s: Stream, at: nat, n: nat, state: RegisterState, layout: VertexLayout)
    requires at + 3 + SizeOf(n, layout.stride) <= |s.data| && LayoutOk(layout)
  {
    SnapshotOf(layout, state, n, s.data[at + 3..at + 3 + SizeOf(n, layout.stride)]).Ok?
  }

  lemma Numbers(opcode: byte, n: nat, p: Primitive)
    requires 0x80 <= opcode <= 0xBF && FromCommand(opcode) == Ok(p)
    ensures Numbered(Indices(p, n, 0), opcode, n) && Arity(p) == CornersEach(opcode)
    ensures TriangleClass(p) <==> opcode < 0xA8
  {
    var vs := Indices(p, n, 0);
    match p {
      case Quads =>
        forall q | 0 <= q < n / 4
          ensures vs[6 * q..6 * q + 6] == [4 * q, 4 * q + 1, 4 * q + 2, 4 * q + 2, 4 * q + 3, 4 * q]
        {
          QuadAt(q, n);
        }
      case TriangleStrip =>
        forall k | 0 <= k < n - 2
          ensures vs[3 * k..3 * k + 3] == if k % 2 == 0 then [k, k + 1, k + 2] else [k + 1, k, k + 2]
        {
          TripleAt(p, k, n);
        }
      case TriangleFan =>
        forall k | 0 <= k < n - 2
          ensures vs[3 * k..3 * k + 3] == [0, k + 1, k + 2]
        {
          TripleAt(p, k, n);
        }
      case LineStrip =>
        forall k | 0 <= k < n - 1
          ensures vs[2 * k..2 * k + 2] == [k, k + 1]
        {
          PairAt(k, n);
        }
      case Triangles =>
      case Lines =>
      case Points =>
    }
  }

  lemma QuadAt(q: nat, n: nat)
    requires q < n / 4
    ensures 6 * q + 6 <= |Indices(Quads, n, 0)|
    ensures Indices(Quads, n, 0)[6 * q..6 * q + 6] == [4 * q, 4 * q + 1, 4 * q + 2, 4 * q + 2, 4 * q + 3, 4 * q]
  {
    hide Indices, GxPrimitives.Corner;
    QuadIndex(n, 6 * q, 2 * q, 0);
    QuadIndex(n, 6 * q + 1, 2 * q, 1);
    QuadIndex(n, 6 * q + 2, 2 * q, 2);
    QuadIndex(n, 6 * q + 3, 2 * q + 1, 0);
    QuadIndex(n, 6 * q + 4, 2 * q + 1, 1);
    QuadIndex(n, 6 * q + 5, 2 * q + 1, 2);
    QuadCorners(q);
  }

  lemma QuadIndex(n: nat, i: nat, e: nat, c: nat)
    requires i == 3 * e + c && c < 3 && e < n / 4 * 2
    ensures i < |Indices(Quads, n, 0)| && Indices(Quads, n, 0)[i] == GxPrimitives.Corner(Quads, e, c)
  {
    assert i / 3 == e && i % 3 == c;
  }

  lemma QuadCorners(q: nat)
    ensures var e, f := 2 * q, 2 * q + 1;
            && GxPrimitives.Corner(Quads, e, 0) == 4 * q && GxPrimitives.Corner(Quads, e, 1) == 4 * q + 1
            && GxPrimitives.Corner(Quads, e, 2) == 4 * q + 2 && GxPrimitives.Corner(Quads, f, 0) == 4 * q + 2
            && GxPrimitives.Corner(Quads, f, 1) == 4 * q + 3 && GxPrimitives.Corner(Quads, f, 2) == 4 * q
  {
    assert 2 * q / 2 == q && (2 * q + 1) / 2 == q && 2 * q % 2 == 0 && (2 * q + 1) % 2 == 1;
  }

  lemma TripleAt(p: Primitive, k: nat, n: nat)
    requires (p.TriangleStrip? || p.TriangleFan?) && k < n - 2
    ensures Indices(p, n, 0)[3 * k..3 * k + 3]
         == [GxPrimitives.Corner(p, k, 0), GxPrimitives.Corner(p, k, 1), GxPrimitives.Corner(p, k, 2)]
  {
    var vs := Indices(p, n, 0);
    forall c | 0 <= c < 3
      ensures vs[3 * k + c] == GxPrimitives.Corner(p, k, c)
    {
      assert (3 * k + c) / 3 == k && (3 * k + c) % 3 == c;
    }
  }

  lemma PairAt(k: nat, n: nat)
    requires k < n - 1
    ensures Indices(LineStrip, n, 0)[2 * k..2 * k + 2] == [k, k + 1]
  {
    var vs := Indices(LineStrip, n, 0);
    assert vs[2 * k] == k && vs[2 * k + 1] == k + 1 by {
      assert 2 * k / 2 == k && (2 * k + 1) / 2 == k && (2 * k + 1) % 2 == 1;
    }
  }

  /** The command as the machines read it. */
  lemma CommandRead(s: Stream, at: nat, n: nat, state: RegisterState, layout: VertexLayout)
    requires DrawAt(s, at, n) && DrawnUnder(s, at, state, layout)
    ensures at + 3 + SizeOf(n, layout.stride) > |s.data| ==> NextAt(s, at, state, NoGroup) == Ends(Halted)
    ensures at + 3 + SizeOf(n, layout.stride) <= |s.data| ==>
              && FromCommand(s.data[at]).Ok? && n <= MAX_COUNT
              && var c := Command(FromCommand(s.data[at]).value, n, s.data[at + 3..at + 3 + SizeOf(n, layout.stride)]);
                 CommandOk(c, layout.stride)
                 && NextAt(s, at, state, NoGroup) == Draws(layout, s.data[at] % 8, c, at + 3 + SizeOf(n, layout.stride))
  {
    hide Layout, LayoutOk, FromCommand;
    SpanIsProduct(layout.stride, n);
    Decodes(s.data[at]);
  }

  lemma Decodes(opcode: byte)
    requires 0x80 <= opcode <= 0xBF
    ensures FromCommand(opcode).Ok?
  {
  }

  /** A complete draw whose records can be captured: the vertices of its opcode are drawn from its own records, and the
      stream goes on behind them. */
  lemma DrawsItsVertices(s: Stream, at: nat, n: nat, state: RegisterState, layout: VertexLayout)
      returns (corners: seq<Corner>, vs: seq<nat>)
    requires DrawAt(s, at, n) && DrawnUnder(s, at, state, layout)
    requires at + 3 + SizeOf(n, layout.stride) <= |s.data| && Capturable(s, at, n, state, layout)
    requires !(state.cullAll && s.data[at] < 0xA8)
    ensures Numbered(vs, s.data[at], n) && Corners(corners, vs, s, at, n, state, layout)
    ensures Reference(s, at, state) == After(corners, Reference(s, at + 3 + SizeOf(n, layout.stride), state))
  {
    hide Layout, LayoutOk, FromCommand, NextAt, SnapshotOf, Meaning, Numbered, Indices;
    CommandRead(s, at, n, state, layout);
    HasAttributes(layout);
    var p := FromCommand(s.data[at]).value;
    var records := s.data[at + 3..at + 3 + SizeOf(n, layout.stride)];
    Numbers(s.data[at], n, p);
    IndicesInRange(p, n, 0);
    vs := Indices(p, n, 0);
    SpanIsProduct(layout.stride, n);
    corners := CornersOf(layout, state, Arity(p), n, records, vs);
    forall i | 0 <= i < |vs|
      ensures vs[i] < n && at + 3 + SizeOf(vs[i], layout.stride) + layout.stride <= |s.data|
      ensures corners[i] == Corner(state, CornersEach(s.data[at]),
                                   Meaning(layout, state, RecordAt(s, at, layout.stride, vs[i])))
    {
      RecordIs(s, at, layout.stride, n, vs[i], records);
    }
    if n == 0 {
      NoVertices(s.data[at], vs);
    }
  }

  lemma HasAttributes(layout: VertexLayout)
    requires LayoutOk(layout)
    ensures |layout.attributes| == ATTRIBUTES
  {
  }

  lemma NoVertices(opcode: byte, vs: seq<nat>)
    requires 0x80 <= opcode <= 0xBF && Numbered(vs, opcode, 0)
    ensures vs == []
  {
  }

  lemma RecordIs(s: Stream, at: nat, stride: nat, n: nat, v: nat, records: seq<byte>)
    requires at + 3 + SizeOf(n, stride) <= |s.data| && v < n
    requires records == s.data[at + 3..at + 3 + SizeOf(n, stride)]
    ensures |records| == Span(stride, n) && at + 3 + SizeOf(v, stride) + stride <= |s.data|
    ensures Record(records, stride, n, v) == RecordAt(s, at, stride, v)
  {
    hide SizeOf;
    SizeIs(n, stride);
    SizeIs(v, stride);
    SpanInside(v, n, stride);
  }

  lemma SizeIs(n: nat, stride: nat)
    ensures Span(stride, n) == SizeOf(n, stride)
  {
    SpanIsProduct(stride, n);
  }

  /** A layout that cannot be built throws, and a command that is cut off ends the stream. */
  lemma DrawRefused(s: Stream, at: nat, n: nat, state: RegisterState)
    requires DrawAt(s, at, n)
    ensures Layout(state, s.data[at] % 8).Err? ==> Reference(s, at, state) == Ran(Threw, state, [], NoGroup)
    ensures Layout(state, s.data[at] % 8).Ok?
            && at + 3 + SizeOf(n, Layout(state, s.data[at] % 8).value.stride) > |s.data| ==>
              Reference(s, at, state) == Ran(Halted, state, [], NoGroup)
  {
    hide LayoutOk, FromCommand, Layout;
    if Layout(state, s.data[at] % 8).Ok? {
      LayoutIsOk(state, s.data[at] % 8);
      CommandRead(s, at, n, state, Layout(state, s.data[at] % 8).value);
      hide NextAt;
    }
  }

  /** Nothing is drawn of no vertices, and no triangles while everything is culled; otherwise records that cannot be
      captured throw. */
  lemma DrawsNothing(s: Stream, at: nat, n: nat, state: RegisterState, layout: VertexLayout)
    requires DrawAt(s, at, n) && DrawnUnder(s, at, state, layout) && at + 3 + SizeOf(n, layout.stride) <= |s.data|
    ensures n == 0 || (state.cullAll && s.data[at] < 0xA8) ==>
              Reference(s, at, state) == Reference(s, at + 3 + SizeOf(n, layout.stride), state)
    ensures n > 0 && !(state.cullAll && s.data[at] < 0xA8) && !Capturable(s, at, n, state, layout) ==>
              Reference(s, at, state) == Ran(Threw, state, [], NoGroup)
  {
    hide LayoutOk, FromCommand, SnapshotOf, Layout, Indices, Numbered, NextAt;
    CommandRead(s, at, n, state, layout);
    Numbers(s.data[at], n, FromCommand(s.data[at]).value);
    AddsNothing(Reference(s, at + 3 + SizeOf(n, layout.stride), state));
  }

  /** Padding is skipped byte by byte, and a stream ends behind its last command. */
  lemma PaddingSkipped(s: Stream, at: nat, state: RegisterState)
    ensures at >= |s.data| ==> Reference(s, at, state) == Ran(Finished, state, [], NoGroup)
    ensures at < |s.data| && s.data[at] == 0 ==> Reference(s, at, state) == Reference(s, at + 1, state)
  {
  }

  lemma AddsNothing(r: Ran)
    ensures After([], r) == r
  {
    assert [] + r.corners == r.corners;
  }

  lemma {:induction false} ZerosSkipped(data: seq<byte>, from: nat, at: nat)
    requires from <= at <= |data| && forall i :: from <= i < at ==> data[i] == 0
    requires at < |data| ==> data[at] != 0
    ensures SkipZeros(data, from) == at
    decreases at - from
  {
    if from < at {
      ZerosSkipped(data, from + 1, at);
    }
  }

  /** What joins a group, behind any zero bytes: a draw of triangles, quads, a strip or a fan, of the group's own vertex
      format, with all its records in the stream. */
  lemma JoinsGroup(s: Stream, from: nat, at: nat, n: nat, format: nat, stride: nat)
    requires from <= at && DrawAt(s, at, n) && forall i :: from <= i < at ==> s.data[i] == 0
    ensures NextJoins(s, from, format, stride)
        <==> s.data[at] < 0xA8 && s.data[at] % 8 == format && at + 3 + SizeOf(n, stride) <= |s.data|
  {
    ZerosSkipped(s.data, from, at);
    SpanIsProduct(stride, n);
    var first, second: int := s.data[at + 1], s.data[at + 2];
    assert CountAt(s, at + 1) == n;
    hide Span, SkipZeros, SizeOf, CountAt;
    SizeIs(n, stride);
  }

  /** Nothing else does: no other command, and no command cut off in front of its count. */
  lemma NothingJoins(s: Stream, from: nat, at: nat, format: nat, stride: nat)
    requires from <= at <= |s.data| && (forall i :: from <= i < at ==> s.data[i] == 0)
    requires at < |s.data| ==> s.data[at] != 0
    requires at + 3 > |s.data| || !(0x80 <= s.data[at] < 0xC0)
    ensures !NextJoins(s, from, format, stride)
  {
    ZerosSkipped(s.data, from, at);
  }
}
