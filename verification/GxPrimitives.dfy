/** GX primitives and the vertex indices they draw (ps5/gpu/gx_geometry.cpp, index builders). */
module GxPrimitives {
  import opened Bytes

  datatype Primitive = Quads | Triangles | TriangleStrip | TriangleFan | Lines | LineStrip | Points

  /** The primitive of a draw opcode. */
  function FromCommand(command: byte): Result<Primitive> {
    var opcode := command - command % 8;
    if opcode == 0x80 || opcode == 0x88 then Ok(Quads)
    else if opcode == 0x90 then Ok(Triangles)
    else if opcode == 0x98 then Ok(TriangleStrip)
    else if opcode == 0xa0 then Ok(TriangleFan)
    else if opcode == 0xa8 then Ok(Lines)
    else if opcode == 0xb0 then Ok(LineStrip)
    else if opcode == 0xb8 then Ok(Points)
    else Err
  }

  predicate TriangleClass(p: Primitive) {
    p.Quads? || p.Triangles? || p.TriangleStrip? || p.TriangleFan?
  }

  /** Vertices of one drawn element. */
  function Arity(p: Primitive): (n: nat)
    ensures 1 <= n <= 3
  {
    if TriangleClass(p) then 3 else if p.Points? then 1 else 2
  }

  /** Number of elements (triangles, lines or points) of `n` vertices. */
  function Elements(p: Primitive, n: nat): nat {
    match p
    case Quads => n / 4 * 2
    case Triangles => n / 3
    case TriangleStrip => if n > 2 then n - 2 else 0
    case TriangleFan => if n > 2 then n - 2 else 0
    case Lines => n / 2
    case LineStrip => if n > 1 then n - 1 else 0
    case Points => n
  }

  /** Vertex number at corner `c` of element `e`. */
  function Corner(p: Primitive, e: nat, c: nat): nat
    requires c < Arity(p)
  {
    match p
    case Quads =>
      if e % 2 == 0 then e / 2 * 4 + c else if c == 2 then e / 2 * 4 else e / 2 * 4 + 2 + c
    case Triangles => 3 * e + c
    case TriangleStrip => if e % 2 == 1 && c < 2 then e + 1 - c else e + c
    case TriangleFan => if c == 0 then 0 else e + c
    case Lines => 2 * e + c
    case LineStrip => e + c
    case Points => e
  }

  /** Entries of the index list of `n` vertices. */
  function IndexCount(p: Primitive, n: nat): nat {
    Elements(p, n) * Arity(p)
  }

  /** The index list, every entry shifted by `base`. */
  function Indices(p: Primitive, n: nat, base: nat): (r: seq<nat>)
    ensures |r| == IndexCount(p, n)
  {
    seq(IndexCount(p, n), i requires 0 <= i => base + Corner(p, i / Arity(p), i % Arity(p)))
  }

  /** Every index names one of the command's vertices. */
  lemma IndicesInRange(p: Primitive, n: nat, base: nat)
    ensures forall i :: 0 <= i < IndexCount(p, n) ==> base <= Indices(p, n, base)[i] < base + n
  {
    forall i | 0 <= i < IndexCount(p, n)
      ensures base <= Indices(p, n, base)[i] < base + n
    {
      var e, c := i / Arity(p), i % Arity(p);
      assert e < Elements(p, n) by {
        match Arity(p)
        case 1 =>
        case 2 =>
        case 3 =>
      }
      CornerInRange(p, n, e, c);
    }
  }

  lemma CornerInRange(p: Primitive, n: nat, e: nat, c: nat)
    requires e < Elements(p, n) && c < Arity(p)
    ensures Corner(p, e, c) < n
  {
  }

  /** Whether the triangle walks from vertex `a` to vertex `b` along one of its sides. */
  predicate Walks(p: Primitive, e: nat, a: nat, b: nat)
    requires Arity(p) == 3
  {
    || (Corner(p, e, 0) == a && Corner(p, e, 1) == b)
    || (Corner(p, e, 1) == a && Corner(p, e, 2) == b)
    || (Corner(p, e, 2) == a && Corner(p, e, 0) == b)
  }

  /** Consistent winding: neighbouring triangles of a strip, of a fan and of a quad walk their common side in
      opposite directions, so all of them face the same way. */
  lemma ConsistentWinding(e: nat)
    ensures e % 2 == 0 ==> Walks(TriangleStrip, e, e + 1, e + 2) && Walks(TriangleStrip, e + 1, e + 2, e + 1)
    ensures e % 2 == 1 ==> Walks(TriangleStrip, e, e + 2, e + 1) && Walks(TriangleStrip, e + 1, e + 1, e + 2)
    ensures Walks(TriangleFan, e, e + 2, 0) && Walks(TriangleFan, e + 1, 0, e + 2)
    ensures Walks(Quads, 2 * e, 4 * e + 2, 4 * e) && Walks(Quads, 2 * e + 1, 4 * e, 4 * e + 2)
  {
    assert Corner(TriangleStrip, e, 2) == e + 2 && Corner(TriangleStrip, e + 1, 2) == e + 3;
    assert Corner(Quads, 2 * e, 0) == 4 * e && Corner(Quads, 2 * e + 1, 2) == 4 * e;
    assert Corner(TriangleFan, e, 0) == 0;
  }

  /** The buffer holds the first `e` triangles from `at` on, and is otherwise as before. */
  ghost predicate Filled(before: seq<nat>, now: seq<nat>, at: nat, p: Primitive, e: nat, base: nat)
    requires TriangleClass(p)
  {
    && |now| == |before|
    && at + 3 * e <= |now|
    && (forall i :: 0 <= i < at || at + 3 * e <= i < |now| ==> now[i] == before[i])
    && (forall i :: at <= i < at + 3 * e ==> now[i] == base + Corner(p, (i - at) / 3, (i - at) % 3))
  }

  /** Appends triangle `e`. */
  method Emit(out: array<nat>, a: nat, b: nat, c: nat, ghost before: seq<nat>, at: nat, next: nat,
              ghost p: Primitive, ghost e: nat, ghost base: nat)
    requires TriangleClass(p)
    requires next == at + 3 * e && next + 3 <= out.Length
    requires Filled(before, out[..], at, p, e, base)
    requires a == base + Corner(p, e, 0) && b == base + Corner(p, e, 1) && c == base + Corner(p, e, 2)
    modifies out
    ensures Filled(before, out[..], at, p, e + 1, base)
  {
    out[next], out[next + 1], out[next + 2] := a, b, c;
    forall i | at <= i < at + 3 * (e + 1)
      ensures out[i] == base + Corner(p, (i - at) / 3, (i - at) % 3)
    {
      if i >= next {
        assert (i - at) / 3 == e && (i - at) % 3 == i - next;
      }
    }
  }

  lemma FilledAll(before: seq<nat>, now: seq<nat>, at: nat, p: Primitive, count: nat, base: nat)
    requires TriangleClass(p)
    requires Filled(before, now, at, p, Elements(p, count), base)
    ensures now == before[..at] + Indices(p, count, base) + before[at + IndexCount(p, count)..]
  {
    var list := Indices(p, count, base);
    forall i | 0 <= i < |list|
      ensures now[at + i] == list[i]
    {
      assert (at + i - at) / 3 == i / 3;
    }
  }

  /** The quad loop: two triangles a quad. */
  method WriteQuads(out: array<nat>, at: nat, count: nat, base: nat) returns (next: nat)
    requires at + 3 * Elements(Quads, count) <= out.Length
    modifies out
    ensures next == at + 3 * Elements(Quads, count)
    ensures Filled(old(out[..]), out[..], at, Quads, Elements(Quads, count), base)
  {
    next := at;
    ghost var e: nat := 0;
    ghost var before := out[..];
    var v := 0;
    while v + 3 < count
      invariant v == 2 * e && v % 4 == 0 && v <= count
      invariant next == at + 3 * e && Filled(before, out[..], at, Quads, e, base)
      decreases count - v
    {
      assert e + 1 < Elements(Quads, count);
      Emit(out, base + v, base + v + 1, base + v + 2, before, at, next, Quads, e, base);
      next, e := next + 3, e + 1;
      Emit(out, base + v + 2, base + v + 3, base + v, before, at, next, Quads, e, base);
      next, e := next + 3, e + 1;
      v := v + 4;
    }
  }

  /** The triangle loop. */
  method WriteTriangles(out: array<nat>, at: nat, count: nat, base: nat) returns (next: nat)
    requires at + 3 * Elements(Triangles, count) <= out.Length
    modifies out
    ensures next == at + 3 * Elements(Triangles, count)
    ensures Filled(old(out[..]), out[..], at, Triangles, Elements(Triangles, count), base)
  {
    next := at;
    ghost var e: nat := 0;
    ghost var before := out[..];
    var v := 0;
    while v + 2 < count
      invariant v == 3 * e && v <= count
      invariant next == at + 3 * e && Filled(before, out[..], at, Triangles, e, base)
      decreases count - v
    {
      Emit(out, base + v, base + v + 1, base + v + 2, before, at, next, Triangles, e, base);
      next, e := next + 3, e + 1;
      v := v + 3;
    }
  }

  /** The strip loop: every other triangle is turned round. */
  method WriteStrip(out: array<nat>, at: nat, count: nat, base: nat) returns (next: nat)
    requires at + 3 * Elements(TriangleStrip, count) <= out.Length
    modifies out
    ensures next == at + 3 * Elements(TriangleStrip, count)
    ensures Filled(old(out[..]), out[..], at, TriangleStrip, Elements(TriangleStrip, count), base)
  {
    next := at;
    ghost var e: nat := 0;
    ghost var before := out[..];
    var v := 2;
    while v < count
      invariant v == e + 2 && (v <= count || e == 0)
      invariant next == at + 3 * e && Filled(before, out[..], at, TriangleStrip, e, base)
    {
      if v % 2 == 1 {
        Emit(out, base + v - 1, base + v - 2, base + v, before, at, next, TriangleStrip, e, base);
      } else {
        Emit(out, base + v - 2, base + v - 1, base + v, before, at, next, TriangleStrip, e, base);
      }
      next, e := next + 3, e + 1;
      v := v + 1;
    }
  }

  /** The fan loop. */
  method WriteFan(out: array<nat>, at: nat, count: nat, base: nat) returns (next: nat)
    requires at + 3 * Elements(TriangleFan, count) <= out.Length
    modifies out
    ensures next == at + 3 * Elements(TriangleFan, count)
    ensures Filled(old(out[..]), out[..], at, TriangleFan, Elements(TriangleFan, count), base)
  {
    next := at;
    ghost var e: nat := 0;
    ghost var before := out[..];
    var v := 2;
    while v < count
      invariant v == e + 2 && (v <= count || e == 0)
      invariant next == at + 3 * e && Filled(before, out[..], at, TriangleFan, e, base)
    {
      Emit(out, base, base + v - 1, base + v, before, at, next, TriangleFan, e, base);
      next, e := next + 3, e + 1;
      v := v + 1;
    }
  }

  /** `write_triangle_indices`: fills the buffer from `at` with the triangles of one command. */
  method WriteTriangleIndices(out: array<nat>, at: nat, p: Primitive, count: nat, base: nat) returns (next: nat)
    requires TriangleClass(p)
    requires at + IndexCount(p, count) <= out.Length
    modifies out
    ensures next == at + IndexCount(p, count)
    ensures out[..] == old(out[..at]) + Indices(p, count, base) + old(out[at + IndexCount(p, count)..])
  {
    match p {
      case Quads => next := WriteQuads(out, at, count, base);
      case Triangles => next := WriteTriangles(out, at, count, base);
      case TriangleStrip => next := WriteStrip(out, at, count, base);
      case TriangleFan => next := WriteFan(out, at, count, base);
    }
    FilledAll(old(out[..]), out[..], at, p, count, base);
  }

  /** The list holds the first `e` elements. */
  ghost predicate Pushed(out: seq<nat>, p: Primitive, e: nat) {
    && |out| == e * Arity(p)
    && forall i :: 0 <= i < |out| ==> out[i] == Corner(p, i / Arity(p), i % Arity(p))
  }

  lemma PushOne(out: seq<nat>, p: Primitive, e: nat, element: seq<nat>)
    requires Pushed(out, p, e)
    requires |element| == Arity(p) && forall c :: 0 <= c < Arity(p) ==> element[c] == Corner(p, e, c)
    ensures Pushed(out + element, p, e + 1)
  {
    var more := out + element;
    forall i | 0 <= i < |more|
      ensures more[i] == Corner(p, i / Arity(p), i % Arity(p))
    {
      if i >= |out| {
        match Arity(p)
        case 1 => assert i / 1 == e;
        case 2 => assert i / 2 == e && i % 2 == i - |out|;
        case 3 => assert i / 3 == e && i % 3 == i - |out|;
      }
    }
  }

  /** The quad and triangle loops of `build_indices`. */
  method BuildSeparate(p: Primitive, count: nat) returns (out: seq<nat>)
    requires p.Quads? || p.Triangles?
    ensures out == Indices(p, count, 0)
  {
    out := [];
    ghost var e: nat := 0;
    match p {
      case Quads =>
        var v := 0;
        while v + 3 < count
          invariant v == 2 * e && v % 4 == 0 && v <= count && Pushed(out, p, e)
          decreases count - v
        {
          PushOne(out, p, e, [v, v + 1, v + 2]);
          out := out + [v, v + 1, v + 2];
          PushOne(out, p, e + 1, [v + 2, v + 3, v]);
          out := out + [v + 2, v + 3, v];
          v, e := v + 4, e + 2;
        }
      case Triangles =>
        var v := 0;
        while v + 2 < count
          invariant v == 3 * e && v <= count && Pushed(out, p, e)
          decreases count - v
        {
          PushOne(out, p, e, [v, v + 1, v + 2]);
          out := out + [v, v + 1, v + 2];
          v, e := v + 3, e + 1;
        }
    }
    assert e == Elements(p, count);
  }

  /** The strip and fan loops of `build_indices`. */
  method BuildConnected(p: Primitive, count: nat) returns (out: seq<nat>)
    requires p.TriangleStrip? || p.TriangleFan?
    ensures out == Indices(p, count, 0)
  {
    out := [];
    ghost var e: nat := 0;
    match p {
      case TriangleStrip =>
        var v := 2;
        while v < count
          invariant v == e + 2 && (v <= count || e == 0) && Pushed(out, p, e)
        {
          var triangle := if v % 2 == 1 then [v - 1, v - 2, v] else [v - 2, v - 1, v];
          PushOne(out, p, e, triangle);
          out := out + triangle;
          v, e := v + 1, e + 1;
        }
      case TriangleFan =>
        var v := 2;
        while v < count
          invariant v == e + 2 && (v <= count || e == 0) && Pushed(out, p, e)
        {
          PushOne(out, p, e, [0, v - 1, v]);
          out := out + [0, v - 1, v];
          v, e := v + 1, e + 1;
        }
    }
    assert e == Elements(p, count);
  }

  /** `build_indices`: the index list of one command. */
  method BuildIndices(p: Primitive, count: nat) returns (out: seq<nat>)
    ensures out == Indices(p, count, 0)
  {
    if p.Quads? || p.Triangles? {
      out := BuildSeparate(p, count);
      return;
    }
    if p.TriangleStrip? || p.TriangleFan? {
      out := BuildConnected(p, count);
      return;
    }
    out := [];
    ghost var e: nat := 0;
    match p {
      case Lines =>
        var v := 0;
        while v + 1 < count
          invariant v == 2 * e && v <= count && Pushed(out, p, e)
          decreases count - v
        {
          PushOne(out, p, e, [v, v + 1]);
          out := out + [v, v + 1];
          v, e := v + 2, e + 1;
        }
      case LineStrip =>
        var v := 1;
        while v < count
          invariant v == e + 1 && (v <= count || e == 0) && Pushed(out, p, e)
        {
          PushOne(out, p, e, [v - 1, v]);
          out := out + [v - 1, v];
          v, e := v + 1, e + 1;
        }
      case Points =>
        var v := 0;
        while v < count
          invariant v == e <= count && Pushed(out, p, e)
        {
          PushOne(out, p, e, [v]);
          out := out + [v];
          v, e := v + 1, e + 1;
        }
    }
    assert e == Elements(p, count);
  }
}
