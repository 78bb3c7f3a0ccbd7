/** The vertex layout built from the GX registers (ps5/gpu/gx_geometry.cpp, `GxVertexLayout::build`). */
module GxVertexLayout {
  import opened Bytes

  // Attribute modes.
  const NONE := 0
  const DIRECT := 1
  const INDEX8 := 2
  const INDEX16 := 3

  // Attributes: position matrix, eight texture matrices, position, normal, two colours, eight coordinates.
  const ATTRIBUTES := 21
  const POS := 9
  const NRM := 10
  const CLR0 := 11
  const CLR1 := 12

  // Component types of numbers, and formats of colours.
  const U8 := 0
  const S8 := 1
  const S16 := 3
  const F32 := 4
  const RGB565 := 0
  const RGB8 := 1
  const RGBX8 := 2
  const RGBA4 := 3
  const RGBA6 := 4
  const RGBA8 := 5

  /** One attribute of a vertex format register: component count, type and fraction bits. */
  datatype AttributeFormat = AttributeFormat(cnt: nat, typ: nat, frac: byte)

  /** An array register: the live memory behind its pointer (none for a null pointer), declared size and stride. */
  datatype AttributeArray = AttributeArray(memory: Option<seq<byte>>, size: u32, stride: byte, littleEndian: bool)

  datatype Registers = Registers(
    vtxDesc: seq<nat>,
    vtxFmts: seq<seq<AttributeFormat>>,
    arrays: seq<AttributeArray>,
    cullAll: bool,
    currentPnMtx: u32)

  /** The fixed extents of the register file. */
  predicate Shaped(state: Registers) {
    && |state.vtxDesc| == ATTRIBUTES
    && |state.arrays| == ATTRIBUTES
    && |state.vtxFmts| == 8
    && forall f :: 0 <= f < 8 ==> |state.vtxFmts[f]| == ATTRIBUTES
  }

  type RegisterState = s: Registers | Shaped(s)
    witness Registers(
              seq(21, i => 0),
              seq(8, i => seq(21, j => AttributeFormat(0, 0, 0))),
              seq(21, i => AttributeArray(None, 0, 0, false)), false, 0)

  datatype AttributeLayout = AttributeLayout(
    mode: nat, typ: nat, offset: nat, componentBytes: nat, components: nat, indexCount: nat,
    arrayStride: nat, fraction: nat, littleEndian: bool)

  datatype VertexLayout = VertexLayout(attributes: seq<AttributeLayout>, stride: nat)

  const EmptyAttribute := AttributeLayout(NONE, F32, 0, 0, 0, 1, 0, 0, false)

  predicate IsColor(attr: nat) {
    attr == CLR0 || attr == CLR1
  }

  predicate IsIndexed(d: AttributeLayout) {
    d.mode == INDEX8 || d.mode == INDEX16
  }

  function IndexWidth(d: AttributeLayout): nat {
    if d.mode == INDEX16 then 2 else 1
  }

  function ColorBytes(typ: nat): nat {
    if typ == RGB565 || typ == RGBA4 then 2 else if typ == RGB8 || typ == RGBA6 then 3 else 4
  }

  /** Bytes the attribute takes in a vertex record. */
  function RecordBytes(d: AttributeLayout): nat {
    if d.mode == NONE then 0
    else if d.mode == DIRECT then Span(d.componentBytes, d.components)
    else Span(IndexWidth(d), d.indexCount)
  }

  /** Type, width and count of an attribute's components; fails on the formats the builder rejects. */
  function Components(attr: nat, mode: nat, f: AttributeFormat): Result<AttributeLayout> {
    var d := EmptyAttribute.(mode := mode, typ := f.typ, fraction := f.frac);
    if mode != DIRECT && mode != INDEX8 && mode != INDEX16 then Err
    else if attr < POS then
      if mode != DIRECT then Err
      else Ok(d.(typ := U8, fraction := 0, components := 1, componentBytes := 1))
    else if IsColor(attr) then
      if f.typ > RGBA8 then Err
      else Ok(d.(components := 1, componentBytes := ColorBytes(f.typ), fraction := 0))
    else if f.typ > F32 || f.frac > 31 then Err
    else
      var n := d.(componentBytes := if f.typ <= S8 then 1 else if f.typ <= S16 then 2 else 4);
      if attr == POS then
        if f.cnt > 1 then Err else Ok(n.(components := if f.cnt == 0 then 2 else 3))
      else if attr == NRM then
        if f.cnt > 2 then Err
        else Ok(n.(components := if f.cnt == 0 then 3 else 9, indexCount := if f.cnt == 2 then 3 else 1))
      else if f.cnt > 1 then Err
      else Ok(n.(components := if f.cnt == 0 then 1 else 2))
  }

  /** Layout of one attribute placed at `offset` in the record. */
  function Attribute(state: RegisterState, format: nat, attr: nat, offset: nat): Result<AttributeLayout>
    requires format < 8 && attr < ATTRIBUTES
  {
    var mode := state.vtxDesc[attr];
    if mode == NONE then Ok(EmptyAttribute)
    else
      var d :- Components(attr, mode, state.vtxFmts[format][attr]);
      var placed := d.(offset := offset);
      if mode == DIRECT then Ok(placed)
      else Ok(placed.(arrayStride := state.arrays[attr].stride, littleEndian := state.arrays[attr].littleEndian))
  }

  /** The record with one more attribute at its end. */
  function Extend(front: VertexLayout, d: AttributeLayout): VertexLayout {
    VertexLayout(front.attributes + [d], front.stride + RecordBytes(d))
  }

  /** The layout of the first `n` attributes, each placed behind the previous ones. */
  function LayoutOf(state: RegisterState, format: nat, n: nat): Result<VertexLayout>
    requires format < 8 && n <= ATTRIBUTES
  {
    if n == 0 then Ok(VertexLayout([], 0))
    else
      var front :- LayoutOf(state, format, n - 1);
      var d :- Attribute(state, format, n - 1, front.stride);
      Ok(Extend(front, d))
  }

  function Layout(state: RegisterState, format: nat): Result<VertexLayout> {
    if format < 8 then LayoutOf(state, format, ATTRIBUTES) else Err
  }

  /** The attribute loop of the builder. */
  method Build(state: RegisterState, format: nat) returns (r: Result<VertexLayout>)
    ensures r == Layout(state, format)
  {
    if format >= 8 {
      return Err;
    }
    var out := VertexLayout([], 0);
    for attr := 0 to ATTRIBUTES
      invariant LayoutOf(state, format, attr) == Ok(out)
    {
      var d := Attribute(state, format, attr, out.stride);
      LayoutStep(state, format, attr, out);
      if d.Err? {
        LayoutFails(state, format, attr + 1, ATTRIBUTES);
        return Err;
      }
      out := Extend(out, d.value);
    }
    return Ok(out);
  }

  lemma LayoutStep(state: RegisterState, format: nat, attr: nat, front: VertexLayout)
    requires format < 8 && attr < ATTRIBUTES
    requires LayoutOf(state, format, attr) == Ok(front)
    ensures LayoutOf(state, format, attr + 1)
         == match Attribute(state, format, attr, front.stride)
            case Ok(d) => Ok(Extend(front, d))
            case Err => Err
  {
  }

  lemma {:induction false} LayoutFails(state: RegisterState, format: nat, n: nat, m: nat)
    requires format < 8 && n <= m <= ATTRIBUTES
    requires LayoutOf(state, format, n).Err?
    ensures LayoutOf(state, format, m).Err?
  {
    if n < m {
      LayoutFails(state, format, n, m - 1);
    }
  }

  /** What the rest of the front end relies on for one attribute. */
  predicate AttributeOk(attr: nat, d: AttributeLayout) {
    && d.mode <= INDEX16
    && d.typ <= RGBA8
    && d.fraction <= 31
    && d.componentBytes <= 4
    && d.components <= 9
    && d.arrayStride < 256
    && (d.mode == NONE ==> d == EmptyAttribute)
    && (d.indexCount == 1 || (d.indexCount == 3 && attr == NRM && d.components == 9))
    && (d.mode != NONE && attr < POS ==> d.mode == DIRECT && d.componentBytes == 1 && d.components == 1)
    && (d.mode != NONE && IsColor(attr) ==> d.components == 1 && d.componentBytes == ColorBytes(d.typ))
    && (d.mode != NONE && attr >= POS && !IsColor(attr) ==>
          && d.typ <= F32
          && d.componentBytes == (if d.typ <= S8 then 1 else if d.typ <= S16 then 2 else 4)
          && (attr == NRM ==> d.components == 3 || d.components == 9)
          && (attr != NRM ==> 1 <= d.components <= 3))
  }

  predicate LayoutOk(layout: VertexLayout) {
    && |layout.attributes| == ATTRIBUTES
    && layout.stride < 1024
    && forall a :: 0 <= a < ATTRIBUTES ==> AttributeInRecord(a, layout.attributes[a], layout.stride)
  }

  predicate AttributeInRecord(a: nat, d: AttributeLayout, stride: nat) {
    AttributeOk(a, d) && (d.mode != NONE ==> d.offset + RecordBytes(d) <= stride)
  }

  /** The components the formats describe are usable, wherever the attribute is placed. */
  lemma ComponentsBuilt(attr: nat, mode: nat, f: AttributeFormat, d: AttributeLayout)
    requires Components(attr, mode, f).Ok? && attr < ATTRIBUTES && mode != NONE && d.arrayStride < 256
    requires var c := Components(attr, mode, f).value;
             d == c.(offset := d.offset, arrayStride := d.arrayStride, littleEndian := d.littleEndian)
    ensures AttributeOk(attr, d) && d.mode == mode && (IsIndexed(d) ==> attr >= POS)
  {
    assert d.componentBytes in {1, 2, 3, 4} && d.components in {1, 2, 3, 9};
  }

  /** A usable attribute takes at most 36 bytes of the record. */
  lemma RecordBytesBound(attr: nat, d: AttributeLayout)
    requires AttributeOk(attr, d)
    ensures RecordBytes(d) <= 36
  {
    SpanIsProduct(d.componentBytes, d.components);
    SpanIsProduct(IndexWidth(d), d.indexCount);
    assert d.componentBytes <= 4 && d.components <= 9;
    assert d.componentBytes * d.components <= 4 * 9;
  }

  /** A single attribute is built usable, from the registers it names, and takes at most 36 bytes. */
  lemma AttributeBuilt(state: RegisterState, format: nat, attr: nat, offset: nat)
    requires format < 8 && attr < ATTRIBUTES
    requires Attribute(state, format, attr, offset).Ok?
    ensures var d := Attribute(state, format, attr, offset).value;
            && AttributeOk(attr, d)
            && d.mode == state.vtxDesc[attr]
            && (d.mode != NONE ==> d.offset == offset)
            && (IsIndexed(d) ==> d.arrayStride == state.arrays[attr].stride && attr >= POS)
            && (IsIndexed(d) ==> d.littleEndian == state.arrays[attr].littleEndian)
            && (d.mode == DIRECT ==> d.arrayStride == 0 && !d.littleEndian)
            && (d.mode != NONE ==> Readable(attr, d.mode, state.vtxFmts[format][attr]))
            && (d.mode != NONE ==> ReadAs(d, attr, state.vtxFmts[format][attr]))
            && RecordBytes(d) <= 36
  {
    var d := Attribute(state, format, attr, offset).value;
    if state.vtxDesc[attr] != NONE {
      ComponentsBuilt(attr, state.vtxDesc[attr], state.vtxFmts[format][attr], d);
    }
    hide *;
    RecordBytesBound(attr, d);
  }

  /** Attribute `b` lies behind attribute `a`. */
  predicate Behind(a: AttributeLayout, b: AttributeLayout) {
    a.mode != NONE && b.mode != NONE ==> a.offset + RecordBytes(a) <= b.offset
  }

  /** The attributes a layout places are in order and do not overlap. */
  predicate Placed(layout: VertexLayout) {
    forall a, b :: 0 <= a < b < |layout.attributes| ==> Behind(layout.attributes[a], layout.attributes[b])
  }

  /** Attributes in use whose registers are accepted: matrix indices are always in the record, colours have six formats,
      the others five types, two counts, and three for the normal. */
  predicate Readable(a: nat, mode: nat, f: AttributeFormat) {
    && (mode == 1 || (a >= 9 && (mode == 2 || mode == 3)))
    && (a == 11 || a == 12 ==> f.typ <= 5)
    && (a >= 9 && a != 11 && a != 12 ==> f.typ <= 4 && f.frac <= 31 && f.cnt <= if a == 10 then 2 else 1)
  }

  /** The attribute `a` in use is read with the components its format register stands for. */
  predicate ReadAs(d: AttributeLayout, a: nat, f: AttributeFormat) {
    && (a < 9 ==> d.components == 1 && d.componentBytes == 1 && d.typ == 0 && d.fraction == 0)
    && (a == 11 || a == 12 ==>
          d.components == 1 && d.typ == f.typ <= 5 && d.componentBytes == [2, 3, 4, 2, 3, 4][f.typ] && d.fraction == 0)
    && (a >= 9 && a != 11 && a != 12 ==>
          d.typ == f.typ <= 4 && d.componentBytes == [1, 1, 2, 2, 4][f.typ] && d.fraction == f.frac)
    && (a == 9 ==> d.components == 2 + f.cnt)
    && (a == 10 ==> d.components == if f.cnt == 0 then 3 else 9)
    && (a >= 13 ==> d.components == 1 + f.cnt)
    && d.indexCount == if a == 10 && f.cnt == 2 then 3 else 1
  }

  /** The attribute lies in the record of `stride` bytes and is the one the registers describe. */
  predicate DescribedAt(d: AttributeLayout, a: nat, state: RegisterState, format: nat, stride: nat)
    requires a < ATTRIBUTES && format < 8
  {
    && AttributeOk(a, d)
    && d.mode == state.vtxDesc[a]
    && (IsIndexed(d) ==>
          a >= POS && d.arrayStride == state.arrays[a].stride && d.littleEndian == state.arrays[a].littleEndian)
    && (d.mode == DIRECT ==> d.arrayStride == 0 && !d.littleEndian)
    && (d.mode != NONE ==> d.offset + RecordBytes(d) <= stride)
    && (d.mode != NONE ==>
          Readable(a, d.mode, state.vtxFmts[format][a]) && ReadAs(d, a, state.vtxFmts[format][a]))
  }

  predicate Described(layout: VertexLayout, state: RegisterState, format: nat)
    requires format < 8
  {
    |layout.attributes| <= ATTRIBUTES
    && forall a :: 0 <= a < |layout.attributes| ==> DescribedAt(layout.attributes[a], a, state, format, layout.stride)
  }

  /** Bytes in front of attribute `n`: the direct ones' components and the others' indices. */
  function Taken(attributes: seq<AttributeLayout>, n: nat): nat
    requires n <= |attributes|
  {
    if n == 0 then 0
    else
      var d := attributes[n - 1];
      Taken(attributes, n - 1) +
      if d.mode == 1 then d.componentBytes * d.components
      else if d.mode == 2 then d.indexCount
      else if d.mode == 3 then 2 * d.indexCount
      else 0
  }

  /** The record has no gaps. */
  predicate Packed(layout: VertexLayout) {
    && layout.stride == Taken(layout.attributes, |layout.attributes|)
    && forall a :: 0 <= a < |layout.attributes| && layout.attributes[a].mode != 0 ==>
         layout.attributes[a].offset == Taken(layout.attributes, a)
  }

  lemma {:induction false} TakenSame(a: seq<AttributeLayout>, b: seq<AttributeLayout>, n: nat)
    requires n <= |a| && n <= |b| && a[..n] == b[..n]
    ensures Taken(a, n) == Taken(b, n)
  {
    if n > 0 {
      assert a[n - 1] == a[..n][n - 1] == b[..n][n - 1] == b[n - 1];
      assert a[..n - 1] == a[..n][..n - 1] == b[..n][..n - 1] == b[..n - 1];
      TakenSame(a, b, n - 1);
    }
  }

  lemma PackedExtended(front: VertexLayout, d: AttributeLayout)
    requires Packed(front) && d.mode <= INDEX16 && (d.mode != NONE ==> d.offset == front.stride)
    ensures Packed(Extend(front, d))
  {
    var now, n := front.attributes + [d], |front.attributes|;
    SpanIsProduct(d.componentBytes, d.components);
    SpanIsProduct(IndexWidth(d), d.indexCount);
    hide Span;
    forall a | 0 <= a <= n
      ensures Taken(now, a) == Taken(front.attributes, a)
    {
      assert now[..a] == front.attributes[..a];
      TakenSame(now, front.attributes, a);
    }
    assert now[n] == d;
  }

  /** Every built layout is usable: its attributes lie in the record, in attribute order, without overlap. */
  lemma {:induction false} BuiltLayout(state: RegisterState, format: nat, n: nat)
    requires format < 8 && n <= ATTRIBUTES
    requires LayoutOf(state, format, n).Ok?
    ensures var layout := LayoutOf(state, format, n).value;
            |layout.attributes| == n && layout.stride <= 36 * n && Described(layout, state, format) && Placed(layout)
            && Packed(layout)
  {
    if n > 0 {
      BuiltLayout(state, format, n - 1);
      var front := LayoutOf(state, format, n - 1).value;
      AttributeBuilt(state, format, n - 1, front.stride);
      var d := Attribute(state, format, n - 1, front.stride).value;
      Extended(front, d, state, format);
      PackedExtended(front, d);
    }
  }

  lemma Extended(front: VertexLayout, d: AttributeLayout, state: RegisterState, format: nat)
    requires |front.attributes| < ATTRIBUTES && format < 8
    requires Described(front, state, format) && Placed(front)
    requires DescribedAt(d, |front.attributes|, state, format, front.stride + RecordBytes(d))
    requires d.mode != NONE ==> d.offset == front.stride
    ensures var layout := VertexLayout(front.attributes + [d], front.stride + RecordBytes(d));
            Described(layout, state, format) && Placed(layout)
  {
    var layout := VertexLayout(front.attributes + [d], front.stride + RecordBytes(d));
    var n := |front.attributes|;
    forall a | 0 <= a < n + 1
      ensures DescribedAt(layout.attributes[a], a, state, format, layout.stride)
    {
      if a < n {
        assert layout.attributes[a] == front.attributes[a];
        assert DescribedAt(front.attributes[a], a, state, format, front.stride);
      }
    }
    forall a, b | 0 <= a < b < n + 1
      ensures Behind(layout.attributes[a], layout.attributes[b])
    {
      assert layout.attributes[a] == front.attributes[a];
      if b < n {
        assert layout.attributes[b] == front.attributes[b];
      } else {
        assert DescribedAt(front.attributes[a], a, state, format, front.stride);
      }
    }
  }

  lemma LayoutIsOk(state: RegisterState, format: nat)
    requires Layout(state, format).Ok?
    ensures var layout := Layout(state, format).value;
            LayoutOk(layout) && Described(layout, state, format) && Placed(layout) && Packed(layout)
  {
    BuiltLayout(state, format, ATTRIBUTES);
    var layout := Layout(state, format).value;
    forall a | 0 <= a < ATTRIBUTES
      ensures AttributeInRecord(a, layout.attributes[a], layout.stride)
    {
      assert DescribedAt(layout.attributes[a], a, state, format, layout.stride);
    }
  }

  /** A vertex format is accepted if and only if every attribute in use is readable. */
  lemma {:induction false} LayoutAccepted(state: RegisterState, format: nat, n: nat)
    requires format < 8 && n <= ATTRIBUTES
    ensures LayoutOf(state, format, n).Ok?
        <==> forall a :: 0 <= a < n && state.vtxDesc[a] != 0 ==> Readable(a, state.vtxDesc[a], state.vtxFmts[format][a])
  {
    if n > 0 {
      LayoutAccepted(state, format, n - 1);
    }
  }
}
