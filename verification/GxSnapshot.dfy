/** Capturing a draw: records and the referenced interval of every indexed array
    (ps5/gpu/gx_geometry.cpp, `snapshot_records` and `decode_gx_vertex`). */
module GxSnapshot {
  import opened Bytes
  import opened GxVertexLayout
  import opened GxPrimitives

  /** The copied interval of one source array. */
  datatype ArraySnapshot = ArraySnapshot(sourceOffset: nat, bytes: seq<byte>)

  const NoArray := ArraySnapshot(0, [])

  datatype Geometry = Geometry(
    layout: VertexLayout, records: seq<byte>, arrays: seq<ArraySnapshot>, indices: seq<nat>,
    primitive: Primitive, count: nat, currentPnMtx: nat)

  // ----- Records and their indices -----

  /** Bytes of vertex `v`. */
  function Record(records: seq<byte>, stride: nat, n: nat, v: nat): (r: seq<byte>)
    requires v < n && |records| == Span(stride, n)
    ensures |r| == stride
  {
    SpanInside(v, n, stride);
    records[Span(stride, v)..Span(stride, v) + stride]
  }

  /** The big-endian array index stored at `at`. */
  function IndexAt(data: seq<byte>, at: nat, width: nat): nat
    requires 1 <= width <= 2 && at + width <= |data|
  {
    if width == 2 then At(data, at) * 256 + At(data, at + 1) else At(data, at)
  }

  /** The attribute's indices lie in a record of `stride` bytes. */
  predicate IndicesFit(d: AttributeLayout, stride: nat) {
    IsIndexed(d) && d.indexCount in {1, 3} && d.offset + Span(IndexWidth(d), d.indexCount) <= stride
  }

  /** Smallest and largest array index. */
  datatype Hull = Hull(lo: nat, hi: nat)

  function Min(a: nat, b: nat): nat {
    if b < a then b else a
  }

  function Max(a: nat, b: nat): nat {
    if b > a then b else a
  }

  function Widen(h: Hull, index: nat): Hull {
    Hull(Min(h.lo, index), Max(h.hi, index))
  }

  /** Index `group` of one record. */
  function RecordIndex(d: AttributeLayout, record: seq<byte>, group: nat): nat
    requires IndicesFit(d, |record|) && group < d.indexCount
  {
    SpanInside(group, d.indexCount, IndexWidth(d));
    IndexAt(record, d.offset + Span(IndexWidth(d), group), IndexWidth(d))
  }

  /** The hull after the first `groups` indices of one more record. */
  function WidenRecord(h: Hull, d: AttributeLayout, record: seq<byte>, groups: nat): Hull
    requires IndicesFit(d, |record|) && groups <= d.indexCount
  {
    if groups == 0 then h
    else Widen(WidenRecord(h, d, record, groups - 1), RecordIndex(d, record, groups - 1))
  }

  const EmptyHull := Hull(0xFFFF_FFFF, 0)

  /** Hull of the indices in the first `m` of `n` records. */
  function HullOf(d: AttributeLayout, records: seq<byte>, stride: nat, n: nat, m: nat): Hull
    requires IndicesFit(d, stride) && |records| == Span(stride, n) && m <= n
  {
    if m == 0 then EmptyHull
    else WidenRecord(HullOf(d, records, stride, n, m - 1), d, Record(records, stride, n, m - 1), d.indexCount)
  }

  lemma HullStep(d: AttributeLayout, records: seq<byte>, stride: nat, n: nat, m: nat, next: nat)
    requires IndicesFit(d, stride) && |records| == Span(stride, n) && m < n && next == m + 1
    ensures HullOf(d, records, stride, n, next)
         == WidenRecord(HullOf(d, records, stride, n, m), d, Record(records, stride, n, m), d.indexCount)
  {
    hide WidenRecord;
  }

  /** The hull covers every index. */
  lemma {:induction false} HullCovers(d: AttributeLayout, records: seq<byte>, stride: nat, n: nat, m: nat, v: nat,
                                      group: nat)
    requires IndicesFit(d, stride) && |records| == Span(stride, n) && v < m <= n && group < d.indexCount
    ensures var h := HullOf(d, records, stride, n, m);
            h.lo <= RecordIndex(d, Record(records, stride, n, v), group) <= h.hi
  {
    if v < m - 1 {
      HullCovers(d, records, stride, n, m - 1, v, group);
    }
    WidenCovers(HullOf(d, records, stride, n, m - 1), d, Record(records, stride, n, m - 1), d.indexCount);
  }

  lemma {:induction false} WidenCovers(h: Hull, d: AttributeLayout, record: seq<byte>, groups: nat)
    requires IndicesFit(d, |record|) && groups <= d.indexCount
    ensures var w := WidenRecord(h, d, record, groups);
            && w.lo <= h.lo && h.hi <= w.hi
            && forall g :: 0 <= g < groups ==> w.lo <= RecordIndex(d, record, g) <= w.hi
  {
    if groups > 0 {
      WidenCovers(h, d, record, groups - 1);
    }
  }

  ghost predicate HasIndex(d: AttributeLayout, record: seq<byte>, x: nat)
    requires IndicesFit(d, |record|)
  {
    exists g :: 0 <= g < d.indexCount && RecordIndex(d, record, g) == x
  }

  ghost predicate Occurs(d: AttributeLayout, records: seq<byte>, stride: nat, n: nat, m: nat, x: nat)
    requires IndicesFit(d, stride) && |records| == Span(stride, n) && m <= n
  {
    exists v :: 0 <= v < m && HasIndex(d, Record(records, stride, n, v), x)
  }

  lemma IndexSmall(d: AttributeLayout, record: seq<byte>, group: nat)
    requires IndicesFit(d, |record|) && group < d.indexCount
    ensures RecordIndex(d, record, group) < 0x1_0000
  {
    SpanInside(group, d.indexCount, IndexWidth(d));
    var at := d.offset + Span(IndexWidth(d), group);
    var first: byte := record[at];
    if IndexWidth(d) == 2 {
      var second: byte := record[at + 1];
    }
  }

  lemma {:induction false} WidenReached(h: Hull, d: AttributeLayout, record: seq<byte>, groups: nat)
    requires IndicesFit(d, |record|) && groups <= d.indexCount
    ensures var w := WidenRecord(h, d, record, groups);
            && (w.lo == h.lo || HasIndex(d, record, w.lo)) && (w.hi == h.hi || HasIndex(d, record, w.hi))
            && (h == EmptyHull && groups > 0 ==> HasIndex(d, record, w.lo) && HasIndex(d, record, w.hi))
  {
    if groups > 0 {
      WidenReached(h, d, record, groups - 1);
      var x := RecordIndex(d, record, groups - 1);
      IndexSmall(d, record, groups - 1);
      hide RecordIndex;
      assert HasIndex(d, record, x);
    }
  }

  /** The hull is no larger than the indices: its ends are among them. */
  lemma {:induction false} HullReached(d: AttributeLayout, records: seq<byte>, stride: nat, n: nat, m: nat)
    requires IndicesFit(d, stride) && |records| == Span(stride, n) && 0 < m <= n
    ensures var h := HullOf(d, records, stride, n, m);
            Occurs(d, records, stride, n, m, h.lo) && Occurs(d, records, stride, n, m, h.hi)
  {
    hide HasIndex, Record, WidenRecord;
    WidenReached(HullOf(d, records, stride, n, m - 1), d, Record(records, stride, n, m - 1), d.indexCount);
    if m > 1 {
      HullReached(d, records, stride, n, m - 1);
    }
  }

  // ----- Trimming one array -----

  function ElementBytes(d: AttributeLayout): nat {
    Span(d.componentBytes, if d.indexCount == 3 then 3 else d.components)
  }

  /** Copies the bytes from the first byte of element `lo` to the last byte of element `hi`. */
  function Trim(d: AttributeLayout, a: AttributeArray, h: Hull): Result<ArraySnapshot> {
    var begin := Span(d.arrayStride, h.lo);
    var end := Span(d.arrayStride, h.hi) + ElementBytes(d);
    if a.memory.None? || end > a.size || begin > end || end > |a.memory.value| then Err
    else Ok(ArraySnapshot(begin, a.memory.value[begin..end]))
  }

  /** What is captured for one attribute of `n` records. */
  function TrimAttribute(attr: nat, d: AttributeLayout, a: AttributeArray, stride: nat, n: nat, records: seq<byte>)
    : Result<ArraySnapshot>
    requires AttributeInRecord(attr, d, stride) && |records| == Span(stride, n)
  {
    if attr < POS || n == 0 || !IsIndexed(d) then Ok(NoArray)
    else Trim(d, a, HullOf(d, records, stride, n, n))
  }

  function TrimOf(layout: VertexLayout, state: RegisterState, attr: nat, n: nat,
                  records: seq<byte>): Result<ArraySnapshot>
    requires LayoutOk(layout) && attr < ATTRIBUTES && |records| == Span(layout.stride, n)
  {
    assert AttributeInRecord(attr, layout.attributes[attr], layout.stride);
    TrimAttribute(attr, layout.attributes[attr], state.arrays[attr], layout.stride, n, records)
  }

  predicate AllTrimmed(layout: VertexLayout, state: RegisterState, n: nat, records: seq<byte>)
    requires LayoutOk(layout) && |records| == Span(layout.stride, n)
  {
    forall attr :: 0 <= attr < ATTRIBUTES ==> TrimOf(layout, state, attr, n, records).Ok?
  }

  /** The captured draw, without indices. */
  function SnapshotOf(layout: VertexLayout, state: RegisterState, n: nat, records: seq<byte>): Result<Geometry>
    requires LayoutOk(layout)
  {
    if |records| != Span(layout.stride, n) then Err
    else if n > 0 && state.vtxDesc[POS] == NONE then Err
    else if !AllTrimmed(layout, state, n, records) then Err
    else
      Ok(Geometry(layout, records,
        seq(ATTRIBUTES, attr requires 0 <= attr < ATTRIBUTES => TrimOf(layout, state, attr, n, records).value),
        [], Triangles, n, state.currentPnMtx))
  }

  /** Two-byte indices, one per vertex. */
  method ScanWide(d: AttributeLayout, records: seq<byte>, stride: nat, n: nat) returns (h: Hull)
    requires IndicesFit(d, stride) && |records| == Span(stride, n) && d.mode == INDEX16 && d.indexCount == 1
    ensures h == HullOf(d, records, stride, n, n)
  {
    var lo, hi: nat, at: nat := 0xFFFF_FFFF, 0, 0;
    for v := 0 to n
      invariant at == Span(stride, v) && Hull(lo, hi) == HullOf(d, records, stride, n, v)
    {
      SpanInside(v, n, stride);
      var index := At(records, at + d.offset) * 256 + At(records, at + d.offset + 1);
      assert WidenRecord(Hull(lo, hi), d, Record(records, stride, n, v), 0) == Hull(lo, hi);
      lo, hi := Min(lo, index), Max(hi, index);
      at := at + stride;
    }
    return Hull(lo, hi);
  }

  /** One-byte indices, one per vertex. */
  method ScanNarrow(d: AttributeLayout, records: seq<byte>, stride: nat, n: nat) returns (h: Hull)
    requires IndicesFit(d, stride) && |records| == Span(stride, n) && d.mode == INDEX8 && d.indexCount == 1
    ensures h == HullOf(d, records, stride, n, n)
  {
    var lo, hi: nat, at: nat := 0xFFFF_FFFF, 0, 0;
    for v := 0 to n
      invariant at == Span(stride, v) && Hull(lo, hi) == HullOf(d, records, stride, n, v)
    {
      SpanInside(v, n, stride);
      var index := At(records, at + d.offset);
      assert WidenRecord(Hull(lo, hi), d, Record(records, stride, n, v), 0) == Hull(lo, hi);
      lo, hi := Min(lo, index), Max(hi, index);
      at := at + stride;
    }
    return Hull(lo, hi);
  }

  /** An index read through the whole stream is the index of its record. */
  lemma RecordIndexAt(d: AttributeLayout, records: seq<byte>, stride: nat, n: nat, v: nat, group: nat, from: nat)
    requires IndicesFit(d, stride) && |records| == Span(stride, n) && v < n && group < d.indexCount
    requires from == Span(stride, v) + d.offset + Span(IndexWidth(d), group)
    ensures from + IndexWidth(d) <= |records|
    ensures IndexAt(records, from, IndexWidth(d)) == RecordIndex(d, Record(records, stride, n, v), group)
  {
    SpanInside(v, n, stride);
    SpanInside(group, d.indexCount, IndexWidth(d));
    var record := Record(records, stride, n, v);
    var within := d.offset + Span(IndexWidth(d), group);
    assert record[within] == records[from];
    assert IndexWidth(d) == 2 ==> record[within + 1] == records[from + 1];
  }

  /** The group loop: widens the hull by the indices of the record at `at`. */
  method ScanRecord(d: AttributeLayout, records: seq<byte>, stride: nat, n: nat, ghost v: nat, at: nat, start: Hull)
    returns (h: Hull)
    requires IndicesFit(d, stride) && |records| == Span(stride, n) && v < n && at == Span(stride, v)
    ensures h == WidenRecord(start, d, Record(records, stride, n, v), d.indexCount)
  {
    h := start;
    for group := 0 to d.indexCount
      invariant h == WidenRecord(start, d, Record(records, stride, n, v), group)
    {
      SpanIsProduct(IndexWidth(d), group);
      var from := at + d.offset + group * IndexWidth(d);
      RecordIndexAt(d, records, stride, n, v, group, from);
      var index := IndexAt(records, from, IndexWidth(d));
      h := Hull(Min(h.lo, index), Max(h.hi, index));
    }
  }

  /** Any width, one or three indices per vertex. */
  method ScanGroups(d: AttributeLayout, records: seq<byte>, stride: nat, n: nat) returns (h: Hull)
    requires IndicesFit(d, stride) && |records| == Span(stride, n)
    ensures h == HullOf(d, records, stride, n, n)
  {
    h := EmptyHull;
    var at: nat := 0;
    for v := 0 to n
      invariant at == Span(stride, v) && h == HullOf(d, records, stride, n, v)
    {
      SpanInside(v, n, stride);
      h := ScanRecord(d, records, stride, n, v, at, h);
      at := at + stride;
    }
  }

  /** `snapshot_records`: validates the draw and copies every referenced array interval. */
  method SnapshotRecords(layout: VertexLayout, state: RegisterState, n: nat, records: seq<byte>)
    returns (r: Result<Geometry>)
    requires LayoutOk(layout)
    ensures r == SnapshotOf(layout, state, n, records)
  {
    SpanIsProduct(layout.stride, n);
    if |records| != n * layout.stride || (n > 0 && state.vtxDesc[POS] == NONE) {
      return Err;
    }
    var arrays: seq<ArraySnapshot> := seq(POS, i => NoArray);
    for attr := POS to ATTRIBUTES
      invariant |arrays| == attr
      invariant forall a :: 0 <= a < attr ==> TrimOf(layout, state, a, n, records) == Ok(arrays[a])
    {
      var d := layout.attributes[attr];
      assert AttributeInRecord(attr, d, layout.stride);
      if n == 0 || !IsIndexed(d) {
        arrays := arrays + [NoArray];
      } else {
        var h: Hull;
        if d.mode == INDEX16 && d.indexCount == 1 {
          h := ScanWide(d, records, layout.stride, n);
        } else if d.mode == INDEX8 && d.indexCount == 1 {
          h := ScanNarrow(d, records, layout.stride, n);
        } else {
          h := ScanGroups(d, records, layout.stride, n);
        }
        var trimmed := Trim(d, state.arrays[attr], h);
        assert trimmed == TrimOf(layout, state, attr, n, records);
        if trimmed.Err? {
          return Err;
        }
        arrays := arrays + [trimmed.value];
      }
    }
    r := Ok(Geometry(layout, records, arrays, [], Triangles, n, state.currentPnMtx));
    assert r.value.arrays == SnapshotOf(layout, state, n, records).value.arrays;
  }

  // ----- Reading vertices -----

  /** The raw value of one attribute group: what is selected before any float arithmetic. */
  datatype Raw =
    | Absent
    | Matrix(value: nat)
    | Numeric(typ: nat, fraction: nat, components: seq<nat>)
    | Colour(typ: nat, words: seq<nat>)

  function Load(data: seq<byte>, at: int, width: nat, little: bool): Result<nat> {
    var s :- Slice(data, at, width);
    Ok(Number(s, little))
  }

  /** Number of components read for one group. */
  function GroupComponents(attr: nat, d: AttributeLayout): nat {
    if attr == NRM then 3 else d.components
  }

  /** Colour formats with one byte a channel. */
  predicate ByteColor(typ: nat) {
    typ == RGB8 || typ == RGBX8 || typ == RGBA8
  }

  /** Bytes read for one group; the fourth byte of RGBX8 is never looked at. */
  function ReadBytes(attr: nat, d: AttributeLayout): nat {
    if IsColor(attr) then
      if ByteColor(d.typ) then (if d.typ == RGBA8 then 4 else 3) else d.componentBytes
    else Span(d.componentBytes, GroupComponents(attr, d))
  }

  /** The `n` numbers of `width` bytes stored in `window`. */
  function Numbers(window: seq<byte>, n: nat, width: nat, little: bool): (r: seq<nat>)
    requires |window| == Span(width, n)
    ensures |r| == n
    decreases n
  {
    if n == 0 then []
    else Numbers(window[..Span(width, n - 1)], n - 1, width, little) + [Number(window[Span(width, n - 1)..], little)]
  }

  /** Byte-wise colour formats are read one byte at a time; the others as one number. */
  function RawFrom(attr: nat, d: AttributeLayout, window: seq<byte>, little: bool): Raw
    requires |window| == ReadBytes(attr, d)
  {
    if IsColor(attr) then
      Colour(d.typ, if ByteColor(d.typ) then seq(|window|, i requires 0 <= i < |window| => At(window, i))
             else [Number(window, little)])
    else Numeric(d.typ, d.fraction, Numbers(window, GroupComponents(attr, d), d.componentBytes, little))
  }

  function LoadRaw(attr: nat, d: AttributeLayout, data: seq<byte>, at: int, little: bool): Result<Raw> {
    var window :- Slice(data, at, ReadBytes(attr, d));
    Ok(RawFrom(attr, d, window, little))
  }

  /** Normals with nine components have three groups; every other attribute repeats its only one. */
  function GroupOf(attr: nat, d: AttributeLayout, group: nat): nat {
    if attr == NRM && d.components == 9 then group else 0
  }

  /** Where the group's indices and offsets start, relative to the attribute. */
  function GroupIndexOffset(d: AttributeLayout, g: nat): nat {
    if d.indexCount == 3 then Span(IndexWidth(d), g) else 0
  }

  function GroupByteOffset(d: AttributeLayout, g: nat): nat {
    if d.indexCount == 3 then 0 else TripleOffset(d, g)
  }

  /** Bytes of the `g` triples of components before a group. */
  function TripleOffset(d: AttributeLayout, g: nat): nat {
    Span(d.componentBytes, 3 * g)
  }

  /** One attribute group of the vertex whose record starts at `base`; indexed attributes read `source`, whose
      first byte is byte `sourceOffset` of the array. */
  function Gather(attr: nat, d: AttributeLayout, data: seq<byte>, base: nat, group: nat, source: seq<byte>,
                  sourceOffset: nat)
    : Result<Raw>
  {
    if d.mode == NONE then Ok(Absent)
    else if attr < POS then
      var value :- Load(data, base + d.offset, 1, false);
      Ok(Matrix(value))
    else
      var g := GroupOf(attr, d, group);
      if IsIndexed(d) then
        var index :- Load(data, base + d.offset + GroupIndexOffset(d, g), IndexWidth(d), false);
        LoadRaw(attr, d, source, Span(d.arrayStride, index) - sourceOffset + GroupByteOffset(d, g), d.littleEndian)
      else
        LoadRaw(attr, d, data, base + d.offset + TripleOffset(d, g), false)
  }

  /** A vertex: the position matrix in force and every attribute group. */
  datatype Vertex = Vertex(currentPnMtx: nat, attributes: seq<seq<Raw>>)

  /** The first `k` groups of one attribute. */
  function GatherGroups(attr: nat, d: AttributeLayout, data: seq<byte>, base: nat, s: ArraySnapshot,
                        k: nat): Result<seq<Raw>> {
    if k == 0 then Ok([])
    else
      var front :- GatherGroups(attr, d, data, base, s, k - 1);
      var last :- Gather(attr, d, data, base, k - 1, s.bytes, s.sourceOffset);
      Ok(front + [last])
  }

  /** The first `n` attributes of a vertex, three groups each. */
  function Attributes(layout: VertexLayout, data: seq<byte>, base: nat, sources: seq<ArraySnapshot>, n: nat)
    : Result<seq<seq<Raw>>>
    requires n <= |layout.attributes| && n <= |sources|
  {
    if n == 0 then Ok([])
    else
      var front :- Attributes(layout, data, base, sources, n - 1);
      var groups :- GatherGroups(n - 1, layout.attributes[n - 1], data, base, sources[n - 1], 3);
      Ok(front + [groups])
  }

  predicate GeometryShaped(g: Geometry) {
    |g.layout.attributes| == ATTRIBUTES && |g.arrays| == ATTRIBUTES
  }

  /** `decode_gx_vertex` up to the float conversion: a vertex of a captured draw. */
  function Decode(g: Geometry, v: nat): Result<Vertex>
    requires GeometryShaped(g)
  {
    if v >= g.count then Err
    else
      var attributes :- Attributes(g.layout, g.records, Span(g.layout.stride, v), g.arrays, ATTRIBUTES);
      Ok(Vertex(g.currentPnMtx, attributes))
  }

  /** The group loop of the decoder. */
  method DecodeGroups(attr: nat, d: AttributeLayout, data: seq<byte>, base: nat,
                      s: ArraySnapshot) returns (r: Result<seq<Raw>>)
    ensures r == GatherGroups(attr, d, data, base, s, 3)
  {
    var groups: seq<Raw> := [];
    for group := 0 to 3
      invariant GatherGroups(attr, d, data, base, s, group) == Ok(groups)
    {
      var raw := Gather(attr, d, data, base, group, s.bytes, s.sourceOffset);
      GroupsStep(attr, d, data, base, s, group, groups, raw);
      if raw.Err? {
        GroupsFail(attr, d, data, base, s, group + 1, 3);
        return Err;
      }
      groups := groups + [raw.value];
    }
    return Ok(groups);
  }

  lemma GroupsStep(attr: nat, d: AttributeLayout, data: seq<byte>, base: nat, s: ArraySnapshot, k: nat, front: seq<Raw>,
                   raw: Result<Raw>)
    requires GatherGroups(attr, d, data, base, s, k) == Ok(front)
    requires Gather(attr, d, data, base, k, s.bytes, s.sourceOffset) == raw
    ensures GatherGroups(attr, d, data, base, s, k + 1) == if raw.Ok? then Ok(front + [raw.value]) else Err
  {
    hide Gather;
  }

  lemma {:induction false} GroupsFail(attr: nat, d: AttributeLayout, data: seq<byte>, base: nat, s: ArraySnapshot,
                                      k: nat, m: nat)
    requires k <= m && GatherGroups(attr, d, data, base, s, k).Err?
    ensures GatherGroups(attr, d, data, base, s, m).Err?
  {
    hide Gather;
    if k < m {
      GroupsFail(attr, d, data, base, s, k, m - 1);
    }
  }

  lemma AttributesStep(layout: VertexLayout, data: seq<byte>, base: nat, sources: seq<ArraySnapshot>, n: nat,
                       front: seq<seq<Raw>>)
    requires n < |layout.attributes| && n < |sources|
    requires Attributes(layout, data, base, sources, n) == Ok(front)
    ensures Attributes(layout, data, base, sources, n + 1)
         == match GatherGroups(n, layout.attributes[n], data, base, sources[n], 3)
            case Ok(groups) => Ok(front + [groups])
            case Err => Err
  {
    hide GatherGroups;
  }

  /** The attribute loop of the decoder. */
  method DecodeVertex(g: Geometry, v: nat) returns (r: Result<Vertex>)
    requires GeometryShaped(g)
    ensures r == Decode(g, v)
  {
    if v >= g.count {
      return Err;
    }
    SpanIsProduct(g.layout.stride, v);
    var base: nat := v * g.layout.stride;
    var attributes: seq<seq<Raw>> := [];
    for attr := 0 to ATTRIBUTES
      invariant Attributes(g.layout, g.records, base, g.arrays, attr) == Ok(attributes)
    {
      var groups := DecodeGroups(attr, g.layout.attributes[attr], g.records, base, g.arrays[attr]);
      AttributesStep(g.layout, g.records, base, g.arrays, attr, attributes);
      if groups.Err? {
        AttributesFail(g.layout, g.records, base, g.arrays, attr + 1, ATTRIBUTES);
        return Err;
      }
      attributes := attributes + [groups.value];
    }
    return Ok(Vertex(g.currentPnMtx, attributes));
  }

  lemma {:induction false} AttributesFail(layout: VertexLayout, data: seq<byte>, base: nat, sources: seq<ArraySnapshot>,
                                          n: nat, m: nat)
    requires n <= m <= |layout.attributes| && m <= |sources|
    requires Attributes(layout, data, base, sources, n).Err?
    ensures Attributes(layout, data, base, sources, m).Err?
  {
    hide GatherGroups;
    if n < m {
      AttributesFail(layout, data, base, sources, n, m - 1);
    }
  }

  // ----- Meaning of a vertex record, independent of any capture -----

  /** The full memory of every array the registers name. */
  function FullArrays(state: RegisterState): (r: seq<ArraySnapshot>)
    ensures |r| == ATTRIBUTES
  {
    seq(ATTRIBUTES, a requires 0 <= a < ATTRIBUTES => FullArray(state.arrays[a]))
  }

  /** What one vertex record means under the registers: every indexed attribute read from its full array. */
  function Meaning(layout: VertexLayout, state: RegisterState, record: seq<byte>): Result<Vertex>
    requires |layout.attributes| == ATTRIBUTES
  {
    var attributes :- Attributes(layout, record, 0, FullArrays(state), ATTRIBUTES);
    Ok(Vertex(state.currentPnMtx, attributes))
  }

  // ----- Trimming keeps every byte a vertex reads -----

  lemma SubSlice(data: seq<byte>, at: int, width: nat, from: nat, part: nat)
    requires Slice(data, at, width).Ok? && from + part <= width
    ensures Slice(data, at + from, part) == Ok(Slice(data, at, width).value[from..from + part])
  {
    var inner, outer := data[at..at + width][from..from + part], data[at + from..at + from + part];
    forall i | 0 <= i < part
      ensures inner[i] == outer[i]
    {
      assert inner[i] == data[at..at + width][from + i];
    }
    assert inner == outer;
  }

  /** The window of a group inside its element or its direct data. */
  lemma GroupWindow(attr: nat, d: AttributeLayout, group: nat)
    requires POS <= attr < ATTRIBUTES && AttributeOk(attr, d) && d.mode != NONE && group < 3
    ensures var g := GroupOf(attr, d, group);
            && (IsIndexed(d) ==> GroupByteOffset(d, g) + ReadBytes(attr, d) <= ElementBytes(d))
            && GroupIndexOffset(d, g) == Span(IndexWidth(d), if d.indexCount == 3 then g else 0)
            && (d.indexCount == 3 ==> g < 3)
            && (d.mode == DIRECT ==> TripleOffset(d, g) + ReadBytes(attr, d) <= RecordBytes(d))
  {
    var g := GroupOf(attr, d, group);
    if IsColor(attr) {
      SpanIsProduct(d.componentBytes, 1);
      SpanIsProduct(d.componentBytes, 0);
    } else {
      var n := GroupComponents(attr, d);
      SpanOfSum(d.componentBytes, 3 * g, n);
      SpanGrows(d.componentBytes, 3 * g + n, d.components);
    }
  }

  /** An indexed group once its index and its bytes are known. */
  lemma GatherIndexed(attr: nat, d: AttributeLayout, data: seq<byte>, base: nat, group: nat, source: seq<byte>,
                      sourceOffset: nat,
                      from: int, index: nat, at: int, w: seq<byte>)
    requires POS <= attr && IsIndexed(d)
    requires from == base + d.offset + GroupIndexOffset(d, GroupOf(attr, d, group))
    requires Load(data, from, IndexWidth(d), false) == Ok(index)
    requires at == Span(d.arrayStride, index) - sourceOffset + GroupByteOffset(d, GroupOf(attr, d, group))
    requires Slice(source, at, ReadBytes(attr, d)) == Ok(w)
    ensures Gather(attr, d, data, base, group, source, sourceOffset) == Ok(RawFrom(attr, d, w, d.littleEndian))
  {
  }

  /** A direct group once its bytes are known. */
  lemma GatherDirect(attr: nat, d: AttributeLayout, data: seq<byte>, base: nat, group: nat, source: seq<byte>,
                     sourceOffset: nat,
                     at: int, w: seq<byte>)
    requires POS <= attr && d.mode == DIRECT
    requires at == base + d.offset + TripleOffset(d, GroupOf(attr, d, group))
    requires Slice(data, at, ReadBytes(attr, d)) == Ok(w)
    ensures Gather(attr, d, data, base, group, source, sourceOffset) == Ok(RawFrom(attr, d, w, false))
  {
  }

  /** The bytes of a record, read through the stream or alone. */
  lemma RecordSlice(records: seq<byte>, stride: nat, n: nat, v: nat, from: nat, width: nat,
                    at: int) returns (w: seq<byte>)
    requires |records| == Span(stride, n) && v < n && from + width <= stride
    requires at == Span(stride, v) + from
    ensures |w| == width
    ensures Slice(records, at, width) == Ok(w)
    ensures Slice(Record(records, stride, n, v), from, width) == Ok(w)
  {
    SpanInside(v, n, stride);
    w := Record(records, stride, n, v)[from..from + width];
    SubSlice(records, Span(stride, v), stride, from, width);
  }

  /** Any element between the trimmed bounds is whole in the copy, with the bytes of the source array. */
  lemma TrimmedWindow(d: AttributeLayout, a: AttributeArray, h: Hull, s: ArraySnapshot, index: nat, from: nat,
                      width: nat, at: int)
    returns (w: seq<byte>)
    requires Trim(d, a, h) == Ok(s) && h.lo <= index <= h.hi && from + width <= ElementBytes(d)
    requires at == Span(d.arrayStride, index) + from
    ensures |w| == width
    ensures Slice(s.bytes, at - s.sourceOffset, width) == Ok(w)
    ensures Slice(a.memory.value, at, width) == Ok(w)
  {
    SpanGrows(d.arrayStride, h.lo, index);
    SpanGrows(d.arrayStride, index, h.hi);
    var end := Span(d.arrayStride, h.hi) + ElementBytes(d);
    w := a.memory.value[at..at + width];
    SubSlice(a.memory.value, s.sourceOffset, end - s.sourceOffset, at - s.sourceOffset, width);
  }

  /** The index of a group, read through the stream or from the record alone. */
  lemma GroupIndex(attr: nat, d: AttributeLayout, stride: nat, n: nat, records: seq<byte>, v: nat, group: nat,
                   from: nat, at: int)
    returns (k: nat)
    requires AttributeInRecord(attr, d, stride) && POS <= attr < ATTRIBUTES && group < 3 && IsIndexed(d)
    requires |records| == Span(stride, n) && v < n
    requires from == d.offset + GroupIndexOffset(d, GroupOf(attr, d, group)) && at == Span(stride, v) + from
    ensures k < d.indexCount && IndicesFit(d, stride)
    ensures Load(records, at, IndexWidth(d), false) == Ok(RecordIndex(d, Record(records, stride, n, v), k))
    ensures Load(Record(records, stride, n, v), from, IndexWidth(d), false)
        == Ok(RecordIndex(d, Record(records, stride, n, v), k))
  {
    GroupWindow(attr, d, group);
    k := if d.indexCount == 3 then GroupOf(attr, d, group) else 0;
    var w := IndexWidth(d);
    SpanInside(k, d.indexCount, w);
    var bytes := RecordSlice(records, stride, n, v, from, w, at);
    IndexIsBig(d, Record(records, stride, n, v), k, from);
  }

  lemma ElementWindow(attr: nat, d: AttributeLayout, stride: nat, group: nat)
    requires AttributeInRecord(attr, d, stride) && POS <= attr < ATTRIBUTES && group < 3 && IsIndexed(d)
    ensures IndicesFit(d, stride) && GroupByteOffset(d, GroupOf(attr, d, group)) + ReadBytes(attr, d) <= ElementBytes(d)
  {
    GroupWindow(attr, d, group);
  }

  lemma TrimLive(d: AttributeLayout, a: AttributeArray, h: Hull, s: ArraySnapshot)
    requires Trim(d, a, h) == Ok(s)
    ensures a.memory.Some?
  {
  }

  /** An indexed group: the trimmed copy gives what the full array holds. */
  lemma IndexedSound(attr: nat, d: AttributeLayout, a: AttributeArray, stride: nat, n: nat, records: seq<byte>, v: nat,
                     group: nat, s: ArraySnapshot)
    returns (raw: Raw)
    requires AttributeInRecord(attr, d, stride) && POS <= attr < ATTRIBUTES && group < 3 && IsIndexed(d)
    requires |records| == Span(stride, n) && v < n
    requires Trim(d, a, HullOf(d, records, stride, n, n)) == Ok(s)
    ensures Gather(attr, d, records, Span(stride, v), group, s.bytes, s.sourceOffset) == Ok(raw)
    ensures Gather(attr, d, Record(records, stride, n, v), 0, group, a.memory.value, 0) == Ok(raw)
  {
    hide *;
    ElementWindow(attr, d, stride, group);
    TrimLive(d, a, HullOf(d, records, stride, n, n), s);
    var record := Record(records, stride, n, v);
    var from := d.offset + GroupIndexOffset(d, GroupOf(attr, d, group));
    var k := GroupIndex(attr, d, stride, n, records, v, group, from, Span(stride, v) + from);
    var index := RecordIndex(d, record, k);
    var h := HullOf(d, records, stride, n, n);
    HullCovers(d, records, stride, n, n, v, k);
    var at := Span(d.arrayStride, index) + GroupByteOffset(d, GroupOf(attr, d, group));
    var w := TrimmedWindow(d, a, h, s, index, GroupByteOffset(d, GroupOf(attr, d, group)), ReadBytes(attr, d), at);
    raw := RawFrom(attr, d, w, d.littleEndian);
    GatherIndexed(attr, d, records, Span(stride, v), group, s.bytes, s.sourceOffset, Span(stride, v) + from, index,
                  at - s.sourceOffset, w);
    GatherIndexed(attr, d, record, 0, group, a.memory.value, 0, from, index, at, w);
  }

  /** A group stored in the record itself. */
  lemma DirectSound(attr: nat, d: AttributeLayout, stride: nat, n: nat, records: seq<byte>, v: nat, group: nat,
                    a: ArraySnapshot, b: ArraySnapshot)
    returns (raw: Raw)
    requires AttributeInRecord(attr, d, stride) && attr < ATTRIBUTES && group < 3 && !IsIndexed(d)
    requires |records| == Span(stride, n) && v < n
    ensures Gather(attr, d, records, Span(stride, v), group, a.bytes, a.sourceOffset) == Ok(raw)
    ensures Gather(attr, d, Record(records, stride, n, v), 0, group, b.bytes, b.sourceOffset) == Ok(raw)
  {
    if d.mode == NONE {
      raw := Absent;
    } else if attr < POS {
      var w := RecordSlice(records, stride, n, v, d.offset, 1, Span(stride, v) + d.offset);
      raw := Matrix(Number(w, false));
    } else {
      GroupWindow(attr, d, group);
      var from := d.offset + TripleOffset(d, GroupOf(attr, d, group));
      var w := RecordSlice(records, stride, n, v, from, ReadBytes(attr, d), Span(stride, v) + from);
      raw := RawFrom(attr, d, w, false);
      GatherDirect(attr, d, records, Span(stride, v), group, a.bytes, a.sourceOffset, Span(stride, v) + from, w);
      GatherDirect(attr, d, Record(records, stride, n, v), 0, group, b.bytes, b.sourceOffset, from, w);
    }
  }

  function FullArray(a: AttributeArray): ArraySnapshot {
    ArraySnapshot(0, if a.memory.Some? then a.memory.value else [])
  }

  /** One attribute group of a captured draw: reading the trimmed copy gives what the full array holds. */
  lemma GatherSound(attr: nat, d: AttributeLayout, a: AttributeArray, stride: nat, n: nat, records: seq<byte>, v: nat,
                    group: nat)
    returns (raw: Raw)
    requires AttributeInRecord(attr, d, stride) && attr < ATTRIBUTES && group < 3
    requires |records| == Span(stride, n) && v < n
    requires TrimAttribute(attr, d, a, stride, n, records).Ok?
    ensures var s := TrimAttribute(attr, d, a, stride, n, records).value;
            Gather(attr, d, records, Span(stride, v), group, s.bytes, s.sourceOffset) == Ok(raw)
    ensures Gather(attr, d, Record(records, stride, n, v), 0, group, FullArray(a).bytes, FullArray(a).sourceOffset)
        == Ok(raw)
  {
    var s := TrimAttribute(attr, d, a, stride, n, records).value;
    if IsIndexed(d) {
      raw := IndexedSound(attr, d, a, stride, n, records, v, group, s);
    } else {
      raw := DirectSound(attr, d, stride, n, records, v, group, s, FullArray(a));
    }
  }

  lemma IndexIsBig(d: AttributeLayout, record: seq<byte>, k: nat, from: nat)
    requires IndicesFit(d, |record|) && k < d.indexCount && from == d.offset + Span(IndexWidth(d), k)
    ensures Load(record, from, IndexWidth(d), false) == Ok(RecordIndex(d, record, k))
  {
    var w := IndexWidth(d);
    SpanInside(k, d.indexCount, w);
    var s := record[from..from + w];
    NumberIsTerms(s, false);
    TermsSpelled(s, false);
  }

  /** Array trimming is sound: decoding a captured draw gives every vertex the meaning its record has under the
      full source arrays, and no read falls outside the captured bytes. */
  lemma CaptureKeepsMeaning(layout: VertexLayout, state: RegisterState, n: nat, records: seq<byte>, v: nat)
    requires LayoutOk(layout) && SnapshotOf(layout, state, n, records).Ok? && v < n
    ensures var g := SnapshotOf(layout, state, n, records).value;
            && Decode(g, v).Ok?
            && Decode(g, v) == Meaning(layout, state, Record(records, layout.stride, n, v))
  {
    AttributesSound(layout, state, n, records, v, ATTRIBUTES);
  }

  lemma {:induction false} AttributesSound(layout: VertexLayout, state: RegisterState, n: nat, records: seq<byte>,
                                           v: nat, m: nat)
    requires LayoutOk(layout) && SnapshotOf(layout, state, n, records).Ok? && v < n && m <= ATTRIBUTES
    ensures var g := SnapshotOf(layout, state, n, records).value;
            var read := Attributes(layout, records, Span(layout.stride, v), g.arrays, m);
            && read.Ok?
            && read == Attributes(layout, Record(records, layout.stride, n, v), 0, FullArrays(state), m)
  {
    if m > 0 {
      AttributesSound(layout, state, n, records, v, m - 1);
      var g := SnapshotOf(layout, state, n, records).value;
      assert TrimOf(layout, state, m - 1, n, records).Ok?;
      var d, a := layout.attributes[m - 1], state.arrays[m - 1];
      assert AttributeInRecord(m - 1, d, layout.stride);
      var groups := GroupsSound(m - 1, d, a, layout.stride, n, records, v, g.arrays[m - 1], 3);
    }
  }

  /** All groups of one attribute. */
  lemma {:induction false} GroupsSound(attr: nat, d: AttributeLayout, a: AttributeArray, stride: nat, n: nat,
                                       records: seq<byte>, v: nat, s: ArraySnapshot, k: nat)
    returns (groups: seq<Raw>)
    requires AttributeInRecord(attr, d, stride) && attr < ATTRIBUTES && k <= 3
    requires |records| == Span(stride, n) && v < n
    requires TrimAttribute(attr, d, a, stride, n, records) == Ok(s)
    ensures GatherGroups(attr, d, records, Span(stride, v), s, k) == Ok(groups)
    ensures GatherGroups(attr, d, Record(records, stride, n, v), 0, FullArray(a), k) == Ok(groups)
  {
    if k == 0 {
      groups := [];
    } else {
      hide *;
      groups := GroupsSound(attr, d, a, stride, n, records, v, s, k - 1);
      var raw := GatherSound(attr, d, a, stride, n, records, v, k - 1);
      GroupsStep(attr, d, records, Span(stride, v), s, k - 1, groups, Ok(raw));
      GroupsStep(attr, d, Record(records, stride, n, v), 0, FullArray(a), k - 1, groups, Ok(raw));
      groups := groups + [raw];
    }
  }

  // ----- Merging: capturing two draws together -----

  function Join(a: Hull, b: Hull): Hull {
    Hull(Min(a.lo, b.lo), Max(a.hi, b.hi))
  }

  lemma {:induction false} WidenJoin(a: Hull, b: Hull, d: AttributeLayout, record: seq<byte>, groups: nat)
    requires IndicesFit(d, |record|) && groups <= d.indexCount
    ensures WidenRecord(Join(a, b), d, record, groups) == Join(a, WidenRecord(b, d, record, groups))
  {
    if groups > 0 {
      WidenJoin(a, b, d, record, groups - 1);
    }
  }

  /** `both` is the stream of the `n` records of `first` and then the `m` records of `second`. */
  predicate Concat(first: seq<byte>, second: seq<byte>, both: seq<byte>, stride: nat, n: nat, m: nat, total: nat) {
    && both == first + second && total == n + m
    && |first| == Span(stride, n) && |second| == Span(stride, m) && |both| == Span(stride, total)
  }

  lemma ConcatFits(first: seq<byte>, second: seq<byte>, stride: nat, n: nat, m: nat)
    requires |first| == Span(stride, n) && |second| == Span(stride, m)
    ensures Concat(first, second, first + second, stride, n, m, n + m)
  {
    SpanOfSum(stride, n, m);
  }

  lemma RecordOfConcat(first: seq<byte>, second: seq<byte>, both: seq<byte>, stride: nat, n: nat, m: nat, total: nat,
                       v: nat, at: nat)
    requires Concat(first, second, both, stride, n, m, total)
    ensures v < n ==> Record(both, stride, total, v) == Record(first, stride, n, v)
    ensures v < m && at == n + v ==> Record(both, stride, total, at) == Record(second, stride, m, v)
  {
    if v < n {
      SpanInside(v, n, stride);
      SpanInside(v, total, stride);
    }
    if v < m && at == n + v {
      SpanInside(v, m, stride);
      SpanInside(at, total, stride);
      SpanOfSum(stride, n, v);
      assert Span(stride, at) == |first| + Span(stride, v);
      assert both[Span(stride, at)..Span(stride, at) + stride] == second[Span(stride, v)..Span(stride, v) + stride];
    }
  }

  /** Scanning the first part of concatenated records. */
  lemma {:induction false} HullOfFront(d: AttributeLayout, first: seq<byte>, second: seq<byte>, both: seq<byte>,
                                       stride: nat, n: nat, m: nat, total: nat, k: nat)
    requires IndicesFit(d, stride) && Concat(first, second, both, stride, n, m, total) && k <= n
    ensures HullOf(d, both, stride, total, k) == HullOf(d, first, stride, n, k)
    ensures HullOf(d, first, stride, n, k).lo <= EmptyHull.lo
  {
    if k > 0 {
      RecordOfConcat(first, second, both, stride, n, m, total, k - 1, 0);
      HullOfFront(d, first, second, both, stride, n, m, total, k - 1);
      WidenCovers(HullOf(d, first, stride, n, k - 1), d, Record(first, stride, n, k - 1), d.indexCount);
    }
  }

  /** Scanning concatenated records joins their hulls. */
  lemma {:induction false} HullOfConcat(d: AttributeLayout, first: seq<byte>, second: seq<byte>, both: seq<byte>,
                                        stride: nat, n: nat, m: nat, total: nat, k: nat, at: nat)
    requires IndicesFit(d, stride) && Concat(first, second, both, stride, n, m, total)
    requires k <= m && at == n + k
    ensures HullOf(d, both, stride, total, at) == Join(HullOf(d, first, stride, n, n), HullOf(d, second, stride, m, k))
    decreases k
  {
    if k == 0 {
      HullOfFront(d, first, second, both, stride, n, m, total, n);
    } else {
      var lastK, lastAt := k - 1, at - 1;
      RecordOfConcat(first, second, both, stride, n, m, total, lastK, lastAt);
      assert k - 1 == lastK;
      hide *;
      HullStep(d, both, stride, total, lastAt, at);
      HullStep(d, second, stride, m, lastK, k);
      HullOfConcat(d, first, second, both, stride, n, m, total, lastK, lastAt);
      WidenJoin(HullOf(d, first, stride, n, n), HullOf(d, second, stride, m, lastK), d,
                Record(second, stride, m, lastK), d.indexCount);
    }
  }

  /** An interval between ordered indices can be captured exactly when its end lies in the declared and live array. */
  lemma TrimCondition(d: AttributeLayout, a: AttributeArray, h: Hull)
    requires h.lo <= h.hi
    ensures Trim(d, a, h).Ok?
        <==> a.memory.Some? && Span(d.arrayStride, h.hi) + ElementBytes(d) <= Min(a.size, |a.memory.value|)
  {
    SpanGrows(d.arrayStride, h.lo, h.hi);
  }

  /** An array interval can be captured for two draws together exactly when it can for each of them. */
  lemma TrimOfConcat(attr: nat, d: AttributeLayout, a: AttributeArray, stride: nat, first: seq<byte>, second: seq<byte>,
                     both: seq<byte>, n: nat, m: nat, total: nat)
    requires AttributeInRecord(attr, d, stride) && n > 0 && m > 0
    requires Concat(first, second, both, stride, n, m, total)
    ensures TrimAttribute(attr, d, a, stride, total, both).Ok?
        <==> TrimAttribute(attr, d, a, stride, n, first).Ok? && TrimAttribute(attr, d, a, stride, m, second).Ok?
  {
    if attr >= POS && IsIndexed(d) {
      var x, y := HullOf(d, first, stride, n, n), HullOf(d, second, stride, m, m);
      HullOfConcat(d, first, second, both, stride, n, m, total, m, total);
      HullCovers(d, first, stride, n, n, 0, 0);
      HullCovers(d, second, stride, m, m, 0, 0);
      TrimCondition(d, a, x);
      TrimCondition(d, a, y);
      TrimCondition(d, a, Join(x, y));
      SpanGrows(d.arrayStride, x.hi, Join(x, y).hi);
      SpanGrows(d.arrayStride, y.hi, Join(x, y).hi);
    }
  }

  lemma TrimOfBoth(layout: VertexLayout, state: RegisterState, attr: nat, first: seq<byte>, second: seq<byte>,
                   both: seq<byte>, n: nat, m: nat, total: nat)
    requires LayoutOk(layout) && attr < ATTRIBUTES && n > 0 && m > 0
    requires Concat(first, second, both, layout.stride, n, m, total)
    ensures TrimOf(layout, state, attr, total, both).Ok?
        <==> TrimOf(layout, state, attr, n, first).Ok? && TrimOf(layout, state, attr, m, second).Ok?
  {
    assert AttributeInRecord(attr, layout.attributes[attr], layout.stride);
    TrimOfConcat(attr, layout.attributes[attr], state.arrays[attr], layout.stride, first, second, both, n, m, total);
  }

  lemma AllTrimmedOfConcat(layout: VertexLayout, state: RegisterState, first: seq<byte>, second: seq<byte>,
                           both: seq<byte>, n: nat, m: nat, total: nat)
    requires LayoutOk(layout) && n > 0 && m > 0
    requires Concat(first, second, both, layout.stride, n, m, total)
    ensures AllTrimmed(layout, state, total, both)
        <==> AllTrimmed(layout, state, n, first) && AllTrimmed(layout, state, m, second)
  {
    if AllTrimmed(layout, state, total, both) {
      forall attr | 0 <= attr < ATTRIBUTES
        ensures TrimOf(layout, state, attr, n, first).Ok?
      {
        TrimOfBoth(layout, state, attr, first, second, both, n, m, total);
        assert TrimOf(layout, state, attr, total, both).Ok?;
      }
      forall attr | 0 <= attr < ATTRIBUTES
        ensures TrimOf(layout, state, attr, m, second).Ok?
      {
        TrimOfBoth(layout, state, attr, first, second, both, n, m, total);
        assert TrimOf(layout, state, attr, total, both).Ok?;
      }
    }
    if AllTrimmed(layout, state, n, first) && AllTrimmed(layout, state, m, second) {
      forall attr | 0 <= attr < ATTRIBUTES
        ensures TrimOf(layout, state, attr, total, both).Ok?
      {
        TrimOfBoth(layout, state, attr, first, second, both, n, m, total);
        assert TrimOf(layout, state, attr, n, first).Ok? && TrimOf(layout, state, attr, m, second).Ok?;
      }
    }
  }

  /** Two draws can be captured together exactly when each of them can; a draw without vertices always can. */
  lemma SnapshotOfConcat(layout: VertexLayout, state: RegisterState, first: seq<byte>, second: seq<byte>,
                         both: seq<byte>, n: nat, m: nat, total: nat)
    requires LayoutOk(layout) && Concat(first, second, both, layout.stride, n, m, total)
    ensures SnapshotOf(layout, state, total, both).Ok?
        <==> SnapshotOf(layout, state, n, first).Ok? && SnapshotOf(layout, state, m, second).Ok?
  {
    if n == 0 {
      assert both == second;
    } else if m == 0 {
      assert both == first;
    } else {
      AllTrimmedOfConcat(layout, state, first, second, both, n, m, total);
    }
  }
}
