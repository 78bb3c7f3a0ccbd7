/** What a vertex record means, byte by byte (ps5/gpu/gx_geometry.cpp, `decode_gx_vertex`): which bytes of the record
    and of the arrays every value of a vertex is made of. */
module VertexLaws {
  import opened Bytes
  import opened GxVertexLayout
  import opened GxSnapshot

  /** `x` is the number of `width` bytes at `at`. */
  predicate Stored(x: nat, bytes: seq<byte>, at: nat, width: nat, little: bool) {
    && at + width <= |bytes|
    && (width == 1 ==> x == At(bytes, at))
    && (width == 2 ==> x == if little then At(bytes, at) + 0x100 * At(bytes, at + 1)
        else 0x100 * At(bytes, at) + At(bytes, at + 1))
    && (width == 3 ==> x == if little then At(bytes, at) + 0x100 * At(bytes, at + 1) + 0x1_0000 * At(bytes, at + 2)
                            else 0x1_0000 * At(bytes, at) + 0x100 * At(bytes, at + 1) + At(bytes, at + 2))
    && (width == 4 && little ==> x == At(bytes, at) + 0x100 * At(bytes, at + 1) + 0x1_0000 * At(bytes, at + 2)
                                      + 0x100_0000 * At(bytes, at + 3))
    && (width == 4 && !little ==> x == 0x100_0000 * At(bytes, at) + 0x1_0000 * At(bytes, at + 1)
                                       + 0x100 * At(bytes, at + 2) + At(bytes, at + 3))
  }

  /** A colour with a byte for each channel is those bytes, any other one number. */
  predicate ColourAt(raw: Raw, typ: nat, bytes: seq<byte>, at: nat, little: bool) {
    && raw.Colour? && raw.typ == typ
    && |raw.words| == (if typ == 1 || typ == 2 then 3 else if typ == 5 then 4 else 1)
    && if |raw.words| > 1 then forall c :: 0 <= c < |raw.words| ==> Stored(raw.words[c], bytes, at + c, 1, true)
       else Stored(raw.words[0], bytes, at, if typ == 4 then 3 else 2, little)
  }

  /** `count` numbers behind each other. */
  predicate NumbersAt(raw: Raw, d: AttributeLayout, count: nat, bytes: seq<byte>, at: nat, little: bool) {
    && raw.Numeric? && raw.typ == d.typ && raw.fraction == d.fraction && |raw.components| == count
    && forall c :: 0 <= c < count ==>
         Stored(raw.components[c], bytes, at + c * d.componentBytes, d.componentBytes, little)
  }

  predicate ValueAt(raw: Raw, a: nat, d: AttributeLayout, bytes: seq<byte>, at: nat, little: bool) {
    if a == 11 || a == 12 then ColourAt(raw, d.typ, bytes, at, little)
    else NumbersAt(raw, d, if a == 10 then 3 else d.components, bytes, at, little)
  }

  /** Group `g` of an attribute of the record: a matrix index, values in the record, or values of the array element its
      index names. Only nine components are three groups, and they have an index each or share one. */
  ghost predicate Says(raw: Raw, a: nat, g: nat, d: AttributeLayout, record: seq<byte>, memory: Option<seq<byte>>) {
    var group := if a == 10 && d.components == 9 then g else 0;
    var triple := 3 * group * d.componentBytes;
    if d.mode == 0 then raw == Absent
    else if a < 9 then d.offset < |record| && raw == Matrix(record[d.offset])
    else if d.mode == 1 then ValueAt(raw, a, d, record, d.offset + triple, false)
    else
      memory.Some? && exists index: nat ::
        Names(index, d, group, record)
        && ValueAt(raw, a, d, memory.value, index * d.arrayStride + (if d.indexCount == 3 then 0 else triple),
                   d.littleEndian)
  }

  /** `index` is the big-endian array index of the group. */
  predicate Names(index: nat, d: AttributeLayout, group: nat, record: seq<byte>) {
    d.mode > 1 && var width := d.mode - 1;
    Stored(index, record, d.offset + (if d.indexCount == 3 then group * width else 0), width, false)
  }

  // ----- Bytes and numbers -----

  lemma NumberStored(bytes: seq<byte>, at: nat, width: nat, little: bool)
    requires 1 <= width <= 4 && Slice(bytes, at, width).Ok?
    ensures Stored(Number(Slice(bytes, at, width).value, little), bytes, at, width, little)
  {
    var s := bytes[at..at + width];
    NumberIsTerms(s, little);
    TermsSpelled(s, little);
    hide Number;
  }

  lemma {:induction false} NumbersStored(window: seq<byte>, n: nat, width: nat, little: bool)
    requires 1 <= width <= 4 && |window| == Span(width, n)
    ensures forall c :: 0 <= c < n ==> Stored(Numbers(window, n, width, little)[c], window, c * width, width, little)
  {
    if n > 0 {
      var front := window[..Span(width, n - 1)];
      NumbersStored(front, n - 1, width, little);
      SpanIsProduct(width, n - 1);
      SpanIsProduct(width, n);
      NumberStored(window, Span(width, n - 1), width, little);
      assert window[Span(width, n - 1)..] == window[Span(width, n - 1)..Span(width, n - 1) + width];
      forall c | 0 <= c < n - 1
        ensures Stored(Numbers(window, n, width, little)[c], window, c * width, width, little)
      {
        Earlier(window, front, c, width, n, little);
      }
    }
  }

  lemma Earlier(window: seq<byte>, front: seq<byte>, c: nat, width: nat, n: nat, little: bool)
    requires 1 <= width <= 4 && c < n - 1 && |window| == Span(width, n) && front == window[..Span(width, n - 1)]
    requires Stored(Numbers(front, n - 1, width, little)[c], front, c * width, width, little)
    ensures Stored(Numbers(window, n, width, little)[c], window, c * width, width, little)
  {
  }

  /** The same bytes in a window and where it lies. */
  lemma WindowStored(x: nat, bytes: seq<byte>, at: nat, window: seq<byte>, from: nat, width: nat, little: bool)
    requires Slice(bytes, at, |window|) == Ok(window) && Stored(x, window, from, width, little) && width <= 4
    ensures Stored(x, bytes, at + from, width, little)
  {
    ByteIn(bytes, at, window, from);
    ByteIn(bytes, at, window, from + 1);
    ByteIn(bytes, at, window, from + 2);
    ByteIn(bytes, at, window, from + 3);
    hide Slice, At;
  }

  lemma ByteIn(bytes: seq<byte>, at: nat, window: seq<byte>, k: nat)
    requires Slice(bytes, at, |window|) == Ok(window)
    ensures at + |window| <= |bytes| && (k < |window| ==> At(bytes, at + k) == At(window, k))
  {
  }

  lemma RawStored(a: nat, d: AttributeLayout, bytes: seq<byte>, at: nat, window: seq<byte>, little: bool)
    requires POS <= a < ATTRIBUTES && AttributeOk(a, d) && d.mode != NONE
    requires |window| == ReadBytes(a, d) && Slice(bytes, at, |window|) == Ok(window)
    ensures ValueAt(RawFrom(a, d, window, little), a, d, bytes, at, little)
  {
    hide Number, Numbers, Stored;
    var raw := RawFrom(a, d, window, little);
    if IsColor(a) {
      if ByteColor(d.typ) {
        forall c | 0 <= c < |window|
          ensures Stored(raw.words[c], bytes, at + c, 1, true)
        {
          ByteStored(bytes, at, window, c);
        }
      } else {
        NumberStored(bytes, at, d.componentBytes, little);
      }
    } else {
      var n := GroupComponents(a, d);
      NumbersStored(window, n, d.componentBytes, little);
      forall c | 0 <= c < n
        ensures Stored(raw.components[c], bytes, at + c * d.componentBytes, d.componentBytes, little)
      {
        WindowStored(raw.components[c], bytes, at, window, c * d.componentBytes, d.componentBytes, little);
      }
    }
  }

  lemma ByteStored(bytes: seq<byte>, at: nat, window: seq<byte>, c: nat)
    requires Slice(bytes, at, |window|) == Ok(window) && c < |window|
    ensures Stored(At(window, c), bytes, at + c, 1, true)
  {
  }

  // ----- Groups -----

  lemma OffsetsAre(a: nat, d: AttributeLayout, g: nat)
    requires POS <= a < ATTRIBUTES && AttributeOk(a, d) && d.mode != NONE && g < 3
    ensures var group := if a == 10 && d.components == 9 then g else 0;
            && GroupOf(a, d, g) == group && TripleOffset(d, group) == 3 * group * d.componentBytes
            && Span(IndexWidth(d), group) == group * IndexWidth(d)
  {
    var group := if a == 10 && d.components == 9 then g else 0;
    SpanIsProduct(d.componentBytes, 3 * group);
    SpanIsProduct(IndexWidth(d), group);
  }

  lemma MatrixSays(a: nat, d: AttributeLayout, record: seq<byte>, g: nat, memory: Option<seq<byte>>)
    requires a < POS && AttributeOk(a, d) && d.mode != NONE && Load(record, d.offset, 1, false).Ok?
    ensures Says(Matrix(Load(record, d.offset, 1, false).value), a, g, d, record, memory)
  {
    NumberStored(record, d.offset, 1, false);
    hide Number;
  }

  lemma DirectSays(a: nat, d: AttributeLayout, record: seq<byte>, g: nat, memory: Option<seq<byte>>)
    requires POS <= a < ATTRIBUTES && AttributeOk(a, d) && d.mode == DIRECT && g < 3
    requires Gather(a, d, record, 0, g, [], 0).Ok?
    ensures Says(Gather(a, d, record, 0, g, [], 0).value, a, g, d, record, memory)
  {
    OffsetsAre(a, d, g);
    hide TripleOffset, GroupOf, RawFrom, ReadBytes, ValueAt;
    var at := d.offset + TripleOffset(d, GroupOf(a, d, g));
    RawStored(a, d, record, at, Slice(record, at, ReadBytes(a, d)).value, false);
  }

  lemma IndexNamed(d: AttributeLayout, record: seq<byte>, group: nat)
    requires IsIndexed(d) && Load(record, d.offset + GroupIndexOffset(d, group), IndexWidth(d), false).Ok?
    requires Span(IndexWidth(d), group) == group * IndexWidth(d)
    ensures Names(Load(record, d.offset + GroupIndexOffset(d, group), IndexWidth(d), false).value, d, group, record)
  {
    NumberStored(record, d.offset + GroupIndexOffset(d, group), IndexWidth(d), false);
    hide Number, Stored, Span;
  }

  lemma IndexedSays(a: nat, d: AttributeLayout, record: seq<byte>, g: nat, memory: seq<byte>)
    requires POS <= a < ATTRIBUTES && AttributeOk(a, d) && IsIndexed(d) && g < 3
    requires Gather(a, d, record, 0, g, memory, 0).Ok?
    ensures Says(Gather(a, d, record, 0, g, memory, 0).value, a, g, d, record, Some(memory))
  {
    hide AttributeOk, TripleOffset, GroupOf, RawFrom, ReadBytes, ValueAt, Load, Span, GroupIndexOffset, Slice, Names;
    OffsetsAre(a, d, g);
    var group := GroupOf(a, d, g);
    var index := Load(record, d.offset + GroupIndexOffset(d, group), IndexWidth(d), false).value;
    IndexNamed(d, record, group);
    SpanIsProduct(d.arrayStride, index);
    var at := Span(d.arrayStride, index) + GroupByteOffset(d, group);
    assert at == index * d.arrayStride + if d.indexCount == 3 then 0 else 3 * group * d.componentBytes;
    SliceLength(memory, at, ReadBytes(a, d));
    RawStored(a, d, memory, at, Slice(memory, at, ReadBytes(a, d)).value, d.littleEndian);
  }

  lemma SliceLength(bytes: seq<byte>, at: nat, width: nat)
    requires Slice(bytes, at, width).Ok?
    ensures |Slice(bytes, at, width).value| == width
  {
  }

  /** An indexed attribute needs its array; the others do not look at it. */
  lemma GroupSays(a: nat, d: AttributeLayout, record: seq<byte>, g: nat, source: AttributeArray)
    requires a < ATTRIBUTES && AttributeOk(a, d) && g < 3
    requires Gather(a, d, record, 0, g, FullArray(source).bytes, 0).Ok?
    ensures Says(Gather(a, d, record, 0, g, FullArray(source).bytes, 0).value, a, g, d, record, source.memory)
  {
    if d.mode != NONE && a < POS {
      MatrixSays(a, d, record, g, source.memory);
    } else if d.mode == DIRECT {
      DirectSays(a, d, record, g, source.memory);
    } else if d.mode != NONE {
      IndexedNeedsBytes(a, d, record, g, FullArray(source).bytes);
      IndexedSays(a, d, record, g, source.memory.value);
    }
  }

  lemma IndexedNeedsBytes(a: nat, d: AttributeLayout, record: seq<byte>, g: nat, memory: seq<byte>)
    requires POS <= a < ATTRIBUTES && AttributeOk(a, d) && IsIndexed(d)
    requires Gather(a, d, record, 0, g, memory, 0).Ok?
    ensures |memory| > 0
  {
    SpanIsProduct(d.componentBytes, GroupComponents(a, d));
    assert ReadBytes(a, d) > 0;
  }

  lemma {:induction false} GroupsSay(a: nat, d: AttributeLayout, record: seq<byte>, k: nat, source: AttributeArray)
    requires a < ATTRIBUTES && AttributeOk(a, d) && k <= 3
    requires GatherGroups(a, d, record, 0, FullArray(source), k).Ok?
    ensures var groups := GatherGroups(a, d, record, 0, FullArray(source), k).value;
            |groups| == k && forall g :: 0 <= g < k ==> Says(groups[g], a, g, d, record, source.memory)
  {
    hide Gather, Says, AttributeOk;
    if k > 0 {
      GroupsSay(a, d, record, k - 1, source);
      GroupSays(a, d, record, k - 1, source);
    }
  }

  lemma {:induction false} AttributesSay(layout: VertexLayout, state: RegisterState, record: seq<byte>, n: nat)
    requires LayoutOk(layout) && n <= ATTRIBUTES && Attributes(layout, record, 0, FullArrays(state), n).Ok?
    ensures var all := Attributes(layout, record, 0, FullArrays(state), n).value;
            |all| == n && forall a :: 0 <= a < n ==> |all[a]| == 3 && forall g :: 0 <= g < 3 ==>
                Says(all[a][g], a, g, layout.attributes[a], record, state.arrays[a].memory)
  {
    hide Says, AttributeOk, GatherGroups;
    if n > 0 {
      AttributesSay(layout, state, record, n - 1);
      assert AttributeInRecord(n - 1, layout.attributes[n - 1], layout.stride);
      GroupsSay(n - 1, layout.attributes[n - 1], record, 3, state.arrays[n - 1]);
    }
  }

  /** Every value of a vertex is made of the bytes its attribute names: big-endian in the record, in the array's own
      byte order at the index times the array's stride otherwise. With `GxSnapshot.CaptureKeepsMeaning` and
      `GxGeometryBuffer.ShaderKeepsMeaning` these are the bytes the decoder and the shader read. */
  lemma MeaningSays(layout: VertexLayout, state: RegisterState, record: seq<byte>)
    requires LayoutOk(layout) && Meaning(layout, state, record).Ok?
    ensures var v := Meaning(layout, state, record).value;
            && v.currentPnMtx == state.currentPnMtx && |v.attributes| == 21
            && forall a :: 0 <= a < 21 ==> |v.attributes[a]| == 3 && forall g :: 0 <= g < 3 ==>
                 Says(v.attributes[a][g], a, g, layout.attributes[a], record, state.arrays[a].memory)
  {
    AttributesSay(layout, state, record, ATTRIBUTES);
  }

  // ----- Which draws can be captured -----

  /** `index` is array index `k` of vertex `v`. */
  predicate Indexes(index: nat, d: AttributeLayout, records: seq<byte>, stride: nat, v: nat, k: nat) {
    d.mode > 1 && Stored(index, records, v * stride + d.offset + k * (d.mode - 1), d.mode - 1, false)
  }

  /** Element `index` lies in the declared array and in the memory behind it. */
  predicate Inside(index: nat, d: AttributeLayout, source: AttributeArray) {
    var end := index * d.arrayStride + d.componentBytes * if d.indexCount == 3 then 3 else d.components;
    source.memory.Some? && end <= source.size && end <= |source.memory.value|
  }

  /** Every index of the attribute names such an element. */
  ghost predicate AllInside(d: AttributeLayout, source: AttributeArray, records: seq<byte>, stride: nat, n: nat) {
    forall v: nat, k: nat, index: nat :: v < n && k < d.indexCount && Indexes(index, d, records, stride, v, k) ==>
      Inside(index, d, source)
  }

  lemma IndexIs(d: AttributeLayout, records: seq<byte>, stride: nat, n: nat, v: nat, k: nat, index: nat)
    requires IndicesFit(d, stride) && |records| == Span(stride, n) && v < n && k < d.indexCount
    ensures Indexes(index, d, records, stride, v, k) <==> index == RecordIndex(d, Record(records, stride, n, v), k)
  {
    var width := IndexWidth(d);
    SpanIsProduct(width, k);
    SpanIsProduct(stride, v);
    SpanInside(v, n, stride);
    SpanInside(k, d.indexCount, width);
    hide Span;
    var record, from := Record(records, stride, n, v), d.offset + k * width;
    assert v * stride + d.offset + k * width == v * stride + from;
    RecordByte(records, stride, n, v, from);
    if width == 2 {
      RecordByte(records, stride, n, v, from + 1);
    }
  }

  lemma RecordByte(records: seq<byte>, stride: nat, n: nat, v: nat, from: nat)
    requires |records| == Span(stride, n) && v < n && from < stride
    ensures v * stride + from < |records|
    ensures At(records, v * stride + from) == At(Record(records, stride, n, v), from)
  {
    SpanIsProduct(stride, v);
    SpanInside(v, n, stride);
  }

  lemma LastInside(d: AttributeLayout, source: AttributeArray, records: seq<byte>, stride: nat, n: nat)
    requires IndicesFit(d, stride) && |records| == Span(stride, n) && n > 0
    requires AllInside(d, source, records, stride, n)
    ensures Inside(HullOf(d, records, stride, n, n).hi, d, source)
  {
    hide HullOf, RecordIndex, Indexes, Inside, Record, Span;
    var last := HullOf(d, records, stride, n, n).hi;
    HullReached(d, records, stride, n, n);
    var v: nat :| v < n && HasIndex(d, Record(records, stride, n, v), last);
    var k: nat :| k < d.indexCount && RecordIndex(d, Record(records, stride, n, v), k) == last;
    IndexIs(d, records, stride, n, v, k, last);
  }

  lemma OthersInside(d: AttributeLayout, source: AttributeArray, records: seq<byte>, stride: nat, n: nat)
    requires IndicesFit(d, stride) && |records| == Span(stride, n) && n > 0
    requires Inside(HullOf(d, records, stride, n, n).hi, d, source)
    ensures AllInside(d, source, records, stride, n)
  {
    hide HullOf, RecordIndex, Indexes, Inside, Record, Span, IndicesFit;
    forall v: nat, k: nat, index: nat | v < n && k < d.indexCount && Indexes(index, d, records, stride, v, k)
      ensures Inside(index, d, source)
    {
      IndexIs(d, records, stride, n, v, k, index);
      HullCovers(d, records, stride, n, n, v, k);
      Nearer(index, HullOf(d, records, stride, n, n).hi, d, source);
    }
  }

  /** Trimming succeeds if and only if every element named can be copied. */
  lemma TrimAccepted(d: AttributeLayout, source: AttributeArray, records: seq<byte>, stride: nat, n: nat)
    requires IndicesFit(d, stride) && |records| == Span(stride, n) && n > 0
    ensures Trim(d, source, HullOf(d, records, stride, n, n)).Ok? <==> AllInside(d, source, records, stride, n)
  {
    hide HullOf, Trim, RecordIndex, Inside, Record, Span, AllInside;
    var h := HullOf(d, records, stride, n, n);
    HullCovers(d, records, stride, n, n, 0, 0);
    TrimCondition(d, source, h);
    ElementInside(h.hi, d, source);
    if AllInside(d, source, records, stride, n) {
      LastInside(d, source, records, stride, n);
    } else if Inside(h.hi, d, source) {
      OthersInside(d, source, records, stride, n);
    }
  }

  lemma ElementInside(index: nat, d: AttributeLayout, source: AttributeArray)
    ensures Inside(index, d, source)
        <==> source.memory.Some?
             && Span(d.arrayStride, index) + ElementBytes(d) <= Min(source.size, |source.memory.value|)
  {
    SpanIsProduct(d.arrayStride, index);
    SpanIsProduct(d.componentBytes, if d.indexCount == 3 then 3 else d.components);
  }

  lemma Nearer(index: nat, last: nat, d: AttributeLayout, source: AttributeArray)
    requires index <= last && Inside(last, d, source)
    ensures Inside(index, d, source)
  {
    assert index * d.arrayStride <= last * d.arrayStride;
  }

  /** A draw can be captured if and only if its records are whole, it has positions, and every index in it names an
      element that lies in its declared array and in the memory behind it. */
  lemma CaptureAccepted(layout: VertexLayout, state: RegisterState, n: nat, records: seq<byte>)
    requires LayoutOk(layout)
    ensures SnapshotOf(layout, state, n, records).Ok?
        <==> |records| == n * layout.stride && (n > 0 ==> state.vtxDesc[9] != 0)
             && forall a :: 0 <= a < 21 && layout.attributes[a].mode > 1 ==>
                  AllInside(layout.attributes[a], state.arrays[a], records, layout.stride, n)
  {
    SpanIsProduct(layout.stride, n);
    hide AllInside, Trim, HullOf, Span;
    if |records| == n * layout.stride {
      forall a | 0 <= a < 21
        ensures TrimOf(layout, state, a, n, records).Ok?
            <==> (layout.attributes[a].mode > 1 ==>
                    AllInside(layout.attributes[a], state.arrays[a], records, layout.stride, n))
      {
        AttributeAccepted(layout, state, n, records, a);
      }
    }
  }

  lemma AttributeAccepted(layout: VertexLayout, state: RegisterState, n: nat, records: seq<byte>, a: nat)
    requires LayoutOk(layout) && |records| == Span(layout.stride, n) && a < 21
    ensures TrimOf(layout, state, a, n, records).Ok?
        <==> (layout.attributes[a].mode > 1 ==>
                AllInside(layout.attributes[a], state.arrays[a], records, layout.stride, n))
  {
    var d := layout.attributes[a];
    assert AttributeInRecord(a, d, layout.stride);
    if d.mode > 1 && n > 0 {
      TrimAccepted(d, state.arrays[a], records, layout.stride, n);
    }
  }
}
