/** A stream whose second draw cannot be captured: merging loses the first draw. */
module GxDrawExample {
  import opened Bytes
  import opened GxVertexLayout
  import opened GxPrimitives
  import opened GxSnapshot
  import opened GxDraw

  /** Positions come from an array of two elements through one-byte indices. */
  function Shown(): RegisterState {
    Registers(
      seq(21, i => if i == POS then INDEX8 else NONE),
      seq(8, i => seq(21, j => AttributeFormat(0, 0, 0))),
      seq(21, i => AttributeArray(Some([0, 0, 0, 0]), 4, 2, false)), false, 0)
  }

  const Positions := AttributeLayout(INDEX8, U8, 0, 1, 2, 1, 2, 0, false)

  /** Two triangles: one of element 0, one of element 9. */
  function Shows(): Stream {
    Stream([0x90, 0, 3, 0, 0, 0, 0x90, 0, 3, 9, 9, 9], true, (state, command, data, at) => Stop)
  }

  function Inside(): Command {
    Command(Triangles, 3, [0, 0, 0])
  }

  function Outside(): Command {
    Command(Triangles, 3, [9, 9, 9])
  }

  lemma ShownAttribute(attr: nat, offset: nat)
    requires attr < ATTRIBUTES && (attr == POS ==> offset == 0)
    ensures Attribute(Shown(), 0, attr, offset) == Ok(if attr == POS then Positions else EmptyAttribute)
  {
    var state := Shown();
    assert state.vtxDesc[attr] == if attr == POS then INDEX8 else NONE;
    assert state.vtxFmts[0][attr] == AttributeFormat(0, 0, 0);
    assert state.arrays[attr] == AttributeArray(Some([0, 0, 0, 0]), 4, 2, false);
    hide Shown;
  }

  /** The record grows by one byte, for the position index. */
  lemma ShownBytes()
    ensures RecordBytes(Positions) == 1 && RecordBytes(EmptyAttribute) == 0
  {
    SpanIsProduct(1, 1);
  }

  /** Only the position is present in `layout`. */
  predicate OnlyPositions(layout: VertexLayout, n: nat) {
    && |layout.attributes| == n && layout.stride == (if n <= POS then 0 else 1)
    && (forall a :: 0 <= a < n ==> layout.attributes[a] == if a == POS then Positions else EmptyAttribute)
  }

  lemma OneMore(front: VertexLayout, attr: nat)
    requires OnlyPositions(front, attr)
    ensures OnlyPositions(Extend(front, if attr == POS then Positions else EmptyAttribute), attr + 1)
  {
    ShownBytes();
    hide RecordBytes;
  }

  lemma {:induction false} ShownLayoutOf(n: nat)
    requires n <= ATTRIBUTES
    ensures LayoutOf(Shown(), 0, n).Ok? && OnlyPositions(LayoutOf(Shown(), 0, n).value, n)
  {
    if n > 0 {
      ShownLayoutOf(n - 1);
      var attr, front := n - 1, LayoutOf(Shown(), 0, n - 1).value;
      ShownAttribute(attr, front.stride);
      OneMore(front, attr);
      hide *;
      LayoutStep(Shown(), 0, attr, front);
    }
  }

  /** The layout of the example. */
  lemma ShownLayout() returns (layout: VertexLayout)
    ensures Layout(Shown(), 0) == Ok(layout) && LayoutOk(layout) && OnlyPositions(layout, ATTRIBUTES)
  {
    ShownLayoutOf(ATTRIBUTES);
    LayoutIsOk(Shown(), 0);
    layout := Layout(Shown(), 0).value;
  }

  /** Hull of three equal one-byte indices. */
  lemma HullOfThree(x: byte)
    ensures IndicesFit(Positions, 1) && |[x, x, x]| == Span(1, 3)
    ensures HullOf(Positions, [x, x, x], 1, 3, 3) == Hull(x, x)
  {
    var records: seq<byte> := [x, x, x];
    SpanIsProduct(1, 1);
    SpanIsProduct(1, 2);
    SpanIsProduct(1, 3);
    var h: seq<Hull> := [EmptyHull, Hull(x, x), Hull(x, x), Hull(x, x)];
    for m := 0 to 3
      invariant HullOf(Positions, records, 1, 3, m) == h[m]
    {
      HullStep(Positions, records, 1, 3, m, m + 1);
      var record := Record(records, 1, 3, m);
      assert record[0] == x;
      assert RecordIndex(Positions, record, 0) == x;
      assert WidenRecord(h[m], Positions, record, 0) == h[m];
      assert WidenRecord(h[m], Positions, record, 1) == Widen(h[m], x);
    }
  }

  lemma TrimmedShown(layout: VertexLayout, attr: nat, x: byte)
    requires LayoutOk(layout) && OnlyPositions(layout, ATTRIBUTES) && attr < ATTRIBUTES
    requires |[x, x, x]| == Span(layout.stride, 3)
    ensures TrimOf(layout, Shown(), attr, 3, [x, x, x]).Ok? <==> attr != POS || x <= 1
  {
    assert layout.attributes[attr] == if attr == POS then Positions else EmptyAttribute;
    if attr == POS {
      HullOfThree(x);
      SpanIsProduct(1, 2);
      SpanIsProduct(2, x);
      assert Shown().arrays[attr] == AttributeArray(Some([0, 0, 0, 0]), 4, 2, false);
      hide HullOf, Shown, LayoutOk;
    }
  }

  /** The first draw can be captured, the second cannot. */
  lemma CapturedAlone(layout: VertexLayout)
    requires LayoutOk(layout) && OnlyPositions(layout, ATTRIBUTES)
    ensures SnapshotOf(layout, Shown(), 3, [0, 0, 0]).Ok? && SnapshotOf(layout, Shown(), 3, [9, 9, 9]).Err?
  {
    SpanIsProduct(1, 3);
    forall attr | 0 <= attr < ATTRIBUTES
      ensures TrimOf(layout, Shown(), attr, 3, [0, 0, 0]).Ok?
    {
      TrimmedShown(layout, attr, 0);
    }
    TrimmedShown(layout, POS, 9);
    assert Shown().vtxDesc[POS] == INDEX8;
    hide TrimOf, Shown, LayoutOk;
  }

  /** What the two commands draw on their own. */
  lemma DrawnAlone(layout: VertexLayout)
    requires LayoutOk(layout) && OnlyPositions(layout, ATTRIBUTES)
    ensures CommandOk(Inside(), layout.stride) && CommandOk(Outside(), layout.stride)
    ensures Drawn(layout, Shown(), Inside()).Ok? && |Drawn(layout, Shown(), Inside()).value| == 3
    ensures Drawn(layout, Shown(), Outside()).Err?
  {
    hide Shown, SnapshotOf, LayoutOk, OnlyPositions, CornersOf;
    OnlyByte(layout);
    CapturedAlone(layout);
    ThreeIndices();
    NothingCulled();
  }

  lemma OnlyByte(layout: VertexLayout)
    requires OnlyPositions(layout, ATTRIBUTES)
    ensures CommandOk(Inside(), layout.stride) && CommandOk(Outside(), layout.stride)
  {
    SpanIsProduct(1, 3);
  }

  lemma NothingCulled()
    ensures !Shown().cullAll
  {
  }

  lemma ThreeIndices()
    ensures |Indices(Triangles, 3, 0)| == 3
  {
  }

  /** A complete triangle draw of the stream is read the same with or without a pending group. */
  lemma CommandAt(s: Stream, state: RegisterState, layout: VertexLayout, at: nat, g: PendingGroup, c: Command)
    requires LayoutOk(layout) && LayoutFor(state, 0) == Ok(layout)
    requires g.commands != [] ==> g.layout == layout && g.format == 0
    requires at + 3 <= |s.data| && s.data[at] == 0x90 && Parse(s, 0x90, at + 1, layout.stride) == Some(c)
    ensures NextAt(s, at, state, g) == Draws(layout, 0, c, at + 3 + |c.records|)
  {
    hide LayoutFor, LayoutOk, Parse, CommandOk;
  }

  lemma ShowsParse()
    ensures Parse(Shows(), 0x90, 1, 1) == Some(Inside()) && Parse(Shows(), 0x90, 7, 1) == Some(Outside())
    ensures NextJoins(Shows(), 6, 0, 1) && !NextJoins(Shows(), 12, 0, 1)
  {
    SpanIsProduct(1, 3);
    var s := Shows();
    assert CountAt(s, 1) == 3 && CountAt(s, 7) == 3;
    assert s.data[3..6] == [0, 0, 0] && s.data[9..12] == [9, 9, 9];
    assert SkipZeros(s.data, 6) == 6 && SkipZeros(s.data, 12) == 12;
  }

  /** Two joining draws of which only the first can be captured: one by one, the first is drawn; merged, nothing is. */
  lemma LosesFirst(s: Stream, state: RegisterState, layout: VertexLayout, inside: Command, outside: Command,
                   second: nat, end: nat)
    requires LayoutOk(layout) && Layout(state, 0) == Ok(layout)
    requires CommandOk(inside, layout.stride) && CommandOk(outside, layout.stride)
    requires inside.primitive.Triangles? && outside.primitive.Triangles?
    requires NextAt(s, 0, state, NoGroup) == Draws(layout, 0, inside, second)
    requires NextAt(s, second, state, NoGroup) == Draws(layout, 0, outside, end)
    requires NextJoins(s, second, 0, layout.stride) && !NextJoins(s, end, 0, layout.stride)
    requires |inside.records| < MERGED_RECORD_BYTES
    requires Drawn(layout, state, inside).Ok? && Drawn(layout, state, outside).Err?
    ensures Reference(s, 0, state).ending == Threw
    ensures Reference(s, 0, state).corners == Drawn(layout, state, inside).value
    ensures Merging(s, 0, state, NoGroup).corners == []
  {
    hide Drawn, DrawnEach, LayoutOk, CommandsOk, NextAt, NextJoins, Layout, Grouped, Failed, Flat, Total;
    var drawn := Drawn(layout, state, inside).value;
    var one := WithCommand(NoGroup, layout, 0, inside);
    OneCommand(inside);
    assert one.commands == [inside];
    PendingIsJoined(s, second, state, one);
    SecondFails(s, state, layout, one, outside, end);
    assert StaysPending(s, one, second, 0);
    assert drawn + [] == drawn;
    hide StaysPending;
    assert Reference(s, second, state) == Ran(Threw, state, [], NoGroup);
    assert Merging(s, second, state, one).corners == [];
    assert MergingDraw(s, second, state, NoGroup, layout, 0, inside).corners == [];
  }

  /** The second command ends the group, which then cannot be captured. */
  lemma SecondFails(s: Stream, state: RegisterState, layout: VertexLayout, one: PendingGroup, outside: Command,
                    end: nat)
    requires LayoutOk(layout) && Layout(state, 0) == Ok(layout) && CommandOk(outside, layout.stride)
    requires one.commands != [] && one.layout == layout && one.format == 0 && Total(one.commands) <= MAX_COUNT
    requires outside.primitive.Triangles? && !NextJoins(s, end, 0, layout.stride) && Drawn(layout, state, outside).Err?
    ensures MergingDraw(s, end, state, one, layout, 0, outside).corners == []
  {
    hide Drawn, DrawnEach, LayoutOk, NextJoins, Layout, Grouped, Failed, Flat, Total;
    var two := WithCommand(one, layout, 0, outside);
    EachStep(one, layout, 0, outside, state);
    GroupedIsEach(layout, state, two.commands);
  }

  lemma OneCommand(c: Command)
    ensures Flat([c]) == c.records && Total([c]) == c.count
  {
    assert [c][..0] == [] && [] + c.records == c.records;
  }

  /** One by one, `n` corners are drawn before a draw throws; merged, nothing is drawn. */
  predicate LosesAll(s: Stream, state: RegisterState, n: nat) {
    var fast, slow := Merging(s, 0, state, NoGroup), Reference(s, 0, state);
    slow.ending == Threw && |slow.corners| == n && fast.corners == []
  }

  lemma ShowsTwice()
    ensures Shows().data[0] == 0x90 && Shows().data[6] == 0x90 && |Shows().data| == 12
  {
  }

  /** The exact condition of the main result is needed: here merging loses the first triangle. */
  lemma MergingCanLose()
    ensures LosesAll(Shows(), Shown(), 3)
  {
    var layout := ShownLayout();
    ShowsParse();
    ShowsTwice();
    hide Shown, Shows, LayoutOk, Layout, Parse, Drawn, NextAt, NextJoins, Merging, Reference;
    DrawnAlone(layout);
    CommandAt(Shows(), Shown(), layout, 0, NoGroup, Inside());
    CommandAt(Shows(), Shown(), layout, 6, NoGroup, Outside());
    LosesFirst(Shows(), Shown(), layout, Inside(), Outside(), 6, 12);
  }
}
