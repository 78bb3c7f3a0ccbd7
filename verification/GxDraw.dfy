/** The draw front end (ps5/gpu/gx_draw.cpp): consecutive triangle commands of a command stream are merged into
    one indexed draw. The reference machine submits every command on its own. */
module GxDraw {
  import opened Bytes
  import opened GxVertexLayout
  import opened GxPrimitives
  import opened GxSnapshot

  /** Bound on the record bytes of a group that may still grow. */
  const MERGED_RECORD_BYTES: nat := 0x4_0000
  const MAX_COUNT: nat := 65535

  // ----- What is drawn -----

  /** One corner of a drawn element: the registers it is drawn under, corners per element, and the vertex.
      The corners of a draw follow each other, element by element. */
  datatype Corner = Corner(state: RegisterState, arity: nat, vertex: Result<Vertex>)

  /** One draw command with the vertex records behind it. */
  datatype Command = Command(primitive: Primitive, count: nat, records: seq<byte>)

  predicate CommandOk(c: Command, stride: nat) {
    c.count <= MAX_COUNT && |c.records| == Span(stride, c.count)
  }

  predicate Culled(state: RegisterState, p: Primitive) {
    state.cullAll && TriangleClass(p)
  }

  /** Corners named by `indices` among `n` records. */
  function CornersOf(layout: VertexLayout, state: RegisterState, arity: nat, n: nat, records: seq<byte>,
                     indices: seq<nat>)
    : (r: seq<Corner>)
    requires LayoutOk(layout) && |records| == Span(layout.stride, n)
    requires forall i :: 0 <= i < |indices| ==> indices[i] < n
    ensures |r| == |indices|
  {
    seq(|indices|, i requires 0 <= i < |indices| =>
      Corner(state, arity, Meaning(layout, state, Record(records, layout.stride, n, indices[i]))))
  }

  /** Reference: what a single draw command draws. Fails when its capture fails. */
  function Drawn(layout: VertexLayout, state: RegisterState, c: Command): Result<seq<Corner>>
    requires LayoutOk(layout) && CommandOk(c, layout.stride)
  {
    if c.count == 0 || Culled(state, c.primitive) then Ok([])
    else if SnapshotOf(layout, state, c.count, c.records).Err? then Err
    else
      IndicesInRange(c.primitive, c.count, 0);
      Ok(CornersOf(layout, state, Arity(c.primitive), c.count, c.records, Indices(c.primitive, c.count, 0)))
  }

  predicate CommandsOk(cs: seq<Command>, stride: nat) {
    forall i :: 0 <= i < |cs| ==> CommandOk(cs[i], stride) && TriangleClass(cs[i].primitive)
  }

  /** Reference: the commands of a group, one after the other. */
  function DrawnEach(layout: VertexLayout, state: RegisterState, cs: seq<Command>): Result<seq<Corner>>
    requires LayoutOk(layout) && CommandsOk(cs, layout.stride)
  {
    if cs == [] then Ok([])
    else
      var front :- DrawnEach(layout, state, cs[..|cs| - 1]);
      var last :- Drawn(layout, state, cs[|cs| - 1]);
      Ok(front + last)
  }

  // ----- Groups -----

  function Flat(cs: seq<Command>): seq<byte> {
    if cs == [] then [] else Flat(cs[..|cs| - 1]) + cs[|cs| - 1].records
  }

  function Total(cs: seq<Command>): nat {
    if cs == [] then 0 else Total(cs[..|cs| - 1]) + cs[|cs| - 1].count
  }

  /** The index list of the group: every command's triangles, shifted by the vertices before it. */
  function MergedIndices(cs: seq<Command>): seq<nat> {
    if cs == [] then []
    else
      MergedIndices(cs[..|cs| - 1]) + Indices(cs[|cs| - 1].primitive, cs[|cs| - 1].count, Total(cs[..|cs| - 1]))
  }

  predicate AllTriangles(cs: seq<Command>) {
    forall i :: 0 <= i < |cs| ==> TriangleClass(cs[i].primitive)
  }

  /** `snapshot_segments`: one capture for the whole group, which needs triangles and a 32-bit vertex count. */
  function MergedSnapshot(layout: VertexLayout, state: RegisterState, cs: seq<Command>): Result<Geometry>
    requires LayoutOk(layout)
  {
    if !AllTriangles(cs) || Total(cs) >= WORD then Err
    else
      var g :- SnapshotOf(layout, state, Total(cs), Flat(cs));
      Ok(g.(indices := MergedIndices(cs)))
  }

  /** `GxGeometry::snapshot`: the capture of one command. */
  function SingleSnapshot(layout: VertexLayout, state: RegisterState, c: Command): Result<Geometry>
    requires LayoutOk(layout)
  {
    var g :- SnapshotOf(layout, state, c.count, c.records);
    Ok(g.(primitive := c.primitive, indices := Indices(c.primitive, c.count, 0)))
  }

  /** A submitted draw: the captured geometry and the registers it is drawn under. */
  datatype Packet = Packet(geometry: Geometry, state: RegisterState)

  /** `submit`: the packet of one command, if it draws anything. */
  function Single(layout: VertexLayout, state: RegisterState, c: Command): Result<seq<Packet>>
    requires LayoutOk(layout)
  {
    if c.count == 0 || Culled(state, c.primitive) then Ok([])
    else
      var g :- SingleSnapshot(layout, state, c);
      Ok(if g.indices == [] then [] else [Packet(g, state)])
  }

  /** `submit_pending`: the packet of a group. */
  function Grouped(layout: VertexLayout, state: RegisterState, cs: seq<Command>): Result<seq<Packet>>
    requires LayoutOk(layout)
  {
    if cs == [] then Ok([])
    else if |cs| == 1 then Single(layout, state, cs[0])
    else if state.cullAll then Ok([])
    else
      var g :- MergedSnapshot(layout, state, cs);
      Ok(if g.indices == [] then [] else [Packet(g, state)])
  }

  /** What a packet draws: its indices, decoded from the captured bytes. */
  function PacketCorners(p: Packet): (r: seq<Corner>)
    ensures GeometryShaped(p.geometry) ==> |r| == |p.geometry.indices|
    ensures p.geometry.indices == [] ==> r == []
  {
    if !GeometryShaped(p.geometry) then []
    else
      seq(|p.geometry.indices|, i requires 0 <= i < |p.geometry.indices| =>
        Corner(p.state, Arity(p.geometry.primitive), Decode(p.geometry, p.geometry.indices[i])))
  }

  function Corners(packets: seq<Packet>): seq<Corner> {
    if packets == [] then [] else Corners(packets[..|packets| - 1]) + PacketCorners(packets[|packets| - 1])
  }

  // ----- One capture, decoded, draws what its indices name -----

  lemma CaptureDraws(layout: VertexLayout, state: RegisterState, n: nat, records: seq<byte>, p: Primitive,
                     indices: seq<nat>)
    requires LayoutOk(layout) && SnapshotOf(layout, state, n, records).Ok?
    requires forall i :: 0 <= i < |indices| ==> indices[i] < n
    ensures var g := SnapshotOf(layout, state, n, records).value.(primitive := p, indices := indices);
            PacketCorners(Packet(g, state)) == CornersOf(layout, state, Arity(p), n, records, indices)
  {
    var h := SnapshotOf(layout, state, n, records).value;
    var g := h.(primitive := p, indices := indices);
    var a, b := PacketCorners(Packet(g, state)), CornersOf(layout, state, Arity(p), n, records, indices);
    forall i | 0 <= i < |indices|
      ensures a[i] == b[i]
    {
      CaptureKeepsMeaning(layout, state, n, records, indices[i]);
      assert Decode(g, indices[i]) == Decode(h, indices[i]);
    }
  }

  lemma CornersOfOne(p: Packet)
    ensures Corners([p]) == PacketCorners(p)
  {
    assert [p][..0] == [];
  }

  /** A single command draws what the reference says, and fails exactly when the reference fails. */
  lemma SingleIsDrawn(layout: VertexLayout, state: RegisterState, c: Command)
    requires LayoutOk(layout) && CommandOk(c, layout.stride)
    ensures Single(layout, state, c).Ok? <==> Drawn(layout, state, c).Ok?
    ensures Single(layout, state, c).Ok? ==> Corners(Single(layout, state, c).value) == Drawn(layout, state, c).value
  {
    if c.count > 0 && !Culled(state, c.primitive) && SnapshotOf(layout, state, c.count, c.records).Ok? {
      IndicesInRange(c.primitive, c.count, 0);
      CaptureDraws(layout, state, c.count, c.records, c.primitive, Indices(c.primitive, c.count, 0));
      CornersOfOne(Packet(SingleSnapshot(layout, state, c).value, state));
    }
  }

  // ----- A group draws what its commands draw one by one -----

  lemma {:induction false} FlatFits(cs: seq<Command>, stride: nat)
    requires CommandsOk(cs, stride)
    ensures |Flat(cs)| == Span(stride, Total(cs))
  {
    if cs != [] {
      FlatFits(cs[..|cs| - 1], stride);
      SpanOfSum(stride, Total(cs[..|cs| - 1]), cs[|cs| - 1].count);
    }
  }

  lemma {:induction false} MergedInRange(cs: seq<Command>)
    ensures forall i :: 0 <= i < |MergedIndices(cs)| ==> MergedIndices(cs)[i] < Total(cs)
  {
    if cs != [] {
      var front, last := cs[..|cs| - 1], cs[|cs| - 1];
      MergedInRange(front);
      IndicesInRange(last.primitive, last.count, Total(front));
    }
  }

  /** The reference fails for a group exactly when capturing all its records together fails. */
  lemma {:induction false} EachIsOkTogether(layout: VertexLayout, state: RegisterState, cs: seq<Command>)
    requires LayoutOk(layout) && CommandsOk(cs, layout.stride) && !state.cullAll
    ensures DrawnEach(layout, state, cs).Ok? <==> SnapshotOf(layout, state, Total(cs), Flat(cs)).Ok?
  {
    if cs == [] {
      EmptySnapshot(layout, state);
    } else {
      var front, last := cs[..|cs| - 1], cs[|cs| - 1];
      EachIsOkTogether(layout, state, front);
      FlatFits(front, layout.stride);
      ConcatFits(Flat(front), last.records, layout.stride, Total(front), last.count);
      SnapshotOfConcat(layout, state, Flat(front), last.records, Flat(cs), Total(front), last.count, Total(cs));
      if last.count == 0 {
        assert last.records == [];
        EmptySnapshot(layout, state);
      }
    }
  }

  lemma EmptySnapshot(layout: VertexLayout, state: RegisterState)
    requires LayoutOk(layout)
    ensures SnapshotOf(layout, state, 0, []).Ok?
  {
  }

  /** Corners of concatenated records. */
  lemma CornersOfConcat(layout: VertexLayout, state: RegisterState, first: seq<byte>, second: seq<byte>,
                        both: seq<byte>,
                        n: nat, m: nat, total: nat, a: seq<nat>, b: seq<nat>, shifted: seq<nat>)
    requires LayoutOk(layout) && Concat(first, second, both, layout.stride, n, m, total)
    requires forall i :: 0 <= i < |a| ==> a[i] < n
    requires forall i :: 0 <= i < |b| ==> b[i] < m
    requires |shifted| == |b| && forall i :: 0 <= i < |b| ==> shifted[i] == n + b[i]
    ensures forall i :: 0 <= i < |a + shifted| ==> (a + shifted)[i] < total
    ensures CornersOf(layout, state, 3, total, both, a + shifted)
         == CornersOf(layout, state, 3, n, first, a) + CornersOf(layout, state, 3, m, second, b)
  {
    var x := CornersOf(layout, state, 3, n, first, a) + CornersOf(layout, state, 3, m, second, b);
    var all := a + shifted;
    forall i | 0 <= i < |all|
      ensures all[i] < total
      ensures Corner(state, 3, Meaning(layout, state, Record(both, layout.stride, total, all[i]))) == x[i]
    {
      if i < |a| {
        RecordOfConcat(first, second, both, layout.stride, n, m, total, a[i], 0);
      } else {
        RecordOfConcat(first, second, both, layout.stride, n, m, total, b[i - |a|], all[i]);
      }
    }
    assert CornersOf(layout, state, 3, total, both, all) == x;
  }

  /** The merged index list over the merged records names, in order, the corners of every command. */
  lemma {:induction false} MergedCorners(layout: VertexLayout, state: RegisterState, cs: seq<Command>)
    requires LayoutOk(layout) && CommandsOk(cs, layout.stride) && !state.cullAll
    requires DrawnEach(layout, state, cs).Ok?
    ensures |Flat(cs)| == Span(layout.stride, Total(cs))
    ensures forall i :: 0 <= i < |MergedIndices(cs)| ==> MergedIndices(cs)[i] < Total(cs)
    ensures CornersOf(layout, state, 3, Total(cs), Flat(cs), MergedIndices(cs)) == DrawnEach(layout, state, cs).value
  {
    FlatFits(cs, layout.stride);
    MergedInRange(cs);
    if cs != [] {
      var front, last := cs[..|cs| - 1], cs[|cs| - 1];
      MergedCorners(layout, state, front);
      ConcatFits(Flat(front), last.records, layout.stride, Total(front), last.count);
      var own := Indices(last.primitive, last.count, 0);
      IndicesInRange(last.primitive, last.count, 0);
      CornersOfConcat(layout, state, Flat(front), last.records, Flat(cs), Total(front), last.count, Total(cs),
                      MergedIndices(front), own, Indices(last.primitive, last.count, Total(front)));
      if last.count == 0 {
        assert own == [];
      }
    }
  }

  lemma {:induction false} CulledEach(layout: VertexLayout, state: RegisterState, cs: seq<Command>)
    requires LayoutOk(layout) && CommandsOk(cs, layout.stride) && state.cullAll
    ensures DrawnEach(layout, state, cs).Ok? && DrawnEach(layout, state, cs).value == []
  {
    if cs != [] {
      CulledEach(layout, state, cs[..|cs| - 1]);
      assert CommandOk(cs[|cs| - 1], layout.stride);
    }
  }

  lemma OneIsEach(layout: VertexLayout, state: RegisterState, cs: seq<Command>)
    requires LayoutOk(layout) && CommandsOk(cs, layout.stride) && |cs| == 1
    ensures Single(layout, state, cs[0]).Ok? <==> DrawnEach(layout, state, cs).Ok?
    ensures Single(layout, state, cs[0]).Ok? ==>
        Corners(Single(layout, state, cs[0]).value) == DrawnEach(layout, state, cs).value
  {
    SingleIsDrawn(layout, state, cs[0]);
    hide Single, Corners, Drawn;
    assert cs[..0] == [];
    assert DrawnEach(layout, state, cs[..0]) == Ok([]);
  }

  /** The one capture of a group draws what its commands draw. */
  lemma TogetherIsEach(layout: VertexLayout, state: RegisterState, cs: seq<Command>)
    requires LayoutOk(layout) && CommandsOk(cs, layout.stride) && Total(cs) < WORD && !state.cullAll
    ensures MergedSnapshot(layout, state, cs).Ok? <==> DrawnEach(layout, state, cs).Ok?
    ensures MergedSnapshot(layout, state, cs).Ok? ==>
              PacketCorners(Packet(MergedSnapshot(layout, state, cs).value, state))
                  == DrawnEach(layout, state, cs).value
  {
    EachIsOkTogether(layout, state, cs);
    if DrawnEach(layout, state, cs).Ok? {
      MergedCorners(layout, state, cs);
      CaptureDraws(layout, state, Total(cs), Flat(cs), Triangles, MergedIndices(cs));
    }
    hide SnapshotOf, DrawnEach, MergedIndices, Flat, Total, PacketCorners;
  }

  /** Merging is invisible: a group draws, in the same order, what its commands draw one by one, and fails exactly
      when one of them fails. */
  lemma GroupedIsEach(layout: VertexLayout, state: RegisterState, cs: seq<Command>)
    requires LayoutOk(layout) && CommandsOk(cs, layout.stride) && Total(cs) < WORD
    ensures Grouped(layout, state, cs).Ok? <==> DrawnEach(layout, state, cs).Ok?
    ensures Grouped(layout, state, cs).Ok? ==>
        Corners(Grouped(layout, state, cs).value) == DrawnEach(layout, state, cs).value
  {
    hide SnapshotOf, LayoutOk, Drawn, CommandsOk, Flat, Total, MergedSnapshot, PacketCorners, Single;
    if |cs| == 1 {
      OneIsEach(layout, state, cs);
    } else if cs != [] {
      if state.cullAll {
        CulledEach(layout, state, cs);
      } else {
        TogetherIsEach(layout, state, cs);
        if MergedSnapshot(layout, state, cs).Ok? {
          CornersOfOne(Packet(MergedSnapshot(layout, state, cs).value, state));
        }
      }
    }
  }

  // ----- Command streams -----

  /** What a command that is not a draw does: stops the stream, or changes registers and consumes bytes. */
  datatype Step = Stop | Continue(state: RegisterState, consumed: nat)

  /** A command stream and the meaning of its other commands (the rest of register_dispatch.cpp). */
  datatype Stream = Stream(data: seq<byte>, bigEndian: bool, other: (RegisterState, byte, seq<byte>, nat) -> Step)

  predicate IsDraw(command: byte) {
    0x80 <= command <= 0xBF
  }

  function FormatOf(command: byte): nat {
    command % 8
  }

  function PrimitiveOf(command: byte): Primitive
    requires IsDraw(command)
  {
    FromCommand(command).value
  }

  function CountAt(s: Stream, at: nat): (n: nat)
    requires at + 2 <= |s.data|
    ensures n <= MAX_COUNT
  {
    if s.bigEndian then At(s.data, at) * 256 + At(s.data, at + 1) else At(s.data, at) + At(s.data, at + 1) * 256
  }

  /** The draw command whose operands start at `at`, when they are complete. */
  function Parse(s: Stream, command: byte, at: nat, stride: nat): (r: Option<Command>)
    requires IsDraw(command) && at + 2 <= |s.data|
    ensures r.Some? ==> CommandOk(r.value, stride) && at + 2 + |r.value.records| <= |s.data|
  {
    var total := Span(stride, CountAt(s, at));
    if total > |s.data| - at - 2 then None
    else Some(Command(PrimitiveOf(command), CountAt(s, at), s.data[at + 2..at + 2 + total]))
  }

  /** The pending group. */
  datatype Group = Group(layout: VertexLayout, format: nat, commands: seq<Command>)

  predicate GroupOk(g: Group) {
    g.commands != [] ==> LayoutOk(g.layout) && CommandsOk(g.commands, g.layout.stride)
  }

  type PendingGroup = g: Group | GroupOk(g) witness Group(VertexLayout([], 0), 0, [])

  const NoGroup: PendingGroup := Group(VertexLayout([], 0), 0, [])

  datatype Ending = Finished | Halted | Threw

  /** How a stream ended: the registers it left, what it drew, and the drawn commands that were lost. */
  datatype Ran = Ran(ending: Ending, state: RegisterState, corners: seq<Corner>, lost: PendingGroup)

  function After(before: seq<Corner>, r: Ran): Ran {
    r.(corners := before + r.corners)
  }

  function LayoutFor(state: RegisterState, format: nat): (r: Result<VertexLayout>)
    ensures r == Layout(state, format)
    ensures r.Ok? ==> LayoutOk(r.value)
  {
    if Layout(state, format).Ok? then LayoutIsOk(state, format); Layout(state, format) else Err
  }

  /** The first byte that is not zero. */
  function SkipZeros(data: seq<byte>, at: nat): (r: nat)
    ensures r >= at
    ensures at <= |data| ==> r <= |data|
    ensures forall i :: at <= i < r ==> i < |data| && data[i] == 0
    decreases |data| - at
  {
    if at < |data| && data[at] == 0 then SkipZeros(data, at + 1) else at
  }

  /** `next_draw_joins`: a complete triangle draw of this format follows, behind zero bytes. */
  predicate NextJoins(s: Stream, from: nat, format: nat, stride: nat) {
    var at := SkipZeros(s.data, from);
    && at < |s.data| && |s.data| - at >= 3
    && 0x80 <= s.data[at] - s.data[at] % 8 <= 0xA0
    && FormatOf(s.data[at]) == format
    && Span(stride, CountAt(s, at + 1)) <= |s.data| - at - 3
  }

  /** The group with one more command. */
  function WithCommand(g: PendingGroup, layout: VertexLayout, format: nat, c: Command): (r: PendingGroup)
    requires LayoutOk(layout) && CommandOk(c, layout.stride) && TriangleClass(c.primitive)
    requires g.commands != [] ==> g.layout == layout
    ensures r.commands != [] && r.layout == layout
  {
    Group(layout, if g.commands == [] then format else g.format, g.commands + [c])
  }

  /** Whether the group stays pending behind the command that ends at `next`. */
  predicate StaysPending(s: Stream, g: Group, next: nat, format: nat) {
    && |Flat(g.commands)| < MERGED_RECORD_BYTES
    && Total(g.commands) <= MAX_COUNT * 64
    && NextJoins(s, next, format, g.layout.stride)
  }

  /** The commands of a group in front of the first one that cannot be captured. */
  function BeforeFailure(layout: VertexLayout, state: RegisterState, cs: seq<Command>): (r: seq<Command>)
    requires LayoutOk(layout) && CommandsOk(cs, layout.stride)
    ensures CommandsOk(r, layout.stride) && DrawnEach(layout, state, r).Ok?
  {
    if DrawnEach(layout, state, cs).Ok? then cs else BeforeFailure(layout, state, cs[..|cs| - 1])
  }

  /** What an exception discards of a group: the commands in front of the failing one. */
  function Failed(g: PendingGroup, state: RegisterState): PendingGroup {
    if g.commands == [] then NoGroup else g.(commands := BeforeFailure(g.layout, state, g.commands))
  }

  /** A draw command joins the pending group. */
  predicate Joins(g: Group, command: byte)
    requires IsDraw(command)
  {
    g.commands != [] && TriangleClass(PrimitiveOf(command)) && g.format == FormatOf(command)
  }

  /** When a group is pending, a complete command that joins it follows, and the registers still describe its layout. */
  predicate Ready(s: Stream, at: nat, state: RegisterState, g: PendingGroup) {
    g.commands != [] ==> NextJoins(s, at, g.format, g.layout.stride) && Layout(state, g.format) == Ok(g.layout)
  }

  /** What stands next in a stream: the end of the run, a command that draws nothing, or a complete draw command. */
  datatype Next =
    | Ends(ending: Ending)
    | Moves(state: RegisterState, at: nat)
    | Draws(layout: VertexLayout, format: nat, command: Command, at: nat)

  /** The command at `at`. A draw that joins the pending group reuses its layout; otherwise the layout is built. */
  function NextAt(s: Stream, at: nat, state: RegisterState, g: PendingGroup): (n: Next)
    ensures n.Moves? || n.Draws? ==> at < |s.data| && n.at > at
    ensures n.Draws? ==> LayoutOk(n.layout) && CommandOk(n.command, n.layout.stride)
  {
    if at >= |s.data| then Ends(Finished)
    else
      var command := s.data[at];
      if command < 8 then Moves(state, at + 1)
      else if IsDraw(command) then
        if |s.data| - at - 1 < 2 then Ends(Halted)
        else
          match (if Joins(g, command) then Ok(g.layout) else LayoutFor(state, FormatOf(command)))
          case Err => Ends(Threw)
          case Ok(layout) =>
            match Parse(s, command, at + 1, layout.stride)
            case None => Ends(Halted)
            case Some(c) => Draws(layout, FormatOf(command), c, at + 3 + |c.records|)
      else
        match s.other(state, command, s.data, at + 1)
        case Stop => Ends(Halted)
        case Continue(next, consumed) => Moves(next, at + 1 + consumed)
  }

  /** What a pending group relies on when the next command is `n`. */
  predicate Expected(n: Next, s: Stream, state: RegisterState, g: PendingGroup) {
    && (n.Draws? ==> Layout(state, n.format) == Ok(n.layout))
    && (g.commands != [] ==>
          || (n.Moves? && n.state == state && Ready(s, n.at, state, g))
          || (n.Draws? && n.layout == g.layout && n.format == g.format && TriangleClass(n.command.primitive)))
  }

  /** A pending group is only ever met by padding or by a draw that joins it, under the layout it reuses. */
  lemma PendingIsJoined(s: Stream, at: nat, state: RegisterState, g: PendingGroup)
    requires Ready(s, at, state, g)
    ensures Expected(NextAt(s, at, state, g), s, state, g)
    ensures NextAt(s, at, state, g) == NextAt(s, at, state, NoGroup)
  {
  }

  /** Reference machine: every command on its own. */
  function Reference(s: Stream, at: nat, state: RegisterState): Ran
    decreases |s.data| - at
  {
    match NextAt(s, at, state, NoGroup)
    case Ends(ending) => Ran(ending, state, [], NoGroup)
    case Moves(next, to) => Reference(s, to, next)
    case Draws(layout, _, c, to) =>
      match Drawn(layout, state, c)
      case Err => Ran(Threw, state, [], NoGroup)
      case Ok(corners) => After(corners, Reference(s, to, state))
  }

  /** The merging machine of `handle_draw`. */
  function Merging(s: Stream, at: nat, state: RegisterState, g: PendingGroup): Ran
    requires Ready(s, at, state, g)
    decreases |s.data| - at, 0
  {
    PendingIsJoined(s, at, state, g);
    match NextAt(s, at, state, g)
    case Ends(ending) => Ran(ending, state, [], NoGroup)
    case Moves(next, to) => Merging(s, to, next, g)
    case Draws(layout, format, c, to) => MergingDraw(s, to, state, g, layout, format, c)
  }

  /** A complete draw command; the rest of the stream starts at `next`. */
  function MergingDraw(s: Stream, next: nat, state: RegisterState, g: PendingGroup, layout: VertexLayout, format: nat,
                       c: Command): Ran
    requires LayoutOk(layout) && CommandOk(c, layout.stride) && Layout(state, format) == Ok(layout)
    requires g.commands != [] ==> g.layout == layout && g.format == format && TriangleClass(c.primitive)
    decreases |s.data| - next, 1
  {
    if !TriangleClass(c.primitive) then
      match Single(layout, state, c)
      case Err => Ran(Threw, state, [], NoGroup)
      case Ok(packets) => After(Corners(packets), Merging(s, next, state, g))
    else
      var grown := WithCommand(g, layout, format, c);
      if StaysPending(s, grown, next, format) then Merging(s, next, state, grown)
      else
        match Grouped(layout, state, grown.commands)
        case Err => Ran(Threw, state, [], Failed(grown, state))
        case Ok(packets) => After(Corners(packets), Merging(s, next, state, NoGroup))
  }

  // ----- The merging machine draws what the reference draws -----

  /** What the commands of a group draw one by one. */
  function Each(g: PendingGroup, state: RegisterState): Result<seq<Corner>> {
    if g.commands == [] then Ok([]) else DrawnEach(g.layout, state, g.commands)
  }

  function Lost(r: Ran): seq<Corner> {
    match Each(r.lost, r.state)
    case Ok(corners) => corners
    case Err => []
  }

  /** How a merged run, started with a pending group that draws `each`, relates to the run of single commands. */
  predicate Agrees(fast: Ran, slow: Ran, state: RegisterState, each: Result<seq<Corner>>, failed: PendingGroup) {
    && (fast.lost.commands != [] ==> !fast.state.cullAll && Each(fast.lost, fast.state).Ok?)
    && (each.Ok? && slow.ending != Threw ==> fast == After(each.value, slow))
    && (each.Ok? && slow.ending == Threw ==>
          fast.ending == Threw && fast.state == slow.state && fast.corners + Lost(fast) == each.value + slow.corners)
    && (each.Err? ==> fast.ending == Threw && fast.state == state && fast.corners == [] && fast.lost == failed)
  }

  /** What `each` and the failures become when a command that draws `drawn` joins a group. */
  predicate Joined(state: RegisterState, each: Result<seq<Corner>>, drawn: Result<seq<Corner>>,
                   all: Result<seq<Corner>>,
                   failed: PendingGroup, failedNow: PendingGroup)
  {
    && (each.Ok? && drawn.Ok? ==> all == Ok(each.value + drawn.value))
    && (each.Err? || drawn.Err? ==> all.Err?)
    && (each.Err? ==> failedNow == failed)
    && (each.Ok? && drawn.Err? ==> Each(failedNow, state) == each)
  }

  /** One more command joins the group: it is drawn behind the others, and a failure stays one. */
  lemma EachStep(g: PendingGroup, layout: VertexLayout, format: nat, c: Command, state: RegisterState)
    requires LayoutOk(layout) && CommandOk(c, layout.stride) && TriangleClass(c.primitive)
    requires g.commands != [] ==> g.layout == layout
    ensures var grown := WithCommand(g, layout, format, c);
            && Total(grown.commands) == Total(g.commands) + c.count
            && Joined(state, Each(g, state), Drawn(layout, state, c), Each(grown, state), Failed(g, state),
                      Failed(grown, state))
  {
    var grown := WithCommand(g, layout, format, c);
    assert grown.commands[..|grown.commands| - 1] == g.commands;
    assert DrawnEach(layout, state, []) == Ok([]);
    if Each(g, state).Ok? && Drawn(layout, state, c).Err? {
      assert BeforeFailure(layout, state, grown.commands) == g.commands;
    }
  }

  lemma {:induction false} FailureNotCulled(layout: VertexLayout, state: RegisterState, cs: seq<Command>)
    requires LayoutOk(layout) && CommandsOk(cs, layout.stride) && DrawnEach(layout, state, cs).Err?
    ensures !state.cullAll
  {
    if state.cullAll {
      CulledEach(layout, state, cs);
    }
  }

  predicate Small(g: PendingGroup) {
    Total(g.commands) <= MAX_COUNT * 64
  }

  /** The reference's run when a command draws `drawn` and the rest of the stream runs as `rest`. */
  function Then(drawn: Result<seq<Corner>>, state: RegisterState, rest: Ran): Ran {
    match drawn
    case Err => Ran(Threw, state, [], NoGroup)
    case Ok(corners) => After(corners, rest)
  }

  /** The group stays pending. */
  lemma StayingAgrees(fast: Ran, rest: Ran, state: RegisterState, each: Result<seq<Corner>>, drawn: Result<seq<Corner>>,
                      all: Result<seq<Corner>>, failed: PendingGroup, failedNow: PendingGroup)
    requires Joined(state, each, drawn, all, failed, failedNow) && Agrees(fast, rest, state, all, failedNow)
    ensures Agrees(fast, Then(drawn, state, rest), state, each, failed)
  {
    hide Each;
    if each.Ok? && drawn.Ok? {
      assert each.value + (drawn.value + rest.corners) == all.value + rest.corners;
    }
  }

  /** The group is submitted. */
  lemma SubmittingAgrees(later: Ran, rest: Ran, state: RegisterState, each: Result<seq<Corner>>,
                         drawn: Result<seq<Corner>>,
                         all: Result<seq<Corner>>, failed: PendingGroup, failedNow: PendingGroup, none: PendingGroup)
    requires Joined(state, each, drawn, all, failed, failedNow) && all.Ok? && Agrees(later, rest, state, Ok([]), none)
    ensures Agrees(After(all.value, later), Then(drawn, state, rest), state, each, failed)
  {
    hide Each, Lost;
    var fast := After(all.value, later);
    SameLost(all.value, later);
    if rest.ending != Threw {
      Regroup(each.value, drawn.value, later.corners, [], rest.corners);
    } else {
      Regroup(each.value, drawn.value, later.corners, Lost(later), rest.corners);
    }
  }

  lemma Regroup(x: seq<Corner>, y: seq<Corner>, c: seq<Corner>, l: seq<Corner>, z: seq<Corner>)
    requires c + l == [] + z || (l == [] && c == [] + z)
    ensures x + y + c + l == x + (y + z)
    ensures l == [] ==> x + y + c == x + (y + z)
  {
    assert c + l == z;
    assert x + y + c + l == x + (y + (c + l));
    if l == [] {
      assert c + l == c;
      assert x + y + c == x + (y + c);
    }
  }

  lemma SameLost(corners: seq<Corner>, later: Ran)
    ensures Lost(After(corners, later)) == Lost(later)
  {
  }

  /** The group cannot be submitted. */
  lemma FailingAgrees(rest: Ran, state: RegisterState, each: Result<seq<Corner>>, drawn: Result<seq<Corner>>,
                      all: Result<seq<Corner>>, failed: PendingGroup, failedNow: PendingGroup)
    requires Joined(state, each, drawn, all, failed, failedNow) && all.Err? && !state.cullAll
    requires Each(failedNow, state).Ok?
    ensures Agrees(Ran(Threw, state, [], failedNow), Then(drawn, state, rest), state, each, failed)
  {
    hide Each;
    var fast := Ran(Threw, state, [], failedNow);
    assert fast.corners + Lost(fast) == Lost(fast);
    if each.Ok? {
      assert each.value + [] == each.value;
    }
  }

  lemma FailedIsDrawn(g: PendingGroup, state: RegisterState)
    ensures Each(Failed(g, state), state).Ok?
  {
  }

  /** The merging machine draws what the reference draws, from every point of every stream. */
  lemma {:induction false} MergingAgrees(s: Stream, at: nat, state: RegisterState, g: PendingGroup)
    requires Ready(s, at, state, g) && Small(g)
    ensures Agrees(Merging(s, at, state, g), Reference(s, at, state), state, Each(g, state), Failed(g, state))
    decreases |s.data| - at, 0
  {
    PendingIsJoined(s, at, state, g);
    hide NextAt, Drawn, DrawnEach, Ready, Agrees, Failed, Layout, LayoutOk, CommandsOk, CommandOk;
    match NextAt(s, at, state, g) {
      case Ends(ending) =>
        NothingPending(Ran(ending, state, [], NoGroup), state, g);
      case Moves(next, to) => MergingAgrees(s, to, next, g);
      case Draws(layout, format, c, to) => DrawAgrees(s, to, state, g, layout, format, c);
    }
  }

  lemma NothingPending(r: Ran, state: RegisterState, g: PendingGroup)
    requires g.commands == [] && r.corners == [] && r.lost == NoGroup
    ensures Agrees(r, r, state, Each(g, state), Failed(g, state))
  {
  }

  lemma {:induction false} DrawAgrees(s: Stream, next: nat, state: RegisterState, g: PendingGroup, layout: VertexLayout,
                                      format: nat, c: Command)
    requires LayoutOk(layout) && CommandOk(c, layout.stride) && Layout(state, format) == Ok(layout)
    requires g.commands != [] ==> g.layout == layout && g.format == format && TriangleClass(c.primitive)
    requires Small(g)
    ensures Agrees(MergingDraw(s, next, state, g, layout, format, c),
                   Then(Drawn(layout, state, c), state, Reference(s, next, state)),
                   state, Each(g, state), Failed(g, state))
    decreases |s.data| - next, 1
  {
    var each, drawn, rest := Each(g, state), Drawn(layout, state, c), Reference(s, next, state);
    if !TriangleClass(c.primitive) {
      SingleIsDrawn(layout, state, c);
      MergingAgrees(s, next, state, g);
      hide Drawn, Single, Corners, Reference, Merging;
      AloneAgrees(Merging(s, next, state, g), rest, state, drawn, Failed(g, state));
    } else {
      var grown := WithCommand(g, layout, format, c);
      EachStep(g, layout, format, c, state);
      var all, failed, failedNow := Each(grown, state), Failed(g, state), Failed(grown, state);
      if StaysPending(s, grown, next, format) {
        MergingAgrees(s, next, state, grown);
        StayingAgrees(Merging(s, next, state, grown), rest, state, each, drawn, all, failed, failedNow);
      } else {
        GroupedIsEach(layout, state, grown.commands);
        FailedIsDrawn(grown, state);
        if all.Ok? {
          MergingAgrees(s, next, state, NoGroup);
          hide Drawn, DrawnEach, Grouped, Agrees, Joined, Reference, Merging, Failed, StaysPending;
          SubmittingAgrees(Merging(s, next, state, NoGroup), rest, state, each, drawn, all, failed, failedNow,
                           Failed(NoGroup, state));
        } else {
          FailureNotCulled(layout, state, grown.commands);
          hide Drawn, DrawnEach, Grouped, Agrees, Joined, Reference, Merging, Failed, StaysPending;
          FailingAgrees(rest, state, each, drawn, all, failed, failedNow);
        }
      }
    }
  }

  /** A line or point draw, met without a pending group. */
  lemma AloneAgrees(later: Ran, rest: Ran, state: RegisterState, drawn: Result<seq<Corner>>, none: PendingGroup)
    requires Agrees(later, rest, state, Ok([]), none)
    ensures Agrees(Then(drawn, state, later), Then(drawn, state, rest), state, Ok([]), none)
  {
    assert Each(NoGroup, state) == Ok([]);
    hide Each;
    assert [] + rest.corners == rest.corners;
    if drawn.Ok? {
      assert [] + (drawn.value + rest.corners) == drawn.value + rest.corners;
      assert drawn.value + later.corners + Lost(later) == drawn.value + (later.corners + Lost(later));
    }
  }

  /** Index entries of all commands of a group. */
  function IndexTotal(cs: seq<Command>): nat {
    if cs == [] then 0 else IndexTotal(cs[..|cs| - 1]) + IndexCount(cs[|cs| - 1].primitive, cs[|cs| - 1].count)
  }

  /** Nothing of a group is culled one by one: it draws as many corners as it has index entries. */
  lemma {:induction false} EachSize(layout: VertexLayout, state: RegisterState, cs: seq<Command>)
    requires LayoutOk(layout) && CommandsOk(cs, layout.stride) && !state.cullAll && DrawnEach(layout, state, cs).Ok?
    ensures |DrawnEach(layout, state, cs).value| == IndexTotal(cs)
  {
    if cs != [] {
      EachSize(layout, state, cs[..|cs| - 1]);
    }
  }

  // ----- When merging loses something -----

  /** How far a group has got: the bytes and vertices of its commands, and whether one of them names a vertex. */
  datatype Extent = Extent(bytes: nat, vertices: nat, shown: bool)

  const NoExtent := Extent(0, 0, false)

  /** The capture of a command throws. */
  predicate Uncaptured(layout: VertexLayout, state: RegisterState, c: Command)
    requires LayoutOk(layout) && CommandOk(c, layout.stride)
  {
    c.count > 0 && !Culled(state, c.primitive) && SnapshotOf(layout, state, c.count, c.records).Err?
  }

  function Longer(x: Extent, c: Command): Extent {
    Extent(x.bytes + |c.records|, x.vertices + c.count, x.shown || IndexCount(c.primitive, c.count) > 0)
  }

  /** A group of this extent is not cut behind the command that ends at `next`: it is below both caps, and a complete
      triangle draw of its format follows. */
  predicate Uncut(s: Stream, x: Extent, next: nat, format: nat, stride: nat) {
    x.bytes < 262144 && x.vertices <= 65535 * 64 && NextJoins(s, next, format, stride)
  }

  /** Merging loses something, told from the stream and the registers alone: the first command whose capture throws has
      a command that names a vertex in front of it in its group. `x` is the extent of the group met so far. */
  predicate Loses(s: Stream, at: nat, state: RegisterState, x: Extent)
    decreases |s.data| - at
  {
    match NextAt(s, at, state, NoGroup)
    case Ends(_) => false
    case Moves(next, to) => Loses(s, to, next, x)
    case Draws(layout, format, c, to) =>
      if Uncaptured(layout, state, c) then x.shown
      else if TriangleClass(c.primitive) && Uncut(s, Longer(x, c), to, format, layout.stride)
          then Loses(s, to, state, Longer(x, c))
      else Loses(s, to, state, NoExtent)
  }

  function ExtentOf(g: Group): Extent {
    Extent(|Flat(g.commands)|, Total(g.commands), IndexTotal(g.commands) > 0)
  }

  lemma ExtentGrows(g: PendingGroup, layout: VertexLayout, format: nat, c: Command)
    requires LayoutOk(layout) && CommandOk(c, layout.stride) && TriangleClass(c.primitive)
    requires g.commands != [] ==> g.layout == layout
    ensures ExtentOf(WithCommand(g, layout, format, c)) == Longer(ExtentOf(g), c)
  {
    assert WithCommand(g, layout, format, c).commands[..|g.commands|] == g.commands;
  }

  /** What the first failing command of a group discards is the group in front of it. */
  lemma FailsAt(g: PendingGroup, layout: VertexLayout, format: nat, c: Command, state: RegisterState)
    requires LayoutOk(layout) && CommandOk(c, layout.stride) && TriangleClass(c.primitive)
    requires g.commands != [] ==> g.layout == layout
    requires Each(g, state).Ok? && Drawn(layout, state, c).Err?
    ensures Failed(WithCommand(g, layout, format, c), state).commands == g.commands
  {
    var grown := WithCommand(g, layout, format, c);
    assert grown.commands[..|g.commands|] == g.commands;
    assert DrawnEach(layout, state, []) == Ok([]);
    assert DrawnEach(layout, state, g.commands).Ok?;
    assert BeforeFailure(layout, state, grown.commands) == g.commands;
  }

  /** From every point of a stream, with any group whose commands can be captured: what is lost names a vertex exactly
      if the stream loses something. */
  lemma {:induction false} LosesFrom(s: Stream, at: nat, state: RegisterState, g: PendingGroup)
    requires Ready(s, at, state, g) && Small(g) && Each(g, state).Ok?
    ensures IndexTotal(Merging(s, at, state, g).lost.commands) > 0 <==> Loses(s, at, state, ExtentOf(g))
    decreases |s.data| - at, 0
  {
    PendingIsJoined(s, at, state, g);
    hide NextAt, Each, Drawn, DrawnEach, Ready, Layout, LayoutOk, CommandsOk, CommandOk, MergingDraw, Uncaptured, Uncut,
        Longer;
    match NextAt(s, at, state, g) {
      case Ends(ending) =>
      case Moves(next, to) =>
        SameEach(g, state, next);
        LosesFrom(s, to, next, g);
      case Draws(layout, format, c, to) => LosesAtDraw(s, to, state, g, layout, format, c);
    }
  }

  /** Registers only change while nothing is pending. */
  lemma SameEach(g: PendingGroup, state: RegisterState, next: RegisterState)
    requires Each(g, state).Ok? && (g.commands == [] || next == state)
    ensures Each(g, next).Ok?
  {
  }

  lemma {:induction false} LosesAtDraw(s: Stream, next: nat, state: RegisterState, g: PendingGroup,
                                       layout: VertexLayout, format: nat,
                                       c: Command)
    requires LayoutOk(layout) && CommandOk(c, layout.stride) && Layout(state, format) == Ok(layout)
    requires g.commands != [] ==> g.layout == layout && g.format == format && TriangleClass(c.primitive)
    requires Small(g) && Each(g, state).Ok?
    ensures IndexTotal(MergingDraw(s, next, state, g, layout, format, c).lost.commands) > 0
            <==> if Uncaptured(layout, state, c) then ExtentOf(g).shown
                 else if TriangleClass(c.primitive) && Uncut(s, Longer(ExtentOf(g), c), next, format, layout.stride)
                 then Loses(s, next, state, Longer(ExtentOf(g), c))
                 else Loses(s, next, state, NoExtent)
    decreases |s.data| - next, 1
  {
    assert Uncaptured(layout, state, c) <==> Drawn(layout, state, c).Err?;
    hide Drawn, Uncaptured, Loses, Grouped, Single, Corners, CommandsOk, LayoutOk, CommandOk;
    if !TriangleClass(c.primitive) {
      SingleIsDrawn(layout, state, c);
      if Drawn(layout, state, c).Ok? {
        LosesFrom(s, next, state, g);
      }
    } else {
      var grown := WithCommand(g, layout, format, c);
      EachStep(g, layout, format, c, state);
      ExtentGrows(g, layout, format, c);
      GroupedIsEach(layout, state, grown.commands);
      if Drawn(layout, state, c).Err? {
        FailsAt(g, layout, format, c, state);
        if StaysPending(s, grown, next, format) {
          MergingAgrees(s, next, state, grown);
        }
      } else if StaysPending(s, grown, next, format) {
        LosesFrom(s, next, state, grown);
      } else {
        LosesFrom(s, next, state, NoGroup);
      }
    }
  }

  /** Main result: over every stream, merging ends as the unmerged commands do, in the same registers, and draws the
      same corners in the same order. Only when a draw throws can anything be missing: the earlier draws of the group
      it was merged into, and nothing else; so the runs draw the same exactly when those draws name no vertex, which can
      be told from the stream and the registers before anything is drawn. */
  lemma MergingIsReference(s: Stream, state: RegisterState)
    ensures var fast, slow := Merging(s, 0, state, NoGroup), Reference(s, 0, state);
            && fast.ending == slow.ending && fast.state == slow.state
            && (slow.ending != Threw ==> fast == slow)
            && fast.corners + Lost(fast) == slow.corners
            && (fast.corners == slow.corners <==> IndexTotal(fast.lost.commands) == 0)
            && (fast.corners != slow.corners <==> Loses(s, 0, state, NoExtent))
  {
    var fast, slow := Merging(s, 0, state, NoGroup), Reference(s, 0, state);
    MergingAgrees(s, 0, state, NoGroup);
    assert [] + slow.corners == slow.corners;
    ReferenceLosesNothing(s, 0, state);
    if fast.lost.commands != [] {
      EachSize(fast.lost.layout, fast.state, fast.lost.commands);
    }
    assert |Lost(fast)| == IndexTotal(fast.lost.commands);
    LosesFrom(s, 0, state, NoGroup);
    hide Loses, Merging, Reference, Each, DrawnEach;
  }

  lemma {:induction false} ReferenceLosesNothing(s: Stream, at: nat, state: RegisterState)
    ensures Reference(s, at, state).lost == NoGroup
    decreases |s.data| - at
  {
    hide Drawn, LayoutOk, CommandOk;
    match NextAt(s, at, state, NoGroup) {
      case Ends(ending) =>
      case Moves(next, to) => ReferenceLosesNothing(s, to, next);
      case Draws(layout, format, c, to) => ReferenceLosesNothing(s, to, state);
    }
  }

  // ----- The front end as it runs -----

  /** Type and vertex count of one pending command. */
  datatype Segment = Segment(primitive: Primitive, count: nat)

  function Segments(cs: seq<Command>): (r: seq<Segment>)
    ensures |r| == |cs|
  {
    seq(|cs|, i requires 0 <= i < |cs| => Segment(cs[i].primitive, cs[i].count))
  }

  /** The first `k` commands of a group extend by command `k`. */
  lemma PrefixStep(cs: seq<Command>, k: nat)
    requires k < |cs|
    ensures Total(cs[..k + 1]) == Total(cs[..k]) + cs[k].count
    ensures IndexTotal(cs[..k + 1]) == IndexTotal(cs[..k]) + IndexCount(cs[k].primitive, cs[k].count)
    ensures MergedIndices(cs[..k + 1]) == MergedIndices(cs[..k]) + Indices(cs[k].primitive, cs[k].count, Total(cs[..k]))
  {
    assert cs[..k + 1][..k] == cs[..k];
  }

  lemma {:induction false} MergedSize(cs: seq<Command>)
    ensures |MergedIndices(cs)| == IndexTotal(cs)
  {
    if cs != [] {
      MergedSize(cs[..|cs| - 1]);
    }
  }

  lemma {:induction false} PrefixGrows(cs: seq<Command>, k: nat)
    requires k <= |cs|
    ensures IndexTotal(cs[..k]) <= IndexTotal(cs)
    decreases |cs| - k
  {
    if k == |cs| {
      assert cs[..k] == cs;
    } else {
      PrefixStep(cs, k);
      PrefixGrows(cs, k + 1);
    }
  }

  /** The counting loop of `snapshot_segments`. */
  method CountSegments(segments: seq<Segment>, ghost cs: seq<Command>) returns (r: Result<(nat, nat)>)
    requires segments == Segments(cs)
    ensures r.Ok? <==> AllTriangles(cs)
    ensures r.Ok? ==> r.value == (Total(cs), IndexTotal(cs))
  {
    var total, indexCount: nat := 0, 0;
    for k := 0 to |segments|
      invariant total == Total(cs[..k]) && indexCount == IndexTotal(cs[..k])
      invariant forall i :: 0 <= i < k ==> TriangleClass(cs[i].primitive)
    {
      PrefixStep(cs, k);
      var n := segments[k].count;
      match segments[k].primitive {
        case Quads => indexCount := indexCount + n / 4 * 6;
        case Triangles => indexCount := indexCount + n / 3 * 3;
        case TriangleStrip => indexCount := indexCount + if n > 2 then (n - 2) * 3 else 0;
        case TriangleFan => indexCount := indexCount + if n > 2 then (n - 2) * 3 else 0;
        case _ => return Err;
      }
      total := total + n;
    }
    assert cs[..|cs|] == cs;
    return Ok((total, indexCount));
  }

  /** The index loop of `snapshot_segments`: every command writes its triangles behind the previous ones. */
  method WriteSegments(segments: seq<Segment>, indexCount: nat, ghost cs: seq<Command>) returns (indices: seq<nat>)
    requires segments == Segments(cs) && AllTriangles(cs) && indexCount == IndexTotal(cs)
    ensures indices == MergedIndices(cs)
  {
    var out := new nat[indexCount](i => 0);
    var cursor, base: nat := 0, 0;
    for k := 0 to |segments|
      invariant cursor == IndexTotal(cs[..k]) <= out.Length && base == Total(cs[..k])
      invariant out[..cursor] == MergedIndices(cs[..k])
    {
      PrefixStep(cs, k);
      PrefixGrows(cs, k + 1);
      MergedSize(cs[..k]);
      ghost var before := out[..cursor];
      cursor := WriteTriangleIndices(out, cursor, segments[k].primitive, segments[k].count, base);
      assert out[..cursor] == before + Indices(cs[k].primitive, cs[k].count, base);
      base := base + segments[k].count;
    }
    assert cs[..|cs|] == cs;
    return out[..cursor];
  }

  /** `snapshot_segments`. */
  method SnapshotSegments(layout: VertexLayout, state: RegisterState, segments: seq<Segment>, records: seq<byte>,
                          ghost cs: seq<Command>)
    returns (r: Result<Geometry>)
    requires LayoutOk(layout) && segments == Segments(cs) && records == Flat(cs)
    ensures r == MergedSnapshot(layout, state, cs)
  {
    var counted := CountSegments(segments, cs);
    if counted.Err? {
      return Err;
    }
    var (total, indexCount) := counted.value;
    if total > 0xFFFF_FFFF {
      return Err;
    }
    var captured := SnapshotRecords(layout, state, total, records);
    if captured.Err? {
      return Err;
    }
    var indices := WriteSegments(segments, indexCount, cs);
    return Ok(captured.value.(indices := indices));
  }

  /** `next_draw_joins`. */
  method NextDrawJoins(s: Stream, from: nat, format: nat, stride: nat) returns (joins: bool)
    ensures joins == NextJoins(s, from, format, stride)
  {
    var at := from;
    while at < |s.data| && s.data[at] == 0
      invariant SkipZeros(s.data, at) == SkipZeros(s.data, from)
      decreases |s.data| - at
    {
      at := at + 1;
    }
    if at >= |s.data| || |s.data| - at < 3 {
      return false;
    }
    var command := s.data[at];
    var opcode := command - command % 8;
    if opcode < 0x80 || opcode > 0xA0 || command % 8 != format {
      return false;
    }
    var count := CountAt(s, at + 1);
    SpanIsProduct(stride, count);
    return count * stride <= |s.data| - at - 3;
  }

  /** How `handle_draw` returns: false, an exception, or true at a new position. */
  datatype Handled = Refused | Raised | Consumed(at: nat)

  class FrontEnd {
    var state: RegisterState
    var submitted: seq<Packet>

    // The pending group.
    var records: seq<byte>
    var segments: seq<Segment>
    var layout: VertexLayout
    var format: nat
    var vertices: nat
    ghost var commands: seq<Command>

    ghost predicate Valid()
      reads this
    {
      && GroupOk(Group(layout, format, commands))
      && records == Flat(commands) && segments == Segments(commands) && vertices == Total(commands)
      && Total(commands) <= MAX_COUNT * 64
    }

    ghost function Pending(): PendingGroup
      reads this
      requires Valid()
    {
      if commands == [] then NoGroup else Group(layout, format, commands)
    }

    constructor (state: RegisterState)
      ensures Valid() && Pending() == NoGroup && this.state == state && submitted == []
    {
      this.state, submitted := state, [];
      records, segments, layout, format, vertices, commands := [], [], VertexLayout([], 0), 0, 0, [];
    }

    /** `submit`. */
    method Submit(layout: VertexLayout, c: Command) returns (raised: bool)
      requires LayoutOk(layout)
      modifies this`submitted
      ensures raised <==> Single(layout, state, c).Err?
      ensures submitted == old(submitted) + if raised then [] else Single(layout, state, c).value
    {
      if c.count == 0 || (state.cullAll && !c.primitive.Lines? && !c.primitive.LineStrip? && !c.primitive.Points?) {
        return false;
      }
      var captured := SnapshotRecords(layout, state, c.count, c.records);
      if captured.Err? {
        return true;
      }
      var indices := BuildIndices(c.primitive, c.count);
      if indices == [] {
        return false;
      }
      submitted := submitted + [Packet(captured.value.(primitive := c.primitive, indices := indices), state)];
      return false;
    }

    /** The cleanup of `submit_pending`. */
    method Clear()
      modifies this`records, this`segments, this`vertices, this`commands
      ensures records == [] && segments == [] && vertices == 0 && commands == []
    {
      records, segments, vertices, commands := [], [], 0, [];
    }

    /** `submit_pending`: the group is gone afterwards, submitted or not. */
    method SubmitPending() returns (raised: bool)
      requires GroupOk(Group(layout, format, commands))
      requires records == Flat(commands) && segments == Segments(commands) && vertices == Total(commands)
      modifies this`submitted, this`records, this`segments, this`vertices, this`commands
      ensures Valid() && Pending() == NoGroup
      ensures old(commands) != [] ==> (raised <==> Grouped(layout, state, old(commands)).Err?)
      ensures submitted == old(submitted) + if raised || old(commands) == [] then []
          else Grouped(layout, state, old(commands)).value
    {
      raised := false;
      if |segments| == 1 {
        assert commands[..0] == [] && records == [] + commands[0].records;
        assert Command(segments[0].primitive, segments[0].count, records) == commands[0];
        raised := Submit(layout, Command(segments[0].primitive, segments[0].count, records));
      } else if |segments| > 1 && !state.cullAll {
        var packet := SnapshotSegments(layout, state, segments, records, commands);
        if packet.Err? {
          raised := true;
        } else if packet.value.indices != [] {
          submitted := submitted + [Packet(packet.value, state)];
        }
      }
      Clear();
    }

    /** Adds a complete triangle command to the group. */
    method Add(used: VertexLayout, usedFormat: nat, c: Command)
      requires Valid() && LayoutOk(used) && CommandOk(c, used.stride) && TriangleClass(c.primitive)
      requires commands != [] ==> layout == used
      modifies this`records, this`segments, this`layout, this`format, this`vertices, this`commands
      ensures Group(layout, format, commands) == WithCommand(old(Pending()), used, usedFormat, c)
      ensures records == Flat(commands) && segments == Segments(commands) && vertices == Total(commands)
      ensures Total(commands) == old(Total(commands)) + c.count
    {
      if segments == [] {
        layout, format := used, usedFormat;
      }
      records := records + c.records;
      segments := segments + [Segment(c.primitive, c.count)];
      vertices := vertices + c.count;
      commands := commands + [c];
      assert commands[..|commands| - 1] == old(commands);
    }

    /** A complete triangle command: the group stays pending or is submitted. */
    method HandleTriangles(s: Stream, next: nat, used: VertexLayout, usedFormat: nat, c: Command)
      returns (raised: bool, ghost drawn: seq<Packet>)
      requires Valid() && LayoutOk(used) && CommandOk(c, used.stride) && TriangleClass(c.primitive)
      requires Layout(state, usedFormat) == Ok(used) && (commands != [] ==> layout == used && format == usedFormat)
      modifies this`submitted, this`records, this`segments, this`layout, this`format, this`vertices, this`commands
      ensures Valid() && submitted == old(submitted) + drawn && Ready(s, next, state, Pending())
      ensures raised ==> drawn == [] && Pending() == NoGroup
      ensures var run := MergingDraw(s, next, state, old(Pending()), used, usedFormat, c);
              if raised then run.ending == Threw && run.state == state && run.corners == []
              else run == After(Corners(drawn), Merging(s, next, state, Pending()))
    {
      Add(used, usedFormat, c);
      drawn := [];
      if |records| < MERGED_RECORD_BYTES && vertices <= MAX_COUNT * 64 {
        var joins := NextDrawJoins(s, next, usedFormat, used.stride);
        if joins {
          assert Pending() == WithCommand(old(Pending()), used, usedFormat, c);
          Nothing(Merging(s, next, state, Pending()));
          return false, [];
        }
      }
      ghost var grown := commands;
      raised := SubmitPending();
      if !raised {
        drawn := Grouped(used, state, grown).value;
      }
    }

    /** The operands of the draw command at `at`, under the group's layout when it joins the group. */
    method ReadDraw(s: Stream, at: nat) returns (n: Next)
      requires Valid() && at < |s.data| && IsDraw(s.data[at])
      ensures n == NextAt(s, at, state, Pending())
    {
      var command := s.data[at];
      if |s.data| - at - 1 < 2 {
        return Ends(Halted);
      }
      var primitive := PrimitiveOf(command);
      var count := CountAt(s, at + 1);
      var joined := segments != [] && TriangleClass(primitive) && format == FormatOf(command);
      var used := layout;
      if !joined {
        var built := Build(state, FormatOf(command));
        if built.Err? {
          return Ends(Threw);
        }
        used := built.value;
      }
      SpanIsProduct(used.stride, count);
      var total: nat := count * used.stride;
      if total > |s.data| - at - 3 {
        return Ends(Halted);
      }
      return Draws(used, FormatOf(command), Command(primitive, count, s.data[at + 3..at + 3 + total]), at + 3 + total);
    }

    /** `handle_draw` for the command at `at`: either nothing changes, or the merging machine's run continues behind
        the command with what was submitted and what is now pending. */
    method HandleDraw(s: Stream, at: nat) returns (r: Handled, ghost drawn: seq<Packet>)
      requires Valid() && at < |s.data| && IsDraw(s.data[at]) && Ready(s, at, state, Pending())
      modifies this`submitted, this`records, this`segments, this`layout, this`format, this`vertices, this`commands
      ensures Valid() && submitted == old(submitted) + drawn
      ensures var run := Merging(s, at, state, old(Pending()));
              match r
              case Refused => run == Ran(Halted, state, [], NoGroup) && Pending() == NoGroup && drawn == []
              case Raised => run.ending == Threw && run.state == state && run.corners == [] && Pending() == NoGroup
                  && drawn == []
              case Consumed(to) => at < to && Ready(s, to, state, Pending())
                                   && run == After(Corners(drawn), Merging(s, to, state, Pending()))
    {
      PendingIsJoined(s, at, state, Pending());
      drawn := [];
      var n := ReadDraw(s, at);
      assert !n.Moves? && n != Ends(Finished);
      hide NextAt, Ready, Layout;
      if n.Ends? {
        r := if n.ending == Halted then Refused else Raised;
        return;
      }
      var raised: bool;
      if TriangleClass(n.command.primitive) {
        raised, drawn := HandleTriangles(s, n.at, n.layout, n.format, n.command);
      } else {
        raised := Submit(n.layout, n.command);
        drawn := if raised then [] else Single(n.layout, state, n.command).value;
      }
      r := if raised then Raised else Consumed(n.at);
    }

    /** Padding and the commands that are not draws. */
    method ReadOther(s: Stream, at: nat) returns (n: Next)
      requires Valid() && at < |s.data| && (s.data[at] < 8 || !IsDraw(s.data[at]))
      ensures n == NextAt(s, at, state, Pending()) && !n.Draws?
    {
      var command := s.data[at];
      if command < 8 {
        return Moves(state, at + 1);
      }
      match s.other(state, command, s.data, at + 1) {
        case Stop => return Ends(Halted);
        case Continue(next, consumed) => return Moves(next, at + 1 + consumed);
      }
    }

    /** The command loop of `process`: it ends as the unmerged commands do, submits what they draw, and leaves no
        group pending. */
    method Process(s: Stream) returns (ending: Ending, ghost drawn: seq<Packet>)
      requires Valid() && Pending() == NoGroup
      modifies this
      ensures Valid() && Pending() == NoGroup && submitted == old(submitted) + drawn
      ensures var run := Merging(s, 0, old(state), NoGroup);
              ending == run.ending && state == run.state && Corners(drawn) == run.corners
      ensures var slow := Reference(s, 0, old(state));
              ending == slow.ending && state == slow.state && (ending != Threw ==> Corners(drawn) == slow.corners)
      ensures Corners(drawn) == Reference(s, 0, old(state)).corners <==> !Loses(s, 0, old(state), NoExtent)
    {
      hide Merging, Reference, NextAt, Corners, NextJoins, Loses, Lost, IndexTotal, Flat, Total, Segments, GroupOk;
      MergingIsReference(s, state);
      drawn := [];
      Nothing(Merging(s, 0, state, NoGroup));
      var at: nat := 0;
      hide Ready;
      while at < |s.data|
        invariant Valid() && submitted == old(submitted) + drawn && Ready(s, at, state, Pending())
        invariant Merging(s, 0, old(state), NoGroup) == After(Corners(drawn), Merging(s, at, state, Pending()))
        decreases |s.data| - at
      {
        var command := s.data[at];
        if command < 8 || !IsDraw(command) {
          var n := ReadOther(s, at);
          MergingSteps(s, at, state, Pending());
          if n.Ends? {
            assert Corners(drawn) + [] == Corners(drawn);
            return n.ending, drawn;
          }
          state, at := n.state, n.at;
        } else {
          var handled, packets := HandleDraw(s, at);
          if !handled.Consumed? {
            assert drawn + packets == drawn && Corners(drawn) + [] == Corners(drawn);
            return if handled.Refused? then Halted else Threw, drawn;
          }
          AfterTwice(drawn, packets, Merging(s, handled.at, state, Pending()));
          drawn, at := drawn + packets, handled.at;
        }
      }
      MergingSteps(s, at, state, Pending());
      assert NextAt(s, at, state, Pending()) == Ends(Finished) by {
        AtTheEnd(s, at, state, Pending());
      }
      assert Corners(drawn) + [] == Corners(drawn);
      return Finished, drawn;
    }
  }

  /** A command that draws nothing. */
  lemma MergingSteps(s: Stream, at: nat, state: RegisterState, g: PendingGroup)
    requires Ready(s, at, state, g)
    ensures var n := NextAt(s, at, state, g);
            && (n.Ends? ==> Merging(s, at, state, g) == Ran(n.ending, state, [], NoGroup) && g.commands == [])
            && (n.Moves? ==> Ready(s, n.at, n.state, g) && Merging(s, at, state, g) == Merging(s, n.at, n.state, g))
  {
    PendingIsJoined(s, at, state, g);
    hide NextAt, Ready, Layout;
  }

  lemma AtTheEnd(s: Stream, at: nat, state: RegisterState, g: PendingGroup)
    requires at >= |s.data|
    ensures NextAt(s, at, state, g) == Ends(Finished)
  {
  }

  lemma AfterTwice(a: seq<Packet>, b: seq<Packet>, r: Ran)
    ensures After(Corners(a), After(Corners(b), r)) == After(Corners(a + b), r)
  {
    CornersAppend(a, b);
    hide Corners;
    assert Corners(a) + (Corners(b) + r.corners) == Corners(a) + Corners(b) + r.corners;
  }

  lemma {:induction false} CornersAppend(a: seq<Packet>, b: seq<Packet>)
    ensures Corners(a + b) == Corners(a) + Corners(b)
  {
    hide PacketCorners;
    if b == [] {
      assert a + b == a;
    } else {
      assert (a + b)[..|a + b| - 1] == a + b[..|b| - 1];
      CornersAppend(a, b[..|b| - 1]);
    }
  }

  lemma Nothing(r: Ran)
    ensures After(Corners([]), r) == r
  {
    assert [] + r.corners == r.corners;
  }
}
