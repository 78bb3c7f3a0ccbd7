/** Batched draw submission (ps5/gpu/agc_gx_draw.cpp): draws are recorded into a ring of four batches that the GPU
    executes in order, reading the batch's storage when it gets to it, not when the batch is submitted. */
module AgcGxDraw {
  import opened Bytes

  const SLOTS: nat := 4
  const BATCH_DRAWS: nat := 256
  const CONSTANT_BYTES: nat := 3648    // transforms, lighting and texture generation
  const UNIFORM_BYTES: nat := 2288     // material selectors and TEV program
  const MIN_UPLOAD: nat := 0x40_0000
  const MAX_ADDRESS: nat := 0xFFFF_FFFF
  const MAX_SHADER_REGISTERS: nat := 512
  const PRIMITIVE_REGISTERS: nat := 3
  const BATCH_REGISTERS: nat := MAX_SHADER_REGISTERS + PRIMITIVE_REGISTERS    // copied once for every batch
  const MAX_REGISTERS: nat := 1024     // context registers of one draw
  const REGISTER_CAPACITY: nat := 98304
  const WORD_CAPACITY: nat := 65536
  const WORD_MARGIN: nat := 256        // packets of one draw, and the fence
  const FENCE_WORDS: nat := 8

  type Register = nat

  /** A word of a command buffer: part of a packet, or of the fence that writes a serial to the completion label. */
  datatype Word = Code(value: nat) | Completion(serial: nat)

  function Aligned(n: nat): (r: nat)
    ensures r % 256 == 0 && n <= r < n + 256
  {
    (n + 255) / 256 * 256
  }

  /** One draw as the caller passes it. `legal` stands for the checks on targets and raster state, `invisible` for
      cull-all or an empty scissor, `commands` for the packets the driver writes for it. */
  datatype Packet = Packet(
    geometry: seq<byte>, indices: seq<byte>, constants: seq<byte>, uniforms: seq<byte>, registers: seq<Register>,
    owner: nat, legal: bool, invisible: bool, commands: seq<Word>)

  /** The registers every batch has a copy of: those of the shaders and those of the primitive. */
  datatype Shared = Shared(shader: seq<Register>, primitive: seq<Register>)

  /** What the GPU reads for one draw: its packets, and everything they point to. */
  datatype Seen = Seen(geometry: seq<byte>, indices: seq<byte>, constants: seq<byte>, uniforms: seq<byte>,
                       registers: seq<Register>, shared: Shared, commands: seq<Word>)

  function SeenOf(p: Packet, shared: Shared): Seen {
    Seen(p.geometry, p.indices, p.constants, p.uniforms, p.registers, shared, p.commands)
  }

  /** A recorded draw: where in the batch's storage its parts are. */
  datatype Draw = Draw(
    geometryAt: nat, geometrySize: nat, indicesAt: nat, indicesSize: nat, constantsAt: nat, uniformsAt: nat,
    registersAt: nat, registerCount: nat, commandsAt: nat, commandCount: nat)

  /** A batch: GPU-visible storage, how much of it is used, the recorded draws, and the last uploaded blocks. */
  datatype Batch = Batch(
    upload: seq<byte>, uploadUsed: nat, registers: seq<Register>, registerUsed: nat, sharedCount: nat, words: seq<Word>,
    wordsUsed: nat, draws: seq<Draw>, constantsAt: Option<nat>, uniformsAt: Option<nat>, owners: seq<nat>, serial: nat,
    submitted: bool)

  /** `n` items from `at`. */
  function Part<T>(s: seq<T>, at: nat, n: nat): seq<T> {
    if at + n <= |s| then s[at..at + n] else []
  }

  /** The batch's copy of the shared registers. */
  function SharedIn(b: Batch): Shared {
    Shared(Part(b.registers, 0, b.sharedCount), Part(b.registers, MAX_SHADER_REGISTERS, PRIMITIVE_REGISTERS))
  }

  /** What the GPU reads of one draw, at the moment it reads. */
  function Fetch(b: Batch, d: Draw): Seen {
    Seen(Part(b.upload, d.geometryAt, d.geometrySize), Part(b.upload, d.indicesAt, d.indicesSize),
         Part(b.upload, d.constantsAt, CONSTANT_BYTES), Part(b.upload, d.uniformsAt, UNIFORM_BYTES),
         Part(b.registers, d.registersAt, d.registerCount), SharedIn(b), Part(b.words, d.commandsAt, d.commandCount))
  }

  /** What the GPU draws when it executes the batch. */
  function Image(b: Batch): (r: seq<Seen>)
    ensures |r| == |b.draws|
  {
    seq(|b.draws|, i requires 0 <= i < |b.draws| => Fetch(b, b.draws[i]))
  }

  /** The draw's parts lie in the used storage, its blocks at multiples of 256. */
  predicate Recorded(b: Batch, d: Draw) {
    && d.geometryAt % 256 == 0 && d.indicesAt % 256 == 0 && d.constantsAt % 256 == 0 && d.uniformsAt % 256 == 0
    && d.geometryAt + d.geometrySize <= b.uploadUsed && d.indicesAt + d.indicesSize <= b.uploadUsed
    && d.constantsAt + CONSTANT_BYTES <= b.uploadUsed && d.uniformsAt + UNIFORM_BYTES <= b.uploadUsed
    && d.registersAt + d.registerCount <= b.registerUsed && d.commandsAt + d.commandCount <= b.wordsUsed
  }

  /** The shared registers lie in front of the draws' own. */
  predicate HasShared(b: Batch) {
    b.sharedCount <= 512 && 515 <= b.registerUsed <= |b.registers|
  }

  predicate BatchOk(b: Batch) {
    && b.uploadUsed % 256 == 0 && (b.constantsAt.Some? ==> b.constantsAt.value % 256 == 0)
    && (b.uniformsAt.Some? ==> b.uniformsAt.value % 256 == 0)
    && b.uploadUsed <= |b.upload| && |b.registers| == 98304 && HasShared(b)
    && (forall i :: 0 <= i < |b.draws| ==> Recorded(b, b.draws[i]))
    && (b.constantsAt.Some? ==> b.constantsAt.value + CONSTANT_BYTES <= b.uploadUsed)
    && (b.uniformsAt.Some? ==> b.uniformsAt.value + UNIFORM_BYTES <= b.uploadUsed)
    && |b.draws| <= 256
    && b.wordsUsed + 8 <= |b.words| == 65536
  }

  // ----- Recording -----

  /** `place`: copies bytes behind the used part. */
  function Placed(b: Batch, bytes: seq<byte>): (r: Batch)
    requires b.uploadUsed + Aligned(|bytes|) <= |b.upload|
    ensures Part(r.upload, b.uploadUsed, |bytes|) == bytes
    ensures |r.upload| == |b.upload| && r.upload[..b.uploadUsed] == b.upload[..b.uploadUsed]
  {
    b.(upload := b.upload[..b.uploadUsed] + bytes + b.upload[b.uploadUsed + |bytes|..],
       uploadUsed := b.uploadUsed + Aligned(|bytes|))
  }

  /** The used part of the storage is as before; more may be used. */
  predicate Grows(a: Batch, b: Batch) {
    && a.uploadUsed <= b.uploadUsed <= |b.upload| && a.registerUsed <= b.registerUsed <= |b.registers|
    && a.uploadUsed <= |a.upload| && a.registerUsed <= |a.registers|
    && b.upload[..a.uploadUsed] == a.upload[..a.uploadUsed]
    && b.registers[..a.registerUsed] == a.registers[..a.registerUsed] && b.sharedCount == a.sharedCount
    && a.wordsUsed <= b.wordsUsed <= |b.words| && a.wordsUsed <= |a.words|
    && b.words[..a.wordsUsed] == a.words[..a.wordsUsed]
  }

  lemma PartKept<T>(a: seq<T>, b: seq<T>, used: nat, at: nat, n: nat)
    requires used <= |a| && used <= |b| && b[..used] == a[..used] && at + n <= used
    ensures Part(b, at, n) == Part(a, at, n)
  {
    assert b[at..at + n] == b[..used][at..at + n];
    assert a[at..at + n] == a[..used][at..at + n];
  }

  lemma SharedKept(a: Batch, b: Batch)
    requires Grows(a, b) && HasShared(a)
    ensures SharedIn(b) == SharedIn(a) && HasShared(b)
  {
    PartKept(a.registers, b.registers, a.registerUsed, 0, a.sharedCount);
    PartKept(a.registers, b.registers, a.registerUsed, MAX_SHADER_REGISTERS, PRIMITIVE_REGISTERS);
    hide Part;
  }

  /** A recorded draw reads the same after more was recorded behind it. */
  lemma FetchKept(a: Batch, b: Batch, d: Draw)
    requires Grows(a, b) && Recorded(a, d) && HasShared(a)
    ensures Fetch(b, d) == Fetch(a, d) && Recorded(b, d)
  {
    PartKept(a.upload, b.upload, a.uploadUsed, d.geometryAt, d.geometrySize);
    PartKept(a.upload, b.upload, a.uploadUsed, d.indicesAt, d.indicesSize);
    PartKept(a.upload, b.upload, a.uploadUsed, d.constantsAt, CONSTANT_BYTES);
    PartKept(a.upload, b.upload, a.uploadUsed, d.uniformsAt, UNIFORM_BYTES);
    PartKept(a.registers, b.registers, a.registerUsed, d.registersAt, d.registerCount);
    PartKept(a.words, b.words, a.wordsUsed, d.commandsAt, d.commandCount);
    SharedKept(a, b);
    hide Part, SharedIn;
  }

  /** Adding a draw that reads `seen` to a batch that only grew. */
  lemma ImageExtended(a: Batch, b: Batch, d: Draw, seen: Seen)
    requires BatchOk(a) && Grows(a, b) && b.draws == a.draws + [d] && Recorded(b, d) && Fetch(b, d) == seen
    ensures Image(b) == Image(a) + [seen]
    ensures forall i :: 0 <= i < |b.draws| ==> Recorded(b, b.draws[i])
  {
    hide Fetch, Grows, Recorded;
    forall i | 0 <= i < |b.draws|
      ensures Recorded(b, b.draws[i]) && Image(b)[i] == (Image(a) + [seen])[i]
    {
      if i < |a.draws| {
        FetchKept(a, b, a.draws[i]);
      }
    }
  }

  /** Room one draw may need. */
  function WorstUpload(p: Packet): nat {
    Aligned(|p.geometry|) + Aligned(|p.indices|) + Aligned(CONSTANT_BYTES) + Aligned(UNIFORM_BYTES)
  }

  predicate PacketOk(p: Packet) {
    && p.legal && p.geometry != [] && p.indices != [] && |p.indices| % 12 == 0
    && |p.geometry| <= MAX_ADDRESS && |p.indices| <= MAX_ADDRESS
  }

  /** What the types of a packet and the constructor guarantee. */
  predicate Typed(p: Packet) {
    && |p.constants| == CONSTANT_BYTES && |p.uniforms| == UNIFORM_BYTES && |p.registers| <= MAX_REGISTERS
    && |p.commands| + FENCE_WORDS <= WORD_MARGIN
  }

  predicate HasRoom(b: Batch, p: Packet) {
    && |b.draws| < BATCH_DRAWS && |b.upload| - b.uploadUsed >= WorstUpload(p)
    && b.registerUsed + MAX_REGISTERS <= REGISTER_CAPACITY && WORD_CAPACITY - b.wordsUsed >= WORD_MARGIN
  }

  lemma PlacedGrows(b: Batch, bytes: seq<byte>)
    requires b.uploadUsed + Aligned(|bytes|) <= |b.upload| && b.registerUsed <= |b.registers|
    requires b.wordsUsed <= |b.words|
    ensures Grows(b, Placed(b, bytes))
  {
  }

  lemma GrowsTwice(a: Batch, b: Batch, c: Batch)
    requires Grows(a, b) && Grows(b, c)
    ensures Grows(a, c)
  {
    assert c.upload[..a.uploadUsed] == c.upload[..b.uploadUsed][..a.uploadUsed];
    assert c.registers[..a.registerUsed] == c.registers[..b.registerUsed][..a.registerUsed];
    assert b.upload[..a.uploadUsed] == b.upload[..b.uploadUsed][..a.uploadUsed];
    assert b.registers[..a.registerUsed] == b.registers[..b.registerUsed][..a.registerUsed];
    assert c.words[..a.wordsUsed] == c.words[..b.wordsUsed][..a.wordsUsed];
    assert b.words[..a.wordsUsed] == b.words[..b.wordsUsed][..a.wordsUsed];
  }

  /** `bytes` stand at `at` in the used part of the batch, now and after anything placed behind it. */
  predicate Stands(b: Batch, at: nat, bytes: seq<byte>) {
    at % 256 == 0 && at + |bytes| <= b.uploadUsed && Part(b.upload, at, |bytes|) == bytes
  }

  lemma StandsOn(a: Batch, b: Batch, at: nat, bytes: seq<byte>)
    requires Grows(a, b) && Stands(a, at, bytes)
    ensures Stands(b, at, bytes)
  {
    PartKept(a.upload, b.upload, a.uploadUsed, at, |bytes|);
  }

  /** Uploads a block, unless the block at `last` is the same. */
  method Upload(b: Batch, last: Option<nat>, bytes: seq<byte>) returns (r: Batch, at: nat)
    requires b.uploadUsed + Aligned(|bytes|) <= |b.upload| && b.registerUsed <= |b.registers|
    requires b.wordsUsed <= |b.words|
    requires last.Some? ==> last.value % 256 == 0 && last.value + |bytes| <= b.uploadUsed
    requires b.uploadUsed % 256 == 0
    ensures r.uploadUsed % 256 == 0
    ensures Grows(b, r) && r == b.(upload := r.upload, uploadUsed := r.uploadUsed) && |r.upload| == |b.upload|
    ensures Stands(r, at, bytes) && r.uploadUsed <= b.uploadUsed + Aligned(|bytes|)
  {
    if last.None? || Part(b.upload, last.value, |bytes|) != bytes {
      PlacedGrows(b, bytes);
      return Placed(b, bytes), b.uploadUsed;
    }
    return b, last.value;
  }

  /** Context registers behind the used ones. */
  method AddRegisters(b: Batch, registers: seq<Register>) returns (r: Batch)
    requires b.uploadUsed <= |b.upload| && b.registerUsed + |registers| <= |b.registers| && b.wordsUsed <= |b.words|
    ensures Grows(b, r) && r == b.(registers := r.registers, registerUsed := b.registerUsed + |registers|)
    ensures |r.registers| == |b.registers| && Part(r.registers, b.registerUsed, |registers|) == registers
  {
    var n := |registers|;
    r := b.(registers := b.registers[..b.registerUsed] + registers + b.registers[b.registerUsed + n..],
            registerUsed := b.registerUsed + n);
  }

  /** Packets behind the used words. */
  method AddCommands(b: Batch, commands: seq<Word>) returns (r: Batch)
    requires b.uploadUsed <= |b.upload| && b.registerUsed <= |b.registers| && b.wordsUsed + |commands| <= |b.words|
    ensures Grows(b, r) && r == b.(words := r.words, wordsUsed := b.wordsUsed + |commands|)
    ensures |r.words| == |b.words| && Part(r.words, b.wordsUsed, |commands|) == commands
  {
    var n := |commands|;
    r := b.(words := b.words[..b.wordsUsed] + commands + b.words[b.wordsUsed + n..], wordsUsed := b.wordsUsed + n);
  }

  /** Uploads the four blocks of a draw. */
  method UploadAll(b: Batch, p: Packet) returns (r: Batch, g: nat, i: nat, c: nat, u: nat)
    requires BatchOk(b) && Typed(p) && HasRoom(b, p)
    ensures Grows(b, r) && r == b.(upload := r.upload, uploadUsed := r.uploadUsed)
    ensures r.uploadUsed <= |r.upload| == |b.upload| && r.uploadUsed % 256 == 0
    ensures Stands(r, g, p.geometry) && Stands(r, i, p.indices) && Stands(r, c, p.constants) && Stands(r, u, p.uniforms)
  {
    hide Part, Recorded, Grows, Aligned, Stands;
    var withGeometry, withIndices, withConstants;
    withGeometry, g := Upload(b, None, p.geometry);
    withIndices, i := Upload(withGeometry, None, p.indices);
    withConstants, c := Upload(withIndices, b.constantsAt, p.constants);
    r, u := Upload(withConstants, b.uniformsAt, p.uniforms);
    StandsOn(withGeometry, withIndices, g, p.geometry);
    StandsOn(withIndices, withConstants, g, p.geometry);
    StandsOn(withConstants, r, g, p.geometry);
    StandsOn(withIndices, withConstants, i, p.indices);
    StandsOn(withConstants, r, i, p.indices);
    StandsOn(withConstants, r, c, p.constants);
    GrowsTwice(b, withGeometry, withIndices);
    GrowsTwice(b, withIndices, withConstants);
    GrowsTwice(b, withConstants, r);
  }

  /** Records a draw. Constants and uniforms equal to the last uploaded ones are not uploaded again, and still the GPU
      will read exactly the bytes of this packet, and of every packet recorded before it. */
  method Record(b: Batch, p: Packet, serial: nat) returns (r: Batch)
    requires BatchOk(b) && Typed(p) && HasRoom(b, p)
    ensures BatchOk(r) && Image(r) == Image(b) + [SeenOf(p, SharedIn(b))] && SharedIn(r) == SharedIn(b)
    ensures r.owners == b.owners + [p.owner] && r.serial == serial && r.submitted == b.submitted
    ensures |r.draws| == |b.draws| + 1
    ensures |r.upload| == |b.upload|
  {
    hide Part, Image, Fetch, Recorded, Grows, Aligned, SharedIn;
    var u, geometryAt, indicesAt, constantsAt, uniformsAt := UploadAll(b, p);
    var w := AddRegisters(u, p.registers);
    var x := AddCommands(w, p.commands);
    var d := Draw(geometryAt, |p.geometry|, indicesAt, |p.indices|, constantsAt, uniformsAt, u.registerUsed,
                  |p.registers|, w.wordsUsed, |p.commands|);
    r := x.(constantsAt := Some(constantsAt), uniformsAt := Some(uniformsAt), draws := x.draws + [d],
            owners := x.owners + [p.owner], serial := serial);
    GrowsTwice(b, u, w);
    GrowsTwice(b, w, x);
    Recording(b, x, r, d, p);
  }

  lemma Recording(b: Batch, w: Batch, r: Batch, d: Draw, p: Packet)
    requires BatchOk(b) && Grows(b, w) && |b.draws| < BATCH_DRAWS
    requires Stands(w, d.geometryAt, p.geometry) && Stands(w, d.indicesAt, p.indices)
    requires Stands(w, d.constantsAt, p.constants) && Stands(w, d.uniformsAt, p.uniforms)
    requires d.registersAt + |p.registers| <= w.registerUsed && d.commandsAt + |p.commands| <= w.wordsUsed
    requires Part(w.registers, d.registersAt, |p.registers|) == p.registers
    requires Part(w.words, d.commandsAt, |p.commands|) == p.commands
    requires |p.constants| == CONSTANT_BYTES && |p.uniforms| == UNIFORM_BYTES
    requires d.geometrySize == |p.geometry| && d.indicesSize == |p.indices| && d.registerCount == |p.registers|
    requires d.commandCount == |p.commands| && r == w.(constantsAt := r.constantsAt, uniformsAt := r.uniformsAt,
                                                       draws := r.draws, owners := r.owners, serial := r.serial)
    requires r.draws == b.draws + [d]
    ensures Image(r) == Image(b) + [SeenOf(p, SharedIn(b))] && SharedIn(r) == SharedIn(b) && HasShared(r)
    ensures forall i :: 0 <= i < |r.draws| ==> Recorded(r, r.draws[i])
  {
    SharedKept(b, r);
    ImageExtended(b, r, d, SeenOf(p, SharedIn(b)));
  }

  // ----- The ring and the GPU -----

  /** A submitted batch the GPU has not finished. */
  datatype Submission = Submission(slot: nat, serial: nat)

  type Slots = seq<Option<Batch>>

  /** What the GPU will draw for the submissions it has not finished, reading the storage as it is now. */
  function QueueImage(slots: Slots, queue: seq<Submission>): seq<Seen> {
    if queue == [] then []
    else
      var q := queue[0];
      (if q.slot < |slots| && slots[q.slot].Some? then Image(slots[q.slot].value) else [])
          + QueueImage(slots, queue[1..])
  }

  predicate InQueue(queue: seq<Submission>, slot: nat) {
    exists k :: 0 <= k < |queue| && queue[k].slot == slot
  }

  /** Behind its packets the batch has a fence with its serial. */
  predicate FenceOk(b: Batch) {
    b.wordsUsed < |b.words| && b.words[b.wordsUsed] == Completion(b.serial)
  }

  /** The batch closed for submission: the fence is written behind the packets. */
  function Closed(b: Batch): Batch
    requires b.wordsUsed + FENCE_WORDS <= |b.words|
  {
    var fence := seq(FENCE_WORDS, i => Completion(b.serial));
    b.(words := b.words[..b.wordsUsed] + fence + b.words[b.wordsUsed + FENCE_WORDS..], submitted := true)
  }

  /** The fence overwrites nothing the draws read. */
  lemma ClosedKeeps(b: Batch)
    requires BatchOk(b)
    ensures var r := Closed(b);
            FenceOk(r) && Image(r) == Image(b) && BatchOk(r) && SharedIn(r) == SharedIn(b)
  {
    var r := Closed(b);
    assert r.words[..b.wordsUsed] == b.words[..b.wordsUsed];
    SharedKept(b, r);
    hide Fetch, Grows, SharedIn;
    forall i | 0 <= i < |b.draws|
      ensures Fetch(r, b.draws[i]) == Fetch(b, b.draws[i]) && Recorded(r, b.draws[i])
    {
      assert Grows(b, r) by {
        ClosedGrows(b);
      }
      FetchKept(b, r, b.draws[i]);
    }
  }

  lemma RoomForFence(b: Batch)
    requires BatchOk(b)
    ensures b.wordsUsed + FENCE_WORDS <= |b.words|
  {
  }

  lemma ClosedGrows(b: Batch)
    requires BatchOk(b)
    ensures Grows(b, Closed(b))
  {
    assert Closed(b).words[..b.wordsUsed] == b.words[..b.wordsUsed];
  }

  /** Every submission keeps its own slot, submitted and with its serial and fence, until the GPU finishes it; serials
      increase and the completion label is behind all of them. */
  predicate QueueOk(slots: Slots, queue: seq<Submission>, completed: nat, submittedSerial: nat) {
    && (forall k :: 0 <= k < |queue| ==>
          && queue[k].slot < |slots| && slots[queue[k].slot].Some?
          && slots[queue[k].slot].value.submitted && slots[queue[k].slot].value.serial == queue[k].serial
          && FenceOk(slots[queue[k].slot].value) && completed < queue[k].serial <= submittedSerial)
    && (forall k, l :: 0 <= k < l < |queue| ==> queue[k].slot != queue[l].slot && queue[k].serial < queue[l].serial)
  }

  /** Slots hold sound batches; one that is submitted but no longer queued was finished by the GPU, except the one whose
      submission failed. */
  predicate SlotsOk(slots: Slots, queue: seq<Submission>, completed: nat, serial: nat, failed: bool) {
    && |slots| == SLOTS
    && forall i :: 0 <= i < SLOTS && slots[i].Some? ==>
         && BatchOk(slots[i].value) && slots[i].value.serial <= serial
         && (slots[i].value.submitted ==> |slots[i].value.owners| == |slots[i].value.draws|)
         && (slots[i].value.submitted && !InQueue(queue, i) && !failed ==> slots[i].value.serial <= completed)
  }

  predicate OpenOk(slots: Slots, open: Option<nat>, serial: nat, submittedSerial: nat) {
    open.Some? ==>
      && open.value < |slots| && slots[open.value].Some? && !slots[open.value].value.submitted
      && |slots[open.value].value.owners| == |slots[open.value].value.draws|
      && (slots[open.value].value.draws != [] ==> slots[open.value].value.serial == serial > submittedSerial)
  }

  function OpenImage(slots: Slots, open: Option<nat>): seq<Seen> {
    if open.Some? && open.value < |slots| && slots[open.value].Some? then Image(slots[open.value].value) else []
  }

  /** Queued batches are out of reach of a change of another slot. */
  lemma {:induction false} QueueKept(slots: Slots, queue: seq<Submission>, i: nat, b: Option<Batch>)
    requires i < |slots| && !InQueue(queue, i)
    ensures QueueImage(slots[i := b], queue) == QueueImage(slots, queue)
    decreases |queue|
  {
    hide Image;
    if queue != [] {
      assert queue[0].slot != i;
      assert !InQueue(queue[1..], i) by {
        assert forall k :: 0 <= k < |queue| - 1 ==> queue[1..][k] == queue[k + 1];
      }
      QueueKept(slots, queue[1..], i, b);
    }
  }

  lemma {:induction false} QueueExtended(slots: Slots, queue: seq<Submission>, q: Submission)
    requires q.slot < |slots| && slots[q.slot].Some?
    ensures QueueImage(slots, queue + [q]) == QueueImage(slots, queue) + Image(slots[q.slot].value)
    decreases |queue|
  {
    hide Image;
    if queue != [] {
      assert (queue + [q])[1..] == queue[1..] + [q];
      QueueExtended(slots, queue[1..], q);
    } else {
      assert (queue + [q])[1..] == [];
    }
  }

  lemma SlotCount(slots: Slots, queue: seq<Submission>, completed: nat, serial: nat, failed: bool)
    requires SlotsOk(slots, queue, completed, serial, failed)
    ensures |slots| == SLOTS
  {
  }

  lemma QueuedIsPending(slots: Slots, queue: seq<Submission>, completed: nat, submittedSerial: nat, i: nat)
    requires QueueOk(slots, queue, completed, submittedSerial) && InQueue(queue, i)
    ensures i < |slots| && slots[i].Some? && slots[i].value.submitted && completed < slots[i].value.serial
  {
  }

  /** Dropping the owners of a batch the label has passed. */
  lemma SlotReleased(slots: Slots, queue: seq<Submission>, completed: nat, serial: nat, submittedSerial: nat,
                     failed: bool,
                     open: Option<nat>, i: nat)
    requires SlotsOk(slots, queue, completed, serial, failed) && QueueOk(slots, queue, completed, submittedSerial)
    requires OpenOk(slots, open, serial, submittedSerial)
    requires |slots| == SLOTS && i < SLOTS && slots[i].Some? && slots[i].value.submitted
    requires slots[i].value.serial <= completed
    ensures var now := slots[i := Some(slots[i].value.(owners := [], submitted := false))];
            && SlotsOk(now, queue, completed, serial, failed) && QueueOk(now, queue, completed, submittedSerial)
            && OpenOk(now, open, serial, submittedSerial)
            && QueueImage(now, queue) == QueueImage(slots, queue) && OpenImage(now, open) == OpenImage(slots, open)
  {
    hide Image, QueueImage, BatchOk, InQueue;
    var b := slots[i].value.(owners := [], submitted := false);
    Released(slots[i].value, b);
    PassedIsFree(slots, queue, completed, submittedSerial, i);
    QueueKept(slots, queue, i, Some(b));
    QueueWithout(slots, queue, completed, submittedSerial, i, Some(b));
  }

  lemma PassedIsFree(slots: Slots, queue: seq<Submission>, completed: nat, submittedSerial: nat, i: nat)
    requires QueueOk(slots, queue, completed, submittedSerial) && i < |slots| && slots[i].Some?
    requires slots[i].value.serial <= completed
    ensures !InQueue(queue, i)
  {
  }

  lemma QueueWithout(slots: Slots, queue: seq<Submission>, completed: nat, submittedSerial: nat, i: nat,
                     b: Option<Batch>)
    requires QueueOk(slots, queue, completed, submittedSerial) && i < |slots| && !InQueue(queue, i)
    ensures QueueOk(slots[i := b], queue, completed, submittedSerial)
  {
  }

  lemma Released(a: Batch, b: Batch)
    requires b == a.(owners := [], submitted := false)
    ensures Image(b) == Image(a) && (BatchOk(a) ==> BatchOk(b))
  {
  }

  lemma FirstOrLater(queue: seq<Submission>, i: nat)
    requires queue != []
    ensures InQueue(queue, i) <==> queue[0].slot == i || InQueue(queue[1..], i)
  {
    assert forall k :: 0 < k < |queue| ==> queue[k] == queue[1..][k - 1];
  }

  lemma NotFinished(slots: Slots, queue: seq<Submission>, completed: nat, serial: nat, i: nat)
    requires SlotsOk(slots, queue, completed, serial, false) && queue == []
    requires i < SLOTS && slots[i].Some? && slots[i].value.submitted
    ensures slots[i].value.serial <= completed
  {
  }

  /** The GPU finishes the first submission. */
  lemma QueueTail(slots: Slots, queue: seq<Submission>, completed: nat, serial: nat, submittedSerial: nat, failed: bool)
    requires SlotsOk(slots, queue, completed, serial, failed) && QueueOk(slots, queue, completed, submittedSerial)
    requires queue != []
    ensures SlotsOk(slots, queue[1..], queue[0].serial, serial, failed)
    ensures QueueOk(slots, queue[1..], queue[0].serial, submittedSerial)
    ensures queue[0].slot < |slots| && slots[queue[0].slot].Some? && completed < queue[0].serial <= submittedSerial
    ensures FenceOk(slots[queue[0].slot].value) && slots[queue[0].slot].value.serial == queue[0].serial
    ensures QueueImage(slots, queue) == Image(slots[queue[0].slot].value) + QueueImage(slots, queue[1..])
  {
    hide Image, BatchOk;
    var rest := queue[1..];
    forall i | 0 <= i < SLOTS && slots[i].Some? && slots[i].value.submitted && !InQueue(rest, i) && !failed
      ensures slots[i].value.serial <= queue[0].serial
    {
      FirstOrLater(queue, i);
    }
  }

  lemma SlotsFailed(slots: Slots, queue: seq<Submission>, completed: nat, serial: nat, failed: bool)
    requires SlotsOk(slots, queue, completed, serial, failed)
    ensures SlotsOk(slots, queue, completed, serial, true)
  {
  }

  lemma StorageSizes(slots: Slots, queue: seq<Submission>, completed: nat, serial: nat, failed: bool, i: nat)
    requires SlotsOk(slots, queue, completed, serial, failed) && i < SLOTS
    ensures slots[i].Some? ==> |slots[i].value.registers| == REGISTER_CAPACITY
    ensures slots[i].Some? ==> |slots[i].value.words| == WORD_CAPACITY
  {
  }

  lemma EmptyImage(b: Batch)
    requires b.draws == []
    ensures Image(b) == []
  {
  }

  /** A slot the GPU is done with may be rewritten: nothing that is still queued changes. */
  lemma SlotRewritten(slots: Slots, queue: seq<Submission>, completed: nat, serial: nat, submittedSerial: nat,
                      failed: bool,
                      i: nat, b: Batch)
    requires SlotsOk(slots, queue, completed, serial, failed) && QueueOk(slots, queue, completed, submittedSerial)
    requires i < SLOTS && !InQueue(queue, i) && BatchOk(b) && b.draws == [] && b.owners == [] && !b.submitted
    requires b.serial <= serial
    ensures var now := slots[i := Some(b)];
            && SlotsOk(now, queue, completed, serial, failed) && QueueOk(now, queue, completed, submittedSerial)
            && OpenOk(now, Some(i), serial, submittedSerial)
            && QueueImage(now, queue) == QueueImage(slots, queue) && OpenImage(now, Some(i)) == []
  {
    hide Image, QueueImage, BatchOk, InQueue, FenceOk;
    QueueKept(slots, queue, i, Some(b));
    QueueWithout(slots, queue, completed, submittedSerial, i, Some(b));
    EmptyImage(b);
    hide QueueOk;
  }

  lemma OpenBatch(slots: Slots, queue: seq<Submission>, completed: nat, serial: nat, submittedSerial: nat, failed: bool,
                  i: nat)
    requires SlotsOk(slots, queue, completed, serial, failed) && OpenOk(slots, Some(i), serial, submittedSerial)
    ensures i < |slots| && slots[i].Some? && BatchOk(slots[i].value)
    ensures !slots[i].value.submitted && |slots[i].value.owners| == |slots[i].value.draws|
  {
    hide BatchOk, QueueOk, InQueue;
  }

  /** The open slot with one more draw. */
  lemma RecordedSlot(slots: Slots, queue: seq<Submission>, completed: nat, serial: nat, submittedSerial: nat, i: nat,
                     r: Batch)
    requires SlotsOk(slots, queue, completed, serial, false) && QueueOk(slots, queue, completed, submittedSerial)
    requires OpenOk(slots, Some(i), serial, submittedSerial) && BatchOk(r) && r.serial == serial + 1 && !r.submitted
    requires |r.owners| == |r.draws| && submittedSerial <= serial
    ensures var now := slots[i := Some(r)];
            && SlotsOk(now, queue, completed, serial + 1, false) && QueueOk(now, queue, completed, submittedSerial)
            && OpenOk(now, Some(i), serial + 1, submittedSerial) && QueueImage(now, queue) == QueueImage(slots, queue)
  {
    if InQueue(queue, i) {
      QueuedIsPending(slots, queue, completed, submittedSerial, i);
      assert false;
    }
    QueueKept(slots, queue, i, Some(r));
    hide Image, QueueImage, BatchOk;
  }

  lemma OpenImages(slots: Slots, i: nat, r: Batch)
    requires i < |slots| && slots[i].Some?
    ensures OpenImage(slots, Some(i)) == Image(slots[i].value) && OpenImage(slots[i := Some(r)], Some(i)) == Image(r)
  {
    hide Image;
  }

  /** A batch just begun takes any draw. */
  lemma EmptyHasRoom(b: Batch, p: Packet)
    requires b.draws == [] && b.uploadUsed == 0 && b.registerUsed == BATCH_REGISTERS && b.wordsUsed == 0
    requires |b.upload| >= WorstUpload(p)
    ensures HasRoom(b, p)
  {
  }

  /** Once the label has reached the last submission nothing is queued or held. */
  lemma AllFinished(slots: Slots, queue: seq<Submission>, completed: nat, submittedSerial: nat, serial: nat)
    requires QueueOk(slots, queue, completed, submittedSerial) && completed >= submittedSerial
    ensures queue == [] && forall i :: !InQueue(queue, i)
  {
    FirstAhead(slots, queue, completed, submittedSerial);
  }

  lemma FirstAhead(slots: Slots, queue: seq<Submission>, completed: nat, submittedSerial: nat)
    requires QueueOk(slots, queue, completed, submittedSerial)
    ensures queue != [] ==> completed < queue[0].serial <= submittedSerial
  {
  }

  lemma EmptyRing(slots: Slots)
    requires slots == [None, None, None, None]
    ensures SlotsOk(slots, [], 0, 0, false) && QueueOk(slots, [], 0, 0) && OpenOk(slots, None, 0, 0)
    ensures History([], [], QueueImage(slots, []), OpenImage(slots, None), false)
  {
    hide Image, BatchOk;
  }

  lemma NothingQueued(slots: Slots)
    ensures QueueImage(slots, []) == []
  {
  }

  lemma HistoryEnds(accepted: seq<Seen>, drawn: seq<Seen>, queued: seq<Seen>, ahead: seq<Seen>)
    requires History(accepted, drawn, queued, ahead, false) && queued == [] && ahead == []
    ensures drawn == accepted
  {
  }

  lemma OpenIs(slots: Slots, open: Option<nat>, serial: nat, submittedSerial: nat)
    requires OpenOk(slots, open, serial, submittedSerial)
    ensures open.Some? ==> open.value < |slots| && slots[open.value].Some?
    ensures open.Some? && slots[open.value].value.draws != [] ==>
        slots[open.value].value.serial == serial > submittedSerial
    ensures OpenOk(slots, None, serial, submittedSerial)
  {
  }

  lemma NothingOpen(slots: Slots, open: Option<nat>)
    requires open.Some? ==> open.value < |slots| && slots[open.value].Some? && slots[open.value].value.draws == []
    ensures OpenImage(slots, open) == []
    ensures open.None? ==> forall serial: nat, submittedSerial: nat :: OpenOk(slots, open, serial, submittedSerial)
  {
  }

  /** Nothing drawn or queued is ever anything but an accepted draw, in order; without a failure nothing is lost. */
  predicate History(accepted: seq<Seen>, drawn: seq<Seen>, queued: seq<Seen>, ahead: seq<Seen>, failed: bool) {
    drawn + queued <= accepted && (!failed ==> accepted == drawn + queued + ahead)
  }

  lemma HistorySubmits(accepted: seq<Seen>, drawn: seq<Seen>, queued: seq<Seen>, ahead: seq<Seen>)
    requires History(accepted, drawn, queued, ahead, false)
    ensures History(accepted, drawn, queued + ahead, [], false) && History(accepted, drawn, queued, [], true)
    ensures ahead == [] ==> History(accepted, drawn, queued, [], false)
  {
    assert drawn + (queued + ahead) == drawn + queued + ahead;
    assert drawn + queued + ahead + [] == drawn + queued + ahead;
  }

  lemma NothingAhead(accepted: seq<Seen>, drawn: seq<Seen>, queued: seq<Seen>, ahead: seq<Seen>)
    requires History(accepted, drawn, queued, ahead, false) && ahead == []
    ensures accepted == drawn + queued
  {
  }

  lemma HistoryFinishes(accepted: seq<Seen>, drawn: seq<Seen>, image: seq<Seen>, rest: seq<Seen>, ahead: seq<Seen>,
                        failed: bool)
    requires History(accepted, drawn, image + rest, ahead, failed)
    ensures History(accepted, drawn + image, rest, ahead, failed)
  {
    assert drawn + (image + rest) == drawn + image + rest;
  }

  lemma HistoryRecords(accepted: seq<Seen>, drawn: seq<Seen>, queued: seq<Seen>, ahead: seq<Seen>, seen: Seen)
    requires History(accepted, drawn, queued, ahead, false)
    ensures History(accepted + [seen], drawn, queued, ahead + [seen], false)
  {
    assert drawn + queued + (ahead + [seen]) == drawn + queued + ahead + [seen];
  }

  /** The open batch is submitted: its slot. */
  lemma SubmittedSlot(slots: Slots, queue: seq<Submission>, completed: nat, serial: nat, submittedSerial: nat, i: nat,
                      b: Batch)
    requires SlotsOk(slots, queue, completed, serial, false) && QueueOk(slots, queue, completed, submittedSerial)
    requires OpenOk(slots, Some(i), serial, submittedSerial) && b == Closed(slots[i].value)
    ensures !InQueue(queue, i) && Image(b) == OpenImage(slots, Some(i))
    ensures SlotsOk(slots[i := Some(b)], queue, completed, serial, true)
    ensures SlotsOk(slots[i := Some(b)], queue + [Submission(i, b.serial)], completed, serial, false)
  {
    var q := Submission(i, b.serial);
    if InQueue(queue, i) {
      QueuedIsPending(slots, queue, completed, submittedSerial, i);
      assert false;
    }
    ClosedKeeps(slots[i].value);
    hide Image, BatchOk, Closed;
    forall j | 0 <= j < SLOTS
      ensures InQueue(queue + [q], j) <==> InQueue(queue, j) || j == i
    {
      Appended(queue, q, j);
    }
    hide InQueue;
  }

  lemma Appended(queue: seq<Submission>, q: Submission, j: nat)
    ensures InQueue(queue + [q], j) <==> InQueue(queue, j) || j == q.slot
  {
    assert (queue + [q])[|queue|] == q;
    assert forall k :: 0 <= k < |queue| ==> (queue + [q])[k] == queue[k];
  }

  /** The open batch is submitted: the queue. */
  lemma SubmittedQueue(slots: Slots, queue: seq<Submission>, completed: nat, serial: nat, submittedSerial: nat, i: nat,
                       b: Batch)
    requires QueueOk(slots, queue, completed, submittedSerial) && !InQueue(queue, i) && i < |slots|
    requires completed <= submittedSerial
    requires b.submitted && FenceOk(b) && b.serial == serial > submittedSerial
    ensures var now, longer := slots[i := Some(b)], queue + [Submission(i, b.serial)];
            && QueueOk(now, queue, completed, serial) && QueueOk(now, longer, completed, serial)
            && QueueImage(now, queue) == QueueImage(slots, queue)
            && QueueImage(now, longer) == QueueImage(slots, queue) + Image(b)
  {
    QueueKept(slots, queue, i, Some(b));
    QueueExtended(slots[i := Some(b)], queue, Submission(i, b.serial));
    hide Image, QueueImage;
  }

  /** A slot after a look at a label that stood at `done`. */
  function Passed(slot: Option<Batch>, done: nat): Option<Batch> {
    if slot.Some? && slot.value.submitted && slot.value.serial <= done
        then Some(slot.value.(owners := [], submitted := false)) else slot
  }

  /** The shared registers copied in front of the draws' own. */
  function WithShared(registers: seq<Register>, shared: Shared): (r: seq<Register>)
    requires SharedFits(shared) && BATCH_REGISTERS <= |registers|
    ensures |r| == |registers| && Part(r, 0, |shared.shader|) == shared.shader
    ensures Part(r, MAX_SHADER_REGISTERS, PRIMITIVE_REGISTERS) == shared.primitive
  {
    shared.shader + registers[|shared.shader|..MAX_SHADER_REGISTERS] + shared.primitive + registers[BATCH_REGISTERS..]
  }

  /** Every batch has its copy of the shared registers. */
  predicate AllShared(slots: Slots, shared: Shared) {
    forall i :: 0 <= i < |slots| && slots[i].Some? ==> SharedIn(slots[i].value) == shared
  }

  predicate SharedFits(shared: Shared) {
    |shared.shader| <= MAX_SHADER_REGISTERS && |shared.primitive| == PRIMITIVE_REGISTERS
  }

  lemma OneShared(slots: Slots, shared: Shared, i: nat, b: Batch)
    requires AllShared(slots, shared) && i < |slots| && SharedIn(b) == shared
    ensures AllShared(slots[i := Some(b)], shared)
  {
    hide SharedIn;
  }

  lemma SharedAt(slots: Slots, shared: Shared, i: nat)
    requires AllShared(slots, shared) && i < |slots| && slots[i].Some?
    ensures SharedIn(slots[i].value) == shared
  {
  }

  lemma ReleasedShared(slots: Slots, shared: Shared, i: nat)
    requires AllShared(slots, shared) && i < |slots| && slots[i].Some?
    ensures AllShared(slots[i := Some(slots[i].value.(owners := [], submitted := false))], shared)
  {
  }

  lemma ClosedShared(slots: Slots, shared: Shared, i: nat)
    requires AllShared(slots, shared) && i < |slots| && slots[i].Some? && BatchOk(slots[i].value)
    ensures AllShared(slots[i := Some(Closed(slots[i].value))], shared) && FenceOk(Closed(slots[i].value))
    ensures Closed(slots[i].value).submitted && Closed(slots[i].value).serial == slots[i].value.serial
  {
    ClosedKeeps(slots[i].value);
    OneShared(slots, shared, i, Closed(slots[i].value));
  }

  datatype Outcome = Drawn(serial: nat) | Threw

  /** Why the queue failed: the driver refused a submission, or the label stayed below a target. */
  datatype Cause = Running | Refused | Stalled(target: nat, looks: seq<nat>)

  predicate Happened(cause: Cause, failed: bool) {
    && (failed <==> cause != Running)
    && (cause.Stalled? ==> |cause.looks| == 8192 + 5000 && forall k :: 0 <= k < |cause.looks| ==>
          cause.looks[k] < cause.target)
  }

  class DrawQueue {
    const shared: Shared

    var slots: Slots
    var open: Option<nat>
    var cursor: nat
    var serial: nat
    var submittedSerial: nat
    var failed: bool

    // The GPU: its completion label and the submissions it has not finished.
    var completed: nat
    var queue: seq<Submission>

    // Draws the caller got a serial for, and draws the GPU has executed.
    ghost var accepted: seq<Seen>
    ghost var drawn: seq<Seen>
    ghost var cause: Cause

    ghost predicate Valid()
      reads this
    {
      && SlotsOk(slots, queue, completed, serial, failed) && QueueOk(slots, queue, completed, submittedSerial)
      && OpenOk(slots, open, serial, submittedSerial)
      && History(accepted, drawn, QueueImage(slots, queue), OpenImage(slots, open), failed)
      && completed <= submittedSerial <= serial && SharedFits(shared) && AllShared(slots, shared)
      && Happened(cause, failed)
      && (!failed ==> if queue == [] then completed == submittedSerial
          else queue[|queue| - 1].serial == submittedSerial)
    }

    constructor (shared: Shared)
      requires SharedFits(shared)
      ensures Valid() && !failed && accepted == [] && drawn == [] && queue == [] && open == None
      ensures this.shared == shared
    {
      hide Image, BatchOk, SlotsOk, QueueOk, OpenOk, History, QueueImage, OpenImage;
      this.shared := shared;
      slots, open, cursor := [None, None, None, None], None, 0;
      serial, submittedSerial, failed, completed, queue := 0, 0, false, 0, [];
      accepted, drawn, cause := [], [], Running;
      new;
      EmptyRing(slots);
    }

    /** The GPU finishes its next batch: it draws what it reads from the batch's storage now, and writes the serial it
        finds in the fence to the label. */
    method GpuFinishes()
      requires Valid() && queue != []
      modifies this`completed, this`queue, this`drawn
      ensures Valid() && queue == old(queue)[1..] && completed == old(queue)[0].serial
      ensures drawn + QueueImage(slots, queue) == old(drawn + QueueImage(slots, queue))
    {
      hide Image, QueueImage, SlotsOk, QueueOk, OpenOk, OpenImage, History, AllShared;
      QueueTail(slots, queue, completed, serial, submittedSerial, failed);
      var q := queue[0];
      ghost var image, rest := Image(slots[q.slot].value), QueueImage(slots, queue[1..]);
      HistoryFinishes(accepted, drawn, image, rest, OpenImage(slots, open), failed);
      assert drawn + (image + rest) == drawn + image + rest;
      drawn := drawn + image;
      var b := slots[q.slot].value;
      completed, queue := b.words[b.wordsUsed].serial, queue[1..];
    }

    /** Between any two steps of the caller the GPU may finish any number of batches. */
    method GpuRuns()
      requires Valid()
      modifies this`completed, this`queue, this`drawn
      ensures Valid() && old(completed) <= completed
      ensures forall i :: InQueue(queue, i) ==> InQueue(old(queue), i)
      ensures drawn + QueueImage(slots, queue) == old(drawn + QueueImage(slots, queue))
    {
      hide Image, QueueImage, SlotsOk, QueueOk, OpenOk, OpenImage, History, InQueue, AllShared, FenceOk;
      var n: nat :| n <= |queue|;
      while n > 0
        invariant Valid() && n <= |queue| && old(completed) <= completed
        invariant forall i :: InQueue(queue, i) ==> InQueue(old(queue), i)
        invariant drawn + QueueImage(slots, queue) == old(drawn + QueueImage(slots, queue))
      {
        QueueTail(slots, queue, completed, serial, submittedSerial, failed);
        forall i | InQueue(queue[1..], i)
          ensures InQueue(queue, i)
        {
          FirstOrLater(queue, i);
        }
        GpuFinishes();
        n := n - 1;
      }
    }

    /** `retire`: looks at the label once and drops the owners of every batch it has passed, and of no other, while the
        GPU goes on. */
    method Retire()
      requires Valid()
      modifies this`slots, this`completed, this`queue, this`drawn
      ensures Valid() && old(completed) <= completed
      ensures forall i :: InQueue(queue, i) ==> InQueue(old(queue), i)
      ensures drawn + QueueImage(slots, queue) == old(drawn + QueueImage(slots, queue))
      ensures |old(slots)| == SLOTS == |slots| && forall i :: 0 <= i < SLOTS ==>
          slots[i] == Passed(old(slots)[i], old(completed))
    {
      hide Image, BatchOk, QueueImage, SlotsOk, QueueOk, OpenOk, OpenImage, InQueue, AllShared;
      SlotCount(slots, queue, completed, serial, failed);
      var done := completed;
      for i := 0 to SLOTS
        invariant Valid() && |slots| == SLOTS && done <= completed
        invariant forall j :: InQueue(queue, j) ==> InQueue(old(queue), j)
        invariant drawn + QueueImage(slots, queue) == old(drawn + QueueImage(slots, queue))
        invariant forall j :: 0 <= j < i ==> slots[j] == Passed(old(slots)[j], done)
        invariant forall j :: i <= j < SLOTS ==> slots[j] == old(slots)[j]
      {
        GpuRuns();
        if slots[i].Some? && slots[i].value.submitted && slots[i].value.serial <= done {
          SlotReleased(slots, queue, completed, serial, submittedSerial, failed, open, i);
          ReleasedShared(slots, shared, i);
          slots := slots[i := Some(slots[i].value.(owners := [], submitted := false))];
        }
      }
      GpuRuns();
    }

    /** `wait_until`: 8192 looks at the label, then 5000 with sleeps; a timeout is final. `looks` is what each look saw,
        in order: the first at entry, and every one but the last of a success below the target. */
    method WaitUntil(target: nat) returns (ok: bool, ghost done: nat, ghost looks: seq<nat>)
      requires Valid() && !failed
      modifies this`completed, this`queue, this`drawn, this`slots, this`failed, this`cause
      ensures Valid() && ok == !failed && old(completed) <= completed && (ok ==> completed >= target)
      ensures drawn + QueueImage(slots, queue) == old(drawn + QueueImage(slots, queue))
      ensures |old(slots)| == SLOTS == |slots|
      ensures !ok ==> slots == old(slots)
      ensures ok ==> target <= done <= completed && forall i :: 0 <= i < SLOTS ==>
          slots[i] == Passed(old(slots)[i], done)
      ensures 0 < |looks| <= 8192 + 5000 && looks[0] == old(completed) && looks[|looks| - 1] <= completed
      ensures forall k :: 0 < k < |looks| ==> looks[k - 1] <= looks[k]
      ensures ok == (looks[|looks| - 1] >= target)
      ensures !ok ==> cause == Stalled(target, looks) && |looks| == 8192 + 5000
      ensures !ok ==> forall k :: 0 <= k < |looks| ==> looks[k] < target
    {
      hide Image, BatchOk, QueueImage, SlotsOk, QueueOk, OpenOk, OpenImage, InQueue, Passed, AllShared;
      SlotCount(slots, queue, completed, serial, failed);
      looks := [];
      for look := 0 to 8192 + 5000
        invariant Valid() && !failed && slots == old(slots) && old(completed) <= completed
        invariant drawn + QueueImage(slots, queue) == old(drawn + QueueImage(slots, queue))
        invariant |looks| == look && (look == 0 ==> completed == old(completed))
        invariant look > 0 ==> looks[0] == old(completed) && looks[look - 1] <= completed
        invariant forall k :: 0 < k < look ==> looks[k - 1] <= looks[k]
        invariant forall k :: 0 <= k < look ==> looks[k] < target
      {
        looks := looks + [completed];
        if completed >= target {
          GpuRuns();
          done := completed;
          Retire();
          ok := true;
          return;
        }
        GpuRuns();
      }
      Fail(Stalled(target, looks));
      return false, completed, looks;
    }

    /** A failure is final; nothing is released or reused any more. */
    method Fail(ghost cause: Cause)
      requires Valid() && cause != Running && Happened(cause, true)
      modifies this`failed, this`cause
      ensures Valid() && failed && this.cause == cause
    {
      hide SlotsOk, QueueOk, OpenOk, QueueImage, OpenImage, AllShared;
      SlotsFailed(slots, queue, completed, serial, failed);
      failed := true;
      this.cause := cause;
    }

    /** Waits until slot `i` may be rewritten. */
    method ClaimSlot(i: nat) returns (ok: bool)
      requires Valid() && !failed && open == None && i < SLOTS
      modifies this`completed, this`queue, this`drawn, this`slots, this`failed, this`cause
      ensures Valid() && ok == !failed && (ok ==> !InQueue(queue, i)) && cause != Refused
    {
      hide Image, QueueImage, OpenImage, BatchOk, InQueue, AllShared;
      Retire();
      if slots[i].Some? && slots[i].value.submitted {
        ghost var done, looks;
        ok, done, looks := WaitUntil(slots[i].value.serial);
        if !ok {
          return;
        }
      }
      ok := true;
      if InQueue(queue, i) {
        QueuedIsPending(slots, queue, completed, submittedSerial, i);
        assert false;
      }
    }

    /** `begin_batch`: the next slot of the ring, once the GPU has finished what it last held. */
    method BeginBatch(need: nat) returns (ok: bool)
      requires Valid() && !failed && open == None
      modifies this`completed, this`queue, this`drawn, this`slots, this`failed, this`cause, this`open, this`cursor
      ensures Valid() && ok == !failed && cause != Refused
      ensures ok ==> open.Some? && open.value < |slots| && slots[open.value].Some?
      ensures ok ==> var b := slots[open.value].value;
                b.draws == [] && b.uploadUsed == 0 && b.registerUsed == BATCH_REGISTERS && b.wordsUsed == 0
                    && |b.upload| >= need
    {
      hide Image, QueueImage, OpenImage, SlotsOk, QueueOk, OpenOk, InQueue, BatchOk, History, AllShared, SharedIn;
      var i := cursor % SLOTS;
      ok := ClaimSlot(i);
      if !ok {
        return;
      }
      GpuRuns();
      SlotCount(slots, queue, completed, serial, failed);
      var b := EmptyBatch(i, need);
      SlotRewritten(slots, queue, completed, serial, submittedSerial, failed, i, b);
      OneShared(slots, shared, i, b);
      NothingOpen(slots, open);
      slots, open, cursor := slots[i := Some(b)], Some(i), cursor + 1;
    }

    /** The slot's storage, grown when it is too small, with nothing recorded. */
    method EmptyBatch(i: nat, need: nat) returns (b: Batch)
      requires SlotsOk(slots, queue, completed, serial, failed) && i < SLOTS
      requires SharedFits(shared)
      ensures SharedIn(b) == shared
      ensures BatchOk(b) && b.draws == [] && b.owners == [] && !b.submitted && b.serial <= serial && |b.upload| >= need
      ensures b.uploadUsed == 0 && b.registerUsed == BATCH_REGISTERS && b.wordsUsed == 0
    {
      StorageSizes(slots, queue, completed, serial, failed, i);
      var upload: seq<byte>, registers: seq<Register>, words: seq<Word> := [], seq(REGISTER_CAPACITY, k => 0),
          seq(WORD_CAPACITY, k => Code(0));
      var last: nat := 0;
      if slots[i].Some? {
        var was := slots[i].value;
        upload, registers, words, last := was.upload, was.registers, was.words, was.serial;
      }
      if |upload| < need || slots[i].None? {
        var capacity := MIN_UPLOAD;
        while capacity < need {
          capacity := capacity * 2;
        }
        upload := seq(capacity, k => 0);
      }
      registers := WithShared(registers, shared);
      b := Batch(upload, 0, registers, BATCH_REGISTERS, |shared.shader|, words, 0, [], None, None, [], last, false);
    }

    /** `submit_open`: one submission for all recorded draws; the driver may refuse it, which is final. */
    method SubmitOpen(refused: bool) returns (ok: bool)
      requires Valid() && !failed
      modifies this`slots, this`open, this`submittedSerial, this`queue, this`failed, this`cause, this`completed,
          this`drawn
      ensures Valid() && ok == !failed && open == None
      ensures ok ==> submittedSerial >= old(submittedSerial) && accepted == drawn + QueueImage(slots, queue)
      ensures !ok ==> refused && old(open).Some? && cause == Refused
    {
      hide Image, QueueImage, OpenImage, SlotsOk, QueueOk, OpenOk, InQueue, BatchOk, History, Passed, AllShared,
          FenceOk,
          Closed;
      GpuRuns();
      HistorySubmits(accepted, drawn, QueueImage(slots, queue), OpenImage(slots, open));
      OpenIs(slots, open, serial, submittedSerial);
      if open.None? || slots[open.value].value.draws == [] {
        NothingOpen(slots, open);
        NothingOpen(slots, None);
        open := None;
        NothingAhead(accepted, drawn, QueueImage(slots, queue), []);
        return true;
      }
      var i := open.value;
      OpenBatch(slots, queue, completed, serial, submittedSerial, failed, i);
      RoomForFence(slots[i].value);
      var b := Closed(slots[i].value);
      ClosedShared(slots, shared, i);
      SubmittedSlot(slots, queue, completed, serial, submittedSerial, i, b);
      SubmittedQueue(slots, queue, completed, serial, submittedSerial, i, b);
      NothingOpen(slots[i := Some(b)], None);
      open, slots, submittedSerial := None, slots[i := Some(b)], b.serial;
      if refused {
        failed, cause := true, Refused;
        return false;
      }
      queue := queue + [Submission(i, b.serial)];
      NothingAhead(accepted, drawn, QueueImage(slots, queue), []);
      GpuRuns();
      Retire();
      return true;
    }

    /** Records the draw in the open batch, which has room for it. */
    method RecordOpen(p: Packet)
      requires Valid() && !failed && Typed(p) && open.Some? && open.value < |slots| && slots[open.value].Some?
      requires HasRoom(slots[open.value].value, p)
      modifies this`slots, this`serial, this`accepted
      ensures Valid() && accepted == old(accepted) + [SeenOf(p, shared)] && serial == old(serial) + 1
    {
      hide Image, QueueImage, OpenImage, SlotsOk, QueueOk, OpenOk, InQueue, BatchOk, History, HasRoom, AllShared,
          SharedIn;
      var i := open.value;
      OpenBatch(slots, queue, completed, serial, submittedSerial, failed, i);
      SharedAt(slots, shared, i);
      var r := Record(slots[i].value, p, serial + 1);
      OneShared(slots, shared, i, r);
      RecordedSlot(slots, queue, completed, serial, submittedSerial, i, r);
      HistoryRecords(accepted, drawn, QueueImage(slots, queue), OpenImage(slots, open), SeenOf(p, shared));
      OpenImages(slots, i, r);
      slots, serial := slots[i := Some(r)], serial + 1;
      accepted := accepted + [SeenOf(p, shared)];
    }

    /** A draw that is refused whatever the GPU does. */
    predicate Refuses(p: Packet)
      reads this
    {
      failed || !PacketOk(p) || serial == 0xFFFF_FFFF_FFFF_FFFF || (!p.invisible && WorstUpload(p) > MAX_ADDRESS)
    }

    /** `draw`. Returns the draw's serial; a draw that nothing shows takes none. `refused` is the driver's answer if a
        full batch has to be submitted first. Between any two steps the GPU goes on; it cannot reach what they write. */
    method Draw(p: Packet, refused: bool) returns (out: Outcome)
      requires Valid() && Typed(p)
      modifies this`slots, this`open, this`cursor, this`serial, this`submittedSerial, this`failed, this`cause,
          this`completed, this`queue, this`drawn, this`accepted
      ensures Valid()
      ensures out.Drawn? && !p.invisible ==>
          accepted == old(accepted) + [SeenOf(p, shared)] && out.serial == serial == old(serial) + 1
      ensures out.Drawn? && p.invisible ==> accepted == old(accepted) && out.serial == serial == old(serial)
      ensures out.Drawn? ==> PacketOk(p) && !failed
      ensures out.Threw? ==> accepted == old(accepted) && serial == old(serial)
      ensures out.Threw? <==> old(Refuses(p)) || failed
      ensures old(failed) ==> cause == old(cause)
      ensures !old(failed) && cause == Refused ==> refused && old(open).Some?
    {
      hide Image, QueueImage, OpenImage, SlotsOk, QueueOk, OpenOk, InQueue, BatchOk, History, HasRoom;
      if failed || !PacketOk(p) || serial == 0xFFFF_FFFF_FFFF_FFFF {
        return Threw;
      }
      GpuRuns();
      if p.invisible {
        return Drawn(serial);
      }
      if WorstUpload(p) > MAX_ADDRESS {
        return Threw;
      }
      OpenIs(slots, open, serial, submittedSerial);
      if open.Some? && !HasRoom(slots[open.value].value, p) {
        var submitted := SubmitOpen(refused);
        if !submitted {
          return Threw;
        }
      }
      GpuRuns();
      if open.None? {
        var begun := BeginBatch(WorstUpload(p));
        if !begun {
          return Threw;
        }
        EmptyHasRoom(slots[open.value].value, p);
        GpuRuns();
      }
      OpenIs(slots, open, serial, submittedSerial);
      RecordOpen(p);
      GpuRuns();
      return Drawn(serial);
    }

    /** `submit`: afterwards every accepted draw is drawn or with the GPU. */
    method Submit(refused: bool) returns (ok: bool)
      requires Valid()
      modifies this`slots, this`open, this`submittedSerial, this`queue, this`failed, this`cause, this`completed,
          this`drawn
      ensures Valid() && ok == !failed
      ensures ok ==> open == None && accepted == drawn + QueueImage(slots, queue)
      ensures !ok ==> if old(failed) then cause == old(cause) else refused && old(open).Some? && cause == Refused
    {
      hide Image, QueueImage, OpenImage, SlotsOk, QueueOk, OpenOk, InQueue, BatchOk, History;
      if failed {
        return false;
      }
      ok := SubmitOpen(refused);
    }

    /** `finish`: when it returns, the GPU has executed every accepted draw, each with its own bytes, in order. */
    method Finish(refused: bool) returns (ok: bool)
      requires Valid()
      modifies this`slots, this`open, this`submittedSerial, this`failed, this`cause, this`completed, this`queue,
          this`drawn
      ensures Valid() && ok == !failed
      ensures ok ==> drawn == accepted && queue == [] && open == None
      ensures old(failed) ==> cause == old(cause)
      ensures !old(failed) && cause == Refused ==> refused && old(open).Some?
      ensures !old(failed) && cause.Stalled? ==> cause.target == submittedSerial
      ensures ok ==> forall i :: 0 <= i < SLOTS && slots[i].Some? ==> !slots[i].value.submitted
    {
      hide Image, QueueImage, OpenImage, SlotsOk, QueueOk, OpenOk, InQueue, BatchOk, History;
      if failed {
        return false;
      }
      ok := SubmitOpen(refused);
      if !ok {
        return;
      }
      GpuRuns();
      ghost var done := completed;
      if completed < submittedSerial {
        ghost var looks;
        ok, done, looks := WaitUntil(submittedSerial);
        if !ok {
          return;
        }
      } else {
        GpuRuns();
        done := completed;
        Retire();
      }
      AllFinished(slots, queue, completed, submittedSerial, serial);
      forall i | 0 <= i < SLOTS && slots[i].Some?
        ensures !slots[i].value.submitted
      {
        if slots[i].value.submitted {
          NotFinished(slots, queue, completed, serial, i);
          assert false;
        }
      }
      NothingOpen(slots, open);
      NothingQueued(slots);
      HistoryEnds(accepted, drawn, QueueImage(slots, queue), OpenImage(slots, open));
    }
  }
}
