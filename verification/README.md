# Verified model of the PS5 back end

The repository runs a recompiled Wii game on a PlayStation 5. Its core is a set of fast, lazy, batched or concurrent
mechanisms that must behave like simple ones. This project models them in Dafny and proves that they do.

- **GX draw front end** (`GxVertexLayout`, `GxPrimitives`, `GxSnapshot`, `GxGeometryBuffer`, `GxDraw`,
  `GxDrawExample`, `GxOpcodes`, `VertexLaws`, `BufferLaws`): a command stream is parsed, runs of triangle commands
  become one draw, vertex arrays are trimmed and packed into one byte buffer, and the vertex shader reads it back.
  Reference: a machine that draws every command on its own from the full arrays.
- **Lazy copies to Wii RAM** (`GxCopyStore`): a published copy is encoded only when its bytes are needed. Reference: a
  machine that stores every copy at once.
- **Tiled surfaces** (`TileBits`, `TextureLayout`, `TextureLaws`): XOR swizzles, padded blocks and the packed mip tail
  give every texel a cell of its own.
- **Asynchronous GPU work** (`AgcGxDraw`, `AgcBlit`, `VideoPresenter`): the GPU and the display are an environment
  that takes steps whenever it likes, reads storage when it gets to it, and writes completion labels in submission
  order.
- **Clock** (`FastClock`, `ClockReadings`, `ClockError`, `ClockAlone`): every atomic access of every thread is a step;
  steps interleave freely. Its values are monotone, come from one anchor each, and stay close to true time.
- **Function profiler** (`ProbeTable`, `FunctionProfiler`, `FunctionTimes`, `FiberTimes`, `FunctionTrace`): shadow
  stacks, fibers and unwinding with exact conservation of time over a linear-probing table, and what the totals mean
  in terms of the run alone.
- **Caches and guest memory** (`GxTextureCache`, `GuestAliases`, `GuestFlat`, `GuestFlatState`): the texture cache
  with its digest memo, the linked list of memory views with its counts, the layout of guest memory and its
  transactional set-up.
- **Combiner** (`TevInteger`, `TevStage`, `TevProgram`, `TevCoords`, `TevLaws`, `CoordLaws`): packed combiner programs
  against the state they were packed from, texture coordinates tracked where needed against tracked everywhere, and
  the two arithmetic paths against each other.
- **Autopilot** (`PadAutopilot`): the cursor over scripted presses against a full scan.

Code that works step by step is a class or a method with loops, proved against a specification function; what is promised
about that function is proved beside it. What both sides of such a proof share (opcodes, formats, addresses, swizzles,
arithmetic) is stated once more in plain numbers, in the modules named after laws, opcodes and traces and beside the
functions themselves. `Bytes` holds shared byte and list helpers.

Some promises hold only under a condition, and the condition is proved exact:

- Merging loses draws when a later draw of the group throws (`GxDrawExample.MergingCanLose`); `GxDraw.MergingIsReference`
  says that nothing else can be lost, and from which streams and registers something is (`GxDraw.Loses`).
- A scalar guest store leaves a cached view of a copy stale exactly if it changes a byte of it
  (`GxCopyStore.ScalarCoherence`, `GxCopyStore.ScalarLeavesStale`).
- A cached texture is that of its key exactly if no guest write made the bytes that were converted differ from those that
  were hashed (`GxTextureCache.TextureCache.Resolve`, `GxTextureCache.RaceServesStale`).
- Eviction is least-recently-used exactly while no two entries share the smallest stamp, which a wrap of the stamp counter
  can cause (`GxTextureCache.EvictsLeastRecent`, `GxTextureCache.WrapPicksNewer`).
- The distance into a memory bank is the address modulo the bank exactly while a window stays inside its bank
  (`GuestFlat.BankOfAddress`).
- Inclusive time is all the time a function is on the running stack exactly if no time passes while its lowest frame there
  is one that was pushed while the function was active on another fiber (`FiberTimes.CompleteExactly`,
  `FiberTimes.FibersHide`).
- The packed words of coordinate operations give the fields back exactly if wraps and bias fit a byte each
  (`TevCoords.WordsDecode`).
- An exit is matched exactly if a frame of the running stack has its key (`FunctionProfiler.ExitMatches`); functions that
  no longer fit the table have none, so their exits never are (`FunctionProfiler.SharedIsUnmatched`).

## Model

| member | source | states |
|---|---|---|
| GxDraw.MergingIsReference | ps5/gpu/gx_draw.cpp:43-134 | Main result, for every command stream and register state: the machine that groups triangle commands ends exactly as the machine that draws each command on its own, in the same registers, with the same corners (vertex contents, in order). When a draw throws, the only thing missing are the earlier commands of its own group; and the corners differ if and only if the stream and registers say so before anything is drawn: the first command whose capture throws stands in a run of joining triangle commands, cut at the size caps, behind one that names a vertex |
| GxDraw.LosesFrom | ps5/gpu/gx_draw.cpp:115-131 | The same from every point of a stream and with any pending group that can be captured: what the failing group loses names a vertex exactly if the stream, read from there with the extent of that group, says so |
| GxDraw.MergingAgrees | ps5/gpu/gx_draw.cpp:87-134 | The same from every point of a stream and with any pending group: what the group draws is put in front of what the reference still draws, and a group that cannot be captured fails the run exactly as its first failing command would |
| GxDraw.GroupedIsEach | ps5/gpu/gx_draw.cpp:56-74 | A group of commands, submitted as one packet, draws the corners its commands draw one by one, in order, and fails if and only if one of them fails |
| GxDraw.EachIsOkTogether | ps5/gpu/gx_geometry.cpp:109-134 | Capturing the records of a group together succeeds if and only if capturing every command alone succeeds |
| GxDraw.MergedCorners | ps5/gpu/gx_geometry.cpp:126-133 | The shifted index lists over the concatenated records name, in order, the corners of every command; every index is below the vertex total |
| GxDraw.SingleIsDrawn | ps5/gpu/gx_draw.cpp:24-39 | A single command draws what the reference says, and throws exactly when its capture throws |
| GxDraw.PendingIsJoined | ps5/gpu/gx_draw.cpp:77-85 | Whenever a group is pending, what follows is padding or a complete triangle draw of the same format that joins it, and the cached layout is the one that would be built; so the command is read the same with and without the group |
| GxDraw.EachSize | ps5/gpu/gx_draw.cpp:24-39 | Nothing of a group is culled one by one: it draws as many corners as its index lists have entries |
| GxDraw.SnapshotSegments | ps5/gpu/gx_geometry.cpp:109-134 | The counting loop, the capture and the in-place index loop together give the one capture of the whole group, index lists included; it throws for a non-triangle command or more vertices than 32 bits count |
| GxDraw.CountSegments | ps5/gpu/gx_geometry.cpp:111-121 | Vertex and index totals of all pending commands; throws exactly if one of them is not of the triangle class |
| GxDraw.WriteSegments | ps5/gpu/gx_geometry.cpp:124-132 | Fills the index array with every command's triangles, shifted by the vertices in front of it, and leaves no entry unwritten |
| GxDraw.NextDrawJoins | ps5/gpu/gx_draw.cpp:77-85 | True exactly if, behind zero bytes, a complete triangle draw of this vertex format starts inside the stream |
| GxDraw.FrontEnd.Submit | ps5/gpu/gx_draw.cpp:24-39 | Appends the packet of one command, nothing for an empty or culled one, and throws exactly when the capture throws |
| GxDraw.FrontEnd.SubmitPending | ps5/gpu/gx_draw.cpp:56-74 | Submits the packet of the group; afterwards no group is pending, even when the capture throws |
| GxDraw.FrontEnd.Add | ps5/gpu/gx_draw.cpp:123-127 | The group afterwards is the old one and the command; records, segments and the vertex total describe it |
| GxDraw.FrontEnd.HandleTriangles | ps5/gpu/gx_draw.cpp:115-133 | A complete triangle command either stays pending, and then what must follow it does, or everything pending is submitted; the merging machine goes on with what is left |
| GxDraw.FrontEnd.ReadDraw | ps5/gpu/gx_draw.cpp:96-114 | Reads count and records of a draw command exactly as the machine without merging would, or refuses a truncated one |
| GxDraw.FrontEnd.HandleDraw | ps5/gpu/gx_draw.cpp:87-134 | One step of the merging machine: it refuses and changes nothing, throws with no group left, or moves forward with the submitted corners in front of the rest of the run |
| GxDraw.FrontEnd.Process | dependency-additions/Wiicompiled/aurora-main/lib/gx/register_dispatch.cpp:23-145 | The whole stream: the registers and the ending are those of the unmerged commands, what was submitted draws the same corners exactly unless the stream loses some, and no group is left pending. What the unmerged commands draw is stated opcode by opcode in `GxOpcodes` |
| GxOpcodes.DrawsItsVertices | ps5/gpu/gx_draw.cpp:87-134 | Wherever a stream continues with an opcode from 0x80 to 0xBF, two count bytes in the stream's byte order and that many whole records that can be captured, the reference machine, to which `MergingIsReference` compares the merging one, draws from exactly these records: quads as 0 1 2 and 2 3 0, triangles, strips with every other triangle turned, fans around the first vertex, lines, line strips or points by the range of the opcode, element by element, and the next command is behind the last record |
| GxOpcodes.DrawRefused | ps5/gpu/gx_draw.cpp:96-114 | A draw opcode whose vertex format is not accepted, or whose count or records are not wholly in the stream, ends the run as refused with nothing drawn |
| GxOpcodes.DrawsNothing | ps5/gpu/gx_draw.cpp:24-39 | A complete draw without vertices, or a triangle or quad draw while everything is culled, draws nothing, and the run goes on behind its records; one whose capture fails throws |
| GxOpcodes.PaddingSkipped | ps5/gpu/gx_draw.cpp:77-85 | A zero byte is skipped, and a stream ends behind its last command |
| GxOpcodes.JoinsGroup | ps5/gpu/gx_draw.cpp:77-85 | What joins a group, behind any zero bytes: an opcode below 0xA8 of the group's vertex format with all its records in the stream |
| GxOpcodes.NothingJoins | ps5/gpu/gx_draw.cpp:77-85 | No other command does, and none that is cut off in front of its count |
| GxDrawExample.MergingCanLose | ps5/gpu/gx_draw.cpp:119-131 | A concrete stream and register state in which merging loses a triangle: the second draw of a group reads outside its array, and the first one is never drawn |
| GxDrawExample.LosesFirst | ps5/gpu/gx_draw.cpp:119-131 | Whenever two joining draws are such that only the first can be captured, the reference draws it and the merging machine draws nothing |
| GxPrimitives.IndicesInRange | ps5/gpu/gx_geometry.cpp:62-94 | Every index of a command names one of its vertices |
| GxPrimitives.ConsistentWinding | ps5/gpu/gx_geometry.cpp:62-72 | Neighbouring triangles of a strip, a fan and a quad walk their common side in opposite directions, so the turned strip triangles all face one way |
| GxPrimitives.WriteTriangleIndices | ps5/gpu/gx_geometry.cpp:62-72 | Writes the triangles of one command from a position on and touches nothing else of the array |
| GxPrimitives.BuildIndices | ps5/gpu/gx_geometry.cpp:73-94 | The index list of any primitive, truncated commands included |
| Bytes.LoadNumber | ps5/gpu/gx_geometry.cpp:11-14 | Reads a number of up to four bytes in either byte order; fails exactly when it is not wholly inside the data |
| Bytes.NumberIsTerms | ps5/gpu/gx_geometry.cpp:11-14 | Positional reading and byte-by-byte summing give the same number, which fits its width |
| GxVertexLayout.Build | ps5/gpu/gx_geometry.cpp:27-59 | The attribute loop gives the layout the registers describe, or fails at the first illegal attribute |
| GxVertexLayout.BuiltLayout | ps5/gpu/gx_geometry.cpp:27-59 | After any number of attributes: the record has no gaps, each attribute in use starts where the bytes of those before it end, none overlap, and each is what its registers stand for: component count, bytes of a component, type, fraction and index count by the table of formats, stride and byte order by its array, at most 36 bytes an attribute |
| GxVertexLayout.LayoutIsOk | ps5/gpu/gx_geometry.cpp:27-59 | Every layout that is built is usable by the rest of the front end, and is described by the registers in the same terms |
| GxVertexLayout.LayoutAccepted | ps5/gpu/gx_geometry.cpp:27-59 | A vertex format is accepted if and only if every attribute in use is: matrix indices direct, colours of six formats, numbers of five types with at most 31 fraction bits, two counts and three for the normal |
| GxVertexLayout.ComponentsBuilt | ps5/gpu/gx_geometry.cpp:36-51 | Accepted formats give component counts, widths and index counts that later code relies on; indexed attributes are never matrix indices |
| GxSnapshot.SnapshotRecords | ps5/gpu/gx_geometry.cpp:135-183 | Validation, the three scan loops and the copies give the captured draw or fail as specified |
| GxSnapshot.ScanWide | ps5/gpu/gx_geometry.cpp:157-161 | The two-byte loop finds the smallest and largest index |
| GxSnapshot.ScanNarrow | ps5/gpu/gx_geometry.cpp:162-166 | The one-byte loop finds the same hull |
| GxSnapshot.ScanGroups | ps5/gpu/gx_geometry.cpp:167-173 | The general loop finds the same hull for one or three indices a vertex |
| GxSnapshot.HullCovers | ps5/gpu/gx_geometry.cpp:154-173 | No index of any vertex lies outside the hull |
| GxSnapshot.HullReached | ps5/gpu/gx_geometry.cpp:154-173 | The hull is no larger than needed: its two ends are indices of some vertex |
| GxSnapshot.CaptureKeepsMeaning | ps5/gpu/gx_geometry.cpp:135-235 | Array trimming is sound: decoding a captured draw gives every vertex exactly the meaning its record has under the full source arrays, and never reads outside the captured bytes |
| GxSnapshot.GatherSound | ps5/gpu/gx_geometry.cpp:200-235 | The same for one attribute group: direct, indexed, NBT and NBT3 |
| GxSnapshot.TrimOfConcat | ps5/gpu/gx_geometry.cpp:174-180 | An array interval can be captured for two draws together if and only if it can for each of them |
| GxSnapshot.SnapshotOfConcat | ps5/gpu/gx_geometry.cpp:135-183 | Two draws can be captured together if and only if each of them can |
| GxSnapshot.HullOfConcat | ps5/gpu/gx_geometry.cpp:154-173 | The hull of concatenated records is the join of their hulls |
| GxSnapshot.DecodeVertex | ps5/gpu/gx_geometry.cpp:200-235 | The attribute and group loops of the decoder select every raw value of a vertex, or fail as specified |
| VertexLaws.MeaningSays | ps5/gpu/gx_geometry.cpp:184-235 | Byte by byte: a matrix index is its byte of the record; values in the record are big-endian numbers at the attribute's offset; an indexed attribute takes them from its array at the big-endian index times the stride, in the array's byte order; three groups, with an index each or one for all, only for nine-component normals; colours of one byte a channel are bytes, others one number. Through `CaptureKeepsMeaning` and `ShaderKeepsMeaning` these are the bytes the decoder and the shader read |
| VertexLaws.CaptureAccepted | ps5/gpu/gx_geometry.cpp:135-183 | A draw can be captured if and only if its records are whole, it has positions when it has vertices, and every index in every record names an element that ends inside the declared array and the memory behind it |
| GxGeometryBuffer.Serialize | ps5/gpu/gx_geometry_buffer.cpp:10-35 | Succeeds if and only if every part ends below the 32-bit limit; the buffer then holds the header words, records, attribute blocks and arrays, each at the offset the header names, and four zero bytes |
| GxGeometryBuffer.Append | ps5/gpu/gx_geometry_buffer.cpp:19-23 | Appends at the next multiple of four without moving what is there; throws exactly past the limit |
| GxGeometryBuffer.WriteAttribute | ps5/gpu/gx_geometry_buffer.cpp:26-31 | Fills one attribute block and appends its array; nothing else of the buffer changes |
| GxGeometryBuffer.FlagsRoundTrip | ps5/gpu/gx_geometry_buffer.cpp:28 | The packed flags word fits 32 bits, and the shader unpacks the six fields that were packed |
| GxGeometryBuffer.ReadUintReads | ps5/gpu/shaders/gx_vertex_raw.c:29-37 | The one or two aligned loads, shifts, masks and byte swaps read exactly the number stored at any address, in either byte order, inside the buffer |
| GxGeometryBuffer.FetchIsGather | ps5/gpu/shaders/gx_vertex_raw.c:45-75 | Serialize then fetch is the identity: whatever raw value the decoder selects of a captured draw, the shader selects from the serialized bytes, with every load in bounds |
| GxGeometryBuffer.MatrixIsGather | ps5/gpu/shaders/gx_vertex_raw.c:45-75 | The same for matrix indices |
| GxGeometryBuffer.ShaderKeepsMeaning | ps5/gpu/shaders/gx_vertex_raw.c:45-75 | End to end: what an attribute of a record means under the guest's full arrays is what the shader fetches from the serialized capture |
| BufferLaws.SerializedIs | ps5/gpu/gx_geometry_buffer.cpp:10-35 | The format in numbers, for any other reader: the four bytes 0x47 0x58 0x56 0x31, stride, 704, vertex count and matrix as words, at 32 + 32 a the six words of attribute a with mode, type, components, index count, fraction and byte order at their bits of the first one, the records from 704 on, and each array behind the one before, all filled up to whole words |
| GxCopyStore.CopyStore.Execute | ps5/gpu/gx_copy_store.cpp:30-71 | Lazy equals eager, over every sequence of publications, bulk writes, scalar stores, reads and destroyed textures, with any failures: the guest sees the memory of the machine that stores every copy at once, each read that returns gets that machine's bytes, and without copies that cannot be encoded exactly the refused operations throw |
| GxCopyStore.CopyStore.Step | ps5/gpu/gx_copy_store.cpp:30-71 | One operation does to the guest's view what the eager machine does to its memory, and throws exactly if it is refused or needs a copy that cannot be encoded; every operation but a scalar store keeps all cached GPU views equal to the bytes under them |
| GxCopyStore.CopyStore.Publish | ps5/gpu/gx_copy_store.cpp:30-62 | A successful publication is, to the guest, a store of the encoded bytes: byte i of it shows at an accepted address exactly where that address and the destination plus i agree modulo 0x4000_0000, and every other accepted address shows what it did; a failed one changes nothing the guest or the texture cache can see. It fails exactly if the destination is no RAM, a copy it partly covers cannot be encoded, or registering or caching fails |
| GxCopyStore.CopyStore.ResolvePartial | ps5/gpu/gx_copy_store.cpp:41-45 | Encodes exactly the pending copies the new range touches without covering them, unless one of those cannot be encoded; the guest sees no difference |
| GxCopyStore.CopyStore.Replace | ps5/gpu/gx_copy_store.cpp:49-61 | Registers, caches, and only then retires; a refused cache insertion leaves everything as it was |
| GxCopyStore.CopyStore.RegisterAndCancel | ps5/gpu/gx_copy_store.cpp:49-51 | Taking the registration back restores the list of pending copies |
| GxCopyStore.CopyStore.Commit | ps5/gpu/gx_copy_store.cpp:53-61 | Every overlapped range is retired, the key of the new node is free, and the new range replaces them |
| GxCopyStore.CopyStore.RetireCovered | ps5/gpu/gx_copy_store.cpp:53-58 | Retires exactly the overlapped ranges and their views; invisible to the guest |
| GxCopyStore.CopyStore.Retire | ps5/gpu/gx_copy_store.cpp:55-57 | One overlapped range goes with its registration and its view; invisible because the replacement covers it |
| GxCopyStore.CopyStore.PrepareWrite | ps5/gpu/gx_copy_store.cpp:63-71 | Afterwards RAM itself holds what the guest sees of the range, and no tracked range or view overlaps it |
| GxCopyStore.CopyStore.RetireViews | ps5/gpu/gx_copy_store.cpp:67-70 | Drops exactly the overlapping ranges and views |
| GxCopyStore.CopyStore.Resolve | ps5/patches/wiicompiled-ps5-memory-policy.patch:388-437 | Materializes what overlaps the range, and nothing else, without any visible change; succeeds exactly if every such copy can be encoded, and then nothing pending overlaps the range |
| GxCopyStore.CopyStore.Cancel | ps5/patches/wiicompiled-ps5-memory-policy.patch:325-345 | Removes the registration with the token, or reports that there is none |
| GxCopyStore.CopyStore.BulkStore | ps5/gpu/gx_copy_store.cpp:63-71 | An announced write is the eager store, with the same law of addresses as a publication, and keeps all views coherent |
| GxCopyStore.CopyStore.ScalarStore | ps5/patches/wiicompiled-ps5-memory-policy.patch:459-466 | A scalar store is the eager store, with the same law of addresses; it leaves the cached views coherent if and only if it changes no byte that one of them shows |
| GxCopyStore.CopyStore.Read | ps5/patches/wiicompiled-ps5-memory-policy.patch:388-437 | A guest read returns the eager bytes and changes nothing visible: byte i is what any accepted address shows that agrees with the first one plus i modulo 0x4000_0000 |
| GxCopyStore.Accepts | ps5/gpu/gx_copy_store.cpp:12-26 | The addresses accepted, in numbers: a range that is not empty and lies, modulo 0x4000_0000, in the 24 MiB of the first memory or in the 64 MiB from 0x1000_0000 on |
| GxCopyStore.StoreShows | ps5/gpu/gx_copy_store.cpp:12-26 | A store of the eager machine shows its bytes in all windows of its memory and changes no other byte |
| GxCopyStore.OverlapIs | ps5/gpu/gx_copy_store.cpp:28 | Two ranges overlap, for every decision of the store, if and only if they have a byte in common |
| GxCopyStore.CopyStore.Destroy | ps5/gpu/gx_copy_texture_cache.cpp:39-47 | Exactly the named view goes, or all of them; the others stay coherent |
| GxCopyStore.MaterializeInvisible | ps5/gpu/gx_copy_deferred.cpp:19-37 | Encoding any pending copy into RAM and forgetting it leaves the guest's view as it was |
| GxCopyStore.CancelInvisible | ps5/patches/wiicompiled-ps5-memory-policy.patch:325-345 | Forgetting a pending copy is invisible when the newest one covers all its bytes |
| GxCopyStore.RegisterIsStore | ps5/gpu/gx_copy_deferred.cpp:49-56 | Registering a copy is, to the guest, storing its bytes |
| GxCopyStore.PlainStore | ps5/patches/wiicompiled-ps5-memory-policy.patch:459-466 | Where nothing is pending, RAM is what the guest sees and a store is seen as stored |
| GxCopyStore.Committed | ps5/gpu/gx_copy_store.cpp:53-61 | With every overlapped range retired the ranges stay pairwise disjoint, the node insert cannot collide, and every pending copy belongs to its range |
| GxCopyStore.PublishKeepsCoherent | ps5/gpu/gx_copy_store.cpp:30-62 | A publication keeps every cached view equal to the guest's bytes, its own included |
| GxCopyStore.WriteKeepsCoherent | ps5/gpu/gx_copy_store.cpp:63-71 | An announced write keeps the remaining views coherent |
| GxCopyStore.ScalarCoherence | ps5/patches/wiicompiled-ps5-memory-policy.patch:459-466 | The exact condition for a store that retires no view: the views stay coherent if and only if it changes no byte of any of them |
| GxCopyStore.ScalarLeavesStale | ps5/patches/wiicompiled-ps5-memory-policy.patch:459-466 | A run that breaks it, over any memory: one byte is published and another stored over it; the cached view then differs from what the guest sees |
| GxCopyStore.RunStep | ps5/gpu/gx_copy_store.cpp:30-71 | Runs of the eager machine extend by one operation, reads included |
| TextureLayout.TexelsApart | ps5/gpu/texture_layout.cpp:11-56 | For every legal width, height and mip count, two different texels of any levels have disjoint 4-byte cells inside `byte_size()`, packed levels included |
| TextureLayout.TailIsShort | ps5/gpu/texture_layout.cpp:28-42 | At most eight levels are packed, so the tail table is never indexed beyond its eighth entry |
| TextureLayout.MaxMipsShifted | ps5/gpu/texture_layout.cpp:23-25 | Each halving of an extent takes at most one level off the chain |
| TextureLayout.TailApart | ps5/gpu/texture_layout.cpp:11 | Packed levels stay inside the first block and do not overlap one another |
| TextureLayout.CellInjective | ps5/gpu/texture_layout.cpp:51-56 | Padded blocks and in-block swizzle together are injective |
| TextureLayout.Build | ps5/gpu/texture_layout.cpp:19-46 | Rejects exactly the illegal extents and counts, and otherwise builds the surface |
| TextureLayout.BuildLevels | ps5/gpu/texture_layout.cpp:26-45 | The two loops give every level's extents, padding, tail place and offset |
| TextureLayout.CountLevels | ps5/gpu/texture_layout.cpp:23-24 | The length of the longest chain |
| TextureLayout.TailTest | ps5/gpu/texture_layout.cpp:33-34 | The running test finds the first level that fits the tail |
| TextureLayout.AddLevel | ps5/gpu/texture_layout.cpp:28-42 | One level more is recorded, with the bytes below it |
| TextureLayout.PlaceLevels | ps5/gpu/texture_layout.cpp:43-45 | From the last own level down to level 0, each level is placed behind the ones before |
| TextureLayout.Tile | ps5/gpu/texture_layout.cpp:57-73 | Fails without writing for wrong sizes and for buffers with a byte in common; otherwise every source pixel is at the cell of its texel, which `TextureLaws` puts into numbers, everything else of the surface is zero, and bytes behind it are untouched |
| TextureLayout.OverlapTest | ps5/gpu/texture_layout.cpp:60-62 | The test with one subtraction refuses exactly the pairs of buffers that have a byte in common |
| TextureLayout.TileLevel | ps5/gpu/texture_layout.cpp:66-72 | One level: all pixels written so far are at their cells |
| TextureLayout.TileRow | ps5/gpu/texture_layout.cpp:68-71 | One row of a level |
| TextureLayout.TileTexel | ps5/gpu/texture_layout.cpp:69-70 | One pixel is copied and no pixel before it is overwritten |
| TextureLayout.TexelStep | ps5/gpu/texture_layout.cpp:66-72 | Storing a texel keeps all texels stored before it and the zero padding |
| TextureLayout.SourceInside | ps5/gpu/texture_layout.cpp:65-71 | Every texel's source pixel lies in the linear image |
| TextureLayout.DepthTexelsApart | ps5/gpu/depth_layout.cpp:8-16 | Depth texels of every legal surface take disjoint 4-byte cells inside it, and the 32-bit offset never wraps |
| TileBits.InBlockInjective | ps5/gpu/texture_layout.cpp:14-17 | Two texels share an in-block offset if and only if their coordinates agree modulo 128, for the colour and the depth equation |
| TileBits.InBlockRange | ps5/gpu/gx_depth_offset.h:9-15 | In-block offsets are whole texels inside 64 KiB |
| TileBits.BitsInjective | ps5/gpu/texture_layout.cpp:14-17 | The XOR equations are injective on the seven low bits of each coordinate |
| TileBits.SevenBits | ps5/gpu/texture_layout.cpp:14-17 | The bits an equation looks at are the coordinate modulo 128 |
| TextureLaws.ColorTile | ps5/gpu/texture_layout.cpp:14-18 | An aligned 8 by 8 tile of a texture fills 256 consecutive bytes, with texel (x, y) at 4 (x mod 4) + 16 (y mod 8) + 128 (x / 4 mod 2) behind its start |
| TextureLaws.LegalIs | ps5/gpu/texture_layout.cpp:19-25 | Sides from 1 to 16384 are accepted, with as many levels as halve the longer side down to one texel |
| TextureLaws.TexelsAre | ps5/gpu/texture_layout.cpp:47-56 | A level has a texel for each whole fraction of the sides, at least one, and any other coordinates or level are refused |
| TextureLaws.OwnTexel | ps5/gpu/texture_layout.cpp:47-56 | Where every texel of a level with blocks of its own is, in numbers: behind the level's start the blocks row by row, 64 KiB each, and in the block the place of every coordinate bit |
| TextureLaws.PackedTexel | ps5/gpu/texture_layout.cpp:11-56 | Where every texel of a packed level is: in the one block at the surface's start, at the corner of its level, the first at (64, 0), the next at (0, 64), (32, 0), (0, 32), (16, 0) and so on; at most eight levels are packed |
| TextureLaws.PackedFrom | ps5/gpu/texture_layout.cpp:28-42 | A chain of several levels is packed from the first level on that is at most 64 by 128 texels, rounded up, with at most eleven levels behind it; a single level never is |
| TextureLaws.LevelStarts | ps5/gpu/texture_layout.cpp:43-45 | Levels lie from the smallest up: the packed ones share the first block, and each other one starts where the next smaller one ends |
| TextureLaws.SurfaceEnds | ps5/gpu/texture_layout.cpp:43-46 | The surface ends where its largest level does |
| TextureLaws.SourceOrder | ps5/gpu/texture_layout.cpp:65-72 | The linear image holds the levels behind one another from the largest down, each row by row, four bytes a texel |
| TextureLaws.DepthTexel | ps5/gpu/depth_layout.cpp:8-16 | Where every texel of a depth surface is, in numbers: 64 KiB blocks row by row, and in the block the depth equation bit by bit; coordinates outside are refused |
| TileBits.ColorPlace | ps5/gpu/texture_layout.cpp:14-17 | The XORs of shifted and masked coordinates are, in arithmetic, one sum of coordinate bits at powers of two |
| TileBits.DepthPlace | ps5/gpu/gx_depth_offset.h:9-15 | The same for the depth equation |
| FastClock.NeverBackwards | ps5/runtime/fast_clock.h:40-61 | In every interleaving of any number of threads, a call that starts after another returned gives no smaller value |
| FastClock.ReadsOneAnchor | ps5/runtime/fast_clock.h:43-47 | A thread that leaves the read loop leaves with counter and time of one anchor, the newest |
| FastClock.OneResync | ps5/runtime/fast_clock.h:51-54 | At most one thread re-anchors at a time |
| FastClock.AnchorInBracket | ps5/runtime/fast_clock.h:77-81 | The anchor of a resync is the middle of its two counter readings |
| FastClock.ActKeeps | ps5/runtime/fast_clock.h:40-93 | Every atomic step of every thread keeps the invariant of sequence lock, try-lock and maximum register |
| FastClock.RunKeeps | ps5/runtime/fast_clock.h:40-93 | The invariant holds in every reachable state |
| ClockReadings.ValuesAreReadings | ps5/runtime/fast_clock.h:40-93 | In every interleaving, every value a call returns is the reading of an anchor that was in force, at a counter value that had been reached: no torn pair of counter and time ever shows |
| ClockReadings.ActHolds | ps5/runtime/fast_clock.h:40-93 | Whatever a thread is about to return, and whatever it stores in the maximum register, is such a reading |
| ClockReadings.RunOnLine | ps5/runtime/fast_clock.h:40-93 | So are the register and all returned values in every reachable state |
| FastClock.ScaleAdditive | ps5/runtime/fast_clock.h:67-69 | The conversion is monotone, and splitting an interval loses at most one nanosecond |
| ClockError.ErrorBound | ps5/runtime/fast_clock.h:40-93 | In every interleaving in which the kernel clock is right when it is read and the counter runs at its frequency, every value a call returns lies between true time at the start of the call and true time at its end, up to half the widest bracket of a resync and, below, two nanoseconds of rounding |
| ClockError.ActTrue | ps5/runtime/fast_clock.h:40-93 | Every step keeps every anchor, the register, what threads hold and all returned values within that bound |
| ClockError.ReadingTrue | ps5/runtime/fast_clock.h:49-50 | A reading of a true anchor is no later than true time now and no earlier than true time at the counter it was taken for, also when that counter is behind the anchor |
| FastClock.ConfigOf | ps5/runtime/fast_clock.h:72-75 | The resync interval is its length in ticks, rounded down, and at least one |
| ClockAlone.SoonAfter | ps5/runtime/fast_clock.h:40-61 | A call alone, sooner after the anchor than the resync interval: it returns the anchor's time plus the ticks since it in nanoseconds, rounded down, or the last value returned if that is larger, and changes nothing else |
| ClockAlone.LongAfter | ps5/runtime/fast_clock.h:71-93 | A call alone at or after the interval: it re-anchors to its kernel reading at the middle of its two counter readings, and returns the kernel time plus the ticks since that middle, or the last value if that is larger |
| AgcGxDraw.DrawQueue.Finish | ps5/gpu/agc_gx_draw.cpp:182-186 | When it returns, the GPU has executed every accepted draw, each with the commands, registers and bytes of its own packet and the shared registers of its batch, in order, whatever the interleaving; nothing is queued and no batch holds owners as submitted |
| AgcGxDraw.DrawQueue.Draw | ps5/gpu/agc_gx_draw.cpp:191-267 | An accepted draw is added to the history with its own bytes and the next serial; an invisible one takes none; a refused one changes neither. It throws exactly if its checks fail or the queue has failed, with the GPU moving between all steps; and the queue fails only because the driver refused the full batch, or because the label stayed below a target for all looks of a wait |
| AgcGxDraw.DrawQueue.BeginBatch | ps5/gpu/agc_gx_draw.cpp:141-165 | The slot taken is empty, long enough, and out of the GPU's reach; the GPU's pending work draws what it did before, from buffers, commands and register copies alike |
| AgcGxDraw.DrawQueue.ClaimSlot | ps5/gpu/agc_gx_draw.cpp:142-148 | Waits until no queued submission reads the slot, or fails for good after looking at the label 13192 times in vain |
| AgcGxDraw.DrawQueue.SubmitOpen | ps5/gpu/agc_gx_draw.cpp:166-181 | Submits the recorded draws once: afterwards every accepted draw is drawn or queued, in order; a refusal is final and nothing is reused afterwards |
| AgcGxDraw.DrawQueue.RecordOpen | ps5/gpu/agc_gx_draw.cpp:216-266 | Recording into the open batch extends what it will draw by exactly this packet |
| AgcGxDraw.DrawQueue.Submit | ps5/gpu/agc_gx_draw.cpp:187-190 | Closes the open batch: every accepted draw is then drawn or queued, in order; it fails only after an earlier failure or when the driver refuses an open batch |
| AgcGxDraw.DrawQueue.WaitUntil | ps5/gpu/agc_gx_draw.cpp:126-140 | Returns only when the label has reached the target, and then exactly the batches the label had passed at its last look are released. It fails exactly if all 13192 looks, the first of them at entry, saw the label below the target; that is final and releases nothing |
| AgcGxDraw.DrawQueue.Retire | ps5/gpu/agc_gx_draw.cpp:122-125 | One look at the label: exactly the submitted batches it had passed are released, whatever the GPU finishes meanwhile |
| AgcGxDraw.DrawQueue.GpuFinishes | ps5/gpu/agc_gx_draw.cpp:166-177 | The environment step: the GPU draws what it reads from the first batch now and writes the serial it finds in that batch's fence; drawn and pending work together stay the same |
| AgcGxDraw.Record | ps5/gpu/agc_gx_draw.cpp:216-266 | The GPU will read exactly the commands, registers and bytes of this packet and of every packet before it, although equal constants and uniforms are not uploaded again; the batch's copy of the shared registers is not touched |
| AgcGxDraw.ClosedKeeps | ps5/gpu/agc_gx_draw.cpp:171-172 | The fence written behind the packets holds the batch's serial and overwrites nothing the draws read |
| AgcGxDraw.DrawQueue.EmptyBatch | ps5/gpu/agc_gx_draw.cpp:148-164 | The storage of a slot, long enough and with nothing recorded, holds the queue's copy of the shader and primitive registers |
| AgcGxDraw.ImageExtended | ps5/gpu/agc_gx_draw.cpp:216-266 | A draw recorded in a batch that only grew is added behind what the batch already draws |
| AgcGxDraw.FetchKept | ps5/gpu/agc_gx_draw.cpp:216-265 | What a recorded draw reads, its commands and the shared registers included, does not change while the batch only grows |
| AgcGxDraw.QueueKept | ps5/gpu/agc_gx_draw.cpp:141-165 | Changing a slot that no queued submission names changes nothing the GPU will draw |
| AgcBlit.Blitter.Finish | ps5/gpu/agc_blit.cpp:167-175 | Terminates; when it succeeds nothing is unresolved and the GPU has done every accepted blit in order, with its own arena contents and clear colour |
| AgcBlit.Blitter.Clear | ps5/gpu/agc_blit.cpp:342-349 | An accepted clear is one more request behind the earlier ones, with its own memory and colour whatever clears follow; a refused one leaves the requests as they were |
| AgcBlit.Blitter.FillConstant | ps5/gpu/agc_blit.cpp:85-89 | The image has the colour, and no unfinished blit sees another colour than before |
| AgcBlit.Blitter.Execute | ps5/gpu/agc_blit.cpp:187-320 | An accepted blit is queued behind the others with its own contents and the next serial; nothing in flight changes |
| AgcBlit.Blitter.Claim | ps5/gpu/agc_blit.cpp:178-186 | The arena is mapped and no unfinished blit uses it; waits for the oldest of sixteen, or fails |
| AgcBlit.Blitter.Wait | ps5/gpu/agc_blit.cpp:146-165 | Releases the arena only once its label holds its serial, and touches no other. It fails exactly if all 5000 looks, the first at entry, saw another value; that is final |
| AgcBlit.Blitter.Retire | ps5/gpu/agc_blit.cpp:140 | Every submitted arena whose label holds its serial is released, and none whose label does not hold it when looked at, while the GPU goes on |
| AgcBlit.Blitter.Unresolved | ps5/gpu/agc_blit.cpp:141-145 | True exactly after a failure or while the GPU has a job left |
| AgcBlit.Blitter.GpuFinishes | ps5/gpu/agc_blit.cpp:69-73 | The environment step: the first job is done with what memory holds now, and only its arena's label is written |
| AgcBlit.QueueKept | ps5/gpu/agc_blit.cpp:178-186 | Changing an arena no job uses is out of the GPU's reach |
| AgcBlit.ColorKept | ps5/gpu/agc_blit.cpp:85-89 | So is recolouring a clear image that no job reads |
| AgcBlit.JobFinishes | ps5/gpu/agc_blit.cpp:69-73 | After the first job, each arena's label holds its serial exactly if its own blit is done |
| AgcBlit.BlitSubmitted | ps5/gpu/agc_blit.cpp:288-319 | A blit written to a claimed arena with a cleared label keeps all invariants, queued or refused |
| AgcBlit.NothingLeft | ps5/gpu/agc_blit.cpp:167-175 | With no arena unresolved the GPU has nothing queued and every accepted blit is done |
| VideoPresenter.Presenter.Submit | ps5/gpu/video_presenter.cpp:74-108 | The painted buffer is neither on screen nor was queued; its border is black and its rectangle is the source; the screen's buffer is untouched; exactly one flip is queued |
| VideoPresenter.Presenter.FreeBuffer | ps5/gpu/video_presenter.cpp:75-87 | Passes only when no flip is outstanding, and then gives the buffer that is not on screen |
| VideoPresenter.Presenter.Paint | ps5/gpu/video_presenter.cpp:88-98 | The border is black and the picture complete although the clear is skipped when the buffer's previous rectangle is the same |
| VideoPresenter.Presenter.QueueFlip | ps5/gpu/video_presenter.cpp:102-107 | The flip is outstanding only once the display took it; until then the presenter counts as failed |
| VideoPresenter.Presenter.Retire | ps5/gpu/video_presenter.cpp:62-73 | Returns only when the flip is on screen. It fails, for good, exactly if a status call fails before any attempt saw it there, or all 5000 attempts, the first at entry, did not |
| VideoPresenter.Presenter.Present | ps5/gpu/video_presenter.cpp:114-116 | When it returns, the screen shows the source in the rectangle and black around it |
| VideoPresenter.Presenter.DisplayFlips | ps5/gpu/video_presenter.cpp:62-70 | The environment step: the buffer and the number of the queued flip are shown, and one more flip has completed |
| FunctionProfiler.EveryTickOnce | ps5/runtime/function_profiler_ps5.cpp:121-169 | Over every sequence of entries, exits, unmatched exits, overflows, fiber switches and reports: self times, flushed windows, root, hook and gap times add up to the elapsed time; a function's counter is its number of frames on all stacks, with at most one outermost; the inclusive time a frame would get is the self time charged inside it |
| FunctionTimes.SelfIsTimeOnTop | ps5/runtime/function_profiler_ps5.cpp:121-125 | Over every run and for every function, the self time of this and all past windows is the time the function was on top of the running stack |
| FunctionTrace.ProfileIsTrue | ps5/runtime/function_profiler_ps5.cpp:86-169 | Main result against a trace without table, frames or slots, which only keeps the open calls of every fiber by function (an entry adds one, an exit ends the innermost of its function and all above it): over every run the shadow stacks are these calls, and since the last report the row of every function has as many calls as it was entered, as many child calls as functions were entered with it on top, and as much self time as it was on top; functions that found 65536 others known share one row, which no report clears |
| FunctionTrace.ReportIsTrue | ps5/runtime/function_profiler_ps5.cpp:311-325 | What a report finds in a row is that of the window it closes, with the time up to its own beginning |
| FunctionTrace.StepTraced | ps5/runtime/function_profiler_ps5.cpp:111-169 | Every entry, exit, fiber switch and report does to the shadow stacks what it does to the trace |
| FunctionTrace.AnywhereIsOpen | ps5/runtime/function_profiler_ps5.cpp:127-161 | A function has a frame on the running stack if and only if one of its calls is open there |
| FunctionTimes.InclusiveIsTimeUnder | ps5/runtime/function_profiler_ps5.cpp:127-161 | Over every run and for every function, the inclusive time credited in this and all past windows, with what its open activations still hold, is the time its outermost activation was on the running stack |
| FiberTimes.CompleteExactly | ps5/runtime/function_profiler_ps5.cpp:127-161 | Over every run and for every function: inclusive time is never more than the time the function is anywhere on the running stack, and it is all of it if and only if no time passes while its lowest frame there is one that was pushed while the function was active on another fiber |
| FiberTimes.HiddenIsShared | ps5/runtime/function_profiler_ps5.cpp:127-140 | In every reachable state, a function is on the running stack without an outermost frame there if and only if its lowest frame there was pushed while it was active on another stack; how other fibers end later does not matter |
| FiberTimes.StepEntered | ps5/runtime/function_profiler_ps5.cpp:127-140 | Only an entry that finds room adds a frame, one on top of the running stack, outermost exactly if the function has a frame on no stack; all other events only remove frames |
| FiberTimes.UnderIsAnywhere | ps5/runtime/function_profiler_ps5.cpp:127-161 | Without fiber switches inclusive time is all the time the function is anywhere on the stack, recursion counted once |
| FiberTimes.FibersHide | ps5/runtime/function_profiler_ps5.cpp:430-452 | A concrete run in which it is not: a function entered on one fiber and again on the next loses the time it runs there |
| FunctionTimes.StepSelf | ps5/runtime/function_profiler_ps5.cpp:396-452 | One event moves one function's self time, by the interval before it |
| FunctionTimes.StepInclusive | ps5/runtime/function_profiler_ps5.cpp:396-452 | One event moves the inclusive time of the functions whose outermost activation is on the running stack, by the interval before it |
| FunctionProfiler.FinalizeCredits | ps5/runtime/function_profiler_ps5.cpp:142-146 | Ending an activation credits an outermost one with exactly the self time charged inside its subtree, and changes no other function |
| FunctionProfiler.RunKeeps | ps5/runtime/function_profiler_ps5.cpp:121-169 | The conservation invariant holds after every run |
| FunctionProfiler.ExitMatches | ps5/runtime/function_profiler_ps5.cpp:148-161 | An exit, while no deeper call overflowed, counts as unmatched if and only if no frame of the running stack is the function's; it then changes nothing else |
| FunctionProfiler.SharedIsUnmatched | ps5/runtime/function_profiler_ps5.cpp:110-119 | A function that found no room in the full table shares one record without a key, so every one of its exits is unmatched |
| FunctionProfiler.Profiler.Enter | ps5/runtime/function_profiler_ps5.cpp:396-402 | A function entry is the specified step |
| FunctionProfiler.Profiler.Exit | ps5/runtime/function_profiler_ps5.cpp:404-410 | A function exit, with the unwinding loop, is the specified step |
| FunctionProfiler.Profiler.SwitchFiber | ps5/runtime/function_profiler_ps5.cpp:430-452 | Leaving one fiber and resuming or starting another is the specified step |
| FunctionProfiler.Profiler.ReportWindow | ps5/runtime/function_profiler_ps5.cpp:311-392 | Closing a window and starting the next is the specified step |
| ProbeTable.SearchRefinesMap | ps5/runtime/function_profiler_ps5.cpp:110-119 | Linear probing refines a map: a key is found exactly if it was stored, a missing one gets the first free slot and the table stays in order; there is none if and only if no slot is free |
| ProbeTable.SlotIsForEver | ps5/runtime/function_profiler_ps5.cpp:110-119 | Through every sequence of later look-ups a stored key is found in its slot, the table stays in order, and no other key is found in that slot or given it |
| ProbeTable.Find | ps5/runtime/function_profiler_ps5.cpp:110-119 | The probing loop gives the slot of the search and stores a new key there |
| GxTextureCache.TextureCache.Resolve | ps5/gpu/gx_texture_cache.cpp:62-127 | With guest writes racing the hashing of texture and palette and the time before the conversion: fails, changing nothing, exactly for an unsupported format, illegal extents, missing bytes, or a needed palette that is missing, empty, of a wrong format or has fewer than two bytes for each entry. What is hashed and what is converted are the texture's bytes and, for an indexed format, two bytes of palette for each entry, byte by byte the guest's from their addresses on at some moment of the call; which moment of the hashing is a function of the memo and the races. A hit shows the entry stored under them and touches only it; a miss converts what is there at the end and stores it under what was hashed. Given that no key lied before, none lies afterwards if and only if no entry was inserted or the hashed and the converted bytes are equal; and without racing writes the texture is that of the bytes as they are now |
| GxTextureCache.TextureCache.Hit | ps5/gpu/gx_texture_cache.cpp:88-92 | A hit returns the texture of what was hashed and keeps every key true, as far as the digest tells contents apart |
| GxTextureCache.TextureCache.Miss | ps5/gpu/gx_texture_cache.cpp:93-126 | A miss leaves every key true exactly if what was hashed is what was converted, or nothing was inserted |
| GxTextureCache.TextureCache.InsertedSound | ps5/gpu/gx_texture_cache.cpp:115-125 | After an insertion, evictions included, every key is that of its texture's content if and only if the hashed and converted contents are equal |
| GxTextureCache.RaceServesStale | ps5/gpu/gx_texture_cache.cpp:76-127 | A run that goes wrong with a digest that tells everything apart: a write between hashing and converting, and after the old byte is back a look-up of it shows the texture of the other one |
| GxTextureCache.TextureCache.SourceDigest | ps5/gpu/gx_texture_cache.cpp:27-43 | The digest is that of the bytes before the call when the memo has it for a standing generation, and of those after the racing writes otherwise; the memo afterwards is exactly the old one or the old one, emptied when full, with the new digest, and stays sound for later calls |
| GxTextureCache.TextureCache.Digests | ps5/gpu/gx_texture_cache.cpp:79-87 | The key of a look-up is that of the texture's and the palette's bytes at two moments which the memo and the races decide, the second moment from what the first digest leaves in the memo |
| GxTextureCache.MemoIsFresh | ps5/gpu/gx_texture_cache.cpp:37-42 | A memoized digest whose generation still stands is the digest of the bytes as they are now, even if writes raced with the hashing |
| GxTextureCache.SameGeneration | ps5/gpu/gx_texture_cache.cpp:28-38 | While its generation stands a range kept its bytes, also at every moment in between |
| GxTextureCache.KeysTell | ps5/gpu/gx_texture_cache.cpp:76-87 | Equal keys mean equal contents, palettes included, as far as the digest tells contents apart |
| GxTextureCache.ChangeChangesKey | ps5/gpu/gx_texture_cache.cpp:74-87 | Between two look-ups that nothing races, a change of any byte of the texture, or of either byte of any palette entry, changes the key |
| GxTextureCache.TouchesIs | ps5/gpu/gx_texture_cache.cpp:27-43 | A write moves the generation of a range if and only if it writes one of its bytes |
| GxTextureCache.TextureCache.CountsLayout | ps5/gpu/gx_texture_cache.cpp:115-125 | What a texture counts in the budget is the size of its own layout |
| GxTextureCache.EvictsLeastRecent | ps5/gpu/gx_texture_cache.cpp:119-124 | Whichever smallest stamp the search meets, the entry is least recently used if and only if no two entries share the smallest stamp; only a wrap of the stamp counter makes them |
| GxTextureCache.WrapPicksNewer | ps5/gpu/gx_texture_cache.cpp:55-61 | A run in which it does: two textures, one looked up until the stamps are used up, and a third; the search then picks the one looked up last, not the least recently used |
| GxTextureCache.DigitsInjective | ps5/gpu/gx_texture_cache.cpp:76-87 | The digest of these runs tells all byte sequences apart |
| GxTextureCache.TextureCache.Evict | ps5/gpu/gx_texture_cache.cpp:119-124 | Entries go until the rest fits the budget; the entry just inserted stays |
| GxTextureCache.TextureCache.FindOldest | ps5/gpu/gx_texture_cache.cpp:120-121 | The first entry with the smallest stamp |
| GxTextureCache.TextureCache.NextStamp | ps5/gpu/gx_texture_cache.cpp:55-61 | Larger than every stamp, also when the counter wraps |
| GxTextureCache.TextureCache.Insert | ps5/gpu/gx_texture_cache.cpp:115-125 | The new entry is behind the others, whose stamps change only when the counter wraps, and only older ones go, none while the budget suffices |
| GuestAliases.Arena.Map | ps5/runtime/guest_memory_ps5.cpp:45-71 | Succeeds if and only if the handle is free, everything is aligned and inside, no view overlaps, and the kernel agrees; then the view heads the list and its backing counts one more; otherwise nothing changes |
| GuestAliases.Arena.Unmap | ps5/runtime/guest_memory_ps5.cpp:72-86 | The view leaves the linked list, all others stay in order, its backing counts one less, and the handle is free again |
| GuestAliases.Arena.Unlink | ps5/runtime/guest_memory_ps5.cpp:79-81 | Walking the links and splicing out one handle removes exactly that view from the chain |
| GuestAliases.Arena.Overlaps | ps5/runtime/guest_memory_ps5.cpp:52-58 | The scan reports an overlap exactly if some mapped view overlaps |
| GuestAliases.Arena.CheckMap | ps5/runtime/guest_memory_ps5.cpp:47-58 | All checks pass exactly if the view fits |
| GuestAliases.Arena.Reserve | ps5/runtime/guest_memory_ps5.cpp:17-29 | The space is reserved at its fixed address or not at all |
| GuestAliases.Arena.Close | ps5/runtime/guest_memory_ps5.cpp:101-107 | Refused while any view is left |
| GuestAliases.Backing.Open | ps5/runtime/guest_memory_ps5.cpp:30-44 | Gives memory rounded to pages, or leaves nothing behind when the kernel takes back what it gave |
| GuestAliases.Backing.Close | ps5/runtime/guest_memory_ps5.cpp:87-100 | Refused while views are left; a failing step keeps the rest for a retry |
| GuestAliases.CountWithout | ps5/runtime/guest_memory_ps5.cpp:79-82 | Taking one view out lowers the count of its own backing and of no other |
| GuestAliases.ViewJoins | ps5/runtime/guest_memory_ps5.cpp:52-69 | A view apart from all others keeps the list disjoint and inside the reservation |
| GuestFlat.Validate | ps5/runtime/guest_flat_memory_ps5.cpp:76-95 | Throws the fault of the first bad region, and accepts exactly the sound lists, which `SoundIs` puts into numbers |
| GuestFlat.SoundIs | ps5/runtime/guest_flat_memory_ps5.cpp:76-95 | A list is sound if and only if every region that is not empty is of a known kind, begins at a multiple of 64 KiB, ends inside 4 GiB, and no two have bytes in the same 64 KiB granule |
| GuestFlat.RoundingStaysInside | ps5/runtime/guest_flat_memory_ps5.cpp:82-86 | The check for a rounded region past the space can never fail once the one before it passed |
| GuestFlat.Plan | ps5/runtime/guest_flat_memory_ps5.cpp:112-131 | Every region is placed inside a section that serves it, no two sections serve the same use, and no section is longer than a region needs |
| GuestFlat.FindSection | ps5/runtime/guest_flat_memory_ps5.cpp:116-121 | The first section that serves the region, or none |
| GuestFlat.PlanRegion | ps5/runtime/guest_flat_memory_ps5.cpp:112-131 | One region reuses, grows or adds a section without displacing the regions before it |
| GuestFlat.Layout.HostPointer | ps5/runtime/guest_flat_memory_ps5.cpp:152-163 | Null exactly outside all regions, rounded tails included; otherwise the place of the only region that contains the address |
| GuestFlat.PointerInside | ps5/runtime/guest_flat_memory_ps5.cpp:152-163 | A host pointer stays inside the memory of its own section |
| GuestFlat.SameByte | ps5/runtime/guest_flat_memory_ps5.cpp:61-65 | Two guest addresses reach the same byte if and only if they are the same owned address, or lie equally far into windows onto the same bank; nothing else aliases |
| GuestFlat.BankOfAddress | ps5/runtime/guest_flat_memory_ps5.cpp:61-65 | The distance into the bank is the address modulo the bank size exactly while the window has not run past the bank |
| GuestFlat.ConsoleBytes | ps5/runtime/guest_flat_memory_ps5.cpp:61-65 | The windows of the console's memory map never run past their bank: two addresses in them reach the same byte if and only if they are in the same bank and agree modulo 0x200_0000 in the first, 0x1000_0000 in the second |
| GuestFlat.OneRegion | ps5/runtime/guest_flat_memory_ps5.cpp:76-95 | At most one region contains an address |
| GuestFlat.RegionFits | ps5/runtime/guest_flat_memory_ps5.cpp:139-146 | With the regions before it mapped, every check of the alias arena passes for a planned region |
| GuestFlatState.State.Build | ps5/runtime/guest_flat_memory_ps5.cpp:97-151 | Initialization is a transaction: it succeeds if and only if the kernel does everything asked of it, and then every region is mapped where it belongs and, when the kernel keeps the sections' memory apart, the layout is one for which host pointers are right; otherwise nothing stays reserved, allocated or mapped |
| GuestFlatState.State.BuiltLayout | ps5/runtime/guest_flat_memory_ps5.cpp:133-151 | Memory for every section, apart from the others', makes a planned layout a valid one |
| GuestFlatState.State.SeesHost | ps5/runtime/guest_flat_memory_ps5.cpp:139-163 | In a built layout the guest's mapping of an address and its host pointer are the same byte of memory |
| GuestFlatState.State.Attempt | ps5/runtime/guest_flat_memory_ps5.cpp:97-146 | Reserves, allocates and maps everything if and only if the kernel does all that is asked |
| GuestFlatState.State.Destroy | ps5/runtime/guest_flat_memory_ps5.cpp:38-49 | From any stage of an attempt everything is released and the process never has to end |
| GuestFlatState.State.UnmapAll | ps5/runtime/guest_flat_memory_ps5.cpp:42-43 | Unmapping from the last mapping to the first empties the list |
| GuestFlatState.State.OpenAll | ps5/runtime/guest_flat_memory_ps5.cpp:133-138 | Every section gets memory of its size, or the loop stops at the first refusal |
| GuestFlatState.State.MapAll | ps5/runtime/guest_flat_memory_ps5.cpp:139-146 | Maps every region unless the kernel refuses; no check of the arena ever does |
| GuestFlatState.State.MapOne | ps5/runtime/guest_flat_memory_ps5.cpp:139-146 | One region more is mapped, or nothing changes |
| TevProgram.RunAgrees | ps5/gpu/gx_tev_program.cpp:49-95 | Packing preserves meaning: for every accepted state and all inputs, interpreting the packed words leaves the same registers and result, stage by stage, as the state's own selectors, although one packed constant stands for two and is left at zero where it is not read |
| TevProgram.PixelAgrees | ps5/gpu/tev_stage.h:158-166 | The same up to the pixel: alpha test and wrapped colour |
| TevProgram.RunInRange | ps5/gpu/tev_stage.h:128-150 | In every run of every accepted program the registers stay in -1024..1023, and no stage hands the integer core inputs outside those for which all its intermediates are 32-bit integers |
| TevProgram.Build | ps5/gpu/gx_tev_program.cpp:49-95 | Accepts exactly the states whose used selectors are in range, and then packs every stage in use, texture dependency and coordinate operations included |
| TevCoords.CoordsAgree | ps5/gpu/shaders/tev_direct_probe.c:110-145 | Keeping track of coordinates only where the packed words ask for it is as good as keeping track everywhere: for every accepted state, all inputs and every stage, a stage that samples a texture does so at the coordinates that the state's wraps, offsets and additions of all stages before it give |
| CoordLaws.EagerIs | ps5/gpu/shaders/tev_direct_probe.c:105-139 | Which coordinates a stage starts from, as signed 24-bit numbers: those of its own generator, or of the first one when its number is out of range, and none without generators; and that it adds an indirect offset exactly with an active indirect stage and a matrix |
| CoordLaws.OperatedIs | ps5/gpu/shaders/tev_direct_probe.c:37-43 | What the stage makes of them: each coordinate repeats after 256, 128, 64, 32 or 16 texels, or is left alone, or is dropped; offset and the previous stage's coordinates are added, in signed 24 bits |
| CoordLaws.OffsetsAre | ps5/gpu/shaders/tev_direct_probe.c:120-138 | The offset in plain arithmetic: the upper 8, 5, 4 or 3 bits of each sample byte, biased by -128 or 1 where selected; a matrix row times them over eight, or the coordinate times the first or the second byte over 256, rounded down; then shifted by the matrix's exponent in either direction |
| CoordLaws.PowerIs | ps5/gpu/shaders/tev_direct_probe.c:43 | What shifts multiply or divide by are the powers of two: one, two, and the product for the sum of two shifts |
| TevCoords.WordsDecode | ps5/gpu/gx_tev_program.cpp:82-87 | The packing of the coordinate words checks nothing; the fields come back, next to the flags, if and only if wraps and bias fit their bytes |
| TevCoords.StageCoords | ps5/gpu/shaders/tev_direct_probe.c:110-145 | One stage: where it samples or is needed by the next, the coordinates from its words are those of its registers |
| TevCoords.Coordinates | ps5/gpu/shaders/tev_direct_probe.c:80-145 | The coordinate part of the stage loop |
| TevCoords.NothingToDo | ps5/gpu/shaders/tev_direct_probe.c:112-145 | Wrapped coordinates without an operation stay as they are, so untracked stages lose nothing |
| TevProgram.Run | ps5/gpu/shaders/tev_program_probe.c:33-41 | The stage loop of the packed program; what a stage of it computes is stated in plain arithmetic in `TevLaws` |
| TevLaws.RunStage | ps5/gpu/shaders/tev_program_probe.c:33-41 | Every stage of every run, from arguments that are whole: the result is, lane by lane, the component of the four arguments that the state's selectors name by number (the four registers, texture, raster, one, a half, constant, zero, swizzled by the state's tables), it goes to the state's destinations, and nothing else changes |
| TevLaws.RunStarts | ps5/gpu/gx_tev_program.cpp:58-59 | A run starts with the four colour registers, recovered, in their order |
| TevLaws.StageTaken | ps5/gpu/gx_tev_program.cpp:66-92 | What the packer accepts of a stage, in numbers: selectors of arguments, operations, biases, tables, lanes, channels and bump fields in their ranges, and a constant's selector where a constant is read, single lanes only for the alpha |
| TevLaws.LaneTaken | ps5/gpu/gx_tev_program.cpp:34-42 | A normalized lane that stands for a whole number is accepted if and only if the number is in the register's range |
| TevLaws.StageIsComponent | ps5/gpu/tev_stage.h:128-150 | One stage on whole inputs is the component of the arguments its selectors name, for colour and alpha, and writes where it is told |
| TevLaws.AddsOrSubtracts | ps5/gpu/tev_integer.h:16-24 | Where the third argument is 0 or 255: the result is d plus bias plus a, or plus b, for an addition, and d plus bias minus it for a subtraction, times one, two, four or halved rounding down, limited to a byte or to a register |
| TevLaws.MixesNearest | ps5/gpu/tev_integer.h:16-24 | In between: the mixture is that of a and b in c's weight out of 256, to the nearest, of two the larger when it is added and the smaller when it is subtracted; halving rounds down instead |
| TevLaws.Monotone | ps5/gpu/tev_integer.h:16-24 | More of a, b or d, or more of c while b is at least a, never makes a sum smaller, nor a difference larger, limits included |
| TevLaws.Compares | ps5/gpu/tev_integer.h:26-50 | The eight comparisons add c or nothing to d: first bytes, first two, all three with the last counting most, or the component itself, for greater and for equal |
| TevLaws.KonstChosen | ps5/gpu/gx_tev_program.cpp:43-48 | Which constant each selector names: eighths of one, a constant colour, or one of its lanes in all three |
| TevLaws.RasterChosen | ps5/gpu/tev_stage.h:47-58 | Which raster value a channel number names: the first colour for 0, 2 and 4, the second for 1, 3 and 5, for 7 the high three to five bits of a byte of the active indirect sample, for 8 the same stretched by 255/248, and black otherwise |
| TevLaws.SampledIs | ps5/gpu/gx_tev_program.cpp:73-75 | A stage samples a texture if and only if there are coordinates, its map is below eight, and one of its selectors names the texture |
| TevLaws.TextureUnread | ps5/gpu/tev_stage.h:62-79 | A stage whose arguments name no texture does not depend on it, so not sampling it changes nothing |
| TevLaws.AlphaKeeps | ps5/gpu/gx_tev_program.cpp:55-57 | The packed alpha test keeps a pixel as its two comparisons of the low byte, joined by and, or, either-or, or equality, say |
| TevLaws.RegisterBytes | ps5/gpu/gx_tev_program.cpp:34-42 | A colour register recovered from its normalized value is the whole number nearest to 255 times it |
| TevLaws.EvalRounds | ps5/gpu/tev_stage.h:98-113 | Sampled colours and constants with fractions: additions and subtractions round all four arguments first, to the even one of two, comparisons none of what they add |
| TevLaws.ComparesColors | ps5/gpu/tev_stage.h:91-97 | The packed comparisons round the number that one, two or three lanes make |
| TevProgram.OpDecodes | ps5/gpu/gx_tev_program.cpp:20-29 | Operation, scale, clamp, destination and bias decode to what was packed; comparisons lose their bias |
| TevProgram.Pack4Decodes | ps5/gpu/gx_tev_program.cpp:70 | The four colour selectors decode to what was packed |
| TevProgram.Pack3Decodes | ps5/gpu/gx_tev_program.cpp:70 | The four alpha selectors decode to what was packed |
| TevProgram.SwapDecodes | ps5/gpu/gx_tev_program.cpp:30-33 | The four swizzle indices decode to what was packed |
| TevProgram.StageDecodes | ps5/gpu/gx_tev_program.cpp:66-74 | A packed stage selects what the state selects |
| TevProgram.StepAgrees | ps5/gpu/gx_tev_program.cpp:66-93 | One packed stage does what the state's stage does from any registers |
| TevProgram.AlphaAgrees | ps5/gpu/gx_tev_program.cpp:55-57 | The packed alpha test passes exactly the alphas the state's test passes |
| TevProgram.HeaderRange | ps5/gpu/gx_tev_program.cpp:34-42 | Recovered register and constant colours lie in their ranges |
| TevProgram.CoreIsSafe | ps5/gpu/tev_stage.h:128-147 | One stage with registers and inputs in range stays within the integer core's domain |
| TevStage.EvalIsComponent | ps5/gpu/tev_integer.h:25-50 | On whole inputs the stage path equals the integer component for every operation, negative registers and one-, two- and three-byte comparisons included |
| TevStage.PackedIsMasked | ps5/gpu/tev_stage.h:91-97 | Adding up a wrapped colour's bytes and rounding is masking the packed colour |
| TevStage.KonstUnread | ps5/gpu/tev_stage.h:128-147 | A stage that reads no constant does not depend on it, and no stage reads the alpha of the colour's constant |
| TevStage.WriteSelects | ps5/gpu/tev_stage.h:118-127 | The unconditional writes change exactly the lanes of the two destinations |
| TevInteger.RegularFits | ps5/gpu/tev_integer.h:15-23 | With inputs that rounding may have taken to 256, every intermediate is a 32-bit integer |
| TevInteger.LerpEnds | ps5/gpu/tev_integer.h:15-23 | Weight 0 gives exactly the first input and weight 255 exactly the second, for either rounding and every scale |
| TevInteger.LerpBetween | ps5/gpu/tev_integer.h:15-23 | In between, the result stays between the scaled inputs |
| PadAutopilot.Autopilot.Replay | ps5/input/pad_autopilot.cpp:137-153 | Over every run of samples at times that do not decrease, the cursor gives exactly the buttons of the full scan, overlapping presses included |
| PadAutopilot.Autopilot.Apply | ps5/input/pad_autopilot.cpp:137-153 | The sample gains exactly the buttons of all presses that are on, unless time ran backwards |
| PadAutopilot.Autopilot.ButtonsAt | ps5/input/pad_autopilot.cpp:127-135 | Stopping at the first press in the future misses none that is on |
| PadAutopilot.Autopilot.Skip | ps5/input/pad_autopilot.cpp:143 | The cursor passes only presses that are over |
| PadAutopilot.Autopilot.Scan | ps5/input/pad_autopilot.cpp:144-146 | The scan from the cursor finds what is on behind it |
| PadAutopilot.OrderIsIrrelevant | ps5/input/pad_autopilot.cpp:115-116 | The buttons held depend on the presses only, not on their order, so the order an unstable sort leaves equal starts in does not matter |
| PadAutopilot.HeldButtons | ps5/input/pad_autopilot.cpp:127-135 | Any button is held at a moment if and only if a press that holds it has begun and not ended |
| PadAutopilot.LaterIsOff | ps5/input/pad_autopilot.cpp:130-131 | In a sorted script nothing from the first future press on is held |
| PadAutopilot.CursorIsEnough | ps5/input/pad_autopilot.cpp:141-143 | Presses in front of the cursor add nothing |

## Left out

- GxTextureCache.TextureCache.Resolve: generation counters are exact, and each hashing and each conversion reads its bytes
  at one moment; writes race before, between and after those moments. Soundness of keys is stated for a digest that tells
  contents apart. Which formats exist is a parameter, missing data counts as no bytes, and converting checked bytes does
  not throw. Entries are kept in order of insertion, where the source has an unordered container.
- GxCopyStore.CheckedRam: `CanonicalizeGxMainRamAddress` is not part of this model; an address stands for itself modulo
  0x4000_0000, and the check that all windows reach the same host memory always passes.
- AgcGxDraw.DrawQueue.Draw: an exception after part of a draw was recorded does not occur, because the same bounds are
  checked before recording; one owner stands for all owners of a draw. The words of its packets come with the draw; that
  they point to where its parts were placed is recorded beside them, not decoded from them.
- AgcBlit.Blitter.Execute: the commands and registers of a blit are one value, its memory.
- VideoPresenter.Presenter.Submit: the deadline, the `graphics` field of the flip status and other users of the display are
  not modelled; the fitted rectangle is a parameter.
- GuestFlatState.State.Build: kernel calls that undo a step succeed (otherwise the source ends the process); the mutex and
  a second initialization, which clears the sections of an unchanged layout, are not modelled.
- TevProgram.Build: the null channel is taken as 255 and the limits of texture maps and coordinates as eight, as in the
  graphics library, whose header is not part of this model.
- TevCoords.CoordsAgree: for states whose wraps and bias fit a byte each, as their registers do; coordinates are unbounded
  integers before they are wrapped to 24 bits, and what a generator or an indirect texture gives is an input.
- TevStage.Eval: values are real numbers without float rounding.
- PadAutopilot.Autopilot.Apply: says nothing of times that run backwards, which the source excludes; parsing of scripts is
  not modelled, a sorted list of presses is given.
- FastClock.NeverBackwards: 64-bit overflow and memory orders weaker than sequential consistency are not modelled.
- ClockError.ErrorBound: the counter runs at exactly its frequency; the drift that a resync corrects is not modelled.
- GxCopyStore.CopyStore.Execute: when a copy cannot be encoded is given with each operation.
- FunctionProfiler.EveryTickOnce: 64-bit overflow is not modelled.
- The results of floating-point arithmetic on vertex attributes, lighting, fog and viewports: only raw numbers and
  selectors are compared.
- The register commands of a stream (BP, CP, XF and the rest of the dispatcher): a parameter says what each does to the
  registers and how many bytes it takes.
- The resolver of vertex arrays: one block of live memory stands behind each array register.
- Taking over a submitted packet (`submit_gx_geometry`), and `submit_raw_draw`, which does not group draws.
- The guard against recursive or concurrent materialization of deferred reads, page protection, and the copy encoder: a
  copy is the bytes it encodes to, or a fault.
- Texture descriptors, and texture decoding, which is a function parameter.
- GPU packet contents, register encodings, shader linkage and cache flushes: an opaque driver interface.
- The profiler's names, calibration, sorting and output.
- Pool sizes of copy targets, diagnostics, tools, audio, network, file system and other adapters: device plumbing.
