/** The texture coordinates of the combiner's stages (ps5/gpu/gx_tev_program.cpp and
    ps5/gpu/shaders/tev_direct_probe.c). A stage can offset and wrap its coordinates and add those of the stage before
    it. The pixel shader keeps track of coordinates only at stages whose packed words ask for it; that must be as good
    as keeping track everywhere. */
module TevCoords {
  import opened TevProgram

  // ----- integer coordinates -----

  datatype Pair = Pair(s: int, t: int)

  function Power2(n: nat): (p: nat)
    ensures p > 0
  {
    if n == 0 then 1 else 2 * Power2(n - 1)
  }

  /** `s24_wrap`. */
  function Wrap24(v: int): int {
    var low := v % 0x100_0000;
    if low >= 0x80_0000 then low - 0x100_0000 else low
  }

  function WrapPair(p: Pair): Pair {
    Pair(Wrap24(p.s), Wrap24(p.t))
  }

  /** `indirect_wrap`: no wrapping, wrapping at 256 down to 16 texels, or nothing left. */
  function Wrapped(v: int, wrap: u32): int {
    if wrap == 0 then v
    else if wrap == 1 then v % 0x8000
    else if wrap == 2 then v % 0x4000
    else if wrap == 3 then v % 0x2000
    else if wrap == 4 then v % 0x1000
    else if wrap == 5 then v % 0x800
    else 0
  }

  /** `indirect_shift`. */
  function Shifted(v: int, shift: int): int {
    if shift >= 0 then v / Power2(shift) else v * Power2(-shift)
  }

  /** A row of an indirect matrix. */
  datatype Row = Row(s: int, t: int, u: int)

  datatype Matrix = Matrix(first: Row, second: Row, shift: int)

  function Times(r: Row, s: int, t: int, u: int): int {
    r.s * s + r.t * t + r.u * u
  }

  /** What a pixel brings to a stage: the coordinates of the texture generators before wrapping, and the bytes of the
      indirect sample. */
  datatype Inputs = Inputs(generated: u32 -> Pair, s: int, t: int, u: int)

  function FormatShift(format: u32): nat {
    if format == 1 then 8 else if format == 2 then 16 else if format == 3 then 32 else 1
  }

  function Biased(v: int, format: u32, on: bool): int {
    v / FormatShift(format) + if on then (if format == 0 then -128 else 1) else 0
  }

  /** What an indirect stage adds to the coordinates: a matrix times the biased sample, or the coordinates times one
      lane of it. */
  function Offsets(matrices: u32 -> Matrix, matrix: u32, format: u32, bias: u32, at: Pair, x: Inputs): Pair {
    var s, t, u := Biased(x.s, format, bias & 1 != 0), Biased(x.t, format, bias & 2 != 0),
        Biased(x.u, format, bias & 4 != 0);
    if matrix <= 3 then
      var m := matrices(matrix - 1);
      Pair(Shifted(Times(m.first, s, t, u) / 8, m.shift), Shifted(Times(m.second, s, t, u) / 8, m.shift))
    else
      var m := matrices(if matrix <= 7 then matrix - 5 else matrix - 9);
      var factor := if matrix <= 7 then s else t;
      Pair(Shifted(at.s * factor / 256, m.shift), Shifted(at.t * factor / 256, m.shift))
  }

  /** A coordinate operation: wrap, offset, add what came before, wrap to 24 bits. */
  function Operated(at: Pair, wrapS: u32, wrapT: u32, offset: Pair, added: Pair): Pair {
    WrapPair(Pair(Wrapped(at.s, wrapS) + offset.s + added.s, Wrapped(at.t, wrapT) + offset.t + added.t))
  }

  // ----- the packed words -----

  function WrapS(w: CoordWords): u32 {
    w.wrap & 255
  }

  function WrapT(w: CoordWords): u32 {
    (w.wrap >> 8) & 255
  }

  function BiasOf(w: CoordWords): u32 {
    w.flags & 255
  }

  predicate Adds(w: CoordWords) {
    w.flags & 512 != 0
  }

  predicate FeedsNext(w: CoordWords) {
    w.flags & 1024 != 0
  }

  /** The shader's test for stages that keep track. */
  predicate Tracks(w: CoordWords) {
    w.matrix != 0 || WrapS(w) != 0 || WrapT(w) != 0 || Adds(w) || FeedsNext(w)
  }

  /** The fields come back out of the words. */
  predicate Decodes(w: CoordWords, c: CoordState, feeds: bool) {
    && WrapS(w) == c.wrapS && WrapT(w) == c.wrapT && BiasOf(w) == c.bias
    && Adds(w) == c.addPrev && FeedsNext(w) == feeds
  }

  predicate Fits(field: u32) {
    field <= 255
  }

  predicate FieldsFit(s: TevState) {
    Fits(s.coords.wrapS) && Fits(s.coords.wrapT) && Fits(s.coords.bias)
  }

  /** The packing has no checks of its own; its fields come back exactly when each fits its byte. */
  lemma WordsDecode(g: GxState, s: TevState, feeds: bool)
    ensures Decodes(PackCoords(g, s, feeds), s.coords, feeds)
            <==> FieldsFit(s)
  {
    hide EffectiveMap, EffectiveCoord, WrapS, WrapT, BiasOf, Adds, FeedsNext, Fits, PackWraps, PackFlags;
    var w := PackCoords(g, s, feeds);
    WrapWord(w, s.coords.wrapS, s.coords.wrapT);
    FlagsWord(w, s.coords.bias, s.coords.useLod, s.coords.addPrev, feeds);
  }

  lemma WrapWord(w: CoordWords, s: u32, t: u32)
    requires w.wrap == PackWraps(s, t)
    ensures WrapS(w) == s && WrapT(w) == t <==> Fits(s) && Fits(t)
  {
  }

  lemma FlagsWord(w: CoordWords, bias: u32, lod: bool, add: bool, feed: bool)
    requires w.flags == PackFlags(bias, lod, add, feed)
    ensures BiasOf(w) == bias <==> Fits(bias)
    ensures Fits(bias) ==> Adds(w) == add && FeedsNext(w) == feed
  {
  }

  // ----- the shader -----

  predicate Below(k: u32, count: u32) {
    k < count
  }

  /** Where a stage's coordinates end up, and what is tracked after it. */
  datatype Tracked = Tracked(at: Pair, previous: Pair)

  /** The coordinate part of a stage in the pixel shader. */
  function LazyStep(matrices: u32 -> Matrix, s: Stage, previous: Pair, x: Inputs): Tracked {
    var w := s.coords;
    var at := if (s.sampled || Tracks(w)) && Below(w.texCoord, 8) then WrapPair(x.generated(w.texCoord))
        else Pair(0, 0);
    if Tracks(w) then
      var offset := if Below(s.raster.stage, 4) && w.matrix != 0
          then Offsets(matrices, w.matrix, s.raster.format, BiasOf(w), at, x) else Pair(0, 0);
      var now := Operated(at, WrapS(w), WrapT(w), offset, if Adds(w) then previous else Pair(0, 0));
      Tracked(now, now)
    else Tracked(at, previous)
  }

  function LazyRun(matrices: u32 -> Matrix, p: Program, inputs: seq<Inputs>, n: nat): Tracked
    requires n <= |p.stages| && n <= |inputs|
  {
    if n == 0 then Tracked(Pair(0, 0), Pair(0, 0))
    else LazyStep(matrices, p.stages[n - 1], LazyRun(matrices, p, inputs, n - 1).previous, inputs[n - 1])
  }

  /** The stage loop, recording the coordinates of every stage. */
  method Coordinates(matrices: u32 -> Matrix, p: Program, inputs: seq<Inputs>) returns (at: seq<Pair>)
    requires |p.stages| <= |inputs|
    ensures |at| == |p.stages| && forall n :: 0 <= n < |at| ==> at[n] == LazyRun(matrices, p, inputs, n + 1).at
  {
    hide LazyStep;
    at := [];
    var previous := Pair(0, 0);
    for n := 0 to |p.stages|
      invariant |at| == n && previous == LazyRun(matrices, p, inputs, n).previous
      invariant forall k :: 0 <= k < n ==> at[k] == LazyRun(matrices, p, inputs, k + 1).at
    {
      var tracked := LazyStep(matrices, p.stages[n], previous, inputs[n]);
      at, previous := at + [tracked.at], tracked.previous;
    }
  }

  // ----- the state's own meaning -----

  /** Every stage operates on its coordinates as its registers say, whether anything uses them or not. */
  function EagerStep(g: GxState, matrices: u32 -> Matrix, s: TevState, previous: Pair, x: Inputs): Pair {
    var at := if g.texGens > 0 then WrapPair(x.generated(EffectiveCoord(g, s.texCoord))) else Pair(0, 0);
    var offset := if Below(s.raster.stage, g.indirects) && s.coords.matrix != 0
                  then Offsets(matrices, s.coords.matrix, s.raster.format, s.coords.bias, at, x) else Pair(0, 0);
    Operated(at, s.coords.wrapS, s.coords.wrapT, offset, if s.coords.addPrev then previous else Pair(0, 0))
  }

  function EagerRun(g: GxState, matrices: u32 -> Matrix, inputs: seq<Inputs>, n: nat): Pair
    requires n <= |g.stages| && n <= |inputs|
  {
    if n == 0 then Pair(0, 0) else EagerStep(g, matrices, g.stages[n - 1], EagerRun(g, matrices, inputs, n - 1),
                                             inputs[n - 1])
  }

  lemma WrapTwice(v: int)
    ensures Wrap24(Wrap24(v)) == Wrap24(v) && -0x80_0000 <= Wrap24(v) < 0x80_0000
  {
  }

  /** An operation that does nothing. */
  lemma NothingToDo(p: Pair)
    ensures Operated(WrapPair(p), 0, 0, Pair(0, 0), Pair(0, 0)) == WrapPair(p)
  {
    WrapTwice(p.s);
    WrapTwice(p.t);
    hide Wrap24;
  }

  lemma HasCoord(g: GxState, coord: u32)
    requires g.texGens <= 8 && g.indirects <= 4
    ensures Below(EffectiveCoord(g, coord), 8) <==> g.texGens > 0
    ensures EffectiveCoord(g, coord) != NONE <==> g.texGens > 0
  {
  }

  lemma HasStage(g: GxState, s: TevState)
    requires g.indirects <= 4
    ensures Below(RasterOf(g, s).stage, 4) <==> Below(s.raster.stage, g.indirects)
    ensures RasterOf(g, s).format == s.raster.format
  {
  }

  /** One stage: where it keeps track or samples, the shader's coordinates are the state's. */
  lemma StageCoords(g: GxState, matrices: u32 -> Matrix, s: TevState, feeds: bool, tracked: Pair, previous: Pair,
                    x: Inputs)
    requires g.texGens <= 8 && g.indirects <= 4 && FieldsFit(s)
    requires s.coords.addPrev ==> tracked == previous
    ensures var lazy, eager := LazyStep(matrices, PackStage(g, s, feeds), tracked, x),
        EagerStep(g, matrices, s, previous, x);
            && (Sampled(g, s) || feeds ==> lazy.at == eager)
            && (feeds ==> lazy.previous == eager)
  {
    hide Pack4, Pack3, PackOp, PackSwap, PackedKonst, RasterOf, UsesTexture, EagerStep, LazyStep, PackCoords,
        EffectiveCoord, EffectiveMap, Below;
    FieldsOf(g, s, feeds);
    HasCoord(g, s.texCoord);
    HasStage(g, s);
    SameStep(g, matrices, s, PackStage(g, s, feeds), tracked, previous, x);
  }

  /** The same for any words that hold the fields. */
  lemma SameStep(g: GxState, matrices: u32 -> Matrix, s: TevState, p: Stage, tracked: Pair, previous: Pair, x: Inputs)
    requires (s.coords.addPrev ==> tracked == previous) && (p.sampled ==> g.texGens > 0)
    requires p.coords.texCoord == EffectiveCoord(g, s.texCoord) && (Below(p.coords.texCoord, 8) <==> g.texGens > 0)
    requires WrapS(p.coords) == s.coords.wrapS && WrapT(p.coords) == s.coords.wrapT && BiasOf(p.coords) == s.coords.bias
    requires p.coords.matrix == s.coords.matrix && Adds(p.coords) == s.coords.addPrev
    requires (Below(p.raster.stage, 4) <==> Below(s.raster.stage, g.indirects)) && p.raster.format == s.raster.format
    ensures var lazy, eager := LazyStep(matrices, p, tracked, x), EagerStep(g, matrices, s, previous, x);
            && (p.sampled || FeedsNext(p.coords) ==> lazy.at == eager)
            && (FeedsNext(p.coords) ==> lazy.previous == eager)
  {
    hide Below, EffectiveCoord, Operated, Offsets, WrapPair, WrapS, WrapT, BiasOf, Adds, FeedsNext;
    if g.texGens > 0 {
      NothingToDo(x.generated(p.coords.texCoord));
    }
  }

  lemma FieldsOf(g: GxState, s: TevState, feeds: bool)
    requires FieldsFit(s)
    ensures var w := PackCoords(g, s, feeds);
            && w.texCoord == EffectiveCoord(g, s.texCoord) && w.matrix == s.coords.matrix
            && WrapS(w) == s.coords.wrapS && WrapT(w) == s.coords.wrapT && BiasOf(w) == s.coords.bias
            && Adds(w) == s.coords.addPrev && FeedsNext(w) == feeds
  {
    hide WrapS, WrapT, BiasOf, Adds, FeedsNext, EffectiveCoord, Fits, PackWraps, PackFlags;
    WordsDecode(g, s, feeds);
  }

  /** Keeping track only where the words ask for it is as good as keeping track everywhere: for every accepted state
      whose fields fit, every pixel and every stage, a stage that samples a texture does so where the state says. */
  lemma {:induction false} CoordsAgree(g: GxState, p: Program, matrices: u32 -> Matrix, inputs: seq<Inputs>, n: nat)
    requires |g.stages| == 16 && Accepted(g) && Packs(g, p) && n < g.count <= |inputs|
    requires forall i :: 0 <= i < g.count ==> FieldsFit(g.stages[i])
    ensures (Sampled(g, g.stages[n]) || Feeds(g, n)) ==>
              LazyRun(matrices, p, inputs, n + 1).at == EagerRun(g, matrices, inputs, n + 1)
    ensures Feeds(g, n) ==> LazyRun(matrices, p, inputs, n + 1).previous == EagerRun(g, matrices, inputs, n + 1)
  {
    hide PackStage, LazyStep, EagerStep, StageAccepted, ByteColors, PackAlpha, ColorAccepted, Sampled;
    if n > 0 {
      CoordsAgree(g, p, matrices, inputs, n - 1);
    }
    StageCoords(g, matrices, g.stages[n], Feeds(g, n), LazyRun(matrices, p, inputs, n).previous,
                EagerRun(g, matrices, inputs, n), inputs[n]);
  }
}
