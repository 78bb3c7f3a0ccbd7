/** The draw-time snapshot of the combiner (ps5/gpu/gx_tev_program.cpp) and its interpreter: packing the state into
    words and running the words is running the state. */
module TevProgram {
  import Bytes
  import opened TevStage

  type u32 = bv32

  function Number(w: u32): nat {
    w as nat
  }

  function Numbers(f: Four<u32>): Four<nat> {
    Four(Number(f.v0), Number(f.v1), Number(f.v2), Number(f.v3))
  }

  /** A swap table entry as the registers hold it. */
  datatype TevSwap = TevSwap(red: u32, green: u32, blue: u32, alpha: u32)

  function SwapMeaning(s: TevSwap): Swap {
    Swap(Number(s.red), Number(s.green), Number(s.blue), Number(s.alpha))
  }

  /** One of four by a two-bit index. */
  function Nth<T>(f: Four<T>, k: u32): T {
    if k == 0 then f.v0 else if k == 1 then f.v1 else if k == 2 then f.v2 else f.v3
  }

  // ----- the packed form -----

  datatype Stage = Stage(colorArgs: u32, alphaArgs: u32, colorOp: u32, alphaOp: u32, textureSwap: u32, rasterSwap: u32,
                         raster: RasterSource, sampled: bool, coords: CoordWords, konst: Value)

  /** The texture map and coordinate of a stage, and the words of its coordinate operations. */
  datatype CoordWords = CoordWords(texMap: u32, texCoord: u32, matrix: u32, wrap: u32, flags: u32)

  datatype Program = Program(stages: seq<Stage>, alphaFlags: u32, unsampled: real, initial: Four<Value>)

  /** Where a stage's raster colour comes from. */
  datatype RasterSource = RasterSource(channel: u32, stage: u32, format: u32, alpha: u32)

  function Pack4(f: Four<u32>): u32 {
    f.v0 | (f.v1 << 4) | (f.v2 << 8) | (f.v3 << 12)
  }

  function Unpack4(w: u32): Four<u32> {
    Four(w & 15, (w >> 4) & 15, (w >> 8) & 15, (w >> 12) & 15)
  }

  function Pack3(f: Four<u32>): u32 {
    f.v0 | (f.v1 << 3) | (f.v2 << 6) | (f.v3 << 9)
  }

  function Unpack3(w: u32): Four<u32> {
    Four(w & 7, (w >> 3) & 7, (w >> 6) & 7, (w >> 9) & 7)
  }

  function PackSwap(s: TevSwap): u32 {
    s.red | (s.green << 2) | (s.blue << 4) | (s.alpha << 6)
  }

  function UnpackSwap(w: u32): TevSwap {
    TevSwap(w & 3, (w >> 2) & 3, (w >> 4) & 3, (w >> 6) & 3)
  }

  /** An operation as the registers hold it. */
  datatype TevOp = TevOp(op: u32, bias: u32, scale: u32, out: u32, clamp: bool)

  /** Comparisons ignore the bias. */
  function BiasCode(o: TevOp): u32 {
    if o.op >= 8 then 0 else o.bias
  }

  predicate OpAccepted(o: TevOp) {
    (o.op <= 1 || 8 <= o.op <= 15) && o.scale <= 3 && o.out <= 3 && BiasCode(o) <= 2
  }

  function PackOp(o: TevOp): u32 {
    var shifted: u32 := if BiasCode(o) == 1 then 2 else if BiasCode(o) == 2 then 0 else 1;
    o.op | (o.scale << 4) | ((if o.clamp then 1 else 0) << 6) | (shifted << 8) | (o.out << 10)
  }

  function Bias(code: u32): int {
    if code == 0 then -128 else if code == 1 then 0 else if code == 2 then 128 else 256
  }

  /** The fields of an operation word; the bias field is shifted up by one. */
  function UnpackOp(w: u32): TevOp {
    TevOp(w & 15, (w >> 8) & 3, (w >> 4) & 3, (w >> 10) & 3, w & 64 != 0)
  }

  function OpOf(w: u32): Op {
    var o := UnpackOp(w);
    Op(Number(o.op), Bias(o.bias), Number(o.scale), o.clamp, Number(o.out))
  }

  function Decode(s: Stage): Selected {
    Selected(Numbers(Unpack4(s.colorArgs)), Numbers(Unpack3(s.alphaArgs)), OpOf(s.colorOp), OpOf(s.alphaOp),
             SwapMeaning(UnpackSwap(s.textureSwap)), SwapMeaning(UnpackSwap(s.rasterSwap)))
  }

  // ----- the state it is made from -----

  datatype TevState = TevState(color: Four<u32>, alpha: Four<u32>, colorOp: TevOp, alphaOp: TevOp, swapTexture: u32,
                               swapRaster: u32,
                               kcSel: u32, kaSel: u32, raster: RasterSource, texCoord: u32, texMap: u32,
                                   coords: CoordState)

  /** Coordinate operations as the registers hold them. */
  datatype CoordState = CoordState(matrix: u32, wrapS: u32, wrapT: u32, bias: u32, useLod: bool, addPrev: bool)

  datatype AlphaCompare = AlphaCompare(comp0: u32, comp1: u32, op: u32, ref0: u32, ref1: u32)

  /** `count` of the sixteen stages are in use. Colours are normalized: a register byte is 255 times the value here. */
  datatype GxState = GxState(count: nat, texGens: nat, indirects: u32, stages: seq<TevState>, colorRegs: Four<Value>,
                             kcolors: Four<Value>, swaps: Four<TevSwap>, alpha: AlphaCompare)

  /** What an operation means: the bias is none, a half up or a half down, and none for comparisons. */
  function OpMeaning(o: TevOp): Op {
    Op(Number(o.op), if o.op >= 8 || o.bias == 0 then 0 else if o.bias == 1 then 128
       else -128, Number(o.scale), o.clamp, Number(o.out))
  }

  function Meaning(g: GxState, s: TevState): Selected {
    Selected(Numbers(s.color), Numbers(s.alpha), OpMeaning(s.colorOp), OpMeaning(s.alphaOp),
             SwapMeaning(Nth(g.swaps, s.swapTexture)),
             SwapMeaning(Nth(g.swaps, s.swapRaster)))
  }

  lemma Pack4Decodes(f: Four<u32>)
    requires f.v0 <= 15 && f.v1 <= 15 && f.v2 <= 15 && f.v3 <= 15
    ensures Unpack4(Pack4(f)) == f
  {
  }

  lemma Pack3Decodes(f: Four<u32>)
    requires f.v0 <= 7 && f.v1 <= 7 && f.v2 <= 7 && f.v3 <= 7
    ensures Unpack3(Pack3(f)) == f
  {
  }

  predicate SwapAccepted(s: TevSwap) {
    s.red <= 3 && s.green <= 3 && s.blue <= 3 && s.alpha <= 3
  }

  lemma SwapDecodes(s: TevSwap)
    requires SwapAccepted(s)
    ensures UnpackSwap(PackSwap(s)) == s
  {
  }

  lemma OpDecodes(o: TevOp)
    requires OpAccepted(o)
    ensures OpOf(PackOp(o)) == OpMeaning(o)
  {
    OpFields(o);
    hide PackOp, UnpackOp, Number;
  }

  lemma OpFields(o: TevOp)
    requires OpAccepted(o)
    ensures UnpackOp(PackOp(o)).(bias := 0) == o.(bias := 0)
    ensures UnpackOp(PackOp(o)).bias == if BiasCode(o) == 1 then 2 else if BiasCode(o) == 2 then 0 else 1
  {
  }

  lemma AlphaDecodes(c: AlphaCompare)
    requires c.comp0 <= 7 && c.comp1 <= 7 && c.op <= 3 && c.ref0 <= 255 && c.ref1 <= 255
    ensures PackAlpha(c) & 7 == c.comp0 && (PackAlpha(c) >> 3) & 7 == c.comp1 && (PackAlpha(c) >> 6) & 3 == c.op
    ensures (PackAlpha(c) >> 8) & 255 == c.ref0 && (PackAlpha(c) >> 16) & 255 == c.ref1
  {
  }

  function PackAlpha(c: AlphaCompare): u32 {
    c.comp0 | (c.comp1 << 3) | (c.op << 6) | (c.ref0 << 8) | (c.ref1 << 16)
  }

  // ----- constants and registers -----

  const ZERO: Value := Value(0.0, 0.0, 0.0, 0.0)

  function Eighths(sel: u32): real {
    if sel == 0 then 255.0 else if sel == 1 then 223.125 else if sel == 2 then 191.25 else if sel == 3 then 159.375
    else if sel == 4 then 127.5 else if sel == 5 then 95.625 else if sel == 6 then 63.75 else 31.875
  }

  predicate KonstAccepted(sel: u32, alpha: bool) {
    sel < 8 || (12 <= sel <= 31 && (!alpha || sel >= 16))
  }

  function LaneOf(v: Value, lane: u32): real {
    if lane == 0 then v.r else if lane == 1 then v.g else if lane == 2 then v.b else v.a
  }

  /** `konst_color`; it throws for a selector that is not accepted. */
  function Konst(sel: u32, colors: Four<Value>): Value {
    if sel < 8 then Splat(Eighths(sel))
    else if sel < 16 then Nth(colors, sel - 12)
    else Splat(LaneOf(Nth(colors, (sel - 16) & 3), (sel - 16) >> 2))
  }

  predicate LaneAccepted(v: real, lo: real, hi: real) {
    lo - 0.001 <= v * 255.0 <= hi + 0.001
  }

  predicate ColorAccepted(v: Value, lo: real, hi: real) {
    LaneAccepted(v.r, lo, hi) && LaneAccepted(v.g, lo, hi) && LaneAccepted(v.b, lo, hi) && LaneAccepted(v.a, lo, hi)
  }

  /** `byte_color`: the register byte the value was made from. */
  function ByteColor(v: Value): Value {
    Value(Round(v.r * 255.0) as real, Round(v.g * 255.0) as real, Round(v.b * 255.0) as real,
          Round(v.a * 255.0) as real)
  }

  function ByteColors(f: Four<Value>): Four<Value> {
    Four(ByteColor(f.v0), ByteColor(f.v1), ByteColor(f.v2), ByteColor(f.v3))
  }

  predicate UsesColor(s: TevState) {
    s.color.v0 == 14 || s.color.v1 == 14 || s.color.v2 == 14 || s.color.v3 == 14
  }

  predicate UsesAlpha(s: TevState) {
    s.alpha.v0 == 6 || s.alpha.v1 == 6 || s.alpha.v2 == 6 || s.alpha.v3 == 6
  }

  predicate ArgumentsAccepted(s: TevState) {
    && s.color.v0 <= 15 && s.color.v1 <= 15 && s.color.v2 <= 15 && s.color.v3 <= 15
    && s.alpha.v0 <= 7 && s.alpha.v1 <= 7 && s.alpha.v2 <= 7 && s.alpha.v3 <= 7
  }

  predicate RasterAccepted(r: RasterSource) {
    (r.channel <= 8 || r.channel == COLOR_NULL) && r.format <= 3 && r.alpha <= 3
  }

  predicate TableAccepted(g: GxState, k: u32) {
    k < 4 && SwapAccepted(Nth(g.swaps, k))
  }

  predicate StageAccepted(g: GxState, s: TevState) {
    && ArgumentsAccepted(s) && OpAccepted(s.colorOp) && OpAccepted(s.alphaOp)
    && TableAccepted(g, s.swapTexture) && TableAccepted(g, s.swapRaster)
    && RasterAccepted(s.raster)
    && (UsesColor(s) ==> KonstAccepted(s.kcSel, false)) && (UsesAlpha(s) ==> KonstAccepted(s.kaSel, true))
  }

  const COLOR_NULL: u32 := 0xff

  predicate HeaderAccepted(g: GxState) {
    && 1 <= g.count <= 16 && g.texGens <= 8 && g.indirects <= 4
    && g.alpha.comp0 <= 7 && g.alpha.comp1 <= 7 && g.alpha.op <= 3 && g.alpha.ref0 <= 255 && g.alpha.ref1 <= 255
    && ColorAccepted(g.colorRegs.v0, -1024.0, 1023.0) && ColorAccepted(g.colorRegs.v1, -1024.0, 1023.0)
    && ColorAccepted(g.colorRegs.v2, -1024.0, 1023.0) && ColorAccepted(g.colorRegs.v3, -1024.0, 1023.0)
    && ColorAccepted(g.kcolors.v0, 0.0, 255.0) && ColorAccepted(g.kcolors.v1, 0.0, 255.0)
    && ColorAccepted(g.kcolors.v2, 0.0, 255.0) && ColorAccepted(g.kcolors.v3, 0.0, 255.0)
  }

  /** The states the packer takes: everything a stage in use selects is in range, and nothing else matters. */
  predicate Accepted(g: GxState)
    requires |g.stages| == 16
  {
    HeaderAccepted(g) && forall i :: 0 <= i < g.count ==> StageAccepted(g, g.stages[i])
  }

  /** The one constant colour of a packed stage: left at zero where the stage does not read it. */
  function PackedKonst(g: GxState, s: TevState): Value {
    var color := if UsesColor(s) then Konst(s.kcSel, ByteColors(g.kcolors)) else ZERO;
    if UsesAlpha(s) then color.(a := Konst(s.kaSel, ByteColors(g.kcolors)).a) else color
  }

  function RasterOf(g: GxState, s: TevState): RasterSource {
    if s.raster.stage < g.indirects then s.raster else s.raster.(stage := 0xffff_ffff)
  }

  const NONE: u32 := 0xffff_ffff

  /** `tev_effective_texcoord`: coordinates out of range mean the first one; without any there is none. */
  function EffectiveCoord(g: GxState, coord: u32): u32 {
    if g.texGens == 0 then NONE else if Number(coord) < g.texGens && coord < 8 then coord else 0
  }

  function EffectiveMap(texMap: u32): u32 {
    if texMap < 8 then texMap else NONE
  }

  /** `tev_stage_combiner_uses_texture`. */
  predicate UsesTexture(s: TevState) {
    || s.color.v0 == 8 || s.color.v0 == 9 || s.color.v1 == 8 || s.color.v1 == 9
    || s.color.v2 == 8 || s.color.v2 == 9 || s.color.v3 == 8 || s.color.v3 == 9
    || s.alpha.v0 == 4 || s.alpha.v1 == 4 || s.alpha.v2 == 4 || s.alpha.v3 == 4
  }

  /** Whether a stage samples its texture. */
  predicate Sampled(g: GxState, s: TevState) {
    EffectiveCoord(g, s.texCoord) != NONE && EffectiveMap(s.texMap) != NONE && UsesTexture(s)
  }

  /** The next stage adds this one's coordinates to its own. */
  predicate Feeds(g: GxState, i: nat)
    requires |g.stages| == 16 && g.count <= 16
  {
    i + 1 < g.count && g.stages[i + 1].coords.addPrev
  }

  function Bit(b: bool, at: u32): u32 {
    if b then at else 0
  }

  function PackCoords(g: GxState, s: TevState, feeds: bool): CoordWords {
    var c := s.coords;
    CoordWords(EffectiveMap(s.texMap), EffectiveCoord(g, s.texCoord), c.matrix, PackWraps(c.wrapS, c.wrapT),
               PackFlags(c.bias, c.useLod, c.addPrev, feeds))
  }

  function PackWraps(s: u32, t: u32): u32 {
    s | (t << 8)
  }

  function PackFlags(bias: u32, useLod: bool, addPrev: bool, feeds: bool): u32 {
    bias | Bit(useLod, 256) | Bit(addPrev, 512) | Bit(feeds, 1024)
  }

  function PackStage(g: GxState, s: TevState, feeds: bool): Stage {
    Stage(Pack4(s.color), Pack3(s.alpha), PackOp(s.colorOp), PackOp(s.alphaOp), PackSwap(Nth(g.swaps, s.swapTexture)),
          PackSwap(Nth(g.swaps, s.swapRaster)), RasterOf(g, s), Sampled(g, s), PackCoords(g, s, feeds),
              PackedKonst(g, s))
  }

  /** What a stage without a texture reads for it. */
  function Unsampled(g: GxState): real {
    if g.texGens > 0 then 255.0 else 0.0
  }

  /** The program of a state. */
  ghost predicate Packs(g: GxState, p: Program)
    requires |g.stages| == 16 && g.count <= 16
  {
    && |p.stages| == g.count && (forall i :: 0 <= i < g.count ==> p.stages[i] == PackStage(g, g.stages[i], Feeds(g, i)))
    && p.alphaFlags == PackAlpha(g.alpha) && p.unsampled == Unsampled(g)
    && p.initial == ByteColors(g.colorRegs)
  }

  /** `build_tev_program`. */
  method Build(g: GxState) returns (program: Bytes.Result<Program>)
    requires |g.stages| == 16
    ensures program.Ok? <==> Accepted(g)
    ensures program.Ok? ==> Packs(g, program.value)
  {
    if !HeaderAccepted(g) {
      return Bytes.Err;
    }
    hide HeaderAccepted, StageAccepted, PackStage, PackAlpha;
    CountAccepted(g);
    var stages: seq<Stage> := [];
    for i := 0 to g.count
      invariant |stages| == i
      invariant forall j :: 0 <= j < i ==>
          StageAccepted(g, g.stages[j]) && stages[j] == PackStage(g, g.stages[j], Feeds(g, j))
    {
      if !StageAccepted(g, g.stages[i]) {
        return Bytes.Err;
      }
      stages := stages + [PackStage(g, g.stages[i], Feeds(g, i))];
    }
    return Bytes.Ok(Program(stages, PackAlpha(g.alpha), Unsampled(g), ByteColors(g.colorRegs)));
  }

  lemma CountAccepted(g: GxState)
    requires HeaderAccepted(g)
    ensures 1 <= g.count <= 16
  {
  }

  // ----- running it -----

  /** What the renderer supplies for a stage. */
  datatype Inputs = Inputs(sample: Value, raster0: Value, raster1: Value, indirect: Value)

  /** The sampled byte cut to the bits its format leaves. */
  function Bump(lane: real, format: u32): real {
    var n := lane.Floor % 256;
    var step := if format == 1 then 32 else if format == 2 then 16 else 8;
    (n / step * step) as real
  }

  /** `mkw_tev_raster`. */
  function Raster(s: RasterSource, x: Inputs): Value {
    if s.channel < 6 then (if s.channel & 1 == 1 then x.raster1 else x.raster0)
    else if (s.channel == 7 || s.channel == 8) && s.stage < 4 && s.alpha != 0 then
      var bump := Bump(LaneOf(x.indirect, s.alpha - 1), s.format);
      Splat(if s.channel == 8 then bump * (255.0 / 248.0) else bump)
    else Splat(0.0)
  }

  /** The registers, and the last stage's result. */
  datatype Machine = Machine(regs: Four<Value>, result: Value)

  function Step(m: Machine, s: Selected, colorKonst: Value, alphaKonst: real, texture: Value, raster: Value): Machine {
    var value := Combined(m.regs, s, colorKonst, alphaKonst, texture, raster);
    Machine(Stored(m.regs, s, value), value)
  }

  function Texture(sampled: bool, sample: Value, unsampled: real): Value {
    if sampled then sample else Splat(unsampled)
  }

  /** The interpreter's step over a packed stage. */
  function PackedStep(m: Machine, s: Stage, unsampled: real, x: Inputs): Machine {
    Step(m, Decode(s), s.konst, s.konst.a, Texture(s.sampled, x.sample, unsampled), Raster(s.raster, x))
  }

  function PackedRun(p: Program, inputs: seq<Inputs>, n: nat): Machine
    requires n <= |p.stages| && n <= |inputs|
  {
    if n == 0 then Machine(p.initial, p.initial.v0)
    else PackedStep(PackedRun(p, inputs, n - 1), p.stages[n - 1], p.unsampled, inputs[n - 1])
  }

  /** The stage loop of the pixel shader. */
  method Run(p: Program, inputs: seq<Inputs>) returns (m: Machine)
    requires |p.stages| <= |inputs|
    ensures m == PackedRun(p, inputs, |p.stages|)
  {
    hide PackedStep;
    m := Machine(p.initial, p.initial.v0);
    for n := 0 to |p.stages|
      invariant m == PackedRun(p, inputs, n)
    {
      m := PackedStep(m, p.stages[n], p.unsampled, inputs[n]);
    }
  }

  /** Without an active indirect stage the bump channels are black. */
  function DirectRaster(g: GxState, s: TevState, x: Inputs): Value {
    if s.raster.channel < 6 || s.raster.stage < g.indirects then Raster(s.raster, x) else Splat(0.0)
  }

  /** The state's own meaning: selectors as they are set, each constant from its own selector, and no word packed. */
  function DirectStep(g: GxState, m: Machine, s: TevState, x: Inputs): Machine {
    Step(m, Meaning(g, s), Konst(s.kcSel, ByteColors(g.kcolors)), Konst(s.kaSel, ByteColors(g.kcolors)).a,
         Texture(Sampled(g, s), x.sample, Unsampled(g)),
         DirectRaster(g, s, x))
  }

  function DirectRun(g: GxState, inputs: seq<Inputs>, n: nat): Machine
    requires n <= |g.stages| && n <= |inputs|
  {
    if n == 0 then Machine(ByteColors(g.colorRegs), ByteColors(g.colorRegs).v0)
    else DirectStep(g, DirectRun(g, inputs, n - 1), g.stages[n - 1], inputs[n - 1])
  }

  lemma StageDecodes(g: GxState, s: TevState, feeds: bool)
    requires StageAccepted(g, s)
    ensures Decode(PackStage(g, s, feeds)) == Meaning(g, s)
  {
    hide Pack4, Unpack4, Pack3, Unpack3, PackOp, UnpackOp, PackSwap, UnpackSwap, OpMeaning, PackedKonst, RasterOf,
        PackCoords, Sampled;
    Pack4Decodes(s.color);
    Pack3Decodes(s.alpha);
    OpDecodes(s.colorOp);
    OpDecodes(s.alphaOp);
    SwapDecodes(Nth(g.swaps, s.swapTexture));
    SwapDecodes(Nth(g.swaps, s.swapRaster));
  }

  lemma RasterAgrees(g: GxState, s: TevState, x: Inputs)
    requires StageAccepted(g, s)
    ensures Raster(RasterOf(g, s), x) == DirectRaster(g, s, x)
  {
    hide Bump, LaneOf;
  }

  lemma KonstAgrees(g: GxState, s: TevState)
    ensures UsesColor(s) ==> SameColor(PackedKonst(g, s), Konst(s.kcSel, ByteColors(g.kcolors)))
    ensures UsesAlpha(s) ==> PackedKonst(g, s).a == Konst(s.kaSel, ByteColors(g.kcolors)).a
  {
    hide Konst, ByteColors;
  }

  lemma StepAgrees(g: GxState, s: TevState, feeds: bool, m: Machine, x: Inputs)
    requires StageAccepted(g, s)
    ensures PackedStep(m, PackStage(g, s, feeds), Unsampled(g), x) == DirectStep(g, m, s, x)
  {
    hide Decode, PackStage, Raster, RasterOf, PackedKonst, Konst, ByteColors, Step, StageAccepted, Meaning, Texture,
        UsesColor, UsesAlpha, DirectRaster, Unsampled, Sampled;
    StageDecodes(g, s, feeds);
    RasterAgrees(g, s, x);
    PackedFields(g, s, feeds);
    StepKonst(g, s, m, Texture(Sampled(g, s), x.sample, Unsampled(g)), Raster(RasterOf(g, s), x));
  }

  lemma StepKonst(g: GxState, s: TevState, m: Machine, texture: Value, raster: Value)
    ensures Step(m, Meaning(g, s), PackedKonst(g, s), PackedKonst(g, s).a, texture, raster)
            == Step(m, Meaning(g, s), Konst(s.kcSel, ByteColors(g.kcolors)), Konst(s.kaSel, ByteColors(g.kcolors)).a,
                    texture, raster)
  {
    hide Meaning, PackedKonst, Konst, ByteColors, Combined, Stored, Number;
    KonstAgrees(g, s);
    PackedFields(g, s, false);
    ReadsKonst(s);
    KonstUnread(m.regs, Meaning(g, s), PackedKonst(g, s), Konst(s.kcSel, ByteColors(g.kcolors)), PackedKonst(g, s).a,
                Konst(s.kaSel, ByteColors(g.kcolors)).a, texture, raster);
  }

  lemma ReadsKonst(s: TevState)
    ensures Number(s.color.v0) == 14 || Number(s.color.v1) == 14 ==> UsesColor(s)
    ensures Number(s.color.v2) == 14 || Number(s.color.v3) == 14 ==> UsesColor(s)
    ensures Number(s.alpha.v0) == 6 || Number(s.alpha.v1) == 6 ==> UsesAlpha(s)
    ensures Number(s.alpha.v2) == 6 || Number(s.alpha.v3) == 6 ==> UsesAlpha(s)
  {
    forall w | w == s.color.v0 || w == s.color.v1 || w == s.color.v2 || w == s.color.v3 || w == s.alpha.v0
        || w == s.alpha.v1
              || w == s.alpha.v2 || w == s.alpha.v3
      ensures (Number(w) == 14 ==> w == 14) && (Number(w) == 6 ==> w == 6)
    {
      NumberIs(w);
    }
    hide Number;
  }

  lemma NumberIs(w: u32)
    ensures (Number(w) == 14 ==> w == 14) && (Number(w) == 6 ==> w == 6)
  {
    assert Number(w) as bv32 == w;
  }

  lemma PackedFields(g: GxState, s: TevState, feeds: bool)
    ensures var p := PackStage(g, s, feeds);
            p.konst == PackedKonst(g, s) && p.raster == RasterOf(g, s) && p.sampled == Sampled(g, s)
    ensures Meaning(g, s).color == Numbers(s.color) && Meaning(g, s).alpha == Numbers(s.alpha)
  {
    hide Pack4, Pack3, PackOp, PackSwap, PackedKonst, RasterOf, OpMeaning, PackCoords, Sampled;
  }

  /** Packing preserves meaning: for every accepted state and all inputs, the interpreter over the packed words leaves
      the same registers and result as the state itself. */
  lemma {:induction false} RunAgrees(g: GxState, p: Program, inputs: seq<Inputs>, n: nat)
    requires |g.stages| == 16 && Accepted(g) && Packs(g, p) && n <= g.count <= |inputs|
    ensures PackedRun(p, inputs, n) == DirectRun(g, inputs, n)
  {
    hide PackStage, PackedStep, DirectStep, StageAccepted, HeaderAccepted, ByteColors, PackAlpha;
    CountAccepted(g);
    if n > 0 {
      RunAgrees(g, p, inputs, n - 1);
      StepAgrees(g, g.stages[n - 1], Feeds(g, n - 1), PackedRun(p, inputs, n - 1), inputs[n - 1]);
    }
  }

  // ----- ranges -----

  predicate InputsInBytes(x: Inputs) {
    InBytes(x.sample) && InBytes(x.raster0) && InBytes(x.raster1) && InBytes(x.indirect)
  }

  lemma RoundNear(v: real, lo: int, hi: int)
    requires lo as real - 0.001 <= v <= hi as real + 0.001
    ensures lo <= Round(v) <= hi
  {
  }

  lemma ByteColorRange(v: Value, lo: int, hi: int)
    requires ColorAccepted(v, lo as real, hi as real)
    ensures lo as real <= ByteColor(v).r <= hi as real && lo as real <= ByteColor(v).g <= hi as real
    ensures lo as real <= ByteColor(v).b <= hi as real && lo as real <= ByteColor(v).a <= hi as real
  {
    hide Round;
    RoundNear(v.r * 255.0, lo, hi);
    RoundNear(v.g * 255.0, lo, hi);
    RoundNear(v.b * 255.0, lo, hi);
    RoundNear(v.a * 255.0, lo, hi);
  }

  predicate AllInBytes(f: Four<Value>) {
    InBytes(f.v0) && InBytes(f.v1) && InBytes(f.v2) && InBytes(f.v3)
  }

  lemma HeaderRange(g: GxState)
    requires HeaderAccepted(g)
    ensures AllInRegister(ByteColors(g.colorRegs)) && AllInBytes(ByteColors(g.kcolors))
  {
    hide ByteColor, ColorAccepted;
    ByteColorRange(g.colorRegs.v0, -1024, 1023);
    ByteColorRange(g.colorRegs.v1, -1024, 1023);
    ByteColorRange(g.colorRegs.v2, -1024, 1023);
    ByteColorRange(g.colorRegs.v3, -1024, 1023);
    ByteColorRange(g.kcolors.v0, 0, 255);
    ByteColorRange(g.kcolors.v1, 0, 255);
    ByteColorRange(g.kcolors.v2, 0, 255);
    ByteColorRange(g.kcolors.v3, 0, 255);
  }

  lemma KonstRange(sel: u32, colors: Four<Value>)
    requires AllInBytes(colors)
    ensures InBytes(Konst(sel, colors))
  {
  }

  lemma PackedKonstRange(g: GxState, s: TevState)
    requires HeaderAccepted(g)
    ensures InBytes(PackedKonst(g, s))
  {
    hide Konst, ByteColors, HeaderAccepted, UsesColor, UsesAlpha;
    HeaderRange(g);
    KonstRange(s.kcSel, ByteColors(g.kcolors));
    KonstRange(s.kaSel, ByteColors(g.kcolors));
  }

  lemma BumpRange(lane: real, format: u32)
    ensures 0.0 <= Bump(lane, format) <= 248.0
  {
    var n := lane.Floor % 256;
    assert n / 32 * 32 <= 224 && n / 16 * 16 <= 240 && n / 8 * 8 <= 248;
  }

  lemma RasterRange(s: RasterSource, x: Inputs)
    requires InputsInBytes(x)
    ensures InBytes(Raster(s, x))
  {
    hide Bump, LaneOf;
    BumpRange(LaneOf(x.indirect, s.alpha - 1), s.format);
  }

  /** What reaches the integer core in one stage. */
  predicate CoreSafe(regs: Four<Value>, s: Selected, konst: Value, texture: Value, raster: Value) {
    var tex, ras := Swizzle(texture, s.texture), Swizzle(raster, s.raster);
    var a, b := ColorArg(regs, s.color.v0, tex, ras, konst), ColorArg(regs, s.color.v1, tex, ras, konst);
    var c, d := ColorArg(regs, s.color.v2, tex, ras, konst), ColorArg(regs, s.color.v3, tex, ras, konst);
    && CoreInputs(Wrap(a.r), Wrap(b.r), Wrap(c.r), d.r)
    && CoreInputs(Wrap(a.g), Wrap(b.g), Wrap(c.g), d.g)
    && CoreInputs(Wrap(a.b), Wrap(b.b), Wrap(c.b), d.b)
    && CoreInputs(Wrap(AlphaArg(regs, s.alpha.v0, tex, ras, konst.a)),
                  Wrap(AlphaArg(regs, s.alpha.v1, tex, ras, konst.a)),
                  Wrap(AlphaArg(regs, s.alpha.v2, tex, ras, konst.a)), AlphaArg(regs, s.alpha.v3, tex, ras, konst.a))
  }

  lemma CoreIsSafe(regs: Four<Value>, s: Selected, konst: Value, texture: Value, raster: Value)
    requires AllInRegister(regs) && InBytes(konst) && InBytes(texture) && InBytes(raster)
    ensures CoreSafe(regs, s, konst, texture, raster)
  {
    hide Swizzle, ColorArg, AlphaArg, CoreInputs, Wrap, AllInRegister;
    var tex, ras := Swizzle(texture, s.texture), Swizzle(raster, s.raster);
    SwizzleRange(texture, s.texture);
    SwizzleRange(raster, s.raster);
    var a, b := ColorArg(regs, s.color.v0, tex, ras, konst), ColorArg(regs, s.color.v1, tex, ras, konst);
    var c, d := ColorArg(regs, s.color.v2, tex, ras, konst), ColorArg(regs, s.color.v3, tex, ras, konst);
    ColorArgRange(regs, s.color.v3, tex, ras, konst);
    AlphaArgRange(regs, s.alpha.v3, tex, ras, konst.a);
    CoreInputsHold(a.r, b.r, c.r, d.r);
    CoreInputsHold(a.g, b.g, c.g, d.g);
    CoreInputsHold(a.b, b.b, c.b, d.b);
    CoreInputsHold(AlphaArg(regs, s.alpha.v0, tex, ras, konst.a), AlphaArg(regs, s.alpha.v1, tex, ras, konst.a),
                   AlphaArg(regs, s.alpha.v2, tex, ras, konst.a), AlphaArg(regs, s.alpha.v3, tex, ras, konst.a));
  }

  lemma StepRange(m: Machine, s: Selected, k: Value, a: real, texture: Value, raster: Value)
    requires AllInRegister(m.regs)
    ensures AllInRegister(Step(m, s, k, a, texture, raster).regs)
  {
    hide Swizzle, ColorArg, AlphaArg, WrapAll, Wrap, Eval, Compare;
  }

  /** In every run of every accepted program the registers stay in eleven bits, and no stage hands the integer core
      inputs outside those for which all its intermediates are 32-bit integers. */
  lemma {:induction false} RunInRange(g: GxState, p: Program, inputs: seq<Inputs>, n: nat)
    requires |g.stages| == 16 && Accepted(g) && Packs(g, p) && n <= |p.stages| <= |inputs|
    requires forall i :: 0 <= i < |inputs| ==> InputsInBytes(inputs[i])
    ensures AllInRegister(PackedRun(p, inputs, n).regs)
    ensures n < |p.stages| ==>
              var s := p.stages[n];
              CoreSafe(PackedRun(p, inputs, n).regs, Decode(s), s.konst,
                       Texture(s.sampled, inputs[n].sample, p.unsampled),
                       Raster(s.raster, inputs[n]))
  {
    hide HeaderAccepted, StageAccepted, PackStage, PackAlpha, ByteColors, AllInRegister, CoreSafe, Decode, Step, Raster,
        InBytes, PackedKonst;
    CountAccepted(g);
    HeaderRange(g);
    if n > 0 {
      RunInRange(g, p, inputs, n - 1);
      var was, s := PackedRun(p, inputs, n - 1), p.stages[n - 1];
      StepRange(was, Decode(s), s.konst, s.konst.a, Texture(s.sampled, inputs[n - 1].sample, p.unsampled),
                Raster(s.raster, inputs[n - 1]));
    }
    if n < |p.stages| {
      var s := p.stages[n];
      PackedFields(g, g.stages[n], Feeds(g, n));
      PackedKonstRange(g, g.stages[n]);
      RasterRange(s.raster, inputs[n]);
      TextureRange(g, s.sampled, inputs[n].sample);
      CoreIsSafe(PackedRun(p, inputs, n).regs, Decode(s), s.konst, Texture(s.sampled, inputs[n].sample, p.unsampled),
                 Raster(s.raster, inputs[n]));
    }
  }

  lemma TextureRange(g: GxState, sampled: bool, sample: Value)
    requires InBytes(sample)
    ensures InBytes(Texture(sampled, sample, Unsampled(g)))
  {
  }

  // ----- the alpha test -----

  function AlphaCompares(value: int, reference: int, op: nat): bool {
    if op == 0 then false
    else if op == 1 then value < reference
    else if op == 2 then value == reference
    else if op == 3 then value <= reference
    else if op == 4 then value > reference
    else if op == 5 then value != reference
    else if op == 6 then value >= reference
    else true
  }

  function AlphaJoins(first: bool, second: bool, op: nat): bool {
    if op == 0 then first && second else if op == 1 then first || second else if op == 2 then first != second
        else first == second
  }

  /** The byte an alpha register is compared as. */
  function AlphaByte(alpha: real): (a: int)
    ensures 0 <= a <= 255
  {
    WrapRange(alpha);
    var wrapped := Wrap(alpha);
    RoundRange(if wrapped > 255.0 then 255.0 else wrapped, 0, 255);
    Round(if wrapped > 255.0 then 255.0 else wrapped)
  }

  function AlphaTest(alpha: real, flags: u32): bool {
    AlphaJoins(AlphaCompares(AlphaByte(alpha), Number((flags >> 8) & 255), Number(flags & 7)),
               AlphaCompares(AlphaByte(alpha), Number((flags >> 16) & 255), Number((flags >> 3) & 7)),
                   Number((flags >> 6) & 3))
  }

  function AlphaMeaning(alpha: real, c: AlphaCompare): bool {
    AlphaJoins(AlphaCompares(AlphaByte(alpha), Number(c.ref0), Number(c.comp0)),
               AlphaCompares(AlphaByte(alpha), Number(c.ref1), Number(c.comp1)), Number(c.op))
  }

  lemma AlphaAgrees(alpha: real, c: AlphaCompare)
    requires c.comp0 <= 7 && c.comp1 <= 7 && c.op <= 3 && c.ref0 <= 255 && c.ref1 <= 255
    ensures AlphaTest(alpha, PackAlpha(c)) == AlphaMeaning(alpha, c)
  {
    hide PackAlpha, Number, AlphaByte, AlphaCompares, AlphaJoins;
    AlphaDecodes(c);
  }

  /** The pixel: whether it survives, and the wrapped colour of the last stage. */
  datatype Pixel = Pixel(kept: bool, color: Value)

  /** The whole path from accepted state to pixel, packed and direct. */
  lemma PixelAgrees(g: GxState, p: Program, inputs: seq<Inputs>)
    requires |g.stages| == 16 && Accepted(g) && Packs(g, p) && g.count <= |inputs|
    ensures var packed, direct := PackedRun(p, inputs, |p.stages|).result, DirectRun(g, inputs, g.count).result;
            Pixel(AlphaTest(packed.a, p.alphaFlags), WrapAll(packed))
                == Pixel(AlphaMeaning(direct.a, g.alpha), WrapAll(direct))
  {
    hide StageAccepted, PackStage, PackAlpha, ByteColors, AlphaTest, AlphaMeaning, WrapAll, PackedRun, DirectRun,
        ColorAccepted;
    RunAgrees(g, p, inputs, g.count);
    AlphaAgrees(DirectRun(g, inputs, g.count).result.a, g.alpha);
  }
}
