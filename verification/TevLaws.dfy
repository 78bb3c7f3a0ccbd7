/** What a combiner stage does, in the terms of the graphics library (ps5/gpu/tev_integer.h, ps5/gpu/tev_stage.h,
    ps5/gpu/gx_tev_program.cpp): arithmetic and comparisons of one component, where each argument comes from, and what
    the packed program computes in a stage. */
module TevLaws {
  import opened TevInteger
  import opened TevStage
  import opened TevProgram

  // ----- one component -----

  /** `r` is `n` limited to a byte, or to the eleven bits of a register. */
  predicate Limits(r: int, n: int, clamp: bool) {
    var lo, hi := if clamp then 0 else -1024, if clamp then 255 else 1023;
    (n < lo ==> r == lo) && (n > hi ==> r == hi) && (lo <= n <= hi ==> r == n)
  }

  /** `n` is `base` times one, two or four, or half of it rounded down. */
  predicate Scaled(n: int, base: int, scale: nat) {
    && (scale == 0 ==> n == base) && (scale == 1 ==> n == 2 * base) && (scale == 2 ==> n == 4 * base)
    && (scale == 3 ==> 2 * n <= base < 2 * n + 2)
  }

  predicate ByteInputs(a: int, b: int, c: int, d: int) {
    0 <= a <= 255 && 0 <= b <= 255 && 0 <= c <= 255 && -1024 <= d <= 1023
  }

  /** Addition and subtraction where the third argument is all or nothing: `d` plus bias plus, or minus, `a` or `b`,
      scaled, and limited at the end. */
  lemma AddsOrSubtracts(a: int, b: int, c: int, d: int, ca: int, cb: int, subtract: bool, bias: int, scale: nat,
                        clamp: bool) returns (n: int)
    requires ByteInputs(a, b, c, d) && (c == 0 || c == 255) && scale <= 3
    ensures var mixed := if c == 0 then a else b;
            Scaled(n, d + bias + if subtract then -mixed else mixed, scale)
    ensures Limits(Component(a, b, c, d, ca, cb, if subtract then 1 else 0, bias, scale, clamp), n, clamp)
  {
    hide Lerp;
    var op := if subtract then 1 else 0;
    LerpEnds(a, b, op, scale);
    n := Regular(a, b, c, d, op, bias, scale);
    Factors(scale);
    var mixed := if c == 0 then a else b;
    assert mixed * Factor(scale) == Lerp(a, b, c, op, scale);
    Distributes(d + bias, mixed, Factor(scale));
  }

  lemma Factors(scale: nat)
    ensures scale == 0 || scale == 3 ==> Factor(scale) == 1
    ensures scale == 1 ==> Factor(scale) == 2
    ensures scale == 2 ==> Factor(scale) == 4
  {
  }

  lemma Distributes(x: int, y: int, f: int)
    ensures x * f + y * f == (x + y) * f && x * f - y * f == (x - y) * f
  {
  }

  /** In between: the mixture of `a` and `b` in the weight of `c` out of 256, to the nearest, before `d` and bias are
      added; of two nearest ones the larger when it is added, and the smaller when it is subtracted. The halving scale
      rounds down instead. */
  lemma MixesNearest(a: int, b: int, c: int, subtract: bool, scale: nat)
    requires 0 <= c <= 255 && scale <= 3
    ensures var w := if c < 128 then c else c + 1;
            var exact := (a * (256 - w) + b * w) * (if scale == 1 then 2 else if scale == 2 then 4 else 1);
            var mixed := Lerp(a, b, c, if subtract then 1 else 0, scale);
            if scale == 3 then 256 * mixed <= exact < 256 * mixed + 256
            else if subtract then -128 <= 256 * mixed - exact < 128
            else -128 < 256 * mixed - exact <= 128
  {
    Factors(scale);
    var w := if c < 128 then c else c + 1;
    assert Weight(c) == w;
    assert a * 256 + (b - a) * w == a * (256 - w) + b * w;
    hide Weight, Factor;
  }

  lemma Order(x: int, y: int, w: int)
    requires x <= y && w >= 0
    ensures x * w <= y * w
  {
    assert (y - x) * w >= 0;
  }

  /** More of `d`, of `a` or of `b`, or of `c` while `b` is at least `a`, never gives less where mixtures are added, and
      never more where they are subtracted. */
  lemma Monotone(a: int, b: int, c: int, d: int, a2: int, b2: int, c2: int, d2: int, ca: int, cb: int, subtract: bool,
                 bias: int, scale: nat, clamp: bool)
    requires ByteInputs(a, b, c, d) && ByteInputs(a2, b2, c2, d2) && scale <= 3
    requires a <= a2 && b <= b2 && (c == c2 || (c <= c2 && a2 <= b)) && if subtract then d2 <= d else d <= d2
    ensures var op := if subtract then 1 else 0;
            var r, s := Component(a, b, c, d, ca, cb, op, bias, scale, clamp),
                        Component(a2, b2, c2, d2, ca, cb, op, bias, scale, clamp);
            if subtract then s <= r else r <= s
  {
    hide Regular, Clamped;
    RegularGrows(a, b, c, d, a2, b2, c2, d2, subtract, bias, scale);
    var op := if subtract then 1 else 0;
    var m, n := Regular(a, b, c, d, op, bias, scale), Regular(a2, b2, c2, d2, op, bias, scale);
    ClampGrows(if subtract then n else m, if subtract then m else n, clamp);
  }

  lemma ClampGrows(m: int, n: int, clamp: bool)
    requires m <= n
    ensures Clamped(m, clamp) <= Clamped(n, clamp)
  {
  }

  lemma RegularGrows(a: int, b: int, c: int, d: int, a2: int, b2: int, c2: int, d2: int, subtract: bool, bias: int,
                     scale: nat)
    requires ByteInputs(a, b, c, d) && ByteInputs(a2, b2, c2, d2) && scale <= 3
    requires a <= a2 && b <= b2 && (c == c2 || (c <= c2 && a2 <= b)) && if subtract then d2 <= d else d <= d2
    ensures var op := if subtract then 1 else 0;
            var m, n := Regular(a, b, c, d, op, bias, scale), Regular(a2, b2, c2, d2, op, bias, scale);
            if subtract then n <= m else m <= n
  {
    hide Lerp, Factor;
    var op := if subtract then 1 else 0;
    LerpGrows(a, b, c, a2, b2, c2, op, scale);
    Factors(scale);
    Order(if subtract then d2 + bias else d + bias, if subtract then d + bias else d2 + bias, Factor(scale));
  }

  lemma LerpGrows(a: int, b: int, c: int, a2: int, b2: int, c2: int, op: nat, scale: nat)
    requires 0 <= c <= 255 && 0 <= c2 <= 255 && a <= a2 && b <= b2 && (c == c2 || (c <= c2 && a2 <= b))
    ensures Lerp(a, b, c, op, scale) <= Lerp(a2, b2, c2, op, scale)
  {
    var w, w2 := Weight(c), Weight(c2);
    assert 0 <= w <= w2 <= 256;
    hide Weight;
    Factors(scale);
    assert a * 256 + (b - a) * w == a * (256 - w) + b * w;
    assert a2 * 256 + (b2 - a2) * w2 == a2 * (256 - w) + b2 * w + (b2 - a2) * (w2 - w);
    Order(a, a2, 256 - w);
    Order(b, b2, w);
    if w != w2 {
      Order(0, b2 - a2, w2 - w);
    }
    var n, n2 := a * 256 + (b - a) * w, a2 * 256 + (b2 - a2) * w2;
    assert n <= n2;
    Order(n, n2, Factor(scale));
    hide Factor;
  }

  /** A comparison adds `c` or nothing to `d`. It is passed by the first bytes of the two colours (8 greater, 9 equal),
      by the first two (10, 11), by all three (12, 13), the last one counting most, or by the component itself (14, 15).
      */
  lemma Compares(a: int, b: int, c: int, d: int, ra: int, ga: int, ba: int, rb: int, gb: int, bb: int, op: nat,
                 bias: int, scale: nat, clamp: bool)
    requires ByteInputs(a, b, c, d) && 8 <= op <= 15
    requires 0 <= ra < 256 && 0 <= ga < 256 && 0 <= ba < 256 && 0 <= rb < 256 && 0 <= gb < 256 && 0 <= bb < 256
    ensures var passed :=
              if op == 8 then ra > rb else if op == 9 then ra == rb
              else if op == 10 then ga > gb || (ga == gb && ra > rb) else if op == 11 then ga == gb && ra == rb
              else if op == 12 then ba > bb || (ba == bb && (ga > gb || (ga == gb && ra > rb)))
              else if op == 13 then ba == bb && ga == gb && ra == rb
              else if op == 14 then a > b else a == b;
            Limits(Component(a, b, c, d, ra + 256 * ga + 65536 * ba, rb + 256 * gb + 65536 * bb, op, bias, scale,
                             clamp),
                   d + if passed then c else 0, clamp)
  {
    MaskedBytes(ra, ga, ba, op);
    MaskedBytes(rb, gb, bb, op);
    hide Span;
  }

  // ----- arguments -----

  /** Where a colour argument comes from: the previous result and the three registers (0, 2, 4, 6) and their alphas in
      all lanes (1, 3, 5, 7), the texture (8) and its alpha (9), the raster colour (10) and its alpha (11), one (12),
      one half (13), the constant (14), zero (15). */
  predicate IsColorArg(v: Value, arg: nat, regs: Four<Value>, tex: Value, ras: Value, konst: Value) {
    && (arg == 0 ==> v == regs.v0) && (arg == 1 ==> v == Value(regs.v0.a, regs.v0.a, regs.v0.a, regs.v0.a))
    && (arg == 2 ==> v == regs.v1) && (arg == 3 ==> v == Value(regs.v1.a, regs.v1.a, regs.v1.a, regs.v1.a))
    && (arg == 4 ==> v == regs.v2) && (arg == 5 ==> v == Value(regs.v2.a, regs.v2.a, regs.v2.a, regs.v2.a))
    && (arg == 6 ==> v == regs.v3) && (arg == 7 ==> v == Value(regs.v3.a, regs.v3.a, regs.v3.a, regs.v3.a))
    && (arg == 8 ==> v == tex) && (arg == 9 ==> v == Value(tex.a, tex.a, tex.a, tex.a))
    && (arg == 10 ==> v == ras) && (arg == 11 ==> v == Value(ras.a, ras.a, ras.a, ras.a))
    && (arg == 12 ==> v == Value(255.0, 255.0, 255.0, 255.0)) && (arg == 13 ==> v == Value(127.5, 127.5, 127.5, 127.5))
    && (arg == 14 ==> v == konst) && (arg == 15 ==> v == Value(0.0, 0.0, 0.0, 0.0))
  }

  /** Where an alpha argument comes from. */
  predicate IsAlphaArg(f: real, arg: nat, regs: Four<Value>, tex: Value, ras: Value, konst: real) {
    && (arg == 0 ==> f == regs.v0.a) && (arg == 1 ==> f == regs.v1.a) && (arg == 2 ==> f == regs.v2.a)
    && (arg == 3 ==> f == regs.v3.a) && (arg == 4 ==> f == tex.a) && (arg == 5 ==> f == ras.a)
    && (arg == 6 ==> f == konst) && (arg == 7 ==> f == 0.0)
  }

  /** The lane a swap table entry names. */
  predicate IsLane(f: real, v: Value, lane: nat) {
    (lane == 0 ==> f == v.r) && (lane == 1 ==> f == v.g) && (lane == 2 ==> f == v.b) && (lane == 3 ==> f == v.a)
  }

  predicate IsSwizzled(w: Value, v: Value, s: Swap) {
    IsLane(w.r, v, s.red) && IsLane(w.g, v, s.green) && IsLane(w.b, v, s.blue) && IsLane(w.a, v, s.alpha)
  }

  predicate SelectorsOk(s: Selected) {
    && s.color.v0 <= 15 && s.color.v1 <= 15 && s.color.v2 <= 15 && s.color.v3 <= 15
    && s.alpha.v0 <= 7 && s.alpha.v1 <= 7 && s.alpha.v2 <= 7 && s.alpha.v3 <= 7
    && s.texture.red <= 3 && s.texture.green <= 3 && s.texture.blue <= 3 && s.texture.alpha <= 3
    && s.raster.red <= 3 && s.raster.green <= 3 && s.raster.blue <= 3 && s.raster.alpha <= 3
  }

  /** What a stage of whole arguments gives: every lane is one component of the four colour arguments of that lane, the
      alpha lane one of the four alpha arguments, and comparisons look at the colours of the first two. */
  lemma StageIsComponent(regs: Four<Value>, s: Selected, colorKonst: Value, alphaKonst: real, texture: Value,
                         raster: Value, tex: Value, ras: Value, a: Value, b: Value, c: Value, d: Value,
                         aa: int, ab: int, ac: int, ad: int)
    requires SelectorsOk(s) && IsSwizzled(tex, texture, s.texture) && IsSwizzled(ras, raster, s.raster)
    requires IsColorArg(a, s.color.v0, regs, tex, ras, colorKonst)
    requires IsColorArg(b, s.color.v1, regs, tex, ras, colorKonst)
    requires IsColorArg(c, s.color.v2, regs, tex, ras, colorKonst)
    requires IsColorArg(d, s.color.v3, regs, tex, ras, colorKonst)
    requires IsAlphaArg(aa as real, s.alpha.v0, regs, tex, ras, alphaKonst)
    requires IsAlphaArg(ab as real, s.alpha.v1, regs, tex, ras, alphaKonst)
    requires IsAlphaArg(ac as real, s.alpha.v2, regs, tex, ras, alphaKonst)
    requires IsAlphaArg(ad as real, s.alpha.v3, regs, tex, ras, alphaKonst)
    requires Whole(a) && Whole(b) && Whole(c) && Whole(d)
    ensures var r := Combined(regs, s, colorKonst, alphaKonst, texture, raster);
            && r.r == Component(a.r.Floor, b.r.Floor, c.r.Floor, d.r.Floor, Bytes24(a), Bytes24(b), s.colorOp.op,
                                s.colorOp.bias, s.colorOp.scale, s.colorOp.clamp) as real
            && r.g == Component(a.g.Floor, b.g.Floor, c.g.Floor, d.g.Floor, Bytes24(a), Bytes24(b), s.colorOp.op,
                                s.colorOp.bias, s.colorOp.scale, s.colorOp.clamp) as real
            && r.b == Component(a.b.Floor, b.b.Floor, c.b.Floor, d.b.Floor, Bytes24(a), Bytes24(b), s.colorOp.op,
                                s.colorOp.bias, s.colorOp.scale, s.colorOp.clamp) as real
            && r.a == Component(aa, ab, ac, ad, Bytes24(a), Bytes24(b), s.alphaOp.op, s.alphaOp.bias, s.alphaOp.scale,
                                s.alphaOp.clamp) as real
  {
    hide Component, Eval, Wrap, Compare, Bytes24, ColorArg, AlphaArg, Swizzle, IsColorArg, IsAlphaArg, IsSwizzled;
    Swizzled(texture, s.texture, tex);
    Swizzled(raster, s.raster, ras);
    ColorChosen(regs, s.color.v0, tex, ras, colorKonst, a);
    ColorChosen(regs, s.color.v1, tex, ras, colorKonst, b);
    ColorChosen(regs, s.color.v2, tex, ras, colorKonst, c);
    ColorChosen(regs, s.color.v3, tex, ras, colorKonst, d);
    AlphaChosen(regs, s.alpha.v0, tex, ras, alphaKonst, aa as real);
    AlphaChosen(regs, s.alpha.v1, tex, ras, alphaKonst, ab as real);
    AlphaChosen(regs, s.alpha.v2, tex, ras, alphaKonst, ac as real);
    AlphaChosen(regs, s.alpha.v3, tex, ras, alphaKonst, ad as real);
    EvalIsComponent(a.r.Floor, b.r.Floor, c.r.Floor, d.r.Floor, a, b, s.colorOp);
    EvalIsComponent(a.g.Floor, b.g.Floor, c.g.Floor, d.g.Floor, a, b, s.colorOp);
    EvalIsComponent(a.b.Floor, b.b.Floor, c.b.Floor, d.b.Floor, a, b, s.colorOp);
    EvalIsComponent(aa, ab, ac, ad, a, b, s.alphaOp);
  }

  lemma Swizzled(v: Value, s: Swap, w: Value)
    requires IsSwizzled(w, v, s) && s.red <= 3 && s.green <= 3 && s.blue <= 3 && s.alpha <= 3
    ensures Swizzle(v, s) == w
  {
  }

  lemma ColorChosen(regs: Four<Value>, arg: nat, tex: Value, ras: Value, konst: Value, v: Value)
    requires IsColorArg(v, arg, regs, tex, ras, konst) && arg <= 15
    ensures ColorArg(regs, arg, tex, ras, konst) == v
  {
  }

  lemma AlphaChosen(regs: Four<Value>, arg: nat, tex: Value, ras: Value, konst: real, f: real)
    requires IsAlphaArg(f, arg, regs, tex, ras, konst) && arg <= 7
    ensures AlphaArg(regs, arg, tex, ras, konst) == f
  {
  }

  // ----- a stage of the program -----

  /** The constant of a selector: eighths of one from eight down to one (0 to 7), a constant register (12 to 15), or one
      lane of one (16 to 31, red lanes first). */
  predicate IsKonst(v: Value, sel: u32, colors: Four<Value>) {
    && (sel == 0 ==> v == Splat(255.0)) && (sel == 1 ==> v == Splat(223.125)) && (sel == 2 ==> v == Splat(191.25))
    && (sel == 3 ==> v == Splat(159.375)) && (sel == 4 ==> v == Splat(127.5)) && (sel == 5 ==> v == Splat(95.625))
    && (sel == 6 ==> v == Splat(63.75)) && (sel == 7 ==> v == Splat(31.875))
    && (sel == 12 ==> v == colors.v0) && (sel == 13 ==> v == colors.v1) && (sel == 14 ==> v == colors.v2)
    && (sel == 15 ==> v == colors.v3)
    && (sel == 16 ==> v == Splat(colors.v0.r)) && (sel == 17 ==> v == Splat(colors.v1.r))
    && (sel == 18 ==> v == Splat(colors.v2.r)) && (sel == 19 ==> v == Splat(colors.v3.r))
    && (sel == 20 ==> v == Splat(colors.v0.g)) && (sel == 21 ==> v == Splat(colors.v1.g))
    && (sel == 22 ==> v == Splat(colors.v2.g)) && (sel == 23 ==> v == Splat(colors.v3.g))
    && (sel == 24 ==> v == Splat(colors.v0.b)) && (sel == 25 ==> v == Splat(colors.v1.b))
    && (sel == 26 ==> v == Splat(colors.v2.b)) && (sel == 27 ==> v == Splat(colors.v3.b))
    && (sel == 28 ==> v == Splat(colors.v0.a)) && (sel == 29 ==> v == Splat(colors.v1.a))
    && (sel == 30 ==> v == Splat(colors.v2.a)) && (sel == 31 ==> v == Splat(colors.v3.a))
  }

  lemma KonstChosen(sel: u32, colors: Four<Value>, v: Value)
    requires KonstAccepted(sel, false) && IsKonst(v, sel, colors)
    ensures Konst(sel, colors) == v
  {
  }

  /** A stage samples a texture if and only if there are coordinates, its map is one of the eight, and one of its
      arguments is the texture's colour (8) or alpha (9), or the alpha of it for the alpha lane (4). */
  lemma SampledIs(g: GxState, s: TevState)
    ensures Sampled(g, s)
        <==> g.texGens > 0 && s.texMap < 8
             && (s.color.v0 in {8, 9} || s.color.v1 in {8, 9} || s.color.v2 in {8, 9} || s.color.v3 in {8, 9}
                 || s.alpha.v0 == 4 || s.alpha.v1 == 4 || s.alpha.v2 == 4 || s.alpha.v3 == 4)
  {
    CoordUsed(g, s.texCoord);
    MapUsed(s.texMap);
    hide EffectiveCoord, EffectiveMap;
  }

  lemma CoordUsed(g: GxState, coord: u32)
    ensures EffectiveCoord(g, coord) != NONE <==> g.texGens > 0
  {
    hide Number;
  }

  lemma MapUsed(texMap: u32)
    ensures EffectiveMap(texMap) != NONE <==> texMap < 8
    ensures texMap < 8 ==> EffectiveMap(texMap) == texMap
  {
  }

  /** The texture a stage sees: its sample, or one or zero in all lanes when it samples none, depending on whether there
      are coordinates at all. */
  predicate IsTexture(v: Value, g: GxState, s: TevState, sample: Value) {
    && (Sampled(g, s) ==> v == sample)
    && (!Sampled(g, s) && g.texGens > 0 ==> v == Value(255.0, 255.0, 255.0, 255.0))
    && (!Sampled(g, s) && g.texGens == 0 ==> v == Value(0.0, 0.0, 0.0, 0.0))
  }

  /** The five, four or three high bits of a byte of the indirect sample. */
  predicate IsBump(n: int, byte: int, format: u32) {
    && (format != 1 && format != 2 ==> n % 8 == 0 && n <= byte < n + 8)
    && (format == 2 ==> n % 16 == 0 && n <= byte < n + 16)
    && (format == 1 ==> n % 32 == 0 && n <= byte < n + 32)
  }

  /** The raster colour a stage sees: the first channel's (0, 2, 4), the second's (1, 3, 5), high bits of the alpha of
      its active indirect sample (7) or the same stretched to one (8), or black. */
  ghost predicate IsRaster(v: Value, g: GxState, s: TevState, x: Inputs) {
    var r := s.raster;
    && (r.channel == 0 || r.channel == 2 || r.channel == 4 ==> v == x.raster0)
    && (r.channel == 1 || r.channel == 3 || r.channel == 5 ==> v == x.raster1)
    && (NoRaster(g, s) ==> v == Value(0.0, 0.0, 0.0, 0.0))
    && ((r.channel == 7 || r.channel == 8) && r.stage < g.indirects && r.alpha != 0 ==>
          exists n: int, byte: int ::
            && IsLaneByte(byte, x.indirect, r.alpha) && IsBump(n, byte, r.format)
            && v == Splat(if r.channel == 7 then n as real else n as real * (255.0 / 248.0)))
  }

  /** The byte of lane one, two or three. */
  predicate IsLaneByte(byte: int, v: Value, lane: u32) {
    && (lane == 1 ==> byte == v.r.Floor % 256) && (lane == 2 ==> byte == v.g.Floor % 256)
    && (lane == 3 ==> byte == v.b.Floor % 256)
  }

  /** There always is such a colour, the one the state's stage sees. */
  lemma RasterChosen(g: GxState, s: TevState, x: Inputs)
    requires g.indirects <= 4 && s.raster.alpha <= 3
    ensures IsRaster(DirectRaster(g, s, x), g, s, x)
  {
    hide Bump, LaneOf, DirectRaster, NoRaster;
    var r := s.raster;
    if r.channel == 0 || r.channel == 2 || r.channel == 4 {
      FirstChannel(g, s, x);
    }
    if r.channel == 1 || r.channel == 3 || r.channel == 5 {
      SecondChannel(g, s, x);
    }
    if NoRaster(g, s) {
      BlackRaster(g, s, x);
    }
    if (r.channel == 7 || r.channel == 8) && r.stage < g.indirects && r.alpha != 0 {
      RasterOfBump(g, s, x);
      var lane := LaneOf(x.indirect, r.alpha - 1);
      BumpIs(lane, r.format);
      LaneIs(x.indirect, r.alpha);
      assert IsLaneByte(lane.Floor % 256, x.indirect, r.alpha);
    }
  }

  lemma LaneIs(v: Value, lane: u32)
    requires 1 <= lane <= 3
    ensures LaneOf(v, lane - 1) == if lane == 1 then v.r else if lane == 2 then v.g else v.b
  {
  }

  lemma BumpIs(lane: real, format: u32)
    ensures exists n: int :: IsBump(n, lane.Floor % 256, format) && Bump(lane, format) == n as real
  {
    var byte := lane.Floor % 256;
    var step := if format == 1 then 32 else if format == 2 then 16 else 8;
    assert IsBump(byte / step * step, byte, format);
  }

  /** The swap table a stage names: which lanes red, green, blue and alpha are taken from. */
  predicate IsTable(t: Swap, g: GxState, k: u32) {
    && (k == 0 ==> t == Lanes(g.swaps.v0)) && (k == 1 ==> t == Lanes(g.swaps.v1))
    && (k == 2 ==> t == Lanes(g.swaps.v2)) && (k == 3 ==> t == Lanes(g.swaps.v3))
  }

  function Lanes(s: TevSwap): Swap {
    Swap(Number(s.red), Number(s.green), Number(s.blue), Number(s.alpha))
  }

  /** What a stage works with: the textures and constants it selects. */
  datatype Sources = Sources(texture: Value, raster: Value, textureTable: Swap, rasterTable: Swap, tex: Value,
                             ras: Value,
                             konst: Value, alphaKonst: Value)

  /** The four constants as register bytes. */
  function Konsts(g: GxState): Four<Value> {
    Four(ByteColor(g.kcolors.v0), ByteColor(g.kcolors.v1), ByteColor(g.kcolors.v2), ByteColor(g.kcolors.v3))
  }

  lemma KonstsAre(g: GxState)
    ensures ByteColors(g.kcolors) == Konsts(g)
  {
    hide ByteColor;
  }

  /** A run starts with the four colour registers in their order. */
  lemma RunStarts(g: GxState, p: Program, inputs: seq<Inputs>)
    requires |g.stages| == 16 && g.count <= 16 && Packs(g, p)
    ensures PackedRun(p, inputs, 0).regs == Four(ByteColor(g.colorRegs.v0), ByteColor(g.colorRegs.v1),
                                                 ByteColor(g.colorRegs.v2), ByteColor(g.colorRegs.v3))
  {
    hide ByteColor, PackStage;
  }

  /** What the packer accepts of a stage: selectors of arguments, operations, tables and channels in their ranges, and a
      constant's selector where a constant is read, with lanes only for the alpha. */
  lemma StageTaken(g: GxState, s: TevState)
    ensures StageAccepted(g, s)
        <==> && Small4(s.color, 15) && Small4(s.alpha, 7) && RasterTaken(s.raster)
             && OpTaken(s.colorOp) && OpTaken(s.alphaOp) && TableTaken(g, s.swapTexture) && TableTaken(g, s.swapRaster)
             && (Names(s.color, 14) ==> KonstTaken(s.kcSel, false)) && (Names(s.alpha, 6) ==> KonstTaken(s.kaSel, true))
  {
    ArgumentsAre(s);
    RasterIs(s.raster);
    ReadsAre(s);
    OpIs(s.colorOp);
    OpIs(s.alphaOp);
    TableIs(g, s.swapTexture);
    TableIs(g, s.swapRaster);
    KonstIs(s.kcSel, false);
    KonstIs(s.kaSel, true);
    hide OpAccepted, OpTaken, TableAccepted, TableTaken, KonstAccepted, KonstTaken, Nth, ArgumentsAccepted;
    hide RasterAccepted, RasterTaken, Small4, Names, UsesColor, UsesAlpha;
  }

  predicate Names(f: Four<u32>, k: u32) {
    f.v0 == k || f.v1 == k || f.v2 == k || f.v3 == k
  }

  /** Eighths and registers, or lanes of registers. */
  predicate KonstTaken(sel: u32, alpha: bool) {
    sel <= 7 || (if alpha then 16 else 12) <= sel <= 31
  }

  predicate RasterTaken(r: RasterSource) {
    (r.channel <= 8 || r.channel == 255) && r.format <= 3 && r.alpha <= 3
  }

  lemma ArgumentsAre(s: TevState)
    ensures ArgumentsAccepted(s) <==> Small4(s.color, 15) && Small4(s.alpha, 7)
  {
  }

  lemma RasterIs(r: RasterSource)
    ensures RasterAccepted(r) <==> RasterTaken(r)
  {
  }

  lemma ReadsAre(s: TevState)
    ensures (UsesColor(s) <==> Names(s.color, 14)) && (UsesAlpha(s) <==> Names(s.alpha, 6))
  {
  }

  lemma OpIs(o: TevOp)
    ensures OpAccepted(o) <==> OpTaken(o)
  {
  }

  lemma TableIs(g: GxState, k: u32)
    ensures TableAccepted(g, k) <==> TableTaken(g, k)
  {
  }

  lemma KonstIs(sel: u32, alpha: bool)
    ensures KonstAccepted(sel, alpha) <==> KonstTaken(sel, alpha)
  {
  }

  predicate Small4(f: Four<u32>, limit: u32) {
    f.v0 <= limit && f.v1 <= limit && f.v2 <= limit && f.v3 <= limit
  }

  /** Additions, subtractions and the eight comparisons; three biases, which comparisons ignore. */
  predicate OpTaken(o: TevOp) {
    && (o.op == 0 || o.op == 1 || 8 <= o.op <= 15) && o.scale <= 3 && o.out <= 3 && (o.op <= 1 ==> o.bias <= 2)
  }

  /** One of the four tables, with a lane for each lane. */
  predicate TableTaken(g: GxState, k: u32) {
    && k <= 3
    && (k == 0 ==> LanesTaken(g.swaps.v0)) && (k == 1 ==> LanesTaken(g.swaps.v1))
    && (k == 2 ==> LanesTaken(g.swaps.v2)) && (k == 3 ==> LanesTaken(g.swaps.v3))
  }

  predicate LanesTaken(t: TevSwap) {
    t.red <= 3 && t.green <= 3 && t.blue <= 3 && t.alpha <= 3
  }

  /** A normalized lane that stands for a whole number is accepted if and only if the number is in range. */
  lemma LaneTaken(v: real, n: int, lo: int, hi: int)
    requires v * 255.0 == n as real
    ensures LaneAccepted(v, lo as real, hi as real) <==> lo <= n <= hi
  {
  }

  ghost predicate IsSources(e: Sources, g: GxState, s: TevState, x: Inputs) {
    && IsTexture(e.texture, g, s, x.sample) && IsRaster(e.raster, g, s, x)
    && IsTable(e.textureTable, g, s.swapTexture) && IsTable(e.rasterTable, g, s.swapRaster)
    && IsSwizzled(e.tex, e.texture, e.textureTable) && IsSwizzled(e.ras, e.raster, e.rasterTable)
    && IsKonst(e.konst, s.kcSel, Konsts(g)) && IsKonst(e.alphaKonst, s.kaSel, Konsts(g))
  }

  /** The four colour arguments and the four alpha arguments of a stage. */
  datatype Arguments = Arguments(a: Value, b: Value, c: Value, d: Value, aa: int, ab: int, ac: int, ad: int)

  predicate IsArguments(z: Arguments, s: TevState, e: Sources, regs: Four<Value>) {
    && IsColorArg(z.a, Number(s.color.v0), regs, e.tex, e.ras, e.konst)
    && IsColorArg(z.b, Number(s.color.v1), regs, e.tex, e.ras, e.konst)
    && IsColorArg(z.c, Number(s.color.v2), regs, e.tex, e.ras, e.konst)
    && IsColorArg(z.d, Number(s.color.v3), regs, e.tex, e.ras, e.konst)
    && IsAlphaArg(z.aa as real, Number(s.alpha.v0), regs, e.tex, e.ras, e.alphaKonst.a)
    && IsAlphaArg(z.ab as real, Number(s.alpha.v1), regs, e.tex, e.ras, e.alphaKonst.a)
    && IsAlphaArg(z.ac as real, Number(s.alpha.v2), regs, e.tex, e.ras, e.alphaKonst.a)
    && IsAlphaArg(z.ad as real, Number(s.alpha.v3), regs, e.tex, e.ras, e.alphaKonst.a)
    && Whole(z.a) && Whole(z.b) && Whole(z.c) && Whole(z.d)
  }

  /** One lane of a stage by its operation word: the bias is none, a half up or a half down, and none for
      comparisons. */
  function LaneResult(a: int, b: int, c: int, d: int, z: Arguments, o: TevOp): int {
    Component(a, b, c, d, Bytes24(z.a), Bytes24(z.b), Number(o.op),
              if o.op >= 8 || o.bias == 0 then 0 else if o.bias == 1 then 128 else -128, Number(o.scale), o.clamp)
  }

  predicate IsResult(r: Value, z: Arguments, s: TevState) {
    && r.r == LaneResult(z.a.r.Floor, z.b.r.Floor, z.c.r.Floor, z.d.r.Floor, z, s.colorOp) as real
    && r.g == LaneResult(z.a.g.Floor, z.b.g.Floor, z.c.g.Floor, z.d.g.Floor, z, s.colorOp) as real
    && r.b == LaneResult(z.a.b.Floor, z.b.b.Floor, z.c.b.Floor, z.d.b.Floor, z, s.colorOp) as real
    && r.a == LaneResult(z.aa, z.ab, z.ac, z.ad, z, s.alphaOp) as real
  }

  /** The two destinations take their lanes of the result, and nothing else changes. */
  predicate IsWritten(now: Four<Value>, was: Four<Value>, result: Value, color: u32, alpha: u32) {
    && (color == 0 ==> SameColor(now.v0, result)) && (color != 0 ==> SameColor(now.v0, was.v0))
    && (color == 1 ==> SameColor(now.v1, result)) && (color != 1 ==> SameColor(now.v1, was.v1))
    && (color == 2 ==> SameColor(now.v2, result)) && (color != 2 ==> SameColor(now.v2, was.v2))
    && (color == 3 ==> SameColor(now.v3, result)) && (color != 3 ==> SameColor(now.v3, was.v3))
    && now.v0.a == (if alpha == 0 then result.a else was.v0.a)
       && now.v1.a == (if alpha == 1 then result.a else was.v1.a)
    && now.v2.a == (if alpha == 2 then result.a else was.v2.a)
       && now.v3.a == (if alpha == 3 then result.a else was.v3.a)
  }

  /** Every stage of every run of a packed program, when its arguments are whole: the result is, lane by lane, the
      component of the arguments that the state's selectors name, and it goes to the state's destinations. */
  lemma RunStage(g: GxState, p: Program, inputs: seq<Inputs>, n: nat, e: Sources, z: Arguments)
    requires |g.stages| == 16 && Accepted(g) && Packs(g, p) && n < g.count <= |inputs|
    requires IsSources(e, g, g.stages[n], inputs[n])
    requires IsArguments(z, g.stages[n], e, PackedRun(p, inputs, n).regs)
    ensures var m, s := PackedRun(p, inputs, n + 1), g.stages[n];
            && IsResult(m.result, z, s)
            && IsWritten(m.regs, PackedRun(p, inputs, n).regs, m.result, s.colorOp.out, s.alphaOp.out)
  {
    hide Packs, ByteColors, HeaderAccepted, IsSources, IsArguments, IsResult, IsWritten, DirectStep, StageAccepted,
        PackedRun, DirectRun;
    CountAccepted(g);
    RunAgrees(g, p, inputs, n);
    RunAgrees(g, p, inputs, n + 1);
    NextStage(g, inputs, n);
    StageResult(g, g.stages[n], inputs[n], DirectRun(g, inputs, n), e, z);
  }

  lemma NextStage(g: GxState, inputs: seq<Inputs>, n: nat)
    requires n < |g.stages| && n < |inputs|
    ensures DirectRun(g, inputs, n + 1) == DirectStep(g, DirectRun(g, inputs, n), g.stages[n], inputs[n])
  {
    hide DirectStep;
  }

  lemma RasterOnly(g: GxState, s: TevState, x: Inputs, v: Value)
    requires g.indirects <= 4 && s.raster.alpha <= 3 && IsRaster(v, g, s, x)
    ensures v == DirectRaster(g, s, x)
  {
    hide Bump, LaneOf, DirectRaster, NoRaster;
    var r := s.raster;
    Channels(g, s);
    if r.channel == 0 || r.channel == 2 || r.channel == 4 {
      FirstChannel(g, s, x);
    } else if r.channel == 1 || r.channel == 3 || r.channel == 5 {
      SecondChannel(g, s, x);
    } else if NoRaster(g, s) {
      BlackRaster(g, s, x);
    } else {
      RasterOfBump(g, s, x);
      var n: int, byte: int :| IsLaneByte(byte, x.indirect, r.alpha) && IsBump(n, byte, r.format)
          && v == Splat(if r.channel == 7 then n as real else n as real * (255.0 / 248.0));
      LaneIs(x.indirect, r.alpha);
      BumpOnly(LaneOf(x.indirect, r.alpha - 1), r.format, n);
    }
  }

  lemma FirstChannel(g: GxState, s: TevState, x: Inputs)
    requires s.raster.channel == 0 || s.raster.channel == 2 || s.raster.channel == 4
    ensures DirectRaster(g, s, x) == x.raster0
  {
    hide Bump, LaneOf;
  }

  lemma SecondChannel(g: GxState, s: TevState, x: Inputs)
    requires s.raster.channel == 1 || s.raster.channel == 3 || s.raster.channel == 5
    ensures DirectRaster(g, s, x) == x.raster1
  {
    hide Bump, LaneOf;
  }

  /** No channel, or a bump channel without an active stage or lane. */
  predicate NoRaster(g: GxState, s: TevState) {
    s.raster.channel == 6 || s.raster.channel > 8 || (s.raster.channel >= 6 && s.raster.stage >= g.indirects)
    || (s.raster.channel >= 6 && s.raster.alpha == 0)
  }

  lemma BlackRaster(g: GxState, s: TevState, x: Inputs)
    requires NoRaster(g, s)
    ensures DirectRaster(g, s, x) == Value(0.0, 0.0, 0.0, 0.0)
  {
    hide Bump, LaneOf;
    if s.raster.channel == 6 {
    } else if s.raster.channel > 8 {
    } else if s.raster.alpha == 0 {
    }
  }

  /** A channel is one of the six colours, a bump channel in use, or none. */
  lemma Channels(g: GxState, s: TevState)
    ensures var c := s.raster.channel;
            || c == 0 || c == 2 || c == 4 || c == 1 || c == 3 || c == 5 || NoRaster(g, s)
            || ((c == 7 || c == 8) && s.raster.stage < g.indirects && s.raster.alpha != 0)
  {
  }

  lemma RasterOfBump(g: GxState, s: TevState, x: Inputs)
    requires g.indirects <= 4
    requires (s.raster.channel == 7 || s.raster.channel == 8) && s.raster.stage < g.indirects && s.raster.alpha != 0
    ensures var bump := Bump(LaneOf(x.indirect, s.raster.alpha - 1), s.raster.format);
            DirectRaster(g, s, x) == Splat(if s.raster.channel == 7 then bump else bump * (255.0 / 248.0))
  {
    hide Bump, LaneOf;
  }

  lemma BumpOnly(lane: real, format: u32, n: int)
    requires IsBump(n, lane.Floor % 256, format)
    ensures Bump(lane, format) == n as real
  {
    var byte := lane.Floor % 256;
    var step := if format == 1 then 32 else if format == 2 then 16 else 8;
    assert byte / step == n / step;
  }

  lemma TextureOnly(g: GxState, s: TevState, x: Inputs, v: Value)
    requires IsTexture(v, g, s, x.sample)
    ensures v == Texture(Sampled(g, s), x.sample, Unsampled(g))
  {
    hide Sampled;
  }

  lemma TableOnly(g: GxState, k: u32, t: Swap)
    requires k < 4 && IsTable(t, g, k)
    ensures t == SwapMeaning(Nth(g.swaps, k))
  {
  }

  /** The arguments are those under the constants that the selectors give. */
  lemma KonstArguments(g: GxState, s: TevState, e: Sources, z: Arguments, regs: Four<Value>)
    requires StageAccepted(g, s) && IsArguments(z, s, e, regs)
    requires IsKonst(e.konst, s.kcSel, Konsts(g)) && IsKonst(e.alphaKonst, s.kaSel, Konsts(g))
    ensures IsArguments(z, s, e.(konst := Konst(s.kcSel, ByteColors(g.kcolors)),
                                 alphaKonst := Konst(s.kaSel, ByteColors(g.kcolors))), regs)
  {
    KonstsAre(g);
    hide Konsts;
    hide Konst, ByteColors, IsKonst, Number, Whole, UsesColor, UsesAlpha, IsColorArg, IsAlphaArg, StageAccepted;
    AcceptedKonst(g, s);
    ReadsKonst(s);
    var colors := Konsts(g);
    if UsesColor(s) {
      KonstChosen(s.kcSel, colors, e.konst);
    }
    if UsesAlpha(s) {
      KonstChosen(s.kaSel, colors, e.alphaKonst);
    }
    var k, f := Konst(s.kcSel, colors), Konst(s.kaSel, colors).a;
    OtherKonst(z.a, Number(s.color.v0), regs, e.tex, e.ras, e.konst, k);
    OtherKonst(z.b, Number(s.color.v1), regs, e.tex, e.ras, e.konst, k);
    OtherKonst(z.c, Number(s.color.v2), regs, e.tex, e.ras, e.konst, k);
    OtherKonst(z.d, Number(s.color.v3), regs, e.tex, e.ras, e.konst, k);
    OtherAlpha(z.aa as real, Number(s.alpha.v0), regs, e.tex, e.ras, e.alphaKonst.a, f);
    OtherAlpha(z.ab as real, Number(s.alpha.v1), regs, e.tex, e.ras, e.alphaKonst.a, f);
    OtherAlpha(z.ac as real, Number(s.alpha.v2), regs, e.tex, e.ras, e.alphaKonst.a, f);
    OtherAlpha(z.ad as real, Number(s.alpha.v3), regs, e.tex, e.ras, e.alphaKonst.a, f);
  }

  lemma OtherKonst(v: Value, arg: nat, regs: Four<Value>, tex: Value, ras: Value, k: Value, l: Value)
    requires IsColorArg(v, arg, regs, tex, ras, k) && (arg == 14 ==> k == l)
    ensures IsColorArg(v, arg, regs, tex, ras, l)
  {
  }

  lemma OtherAlpha(f: real, arg: nat, regs: Four<Value>, tex: Value, ras: Value, k: real, l: real)
    requires IsAlphaArg(f, arg, regs, tex, ras, k) && (arg == 6 ==> k == l)
    ensures IsAlphaArg(f, arg, regs, tex, ras, l)
  {
  }

  lemma AcceptedKonst(g: GxState, s: TevState)
    requires StageAccepted(g, s)
    ensures UsesColor(s) ==> KonstAccepted(s.kcSel, false)
    ensures UsesAlpha(s) ==> KonstAccepted(s.kaSel, false)
  {
  }

  lemma SelectorRanges(g: GxState, s: TevState)
    requires StageAccepted(g, s)
    ensures SelectorsOk(Meaning(g, s))
  {
    hide Number, Nth;
    Small(s.color.v0);
    Small(s.color.v1);
    Small(s.color.v2);
    Small(s.color.v3);
    Small(s.alpha.v0);
    Small(s.alpha.v1);
    Small(s.alpha.v2);
    Small(s.alpha.v3);
    SmallSwap(Nth(g.swaps, s.swapTexture));
    SmallSwap(Nth(g.swaps, s.swapRaster));
  }

  lemma Small(w: u32)
    ensures w <= 15 ==> Number(w) <= 15
    ensures w <= 7 ==> Number(w) <= 7
    ensures w <= 3 ==> Number(w) <= 3
  {
  }

  lemma SmallSwap(s: TevSwap)
    requires SwapAccepted(s)
    ensures Number(s.red) <= 3 && Number(s.green) <= 3 && Number(s.blue) <= 3 && Number(s.alpha) <= 3
  {
    hide Number;
    Small(s.red);
    Small(s.green);
    Small(s.blue);
    Small(s.alpha);
  }

  lemma StageResult(g: GxState, s: TevState, x: Inputs, m: Machine, e: Sources, z: Arguments)
    requires HeaderAccepted(g) && StageAccepted(g, s) && IsSources(e, g, s, x) && IsArguments(z, s, e, m.regs)
    ensures var after := DirectStep(g, m, s, x);
            && IsResult(after.result, z, s)
            && IsWritten(after.regs, m.regs, after.result, s.colorOp.out, s.alphaOp.out)
  {
    hide ByteColors, IsTexture, IsRaster, IsTable, IsSwizzled, IsKonst, IsColorArg, IsAlphaArg, Combined, Stored, Konst,
        DirectRaster, Texture, IsWritten, Nth, Component, Bytes24, UsesColor, UsesAlpha, Sampled, KonstAccepted;
    RasterOnly(g, s, x, e.raster);
    TextureOnly(g, s, x, e.texture);
    TableOnly(g, s.swapTexture, e.textureTable);
    TableOnly(g, s.swapRaster, e.rasterTable);
    KonstArguments(g, s, e, z, m.regs);
    SelectorRanges(g, s);
    var color, alpha := Konst(s.kcSel, ByteColors(g.kcolors)), Konst(s.kaSel, ByteColors(g.kcolors)).a;
    StageIsComponent(m.regs, Meaning(g, s), color, alpha, e.texture, e.raster, e.tex, e.ras, z.a, z.b, z.c, z.d,
                     z.aa, z.ab, z.ac, z.ad);
    Written(g, s, m.regs, DirectStep(g, m, s, x).result);
  }

  lemma Written(g: GxState, s: TevState, was: Four<Value>, result: Value)
    requires StageAccepted(g, s)
    ensures IsWritten(Stored(was, Meaning(g, s), result), was, result, s.colorOp.out, s.alphaOp.out)
  {
    hide Number, Nth, KonstAccepted, UsesColor, UsesAlpha;
    OutIs(s.colorOp.out);
    OutIs(s.alphaOp.out);
  }

  lemma OutIs(w: u32)
    ensures (Number(w) == 0 <==> w == 0) && (Number(w) == 1 <==> w == 1)
    ensures (Number(w) == 2 <==> w == 2) && (Number(w) == 3 <==> w == 3)
  {
    assert Number(0) == 0 && Number(1) == 1 && Number(2) == 2 && Number(3) == 3;
    SameNumber(w, 0);
    SameNumber(w, 1);
    SameNumber(w, 2);
    SameNumber(w, 3);
    hide Number;
  }

  lemma SameNumber(w: u32, k: u32)
    ensures Number(w) == Number(k) <==> w == k
  {
    assert Number(w) as bv32 == w;
  }

  /** A stage whose arguments name no texture does not depend on it. */
  lemma TextureUnread(g: GxState, s: TevState, regs: Four<Value>, konst: Value, alphaKonst: real, t: Value, u: Value,
                      raster: Value)
    requires StageAccepted(g, s) && !UsesTexture(s)
    ensures Combined(regs, Meaning(g, s), konst, alphaKonst, t, raster)
         == Combined(regs, Meaning(g, s), konst, alphaKonst, u, raster)
  {
    hide Eval, Wrap, Compare, Number, Swizzle, StageAccepted, UsesTexture, ColorArg, AlphaArg, OpMeaning, Nth;
    NamesNoTexture(s);
    var m := Meaning(g, s);
    var x, y, ras := Swizzle(t, m.texture), Swizzle(u, m.texture), Swizzle(raster, m.raster);
    ColorWithoutTexture(regs, m.color.v0, x, y, ras, konst);
    ColorWithoutTexture(regs, m.color.v1, x, y, ras, konst);
    ColorWithoutTexture(regs, m.color.v2, x, y, ras, konst);
    ColorWithoutTexture(regs, m.color.v3, x, y, ras, konst);
    AlphaWithoutTexture(regs, m.alpha.v0, x, y, ras, alphaKonst);
    AlphaWithoutTexture(regs, m.alpha.v1, x, y, ras, alphaKonst);
    AlphaWithoutTexture(regs, m.alpha.v2, x, y, ras, alphaKonst);
    AlphaWithoutTexture(regs, m.alpha.v3, x, y, ras, alphaKonst);
  }

  lemma ColorWithoutTexture(regs: Four<Value>, arg: nat, t: Value, u: Value, ras: Value, konst: Value)
    requires arg != 8 && arg != 9
    ensures ColorArg(regs, arg, t, ras, konst) == ColorArg(regs, arg, u, ras, konst)
  {
  }

  lemma AlphaWithoutTexture(regs: Four<Value>, arg: nat, t: Value, u: Value, ras: Value, konst: real)
    requires arg != 4
    ensures AlphaArg(regs, arg, t, ras, konst) == AlphaArg(regs, arg, u, ras, konst)
  {
  }

  lemma NamesNoTexture(s: TevState)
    requires !UsesTexture(s)
    ensures Number(s.color.v0) != 8 && Number(s.color.v0) != 9 && Number(s.color.v1) != 8 && Number(s.color.v1) != 9
    ensures Number(s.color.v2) != 8 && Number(s.color.v2) != 9 && Number(s.color.v3) != 8 && Number(s.color.v3) != 9
    ensures Number(s.alpha.v0) != 4 && Number(s.alpha.v1) != 4 && Number(s.alpha.v2) != 4 && Number(s.alpha.v3) != 4
  {
    ArgIs(s.color.v0);
    ArgIs(s.color.v1);
    ArgIs(s.color.v2);
    ArgIs(s.color.v3);
    ArgIs(s.alpha.v0);
    ArgIs(s.alpha.v1);
    ArgIs(s.alpha.v2);
    ArgIs(s.alpha.v3);
    hide Number;
  }

  lemma ArgIs(w: u32)
    ensures (Number(w) == 8 <==> w == 8) && (Number(w) == 9 <==> w == 9) && (Number(w) == 4 <==> w == 4)
  {
    assert Number(8) == 8 && Number(9) == 9 && Number(4) == 4;
    SameNumber(w, 8);
    SameNumber(w, 9);
    SameNumber(w, 4);
    hide Number;
  }

  // ----- the alpha test and the registers -----

  /** One half of the alpha test: never, less, equal, at most, greater, not equal, at least, always. */
  predicate IsPass(passed: bool, alpha: int, reference: int, comp: u32) {
    && (comp == 0 ==> !passed) && (comp == 1 ==> passed == (alpha < reference))
    && (comp == 2 ==> passed == (alpha == reference)) && (comp == 3 ==> passed == (alpha <= reference))
    && (comp == 4 ==> passed == (alpha > reference)) && (comp == 5 ==> passed == (alpha != reference))
    && (comp == 6 ==> passed == (alpha >= reference)) && (comp == 7 ==> passed)
  }

  /** The packed alpha test of a whole alpha: both halves over its low byte, joined by and, or, either-or, or both
      alike. */
  lemma AlphaKeeps(n: int, c: AlphaCompare, first: bool, second: bool)
    requires c.comp0 <= 7 && c.comp1 <= 7 && c.op <= 3 && c.ref0 <= 255 && c.ref1 <= 255
    requires IsPass(first, n % 256, Number(c.ref0), c.comp0) && IsPass(second, n % 256, Number(c.ref1), c.comp1)
    ensures var kept := AlphaTest(n as real, PackAlpha(c));
            && (c.op == 0 ==> kept == (first && second)) && (c.op == 1 ==> kept == (first || second))
            && (c.op == 2 ==> kept == (first != second)) && (c.op == 3 ==> kept == (first == second))
  {
    hide AlphaTest, PackAlpha, Number, AlphaByte, Wrap, Round, AlphaCompares;
    AlphaAgrees(n as real, c);
    ByteOfWhole(n);
    Compared(first, n % 256, Number(c.ref0), c.comp0);
    Compared(second, n % 256, Number(c.ref1), c.comp1);
    OutIs(c.op);
  }

  lemma ByteOfWhole(n: int)
    ensures AlphaByte(n as real) == n % 256
  {
    hide Wrap, Round;
    WrapInteger(n);
    RoundInteger(n % 256);
  }

  lemma Compared(passed: bool, alpha: int, reference: int, comp: u32)
    requires comp <= 7 && IsPass(passed, alpha, reference, comp)
    ensures AlphaCompares(alpha, reference, Number(comp)) == passed
  {
    hide Number;
    OutIs(comp);
    UpperIs(comp);
  }

  lemma UpperIs(w: u32)
    ensures (Number(w) == 4 <==> w == 4) && (Number(w) == 5 <==> w == 5)
    ensures (Number(w) == 6 <==> w == 6) && (Number(w) == 7 <==> w == 7)
  {
    assert Number(4) == 4 && Number(5) == 5 && Number(6) == 6 && Number(7) == 7;
    SameNumber(w, 4);
    SameNumber(w, 5);
    SameNumber(w, 6);
    SameNumber(w, 7);
    hide Number;
  }

  /** A recovered register value is whole and the nearest to 255 times the normalized one. */
  lemma RegisterBytes(v: Value)
    ensures var b := ByteColor(v);
            && Whole(b) && -0.5 <= b.r - 255.0 * v.r <= 0.5 && -0.5 <= b.g - 255.0 * v.g <= 0.5
            && -0.5 <= b.b - 255.0 * v.b <= 0.5 && -0.5 <= b.a - 255.0 * v.a <= 0.5
  {
    hide Round;
    Nearest(v.r * 255.0);
    Nearest(v.g * 255.0);
    Nearest(v.b * 255.0);
    Nearest(v.a * 255.0);
  }

  lemma Nearest(f: real)
    ensures -0.5 <= Round(f) as real - f <= 0.5
  {
  }

  // ----- fractions -----

  /** The nearest whole number, the even one of two. */
  predicate IsNearest(n: int, f: real) {
    -0.5 <= n as real - f <= 0.5 && (n as real - f == 0.5 || n as real - f == -0.5 ==> n % 2 == 0)
  }

  /** `r` is `f` limited to a byte or a register. */
  predicate RealLimits(r: real, f: real, clamp: bool) {
    var lo, hi := if clamp then 0.0 else -1024.0, if clamp then 255.0 else 1023.0;
    (f < lo ==> r == lo) && (f > hi ==> r == hi) && (lo <= f <= hi ==> r == f)
  }

  /** Sampled colours and constants have fractions: additions and subtractions round all four arguments first,
      comparisons none of what they add. */
  lemma EvalRounds(a: real, b: real, c: real, d: real, na: int, nb: int, nc: int, nd: int, o: Op, compare: bool)
    requires IsNearest(na, a) && IsNearest(nb, b) && IsNearest(nc, c) && IsNearest(nd, d)
    ensures o.op < 2 ==>
              RealLimits(Eval(a, b, c, d, o, compare), Regular(na, nb, nc, nd, o.op, o.bias, o.scale) as real, o.clamp)
    ensures 2 <= o.op < 14 ==> RealLimits(Eval(a, b, c, d, o, compare), d + if compare then c else 0.0, o.clamp)
    ensures o.op == 14 ==> RealLimits(Eval(a, b, c, d, o, compare), d + if na > nb then c else 0.0, o.clamp)
    ensures o.op == 15 ==> RealLimits(Eval(a, b, c, d, o, compare), d + if na == nb then c else 0.0, o.clamp)
  {
    hide Round, Regular;
    NearestOnly(na, a);
    NearestOnly(nb, b);
    NearestOnly(nc, c);
    NearestOnly(nd, d);
  }

  lemma NearestOnly(n: int, f: real)
    requires IsNearest(n, f)
    ensures Round(f) == n
  {
  }

  /** The packed comparison rounds the numbers that the first one, two or three lanes make, the third counting most. */
  lemma ComparesColors(x: Value, y: Value, m: int, n: int, op: nat)
    requires 8 <= op <= 13
    requires IsNearest(m, if op < 10 then x.r else if op < 12 then x.r + 256.0 * x.g
                          else x.r + 256.0 * x.g + 65536.0 * x.b)
    requires IsNearest(n, if op < 10 then y.r else if op < 12 then y.r + 256.0 * y.g
                          else y.r + 256.0 * y.g + 65536.0 * y.b)
    ensures Compare(x, y, op) == if op % 2 == 1 then m == n else m > n
  {
    hide Round;
    NearestOnly(m, Packed(x, op));
    NearestOnly(n, Packed(y, op));
  }
}
