/** Input selection and evaluation of a combiner stage (ps5/gpu/tev_stage.h). Values are in byte space, where a colour
    of one is 255; sampled colours keep fractions until an operation rounds them. */
module TevStage {
  import opened TevInteger

  datatype Value = Value(r: real, g: real, b: real, a: real)

  /** The four registers, swap tables or constant colours. */
  datatype Four<T> = Four(v0: T, v1: T, v2: T, v3: T) {
    function Pick(k: nat): T {
      if k == 0 then v0 else if k == 1 then v1 else if k == 2 then v2 else v3
    }
  }

  function Splat(f: real): Value {
    Value(f, f, f, f)
  }

  function Lane(v: Value, lane: nat): real {
    if lane == 0 then v.r else if lane == 1 then v.g else if lane == 2 then v.b else v.a
  }

  function Wrap(v: real): real {
    v - (v / 256.0).Floor as real * 256.0
  }

  /** To the nearest integer, ties to even. */
  function Round(v: real): int {
    var below := v.Floor;
    var rest := v - below as real;
    if rest < 0.5 || (rest == 0.5 && below % 2 == 0) then below else below + 1
  }

  lemma WrapRange(v: real)
    ensures 0.0 <= Wrap(v) < 256.0
  {
    var q := (v / 256.0).Floor;
    assert q as real <= v / 256.0 < q as real + 1.0;
  }

  lemma WrapInteger(n: int)
    ensures Wrap(n as real) == (n % 256) as real
  {
    var q := n / 256;
    assert n as real / 256.0 == q as real + (n % 256) as real / 256.0;
    assert (n as real / 256.0).Floor == q;
  }

  lemma RoundRange(v: real, lo: int, hi: int)
    requires lo as real <= v <= hi as real
    ensures lo <= Round(v) <= hi
  {
  }

  lemma RoundInteger(n: int)
    ensures Round(n as real) == n
  {
  }

  /** How an operation was set up. */
  datatype Op = Op(op: nat, bias: int, scale: nat, clamp: bool, out: nat)

  datatype Swap = Swap(red: nat, green: nat, blue: nat, alpha: nat)

  /** What a stage selects. */
  datatype Selected = Selected(color: Four<nat>, alpha: Four<nat>, colorOp: Op, alphaOp: Op, texture: Swap,
                               raster: Swap)

  function Swizzle(v: Value, s: Swap): Value {
    Value(Lane(v, s.red), Lane(v, s.green), Lane(v, s.blue), Lane(v, s.alpha))
  }

  function ColorArg(regs: Four<Value>, arg: nat, tex: Value, ras: Value, konst: Value): Value {
    if arg < 8 then
      var v := regs.Pick(arg / 2);
      if arg % 2 == 1 then Splat(v.a) else v
    else if arg == 8 then tex
    else if arg == 9 then Splat(tex.a)
    else if arg == 10 then ras
    else if arg == 11 then Splat(ras.a)
    else if arg == 12 then Splat(255.0)
    else if arg == 13 then Splat(127.5)
    else if arg == 14 then konst
    else Splat(0.0)
  }

  function AlphaArg(regs: Four<Value>, arg: nat, tex: Value, ras: Value, konst: real): real {
    if arg < 4 then regs.Pick(arg).a
    else if arg == 4 then tex.a
    else if arg == 5 then ras.a
    else if arg == 6 then konst
    else 0.0
  }

  function WrapAll(v: Value): Value {
    Value(Wrap(v.r), Wrap(v.g), Wrap(v.b), Wrap(v.a))
  }

  /** The colour as one number: one, two or three of its bytes. */
  function Packed(v: Value, op: nat): real {
    v.r + (if op >= 10 then v.g * 256.0 else 0.0) + if op >= 12 then v.b * 65536.0 else 0.0
  }

  function Compare(a: Value, b: Value, op: nat): bool {
    Passes(Round(Packed(a, op)), Round(Packed(b, op)), op)
  }

  function Bounded(v: real, clamp: bool): (r: real)
    ensures if clamp then 0.0 <= r <= 255.0 else -1024.0 <= r <= 1023.0
  {
    var lo, hi := if clamp then 0.0 else -1024.0, if clamp then 255.0 else 1023.0;
    if v < lo then lo else if v > hi then hi else v
  }

  function Eval(a: real, b: real, c: real, d: real, o: Op, compare: bool): (r: real)
    ensures -1024.0 <= r <= 1023.0
  {
    Bounded(if o.op < 2 then Regular(Round(a), Round(b), Round(c), Round(d), o.op, o.bias, o.scale) as real
            else d + if (if o.op >= 14 then Passes(Round(a), Round(b), o.op) else compare) then c else 0.0, o.clamp)
  }

  function Merge(was: Value, value: Value, rgb: bool, alpha: bool): Value {
    Value(if rgb then value.r else was.r, if rgb then value.g else was.g, if rgb then value.b else was.b,
          if alpha then value.a else was.a)
  }

  function Write(regs: Four<Value>, rgb: nat, alpha: nat, value: Value): Four<Value> {
    Four(Merge(regs.v0, value, rgb == 0, alpha == 0), Merge(regs.v1, value, rgb == 1, alpha == 1),
         Merge(regs.v2, value, rgb == 2, alpha == 2), Merge(regs.v3, value, rgb == 3, alpha == 3))
  }

  /** A stage over what it selects. The constant colour has one source for colour and one for alpha. */
  function Combined(regs: Four<Value>, s: Selected, colorKonst: Value, alphaKonst: real, texture: Value,
                    raster: Value): Value {
    var tex, ras := Swizzle(texture, s.texture), Swizzle(raster, s.raster);
    var ca := WrapAll(ColorArg(regs, s.color.v0, tex, ras, colorKonst));
    var cb := WrapAll(ColorArg(regs, s.color.v1, tex, ras, colorKonst));
    var cc := WrapAll(ColorArg(regs, s.color.v2, tex, ras, colorKonst));
    var cd := ColorArg(regs, s.color.v3, tex, ras, colorKonst);
    var compare := Compare(ca, cb, s.colorOp.op);
    Value(Eval(ca.r, cb.r, cc.r, cd.r, s.colorOp, compare),
          Eval(ca.g, cb.g, cc.g, cd.g, s.colorOp, compare),
          Eval(ca.b, cb.b, cc.b, cd.b, s.colorOp, compare),
          Eval(Wrap(AlphaArg(regs, s.alpha.v0, tex, ras, alphaKonst)),
               Wrap(AlphaArg(regs, s.alpha.v1, tex, ras, alphaKonst)),
               Wrap(AlphaArg(regs, s.alpha.v2, tex, ras, alphaKonst)), AlphaArg(regs, s.alpha.v3, tex, ras, alphaKonst),
               s.alphaOp, Compare(ca, cb, s.alphaOp.op)))
  }

  function Stored(regs: Four<Value>, s: Selected, value: Value): Four<Value> {
    Write(regs, s.colorOp.out, s.alphaOp.out, value)
  }

  /** The unconditional writes change exactly the lanes of the two destinations. */
  lemma WriteSelects(regs: Four<Value>, rgb: nat, alpha: nat, value: Value, k: nat, lane: nat)
    requires rgb < 4 && alpha < 4 && k < 4 && lane < 4
    ensures Lane(Write(regs, rgb, alpha, value).Pick(k), lane)
            == if k == (if lane == 3 then alpha else rgb) then Lane(value, lane) else Lane(regs.Pick(k), lane)
  {
  }

  predicate InBytes(v: Value) {
    0.0 <= v.r <= 255.0 && 0.0 <= v.g <= 255.0 && 0.0 <= v.b <= 255.0 && 0.0 <= v.a <= 255.0
  }

  predicate InRegister(v: Value) {
    && -1024.0 <= v.r <= 1023.0 && -1024.0 <= v.g <= 1023.0 && -1024.0 <= v.b <= 1023.0 && -1024.0 <= v.a <= 1023.0
  }

  predicate AllInRegister(regs: Four<Value>) {
    InRegister(regs.v0) && InRegister(regs.v1) && InRegister(regs.v2) && InRegister(regs.v3)
  }

  /** The inputs of the integer core are what `RegularFits` asks for. */
  predicate CoreInputs(a: real, b: real, c: real, d: real) {
    0 <= Round(a) <= 256 && 0 <= Round(b) <= 256 && 0 <= Round(c) <= 256 && -1024 <= Round(d) <= 1023
  }

  lemma CoreInputsHold(a: real, b: real, c: real, d: real)
    requires -1024.0 <= d <= 1023.0
    ensures CoreInputs(Wrap(a), Wrap(b), Wrap(c), d)
  {
    WrapRange(a);
    WrapRange(b);
    WrapRange(c);
    hide Wrap, Round;
    RoundRange(Wrap(a), 0, 256);
    RoundRange(Wrap(b), 0, 256);
    RoundRange(Wrap(c), 0, 256);
    RoundRange(d, -1024, 1023);
  }

  lemma ColorArgRange(regs: Four<Value>, arg: nat, tex: Value, ras: Value, konst: Value)
    requires AllInRegister(regs) && InBytes(tex) && InBytes(ras) && InBytes(konst)
    ensures InRegister(ColorArg(regs, arg, tex, ras, konst))
  {
  }

  lemma AlphaArgRange(regs: Four<Value>, arg: nat, tex: Value, ras: Value, konst: real)
    requires AllInRegister(regs) && InBytes(tex) && InBytes(ras) && 0.0 <= konst <= 255.0
    ensures -1024.0 <= AlphaArg(regs, arg, tex, ras, konst) <= 1023.0
  {
  }

  lemma SwizzleRange(v: Value, s: Swap)
    requires InBytes(v)
    ensures InBytes(Swizzle(v, s))
  {
  }

  /** A whole value is made of integers. */
  predicate Whole(v: Value) {
    v.r.Floor as real == v.r && v.g.Floor as real == v.g && v.b.Floor as real == v.b && v.a.Floor as real == v.a
  }

  /** The bytes of a wrapped whole colour as the integer path takes them. */
  function Bytes24(v: Value): int {
    v.r.Floor % 256 + 256 * (v.g.Floor % 256) + 65536 * (v.b.Floor % 256)
  }

  lemma PackedIsMasked(v: Value, op: nat)
    requires Whole(v)
    ensures Round(Packed(WrapAll(v), op)) == Bytes24(v) % Span(op)
  {
    hide Wrap, Round, Packed, Span;
    var r, g, b := v.r.Floor, v.g.Floor, v.b.Floor;
    WrapInteger(r);
    WrapInteger(g);
    WrapInteger(b);
    var n := Masked(r % 256, g % 256, b % 256, op);
    PackedWhole(WrapAll(v), r % 256, g % 256, b % 256, op);
    RoundInteger(n);
    MaskedBytes(r % 256, g % 256, b % 256, op);
  }

  /** The bytes a comparison looks at. */
  function Masked(x: int, y: int, z: int, op: nat): int {
    if op < 10 then x else if op < 12 then x + 256 * y else x + 256 * y + 65536 * z
  }

  lemma PackedWhole(v: Value, x: int, y: int, z: int, op: nat)
    requires v.r == x as real && v.g == y as real && v.b == z as real
    ensures Packed(v, op) == Masked(x, y, z, op) as real
  {
  }

  lemma MaskedBytes(x: int, y: int, z: int, op: nat)
    requires 0 <= x < 256 && 0 <= y < 256 && 0 <= z < 256
    ensures (x + 256 * y + 65536 * z) % Span(op) == Masked(x, y, z, op)
  {
    if op < 10 {
      assert x + 256 * y + 65536 * z == x + 256 * (y + 256 * z);
    }
  }

  /** On whole inputs the stage evaluates exactly what the integer component does: every operation, the packed
      comparisons of one, two and three bytes included. */
  lemma EvalIsComponent(a: int, b: int, c: int, d: int, ca: Value, cb: Value, o: Op)
    requires Whole(ca) && Whole(cb)
    ensures Eval(Wrap(a as real), Wrap(b as real), Wrap(c as real), d as real, o,
                 Compare(WrapAll(ca), WrapAll(cb), o.op))
            == Component(a, b, c, d, Bytes24(ca), Bytes24(cb), o.op, o.bias, o.scale, o.clamp) as real
  {
    hide Wrap, Round, Regular, WrapAll, Packed, Passes, Bytes24, Span, Whole, Eval, Clamped;
    WrapInteger(a);
    WrapInteger(b);
    WrapInteger(c);
    RoundInteger(a % 256);
    RoundInteger(b % 256);
    RoundInteger(c % 256);
    RoundInteger(d);
    PackedIsMasked(ca, o.op);
    PackedIsMasked(cb, o.op);
    EvalWhole(a % 256, b % 256, c % 256, d, o, Compare(WrapAll(ca), WrapAll(cb), o.op));
  }

  lemma EvalWhole(a: int, b: int, c: int, d: int, o: Op, compare: bool)
    ensures Eval(a as real, b as real, c as real, d as real, o, compare)
            == Clamped(if o.op < 2 then Regular(a, b, c, d, o.op, o.bias, o.scale)
                       else d + if (if o.op < 14 then compare else Passes(a, b, o.op)) then c else 0, o.clamp) as real
  {
    hide Round, Regular, Passes;
    RoundInteger(a);
    RoundInteger(b);
    RoundInteger(c);
    RoundInteger(d);
  }

  predicate SameColor(v: Value, w: Value) {
    v.r == w.r && v.g == w.g && v.b == w.b
  }

  /** A stage that reads no constant does not depend on it, and no stage reads the alpha of the colour's constant. */
  lemma KonstUnread(regs: Four<Value>, s: Selected, k0: Value, k1: Value, a0: real, a1: real, texture: Value,
                    raster: Value)
    requires s.color.v0 == 14 || s.color.v1 == 14 || s.color.v2 == 14 || s.color.v3 == 14 ==> SameColor(k0, k1)
    requires s.alpha.v0 == 6 || s.alpha.v1 == 6 || s.alpha.v2 == 6 || s.alpha.v3 == 6 ==> a0 == a1
    ensures Combined(regs, s, k0, a0, texture, raster) == Combined(regs, s, k1, a1, texture, raster)
  {
    hide ColorArg, AlphaArg, Swizzle, Eval, Wrap, Compare;
    var tex, ras := Swizzle(texture, s.texture), Swizzle(raster, s.raster);
    ColorUnread(regs, s.color.v0, tex, ras, k0, k1);
    ColorUnread(regs, s.color.v1, tex, ras, k0, k1);
    ColorUnread(regs, s.color.v2, tex, ras, k0, k1);
    ColorUnread(regs, s.color.v3, tex, ras, k0, k1);
    AlphaUnread(regs, s.alpha.v0, tex, ras, a0, a1);
    AlphaUnread(regs, s.alpha.v1, tex, ras, a0, a1);
    AlphaUnread(regs, s.alpha.v2, tex, ras, a0, a1);
    AlphaUnread(regs, s.alpha.v3, tex, ras, a0, a1);
    CompareUnread(ColorArg(regs, s.color.v0, tex, ras, k0), ColorArg(regs, s.color.v0, tex, ras, k1),
                  ColorArg(regs, s.color.v1, tex, ras, k0), ColorArg(regs, s.color.v1, tex, ras, k1));
  }

  lemma CompareUnread(a0: Value, a1: Value, b0: Value, b1: Value)
    requires SameColor(a0, a1) && SameColor(b0, b1)
    ensures forall op :: Compare(WrapAll(a0), WrapAll(b0), op) == Compare(WrapAll(a1), WrapAll(b1), op)
  {
    hide Wrap, Round, Passes;
  }

  lemma ColorUnread(regs: Four<Value>, arg: nat, tex: Value, ras: Value, k0: Value, k1: Value)
    requires arg == 14 ==> SameColor(k0, k1)
    ensures SameColor(ColorArg(regs, arg, tex, ras, k0), ColorArg(regs, arg, tex, ras, k1))
  {
  }

  lemma AlphaUnread(regs: Four<Value>, arg: nat, tex: Value, ras: Value, a0: real, a1: real)
    requires arg == 6 ==> a0 == a1
    ensures AlphaArg(regs, arg, tex, ras, a0) == AlphaArg(regs, arg, tex, ras, a1)
  {
  }
}
