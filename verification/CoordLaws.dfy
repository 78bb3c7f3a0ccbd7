/** A stage's texture coordinates in plain arithmetic (ps5/gpu/shaders/tev_direct_probe.c): coordinates are 24-bit
    numbers in units of 1/128 texel. */
module CoordLaws {
  import opened TevProgram
  import opened TevCoords

  /** `q` is `v` divided by `d`, rounded down. */
  predicate Down(q: int, v: int, d: int) {
    q * d <= v < q * d + d
  }

  /** `r` is `v` as a signed 24-bit number. */
  predicate Signed24(r: int, v: int) {
    -8388608 <= r < 8388608 && (r - v) % 16777216 == 0
  }

  /** Wrapping repeats the texture after 256, 128, 64, 32 or 16 texels; 0 does not wrap, and 6 or more leaves nothing.
      */
  predicate Repeats(r: int, v: int, wrap: int) {
    && (wrap == 0 ==> r == v)
    && (wrap == 1 ==> 0 <= r < 256 * 128 && (r - v) % (256 * 128) == 0)
    && (wrap == 2 ==> 0 <= r < 128 * 128 && (r - v) % (128 * 128) == 0)
    && (wrap == 3 ==> 0 <= r < 64 * 128 && (r - v) % (64 * 128) == 0)
    && (wrap == 4 ==> 0 <= r < 32 * 128 && (r - v) % (32 * 128) == 0)
    && (wrap == 5 ==> 0 <= r < 16 * 128 && (r - v) % (16 * 128) == 0)
    && (wrap >= 6 ==> r == 0)
  }

  /** `r` is `v` shifted right by `shift`, or left by minus that. */
  predicate ShiftedBy(r: int, v: int, shift: int) {
    if shift >= 0 then Down(r, v, Power2(shift)) else r == v * Power2(-shift)
  }

  /** An indirect byte: its upper 8, 5, 4 or 3 bits, and a bias of -128 for whole bytes and of 1 otherwise. */
  predicate ByteOf(r: int, v: int, format: u32, biased: bool) {
    var bias := if !biased then 0 else if format == 0 then -128 else 1;
    && (format == 0 ==> r == v + bias)
    && (format == 1 ==> Down(r - bias, v, 8))
    && (format == 2 ==> Down(r - bias, v, 16))
    && (format == 3 ==> Down(r - bias, v, 32))
  }

  function WrappedBy(v: int, wrap: nat): int {
    if wrap == 0 then v
    else if wrap == 1 then v % 0x8000
    else if wrap == 2 then v % 0x4000
    else if wrap == 3 then v % 0x2000
    else if wrap == 4 then v % 0x1000
    else if wrap == 5 then v % 0x800
    else 0
  }

  lemma WrapNumber(v: int, wrap: u32)
    ensures Wrapped(v, wrap) == WrappedBy(v, Number(wrap))
  {
  }

  lemma Wraps256(v: int)
    ensures Repeats(v % 0x8000, v, 1)
  {
  }

  lemma Wraps128(v: int)
    ensures Repeats(v % 0x4000, v, 2)
  {
  }

  lemma Wraps64(v: int)
    ensures Repeats(v % 0x2000, v, 3)
  {
  }

  lemma Wraps32(v: int)
    ensures Repeats(v % 0x1000, v, 4)
  {
  }

  lemma Wraps16(v: int)
    ensures Repeats(v % 0x800, v, 5)
  {
  }

  /** `indirect_wrap` repeats with its period. */
  lemma Wraps(v: int, wrap: u32)
    ensures Repeats(Wrapped(v, wrap), v, Number(wrap))
  {
    WrapNumber(v, wrap);
    var n := Number(wrap);
    if n == 0 || n >= 6 {
      hide Number, Wrapped;
      return;
    }
    hide *;
    assert n in {1, 2, 3, 4, 5};
    Wraps256(v);
    Wraps128(v);
    Wraps64(v);
    Wraps32(v);
    Wraps16(v);
    WrappedAre(v);
  }

  lemma WrappedAre(v: int)
    ensures WrappedBy(v, 1) == v % 0x8000 && WrappedBy(v, 2) == v % 0x4000 && WrappedBy(v, 3) == v % 0x2000
    ensures WrappedBy(v, 4) == v % 0x1000 && WrappedBy(v, 5) == v % 0x800
  {
  }

  /** `s24_wrap` keeps the low 24 bits and their sign. */
  lemma Wraps24(v: int)
    ensures Signed24(Wrap24(v), v)
  {
  }

  /** Powers of two. */
  lemma {:induction false} PowerIs(n: nat, m: nat)
    ensures Power2(0) == 1 && Power2(1) == 2 && Power2(n + m) == Power2(n) * Power2(m)
  {
    if n > 0 {
      PowerIs(n - 1, m);
      assert Power2(n + m) == 2 * (Power2(n - 1) * Power2(m));
    }
    assert Power2(1) == 2 * Power2(0);
  }

  lemma DividesDown(v: int, d: int)
    requires d > 0
    ensures Down(v / d, v, d)
  {
  }

  lemma Shifts(v: int, shift: int)
    ensures ShiftedBy(Shifted(v, shift), v, shift)
  {
    if shift >= 0 {
      DividesDown(v, Power2(shift));
      hide Down, Power2;
    }
  }

  lemma Biases(v: int, format: u32, biased: bool)
    ensures Number(format) <= 3 ==> ByteOf(Biased(v, format, biased), v, format, biased)
  {
    assert Number(format) <= 3 ==> format in {0, 1, 2, 3};
    hide Number;
  }

  /** What an indirect stage adds: a row of the matrix times the sample divided by eight, or the coordinate times one
      byte of the sample divided by 256, then shifted by the matrix's own exponent. */
  predicate OffsetBy(o: Pair, matrices: u32 -> Matrix, matrix: u32, at: Pair, s: int, t: int, u: int, first: int,
                 second: int) {
    && (matrix == 1 || matrix == 2 || matrix == 3 ==>
          var m := matrices(matrix - 1);
          && Down(first, m.first.s * s + m.first.t * t + m.first.u * u, 8)
          && Down(second, m.second.s * s + m.second.t * t + m.second.u * u, 8)
          && ShiftedBy(o.s, first, m.shift) && ShiftedBy(o.t, second, m.shift))
    && (matrix == 5 || matrix == 6 || matrix == 7 ==>
          var m := matrices(matrix - 5);
          && Down(first, at.s * s, 256) && Down(second, at.t * s, 256)
          && ShiftedBy(o.s, first, m.shift) && ShiftedBy(o.t, second, m.shift))
    && (matrix == 9 || matrix == 10 || matrix == 11 ==>
          var m := matrices(matrix - 9);
          && Down(first, at.s * t, 256) && Down(second, at.t * t, 256)
          && ShiftedBy(o.s, first, m.shift) && ShiftedBy(o.t, second, m.shift))
  }

  /** The offsets of an indirect stage, from the three bytes of its sample. */
  lemma OffsetsAre(matrices: u32 -> Matrix, matrix: u32, format: u32, bias: u32, at: Pair, x: TevCoords.Inputs)
      returns (s: int, t: int, u: int, first: int, second: int)
    requires Number(format) <= 3
    ensures ByteOf(s, x.s, format, bias & 1 != 0) && ByteOf(t, x.t, format, bias & 2 != 0)
    ensures ByteOf(u, x.u, format, bias & 4 != 0)
    ensures OffsetBy(Offsets(matrices, matrix, format, bias, at, x), matrices, matrix, at, s, t, u, first, second)
  {
    hide ByteOf, Biased, OffsetBy, Offsets;
    s, t, u := Biased(x.s, format, bias & 1 != 0), Biased(x.t, format, bias & 2 != 0),
        Biased(x.u, format, bias & 4 != 0);
    Biases(x.s, format, bias & 1 != 0);
    Biases(x.t, format, bias & 2 != 0);
    Biases(x.u, format, bias & 4 != 0);
    first, second := Quotients(matrices, matrix, format, bias, at, x, s, t, u);
  }

  lemma Quotients(matrices: u32 -> Matrix, matrix: u32, format: u32, bias: u32, at: Pair, x: TevCoords.Inputs, s: int,
                  t: int,
                  u: int)
      returns (first: int, second: int)
    requires s == Biased(x.s, format, bias & 1 != 0) && t == Biased(x.t, format, bias & 2 != 0)
    requires u == Biased(x.u, format, bias & 4 != 0)
    ensures OffsetBy(Offsets(matrices, matrix, format, bias, at, x), matrices, matrix, at, s, t, u, first, second)
  {
    hide Biased, Shifted, ShiftedBy;
    if matrix <= 3 {
      var m := matrices(matrix - 1);
      first, second := Times(m.first, s, t, u) / 8, Times(m.second, s, t, u) / 8;
      Shifts(first, m.shift);
      Shifts(second, m.shift);
    } else {
      var m := matrices(if matrix <= 7 then matrix - 5 else matrix - 9);
      var factor := if matrix <= 7 then s else t;
      first, second := at.s * factor / 256, at.t * factor / 256;
      Shifts(first, m.shift);
      Shifts(second, m.shift);
    }
  }

  /** A stage's coordinates: wrapped, plus the indirect offset, plus the stage before's if it adds those, in 24 bits. */
  predicate IsStage(r: Pair, at: Pair, wrapS: nat, wrapT: nat, offset: Pair, added: Pair, s: int, t: int) {
    && Repeats(s, at.s, wrapS) && Repeats(t, at.t, wrapT)
    && Signed24(r.s, s + offset.s + added.s) && Signed24(r.t, t + offset.t + added.t)
  }

  /** The stage names coordinates that are generated; any other number means the first ones. */
  predicate Generated(g: GxState, coord: u32) {
    coord < 8 && Number(coord) < g.texGens
  }

  /** The stage has an indirect sample and a matrix for it. */
  predicate HasOffset(g: GxState, st: TevState) {
    Less(st.raster.stage, g.indirects) && st.coords.matrix != 0
  }

  predicate Less(k: u32, n: u32) {
    k < n
  }

  lemma BelowIsLess(k: u32, n: u32)
    ensures Below(k, n) <==> Less(k, n)
  {
  }

  lemma OffsetUsed(g: GxState, st: TevState)
    ensures Below(st.raster.stage, g.indirects) && st.coords.matrix != 0 <==> HasOffset(g, st)
  {
    hide Below, Less;
    BelowIsLess(st.raster.stage, g.indirects);
  }

  /** A stage of the state's own meaning: which coordinates it starts from, and when it adds an indirect offset. */
  lemma EagerIs(g: GxState, matrices: u32 -> Matrix, st: TevState, previous: Pair, x: TevCoords.Inputs)
      returns (at: Pair, offset: Pair)
    ensures EagerStep(g, matrices, st, previous, x)
         == Operated(at, st.coords.wrapS, st.coords.wrapT, offset, if st.coords.addPrev then previous else Pair(0, 0))
    ensures g.texGens == 0 ==> at == Pair(0, 0)
    ensures g.texGens > 0 ==>
              && Signed24(at.s, x.generated(if Generated(g, st.texCoord) then st.texCoord else 0).s)
              && Signed24(at.t, x.generated(if Generated(g, st.texCoord) then st.texCoord else 0).t)
    ensures offset == if HasOffset(g, st)
                then Offsets(matrices, st.coords.matrix, st.raster.format, st.coords.bias, at, x) else Pair(0, 0)
  {
    at := if g.texGens > 0 then WrapPair(x.generated(EffectiveCoord(g, st.texCoord))) else Pair(0, 0);
    offset := if HasOffset(g, st)
        then Offsets(matrices, st.coords.matrix, st.raster.format, st.coords.bias, at, x) else Pair(0, 0);
    OffsetUsed(g, st);
    hide Offsets, EffectiveCoord, WrapPair, Signed24, Number, Operated, Below, HasOffset, Generated;
    if g.texGens > 0 {
      GeneratedIs(g, st.texCoord, x);
    }
  }

  lemma GeneratedIs(g: GxState, coord: u32, x: TevCoords.Inputs)
    requires g.texGens > 0
    ensures var r, own := WrapPair(x.generated(EffectiveCoord(g, coord))), Generated(g, coord);
            && Signed24(r.s, x.generated(if own then coord else 0).s)
            && Signed24(r.t, x.generated(if own then coord else 0).t)
  {
    hide Wrap24, Signed24, Number;
    var c := EffectiveCoord(g, coord);
    Wraps24(x.generated(c).s);
    Wraps24(x.generated(c).t);
  }

  /** What the operation at the end of a stage makes of them. */
  lemma OperatedIs(at: Pair, wrapS: u32, wrapT: u32, offset: Pair, added: Pair) returns (s: int, t: int)
    ensures IsStage(Operated(at, wrapS, wrapT, offset, added), at, Number(wrapS), Number(wrapT), offset, added, s, t)
  {
    hide Wrapped, Wrap24, Signed24, Repeats, Number;
    s, t := Wrapped(at.s, wrapS), Wrapped(at.t, wrapT);
    Wraps(at.s, wrapS);
    Wraps(at.t, wrapT);
    Wraps24(s + offset.s + added.s);
    Wraps24(t + offset.t + added.t);
  }
}
