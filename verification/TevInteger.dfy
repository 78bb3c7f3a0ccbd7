/** One component of the texture environment combiner in integers (ps5/gpu/tev_integer.h). */
module TevInteger {

  const SUB: nat := 1

  function Factor(scale: nat): int {
    if scale == 1 then 2 else if scale == 2 then 4 else 1
  }

  /** The weight of `b` out of 256: full at 255, where the combiner calls the colour one. */
  function Weight(c: int): int {
    c + c / 128
  }

  function Interpolation(a: int, b: int, c: int, scale: nat): int {
    (a * 256 + (b - a) * Weight(c)) * Factor(scale)
  }

  function Rounding(op: nat, scale: nat): int {
    if scale == 3 then 0 else if op == SUB then 127 else 128
  }

  function Lerp(a: int, b: int, c: int, op: nat, scale: nat): int {
    (Interpolation(a, b, c, scale) + Rounding(op, scale)) / 256
  }

  function Regular(a: int, b: int, c: int, d: int, op: nat, bias: int, scale: nat): int {
    var lerp := Lerp(a, b, c, op, scale);
    var result := (d + bias) * Factor(scale) + if op == SUB then -lerp else lerp;
    if scale == 3 then result / 2 else result
  }

  function Clamped(n: int, clamp: bool): (r: int)
    ensures if clamp then 0 <= r <= 255 else -1024 <= r <= 1023
    ensures (if clamp then 0 <= n <= 255 else -1024 <= n <= 1023) ==> r == n
  {
    var lo, hi := if clamp then 0 else -1024, if clamp then 255 else 1023;
    if n < lo then lo else if n > hi then hi else n
  }

  /** How many bytes of the colours a packed comparison looks at, as a number to divide by. */
  function Span(op: nat): (m: int)
    ensures m > 0
  {
    if op < 10 then 256 else if op < 12 then 65536 else 16777216
  }

  function Passes(lhs: int, rhs: int, op: nat): bool {
    if op % 2 == 1 then lhs == rhs else lhs > rhs
  }

  function Component(a: int, b: int, c: int, d: int, colorA: int, colorB: int, op: nat, bias: int, scale: nat,
                     clamp: bool): int {
    var x, y, z := a % 256, b % 256, c % 256;
    Clamped(if op < 2 then Regular(x, y, z, d, op, bias, scale)
            else d + if (if op < 14 then Passes(colorA % Span(op), colorB % Span(op), op) else Passes(x, y, op)) then z
                else 0, clamp)
  }

  /** The ends of the interpolation are exact whatever the rounding: 0 gives `a` and 255 gives `b`. */
  lemma LerpEnds(a: int, b: int, op: nat, scale: nat)
    ensures Lerp(a, b, 0, op, scale) == a * Factor(scale)
    ensures Lerp(a, b, 255, op, scale) == b * Factor(scale)
  {
    assert Interpolation(a, b, 0, scale) == 256 * (a * Factor(scale));
    assert Interpolation(a, b, 255, scale) == 256 * (b * Factor(scale));
  }

  lemma Product(x: int, w: int, lo: int, hi: int)
    requires 0 <= w <= 256 && lo <= 0 <= hi && lo <= x <= hi
    ensures lo * 256 <= x * w <= hi * 256
  {
    if x >= 0 {
      assert 0 <= x * w <= x * 256;
    } else {
      assert x * 256 <= x * w <= 0;
    }
  }

  /** In between it stays between. */
  lemma LerpBetween(a: int, b: int, c: int, op: nat, scale: nat)
    requires 0 <= c <= 255
    ensures (if a <= b then a else b) * Factor(scale) <= Lerp(a, b, c, op, scale)
        <= (if a <= b then b else a) * Factor(scale)
  {
    var lo, hi := if a <= b then a else b, if a <= b then b else a;
    Product(b - a, Weight(c), if b < a then b - a else 0, if b > a then b - a else 0);
    var n := a * 256 + (b - a) * Weight(c);
    assert lo * 256 <= n <= hi * 256;
    assert 256 * (lo * Factor(scale)) <= Interpolation(a, b, c, scale) <= 256 * (hi * Factor(scale));
  }

  predicate Fits(n: int) {
    -0x8000_0000 <= n < 0x8000_0000
  }

  /** With inputs that rounding may have taken to 256, every intermediate value is a 32-bit integer. */
  lemma RegularFits(a: int, b: int, c: int, d: int, op: nat, bias: int, scale: nat)
    requires 0 <= a <= 256 && 0 <= b <= 256 && 0 <= c <= 256 && -1024 <= d <= 1023 && -128 <= bias <= 128
    ensures Fits(a * 256) && Fits(Weight(c)) && Fits((b - a) * Weight(c)) && Fits(a * 256 + (b - a) * Weight(c))
    ensures Fits(Interpolation(a, b, c, scale)) && Fits(Interpolation(a, b, c, scale) + Rounding(op, scale))
    ensures Fits((d + bias) * Factor(scale)) && -0x10_0000 < Regular(a, b, c, d, op, bias, scale) < 0x10_0000
  {
    Weighted(b - a, c);
    hide Weight;
    var n, f := a * 256 + (b - a) * Weight(c), Factor(scale);
    assert -70000 <= n <= 140000;
    assert Interpolation(a, b, c, scale) == n * f && -280000 <= n * f <= 560000;
  }

  lemma Weighted(x: int, c: int)
    requires -256 <= x <= 256 && 0 <= c <= 256
    ensures 0 <= Weight(c) <= 258 && -66048 <= x * Weight(c) <= 66048
  {
    WeightRange(c);
    hide Weight;
    ProductRange(x, Weight(c));
  }

  lemma WeightRange(c: int)
    requires 0 <= c <= 256
    ensures 0 <= Weight(c) <= 258
  {
  }

  lemma ProductRange(x: int, w: int)
    requires -256 <= x <= 256 && 0 <= w <= 258
    ensures -256 * w <= x * w <= 256 * w
  {
    NotNegative(x + 256, w);
    NotNegative(256 - x, w);
    assert (x + 256) * w == x * w + 256 * w && (256 - x) * w == 256 * w - x * w;
  }

  lemma NotNegative(x: int, y: int)
    requires x >= 0 && y >= 0
    ensures x * y >= 0
  {
  }
}
