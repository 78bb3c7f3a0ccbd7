/** Address bits of tiled surfaces: the offset of a 4-byte texel inside its 64 KiB block
    (ps5/gpu/texture_layout.cpp, ps5/gpu/gx_depth_offset.h). */
module TileBits {

  // ----- Word operations -----

  function Half(b: bv32): bv32 {
    b >> 1
  }

  function Low(b: bv32): bv32 {
    b & 1
  }

  /** A word with one more low bit. */
  function Push(w: bv32, b: bv32): bv32 {
    (w << 1) | b
  }

  function Seven(b: bv32): bv32 {
    b & 127
  }

  function And(b: bv32, m: bv32): bv32 {
    b & m
  }

  function Nibble(b: bv32): bv32 {
    b >> 4
  }

  lemma PopPush(b: bv32)
    ensures Push(Half(b), Low(b)) == b
    ensures Low(b) == 0 || Low(b) == 1
  {
  }

  lemma HalfOfZero()
    ensures Half(0) == 0 && Low(0) == 0 && Push(0, 0) == 0
  {
  }

  lemma HalfSmaller(b: bv32)
    requires b != 0
    ensures Half(b) < b
  {
  }

  lemma HalfFour(b: bv32)
    ensures Half(Half(Half(Half(b)))) == Nibble(b)
  {
  }

  lemma NibblesEnd(b: bv32)
    requires b <= 0xFFFF
    ensures Nibble(Nibble(Nibble(Nibble(b)))) == 0
  {
  }

  lemma AndPush(w: bv32, m: bv32, b: bv32)
    requires b == 0 || b == 1
    ensures And(Push(w, b), Push(m, 1)) == Push(And(w, m), b)
  {
  }

  lemma PushInjective(w: bv32, b: bv32, z: bv32, c: bv32)
    requires Seven(w) == w && Seven(z) == z && (b == 0 || b == 1) && (c == 0 || c == 1)
    requires Push(w, b) == Push(z, c)
    ensures w == z && b == c
  {
  }

  // ----- Words as numbers -----

  function Bit(b: bv32): nat {
    if Low(b) == 0 then 0 else 1
  }

  function BitWord(n: nat): bv32 {
    if n % 2 == 0 then 0 else 1
  }

  /** The number a word stands for. */
  function Value(b: bv32): nat {
    if b == 0 then 0 else HalfSmaller(b); 2 * Value(Half(b)) + Bit(b)
  }

  /** The word of a number, its 32 low bits. */
  function Word(n: nat): bv32 {
    if n == 0 then 0 else Push(Word(n / 2), BitWord(n))
  }

  lemma ValueStep(b: bv32)
    ensures Value(b) == 2 * Value(Half(b)) + Bit(b)
  {
    HalfOfZero();
    hide Half, Low, Push;
  }

  lemma WordStep(n: nat)
    ensures Word(n) == Push(Word(n / 2), BitWord(n)) && (BitWord(n) == 0 || BitWord(n) == 1)
  {
    HalfOfZero();
    hide Half, Low, Push;
  }

  lemma BitOfValue(v: nat, b: bv32)
    requires Low(b) == 0 || Low(b) == 1
    ensures (2 * v + Bit(b)) / 2 == v && BitWord(2 * v + Bit(b)) == Low(b)
  {
    hide Low;
  }

  /** A word is the word of its number. */
  lemma {:induction false} WordOfValue(b: bv32)
    ensures Word(Value(b)) == b
    decreases Value(b)
  {
    hide Half, Low, Push, Word, Bit, BitWord;
    if b == 0 {
      WordOfNone();
    } else {
      PopPush(b);
      ValueStep(b);
      HalfValue(b);
      hide Value;
      WordOfValue(Half(b));
      WordStep(Value(b));
      BitOfValue(Value(Half(b)), b);
    }
  }

  lemma WordOfNone()
    ensures Value(0) == 0 && Word(0) == 0
  {
  }

  lemma {:induction false} HalfValue(b: bv32)
    requires b != 0
    ensures Value(Half(b)) < Value(b)
  {
    ValueStep(b);
    PopPush(b);
    HalfOfZero();
    hide Half, Low, Push;
    if Half(b) != 0 {
      HalfSmaller(b);
      HalfValue(Half(b));
    }
  }

  // ----- Ranges -----

  function Two(k: nat): (r: nat)
    ensures r >= 1
  {
    if k == 0 then 1 else 2 * Two(k - 1)
  }

  /** Nothing is left of the word behind its `k` low bits. */
  predicate Fits(b: bv32, k: nat) {
    if k == 0 then b == 0 else Fits(Half(b), k - 1)
  }

  /** A word of `k` bits stands for a number below `Two(k)`. */
  lemma {:induction false} ValueBelow(b: bv32, k: nat)
    requires Fits(b, k)
    ensures Value(b) < Two(k)
    decreases k
  {
    hide Half, Low, Push;
    if k > 0 {
      ValueStep(b);
      hide Value;
      ValueBelow(Half(b), k - 1);
    }
  }

  lemma FitsOne(b: bv32, k: nat)
    requires Fits(Half(b), k)
    ensures Fits(b, k + 1)
  {
    hide Half;
  }

  lemma FitsMore(b: bv32, k: nat)
    requires Fits(Nibble(b), k)
    ensures Fits(b, k + 4)
  {
    hide *;
    HalfFour(b);
    FitsOne(Half(Half(Half(b))), k);
    FitsOne(Half(Half(b)), k + 1);
    FitsOne(Half(b), k + 2);
    FitsOne(b, k + 3);
  }

  lemma ValueOfSixteen(b: bv32)
    requires b <= 0xFFFF
    ensures Value(b) < 65536
  {
    assert Two(4) == 16 && Two(8) == 256 && Two(12) == 4096 && Two(16) == 65536;
    assert Fits(0, 0);
    hide *;
    NibblesEnd(b);
    FitsMore(Nibble(Nibble(Nibble(b))), 0);
    FitsMore(Nibble(Nibble(b)), 4);
    FitsMore(Nibble(b), 8);
    FitsMore(b, 12);
    ValueBelow(b, 16);
  }

  // ----- Seven low bits -----

  /** The `k` lowest bits. */
  function Mask(k: nat): bv32 {
    if k == 0 then 0 else Push(Mask(k - 1), 1)
  }

  lemma AtLeastOne(a: int, d: nat)
    requires a >= 1
    ensures a * d >= d
  {
  }

  lemma Unique(n: nat, d: nat, q: nat, r: nat)
    requires d > 0 && n == q * d + r && r < d
    ensures n / d == q && n % d == r
  {
    var p, s := n / d, n % d;
    assert (p - q) * d == r - s;
    if p > q {
      AtLeastOne(p - q, d);
    } else if p < q {
      AtLeastOne(q - p, d);
    }
  }

  lemma HalfOfRemainder(n: nat, t: nat)
    requires t >= 1
    ensures n % (2 * t) / 2 == n / 2 % t && n % (2 * t) % 2 == n % 2
  {
    var q, r := n / 2 / t, n / 2 % t;
    assert n == q * (2 * t) + (2 * r + n % 2);
    Unique(n, 2 * t, q, 2 * r + n % 2);
  }

  lemma SameBit(n: nat, m: nat)
    ensures BitWord(n) == BitWord(m) <==> n % 2 == m % 2
  {
  }

  /** One more low bit of a word and of the remainder. */
  lemma LowBitsStep(n: nat, k: nat, t: nat)
    requires t >= 1 && And(Word(n / 2), Mask(k)) == Word(n / 2 % t)
    ensures And(Word(n), Mask(k + 1)) == Word(n % (2 * t))
  {
    assert Mask(k + 1) == Push(Mask(k), 1);
    hide *;
    HalfOfRemainder(n, t);
    WordStep(n);
    WordStep(n % (2 * t));
    SameBit(n, n % (2 * t));
    AndPush(Word(n / 2), Mask(k), BitWord(n));
  }

  lemma MaskOfSeven()
    ensures Mask(7) == 127 && Mask(0) == 0
  {
    assert Mask(1) == 1 && Mask(2) == 3 && Mask(3) == 7;
    assert Mask(4) == 15 && Mask(5) == 31 && Mask(6) == 63;
  }

  lemma NoBits(n: nat)
    ensures And(Word(n), 0) == Word(0)
  {
    assert Word(0) == 0;
    hide Word;
  }

  lemma AndSeven(b: bv32)
    ensures And(b, 127) == Seven(b) && Seven(Seven(b)) == Seven(b)
  {
  }

  /** The seven low bits of a word are the word of the remainder by 128. */
  lemma SevenBits(n: nat)
    ensures Seven(Word(n)) == Word(n % 128) && Seven(Word(n % 128)) == Word(n % 128)
  {
    hide *;
    var h1 := n / 2;
    var h2 := h1 / 2;
    var h3 := h2 / 2;
    var h4 := h3 / 2;
    var h5 := h4 / 2;
    var h6 := h5 / 2;
    NoBits(h6 / 2);
    MaskOfSeven();
    assert h6 / 2 % 1 == 0;
    LowBitsStep(h6, 0, 1);
    LowBitsStep(h5, 1, 2);
    LowBitsStep(h4, 2, 4);
    LowBitsStep(h3, 3, 8);
    LowBitsStep(h2, 4, 16);
    LowBitsStep(h1, 5, 32);
    LowBitsStep(n, 6, 64);
    AndSeven(Word(n));
  }

  lemma SevenOfSmall(n: nat)
    requires n < 128
    ensures Seven(Word(n)) == Word(n)
  {
    hide *;
    SevenBits(n);
    assert n % 128 == n;
  }

  lemma SmallStep(n: nat, m: nat, a: nat, b: nat)
    requires n < 128 && m < 128 && Word(n) == Word(m) && a == n / 2 && b == m / 2
    ensures Word(a) == Word(b) && n % 2 == m % 2
  {
    hide *;
    WordStep(n);
    WordStep(m);
    SevenOfSmall(a);
    SevenOfSmall(b);
    SameBit(n, m);
    PushInjective(Word(a), BitWord(n), Word(b), BitWord(m));
  }

  /** Different small numbers have different words. */
  lemma {:induction false} SmallInjective(n: nat, m: nat)
    requires n < 128 && m < 128 && Word(n) == Word(m)
    ensures n == m
    decreases n + m
  {
    hide *;
    if n + m > 0 {
      SmallStep(n, m, n / 2, m / 2);
      SmallInjective(n / 2, m / 2);
    }
  }

  // ----- Offsets inside a block -----

  /** `swizzle`: colour texels (tile mode 27). */
  function ColorBits(x: bv32, y: bv32): bv32 {
    ((y << 4) & 0x70) ^ ((y << 5) & 0xF00) ^ ((y << 9) & 0x1000) ^ ((y << 8) & 0x4000)
    ^ ((x << 2) & 0xC) ^ ((x << 5) & 0x380) ^ ((x << 4) & 0x400) ^ ((x << 6) & 0x800) ^ ((x << 9) & 0xA000)
  }

  /** The in-block part of `mkw_depth_pixel_offset`: depth texels (tile mode 24). */
  function DepthBits(x: bv32, y: bv32): bv32 {
    ((y << 3) & 0x8) ^ ((y << 4) & 0x20) ^ ((y << 5) & 0xF80) ^ ((y << 9) & 0x1000)
    ^ ((y << 8) & 0x4000) ^ ((x << 2) & 0x4) ^ ((x << 3) & 0x10) ^ ((x << 4) & 0x440) ^ ((x << 5) & 0x300)
    ^ ((x << 6) & 0x800) ^ ((x << 9) & 0xA000)
  }

  /** Which of the two equations. */
  datatype Equation = Color | Depth

  function Bits(e: Equation, x: bv32, y: bv32): bv32 {
    if e.Color? then ColorBits(x, y) else DepthBits(x, y)
  }

  lemma ColorInjective(x: bv32, y: bv32, u: bv32, v: bv32)
    requires Seven(x) == x && Seven(y) == y && Seven(u) == u && Seven(v) == v
    requires ColorBits(x, y) == ColorBits(u, v)
    ensures x == u && y == v
  {
  }

  lemma DepthInjective(x: bv32, y: bv32, u: bv32, v: bv32)
    requires Seven(x) == x && Seven(y) == y && Seven(u) == u && Seven(v) == v
    requires DepthBits(x, y) == DepthBits(u, v)
    ensures x == u && y == v
  {
  }

  /** The equation is injective on the seven low bits of each coordinate. */
  lemma BitsInjective(e: Equation, x: bv32, y: bv32, u: bv32, v: bv32)
    requires Seven(x) == x && Seven(y) == y && Seven(u) == u && Seven(v) == v
    requires Bits(e, x, y) == Bits(e, u, v)
    ensures x == u && y == v
  {
    hide Seven, ColorBits, DepthBits;
    if e.Color? {
      ColorInjective(x, y, u, v);
    } else {
      DepthInjective(x, y, u, v);
    }
  }

  /** The equation gives an even number of byte pairs below 64 KiB, and looks at seven bits only. */
  lemma BitsInBlock(e: Equation, x: bv32, y: bv32)
    ensures Bits(e, x, y) <= 0xFFFF && Low(Bits(e, x, y)) == 0 && Low(Half(Bits(e, x, y))) == 0
    ensures Bits(e, x, y) == Bits(e, Seven(x), Seven(y))
  {
  }

  /** The byte offset of texel (x, y) inside its block. */
  function InBlock(e: Equation, x: nat, y: nat): nat {
    Value(Bits(e, Word(x), Word(y)))
  }

  /** Offsets are whole texels inside the 64 KiB block. */
  lemma InBlockRange(e: Equation, x: nat, y: nat)
    ensures InBlock(e, x, y) % 4 == 0 && InBlock(e, x, y) + 4 <= 65536
  {
    hide Value, Word, Bits, Half, Low, Push;
    var b := Bits(e, Word(x), Word(y));
    BitsInBlock(e, Word(x), Word(y));
    ValueOfSixteen(b);
    ValueStep(b);
    ValueStep(Half(b));
  }

  lemma InBlockModulo(e: Equation, x: nat, y: nat)
    ensures InBlock(e, x, y) == Value(Bits(e, Word(x % 128), Word(y % 128)))
  {
    hide Word, Bits, Value, Seven;
    SevenBits(x);
    SevenBits(y);
    BitsInBlock(e, Word(x), Word(y));
  }

  /** Two texels share an in-block offset exactly when their coordinates agree modulo the block size. */
  lemma InBlockInjective(e: Equation, x: nat, y: nat, u: nat, v: nat)
    ensures InBlock(e, x, y) == InBlock(e, u, v) <==> x % 128 == u % 128 && y % 128 == v % 128
  {
    hide *;
    InBlockModulo(e, x, y);
    InBlockModulo(e, u, v);
    if InBlock(e, x, y) == InBlock(e, u, v) {
      WordOfValue(Bits(e, Word(x % 128), Word(y % 128)));
      WordOfValue(Bits(e, Word(u % 128), Word(v % 128)));
      SevenBits(x);
      SevenBits(y);
      SevenBits(u);
      SevenBits(v);
      BitsInjective(e, Word(x % 128), Word(y % 128), Word(u % 128), Word(v % 128));
      SmallInjective(x % 128, u % 128);
      SmallInjective(y % 128, v % 128);
    }
  }

  // ----- The equations in plain arithmetic -----

  /** The number of a nibble. */
  function Bit4(b: bv32): nat {
    Bit(b) + 2 * Bit(Half(b)) + 4 * Bit(Half(Half(b))) + 8 * Bit(Half(Half(Half(b))))
  }

  lemma ValueNibble(b: bv32)
    ensures Value(b) == Bit4(b) + 16 * Value(Nibble(b))
  {
    hide Half, Nibble, Bit, Value;
    ValueStep(b);
    ValueStep(Half(b));
    ValueStep(Half(Half(b)));
    ValueStep(Half(Half(Half(b))));
    HalfFour(b);
  }

  lemma ValueIsBits(b: bv32)
    requires b <= 0xFFFF
    ensures Value(b) == Bit4(b) + 16 * Bit4(Nibble(b)) + 256 * Bit4(Nibble(Nibble(b)))
                        + 4096 * Bit4(Nibble(Nibble(Nibble(b))))
  {
    NibblesEnd(b);
    assert Value(0) == 0;
    hide Half, Nibble, Bit4, Value;
    ValueNibble(b);
    ValueNibble(Nibble(b));
    ValueNibble(Nibble(Nibble(b)));
    ValueNibble(Nibble(Nibble(Nibble(b))));
  }

  // The word without its low bits.

  function Half2(b: bv32): bv32 {
    Half(Half(b))
  }

  function Half3(b: bv32): bv32 {
    Half(Half2(b))
  }

  function Half4(b: bv32): bv32 {
    Half(Half3(b))
  }

  function Half5(b: bv32): bv32 {
    Half(Half4(b))
  }

  function Half6(b: bv32): bv32 {
    Half(Half5(b))
  }

  lemma PoppedPush(w: bv32, b: bv32)
    requires Seven(w) == w && (b == 0 || b == 1)
    ensures Half(Push(w, b)) == w && Low(Push(w, b)) == b
  {
  }

  lemma HalvedStep(n: nat)
    requires n < 128
    ensures Half(Word(n)) == Word(n / 2) && Low(Word(n)) == BitWord(n)
  {
    hide *;
    WordStep(n);
    SevenOfSmall(n / 2);
    PoppedPush(Word(n / 2), BitWord(n));
  }

  /** The digits of a number below 128 are the bits of its word. */
  lemma WordDigits(n: nat)
    requires n < 128
    ensures Low(Word(n)) == BitWord(n) && Low(Half(Word(n))) == BitWord(n / 2)
    ensures Low(Half2(Word(n))) == BitWord(n / 4) && Low(Half3(Word(n))) == BitWord(n / 8)
    ensures Low(Half4(Word(n))) == BitWord(n / 16) && Low(Half5(Word(n))) == BitWord(n / 32)
    ensures Low(Half6(Word(n))) == BitWord(n / 64)
  {
    hide Half, Low, Word, BitWord;
    HalvedStep(n);
    NextDigit(Word(n), n, n / 2);
    NextDigit(Half(Word(n)), n / 2, n / 4);
    NextDigit(Half2(Word(n)), n / 4, n / 8);
    NextDigit(Half3(Word(n)), n / 8, n / 16);
    NextDigit(Half4(Word(n)), n / 16, n / 32);
    NextDigit(Half5(Word(n)), n / 32, n / 64);
  }

  lemma NextDigit(w: bv32, q: nat, half: nat)
    requires q < 128 && half == q / 2 && w == Word(q)
    ensures Half(w) == Word(half) && Low(Half(w)) == BitWord(half)
  {
    hide *;
    HalvedStep(q);
    HalvedStep(half);
  }

  /** The bit that two bits give: their sum without its carry. */
  function Xor(a: bv32, b: bv32): bv32 {
    Low(a) ^ Low(b)
  }

  lemma XorIsSum(a: bv32, b: bv32, n: nat, m: nat)
    requires Low(a) == BitWord(n) && Low(b) == BitWord(m)
    ensures Xor(a, b) == BitWord(n + m)
  {
    assert (n + m) % 2 == (n % 2 + m % 2) % 2;
  }

  /** The number a bit stands for. */
  lemma BitIs(b: bv32, n: nat)
    requires Low(b) == BitWord(n)
    ensures Bit(b) == n % 2
  {
  }

  lemma FourBits(b: bv32, n0: nat, n1: nat, n2: nat, n3: nat)
    requires Low(b) == BitWord(n0) && Low(Half(b)) == BitWord(n1)
    requires Low(Half(Half(b))) == BitWord(n2) && Low(Half(Half(Half(b)))) == BitWord(n3)
    ensures Bit4(b) == n0 % 2 + 2 * (n1 % 2) + 4 * (n2 % 2) + 8 * (n3 % 2)
  {
    hide Half, Low, BitWord, Bit;
    BitIs(b, n0);
    BitIs(Half(b), n1);
    BitIs(Half(Half(b)), n2);
    BitIs(Half(Half(Half(b))), n3);
  }

  /** Which coordinate bits an offset's bits are: the colour equation. */
  lemma ColorLow(x: bv32, y: bv32)
    ensures var b := ColorBits(x, y);
            && Low(b) == 0 && Low(Half(b)) == 0
            && Low(Half(Half(b))) == Low(x) && Low(Half(Half(Half(b)))) == Low(Half(x))
  {
  }

  lemma ColorNext(x: bv32, y: bv32)
    ensures var b := Nibble(ColorBits(x, y));
            && Low(b) == Low(y) && Low(Half(b)) == Low(Half(y))
            && Low(Half(Half(b))) == Low(Half2(y)) && Low(Half(Half(Half(b)))) == Low(Half2(x))
  {
  }

  lemma ColorHigh(x: bv32, y: bv32)
    ensures var b := Nibble(Nibble(ColorBits(x, y)));
            && Low(b) == Xor(Half3(x), Half3(y)) && Low(Half(b)) == Xor(Half4(x), Half4(y))
            && Low(Half(Half(b))) == Xor(Half6(x), Half5(y))
            && Low(Half(Half(Half(b)))) == Xor(Half5(x), Half6(y))
  {
  }

  lemma ColorTop(x: bv32, y: bv32)
    ensures var b := Nibble(Nibble(Nibble(ColorBits(x, y))));
            && Low(b) == Low(Half3(y)) && Low(Half(b)) == Low(Half4(x))
            && Low(Half(Half(b))) == Low(Half6(y)) && Low(Half(Half(Half(b)))) == Low(Half6(x))
  {
  }

  /** Which coordinate bits an offset's bits are: the depth equation. */
  lemma DepthLow(x: bv32, y: bv32)
    ensures var b := DepthBits(x, y);
            && Low(b) == 0 && Low(Half(b)) == 0
            && Low(Half(Half(b))) == Low(x) && Low(Half(Half(Half(b)))) == Low(y)
  {
  }

  lemma DepthNext(x: bv32, y: bv32)
    ensures var b := Nibble(DepthBits(x, y));
            && Low(b) == Low(Half(x)) && Low(Half(b)) == Low(Half(y))
            && Low(Half(Half(b))) == Low(Half2(x)) && Low(Half(Half(Half(b)))) == Low(Half2(y))
  {
  }

  lemma DepthHigh(x: bv32, y: bv32)
    ensures var b := Nibble(Nibble(DepthBits(x, y)));
            && Low(b) == Xor(Half3(x), Half3(y)) && Low(Half(b)) == Xor(Half4(x), Half4(y))
            && Low(Half(Half(b))) == Xor(Half6(x), Half5(y))
            && Low(Half(Half(Half(b)))) == Xor(Half5(x), Half6(y))
  {
  }

  lemma DepthTop(x: bv32, y: bv32)
    ensures var b := Nibble(Nibble(Nibble(DepthBits(x, y))));
            && Low(b) == Low(Half3(y)) && Low(Half(b)) == Low(Half4(x))
            && Low(Half(Half(b))) == Low(Half6(y)) && Low(Half(Half(Half(b)))) == Low(Half6(x))
  {
  }

  /** Eight digits at their places above a tile's 256 bytes. */
  function Spread(d0: nat, d1: nat, d2: nat, d3: nat, d4: nat, d5: nat, d6: nat, d7: nat): nat {
    256 * d0 + 512 * d1 + 1024 * d2 + 2048 * d3 + 4096 * d4 + 8192 * d5 + 16384 * d6 + 32768 * d7
  }

  /** The place of a texel's 8 x 8 tile in its block, the same for both equations: its bits are those of the tile's
      row and column, some of them added without carry. */
  function TilePlace(x: nat, y: nat): nat {
    Spread((x / 8 + y / 8) % 2, (x / 16 + y / 16) % 2, (x / 64 + y / 32) % 2, (x / 32 + y / 64) % 2, y / 8 % 2,
           x / 16 % 2, y / 64 % 2, x / 64 % 2)
  }

  lemma SumOfBits(b: bv32, x: nat, y: nat, low: nat, next: nat)
    requires b <= 0xFFFF && Bit4(b) == low && Bit4(Nibble(b)) == next
    requires Bit4(Nibble(Nibble(b))) == (x / 8 + y / 8) % 2 + 2 * ((x / 16 + y / 16) % 2) + 4 * ((x / 64 + y / 32) % 2)
                                        + 8 * ((x / 32 + y / 64) % 2)
    requires Bit4(Nibble(Nibble(Nibble(b)))) == y / 8 % 2 + 2 * (x / 16 % 2) + 4 * (y / 64 % 2) + 8 * (x / 64 % 2)
    ensures Value(b) == low + 16 * next + TilePlace(x, y)
  {
    hide Bit4, Nibble, Value;
    ValueIsBits(b);
  }

  lemma HighNibble(h: bv32, x: nat, y: nat)
    requires x < 128 && y < 128
    requires var wx, wy := Word(x), Word(y);
             && Low(h) == Xor(Half3(wx), Half3(wy)) && Low(Half(h)) == Xor(Half4(wx), Half4(wy))
             && Low(Half(Half(h))) == Xor(Half6(wx), Half5(wy))
             && Low(Half(Half(Half(h)))) == Xor(Half5(wx), Half6(wy))
    ensures Bit4(h) == (x / 8 + y / 8) % 2 + 2 * ((x / 16 + y / 16) % 2) + 4 * ((x / 64 + y / 32) % 2)
                       + 8 * ((x / 32 + y / 64) % 2)
  {
    hide *;
    WordDigits(x);
    WordDigits(y);
    var wx, wy := Word(x), Word(y);
    XorIsSum(Half3(wx), Half3(wy), x / 8, y / 8);
    XorIsSum(Half4(wx), Half4(wy), x / 16, y / 16);
    XorIsSum(Half6(wx), Half5(wy), x / 64, y / 32);
    XorIsSum(Half5(wx), Half6(wy), x / 32, y / 64);
    FourBits(h, x / 8 + y / 8, x / 16 + y / 16, x / 64 + y / 32, x / 32 + y / 64);
  }

  lemma TopNibble(h: bv32, x: nat, y: nat)
    requires x < 128 && y < 128
    requires var wx, wy := Word(x), Word(y);
             && Low(h) == Low(Half3(wy)) && Low(Half(h)) == Low(Half4(wx))
             && Low(Half(Half(h))) == Low(Half6(wy)) && Low(Half(Half(Half(h)))) == Low(Half6(wx))
    ensures Bit4(h) == y / 8 % 2 + 2 * (x / 16 % 2) + 4 * (y / 64 % 2) + 8 * (x / 64 % 2)
  {
    hide *;
    WordDigits(x);
    WordDigits(y);
    FourBits(h, y / 8, x / 16, y / 64, x / 64);
  }

  lemma DigitsOfRemainder(n: nat)
    ensures n % 128 / 8 % 2 == n / 8 % 2 && n % 128 / 16 % 2 == n / 16 % 2 && n % 128 / 32 % 2 == n / 32 % 2
    ensures n % 128 / 64 % 2 == n / 64 % 2 && n % 128 / 4 % 2 == n / 4 % 2 && n % 128 / 2 % 2 == n / 2 % 2
    ensures n % 128 % 4 == n % 4 && n % 128 % 8 == n % 8 && n % 128 % 2 == n % 2
  {
    DigitKept(n, 2, 32);
    DigitKept(n, 4, 16);
    DigitKept(n, 8, 8);
    DigitKept(n, 16, 4);
    DigitKept(n, 32, 2);
    DigitKept(n, 64, 1);
    DigitKept(n, 1, 64);
  }

  lemma DigitKept(n: nat, d: nat, rest: nat)
    requires d > 0 && rest > 0 && d * rest * 2 == 128
    ensures n % 128 / d % 2 == n / d % 2 && n % 128 % d == n % d
  {
    var q, r := n / 128, n % 128;
    var more := rest * q;
    Regrouped(n, d, rest, q, r, more);
    Unique(n, d, 2 * more + r / d, r % d);
  }

  lemma Regrouped(n: nat, d: nat, rest: nat, q: nat, r: nat, more: nat)
    requires d > 0 && d * rest * 2 == 128 && n == 128 * q + r && more == rest * q
    ensures n == (2 * more + r / d) * d + r % d
  {
    assert 128 * q == d * rest * 2 * q == (2 * more) * d;
    assert r == r / d * d + r % d;
  }

  lemma TilePlaceOfRemainder(x: nat, y: nat)
    ensures TilePlace(x % 128, y % 128) == TilePlace(x, y)
  {
    hide Spread;
    DigitsOfRemainder(x);
    DigitsOfRemainder(y);
    SumDigits(x % 128 / 8, y % 128 / 8, x / 8, y / 8);
    SumDigits(x % 128 / 16, y % 128 / 16, x / 16, y / 16);
    SumDigits(x % 128 / 64, y % 128 / 32, x / 64, y / 32);
    SumDigits(x % 128 / 32, y % 128 / 64, x / 32, y / 64);
  }

  lemma SumDigits(a: nat, b: nat, c: nat, d: nat)
    requires a % 2 == c % 2 && b % 2 == d % 2
    ensures (a + b) % 2 == (c + d) % 2
  {
  }

  lemma LowDigits(n: nat)
    ensures n % 2 + 2 * (n / 2 % 2) == n % 4 && n % 2 + 2 * (n / 2 % 2) + 4 * (n / 4 % 2) == n % 8
  {
  }

  /** A colour texel: an 8 x 8 tile fills 256 bytes, four texels of a row behind one another, the eight rows of a half
      behind one another, and the right half behind the left; tiles are spread over the block by `TilePlace`. */
  lemma ColorPlace(x: nat, y: nat)
    ensures InBlock(Color, x, y) == 4 * (x % 4) + 16 * (y % 8) + 128 * (x / 4 % 2) + TilePlace(x, y)
  {
    hide *;
    var u, v := x % 128, y % 128;
    InBlockModulo(Color, x, y);
    var b := ColorBits(Word(u), Word(v));
    ColorValue(u, v);
    ColorLow(Word(u), Word(v));
    ColorNext(Word(u), Word(v));
    ColorHigh(Word(u), Word(v));
    ColorTop(Word(u), Word(v));
    HighNibble(Nibble(Nibble(b)), u, v);
    TopNibble(Nibble(Nibble(Nibble(b))), u, v);
    LowColor(b, u, v);
    SumOfBits(b, u, v, 4 * (u % 4), v % 8 + 8 * (u / 4 % 2));
    TilePlaceOfRemainder(x, y);
    DigitsOfRemainder(x);
    DigitsOfRemainder(y);
  }

  lemma ColorValue(x: nat, y: nat)
    ensures Bits(Color, Word(x), Word(y)) == ColorBits(Word(x), Word(y)) <= 0xFFFF
  {
    hide Word, ColorBits;
    BitsInBlock(Color, Word(x), Word(y));
  }

  lemma LowColor(b: bv32, x: nat, y: nat)
    requires x < 128 && y < 128 && Low(b) == 0 && Low(Half(b)) == 0
    requires Low(Half(Half(b))) == Low(Word(x)) && Low(Half(Half(Half(b)))) == Low(Half(Word(x)))
    requires var h := Nibble(b); var wx, wy := Word(x), Word(y);
             && Low(h) == Low(wy) && Low(Half(h)) == Low(Half(wy))
             && Low(Half(Half(h))) == Low(Half2(wy)) && Low(Half(Half(Half(h)))) == Low(Half2(wx))
    ensures Bit4(b) == 4 * (x % 4) && Bit4(Nibble(b)) == y % 8 + 8 * (x / 4 % 2)
  {
    assert BitWord(0) == 0;
    hide *;
    WordDigits(x);
    WordDigits(y);
    FourBits(b, 0, 0, x, x / 2);
    FourBits(Nibble(b), y, y / 2, y / 4, x / 4);
    LowDigits(x);
    LowDigits(y);
  }

  /** A depth texel: an 8 x 8 tile fills 256 bytes with the bits of the two coordinates in turn; tiles are spread over
      the block as those of colour. */
  lemma DepthPlace(x: nat, y: nat)
    ensures InBlock(Depth, x, y) == 4 * (x % 2) + 8 * (y % 2) + 16 * (x / 2 % 2) + 32 * (y / 2 % 2) + 64 * (x / 4 % 2)
                                    + 128 * (y / 4 % 2) + TilePlace(x, y)
  {
    hide *;
    var u, v := x % 128, y % 128;
    InBlockModulo(Depth, x, y);
    var b := DepthBits(Word(u), Word(v));
    DepthValue(u, v);
    DepthLow(Word(u), Word(v));
    DepthNext(Word(u), Word(v));
    DepthHigh(Word(u), Word(v));
    DepthTop(Word(u), Word(v));
    HighNibble(Nibble(Nibble(b)), u, v);
    TopNibble(Nibble(Nibble(Nibble(b))), u, v);
    LowDepth(b, u, v);
    SumOfBits(b, u, v, 4 * (u % 2) + 8 * (v % 2),
              u / 2 % 2 + 2 * (v / 2 % 2) + 4 * (u / 4 % 2) + 8 * (v / 4 % 2));
    TilePlaceOfRemainder(x, y);
    DigitsOfRemainder(x);
    DigitsOfRemainder(y);
  }

  lemma DepthValue(x: nat, y: nat)
    ensures Bits(Depth, Word(x), Word(y)) == DepthBits(Word(x), Word(y)) <= 0xFFFF
  {
    hide Word, DepthBits;
    BitsInBlock(Depth, Word(x), Word(y));
  }

  lemma LowDepth(b: bv32, x: nat, y: nat)
    requires x < 128 && y < 128 && Low(b) == 0 && Low(Half(b)) == 0
    requires Low(Half(Half(b))) == Low(Word(x)) && Low(Half(Half(Half(b)))) == Low(Word(y))
    requires var h := Nibble(b); var wx, wy := Word(x), Word(y);
             && Low(h) == Low(Half(wx)) && Low(Half(h)) == Low(Half(wy))
             && Low(Half(Half(h))) == Low(Half2(wx)) && Low(Half(Half(Half(h)))) == Low(Half2(wy))
    ensures Bit4(b) == 4 * (x % 2) + 8 * (y % 2)
    ensures Bit4(Nibble(b)) == x / 2 % 2 + 2 * (y / 2 % 2) + 4 * (x / 4 % 2) + 8 * (y / 4 % 2)
  {
    assert BitWord(0) == 0;
    hide *;
    WordDigits(x);
    WordDigits(y);
    FourBits(b, 0, 0, x, y);
    FourBits(Nibble(b), x / 2, y / 2, x / 4, y / 4);
  }
}
