/** Where texels lie, in plain arithmetic (ps5/gpu/texture_layout.cpp, ps5/gpu/depth_layout.cpp): from which level on a
    mip chain is packed, where every level starts, and the place of a texel. */
module TextureLaws {
  import opened Bytes
  import opened TileBits
  import opened TextureLayout

  /** Texels of a level along one side, rounded up. */
  function Side(n: nat, level: nat): nat {
    (n + Two(level) - 1) / Two(level)
  }

  /** Levels from this one on share the tail block. */
  predicate Packed(width: nat, height: nat, count: nat, level: nat)
    requires level < count
  {
    count > 1 && Side(width, level) <= 64 && Side(height, level) <= 128 && count - level <= 12
  }

  lemma {:induction false} ShiftedIsDivision(n: nat, m: nat)
    ensures Shifted(n, m) == n / Two(m)
  {
    if m > 0 {
      ShiftedIsDivision(n, m - 1);
      Twice(n, Two(m - 1));
    } else {
      assert n / 1 == n;
    }
  }

  lemma Twice(n: nat, t: nat)
    requires t >= 1
    ensures n / t / 2 == n / (2 * t)
  {
    var q := n / t;
    assert n == q * t + n % t && q == q / 2 * 2 + q % 2;
    var r := q % 2 * t + n % t;
    assert q * t == q / 2 * 2 * t + q % 2 * t;
    assert n == q / 2 * (2 * t) + r;
    assert q % 2 * t <= t;
    Unique(n, 2 * t, q / 2, r);
  }

  lemma SideIs(n: nat, level: nat)
    requires n >= 1
    ensures Ceil(n, level) == Side(n, level) >= 1 && Floor(n, level) == if n / Two(level) < 1 then 1 else n / Two(level)
  {
    ShiftedIsDivision(n + Two(level) - 1, level);
    ShiftedIsDivision(n, level);
    AtLeastOnce(n, Two(level));
  }

  lemma AtLeastOnce(n: nat, t: nat)
    requires n >= 1 && t >= 1
    ensures (n + t - 1) / t >= 1
  {
    var q, r := (n - 1) / t, (n - 1) % t;
    assert n + t - 1 == (q + 1) * t + r;
    Unique(n + t - 1, t, q + 1, r);
  }

  /** A side never grows from one level to the next. */
  lemma SideShrinks(n: nat, level: nat)
    ensures Side(n, level + 1) <= Side(n, level)
  {
    Halving(n, Two(level));
  }

  lemma Halving(n: nat, t: nat)
    requires t >= 1
    ensures (n + 2 * t - 1) / (2 * t) <= (n + t - 1) / t
  {
    Twice(n + 2 * t - 1, t);
    var q, r := (n + t - 1) / t, (n + t - 1) % t;
    assert n + 2 * t - 1 == (q + 1) * t + r;
    Unique(n + 2 * t - 1, t, q + 1, r);
  }

  lemma {:induction false} StaysPacked(width: nat, height: nat, count: nat, from: nat, level: nat)
    requires from <= level < count && Packed(width, height, count, from)
    ensures Packed(width, height, count, level)
  {
    hide Side;
    if from < level {
      StaysPacked(width, height, count, from, level - 1);
      SideShrinks(width, level - 1);
      SideShrinks(height, level - 1);
    }
  }

  /** A chain is packed from the first level on that is at most 64 by 128 texels, rounded up, with at most eleven
      levels behind it; a chain of one level never is. */
  lemma PackedFrom(width: nat, height: nat, count: nat, level: nat)
    requires Legal(width, height, count) && level < count
    ensures FirstTail(width, height, count, 0) <= level <==> Packed(width, height, count, level)
  {
    hide Side, Ceil, Floor, FirstTail, Legal;
    var first := FirstTail(width, height, count, 0);
    assert width >= 1 && height >= 1 by {
      Sides(width, height, count);
    }
    SideIs(width, level);
    SideIs(height, level);
    assert FitsTail(width, height, count, level) <==> Packed(width, height, count, level);
    if first <= level {
      SideIs(width, first);
      SideIs(height, first);
      StaysPacked(width, height, count, first, level);
    }
  }

  lemma Sides(width: nat, height: nat, count: nat)
    requires Legal(width, height, count)
    ensures width >= 1 && height >= 1 && count >= 1
  {
  }

  /** Blocks of a level that has its own. */
  function OwnBlocks(width: nat, height: nat, level: nat): nat {
    (Side(width, level) + 127) / 128 * ((Side(height, level) + 127) / 128)
  }

  /** The place of a colour texel in its block. */
  function InColorBlock(x: nat, y: nat): nat {
    4 * (x % 4) + 16 * (y % 8) + 128 * (x / 4 % 2) + 256 * ((x / 8 + y / 8) % 2) + 512 * ((x / 16 + y / 16) % 2)
    + 1024 * ((x / 64 + y / 32) % 2) + 2048 * ((x / 32 + y / 64) % 2) + 4096 * (y / 8 % 2) + 8192 * (x / 16 % 2)
    + 16384 * (y / 64 % 2) + 32768 * (x / 64 % 2)
  }

  /** The place of a depth texel in its block. */
  function InDepthBlock(x: nat, y: nat): nat {
    4 * (x % 2) + 8 * (y % 2) + 16 * (x / 2 % 2) + 32 * (y / 2 % 2) + 64 * (x / 4 % 2) + 128 * (y / 4 % 2)
    + 256 * ((x / 8 + y / 8) % 2) + 512 * ((x / 16 + y / 16) % 2) + 1024 * ((x / 64 + y / 32) % 2)
    + 2048 * ((x / 32 + y / 64) % 2) + 4096 * (y / 8 % 2) + 8192 * (x / 16 % 2) + 16384 * (y / 64 % 2)
    + 32768 * (x / 64 % 2)
  }

  /** An aligned 8 x 8 tile of colour texels fills 256 bytes. */
  lemma ColorTile(x: nat, y: nat)
    ensures InColorBlock(x, y) == InColorBlock(x / 8 * 8, y / 8 * 8) + 4 * (x % 4) + 16 * (y % 8) + 128 * (x / 4 % 2)
    ensures InColorBlock(x / 8 * 8, y / 8 * 8) % 256 == 0
  {
    hide InBlock, TilePlace, InColorBlock;
    ColorInBlock(x, y);
    ColorInBlock(x / 8 * 8, y / 8 * 8);
    ColorPlace(x, y);
    ColorPlace(x / 8 * 8, y / 8 * 8);
    SameTile(x);
    SameTile(y);
    SamePlace(x, y, x / 8 * 8, y / 8 * 8);
  }

  lemma SamePlace(x: nat, y: nat, u: nat, v: nat)
    requires x / 8 == u / 8 && x / 16 == u / 16 && x / 32 == u / 32 && x / 64 == u / 64
    requires y / 8 == v / 8 && y / 16 == v / 16 && y / 32 == v / 32 && y / 64 == v / 64
    ensures TilePlace(x, y) == TilePlace(u, v) && TilePlace(x, y) % 256 == 0
  {
    hide Spread;
    SpreadOut((x / 8 + y / 8) % 2, (x / 16 + y / 16) % 2, (x / 64 + y / 32) % 2, (x / 32 + y / 64) % 2, y / 8 % 2,
              x / 16 % 2, y / 64 % 2, x / 64 % 2);
  }

  lemma SpreadOut(d0: nat, d1: nat, d2: nat, d3: nat, d4: nat, d5: nat, d6: nat, d7: nat)
    ensures Spread(d0, d1, d2, d3, d4, d5, d6, d7) % 256 == 0
  {
    assert Spread(d0, d1, d2, d3, d4, d5, d6, d7)
           == 256 * (d0 + 2 * d1 + 4 * d2 + 8 * d3 + 16 * d4 + 32 * d5 + 64 * d6 + 128 * d7);
  }

  lemma ColorInBlock(x: nat, y: nat)
    ensures InBlock(Color, x, y) == InColorBlock(x, y)
  {
    hide InBlock;
    ColorPlace(x, y);
  }

  lemma DepthInBlock(x: nat, y: nat)
    ensures InBlock(Depth, x, y) == InDepthBlock(x, y)
  {
    hide InBlock;
    DepthPlace(x, y);
  }

  lemma SameTile(n: nat)
    ensures var t := n / 8 * 8;
            && t % 4 == 0 && t % 8 == 0 && t / 4 % 2 == 0 && t / 8 == n / 8 && t / 16 == n / 16 && t / 32 == n / 32
            && t / 64 == n / 64
  {
    var t := n / 8 * 8;
    Coarser(n, t, 2);
    Coarser(n, t, 4);
    Coarser(n, t, 8);
  }

  lemma Coarser(n: nat, t: nat, k: nat)
    requires t == n / 8 * 8 && k >= 1
    ensures t / (8 * k) == n / (8 * k)
  {
    var q, r := n / 8 / k, n / 8 % k;
    assert n / 8 == q * k + r;
    assert t == q * (8 * k) + 8 * r && n == q * (8 * k) + (8 * r + n % 8);
    Unique(t, 8 * k, q, 8 * r);
    Unique(n, 8 * k, q, 8 * r + n % 8);
  }

  /** One level of the surface. */
  lemma LevelIs(width: nat, height: nat, count: nat, level: nat)
    requires Legal(width, height, count) && level < count
    ensures var s := SurfaceOf(width, height, count); var first := FirstTail(width, height, count, 0);
            && |s.mips| == count && (first < count ==> count - first <= 12)
            && s.mips[level] == MipOf(width, height, count, first, level)
  {
    TailIsShort(width, height, count);
  }

  lemma {:induction false} LevelsFit(d: nat, count: nat)
    requires d >= 1 && count >= 1
    ensures count <= MaxMips(d) <==> Two(count - 1) <= d
  {
    if d > 1 && count > 1 {
      LevelsFit(d / 2, count - 1);
    }
  }

  /** Sides from 1 to 16384 are accepted, and as many levels as halve the longer side down to a single texel. */
  lemma LegalIs(width: nat, height: nat, count: nat)
    ensures Legal(width, height, count)
        <==> 1 <= width <= 16384 && 1 <= height <= 16384 && 1 <= count <= 15
             && (Two(count - 1) <= width || Two(count - 1) <= height)
  {
    if 1 <= width && 1 <= height && count >= 1 {
      LevelsFit(Larger(width, height), count);
    }
  }

  /** A level has a texel for each whole fraction of the sides, and at least one; there are no others. */
  lemma TexelsAre(width: nat, height: nat, count: nat, x: nat, y: nat, level: nat)
    requires Legal(width, height, count)
    ensures PixelOffset(SurfaceOf(width, height, count), x, y, level).Ok?
        <==> level < count && (x == 0 || x < width / Two(level)) && (y == 0 || y < height / Two(level))
  {
    hide Legal, FirstTail, SurfaceOf, OffsetIn, Ceil, Side, BytesFrom;
    Sides(width, height, count);
    if level < count {
      LevelIs(width, height, count, level);
      SideIs(width, level);
      SideIs(height, level);
    } else {
      LevelIs(width, height, count, 0);
    }
  }

  /** A texel of a level with blocks of its own: the blocks row by row, 64 KiB each, and the place inside one. */
  lemma OwnTexel(width: nat, height: nat, count: nat, x: nat, y: nat, level: nat)
    requires Legal(width, height, count) && level < count && !Packed(width, height, count, level)
    requires Texel(SurfaceOf(width, height, count), x, y, level)
    ensures var s := SurfaceOf(width, height, count);
            PixelOffset(s, x, y, level)
            == Ok(s.mips[level].offset + (y / 128 * ((Side(width, level) + 127) / 128) + x / 128) * 65536
                  + InColorBlock(x, y))
  {
    hide Side, Legal, FirstTail, InBlock, InColorBlock, SurfaceOf, Packed, Texel, BytesFrom, Ceil, Floor, BlockOf;
    LevelIs(width, height, count, level);
    PackedFrom(width, height, count, level);
    Sides(width, height, count);
    SideIs(width, level);
    ColorInBlock(x, y);
    BlockIs(Side(width, level), x, y);
  }

  lemma BlockIs(side: nat, x: nat, y: nat)
    ensures BlockOf(Aligned(side) / 128, x, y) == y / 128 * ((side + 127) / 128) + x / 128
  {
    SpanIsProduct((side + 127) / 128, y / 128);
    assert Aligned(side) / 128 == (side + 127) / 128;
  }

  /** Where the packed levels start in the tail block: the first packed level at texel (64, 0), and so on. */
  predicate TailStart(i: nat, x: nat, y: nat) {
    && (i == 0 ==> x == 64 && y == 0) && (i == 1 ==> x == 0 && y == 64) && (i == 2 ==> x == 32 && y == 0)
    && (i == 3 ==> x == 0 && y == 32) && (i == 4 ==> x == 16 && y == 0) && (i == 5 ==> x == 8 && y == 16)
    && (i == 6 ==> x == 0 && y == 24) && (i == 7 ==> x == 0 && y == 16)
  }

  /** A texel of a packed level: in the one block at the start of the surface, at its level's place. */
  lemma PackedTexel(width: nat, height: nat, count: nat, first: nat, x: nat, y: nat, level: nat, left: nat, top: nat)
    requires Legal(width, height, count) && first <= level < count
    requires Packed(width, height, count, first) && (first > 0 ==> !Packed(width, height, count, first - 1))
    requires Texel(SurfaceOf(width, height, count), x, y, level) && TailStart(level - first, left, top)
    ensures level - first < 8
    ensures PixelOffset(SurfaceOf(width, height, count), x, y, level) == Ok(InColorBlock(x + left, y + top))
  {
    hide Side, Legal, FirstTail, InBlock, InColorBlock, SurfaceOf, Packed, BytesFrom, Ceil, Floor, BlockOf, Texel;
    LevelIs(width, height, count, level);
    PackedFrom(width, height, count, first);
    if first > 0 {
      PackedFrom(width, height, count, first - 1);
    }
    TailIsShort(width, height, count);
    SmallTail(width, height, count, first, level, x, y);
    ColorInBlock(x + left, y + top);
    FirstBlock(x, y);
    TailIs(level - first, left, top);
  }

  lemma FirstBlock(x: nat, y: nat)
    requires x < 128 && y < 128
    ensures BlockOf(1, x, y) == 0
  {
  }

  lemma TailIs(i: nat, x: nat, y: nat)
    requires i < 8 && TailStart(i, x, y)
    ensures TAIL[i] == (x, y)
  {
  }

  /** Packed levels are smaller than a block. */
  lemma SmallTail(width: nat, height: nat, count: nat, first: nat, level: nat, x: nat, y: nat)
    requires Legal(width, height, count) && first <= level < count && FirstTail(width, height, count, 0) == first
    requires Texel(SurfaceOf(width, height, count), x, y, level)
    ensures x < 128 && y < 128
  {
    hide Side, FirstTail, SurfaceOf, Ceil, Floor;
    LevelIs(width, height, count, level);
    FloorIsCovered(width, level);
    FloorIsCovered(height, level);
    PackedFrom(width, height, count, level);
    SideIs(width, level);
    SideIs(height, level);
  }

  /** Levels lie behind one another from the smallest one up: the tail block comes first, and each level starts where
      the next smaller one ends. */
  lemma LevelStarts(width: nat, height: nat, count: nat, level: nat)
    requires Legal(width, height, count) && level < count
    ensures var s := SurfaceOf(width, height, count);
            s.mips[level].offset
            == if Packed(width, height, count, level) || level + 1 == count then 0
               else if Packed(width, height, count, level + 1) then 65536
               else s.mips[level + 1].offset + OwnBlocks(width, height, level + 1) * 65536
  {
    hide Side, Legal, FirstTail, SurfaceOf, Packed, Ceil, Floor;
    Sides(width, height, count);
    LevelIs(width, height, count, level);
    PackedFrom(width, height, count, level);
    if level + 1 < count {
      LevelIs(width, height, count, level + 1);
      PackedFrom(width, height, count, level + 1);
      OwnBytes(width, height, level + 1);
    }
  }

  /** The whole surface: the largest level ends it. */
  lemma SurfaceEnds(width: nat, height: nat, count: nat)
    requires Legal(width, height, count)
    ensures var s := SurfaceOf(width, height, count);
            && |s.mips| == count > 0
            && s.bytes == if Packed(width, height, count, 0) then 65536
                          else s.mips[0].offset + OwnBlocks(width, height, 0) * 65536
  {
    hide Side, FirstTail, Packed, Ceil, Floor, MaxMips;
    Sides(width, height, count);
    LevelIs(width, height, count, 0);
    PackedFrom(width, height, count, 0);
    OwnBytes(width, height, 0);
  }

  lemma OwnBytes(width: nat, height: nat, level: nat)
    requires width >= 1 && height >= 1
    ensures LevelBytes(width, height, level) == OwnBlocks(width, height, level) * 65536
  {
    hide Side, Ceil;
    SideIs(width, level);
    SideIs(height, level);
    BlockBytesIs(Side(width, level), Side(height, level));
    SpanIsProduct((Side(width, level) + 127) / 128, (Side(height, level) + 127) / 128);
  }

  /** A depth texel, and the bytes of a depth surface; the 32-bit arithmetic never wraps. */
  lemma DepthTexel(width: nat, height: nat, x: nat, y: nat)
    ensures DepthOf(width, height).Ok? <==> 1 <= width <= 16384 && 1 <= height <= 16384
    ensures DepthOf(width, height).Ok? ==>
        (DepthOffset(DepthOf(width, height).value, x, y).Ok? <==> x < width && y < height)
    ensures DepthOf(width, height).Ok? && x < width && y < height ==>
              var s := DepthOf(width, height).value;
              && s.bytes == (width + 127) / 128 * ((height + 127) / 128) * 65536
              && DepthOffset(s, x, y)
                 == Ok((y / 128 * ((width + 127) / 128) + x / 128) * 65536 + InDepthBlock(x, y))
  {
    if DepthOf(width, height).Ok? && x < width && y < height {
      hide InBlock, InDepthBlock, DepthOffset, Span, BlockBytes;
      DepthCell(width, height, x, y);
      DepthInBlock(x, y);
      BlockBytesIs(width, height);
      SpanIsProduct((width + 127) / 128, (height + 127) / 128);
      SpanIsProduct((width + 127) / 128, y / 128);
    }
  }

  /** Source pixels come four bytes each, pixel by pixel in a row, row by row in a level, and level by level. */
  lemma SourceOrder(width: nat, height: nat, x: nat, y: nat, level: nat)
    requires width >= 1 && height >= 1
    ensures SourceOf(width, height, 0, 0, 0) == 0
    ensures SourceOf(width, height, x + 1, y, level) == SourceOf(width, height, x, y, level) + 4
    ensures SourceOf(width, height, 0, y + 1, level) == SourceOf(width, height, Floor(width, level), y, level)
    ensures SourceOf(width, height, 0, 0, level + 1) == SourceOf(width, height, 0, Floor(height, level), level)
  {
    hide Floor;
    SpanIsProduct(Floor(width, level), Floor(height, level));
    assert Span(Floor(width, level + 1), 0) == 0 && Span(Floor(width, level), 0) == 0;
    assert Span(Floor(width, 0), 0) == 0;
  }
}
