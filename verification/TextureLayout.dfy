/** Tiled surfaces: mip chains with a packed tail (ps5/gpu/texture_layout.cpp) and the depth surface
    (ps5/gpu/depth_layout.cpp). */
module TextureLayout {
  import opened Bytes
  import opened TileBits

  const BLOCK: nat := 65536

  // ----- Blocks of 128 x 128 texels -----

  function Blocks(n: nat): nat {
    (n + 127) / 128
  }

  function Aligned(n: nat): nat {
    Blocks(n) * 128
  }

  /** Bytes of whole blocks covering a surface. */
  function BlockBytes(width: nat, height: nat): nat {
    Aligned(width) * Aligned(height) * 4
  }

  lemma BlockBytesIs(width: nat, height: nat)
    ensures BlockBytes(width, height) == Span(Blocks(width), Blocks(height)) * BLOCK
    ensures BlockBytes(width, height) % 4 == 0
  {
    var a, b := Blocks(width), Blocks(height);
    SpanIsProduct(a, b);
    assert (a * 128) * (b * 128) * 4 == a * b * BLOCK;
  }

  /** Number of the block of texel (x, y), `columns` blocks a row. */
  function BlockOf(columns: nat, x: nat, y: nat): nat {
    Span(columns, y / 128) + x / 128
  }

  /** Offset of texel (x, y) in a surface of `columns` blocks a row. */
  function Cell(e: Equation, columns: nat, x: nat, y: nat): nat {
    BlockOf(columns, x, y) * BLOCK + InBlock(e, x, y)
  }

  lemma RowsApart(a: nat, b: nat, c: nat, d: nat, columns: nat)
    requires b < columns && d < columns && Span(columns, a) + b == Span(columns, c) + d
    ensures a == c && b == d
  {
    if a < c {
      SpanInside(a, c, columns);
    } else if c < a {
      SpanInside(c, a, columns);
    }
  }

  /** Different texels have different cells. */
  lemma CellInjective(e: Equation, columns: nat, x: nat, y: nat, u: nat, v: nat)
    requires x / 128 < columns && u / 128 < columns
    requires Cell(e, columns, x, y) == Cell(e, columns, u, v)
    ensures x == u && y == v
  {
    hide InBlock;
    InBlockRange(e, x, y);
    InBlockRange(e, u, v);
    Unique(Cell(e, columns, x, y), BLOCK, BlockOf(columns, x, y), InBlock(e, x, y));
    Unique(Cell(e, columns, u, v), BLOCK, BlockOf(columns, u, v), InBlock(e, u, v));
    RowsApart(y / 128, x / 128, v / 128, u / 128, columns);
    InBlockInjective(e, x, y, u, v);
  }

  /** A cell is a whole texel inside the surface. */
  lemma CellInside(e: Equation, width: nat, height: nat, x: nat, y: nat)
    requires x < width && y < height
    ensures x / 128 < Blocks(width)
    ensures Cell(e, Blocks(width), x, y) % 4 == 0 && Cell(e, Blocks(width), x, y) + 4 <= BlockBytes(width, height)
  {
    hide InBlock;
    InBlockRange(e, x, y);
    BlockBytesIs(width, height);
    SpanInside(y / 128, Blocks(height), Blocks(width));
  }

  // ----- The mip chain -----

  /** Place of each packed tail level in the tail block. */
  const TAIL: seq<(nat, nat)> :=
    [(64, 0), (0, 64), (32, 0), (0, 32), (16, 0), (8, 16), (0, 24), (0, 16), (8, 8), (8, 0), (0, 8), (0, 0)]

  function AtLeast1(n: nat): nat {
    if n < 1 then 1 else n
  }

  /** `n >> m`. */
  function Shifted(n: nat, m: nat): nat {
    if m == 0 then n else Shifted(n, m - 1) / 2
  }

  function Floor(n: nat, m: nat): nat {
    AtLeast1(Shifted(n, m))
  }

  function Ceil(n: nat, m: nat): nat {
    AtLeast1(Shifted(n + Two(m) - 1, m))
  }

  /** Levels down to a single texel. */
  function MaxMips(d: nat): nat {
    if d <= 1 then 1 else 1 + MaxMips(d / 2)
  }

  function Larger(a: nat, b: nat): nat {
    if a < b then b else a
  }

  predicate Legal(width: nat, height: nat, count: nat) {
    && 1 <= width <= 16384 && 1 <= height <= 16384 && 1 <= count <= 15
    && count <= MaxMips(Larger(width, height))
  }

  predicate FitsTail(width: nat, height: nat, count: nat, m: nat)
    requires m <= count
  {
    count > 1 && Ceil(width, m) <= 64 && Ceil(height, m) <= 128 && count - m <= 12
  }

  /** The first level, from `m` on, that is packed into the tail; `count` when there is none. */
  function FirstTail(width: nat, height: nat, count: nat, m: nat): (r: nat)
    requires m <= count
    ensures m <= r <= count && (r < count ==> FitsTail(width, height, count, r))
    ensures forall k :: m <= k < r ==> !FitsTail(width, height, count, k)
    decreases count - m
  {
    if m == count || FitsTail(width, height, count, m) then m else FirstTail(width, height, count, m + 1)
  }

  function LevelBytes(width: nat, height: nat, m: nat): nat {
    BlockBytes(Ceil(width, m), Ceil(height, m))
  }

  /** Bytes of the levels from `m` to the tail, and of the tail block. */
  function BytesFrom(width: nat, height: nat, count: nat, first: nat, m: nat): nat
    decreases first - m
  {
    if m >= first then (if first < count then BLOCK else 0)
    else LevelBytes(width, height, m) + BytesFrom(width, height, count, first, m + 1)
  }

  function LinearBytes(width: nat, height: nat, m: nat): nat {
    if m == 0 then 0 else LinearBytes(width, height, m - 1) + Span(Floor(width, m - 1), Floor(height, m - 1)) * 4
  }

  datatype Mip = Mip(width: nat, height: nat, paddedWidth: nat, tailX: nat, tailY: nat, offset: nat)

  datatype Surface = Surface(width: nat, height: nat, count: nat, bytes: nat, linearBytes: nat, mips: seq<Mip>)

  /** One level: blocks of its own, or a place in the tail block. */
  function MipOf(width: nat, height: nat, count: nat, first: nat, m: nat): Mip
    requires m < count && (first < count ==> count - first <= 12)
  {
    if m < first then
      Mip(Floor(width, m), Floor(height, m), Aligned(Ceil(width, m)), 0, 0,
          BytesFrom(width, height, count, first, m + 1))
    else Mip(Floor(width, m), Floor(height, m), 128, TAIL[m - first].0, TAIL[m - first].1, 0)
  }

  function SurfaceOf(width: nat, height: nat, count: nat): Surface {
    var first := FirstTail(width, height, count, 0);
    Surface(width, height, count, BytesFrom(width, height, count, first, 0), LinearBytes(width, height, count),
            seq(count, m requires 0 <= m < count => MipOf(width, height, count, first, m)))
  }

  /** What the constructor makes. */
  predicate IsSurface(s: Surface) {
    Legal(s.width, s.height, s.count) && s == SurfaceOf(s.width, s.height, s.count)
  }

  /** The texels of a level. */
  predicate Texel(s: Surface, x: nat, y: nat, level: nat) {
    level < |s.mips| && x < s.mips[level].width && y < s.mips[level].height
  }

  function OffsetIn(m: Mip, x: nat, y: nat): nat {
    m.offset + BlockOf(m.paddedWidth / 128, x, y) * BLOCK + InBlock(Color, x + m.tailX, y + m.tailY)
  }

  /** `pixel_offset`. */
  function PixelOffset(s: Surface, x: nat, y: nat, level: nat): Result<nat> {
    if !Texel(s, x, y, level) then Err else Ok(OffsetIn(s.mips[level], x, y))
  }

  // ----- Halving -----

  lemma {:induction false} ShiftedMonotone(a: nat, b: nat, m: nat)
    requires a <= b
    ensures Shifted(a, m) <= Shifted(b, m)
  {
    if m > 0 {
      ShiftedMonotone(a, b, m - 1);
    }
  }

  lemma {:induction false} ShiftedTwice(n: nat, m: nat, i: nat, k: nat)
    requires k == m + i
    ensures Shifted(n, k) == Shifted(Shifted(n, m), i)
    decreases i
  {
    if i > 0 {
      ShiftedTwice(n, m, i - 1, k - 1);
    }
  }

  lemma FloorIsCovered(n: nat, m: nat)
    ensures Floor(n, m) <= Ceil(n, m)
  {
    hide Two;
    ShiftedMonotone(n, n + Two(m) - 1, m);
  }

  lemma {:induction false} MaxMipsMonotone(a: nat, b: nat)
    requires a <= b
    ensures MaxMips(a) <= MaxMips(b)
    decreases b
  {
    if a > 1 {
      MaxMipsMonotone(a / 2, b / 2);
    }
  }

  /** Each halving takes at most one level. */
  lemma {:induction false} MaxMipsShifted(d: nat, m: nat)
    ensures MaxMips(d) <= m + MaxMips(Shifted(d, m))
  {
    if m > 0 {
      MaxMipsShifted(d, m - 1);
    }
  }

  /** At most eight levels are packed. */
  lemma TailIsShort(width: nat, height: nat, count: nat)
    requires Legal(width, height, count)
    ensures var first := FirstTail(width, height, count, 0); count - first <= 8
  {
    var first := FirstTail(width, height, count, 0);
    if first < count {
      var d := Larger(width, height);
      FloorIsCovered(width, first);
      FloorIsCovered(height, first);
      MaxMipsShifted(d, first);
      MaxMipsMonotone(Shifted(d, first), 128);
      assert MaxMips(128) == 8;
    }
  }

  // ----- The packed tail -----

  /** Extents of the packed levels. */
  const TAIL_WIDTH: seq<nat> := [64, 32, 16, 8, 4, 2, 1, 1]
  const TAIL_HEIGHT: seq<nat> := [128, 64, 32, 16, 8, 4, 2, 1]

  predicate InTail(i: nat, x: nat, y: nat) {
    i < 8 && x < TAIL_WIDTH[i] && y < TAIL_HEIGHT[i]
  }

  lemma TailExtents(i: nat)
    requires i < 8
    ensures AtLeast1(Shifted(64, i)) == TAIL_WIDTH[i] && AtLeast1(Shifted(128, i)) == TAIL_HEIGHT[i]
  {
    assert Shifted(64, 2) == 16 && Shifted(64, 4) == 4 && Shifted(64, 6) == 1;
    assert Shifted(128, 2) == 32 && Shifted(128, 4) == 8 && Shifted(128, 6) == 2;
  }

  lemma TailTexel(width: nat, height: nat, count: nat, first: nat, m: nat, x: nat, y: nat)
    requires first <= m < count && count - first <= 8 && FitsTail(width, height, count, first)
    requires x < Floor(width, m) && y < Floor(height, m)
    ensures InTail(m - first, x, y)
  {
    var i := m - first;
    FloorIsCovered(width, first);
    FloorIsCovered(height, first);
    ShiftedTwice(width, first, i, m);
    ShiftedTwice(height, first, i, m);
    TailExtents(i);
    hide Two, Ceil, Shifted;
    ShiftedMonotone(Shifted(width, first), 64, i);
    ShiftedMonotone(Shifted(height, first), 128, i);
  }

  /** The packed levels lie in the first block and do not overlap. */
  lemma TailApart(i: nat, x: nat, y: nat, j: nat, u: nat, v: nat)
    requires InTail(i, x, y) && InTail(j, u, v)
    ensures x + TAIL[i].0 < 128 && y + TAIL[i].1 < 128 && x < 128 && y < 128
    ensures x + TAIL[i].0 == u + TAIL[j].0 && y + TAIL[i].1 == v + TAIL[j].1 ==> i == j && x == u && y == v
  {
  }

  // ----- Placement of the levels -----

  lemma {:induction false} BytesFromGrows(width: nat, height: nat, count: nat, first: nat, m: nat, k: nat)
    requires m <= k
    ensures BytesFrom(width, height, count, first, k) <= BytesFrom(width, height, count, first, m)
    ensures first < count ==> BLOCK <= BytesFrom(width, height, count, first, m)
    decreases first - m
  {
    hide LevelBytes;
    if m < first {
      if m < k {
        BytesFromGrows(width, height, count, first, m + 1, k);
      } else {
        BytesFromGrows(width, height, count, first, m + 1, m + 1);
      }
    }
  }

  lemma {:induction false} WholeBlocks(width: nat, height: nat, count: nat, first: nat, m: nat)
    ensures BytesFrom(width, height, count, first, m) % 4 == 0
    decreases first - m
  {
    if m < first {
      hide *;
      BytesFromStep(width, height, count, first, m);
      BlockBytesIs(Ceil(width, m), Ceil(height, m));
      WholeBlocks(width, height, count, first, m + 1);
    } else {
      hide LevelBytes;
    }
  }

  lemma BytesFromStep(width: nat, height: nat, count: nat, first: nat, m: nat)
    requires m < first
    ensures BytesFrom(width, height, count, first, m)
         == BytesFrom(width, height, count, first, m + 1) + BlockBytes(Ceil(width, m), Ceil(height, m))
    ensures LevelBytes(width, height, m) == BlockBytes(Ceil(width, m), Ceil(height, m))
  {
  }

  /** The blocks a texel lies in, and its coordinates there: its level's own, or the tail block. */
  datatype Place = Place(lo: nat, hi: nat, columns: nat, x: nat, y: nat)

  function PlaceOf(width: nat, height: nat, count: nat, first: nat, x: nat, y: nat, level: nat): Place
    requires level < first || level - first < 8
  {
    if level < first then
      Place(BytesFrom(width, height, count, first, level + 1), BytesFrom(width, height, count, first, level),
            Blocks(Ceil(width, level)), x, y)
    else Place(0, BLOCK, 1, x + TAIL[level - first].0, y + TAIL[level - first].1)
  }

  function CellAt(p: Place): nat {
    p.lo + Cell(Color, p.columns, p.x, p.y)
  }

  /** The place's cell is a whole texel inside its blocks. */
  predicate Inside(p: Place) {
    p.x / 128 < p.columns && CellAt(p) % 4 == 0 && CellAt(p) + 4 <= p.hi
  }

  lemma OwnBlocks(width: nat, height: nat, count: nat, first: nat, x: nat, y: nat, level: nat)
    requires level < first && x < Floor(width, level) && y < Floor(height, level)
    ensures Inside(PlaceOf(width, height, count, first, x, y, level))
  {
    FloorIsCovered(width, level);
    FloorIsCovered(height, level);
    hide InBlock, BytesFrom, BlockBytes, FirstTail, Ceil, Floor, Blocks, Cell;
    CellInside(Color, Ceil(width, level), Ceil(height, level), x, y);
    BytesFromStep(width, height, count, first, level);
    WholeBlocks(width, height, count, first, level + 1);
  }

  lemma PackedBlock(x: nat, y: nat, p: Place)
    requires p.lo == 0 && p.hi == BLOCK && p.columns == 1 && p.x < 128 && p.y < 128
    ensures Inside(p)
  {
    InBlockRange(Color, p.x, p.y);
    hide InBlock;
  }

  lemma TexelInLevel(width: nat, height: nat, count: nat, x: nat, y: nat, level: nat)
    requires Legal(width, height, count) && Texel(SurfaceOf(width, height, count), x, y, level)
    ensures var first := FirstTail(width, height, count, 0);
            && level < count && x < Floor(width, level) && y < Floor(height, level)
            && (first <= level ==> level - first < 8 && InTail(level - first, x, y))
  {
    var first := FirstTail(width, height, count, 0);
    TailIsShort(width, height, count);
    hide Floor, Ceil, BytesFrom, InTail, Legal, FirstTail;
    if first <= level {
      TailTexel(width, height, count, first, level, x, y);
    }
  }

  lemma OffsetIsCell(m: Mip, x: nat, y: nat, p: Place)
    requires m.offset == p.lo && m.paddedWidth == p.columns * 128 && x + m.tailX == p.x && y + m.tailY == p.y
    requires (m.tailX == 0 && m.tailY == 0) || (p.columns == 1 && x < 128 && y < 128 && p.x < 128 && p.y < 128)
    ensures OffsetIn(m, x, y) == CellAt(p)
  {
    hide InBlock, Span;
    assert m.paddedWidth / 128 == p.columns;
    if m.tailX != 0 || m.tailY != 0 {
      assert x / 128 == 0 && y / 128 == 0 && p.x / 128 == 0 && p.y / 128 == 0;
    }
  }

  /** The level's record, and where its texels are. */
  lemma MipAt(width: nat, height: nat, count: nat, first: nat, x: nat, y: nat, level: nat)
    requires Legal(width, height, count) && Texel(SurfaceOf(width, height, count), x, y, level)
    requires first == FirstTail(width, height, count, 0)
    ensures level < count && (first < count ==> count - first <= 12)
    ensures PixelOffset(SurfaceOf(width, height, count), x, y, level)
        == Ok(OffsetIn(MipOf(width, height, count, first, level), x, y))
  {
    hide OffsetIn, MipOf, Legal, BytesFrom, LinearBytes, Ceil;
  }

  /** `pixel_offset` is the cell of the texel's place, inside the place's blocks. */
  lemma TexelPlaced(width: nat, height: nat, count: nat, first: nat, x: nat, y: nat, level: nat) returns (p: Place)
    requires Legal(width, height, count) && Texel(SurfaceOf(width, height, count), x, y, level)
    requires first == FirstTail(width, height, count, 0)
    ensures (level < first || level - first < 8) && p == PlaceOf(width, height, count, first, x, y, level)
    ensures Inside(p) && PixelOffset(SurfaceOf(width, height, count), x, y, level) == Ok(CellAt(p))
  {
    hide OffsetIn, BytesFrom, FirstTail, Ceil, Floor, Legal, SurfaceOf, Inside, Blocks, InTail, CellAt, PixelOffset,
        Texel;
    TexelInLevel(width, height, count, x, y, level);
    MipAt(width, height, count, first, x, y, level);
    p := PlaceOf(width, height, count, first, x, y, level);
    if level < first {
      OwnBlocks(width, height, count, first, x, y, level);
    } else {
      TailApart(level - first, x, y, level - first, x, y);
      PackedBlock(x, y, p);
    }
    OffsetIsCell(MipOf(width, height, count, first, level), x, y, p);
  }

  /** Levels with blocks of their own lie behind all higher levels. */
  lemma PlacesOrdered(width: nat, height: nat, count: nat, first: nat, x: nat, y: nat, level: nat, u: nat, v: nat,
                      other: nat)
    requires level < other < count && level < first <= count && (other < first || other - first < 8)
    ensures PlaceOf(width, height, count, first, u, v, other).hi <= PlaceOf(width, height, count, first, x, y, level).lo
  {
    BytesFromGrows(width, height, count, first, level + 1, if other < first then other else level + 1);
    hide BytesFrom;
  }

  lemma PlaceBelow(width: nat, height: nat, count: nat, first: nat, x: nat, y: nat, level: nat)
    requires level < count && first <= count && (level < first || level - first < 8)
    ensures PlaceOf(width, height, count, first, x, y, level).hi <= BytesFrom(width, height, count, first, 0)
  {
    BytesFromGrows(width, height, count, first, 0, if level < first then level else 0);
    hide BytesFrom;
  }

  /** Cells of one place. */
  lemma CellsApart(p: Place, q: Place)
    requires Inside(p) && Inside(q)
    ensures p.hi <= q.lo ==> CellAt(p) + 4 <= CellAt(q)
    ensures p.lo == q.lo && p.columns == q.columns ==>
              CellAt(p) + 4 <= CellAt(q) || CellAt(q) + 4 <= CellAt(p) || (p.x == q.x && p.y == q.y)
  {
    hide Cell;
    if p.columns == q.columns && Cell(Color, p.columns, p.x, p.y) == Cell(Color, q.columns, q.x, q.y) {
      CellInjective(Color, p.columns, p.x, p.y, q.x, q.y);
    }
  }

  lemma PackedApart(i: nat, x: nat, y: nat, j: nat, u: nat, v: nat, p: Place, q: Place)
    requires InTail(i, x, y) && InTail(j, u, v)
    requires p == Place(0, BLOCK, 1, x + TAIL[i].0, y + TAIL[i].1)
    requires q == Place(0, BLOCK, 1, u + TAIL[j].0, v + TAIL[j].1)
    ensures p.x == q.x && p.y == q.y ==> i == j && x == u && y == v
  {
    hide InTail;
    TailApart(i, x, y, j, u, v);
  }

  lemma PlacesApart(width: nat, height: nat, count: nat, first: nat, x: nat, y: nat, level: nat, u: nat, v: nat,
                    other: nat)
    requires level < count && other < count && first <= count
    requires first <= level ==> level - first < 8 && InTail(level - first, x, y)
    requires first <= other ==> other - first < 8 && InTail(other - first, u, v)
    requires Inside(PlaceOf(width, height, count, first, x, y, level))
    requires Inside(PlaceOf(width, height, count, first, u, v, other))
    ensures var a := CellAt(PlaceOf(width, height, count, first, x, y, level));
            var b := CellAt(PlaceOf(width, height, count, first, u, v, other));
            a + 4 <= b || b + 4 <= a || (level == other && x == u && y == v)
  {
    hide Inside, CellAt, BytesFrom, Blocks, Ceil, InTail;
    var p, q := PlaceOf(width, height, count, first, x, y, level), PlaceOf(width, height, count, first, u, v, other);
    CellsApart(p, q);
    CellsApart(q, p);
    if level < other && level < first {
      PlacesOrdered(width, height, count, first, x, y, level, u, v, other);
    } else if other < level && other < first {
      PlacesOrdered(width, height, count, first, u, v, other, x, y, level);
    } else if first <= level {
      PackedApart(level - first, x, y, other - first, u, v, p, q);
    }
  }

  /** A 4-byte cell inside the surface, and two cells that do not overlap. */
  predicate WholeTexel(a: Result<nat>, bytes: nat) {
    a.Ok? && a.value % 4 == 0 && a.value + 4 <= bytes
  }

  predicate Separate(a: Result<nat>, b: Result<nat>) {
    a.Ok? && b.Ok? && (a.value + 4 <= b.value || b.value + 4 <= a.value)
  }

  /** The texels of a surface take disjoint 4-byte cells inside `byte_size()`, packed levels included. */
  lemma TexelsApart(width: nat, height: nat, count: nat, x: nat, y: nat, level: nat, u: nat, v: nat, other: nat)
    requires Legal(width, height, count)
    requires Texel(SurfaceOf(width, height, count), x, y, level) && Texel(SurfaceOf(width, height, count), u, v, other)
    ensures var s := SurfaceOf(width, height, count);
            var a, b := PixelOffset(s, x, y, level), PixelOffset(s, u, v, other);
            WholeTexel(a, s.bytes) && WholeTexel(b, s.bytes) && (Separate(a, b) || (level == other && x == u && y == v))
  {
    var first := FirstTail(width, height, count, 0);
    hide *;
    var p := TexelSummary(width, height, count, first, x, y, level);
    var q := TexelSummary(width, height, count, first, u, v, other);
    SurfaceBytes(width, height, count, first);
    PlacesApart(width, height, count, first, x, y, level, u, v, other);
    CellsSeparate(p, q, level == other && x == u && y == v);
  }

  lemma CellsSeparate(p: Place, q: Place, same: bool)
    requires CellAt(p) + 4 <= CellAt(q) || CellAt(q) + 4 <= CellAt(p) || same
    ensures Separate(Ok(CellAt(p)), Ok(CellAt(q))) || same
  {
    hide CellAt;
  }

  lemma TexelSummary(width: nat, height: nat, count: nat, first: nat, x: nat, y: nat, level: nat) returns (p: Place)
    requires Legal(width, height, count) && Texel(SurfaceOf(width, height, count), x, y, level)
    requires first == FirstTail(width, height, count, 0)
    ensures level < count && (first <= level ==> level - first < 8 && InTail(level - first, x, y))
    ensures (level < first || level - first < 8) && p == PlaceOf(width, height, count, first, x, y, level) && Inside(p)
    ensures PixelOffset(SurfaceOf(width, height, count), x, y, level) == Ok(CellAt(p))
    ensures WholeTexel(Ok(CellAt(p)), SurfaceOf(width, height, count).bytes)
  {
    hide PixelOffset, Texel, SurfaceOf, BytesFrom, Floor, Ceil, Legal, FirstTail, CellAt, PlaceOf, InTail;
    TexelInLevel(width, height, count, x, y, level);
    p := TexelPlaced(width, height, count, first, x, y, level);
    SurfaceBytes(width, height, count, first);
    PlaceBelow(width, height, count, first, x, y, level);
  }

  lemma SurfaceBytes(width: nat, height: nat, count: nat, first: nat)
    requires first == FirstTail(width, height, count, 0)
    ensures SurfaceOf(width, height, count).bytes == BytesFrom(width, height, count, first, 0)
    ensures first <= count
  {
    hide BytesFrom, MipOf, LinearBytes;
  }

  // ----- The constructor -----

  /** Bytes of the levels below `m` that have blocks of their own. */
  function BytesBelow(width: nat, height: nat, first: nat, m: nat): nat {
    if m == 0 then 0 else BytesBelow(width, height, first, m - 1) + if m - 1 < first
        then LevelBytes(width, height, m - 1) else 0
  }

  lemma {:induction false} BytesBothWays(width: nat, height: nat, count: nat, first: nat, m: nat)
    requires m <= first <= count
    ensures BytesBelow(width, height, first, m) + BytesFrom(width, height, count, first, m)
        == BytesFrom(width, height, count, first, 0)
  {
    hide LevelBytes;
    if m > 0 {
      BytesBothWays(width, height, count, first, m - 1);
    }
  }

  lemma {:induction false} NothingBehind(width: nat, height: nat, first: nat, m: nat)
    requires first <= m
    ensures BytesBelow(width, height, first, m) == BytesBelow(width, height, first, first)
  {
    hide LevelBytes;
    if first < m {
      NothingBehind(width, height, first, m - 1);
    }
  }

  /** The loop that counts the levels of the longest chain. */
  method CountLevels(d: nat) returns (levels: nat)
    ensures levels == MaxMips(d)
  {
    levels := 1;
    var left := d;
    while left > 1
      invariant levels + MaxMips(left) == MaxMips(d) + 1
    {
      left, levels := left / 2, levels + 1;
    }
  }

  /** What the first loop of the constructor has built after `m` levels; offsets are still missing. */
  ghost predicate Built(mips: seq<Mip>, sizes: seq<nat>, width: nat, height: nat, count: nat, first: nat, m: nat)
  {
    && |mips| == m && |sizes| == m && first <= count && (first < count ==> count - first <= 12)
    && (forall k :: 0 <= k < m && k < count ==> mips[k] == MipOf(width, height, count, first, k).(offset := 0))
    && (forall k :: 0 <= k < m && k < first ==> sizes[k] == LevelBytes(width, height, k))
  }

  /** The tail test of the first loop: the tail starts at the first level that fits. */
  method TailTest(firstTail: nat, width: nat, height: nat, count: nat, m: nat) returns (first: nat)
    requires m < count
    requires firstTail == (if FirstTail(width, height, count, 0) < m then FirstTail(width, height, count, 0) else count)
    ensures first == (if FirstTail(width, height, count, 0) < m + 1 then FirstTail(width, height, count, 0) else count)
  {
    hide Ceil;
    first := firstTail;
    var fits := count > 1 && first == count && Ceil(width, m) <= 64 && Ceil(height, m) <= 128 && count - m <= 12;
    ghost var tail := FirstTail(width, height, count, 0);
    assert tail >= m ==> (fits <==> FitsTail(width, height, count, m));
    hide FitsTail;
    if fits {
      first := m;
    }
  }

  /** One iteration of the first loop. */
  method AddLevel(mips: seq<Mip>, sizes: seq<nat>, bytes: nat, first: nat, width: nat, height: nat, count: nat, m: nat,
                  ghost tail: nat)
    returns (more: seq<Mip>, moreSizes: seq<nat>, moreBytes: nat)
    requires m < count && first == (if tail < m + 1 then tail else count)
    requires Built(mips, sizes, width, height, count, tail, m) && bytes == BytesBelow(width, height, tail, m)
    ensures Built(more, moreSizes, width, height, count, tail, m + 1)
    ensures moreBytes == BytesBelow(width, height, tail, m + 1)
  {
    var wide, high, wc, hc := Floor(width, m), Floor(height, m), Ceil(width, m), Ceil(height, m);
    assert LevelBytes(width, height, m) == Aligned(wc) * Aligned(hc) * 4;
    hide Ceil, Floor, Aligned, LevelBytes, BytesFrom;
    if m < first {
      var size := Aligned(wc) * Aligned(hc) * 4;
      more := mips + [Mip(wide, high, Aligned(wc), 0, 0, 0)];
      moreSizes := sizes + [size];
      moreBytes := bytes + size;
    } else {
      more := mips + [Mip(wide, high, 128, TAIL[m - first].0, TAIL[m - first].1, 0)];
      moreSizes := sizes + [0];
      moreBytes := bytes;
    }
  }

  /** The second loop of the constructor: from the last own level down to level 0, behind the tail block. */
  method PlaceLevels(mips: seq<Mip>, sizes: seq<nat>, firstTail: nat, ghost width: nat, ghost height: nat, count: nat)
    returns (placed: seq<Mip>, end: nat)
    requires Built(mips, sizes, width, height, count, firstTail, count)
    ensures |placed| == count && end == BytesFrom(width, height, count, firstTail, 0)
    ensures forall k :: 0 <= k < count ==> placed[k] == MipOf(width, height, count, firstTail, k)
  {
    hide LevelBytes, Floor, Ceil, Aligned;
    placed := mips;
    end := if firstTail < count then BLOCK else 0;
    var m: nat := firstTail;
    while m > 0
      invariant m <= firstTail && |placed| == count && end == BytesFrom(width, height, count, firstTail, m)
      invariant forall k :: m <= k < count ==> placed[k] == MipOf(width, height, count, firstTail, k)
      invariant forall k :: 0 <= k < m ==> placed[k] == MipOf(width, height, count, firstTail, k).(offset := 0)
    {
      m := m - 1;
      placed := placed[m := placed[m].(offset := end)];
      end := end + sizes[m];
    }
  }

  /** The constructor: rejects illegal sizes and counts, and builds the mip chain. */
  method Build(width: nat, height: nat, count: nat) returns (r: Result<Surface>)
    ensures r == if Legal(width, height, count) then Ok(SurfaceOf(width, height, count)) else Err
  {
    if width == 0 || height == 0 || width > 16384 || height > 16384 || count == 0 || count > 15 {
      return Err;
    }
    var levels := CountLevels(Larger(width, height));
    if count > levels {
      return Err;
    }
    var surface := BuildLevels(width, height, count);
    return Ok(surface);
  }

  lemma SurfaceIs(width: nat, height: nat, count: nat, first: nat, placed: seq<Mip>)
    requires first == FirstTail(width, height, count, 0) && |placed| == count
    requires forall k :: 0 <= k < count ==> placed[k] == MipOf(width, height, count, first, k)
    ensures Surface(width, height, count, BytesFrom(width, height, count, first, 0), LinearBytes(width, height, count),
                    placed)
         == SurfaceOf(width, height, count)
  {
    hide MipOf, BytesFrom, LinearBytes;
    assert placed == SurfaceOf(width, height, count).mips;
  }

  method AddLinear(linear: nat, width: nat, height: nat) returns (more: nat)
    ensures more == linear + Span(width, height) * 4
  {
    SpanIsProduct(width, height);
    assert Span(width, height) == width * height;
    more := linear + width * height * 4;
  }

  /** The two loops of the constructor. */
  method BuildLevels(width: nat, height: nat, count: nat) returns (s: Surface)
    ensures s == SurfaceOf(width, height, count)
  {
    ghost var tail := FirstTail(width, height, count, 0);
    BuiltStart(width, height, count, tail);
    hide FirstTail, MipOf, BytesFrom, BytesBelow, Floor, Ceil, LevelBytes, SurfaceOf, Built, Span;
    var mips: seq<Mip>, sizes: seq<nat> := [], [];
    var bytes, linear, firstTail: nat := 0, 0, count;
    for m := 0 to count
      invariant Built(mips, sizes, width, height, count, tail, m)
      invariant firstTail == (if tail < m then tail else count)
      invariant bytes == BytesBelow(width, height, tail, m) && linear == LinearBytes(width, height, m)
    {
      firstTail := TailTest(firstTail, width, height, count, m);
      mips, sizes, bytes := AddLevel(mips, sizes, bytes, firstTail, width, height, count, m, tail);
      linear := AddLinear(linear, Floor(width, m), Floor(height, m));
    }
    hide LinearBytes;
    TotalBytes(width, height, count, tail);
    bytes := bytes + if firstTail < count then BLOCK else 0;
    var placed, end := PlaceLevels(mips, sizes, firstTail, width, height, count);
    SurfaceIs(width, height, count, tail, placed);
    s := Surface(width, height, count, bytes, linear, placed);
  }

  lemma BuiltStart(width: nat, height: nat, count: nat, tail: nat)
    requires tail == FirstTail(width, height, count, 0)
    ensures tail <= count && Built([], [], width, height, count, tail, 0) && BytesBelow(width, height, tail, 0) == 0
  {
    hide MipOf, LevelBytes;
  }

  lemma TotalBytes(width: nat, height: nat, count: nat, first: nat)
    requires first <= count
    ensures BytesBelow(width, height, first, count) + (if first < count then BLOCK else 0)
        == BytesFrom(width, height, count, first, 0)
  {
    BytesBothWays(width, height, count, first, first);
    NothingBehind(width, height, first, count);
    hide BytesBelow, LevelBytes;
  }

  // ----- Tiling -----

  /** Where the pixels of a level, a row and a texel start in the linear image. */
  function SourceOf(width: nat, height: nat, x: nat, y: nat, level: nat): nat {
    LinearBytes(width, height, level) + 4 * (Span(Floor(width, level), y) + x)
  }

  /** Reading the texel's cell gives its source pixel. */
  predicate Holds(data: seq<byte>, at: Result<nat>, pixels: seq<byte>, from: nat) {
    && at.Ok? && at.value + 4 <= |data| && from + 4 <= |pixels|
    && data[at.value..at.value + 4] == pixels[from..from + 4]
  }

  /** Texels in the order of the three loops. */
  predicate Before(x: nat, y: nat, level: nat, endX: nat, endY: nat, endLevel: nat) {
    level < endLevel || (level == endLevel && (y < endY || (y == endY && x < endX)))
  }

  ghost predicate TiledTo(data: seq<byte>, s: Surface, pixels: seq<byte>, endX: nat, endY: nat, endLevel: nat) {
    forall x, y, level :: Texel(s, x, y, level) && Before(x, y, level, endX, endY, endLevel)
      ==> Holds(data, PixelOffset(s, x, y, level), pixels, SourceOf(s.width, s.height, x, y, level))
  }

  predicate Covers(at: Result<nat>, i: nat) {
    at.Ok? && at.value <= i < at.value + 4
  }

  /** No texel has this byte. */
  ghost predicate Padding(s: Surface, i: nat) {
    forall x, y, level :: Texel(s, x, y, level) ==> !Covers(PixelOffset(s, x, y, level), i)
  }

  ghost predicate PaddingIsZero(data: seq<byte>, s: Surface) {
    forall i :: 0 <= i < |data| && i < s.bytes && Padding(s, i) ==> data[i] == 0
  }

  /** Four bytes stored at `at`. */
  function Stored(data: seq<byte>, at: nat, b: seq<byte>): (r: seq<byte>)
    requires at + 4 <= |data| && |b| == 4
    ensures |r| == |data| && forall i :: 0 <= i < |data| ==> r[i] == if at <= i < at + 4 then b[i - at] else data[i]
  {
    data[..at] + b + data[at + 4..]
  }

  lemma HoldsElsewhere(data: seq<byte>, a: Result<nat>, b: Result<nat>, bytes: seq<byte>, pixels: seq<byte>, from: nat)
    requires Separate(a, b) && b.value + 4 <= |data| && |bytes| == 4 && Holds(data, a, pixels, from)
    ensures Holds(Stored(data, b.value, bytes), a, pixels, from)
  {
    assert Stored(data, b.value, bytes)[a.value..a.value + 4] == data[a.value..a.value + 4];
  }

  lemma HoldsHere(data: seq<byte>, at: Result<nat>, pixels: seq<byte>, from: nat)
    requires at.Ok? && at.value + 4 <= |data| && from + 4 <= |pixels|
    ensures Holds(Stored(data, at.value, pixels[from..from + 4]), at, pixels, from)
  {
  }

  /** Writing the next texel keeps all texels written before it, and the padding. */
  lemma TexelStep(data: seq<byte>, s: Surface, pixels: seq<byte>, x: nat, y: nat, level: nat, at: Result<nat>,
                  from: nat)
    requires IsSurface(s) && s.bytes <= |data|
    requires Texel(s, x, y, level) && at == PixelOffset(s, x, y, level) && WholeTexel(at, s.bytes)
    requires from == SourceOf(s.width, s.height, x, y, level) && from + 4 <= |pixels|
    requires TiledTo(data, s, pixels, x, y, level) && PaddingIsZero(data, s)
    ensures var now := Stored(data, at.value, pixels[from..from + 4]);
            TiledTo(now, s, pixels, x + 1, y, level) && PaddingIsZero(now, s)
  {
    var b := pixels[from..from + 4];
    var now := Stored(data, at.value, b);
    hide SurfaceOf, PixelOffset, Legal, Texel, SourceOf;
    forall u, v, k | Texel(s, u, v, k) && Before(u, v, k, x + 1, y, level)
      ensures Holds(now, PixelOffset(s, u, v, k), pixels, SourceOf(s.width, s.height, u, v, k))
    {
      if u == x && v == y && k == level {
        HoldsHere(data, at, pixels, from);
      } else {
        assert Before(u, v, k, x, y, level);
        TexelsApart(s.width, s.height, s.count, u, v, k, x, y, level);
        HoldsElsewhere(data, PixelOffset(s, u, v, k), at, b, pixels, SourceOf(s.width, s.height, u, v, k));
      }
    }
    forall i | 0 <= i < |now| && i < s.bytes && Padding(s, i)
      ensures now[i] == 0
    {
      assert !Covers(PixelOffset(s, x, y, level), i);
    }
  }

  lemma {:induction false} LinearGrows(width: nat, height: nat, a: nat, b: nat)
    requires a <= b
    ensures LinearBytes(width, height, a) <= LinearBytes(width, height, b)
  {
    if a < b {
      LinearGrows(width, height, a, b - 1);
    }
  }

  /** Extents of the level `level` of a surface. */
  lemma Extents(s: Surface, level: nat)
    requires IsSurface(s) && level < s.count
    ensures |s.mips| == s.count && s.linearBytes == LinearBytes(s.width, s.height, s.count)
    ensures s.mips[level].width == Floor(s.width, level) && s.mips[level].height == Floor(s.height, level)
  {
    TailIsShort(s.width, s.height, s.count);
    assert s.mips[level] == MipOf(s.width, s.height, s.count, FirstTail(s.width, s.height, s.count, 0), level);
    hide BytesFrom, LinearBytes, Floor, FirstTail;
  }

  /** A texel's source pixel lies in the linear image. */
  lemma SourceInside(s: Surface, x: nat, y: nat, level: nat)
    requires IsSurface(s) && level < s.count
    requires x < Floor(s.width, level) && y < Floor(s.height, level)
    ensures SourceOf(s.width, s.height, x, y, level) + 4 <= s.linearBytes
    ensures Texel(s, x, y, level)
  {
    Extents(s, level);
    SpanInside(y, Floor(s.height, level), Floor(s.width, level));
    LinearGrows(s.width, s.height, level + 1, s.count);
    hide Floor, SurfaceOf, Legal;
  }

  lemma RowEnd(s: Surface, y: nat, level: nat)
    ensures SourceOf(s.width, s.height, Floor(s.width, level), y, level) == SourceOf(s.width, s.height, 0, y + 1, level)
    ensures SourceOf(s.width, s.height, 0, Floor(s.height, level), level)
        == SourceOf(s.width, s.height, 0, 0, level + 1)
  {
    hide Floor;
  }

  /** The end of a row is the start of the next one, the end of a level the start of the next one. */
  lemma OrderEnd(data: seq<byte>, s: Surface, pixels: seq<byte>, y: nat, level: nat)
    requires level < |s.mips|
    ensures TiledTo(data, s, pixels, s.mips[level].width, y, level) ==> TiledTo(data, s, pixels, 0, y + 1, level)
    ensures TiledTo(data, s, pixels, 0, s.mips[level].height, level) ==> TiledTo(data, s, pixels, 0, 0, level + 1)
  {
    hide Holds, PixelOffset, SourceOf;
  }

  /** What the loops keep: texels so far, padding, and the bytes behind the surface. */
  ghost predicate Tiling(data: seq<byte>, was: seq<byte>, s: Surface, pixels: seq<byte>, x: nat, y: nat, level: nat) {
    && |data| == |was| && s.bytes <= |data| && data[s.bytes..] == was[s.bytes..]
    && TiledTo(data, s, pixels, x, y, level) && PaddingIsZero(data, s)
  }

  /** `memcpy` of one texel. */
  method TileTexel(s: Surface, storage: array<byte>, ghost was: seq<byte>, pixels: seq<byte>, x: nat, y: nat,
                   level: nat, source: nat)
    requires IsSurface(s) && |pixels| == s.linearBytes
    requires level < s.count && x < Floor(s.width, level) && y < Floor(s.height, level)
    requires source == SourceOf(s.width, s.height, x, y, level) && Tiling(storage[..], was, s, pixels, x, y, level)
    modifies storage
    ensures Tiling(storage[..], was, s, pixels, x + 1, y, level)
  {
    hide SurfaceOf, Legal, Floor, Texel, SourceOf, TiledTo, PaddingIsZero, PixelOffset, Separate;
    SourceInside(s, x, y, level);
    TexelsApart(s.width, s.height, s.count, x, y, level, x, y, level);
    var offset := PixelOffset(s, x, y, level);
    var at := offset.value;
    ghost var before := storage[..];
    TexelStep(before, s, pixels, x, y, level, offset, source);
    forall c | 0 <= c < 4 {
      storage[at + c] := pixels[source + c];
    }
    assert storage[..] == Stored(before, at, pixels[source..source + 4]);
    assert storage[s.bytes..] == before[s.bytes..];
  }

  method TileRow(s: Surface, storage: array<byte>, ghost was: seq<byte>, pixels: seq<byte>, y: nat, level: nat,
                 source: nat) returns (next: nat)
    requires IsSurface(s) && |pixels| == s.linearBytes
    requires level < s.count && y < Floor(s.height, level)
    requires source == SourceOf(s.width, s.height, 0, y, level) && Tiling(storage[..], was, s, pixels, 0, y, level)
    modifies storage
    ensures next == SourceOf(s.width, s.height, 0, y + 1, level) && Tiling(storage[..], was, s, pixels, 0, y + 1, level)
  {
    Extents(s, level);
    RowEnd(s, y, level);
    next := source;
    for x := 0 to s.mips[level].width
      invariant next == SourceOf(s.width, s.height, x, y, level) && Tiling(storage[..], was, s, pixels, x, y, level)
    {
      hide IsSurface, SurfaceOf, Legal, Floor, Tiling;
      TileTexel(s, storage, was, pixels, x, y, level, next);
      next := next + 4;
    }
    OrderEnd(storage[..], s, pixels, y, level);
  }

  method TileLevel(s: Surface, storage: array<byte>, ghost was: seq<byte>, pixels: seq<byte>, level: nat,
                   source: nat) returns (next: nat)
    requires IsSurface(s) && |pixels| == s.linearBytes
    requires level < s.count
    requires source == SourceOf(s.width, s.height, 0, 0, level) && Tiling(storage[..], was, s, pixels, 0, 0, level)
    modifies storage
    ensures next == SourceOf(s.width, s.height, 0, 0, level + 1) && Tiling(storage[..], was, s, pixels, 0, 0, level + 1)
  {
    Extents(s, level);
    RowEnd(s, 0, level);
    hide IsSurface, SurfaceOf, Legal, Floor, SourceOf;
    next := source;
    for y := 0 to s.mips[level].height
      invariant next == SourceOf(s.width, s.height, 0, y, level) && Tiling(storage[..], was, s, pixels, 0, y, level)
    {
      next := TileRow(s, storage, was, pixels, y, level, next);
    }
    OrderEnd(storage[..], s, pixels, 0, level);
  }

  /** The tiled image: every texel's cell holds its source pixel, and padding holds no old data. */
  ghost predicate Tiled(data: seq<byte>, s: Surface, pixels: seq<byte>) {
    && (forall x, y, level :: Texel(s, x, y, level) ==>
          Holds(data, PixelOffset(s, x, y, level), pixels, SourceOf(s.width, s.height, x, y, level)))
    && PaddingIsZero(data, s)
  }

  method FillZeros(storage: array<byte>, n: nat)
    requires n <= storage.Length
    modifies storage
    ensures forall i :: 0 <= i < storage.Length ==> storage[..][i] == if i < n then 0 else old(storage[..])[i]
  {
    forall i | 0 <= i < n {
      storage[i] := 0;
    }
  }

  predicate In(k: nat, start: nat, n: nat) {
    start <= k < start + n
  }

  /** The two ranges have a byte in common. */
  ghost predicate Share(a: nat, an: nat, b: nat, bn: nat) {
    exists k :: In(k, a, an) && In(k, b, bn)
  }

  /** The source's test with one subtraction is that of a common byte. */
  lemma OverlapTest(a: nat, an: nat, b: nat, bn: nat)
    requires an > 0 && bn > 0
    ensures Share(a, an, b, bn) <==> if a <= b then b - a < an else a - b < bn
  {
    if a <= b && b - a < an {
      assert In(b, a, an) && In(b, b, bn);
    }
    if a > b && a - b < bn {
      assert In(a, a, an) && In(a, b, bn);
    }
  }

  lemma NotEmpty(s: Surface)
    requires IsSurface(s)
    ensures s.bytes > 0 && s.linearBytes > 0
  {
    assert Floor(s.width, 0) == s.width && Floor(s.height, 0) == s.height;
    SourceInside(s, 0, 0, 0);
    TexelsApart(s.width, s.height, s.count, 0, 0, 0, 0, 0, 0);
    hide SurfaceOf, SourceOf, PixelOffset, Texel, Floor;
  }

  /** `tile`: copies every pixel of every level to its cell. `target` and `from` are the addresses of the two buffers;
      it refuses sizes that do not match and buffers that overlap. */
  method Tile(s: Surface, storage: array<byte>, pixels: seq<byte>, target: nat, from: nat) returns (ok: bool)
    requires IsSurface(s)
    modifies storage
    ensures ok <==> s.bytes <= storage.Length && |pixels| == s.linearBytes && !Share(target, s.bytes, from, |pixels|)
    ensures !ok ==> storage[..] == old(storage[..])
    ensures ok ==> Tiled(storage[..], s, pixels) && storage[s.bytes..] == old(storage[s.bytes..])
  {
    if storage.Length < s.bytes || |pixels| != s.linearBytes {
      return false;
    }
    NotEmpty(s);
    OverlapTest(target, s.bytes, from, s.linearBytes);
    if if target <= from then from - target < s.bytes else target - from < s.linearBytes {
      return false;
    }
    ghost var was := storage[..];
    Extents(s, 0);
    hide IsSurface, SurfaceOf, Legal, Tiling, SourceOf;
    FillZeros(storage, s.bytes);
    TilingStart(storage[..], was, s, pixels);
    var source: nat := 0;
    for level := 0 to s.count
      invariant source == SourceOf(s.width, s.height, 0, 0, level) && Tiling(storage[..], was, s, pixels, 0, 0, level)
    {
      source := TileLevel(s, storage, was, pixels, level, source);
    }
    TilingDone(storage[..], was, s, pixels);
    return true;
  }

  lemma TilingStart(data: seq<byte>, was: seq<byte>, s: Surface, pixels: seq<byte>)
    requires s.bytes <= |data| == |was|
    requires forall i :: 0 <= i < |data| ==> data[i] == if i < s.bytes then 0 else was[i]
    ensures Tiling(data, was, s, pixels, 0, 0, 0) && SourceOf(s.width, s.height, 0, 0, 0) == 0
  {
    hide Floor, PixelOffset;
  }

  lemma TilingDone(data: seq<byte>, was: seq<byte>, s: Surface, pixels: seq<byte>)
    requires |s.mips| == s.count && Tiling(data, was, s, pixels, 0, 0, s.count)
    ensures Tiled(data, s, pixels) && s.bytes <= |data| == |was| && data[s.bytes..] == was[s.bytes..]
  {
    hide Holds, PixelOffset, SourceOf;
  }

  // ----- Depth surfaces -----

  /** `DepthLayout`: a single level of whole blocks. */
  datatype DepthSurface = DepthSurface(width: nat, height: nat, paddedWidth: nat, bytes: nat)

  function DepthOf(width: nat, height: nat): Result<DepthSurface> {
    if width == 0 || height == 0 || width > 16384 || height > 16384 then Err
    else Ok(DepthSurface(width, height, Aligned(width), BlockBytes(width, height)))
  }

  /** `mkw_depth_pixel_offset`, in 32-bit arithmetic. */
  function DepthOffset(s: DepthSurface, x: nat, y: nat): Result<nat> {
    if x >= s.width || y >= s.height then Err
    else
      var block := BlockOf(s.paddedWidth / 128, x, y) % WORD;
      Ok((block * BLOCK % WORD + InBlock(Depth, x, y)) % WORD)
  }

  /** Depth texels take disjoint 4-byte cells inside the surface, and the 32-bit arithmetic never wraps. */
  lemma DepthTexelsApart(width: nat, height: nat, x: nat, y: nat, u: nat, v: nat)
    requires DepthOf(width, height).Ok? && x < width && y < height && u < width && v < height
    ensures var s := DepthOf(width, height).value;
            var a, b := DepthOffset(s, x, y), DepthOffset(s, u, v);
            WholeTexel(a, s.bytes) && WholeTexel(b, s.bytes) && (Separate(a, b) || (x == u && y == v))
  {
    hide InBlock, Span, Cell, DepthOffset, BlockBytes, Blocks, Aligned;
    DepthCell(width, height, x, y);
    DepthCell(width, height, u, v);
    if Cell(Depth, Blocks(width), x, y) == Cell(Depth, Blocks(width), u, v) {
      CellInjective(Depth, Blocks(width), x, y, u, v);
    }
  }

  lemma SmallProduct(a: nat, b: nat)
    requires a <= 128 && b <= 128
    ensures a * b <= 16384
  {
    assert (128 - a) * b >= 0;
  }

  lemma DepthBytes(width: nat, height: nat)
    requires width <= 16384 && height <= 16384
    ensures BlockBytes(width, height) <= 0x4000_0000
  {
    BlockBytesIs(width, height);
    var a, b := Blocks(width), Blocks(height);
    assert a <= 128 && b <= 128;
    hide BlockBytes, Span, Blocks;
    SpanIsProduct(a, b);
    SmallProduct(a, b);
  }

  lemma NoWrap(block: nat, inside: nat)
    requires block * BLOCK + inside < WORD
    ensures (block % WORD * BLOCK % WORD + inside) % WORD == block * BLOCK + inside
  {
  }

  lemma DepthCell(width: nat, height: nat, x: nat, y: nat)
    requires DepthOf(width, height).Ok? && x < width && y < height
    ensures var s := DepthOf(width, height).value;
            && DepthOffset(s, x, y) == Ok(Cell(Depth, Blocks(width), x, y))
            && x / 128 < Blocks(width) && WholeTexel(DepthOffset(s, x, y), s.bytes)
  {
    hide InBlock, Span, BlockBytes, BlockOf;
    CellInside(Depth, width, height, x, y);
    DepthBytes(width, height);
    assert Aligned(width) / 128 == Blocks(width);
    hide Blocks, Aligned;
    NoWrap(BlockOf(Blocks(width), x, y), InBlock(Depth, x, y));
  }
}
