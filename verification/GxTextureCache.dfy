/** The cache of converted textures (ps5/gpu/gx_texture_cache.cpp): content digests with a memo guarded by guest-write
    generations, and eviction by stamps within a byte budget. */
module GxTextureCache {
  import opened Bytes
  import TextureLayout

  const MEMO_LIMIT: nat := 4096
  const STAMPS: nat := 0x1_0000_0000_0000_0000

  // ----- Guest memory and its write generations -----

  datatype Write = Write(at: nat, bytes: seq<byte>)

  /** The `n` bytes at `at` after the writes, in order; `base` gives the bytes never written. */
  function ByteAfter(base: nat -> byte, writes: seq<Write>, k: nat): byte {
    if writes == [] then base(k)
    else
      var w := writes[|writes| - 1];
      if w.at <= k < w.at + |w.bytes| then w.bytes[k - w.at] else ByteAfter(base, writes[..|writes| - 1], k)
  }

  function Window(base: nat -> byte, writes: seq<Write>, at: nat, n: nat): (r: seq<byte>)
    ensures |r| == n
  {
    if n == 0 then [] else Window(base, writes, at, n - 1) + [ByteAfter(base, writes, at + n - 1)]
  }

  lemma {:induction false} WindowsEqual(base: nat -> byte, a: seq<Write>, b: seq<Write>, at: nat, n: nat)
    requires forall i :: at <= i < at + n ==> ByteAfter(base, a, i) == ByteAfter(base, b, i)
    ensures Window(base, a, at, n) == Window(base, b, at, n)
  {
    if n > 0 {
      WindowsEqual(base, a, b, at, n - 1);
    }
  }

  predicate Touches(w: Write, at: nat, n: nat) {
    w.at < at + n && at < w.at + |w.bytes|
  }

  /** Byte `k` is one of `n` bytes from `at` on. */
  predicate Within(k: nat, at: nat, n: nat) {
    at <= k < at + n
  }

  /** A write touches a range if and only if it writes one of its bytes. */
  lemma TouchesIs(w: Write, at: nat, n: nat)
    requires n > 0 && w.bytes != []
    ensures Touches(w, at, n) <==> exists k: nat :: Within(k, at, n) && Within(k, w.at, |w.bytes|)
  {
    if Touches(w, at, n) {
      var k := if at < w.at then w.at else at;
      assert Within(k, at, n) && Within(k, w.at, |w.bytes|);
    }
  }

  /** The write generation of a range: how many writes have touched it. */
  function Generation(writes: seq<Write>, at: nat, n: nat): nat {
    if writes == [] then 0 else Generation(writes[..|writes| - 1], at, n) + if Touches(writes[|writes| - 1], at, n)
        then 1 else 0
  }

  lemma {:induction false} GenerationGrows(writes: seq<Write>, k: nat, at: nat, n: nat)
    requires k <= |writes|
    ensures Generation(writes[..k], at, n) <= Generation(writes, at, n)
  {
    if k < |writes| {
      assert writes[..|writes| - 1][..k] == writes[..k];
      GenerationGrows(writes[..|writes| - 1], k, at, n);
    } else {
      assert writes[..k] == writes;
    }
  }

  lemma {:induction false} SameByte(base: nat -> byte, writes: seq<Write>, k: nat, at: nat, n: nat, i: nat)
    requires k <= |writes| && Generation(writes[..k], at, n) == Generation(writes, at, n) && at <= i < at + n
    ensures ByteAfter(base, writes, i) == ByteAfter(base, writes[..k], i)
  {
    if k < |writes| {
      var front := writes[..|writes| - 1];
      assert front[..k] == writes[..k];
      GenerationGrows(front, k, at, n);
      SameByte(base, front, k, at, n, i);
    } else {
      assert writes[..k] == writes;
    }
  }

  /** While its generation stands, a range keeps its bytes; also at every moment in between. */
  lemma SameGeneration(base: nat -> byte, writes: seq<Write>, k: nat, m: nat, at: nat, n: nat)
    requires k <= m <= |writes| && Generation(writes[..k], at, n) == Generation(writes, at, n)
    ensures Window(base, writes[..m], at, n) == Window(base, writes, at, n)
  {
    assert writes[..m][..k] == writes[..k];
    GenerationGrows(writes, m, at, n);
    GenerationGrows(writes[..m], k, at, n);
    forall i | at <= i < at + n
      ensures ByteAfter(base, writes[..m], i) == ByteAfter(base, writes, i)
    {
      SameByte(base, writes, m, at, n, i);
    }
    WindowsEqual(base, writes[..m], writes, at, n);
  }

  /** A memoized digest, and, as histories, how many writes there had been when its generation was sampled and when the
      bytes were hashed. */
  datatype Memo = Memo(size: nat, digest: nat, generation: nat, sampled: nat, hashed: nat)

  predicate MemoOk(base: nat -> byte, hash: seq<byte> -> nat, writes: seq<Write>, at: nat, m: Memo) {
    && m.sampled <= m.hashed <= |writes|
    && m.generation == Generation(writes[..m.sampled], at, m.size)
    && m.digest == hash(Window(base, writes[..m.hashed], at, m.size))
  }

  lemma MemoLater(base: nat -> byte, hash: seq<byte> -> nat, writes: seq<Write>, later: seq<Write>, at: nat, m: Memo)
    requires MemoOk(base, hash, writes, at, m)
    ensures MemoOk(base, hash, writes + later, at, m)
  {
    assert (writes + later)[..m.sampled] == writes[..m.sampled] && (writes + later)[..m.hashed] == writes[..m.hashed];
  }

  /** A digest whose generation still stands is the digest of the bytes as they are now, even when writes raced with the
      hashing. */
  lemma MemoIsFresh(base: nat -> byte, hash: seq<byte> -> nat, writes: seq<Write>, at: nat, m: Memo)
    requires MemoOk(base, hash, writes, at, m) && m.generation == Generation(writes, at, m.size)
    ensures m.digest == hash(Window(base, writes, at, m.size))
  {
    SameGeneration(base, writes, m.sampled, m.hashed, at, m.size);
  }

  // ----- What the memo makes of a look-up -----

  /** The digest need not be computed: the range's generation still stands. */
  predicate Remembered(memo: map<nat, Memo>, writes: seq<Write>, at: nat, n: nat, memoize: bool) {
    memoize && n > 0 && at in memo && memo[at].size == n && memo[at].generation == Generation(writes, at, n)
  }

  /** How many writes have happened when the bytes that `source_digest` stands for are in memory. */
  function Moment(memo: map<nat, Memo>, writes: seq<Write>, racing: seq<Write>, at: nat, n: nat, memoize: bool): nat {
    if Remembered(memo, writes, at, n, memoize) then |writes| else |writes| + |racing|
  }

  /** The memo after `source_digest`. */
  function MemoLeft(base: nat -> byte, hash: seq<byte> -> nat, memo: map<nat, Memo>, writes: seq<Write>,
                    racing: seq<Write>, at: nat, n: nat, memoize: bool): map<nat, Memo> {
    if !memoize || n == 0 || Remembered(memo, writes, at, n, memoize) then memo
    else
      (if |memo| >= MEMO_LIMIT && at !in memo then map[] else memo)
      [at := Memo(n, hash(Window(base, writes + racing, at, n)), Generation(writes, at, n), |writes|,
                  |writes + racing|)]
  }

  // ----- Entries -----

  datatype Palette = Palette(format: nat, entries: nat, bytes: seq<byte>)

  /** Everything a conversion depends on. */
  datatype Content = Content(width: nat, height: nat, format: nat, mips: nat, bytes: seq<byte>,
                             palette: Option<Palette>)

  datatype Key = Key(width: nat, height: nat, format: nat, mips: nat, digest: nat, paletteFormat: nat,
                     paletteEntries: nat, paletteDigest: nat)

  function KeyOf(hash: seq<byte> -> nat, c: Content): Key {
    match c.palette
    case None => Key(c.width, c.height, c.format, c.mips, hash(c.bytes), 0, 0, 0)
    case Some(p) => Key(c.width, c.height, c.format, c.mips, hash(c.bytes), p.format, p.entries, hash(p.bytes))
  }

  /** Whether a format needs a palette is part of the format; palettes have entries. */
  predicate ContentOk(c: Content, indexed: nat -> bool) {
    (indexed(c.format) <==> c.palette.Some?) && (c.palette.Some? ==> c.palette.value.entries > 0)
  }

  /** Where a palette is in guest memory, and how many bytes are there. */
  datatype PaletteAt = PaletteAt(format: nat, entries: nat, at: nat, given: nat)

  /** Bytes of a palette: two for an entry. */
  function PaletteSize(x: PaletteAt): nat {
    2 * x.entries
  }

  /** A texture object: its format, where its bytes are in guest memory, how many it needs and how many are there. */
  datatype Request = Request(width: nat, height: nat, format: nat, mips: nat, at: nat, size: nat, given: nat,
                             palette: Option<PaletteAt>)

  predicate PaletteOk(q: Request, indexed: nat -> bool) {
    (indexed(q.format) <==> q.palette.Some?) && (q.palette.Some? ==> q.palette.value.entries > 0)
  }

  /** A palette is only looked at for formats that need one. */
  function Used(q: Request, indexed: nat -> bool): Request {
    if indexed(q.format) then q else q.(palette := None)
  }

  /** The format is supported, the extents are legal, and all bytes are there. */
  predicate TextureOk(q: Request, supported: nat -> bool) {
    supported(q.format) && TextureLayout.Legal(q.width, q.height, q.mips) && q.size <= q.given
  }

  /** What a palette must be. */
  predicate PaletteGiven(q: Request, paletted: nat -> bool) {
    && q.palette.Some? && q.palette.value.entries > 0 && paletted(q.palette.value.format)
    && PaletteSize(q.palette.value) <= q.palette.value.given
  }

  lemma {:induction false} WindowAt(base: nat -> byte, writes: seq<Write>, at: nat, n: nat, k: nat)
    requires k < n
    ensures Window(base, writes, at, n)[k] == ByteAfter(base, writes, at + k)
  {
    if k < n - 1 {
      WindowAt(base, writes, at, n - 1, k);
    }
  }

  /** What a content is made of, byte by byte: the texture's bytes from its address on, and for a palette two bytes for
      each entry from the palette's. */
  predicate MadeOf(c: Content, base: nat -> byte, writes: seq<Write>, q: Request, m: nat, p: nat)
    requires m <= |writes| && p <= |writes|
  {
    && c.width == q.width && c.height == q.height && c.format == q.format && c.mips == q.mips
    && |c.bytes| == q.size && (forall k :: 0 <= k < q.size ==> c.bytes[k] == ByteAfter(base, writes[..m], q.at + k))
    && (c.palette.Some? <==> q.palette.Some?)
    && (q.palette.Some? ==>
          var x, y := q.palette.value, c.palette.value;
          && y.format == x.format && y.entries == x.entries && |y.bytes| == 2 * x.entries
          && forall e :: 0 <= e < x.entries ==>
               && y.bytes[2 * e] == ByteAfter(base, writes[..p], x.at + 2 * e)
               && y.bytes[2 * e + 1] == ByteAfter(base, writes[..p], x.at + 2 * e + 1))
  }

  lemma WindowsMade(base: nat -> byte, writes: seq<Write>, at: nat, n: nat)
    ensures forall k: nat :: k < n ==> Window(base, writes, at, n)[k] == ByteAfter(base, writes, at + k)
  {
    forall k: nat | k < n
      ensures Window(base, writes, at, n)[k] == ByteAfter(base, writes, at + k)
    {
      WindowAt(base, writes, at, n, k);
    }
  }

  /** What the object names when its bytes are read after the first `m` writes and its palette after the first `p`. */
  function ContentAt(base: nat -> byte, writes: seq<Write>, q: Request, m: nat, p: nat): (c: Content)
    requires m <= |writes| && p <= |writes|
    ensures c.width == q.width && c.height == q.height && c.mips == q.mips
    ensures forall indexed :: ContentOk(c, indexed) <==> PaletteOk(q, indexed)
    ensures MadeOf(c, base, writes, q, m, p) && (c.palette.Some? <==> q.palette.Some?)
  {
    WindowsMade(base, writes[..m], q.at, q.size);
    if q.palette.Some? then
      WindowsMade(base, writes[..p], q.palette.value.at, PaletteSize(q.palette.value));
      ContentRead(base, writes, q, m, p)
    else ContentRead(base, writes, q, m, p)
  }

  function ContentRead(base: nat -> byte, writes: seq<Write>, q: Request, m: nat, p: nat): Content
    requires m <= |writes| && p <= |writes|
  {
    Content(q.width, q.height, q.format, q.mips, Window(base, writes[..m], q.at, q.size),
            match q.palette
            case None => None
            case Some(x) => Some(Palette(x.format, x.entries, Window(base, writes[..p], x.at, PaletteSize(x)))))
  }

  /** Between two moments, a change of any byte of the texture, or of either byte of any palette entry, changes the
      key, as far as the digest tells contents apart. */
  lemma ChangeChangesKey(base: nat -> byte, hash: seq<byte> -> nat, indexed: nat -> bool, a: seq<Write>,
                         b: seq<Write>, q: Request, k: nat)
    requires Injective(hash) && PaletteOk(q, indexed)
    requires || (k < q.size && ByteAfter(base, a, q.at + k) != ByteAfter(base, b, q.at + k))
             || (q.palette.Some? && k < 2 * q.palette.value.entries
                 && ByteAfter(base, a, q.palette.value.at + k) != ByteAfter(base, b, q.palette.value.at + k))
    ensures KeyOf(hash, ContentAt(base, a, q, |a|, |a|)) != KeyOf(hash, ContentAt(base, b, q, |b|, |b|))
  {
    hide Injective, KeyOf, ByteAfter, Window;
    var c, d := ContentAt(base, a, q, |a|, |a|), ContentAt(base, b, q, |b|, |b|);
    assert a[..|a|] == a && b[..|b|] == b;
    KeysTell(hash, indexed, c, d);
    if k < q.size {
      WindowAt(base, a, q.at, q.size, k);
      WindowAt(base, b, q.at, q.size, k);
    }
    if q.palette.Some? && k < 2 * q.palette.value.entries {
      var x := q.palette.value;
      WindowAt(base, a, x.at, 2 * x.entries, k);
      WindowAt(base, b, x.at, 2 * x.entries, k);
    }
  }

  /** Later writes do not change what was read before them. */
  lemma ReadBefore(base: nat -> byte, writes: seq<Write>, later: seq<Write>, q: Request, m: nat, p: nat)
    requires m <= |writes| && p <= |writes|
    ensures ContentAt(base, writes + later, q, m, p) == ContentAt(base, writes, q, m, p)
  {
    assert (writes + later)[..m] == writes[..m] && (writes + later)[..p] == writes[..p];
  }

  ghost predicate Injective(hash: seq<byte> -> nat) {
    forall a, b :: hash(a) == hash(b) ==> a == b
  }

  /** Equal keys mean equal contents, as far as the digest tells contents apart. */
  lemma KeysTell(hash: seq<byte> -> nat, indexed: nat -> bool, a: Content, b: Content)
    requires Injective(hash) && ContentOk(a, indexed) && ContentOk(b, indexed)
    ensures KeyOf(hash, a) == KeyOf(hash, b) <==> a == b
  {
  }

  /** A cached texture; `content` and `used` are histories: what it was converted from and when it was last asked for.
      */
  datatype Entry = Entry(key: Key, texture: nat, size: nat, stamp: nat, content: Content, used: nat)

  function Sizes(entries: seq<Entry>): nat {
    if entries == [] then 0 else Sizes(entries[..|entries| - 1]) + entries[|entries| - 1].size
  }

  lemma {:induction false} SizesWithout(entries: seq<Entry>, i: nat)
    requires i < |entries|
    ensures Sizes(entries) == Sizes(Without(entries, i)) + entries[i].size
  {
    var last := |entries| - 1;
    if i < last {
      SizesWithout(entries[..last], i);
      assert Without(entries, i)[..last - 1] == Without(entries[..last], i);
    } else {
      assert Without(entries, i) == entries[..last];
    }
  }

  lemma {:induction false} SizesSame(a: seq<Entry>, b: seq<Entry>)
    requires |a| == |b| && forall i :: 0 <= i < |a| ==> a[i].size == b[i].size
    ensures Sizes(a) == Sizes(b)
  {
    if a != [] {
      SizesSame(a[..|a| - 1], b[..|b| - 1]);
    }
  }

  /** Stamps follow the order of use: a smaller stamp is an older use, and only stamps reset by a wrap are shared. */
  predicate Ordered(a: Entry, b: Entry) {
    && (a.stamp < b.stamp ==> a.used < b.used)
    && (b.stamp < a.stamp ==> b.used < a.used)
    && (a.stamp == b.stamp ==> a.stamp == 0)
    && a.used != b.used
  }

  predicate Past(e: Entry, clock: nat, now: nat) {
    e.stamp <= clock && e.used <= now
  }

  predicate StampsOk(entries: seq<Entry>, clock: nat, now: nat) {
    && (forall i :: 0 <= i < |entries| ==> Past(entries[i], clock, now))
    && (forall i, j :: 0 <= i < j < |entries| ==> Ordered(entries[i], entries[j]))
  }

  predicate Oldest(entries: seq<Entry>, i: nat) {
    i < |entries| && forall j :: 0 <= j < |entries| ==> entries[i].stamp <= entries[j].stamp
  }

  predicate LeastRecentlyUsed(entries: seq<Entry>, i: nat) {
    i < |entries| && forall j :: 0 <= j < |entries| ==> entries[i].used <= entries[j].used
  }

  /** Stamps are found by `min_element` in no particular order, so any entry with the smallest stamp may be evicted. All
      of these are least recently used exactly when no other entry shares the smallest stamp, which only a wrap of the
      stamp counter can cause. */
  lemma EvictsLeastRecent(entries: seq<Entry>, clock: nat, now: nat)
    requires StampsOk(entries, clock, now) && entries != []
    ensures (forall i: nat :: Oldest(entries, i) ==> LeastRecentlyUsed(entries, i))
       <==> forall i: nat, j: nat :: Oldest(entries, i) && Oldest(entries, j) ==> i == j
  {
    forall i: nat, j: nat | Oldest(entries, i) && Oldest(entries, j) && LeastRecentlyUsed(entries, i)
        && LeastRecentlyUsed(entries, j)
      ensures i == j
    {
      assert entries[i].used <= entries[j].used && entries[j].used <= entries[i].used;
    }
    forall i: nat | Oldest(entries, i) && forall k: nat :: Oldest(entries, k) ==> k == i
      ensures LeastRecentlyUsed(entries, i)
    {
      forall j | 0 <= j < |entries|
        ensures entries[i].used <= entries[j].used
      {
        if entries[j].stamp == entries[i].stamp {
          assert Oldest(entries, j);
        }
      }
    }
  }

  /** The last entry was used last. */
  predicate NewestLast(es: seq<Entry>) {
    es != [] && forall i :: 0 <= i < |es| - 1 ==> es[i].stamp < es[|es| - 1].stamp
  }

  /** What eviction makes of `was`: the newest entry stays, nothing is added, and whatever went had a stamp no larger
      than whatever stayed. */
  ghost predicate Evicted(was: seq<Entry>, es: seq<Entry>) {
    && was != [] && es != [] && es[|es| - 1] == was[|was| - 1]
    && (forall e :: e in es ==> e in was)
    && (forall e, r :: e in was && e !in es && r in es ==> e.stamp <= r.stamp)
  }

  lemma NothingEvicted(es: seq<Entry>)
    requires es != []
    ensures Evicted(es, es)
  {
  }

  /** While more than the budget is used there is more than the newest entry, and the oldest one is another. */
  lemma LastStays(was: seq<Entry>, es: seq<Entry>)
    requires Evicted(was, es)
    ensures es != [] && was != [] && es[|es| - 1] == was[|was| - 1] && was[|was| - 1] in es
    ensures |es| == 1 ==> Sizes(es) == was[|was| - 1].size
  {
    if |es| == 1 {
      assert es[..0] == [];
    }
  }

  lemma OldestIsNotNewest(es: seq<Entry>, i: nat)
    requires NewestLast(es) && Oldest(es, i) && |es| > 1
    ensures i < |es| - 1
  {
    assert es[0].stamp < es[|es| - 1].stamp;
  }

  lemma EvictStep(was: seq<Entry>, es: seq<Entry>, i: nat)
    requires Evicted(was, es) && NewestLast(es) && Oldest(es, i) && |es| > 1
    ensures i < |es| - 1 && Evicted(was, Without(es, i)) && NewestLast(Without(es, i))
  {
    OldestIsNotNewest(es, i);
    var rest := Without(es, i);
    StillThere(es, i);
    forall e, r | e in was && e !in rest && r in rest
      ensures e.stamp <= r.stamp
    {
      assert r in es;
    }
    assert rest[|rest| - 1] == es[|es| - 1];
  }

  lemma StillThere(es: seq<Entry>, i: nat)
    requires i < |es|
    ensures forall e :: e in es ==> e in Without(es, i) || e == es[i]
    ensures forall e :: e in Without(es, i) ==> e in es
  {
    var rest := Without(es, i);
    forall e | e in es
      ensures e in rest || e == es[i]
    {
      var k :| 0 <= k < |es| && es[k] == e;
      assert k < i ==> rest[k] == e;
      assert k > i ==> rest[k - 1] == e;
    }
  }

  lemma StampsWithout(es: seq<Entry>, i: nat, clock: nat, now: nat)
    requires i < |es| && StampsOk(es, clock, now)
    ensures StampsOk(Without(es, i), clock, now)
  {
    hide Ordered, Past;
  }

  /** A new entry with the newest stamp. */
  lemma InsertedLast(es: seq<Entry>, e: Entry, clock: nat, now: nat)
    requires StampsOk(es, clock, now) && e.stamp == clock > 0 && e.used == now
    requires forall i :: 0 <= i < |es| ==> es[i].stamp < clock && es[i].used < now
    ensures StampsOk(es + [e], clock, now) && NewestLast(es + [e]) && Sizes(es + [e]) == Sizes(es) + e.size
  {
    assert (es + [e])[..|es|] == es;
  }

  /** Every stamp back to zero. */
  function Reset(es: seq<Entry>): (r: seq<Entry>)
    ensures |r| == |es|
  {
    seq(|es|, i requires 0 <= i < |es| => es[i].(stamp := 0))
  }

  /** Stamps and counter once the next stamp is taken: only a wrap of the counter changes stamps. */
  function Restamped(es: seq<Entry>, clock: nat): (r: seq<Entry>)
    ensures |r| == |es| && forall i :: 0 <= i < |es| ==> r[i] == es[i].(stamp := r[i].stamp)
  {
    if clock + 1 == STAMPS then Reset(es) else es
  }

  function NextClock(clock: nat): nat {
    if clock + 1 == STAMPS then 1 else clock + 1
  }

  lemma RestampedSizes(es: seq<Entry>, clock: nat)
    ensures Sizes(Restamped(es, clock)) == Sizes(es)
  {
    SizesSame(Restamped(es, clock), es);
  }

  /** Guest writes that happen while a look-up runs: while the texture is hashed, while its palette is, and between
      hashing and converting. */
  datatype Races = Races(texture: seq<Write>, palette: seq<Write>, convert: seq<Write>)

  const NoRaces := Races([], [], [])

  class TextureCache {
    const budget: nat
    const base: nat -> byte
    const hash: seq<byte> -> nat
    const indexed: nat -> bool      // formats that need a palette,
    const supported: nat -> bool    // all formats,
    const paletted: nat -> bool     // and palette formats
    const convert: Content -> nat
    const sizeOf: (nat, nat, nat) -> nat

    // Guest memory.
    var writes: seq<Write>

    var entries: seq<Entry>
    var used: nat
    var clock: nat
    var memo: map<nat, Memo>
    var now: nat    // history: uses so far

    function SizeOf(c: Content): nat {
      sizeOf(c.width, c.height, c.mips)
    }

    /** An entry holds a conversion of its content. */
    predicate Converted(e: Entry) {
      ContentOk(e.content, indexed) && e.texture == convert(e.content) && e.size == SizeOf(e.content)
    }

    /** Its key is that of the content it was converted from. */
    predicate EntryOk(e: Entry) {
      Converted(e) && e.key == KeyOf(hash, e.content)
    }

    ghost predicate EntriesOk(es: seq<Entry>) {
      && (forall i :: 0 <= i < |es| ==> Converted(es[i]))
      && (forall i, j :: 0 <= i < j < |es| ==> es[i].key != es[j].key)
    }

    ghost predicate Valid()
      reads this
    {
      && used == Sizes(entries) && used <= budget && clock < STAMPS && |memo| <= 4096
      && EntriesOk(entries) && StampsOk(entries, clock, now)
      && forall at :: at in memo ==> MemoOk(base, hash, writes, at, memo[at])
    }

    /** No key lies about its texture. */
    ghost predicate Sound()
      reads this`entries
    {
      forall e :: e in entries ==> EntryOk(e)
    }

    constructor (budget: nat, base: nat -> byte, hash: seq<byte> -> nat, indexed: nat -> bool, supported: nat -> bool,
                 paletted: nat -> bool, convert: Content -> nat, sizeOf: (nat, nat, nat) -> nat)
      ensures Valid() && Sound() && entries == [] && used == 0 && writes == [] && memo == map[] && clock == 0
      ensures now == 0
      ensures this.budget == budget && this.base == base && this.hash == hash && this.indexed == indexed
      ensures this.supported == supported && this.paletted == paletted
      ensures this.convert == convert && this.sizeOf == sizeOf
    {
      this.budget, this.base, this.hash, this.convert, this.sizeOf := budget, base, hash, convert, sizeOf;
      this.indexed, this.supported, this.paletted := indexed, supported, paletted;
      writes, entries, used, clock, memo, now := [], [], 0, 0, map[], 0;
    }

    /** The guest writes memory and notifies. */
    method GuestWrites(more: seq<Write>)
      requires Valid()
      modifies this`writes
      ensures Valid() && writes == old(writes) + more
    {
      forall at | at in memo
        ensures MemoOk(base, hash, writes + more, at, memo[at])
      {
        MemoLater(base, hash, writes, more, at, memo[at]);
      }
      writes := writes + more;
    }

    /** `source_digest`. `tracked` says whether the range has a generation; `racing` are writes between the sampling of
        the generation and the hashing. The digest is that of the bytes after the first `m` writes: those of before the
        call when the memo has it, and otherwise the racing ones too. */
    method SourceDigest(at: nat, n: nat, memoize: bool, tracked: bool, racing: seq<Write>)
      returns (digest: nat, ghost m: nat)
      requires Valid()
      modifies this`writes, this`memo
      ensures Valid() && writes == old(writes) + racing
      ensures m == Moment(old(memo), old(writes), racing, at, n, memoize && tracked) <= |writes|
      ensures memo == MemoLeft(base, hash, old(memo), old(writes), racing, at, n, memoize && tracked)
      ensures digest == hash(Window(base, writes[..m], at, n))
    {
      hide StampsOk, Sizes, MemoOk;
      var sampled, generation := |writes|, Generation(writes, at, n);
      if !memoize || !tracked || n == 0 {
        GuestWrites(racing);
        assert writes[..|writes|] == writes;
        return hash(Window(base, writes, at, n)), |writes|;
      }
      if |memo| >= MEMO_LIMIT && at !in memo {
        memo := map[];
      }
      if at in memo && memo[at].size == n && memo[at].generation == generation {
        digest, m := memo[at].digest, |writes|;
        MemoIsFresh(base, hash, writes, at, memo[at]);
        GuestWrites(racing);
        assert writes[..m] == old(writes);
        return;
      }
      GuestWrites(racing);
      digest, m := hash(Window(base, writes, at, n)), |writes|;
      assert writes[..m] == writes;
      MemoStored(base, hash, old(writes), racing, at, n);
      memo := memo[at := Memo(n, digest, generation, sampled, |writes|)];
    }

    /** `next_stamp`: larger than every stamp; a wrap of the counter resets them all. */
    method NextStamp() returns (stamp: nat)
      requires Valid()
      modifies this`entries, this`clock, this`now
      ensures Valid() && stamp == clock == NextClock(old(clock)) > 0 && now == old(now) + 1
      ensures entries == Restamped(old(entries), old(clock))
      ensures forall i :: 0 <= i < |entries| ==> entries[i].stamp < stamp && entries[i].used < now
    {
      hide MemoOk, Sizes, EntriesOk;
      RestampedSizes(entries, clock);
      RestampedOk(entries, clock);
      clock := (clock + 1) % STAMPS;
      if clock == 0 {
        entries := Reset(entries);
        clock := 1;
      }
      now := now + 1;
      return clock;
    }

    lemma RestampedOk(es: seq<Entry>, clock: nat)
      requires EntriesOk(es)
      ensures EntriesOk(Restamped(es, clock))
    {
    }

    /** `entries_.find`. */
    method Find(key: Key) returns (found: Option<nat>)
      ensures found.Some? ==> found.value < |entries| && entries[found.value].key == key
      ensures found.None? ==> NoneHas(entries, key)
    {
      for i := 0 to |entries|
        invariant forall j :: 0 <= j < i ==> entries[j].key != key
      {
        if entries[i].key == key {
          return Some(i);
        }
      }
      return None;
    }

    /** `min_element`: the first of the smallest stamps, in the order the container has. */
    method FindOldest() returns (i: nat)
      requires entries != []
      ensures Oldest(entries, i) && forall j :: 0 <= j < i ==> entries[i].stamp < entries[j].stamp
    {
      i := 0;
      for k := 1 to |entries|
        invariant i < k && forall j :: 0 <= j < k ==> entries[i].stamp <= entries[j].stamp
        invariant forall j :: 0 <= j < i ==> entries[i].stamp < entries[j].stamp
      {
        if entries[k].stamp < entries[i].stamp {
          i := k;
        }
      }
    }

    lemma EntriesWithout(es: seq<Entry>, i: nat)
      requires EntriesOk(es) && i < |es|
      ensures EntriesOk(Without(es, i))
    {
      hide Converted;
    }

    /** The eviction loop: entries go by ascending stamp until the rest fits; the newest entry stays. */
    method Evict()
      requires clock < STAMPS && used == Sizes(entries) && EntriesOk(entries) && StampsOk(entries, clock, now)
      requires |memo| <= 4096 && forall at :: at in memo ==> MemoOk(base, hash, writes, at, memo[at])
      requires entries != [] && entries[|entries| - 1].size <= budget && NewestLast(entries)
      modifies this`entries, this`used
      ensures Valid() && Evicted(old(entries), entries)
      ensures old(used) <= budget ==> entries == old(entries) && used == old(used)
    {
      hide MemoOk, Sizes, EntriesOk, StampsOk, Oldest, Evicted, NewestLast, Without;
      NothingEvicted(entries);
      LastStays(entries, entries);
      while used > budget
        invariant used == Sizes(entries) && EntriesOk(entries) && StampsOk(entries, clock, now)
        invariant NewestLast(entries) && Evicted(old(entries), entries)
        invariant old(used) <= budget ==> entries == old(entries) && used == old(used)
        decreases |entries|
      {
        LastStays(old(entries), entries);
        var victim := FindOldest();
        EvictStep(old(entries), entries, victim);
        StampsWithout(entries, victim, clock, now);
        SizesWithout(entries, victim);
        EntriesWithout(entries, victim);
        used := used - entries[victim].size;
        entries := Without(entries, victim);
      }
    }

    /** A hit: the entry gets the newest stamp. */
    method Touch(i: nat) returns (texture: nat)
      requires Valid() && i < |entries|
      modifies this`entries, this`clock, this`now
      ensures Valid() && texture == old(entries)[i].texture && clock == NextClock(old(clock)) && now == old(now) + 1
      ensures entries == Restamped(old(entries), old(clock))[i := old(entries)[i].(stamp := clock, used := now)]
    {
      hide MemoOk, Sizes;
      var stamp := NextStamp();
      var touched := entries[i := entries[i].(stamp := stamp, used := now)];
      SizesSame(touched, entries);
      entries := touched;
      return entries[i].texture;
    }

    /** A miss: the texture is inserted under the key, and others make room. */
    method Insert(key: Key, c: Content)
      requires Valid() && ContentOk(c, indexed) && SizeOf(c) <= budget
      requires NoneHas(entries, key)
      modifies this`entries, this`clock, this`now, this`used
      ensures Valid() && clock == NextClock(old(clock)) && now == old(now) + 1
      ensures Evicted(Restamped(old(entries), old(clock)) + [Entry(key, convert(c), SizeOf(c), clock, c, now)], entries)
      ensures old(used) + SizeOf(c) <= budget
        ==> (&& used == old(used) + SizeOf(c)
             && entries == Restamped(old(entries), old(clock)) + [Entry(key, convert(c), SizeOf(c), clock, c, now)])
    {
      hide MemoOk, Sizes, StampsOk, NewestLast, Evicted, KeyOf, ContentOk;
      RestampedSizes(entries, clock);
      var stamp := NextStamp();
      var e := Entry(key, convert(c), SizeOf(c), stamp, c, now);
      assert Converted(e);
      hide Converted;
      InsertedLast(entries, e, clock, now);
      entries, used := entries + [e], used + e.size;
      Evict();
    }

    /** How many writes have happened when the texture's bytes are hashed. */
    function TextureMoment(q: Request, noCache: bool, tracked: bool, races: Races): nat
      reads this`memo, this`writes
    {
      Moment(memo, writes, races.texture, q.at, q.size, !noCache && tracked)
    }

    /** How many when its palette's are. */
    function PaletteMoment(q: Request, noCache: bool, paletteNoCache: bool, tracked: bool, races: Races): nat
      reads this`memo, this`writes
    {
      if !indexed(q.format) || q.palette.None? then TextureMoment(q, noCache, tracked, races)
      else
        var memoNow := MemoLeft(base, hash, memo, writes, races.texture, q.at, q.size, !noCache && tracked);
        var x := q.palette.value;
        Moment(memoNow, writes + races.texture, races.palette, x.at, PaletteSize(x), !paletteNoCache && tracked)
    }

    /** The key of `resolve`: the format, and the digests of what was hashed. */
    method Digests(q: Request, noCache: bool, paletteNoCache: bool, tracked: bool, races: Races)
      returns (key: Key, ghost m: nat, ghost p: nat)
      requires Valid() && PaletteOk(q, indexed)
      modifies this`writes, this`memo
      ensures Valid() && writes == old(writes) + races.texture + if indexed(q.format) then races.palette else []
      ensures m == old(TextureMoment(q, noCache, tracked, races))
      ensures p == old(PaletteMoment(q, noCache, paletteNoCache, tracked, races))
      ensures |old(writes)| <= m <= p <= |writes| && key == KeyOf(hash, ContentAt(base, writes, q, m, p))
    {
      hide Valid, Window, MemoLeft, Remembered;
      var digest: nat;
      digest, m := SourceDigest(q.at, q.size, !noCache, tracked, races.texture);
      p := m;
      key := Key(q.width, q.height, q.format, q.mips, digest, 0, 0, 0);
      ghost var first := writes;
      if q.palette.Some? {
        var x := q.palette.value;
        var paletteDigest: nat;
        paletteDigest, p := SourceDigest(x.at, PaletteSize(x), !paletteNoCache, tracked, races.palette);
        key := key.(paletteFormat := x.format, paletteEntries := x.entries, paletteDigest := paletteDigest);
        assert writes[..m] == first[..m];
      } else {
        assert writes == old(writes) + races.texture + [];
      }
    }

    predicate Cacheable(q: Request, noCache: bool, paletteNoCache: bool) {
      !noCache && (indexed(q.format) ==> !paletteNoCache)
    }

    predicate NoneHas(es: seq<Entry>, key: Key) {
      forall i :: 0 <= i < |es| ==> es[i].key != key
    }

    /** What the object names now. */
    function Read(q: Request): Content
      reads this`writes
    {
      ContentAt(base, writes, Used(q, indexed), |writes|, |writes|)
    }

    /** A texture counts with the size of its layout. */
    lemma CountsLayout(q: Request)
      ensures SizeOf(Read(q)) == sizeOf(q.width, q.height, q.mips)
    {
    }

    /** The entry a miss makes for what it read, under the key of what was hashed. */
    function NewEntry(hashed: Content, read: Content, stamp: nat, use: nat): (e: Entry)
      ensures ContentOk(read, indexed) ==> Converted(e)
    {
      Entry(KeyOf(hash, hashed), convert(read), SizeOf(read), stamp, read, use)
    }

    /** `resolve` once the key is found: the entry gets the newest stamp, and its texture is that of what was hashed. */
    method Hit(i: nat, ghost hashed: Content) returns (texture: nat)
      requires Valid() && i < |entries| && entries[i].key == KeyOf(hash, hashed) && ContentOk(hashed, indexed)
      modifies this`entries, this`clock, this`now
      ensures Valid() && texture == old(entries)[i].texture && clock == NextClock(old(clock)) && now == old(now) + 1
      ensures entries == Restamped(old(entries), old(clock))[i := old(entries)[i].(stamp := clock, used := now)]
      ensures old(Sound()) && Injective(hash) ==> Sound() && texture == convert(hashed)
    {
      hide Valid, KeyOf, ContentOk, Injective, Restamped;
      texture := Touch(i);
      TouchedSound(old(entries), old(clock), i, clock, now, hashed);
    }

    /** `resolve` once no entry has the key; `racing` are writes between the hashing and the conversion. */
    method Miss(q: Request, cacheable: bool, key: Key, racing: seq<Write>, ghost hashed: Content) returns (texture: nat)
      requires Valid() && PaletteOk(q, indexed) && key == KeyOf(hash, hashed) && ContentOk(hashed, indexed)
      requires cacheable ==> NoneHas(entries, key)
      modifies this`writes, this`entries, this`clock, this`now, this`used
      ensures Valid() && writes == old(writes) + racing
      ensures texture == convert(Read(q))
      ensures if cacheable && SizeOf(Read(q)) <= budget then
                var e := NewEntry(hashed, Read(q), clock, now);
                && clock == NextClock(old(clock)) && now == old(now) + 1
                && Evicted(Restamped(old(entries), old(clock)) + [e], entries)
                && (old(used) + e.size <= budget ==> entries == Restamped(old(entries), old(clock)) + [e])
                && (old(Sound()) && Injective(hash) ==> (Sound() <==> hashed == Read(q)))
              else entries == old(entries) && used == old(used) && clock == old(clock) && now == old(now)
    {
      hide Valid, KeyOf, ContentOk, Injective, Restamped, Evicted, ContentAt, Converted;
      GuestWrites(racing);
      var content;
      texture, content := Convert(q);
      if cacheable && SizeOf(content) <= budget {
        Insert(key, content);
        InsertedSound(old(entries), old(clock), NewEntry(hashed, content, clock, now), entries, hashed);
      }
    }

    /** `resolve`. What was hashed is the texture's bytes after the first `m` writes and the palette's after the first
        `p`, which the memo and the races decide; what is converted on a miss is the bytes at its end. The entry a miss
        leaves is sound exactly if no racing write made the two differ. */
    method Resolve(q: Request, noCache: bool, paletteNoCache: bool, tracked: bool, races: Races)
      returns (r: Result<nat>, ghost m: nat, ghost p: nat, ghost hashed: Content, ghost hit: Option<nat>)
      requires Valid()
      modifies this`writes, this`memo, this`entries, this`clock, this`now, this`used
      ensures Valid()
      ensures r.Ok? <==>
                && supported(q.format) && TextureLayout.Legal(q.width, q.height, q.mips) && q.size <= q.given
                && (indexed(q.format) ==>
                      && q.palette.Some? && q.palette.value.entries > 0 && paletted(q.palette.value.format)
                      && 2 * q.palette.value.entries <= q.palette.value.given)
      ensures r.Err? ==> unchanged(this)
      ensures Cacheable(q, noCache, paletteNoCache) <==> !noCache && !(indexed(q.format) && paletteNoCache)
      ensures m <= p <= |writes| && hashed == ContentAt(base, writes, Used(q, indexed), m, p)
      ensures MadeOf(hashed, base, writes, Used(q, indexed), m, p)
      ensures MadeOf(Read(q), base, writes, Used(q, indexed), |writes|, |writes|)
      ensures r.Ok? && indexed(q.format) ==> hashed.palette.Some? && Read(q).palette.Some?
      ensures r.Ok? ==>
                && m == old(TextureMoment(q, noCache, tracked, races))
                && p == old(PaletteMoment(q, noCache, paletteNoCache, tracked, races))
                && writes == old(writes) + races.texture + (if indexed(q.format) then races.palette else [])
                             + (if hit.None? then races.convert else [])
                && |old(writes)| <= m && (hit.None? ==> p + |races.convert| <= |writes|)
      ensures r.Ok? && hit.Some? ==>
                && Cacheable(q, noCache, paletteNoCache) && hit.value < |old(entries)|
                && old(entries)[hit.value].key == KeyOf(hash, hashed)
                && r.value == old(entries)[hit.value].texture && clock == NextClock(old(clock)) && now == old(now) + 1
                && entries == Restamped(old(entries),
                                        old(clock))[hit.value := old(entries)[hit.value].(stamp := clock, used := now)]
      ensures r.Ok? && hit.None? ==>
                && r.value == convert(Read(q))
                && (Cacheable(q, noCache, paletteNoCache) ==> NoneHas(old(entries), KeyOf(hash, hashed)))
                && if Cacheable(q, noCache, paletteNoCache) && SizeOf(Read(q)) <= budget then
                     var e := NewEntry(hashed, Read(q), clock, now);
                     && clock == NextClock(old(clock)) && now == old(now) + 1
                     && Evicted(Restamped(old(entries), old(clock)) + [e], entries)
                     && (old(used) + e.size <= budget ==> entries == Restamped(old(entries), old(clock)) + [e])
                   else entries == old(entries) && used == old(used) && clock == old(clock) && now == old(now)
      ensures r.Ok? && old(Sound()) && Injective(hash) ==>
                && (hit.Some? ==> r.value == convert(hashed))
                && (Sound() <==> (hit.None? && Cacheable(q, noCache, paletteNoCache) && SizeOf(Read(q)) <= budget ==>
                                  hashed == Read(q)))
      ensures r.Ok? && old(Sound()) && Injective(hash) && races == NoRaces ==>
                Sound() && writes == old(writes) && r.value == convert(Read(q))
    {
      hide Valid, Evicted, Restamped, KeyOf, ContentOk, ContentAt, Injective, Sound, NewEntry, SizeOf, NoneHas, MadeOf;
      var u := Used(q, indexed);
      hit, m, p, hashed := None, 0, 0, ContentAt(base, writes, u, 0, 0);
      if !TextureOk(q, supported) || (indexed(q.format) && !PaletteGiven(q, paletted)) {
        return Err, m, p, hashed, hit;
      }
      var key: Key;
      key, m, p := Digests(u, noCache, paletteNoCache, tracked, races);
      hashed := ContentAt(base, writes, u, m, p);
      if Cacheable(q, noCache, paletteNoCache) {
        var found := Find(key);
        if found.Some? {
          hit := found;
          var shown := Hit(found.value, hashed);
          return Ok(shown), m, p, hashed, hit;
        }
      }
      ReadBefore(base, writes, races.convert, u, m, p);
      var texture := Miss(u, Cacheable(q, noCache, paletteNoCache), key, races.convert, hashed);
      r := Ok(texture);
    }

    /** A hit shows what was hashed, and restamping keeps every entry sound. */
    lemma TouchedSound(was: seq<Entry>, stamps: nat, i: nat, stamp: nat, use: nat, hashed: Content)
      requires i < |was| && was[i].key == KeyOf(hash, hashed) && ContentOk(hashed, indexed)
      ensures (forall e :: e in was ==> EntryOk(e)) && Injective(hash) ==>
                && was[i].texture == convert(hashed)
                && forall e :: e in Restamped(was, stamps)[i := was[i].(stamp := stamp, used := use)] ==> EntryOk(e)
    {
      if (forall e :: e in was ==> EntryOk(e)) && Injective(hash) {
        assert was[i] in was;
        KeysTell(hash, indexed, was[i].content, hashed);
        var es := Restamped(was, stamps)[i := was[i].(stamp := stamp, used := use)];
        forall e | e in es
          ensures EntryOk(e)
        {
          var k :| 0 <= k < |es| && es[k] == e;
          assert was[k] in was;
        }
      }
    }

    /** The entry a miss leaves is sound exactly if what was hashed is what was converted. */
    lemma InsertedSound(was: seq<Entry>, stamps: nat, e: Entry, es: seq<Entry>, hashed: Content)
      requires Evicted(Restamped(was, stamps) + [e], es) && Converted(e) && e.key == KeyOf(hash, hashed)
      requires ContentOk(hashed, indexed)
      ensures (forall x :: x in was ==> EntryOk(x)) && Injective(hash) ==>
          ((forall x :: x in es ==> EntryOk(x)) <==> hashed == e.content)
    {
      var more := Restamped(was, stamps) + [e];
      assert more[|was|] == e && e in es;
      if (forall x :: x in was ==> EntryOk(x)) && Injective(hash) {
        KeysTell(hash, indexed, e.content, hashed);
        forall x | x in es && x != e
          ensures EntryOk(x)
        {
          assert x in more;
          var k :| 0 <= k < |more| && more[k] == x;
          assert was[k] in was;
        }
      }
    }

    /** The conversion reads the bytes as they are at that moment. */
    method Convert(q: Request) returns (texture: nat, content: Content)
      ensures content == Read(q) && texture == convert(content)
    {
      content := Read(q);
      texture := convert(content);
    }
  }

  lemma MemoStored(base: nat -> byte, hash: seq<byte> -> nat, writes: seq<Write>, racing: seq<Write>, at: nat, n: nat)
    ensures MemoOk(base, hash, writes + racing, at,
                   Memo(n, hash(Window(base, writes + racing, at, n)), Generation(writes, at, n), |writes|,
                        |writes + racing|))
  {
    assert (writes + racing)[..|writes|] == writes && (writes + racing)[..|writes + racing|] == writes + racing;
  }

  // ----- Two runs that go wrong -----

  /** A digest that tells all byte sequences apart: digits from one up. */
  function Digits(bytes: seq<byte>): nat {
    if bytes == [] then 0 else bytes[0] + 1 + 257 * Digits(bytes[1..])
  }

  lemma {:induction false} DigitsTell(a: seq<byte>, b: seq<byte>)
    requires Digits(a) == Digits(b)
    ensures a == b
    decreases |a|
  {
    if a != [] && b != [] {
      DigitsTell(a[1..], b[1..]);
      assert a == [a[0]] + a[1..] && b == [b[0]] + b[1..];
    }
  }

  lemma DigitsInjective()
    ensures Injective(Digits)
  {
    forall a, b | Digits(a) == Digits(b)
      ensures a == b
    {
      DigitsTell(a, b);
    }
  }

  /** A one-byte texture at an address. */
  function OneByte(at: nat): Request {
    Request(1, 1, 1, 1, at, 1, 1, None)
  }

  lemma OneByteRead(base: nat -> byte, writes: seq<Write>, m: nat, at: nat)
    requires m <= |writes|
    ensures ContentAt(base, writes, OneByte(at), m, m) == Content(1, 1, 1, 1, [ByteAfter(base, writes[..m], at)], None)
  {
    assert Window(base, writes[..m], at, 0) == []
           && Window(base, writes[..m], at, 1) == [] + [ByteAfter(base, writes[..m], at)];
  }

  function FirstByte(c: Content): nat {
    if c.bytes == [] then 0 else c.bytes[0]
  }

  /** A cache whose textures are their first byte. */
  method NewByteCache(budget: nat) returns (cache: TextureCache)
    ensures cache.Valid() && cache.Sound() && cache.entries == [] && cache.used == 0 && cache.writes == []
    ensures cache.clock == 0 && cache.now == 0 && cache.budget == budget && cache.hash == Digits
    ensures cache.convert == FirstByte
    ensures fresh(cache) && !cache.indexed(1) && cache.supported(1) && cache.sizeOf(1, 1, 1) == 4
    ensures forall k :: cache.base(k) == 0
  {
    cache := new TextureCache(budget, (k: nat) => 0 as byte, Digits, f => false, f => true, f => false, FirstByte,
                              (w, h, m) => 4);
  }

  /** The bytes of address 0 while 7 is written and then 0 again. */
  lemma BytesOfRace(base: nat -> byte, writes: seq<Write>)
    requires base(0) == 0 && writes == [Write(0, [7]), Write(0, [0])]
    ensures forall k: nat :: k <= 2
              ==> ContentAt(base, writes, OneByte(0), k, k) == Content(1, 1, 1, 1, [if k == 1 then 7 else 0], None)
  {
    forall k: nat | k <= 2
      ensures ContentAt(base, writes, OneByte(0), k, k) == Content(1, 1, 1, 1, [if k == 1 then 7 else 0], None)
    {
      OneByteRead(base, writes, k, 0);
      assert k > 0 ==> writes[..k][|writes[..k]| - 1] == writes[k - 1];
    }
  }

  /** A write between hashing and converting: the texture of the new byte is stored under the digest of the old one. */
  method RaceStores() returns (cache: TextureCache, ghost hashed: Content)
    ensures cache.Valid() && fresh(cache) && cache.writes == [Write(0, [7])] && cache.base(0) == 0
    ensures Injective(cache.hash)
    ensures !cache.indexed(1) && cache.supported(1) && cache.convert == FirstByte
    ensures hashed == Content(1, 1, 1, 1, [0], None)
    ensures |cache.entries| == 1 && cache.entries[0].texture == 7 && cache.entries[0].key == KeyOf(cache.hash, hashed)
  {
    hide Evicted, ContentAt, KeyOf, Injective, Digits, TextureCache.Valid, TextureCache.Sound, ByteAfter;
    cache := NewByteCache(16);
    DigitsInjective();
    ghost var writes := [Write(0, [7]), Write(0, [0])];
    BytesOfRace(cache.base, writes);
    var texture, m, p, was, hit := cache.Resolve(OneByte(0), false, false, true, Races([], [], [Write(0, [7])]));
    assert cache.writes == writes[..1];
    assert writes == writes[..1] + writes[1..];
    ReadBefore(cache.base, writes[..1], writes[1..], OneByte(0), 0, 0);
    ReadBefore(cache.base, writes[..1], writes[1..], OneByte(0), 1, 1);
    hashed := was;
  }

  /** After the old byte is written back a look-up finds that entry and shows the new one. */
  method RaceServesStale() returns (cache: TextureCache, shown: nat)
    ensures cache.Valid() && Injective(cache.hash) && shown != cache.convert(cache.Read(OneByte(0)))
  {
    hide Evicted, ContentAt, KeyOf, Injective, Digits, TextureCache.Valid, TextureCache.Sound, ByteAfter,
        TextureCache.NoneHas;
    ghost var stored;
    cache, stored := RaceStores();
    ghost var es := cache.entries;
    cache.GuestWrites([Write(0, [0])]);
    ghost var writes := [Write(0, [7]), Write(0, [0])];
    BytesOfRace(cache.base, writes);
    var again, m, p, hashed, hit := cache.Resolve(OneByte(0), false, false, true, NoRaces);
    assert cache.writes == writes;
    OneKey(cache, es, es[0].key);
    shown := again.value;
  }

  lemma OneKey(cache: TextureCache, es: seq<Entry>, key: Key)
    requires |es| == 1 && es[0].key == key
    ensures !cache.NoneHas(es, key)
  {
  }

  /** A one-byte texture holding a byte. */
  function Holding(b: byte): Content {
    Content(1, 1, 1, 1, [b], None)
  }

  method InsertByte(cache: TextureCache, b: byte)
    requires cache.Valid() && !cache.indexed(1) && cache.sizeOf(1, 1, 1) == 4 && cache.used + 4 <= cache.budget
    requires cache.hash == Digits && forall i :: 0 <= i < |cache.entries| ==> cache.entries[i].key.digest != b + 1
    modifies cache`entries, cache`clock, cache`now, cache`used
    ensures cache.Valid() && cache.clock == NextClock(old(cache.clock)) && cache.now == old(cache.now) + 1
    ensures cache.used == old(cache.used) + 4 && |cache.entries| == |old(cache.entries)| + 1
    ensures cache.entries[..|old(cache.entries)|] == Restamped(old(cache.entries), old(cache.clock))
    ensures var e := cache.entries[|old(cache.entries)|];
            e.key.digest == b + 1 && e.stamp == cache.clock && e.used == cache.now
  {
    hide TextureCache.Valid, Evicted, Restamped;
    assert Digits([b]) == b + 1 + 257 * Digits([]);
    cache.Insert(KeyOf(Digits, Holding(b)), Holding(b));
  }

  lemma CountsOn(es: seq<Entry>, clock: nat)
    requires clock < STAMPS
    ensures clock + 1 < STAMPS ==> NextClock(clock) == clock + 1 && Restamped(es, clock) == es
    ensures clock + 1 == STAMPS ==> NextClock(clock) == 1 && Restamped(es, clock) == Reset(es)
  {
  }

  /** Two textures, the first looked up until the stamps are used up, and a third, whose stamp wraps them: the search
      then picks the first, although the second has not been looked up for longer. */
  method WrapPicksNewer() returns (cache: TextureCache, victim: nat)
    ensures cache.Valid() && Oldest(cache.entries, victim) && !LeastRecentlyUsed(cache.entries, victim)
  {
    hide TextureCache.Valid, Digits, NextClock, Restamped, LeastRecentlyUsed, KeyOf, Sizes, Evicted;
    cache := NewByteCache(12);
    CountsOn([], 0);
    InsertByte(cache, 0);
    CountsOn(cache.entries, 1);
    InsertByte(cache, 1);
    while cache.clock + 1 < STAMPS
      invariant cache.Valid() && 2 <= cache.clock < STAMPS && cache.used == 8 && |cache.entries| == 2 && fresh(cache)
      invariant cache.entries[0].key.digest == 1 && cache.entries[1].key.digest == 2
      invariant cache.entries[1].used == 2 <= cache.now && (cache.clock == 2 || cache.entries[0].used > 2)
    {
      CountsOn(cache.entries, cache.clock);
      var _ := cache.Touch(0);
    }
    CountsOn(cache.entries, STAMPS - 1);
    InsertByte(cache, 2);
    assert cache.entries[0] == cache.entries[..2][0] && cache.entries[1] == cache.entries[..2][1];
    victim := cache.FindOldest();
    assert cache.entries[1].used < cache.entries[0].used;
    NotLeast(cache.entries, victim, 1);
  }

  lemma NotLeast(es: seq<Entry>, i: nat, j: nat)
    requires i < |es| && j < |es| && es[j].used < es[i].used
    ensures !LeastRecentlyUsed(es, i)
  {
  }
}
