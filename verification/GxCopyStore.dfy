/** Lazy copies from the GPU to Wii RAM (ps5/gpu/gx_copy_store.cpp, ps5/gpu/gx_copy_deferred.cpp,
    ps5/gpu/gx_copy_texture_cache.cpp and the deferred reads of Memory). A copy is encoded into RAM only when its
    bytes are needed; the guest must not notice. */
module GxCopyStore {
  import opened Bytes

  const MEM1_SIZE: nat := 0x180_0000
  const MEM2_BASE: nat := 0x1000_0000
  const MEM2_END: nat := 0x1400_0000

  /** Physical memory, the hole between the two banks included. */
  type Ram = r: seq<byte> | |r| == 0x1400_0000 witness seq(0x1400_0000, i => 0)

  predicate Overlaps(a: nat, an: nat, b: nat, bn: nat) {
    a < b + bn && b < a + an
  }

  /** Byte `k` is one of `n` bytes from `a` on. */
  predicate Within(k: nat, a: nat, n: nat) {
    a <= k < a + n
  }

  /** Ranges overlap if and only if they have a byte in common. */
  lemma OverlapIs(a: nat, an: nat, b: nat, bn: nat)
    requires an > 0 && bn > 0
    ensures Overlaps(a, an, b, bn) <==> exists k: nat :: Within(k, a, an) && Within(k, b, bn)
  {
    if Overlaps(a, an, b, bn) {
      var k := if a < b then b else a;
      assert Within(k, a, an) && Within(k, b, bn);
    }
  }

  function Physical(address: u32): nat {
    address % 0x4000_0000
  }

  /** `checked_ram`: the physical range, when it lies in one bank. */
  function CheckedRam(address: u32, n: nat): (r: Result<nat>)
    ensures r.Ok? ==> n > 0 && r.value + n <= MEM2_END
  {
    var physical := Physical(address);
    var limit := if physical < MEM1_SIZE then MEM1_SIZE else if MEM2_BASE <= physical < MEM2_END then MEM2_END else 0;
    if limit == 0 || n == 0 || n > limit - physical then Err else Ok(physical)
  }

  /** An address in one of the two banks, whichever window it is seen through. */
  predicate InRam(address: u32) {
    address % 0x4000_0000 < 0x180_0000 || 0x1000_0000 <= address % 0x4000_0000 < 0x1400_0000
  }

  /** `n` bytes from an address on that stay in the bank they start in. */
  predicate InBank(address: u32, n: nat) {
    || address % 0x4000_0000 + n <= 0x180_0000
    || (0x1000_0000 <= address % 0x4000_0000 && address % 0x4000_0000 + n <= 0x1400_0000)
  }

  /** What is accepted: some bytes, all of them in the bank of the first. */
  lemma Accepts(address: u32, n: nat)
    ensures CheckedRam(address, n).Ok? <==> n > 0 && InBank(address, n)
  {
  }

  /** The byte at an address of memory as the guest sees it. */
  function Seen(view: Ram, address: u32): byte
    requires InRam(address)
  {
    view[address % 0x4000_0000]
  }

  /** How far behind `from` an address is, whichever windows the two are seen through. */
  function Distance(from: u32, address: u32): nat {
    (address - from) % 0x4000_0000
  }

  /** What memory shows at every address once `bytes` are at `address`: byte `i` at the addresses that agree with
      `address + i` modulo the windows, and everywhere else what was there. */
  predicate Shows(was: Ram, now: Ram, address: u32, bytes: seq<byte>) {
    forall b: u32 :: InRam(b) ==>
      Seen(now, b) == if Distance(address, b) < |bytes| then bytes[Distance(address, b)] else Seen(was, b)
  }

  /** Storing at a checked address is seen exactly there. */
  lemma StoreShows(was: Ram, address: u32, bytes: seq<byte>)
    requires CheckedRam(address, |bytes|).Ok?
    ensures Shows(was, Stored(was, CheckedRam(address, |bytes|).value, bytes), address, bytes)
  {
    var now := Stored(was, CheckedRam(address, |bytes|).value, bytes);
    forall b: u32 | InRam(b)
      ensures Seen(now, b) == if Distance(address, b) < |bytes| then bytes[Distance(address, b)] else Seen(was, b)
    {
      Windows(address, b, |bytes|);
    }
  }

  lemma Windows(a: u32, b: u32, n: nat)
    requires InBank(a, n) && InRam(b)
    ensures var p, q := a % 0x4000_0000, b % 0x4000_0000;
            if p <= q < p + n then Distance(a, b) == q - p else Distance(a, b) >= n
  {
    var p, q := a % 0x4000_0000, b % 0x4000_0000;
    assert (b - a) % 0x4000_0000 == (q - p) % 0x4000_0000;
  }

  lemma RangeIs(address: u32, n: nat)
    requires CheckedRam(address, n).Ok?
    ensures CheckedRam(address, n).value + n <= MEM2_END
  {
  }

  lemma SameWindow(a: u32, i: nat)
    requires a % 0x4000_0000 + i < 0x4000_0000
    ensures a + i < WORD && (a + i) % 0x4000_0000 == a % 0x4000_0000 + i
  {
    var q, r := a / 0x4000_0000, a % 0x4000_0000;
    assert q <= 3 && a + i == 0x4000_0000 * q + (r + i);
    assert (0x4000_0000 * q + (r + i)) / 0x4000_0000 == q;
  }

  predicate ShownAt(view: Ram, address: nat, b: byte) {
    address < WORD && InRam(address) && b == Seen(view, address)
  }

  /** What a read of `n` bytes from an address on must give. */
  predicate ReadsFrom(view: Ram, address: u32, bytes: seq<byte>) {
    forall i :: 0 <= i < |bytes| ==> ShownAt(view, address + i, bytes[i])
  }

  lemma InRange(address: u32, n: nat, start: nat, i: nat)
    requires CheckedRam(address, n) == Ok(start) && i < n
    ensures start == address % 0x4000_0000
    ensures start + i < 0x180_0000 || 0x1000_0000 <= start + i < 0x1400_0000
  {
  }

  lemma ByteShown(view: Ram, address: u32, start: nat, i: nat)
    requires start == address % 0x4000_0000
    requires start + i < 0x180_0000 || 0x1000_0000 <= start + i < 0x1400_0000
    ensures ShownAt(view, address + i, view[start + i])
  {
    SameWindow(address, i);
  }

  /** A checked range shows the bytes of its own addresses, one after the other. */
  lemma RangeRead(view: Ram, address: u32, n: nat, start: nat, bytes: seq<byte>)
    requires CheckedRam(address, n) == Ok(start) && bytes == view[start..start + n]
    ensures |bytes| == n && ReadsFrom(view, address, bytes)
  {
    hide InRam, Seen, CheckedRam, ShownAt;
    forall i | 0 <= i < |bytes|
      ensures ShownAt(view, address + i, bytes[i])
    {
      InRange(address, n, start, i);
      ByteShown(view, address, start, i);
    }
  }

  // ----- Registered copies and the memory they stand for -----

  /** A registered deferred read: the bytes its copy encodes to, once someone needs them. */
  datatype Pending = Pending(token: nat, start: nat, bytes: seq<byte>)

  predicate Covers(p: Pending, k: nat) {
    p.start <= k < p.start + |p.bytes|
  }

  predicate Inside(p: Pending) {
    p.start + |p.bytes| <= MEM2_END
  }

  predicate Hits(p: Pending, start: nat, n: nat) {
    Overlaps(start, n, p.start, |p.bytes|)
  }

  /** The byte the guest must see: the newest registered copy over it, or RAM. */
  function ByteAt(ram: Ram, pending: seq<Pending>, k: nat): byte
    requires k < MEM2_END
  {
    if pending == [] then ram[k]
    else
      var last := pending[|pending| - 1];
      if Covers(last, k) then last.bytes[k - last.start] else ByteAt(ram, pending[..|pending| - 1], k)
  }

  /** Memory as the guest must see it. */
  function View(ram: Ram, pending: seq<Pending>): Ram {
    seq(MEM2_END, k requires 0 <= k < MEM2_END => ByteAt(ram, pending, k))
  }

  /** Memory with `bytes` stored at `start`. */
  function Stored(ram: Ram, start: nat, bytes: seq<byte>): (r: Ram)
    requires start + |bytes| <= MEM2_END
    ensures forall k :: 0 <= k < MEM2_END ==> r[k] == if start <= k < start + |bytes| then bytes[k - start] else ram[k]
  {
    ram[..start] + bytes + ram[start + |bytes|..]
  }

  /** No registration behind `i` covers `k`. */
  predicate NewestAt(pending: seq<Pending>, i: nat, k: nat)
    requires i < |pending|
  {
    Covers(pending[i], k) && forall j :: i < j < |pending| ==> !Covers(pending[j], k)
  }

  lemma {:induction false} NewestWins(ram: Ram, pending: seq<Pending>, i: nat, k: nat)
    requires k < MEM2_END && i < |pending| && NewestAt(pending, i, k)
    ensures ByteAt(ram, pending, k) == pending[i].bytes[k - pending[i].start]
  {
    if i < |pending| - 1 {
      assert !Covers(pending[|pending| - 1], k);
      NewestWins(ram, pending[..|pending| - 1], i, k);
    }
  }

  lemma {:induction false} Uncovered(ram: Ram, pending: seq<Pending>, k: nat)
    requires k < MEM2_END && forall i :: 0 <= i < |pending| ==> !Covers(pending[i], k)
    ensures ByteAt(ram, pending, k) == ram[k]
  {
    if pending != [] {
      Uncovered(ram, pending[..|pending| - 1], k);
    }
  }

  /** Removing a registration that does not cover a byte leaves the byte. */
  lemma {:induction false} RemovedElsewhere(ram: Ram, pending: seq<Pending>, i: nat, k: nat)
    requires k < MEM2_END && i < |pending| && !Covers(pending[i], k)
    ensures ByteAt(ram, Without(pending, i), k) == ByteAt(ram, pending, k)
  {
    var last := |pending| - 1;
    if i < last {
      RemovedElsewhere(ram, pending[..last], i, k);
      assert Without(pending, i)[..last - 1] == Without(pending[..last], i);
    } else {
      assert Without(pending, i) == pending[..last];
    }
  }

  lemma {:induction false} SameBelow(a: Ram, b: Ram, pending: seq<Pending>, k: nat)
    requires k < MEM2_END && a[k] == b[k]
    ensures ByteAt(a, pending, k) == ByteAt(b, pending, k)
  {
    if pending != [] {
      SameBelow(a, b, pending[..|pending| - 1], k);
    }
  }

  /** Registrations that do not overlap. */
  predicate Apart(pending: seq<Pending>) {
    forall i, j :: 0 <= i < j < |pending| ==> !Hits(pending[i], pending[j].start, |pending[j].bytes|)
  }

  lemma ApartNewest(pending: seq<Pending>, i: nat, j: nat, k: nat)
    requires Apart(pending) && i < |pending| && j < |pending| && i != j && Covers(pending[i], k)
    ensures !Covers(pending[j], k)
  {
    if i < j {
      assert !Hits(pending[i], pending[j].start, |pending[j].bytes|);
    } else {
      assert !Hits(pending[j], pending[i].start, |pending[i].bytes|);
    }
  }

  /** Encoding a copy into RAM and forgetting its registration changes nothing the guest sees. */
  lemma MaterializeInvisible(ram: Ram, pending: seq<Pending>, i: nat)
    requires i < |pending| && Apart(pending) && Inside(pending[i])
    ensures View(Stored(ram, pending[i].start, pending[i].bytes), Without(pending, i)) == View(ram, pending)
  {
    var p, rest := pending[i], Without(pending, i);
    var now := Stored(ram, p.start, p.bytes);
    forall k | 0 <= k < MEM2_END
      ensures ByteAt(now, rest, k) == ByteAt(ram, pending, k)
    {
      if Covers(p, k) {
        forall j | 0 <= j < |pending| && j != i
          ensures !Covers(pending[j], k)
        {
          ApartNewest(pending, i, j, k);
        }
        NewestWins(ram, pending, i, k);
        Uncovered(now, rest, k);
      } else {
        RemovedElsewhere(now, pending, i, k);
        SameBelow(now, ram, pending, k);
      }
    }
  }

  /** Forgetting a registration is invisible when a newer one covers all its bytes. */
  lemma CancelInvisible(ram: Ram, pending: seq<Pending>, i: nat, newest: nat)
    requires i < newest < |pending| && newest == |pending| - 1
    requires forall k :: Covers(pending[i], k) ==> Covers(pending[newest], k)
    ensures View(ram, Without(pending, i)) == View(ram, pending)
  {
    var rest := Without(pending, i);
    assert rest[|rest| - 1] == pending[newest];
    forall k | 0 <= k < MEM2_END
      ensures ByteAt(ram, rest, k) == ByteAt(ram, pending, k)
    {
      if Covers(pending[newest], k) {
        NewestWins(ram, pending, newest, k);
        NewestWins(ram, rest, |rest| - 1, k);
      } else {
        RemovedElsewhere(ram, pending, i, k);
      }
    }
  }

  /** Registering a copy is, to the guest, storing its bytes. */
  lemma RegisterIsStore(ram: Ram, pending: seq<Pending>, p: Pending)
    requires Inside(p)
    ensures View(ram, pending + [p]) == Stored(View(ram, pending), p.start, p.bytes)
  {
    var all := pending + [p];
    assert all[..|all| - 1] == pending;
    forall k | 0 <= k < MEM2_END
      ensures ByteAt(ram, all, k) == Stored(View(ram, pending), p.start, p.bytes)[k]
    {
    }
  }

  /** Where nothing is registered, RAM is what the guest sees, and a plain store is seen as such. */
  lemma PlainStore(ram: Ram, pending: seq<Pending>, start: nat, bytes: seq<byte>)
    requires start + |bytes| <= MEM2_END
    requires forall i :: 0 <= i < |pending| ==> !Hits(pending[i], start, |bytes|)
    ensures View(Stored(ram, start, bytes), pending) == Stored(View(ram, pending), start, bytes)
    ensures View(ram, pending)[start..start + |bytes|] == ram[start..start + |bytes|]
  {
    var now := Stored(ram, start, bytes);
    forall k | 0 <= k < MEM2_END
      ensures ByteAt(now, pending, k) == Stored(View(ram, pending), start, bytes)[k]
      ensures start <= k < start + |bytes| ==> ByteAt(ram, pending, k) == ram[k]
    {
      if start <= k < start + |bytes| {
        forall i | 0 <= i < |pending|
          ensures !Covers(pending[i], k)
        {
          assert !Hits(pending[i], start, |bytes|);
        }
        Uncovered(now, pending, k);
        Uncovered(ram, pending, k);
      } else {
        SameBelow(now, ram, pending, k);
      }
    }
  }

  // ----- The store -----

  /** A published copy: its size and the token of its deferred read. */
  datatype Entry = Entry(bytes: nat, token: nat)

  /** Tracked ranges that do not overlap `n` bytes at `start`. */
  function Surviving(ranges: map<nat, Entry>, start: nat, n: nat): map<nat, Entry> {
    map s | s in ranges && !Overlaps(s, ranges[s].bytes, start, n) :: ranges[s]
  }

  /** Cached views left when every tracked range in `start..start + n` is retired, except the one at `keep`. */
  function Kept(cache: map<nat, seq<byte>>, ranges: map<nat, Entry>, start: nat, n: nat, keep: Option<nat>): map<nat,
      seq<byte>> {
    map k | k in cache && (k !in ranges || !Overlaps(k, ranges[k].bytes, start, n) || keep == Some(k)) :: cache[k]
  }

  /** Tracked ranges lie in memory and are pairwise disjoint. */
  predicate RangesOk(ranges: map<nat, Entry>) {
    && (forall s :: s in ranges ==> ranges[s].bytes > 0 && s + ranges[s].bytes <= MEM2_END)
    && (forall s, t :: s in ranges && t in ranges && s != t ==> !Overlaps(s, ranges[s].bytes, t, ranges[t].bytes))
  }

  /** Every range has its own token, all of them given out already. */
  predicate TokensOk(ranges: map<nat, Entry>, nextToken: nat) {
    && nextToken > 0
    && (forall s :: s in ranges ==> 0 < ranges[s].token < nextToken)
    && (forall s, t :: s in ranges && t in ranges && s != t ==> ranges[s].token != ranges[t].token)
  }

  /** The registration belongs to a tracked range. */
  predicate Backed(p: Pending, ranges: map<nat, Entry>) {
    p.start in ranges && ranges[p.start] == Entry(|p.bytes|, p.token)
  }

  predicate PendingOk(pending: seq<Pending>, ranges: map<nat, Entry>) {
    Apart(pending) && forall i :: 0 <= i < |pending| ==>
        Inside(pending[i]) && |pending[i].bytes| > 0 && Backed(pending[i], ranges)
  }

  /** Every cached GPU view shows what the guest sees in its range. */
  predicate Coherent(view: Ram, ranges: map<nat, Entry>, cache: map<nat, seq<byte>>) {
    forall k :: k in cache ==> k in ranges && k + |cache[k]| <= MEM2_END && |cache[k]| == ranges[k].bytes
                               && view[k..k + |cache[k]|] == cache[k]
  }

  /** A replacement `p` is registered behind the registrations of the tracked ranges; those it overlaps it covers. */
  predicate Replacing(pending: seq<Pending>, ranges: map<nat, Entry>, p: Pending) {
    && RangesOk(ranges) && TokensOk(ranges, p.token) && Inside(p) && |p.bytes| > 0
    && pending != [] && pending[|pending| - 1] == p && PendingOk(pending[..|pending| - 1], ranges)
    && forall i :: 0 <= i < |pending| - 1 && Hits(pending[i], p.start, |p.bytes|)
         ==> p.start <= pending[i].start && pending[i].start + |pending[i].bytes| <= p.start + |p.bytes|
  }

  lemma FewerRanges(ranges: map<nat, Entry>, s: nat, token: nat)
    requires RangesOk(ranges) && TokensOk(ranges, token)
    ensures RangesOk(ranges - {s}) && TokensOk(ranges - {s}, token)
  {
  }

  lemma ApartWithout(pending: seq<Pending>, i: nat)
    requires Apart(pending) && i < |pending|
    ensures Apart(Without(pending, i))
  {
    hide Hits;
  }

  /** Registrations stay in order when one of them goes together with its range. */
  lemma FewerPending(pending: seq<Pending>, ranges: map<nat, Entry>, i: nat)
    requires PendingOk(pending, ranges) && i < |pending|
    ensures PendingOk(Without(pending, i), ranges - {pending[i].start})
  {
    ApartWithout(pending, i);
    var rest := Without(pending, i);
    forall j | 0 <= j < |rest|
      ensures Inside(rest[j]) && |rest[j].bytes| > 0 && Backed(rest[j], ranges - {pending[i].start})
    {
      var from := if j < i then j else j + 1;
      assert Inside(pending[from]) && Backed(pending[from], ranges);
      ApartStarts(pending, i, from);
    }
  }

  /** A replacement stays one when a range it overlaps is retired with its registration. */
  lemma RetiredCancelled(pending: seq<Pending>, ranges: map<nat, Entry>, p: Pending, s: nat, i: nat)
    requires Replacing(pending, ranges, p) && s in ranges && Overlaps(s, ranges[s].bytes, p.start, |p.bytes|)
    requires i < |pending| && pending[i].token == ranges[s].token
    ensures i < |pending| - 1 && Replacing(Without(pending, i), ranges - {s}, p)
    ensures forall k :: Covers(pending[i], k) ==> Covers(p, k)
  {
    hide PendingOk, RangesOk, Apart;
    FewerRanges(ranges, s, p.token);
    var last := |pending| - 1;
    var front, rest := pending[..last], Without(pending, i);
    assert i < last;
    assert pending[i] == front[i];
    TokenStart(front, ranges, p.token, s, i);
    assert Hits(pending[i], p.start, |p.bytes|);
    FewerPending(front, ranges, i);
    assert rest[..|rest| - 1] == Without(front, i);
    hide TokensOk, Hits;
  }

  lemma ReplacementIsLast(pending: seq<Pending>, ranges: map<nat, Entry>, p: Pending)
    requires Replacing(pending, ranges, p)
    ensures pending != [] && pending[|pending| - 1] == p
  {
  }

  /** A registration with a range's token is that range's. */
  lemma TokenStart(pending: seq<Pending>, ranges: map<nat, Entry>, token: nat, s: nat, i: nat)
    requires PendingOk(pending, ranges) && TokensOk(ranges, token) && s in ranges && i < |pending|
    requires pending[i].token == ranges[s].token
    ensures pending[i].start == s && |pending[i].bytes| == ranges[s].bytes
  {
    assert Backed(pending[i], ranges);
  }

  lemma ApartStarts(pending: seq<Pending>, i: nat, j: nat)
    requires Apart(pending) && i < |pending| && j < |pending| && i != j
    requires |pending[i].bytes| > 0 && |pending[j].bytes| > 0
    ensures pending[i].start != pending[j].start
  {
    ApartNewest(pending, i, j, pending[i].start);
    assert Covers(pending[j], pending[j].start);
  }

  /** The same when its registration was resolved before. */
  lemma RetiredResolved(pending: seq<Pending>, ranges: map<nat, Entry>, p: Pending, s: nat)
    requires Replacing(pending, ranges, p) && s in ranges
    requires forall i :: 0 <= i < |pending| ==> pending[i].token != ranges[s].token
    ensures Replacing(pending, ranges - {s}, p)
  {
    FewerRanges(ranges, s, p.token);
    var front := pending[..|pending| - 1];
    forall j | 0 <= j < |front|
      ensures Backed(front[j], ranges - {s})
    {
      assert Backed(front[j], ranges) && pending[j] == front[j];
    }
  }

  /** With every overlapped range retired the new node's key is free, and the replacement takes its place. */
  lemma Committed(pending: seq<Pending>, was: map<nat, Entry>, p: Pending)
    requires var left := Surviving(was, p.start, |p.bytes|); Replacing(pending, left, p)
    ensures var left := Surviving(was, p.start, |p.bytes|); var now := left[p.start := Entry(|p.bytes|, p.token)];
            p.start !in left && RangesOk(now) && TokensOk(now, p.token + 1) && PendingOk(pending, now)
  {
    var left := Surviving(was, p.start, |p.bytes|);
    var now := left[p.start := Entry(|p.bytes|, p.token)];
    var last := |pending| - 1;
    var front := pending[..last];
    assert p.start !in left;
    forall i | 0 <= i < |pending|
      ensures Inside(pending[i]) && |pending[i].bytes| > 0 && Backed(pending[i], now)
      ensures i < last ==> !Hits(pending[i], p.start, |p.bytes|)
    {
      if i < last {
        assert pending[i] == front[i] && Backed(front[i], left);
      }
    }
    forall i, j | 0 <= i < j < |pending|
      ensures !Hits(pending[i], pending[j].start, |pending[j].bytes|)
    {
      if j < last {
        assert pending[i] == front[i] && pending[j] == front[j];
      }
    }
  }

  lemma Registered(pending: seq<Pending>, ranges: map<nat, Entry>, p: Pending)
    requires RangesOk(ranges) && TokensOk(ranges, p.token) && PendingOk(pending, ranges) && Inside(p) && |p.bytes| > 0
    requires forall q :: q in pending && Hits(q, p.start, |p.bytes|)
               ==> p.start <= q.start && q.start + |q.bytes| <= p.start + |p.bytes|
    ensures Replacing(pending + [p], ranges, p)
    ensures forall i :: 0 <= i < |pending| ==> pending[i].token < p.token
  {
    assert (pending + [p])[..|pending|] == pending;
    forall i | 0 <= i < |pending|
      ensures pending[i].token < p.token
    {
      assert Backed(pending[i], ranges);
    }
    hide Hits, RangesOk;
  }

  lemma KeptThenSet(cache: map<nat, seq<byte>>, was: map<nat, Entry>, start: nat, bytes: seq<byte>)
    ensures Kept(cache[start := bytes], was, start, |bytes|, Some(start))
        == Kept(cache, was, start, |bytes|, None)[start := bytes]
  {
  }

  /** Cancelling the registration just made. */
  lemma CancelNewest(before: seq<Pending>, p: Pending, i: nat)
    requires forall j :: 0 <= j < |before| ==> before[j].token < p.token
    requires i <= |before| && (before + [p])[i].token == p.token
    ensures Without(before + [p], i) == before
  {
  }

  lemma MoreTokens(ranges: map<nat, Entry>, token: nat)
    requires TokensOk(ranges, token)
    ensures TokensOk(ranges, token + 1)
  {
  }

  /** Half-way through a retiring loop: of the overlapping ranges only those in `todo` are left, and their views. */
  ghost predicate Retiring(ranges: map<nat, Entry>, cache: map<nat, seq<byte>>, was: map<nat, Entry>, views: map<nat,
                           seq<byte>>,
                     todo: set<nat>, start: nat, n: nat, keep: Option<nat>)
  {
    && todo <= ranges.Keys
    && (forall s :: s in ranges <==> s in was && (s in todo || !Overlaps(s, was[s].bytes, start, n)))
    && (forall s :: s in ranges && s in was ==> ranges[s] == was[s])
    && (forall k :: k in cache
          <==> k in views && (k !in was || k in todo || !Overlaps(k, was[k].bytes, start, n) || keep == Some(k)))
    && (forall k :: k in cache && k in views ==> cache[k] == views[k])
  }

  lemma RetiringStart(was: map<nat, Entry>, views: map<nat, seq<byte>>, start: nat, n: nat, keep: Option<nat>)
    ensures Retiring(was, views, was, views, was.Keys, start, n, keep)
  {
  }

  lemma RetiringDone(ranges: map<nat, Entry>, cache: map<nat, seq<byte>>, was: map<nat, Entry>, views: map<nat,
                     seq<byte>>,
                     start: nat, n: nat, keep: Option<nat>)
    requires Retiring(ranges, cache, was, views, {}, start, n, keep)
    ensures ranges == Surviving(was, start, n) && cache == Kept(views, was, start, n, keep)
  {
    hide Overlaps;
  }

  lemma RetiringSkip(ranges: map<nat, Entry>, cache: map<nat, seq<byte>>, was: map<nat, Entry>, views: map<nat,
                     seq<byte>>,
                     todo: set<nat>, start: nat, n: nat, keep: Option<nat>, s: nat)
    requires Retiring(ranges, cache, was, views, todo, start, n, keep)
    requires s in todo && !Overlaps(s, ranges[s].bytes, start, n)
    ensures Retiring(ranges, cache, was, views, todo - {s}, start, n, keep)
  {
    hide Overlaps;
  }

  lemma RetiringStep(ranges: map<nat, Entry>, cache: map<nat, seq<byte>>, was: map<nat, Entry>, views: map<nat,
                     seq<byte>>,
                     todo: set<nat>, start: nat, n: nat, keep: Option<nat>, s: nat)
    requires Retiring(ranges, cache, was, views, todo, start, n, keep)
    requires s in todo && Overlaps(s, ranges[s].bytes, start, n)
    ensures Retiring(ranges - {s}, if keep == Some(s) then cache
                     else cache - {s}, was, views, todo - {s}, start, n, keep)
  {
    hide Overlaps;
  }

  /** A range that nothing pending overlaps can go without touching the registrations. */
  lemma UnbackedRange(pending: seq<Pending>, ranges: map<nat, Entry>, nextToken: nat, s: nat, start: nat, n: nat)
    requires RangesOk(ranges) && TokensOk(ranges, nextToken) && PendingOk(pending, ranges)
    requires s in ranges && Overlaps(s, ranges[s].bytes, start, n)
    requires forall i :: 0 <= i < |pending| ==> !Hits(pending[i], start, n)
    ensures RangesOk(ranges - {s}) && TokensOk(ranges - {s}, nextToken) && PendingOk(pending, ranges - {s})
  {
    FewerRanges(ranges, s, nextToken);
    forall i | 0 <= i < |pending|
      ensures Backed(pending[i], ranges - {s})
    {
      assert Backed(pending[i], ranges) && !Hits(pending[i], start, n);
    }
  }

  lemma MaterializedOk(pending: seq<Pending>, ranges: map<nat, Entry>, i: nat)
    requires PendingOk(pending, ranges) && i < |pending|
    ensures Inside(pending[i]) && Apart(pending) && PendingOk(Without(pending, i), ranges)
  {
    ApartWithout(pending, i);
  }

  // ----- What stays visible through the texture cache -----

  lemma WindowOf(view: Ram, start: nat, bytes: seq<byte>, k: nat, n: nat)
    requires start + |bytes| <= MEM2_END && k + n <= MEM2_END
    ensures !Overlaps(k, n, start, |bytes|) ==> Stored(view, start, bytes)[k..k + n] == view[k..k + n]
    ensures Stored(view, start, bytes)[start..start + |bytes|] == bytes
  {
  }

  /** A publication keeps every cached view coherent, its own included. */
  lemma PublishKeepsCoherent(view: Ram, ranges: map<nat, Entry>, cache: map<nat, seq<byte>>, start: nat,
                             bytes: seq<byte>, token: nat)
    requires Coherent(view, ranges, cache) && start + |bytes| <= MEM2_END && start !in Surviving(ranges, start, |bytes|)
    ensures Coherent(Stored(view, start, bytes), Surviving(ranges, start, |bytes|)[start := Entry(|bytes|, token)],
                     Kept(cache, ranges, start, |bytes|, None)[start := bytes])
  {
    WindowOf(view, start, bytes, start, |bytes|);
    forall k | k in Kept(cache, ranges, start, |bytes|, None)
      ensures Stored(view, start, bytes)[k..k + |cache[k]|] == cache[k]
    {
      WindowOf(view, start, bytes, k, |cache[k]|);
    }
  }

  /** So does an announced write. */
  lemma WriteKeepsCoherent(view: Ram, ranges: map<nat, Entry>, cache: map<nat, seq<byte>>, start: nat, bytes: seq<byte>)
    requires Coherent(view, ranges, cache) && start + |bytes| <= MEM2_END
    ensures Coherent(Stored(view, start, bytes), Surviving(ranges, start, |bytes|),
                     Kept(cache, ranges, start, |bytes|, None))
  {
    forall k | k in Kept(cache, ranges, start, |bytes|, None)
      ensures Stored(view, start, bytes)[k..k + |cache[k]|] == cache[k]
    {
      WindowOf(view, start, bytes, k, |cache[k]|);
    }
  }

  /** The store changes no byte that a cached view shows. */
  predicate Harmless(view: Ram, cache: map<nat, seq<byte>>, start: nat, bytes: seq<byte>) {
    forall k, i :: k in cache && k <= i < k + |cache[k]| && start <= i < start + |bytes| && i < MEM2_END ==>
        bytes[i - start] == view[i]
  }

  /** A scalar store resolves deferred reads but retires no view: the views stay coherent exactly when it changes no
      byte of any of them. */
  lemma ScalarCoherence(view: Ram, ranges: map<nat, Entry>, cache: map<nat, seq<byte>>, start: nat, bytes: seq<byte>)
    requires Coherent(view, ranges, cache) && start + |bytes| <= MEM2_END
    ensures Coherent(Stored(view, start, bytes), ranges, cache) <==> Harmless(view, cache, start, bytes)
  {
    var now := Stored(view, start, bytes);
    if Harmless(view, cache, start, bytes) {
      forall k | k in cache
        ensures now[k..k + |cache[k]|] == cache[k]
      {
        assert now[k..k + |cache[k]|] == view[k..k + |cache[k]|];
      }
    }
    if Coherent(now, ranges, cache) {
      forall k, i | k in cache && k <= i < k + |cache[k]| && start <= i < start + |bytes| && i < MEM2_END
        ensures bytes[i - start] == view[i]
      {
        assert now[k..k + |cache[k]|][i - k] == view[k..k + |cache[k]|][i - k];
      }
    }
  }

  // ----- What fails -----

  /** Every copy that `n` bytes at `start` need can be encoded. */
  predicate Resolvable(pending: seq<Pending>, start: nat, n: nat, faults: set<nat>) {
    forall p :: p in pending && Hits(p, start, n) ==> p.token !in faults
  }

  /** A copy that `n` bytes at `start` overlap but do not cover. */
  predicate Partly(p: Pending, start: nat, n: nat) {
    Hits(p, start, n) && !(start <= p.start && p.start + |p.bytes| <= start + n)
  }

  /** Every copy that is only partly covered can be encoded. */
  predicate PartlyResolvable(pending: seq<Pending>, start: nat, n: nat, faults: set<nat>) {
    forall p :: p in pending && Partly(p, start, n) ==> p.token !in faults
  }

  /** Only the copy of a tracked range overlaps that range. */
  lemma OwnRanges(pending: seq<Pending>, ranges: map<nat, Entry>, start: nat, n: nat)
    requires RangesOk(ranges) && PendingOk(pending, ranges)
    ensures forall p :: p in pending ==> p.start in ranges
    ensures forall p :: p in pending ==> (Hits(p, start, n) <==> Overlaps(p.start, ranges[p.start].bytes, start, n))
    ensures forall p :: p in pending ==> ranges[p.start].bytes == |p.bytes|
    ensures forall p, s :: p in pending && s in ranges ==> (Hits(p, s, ranges[s].bytes) <==> p.start == s)
  {
    forall p | p in pending
      ensures Backed(p, ranges) && |p.bytes| > 0
    {
      var i :| 0 <= i < |pending| && pending[i] == p;
      assert Backed(pending[i], ranges);
    }
  }

  lemma StillIn(pending: seq<Pending>, i: nat, p: Pending)
    requires i < |pending| && p in pending && p != pending[i]
    ensures p in Without(pending, i)
  {
    var k :| 0 <= k < |pending| && pending[k] == p;
    assert Without(pending, i)[if k < i then k else k - 1] == p;
  }

  // ----- Runs -----

  /** What reaches the store: publications, announced bulk writes, scalar guest stores, guest reads, and the guest
      destroying copy textures. `faults` are the tokens whose copies cannot be encoded during the call. */
  datatype Op =
    | PublishOp(address: u32, bytes: seq<byte>, faults: set<nat>, registerFails: bool, cacheFails: bool)
    | BulkOp(address: u32, bytes: seq<byte>, faults: set<nat>)
    | ScalarOp(address: u32, bytes: seq<byte>, faults: set<nat>)
    | ReadOp(address: u32, n: nat, faults: set<nat>)
    | DestroyOp(key: Option<nat>)

  datatype Outcome = Done | Threw | Got(bytes: seq<byte>)

  /** The operation is refused whatever is pending. */
  predicate Refused(op: Op) {
    match op
    case PublishOp(address, bytes, _, registerFails, cacheFails) =>
      CheckedRam(address, |bytes|).Err? || registerFails || cacheFails || address / 0x4000_0000 == 1
    case BulkOp(address, bytes, _) => bytes != [] && CheckedRam(address, |bytes|).Err?
    case ScalarOp(address, bytes, _) => CheckedRam(address, |bytes|).Err?
    case ReadOp(address, n, _) => CheckedRam(address, n).Err?
    case DestroyOp(_) => false
  }

  /** A pending copy that the operation needs cannot be encoded. */
  predicate Faulty(pending: seq<Pending>, op: Op) {
    match op
    case PublishOp(address, bytes, faults, _, _) =>
      var range := CheckedRam(address, |bytes|);
      range.Ok? && !PartlyResolvable(pending, range.value, |bytes|, faults)
    case BulkOp(address, bytes, faults) =>
      var range := CheckedRam(address, |bytes|);
      range.Ok? && !Resolvable(pending, range.value, |bytes|, faults)
    case ScalarOp(address, bytes, faults) =>
      var range := CheckedRam(address, |bytes|);
      range.Ok? && !Resolvable(pending, range.value, |bytes|, faults)
    case ReadOp(address, n, faults) =>
      var range := CheckedRam(address, n);
      range.Ok? && !Resolvable(pending, range.value, n, faults)
    case DestroyOp(_) => false
  }

  predicate MayFault(op: Op) {
    !op.DestroyOp? && op.faults != {}
  }

  /** Operations throw when they are refused, and otherwise only if copies cannot be encoded. */
  predicate ThrowsRight(op: Op, out: Outcome) {
    (Refused(op) ==> out == Threw) && (out == Threw ==> Refused(op) || MayFault(op))
  }

  /** The memory of a machine that stores every copy at once. */
  function Eager(memory: Ram, op: Op, out: Outcome): Ram {
    if out == Threw || op.ReadOp? || op.DestroyOp? then memory
    else
      match CheckedRam(op.address, |op.bytes|)
      case Ok(start) => Stored(memory, start, op.bytes)
      case Err => memory
  }

  /** A read that returns gets the eager machine's bytes. */
  predicate ReadsRight(memory: Ram, op: Op, out: Outcome) {
    op.ReadOp? && out.Got? ==>
      CheckedRam(op.address, op.n).Ok?
          && var start := CheckedRam(op.address, op.n).value; out.bytes == memory[start..start + op.n]
  }

  function EagerAll(memory: Ram, ops: seq<Op>, outs: seq<Outcome>): Ram
    requires |ops| == |outs|
  {
    if ops == [] then memory
    else
      var n := |ops| - 1;
      Eager(EagerAll(memory, ops[..n], outs[..n]), ops[n], outs[n])
  }

  predicate AllReadsRight(memory: Ram, ops: seq<Op>, outs: seq<Outcome>)
    requires |ops| == |outs|
  {
    forall k :: 0 <= k < |ops| ==> ReadsRight(EagerAll(memory, ops[..k], outs[..k]), ops[k], outs[k])
  }

  lemma FaultsAreNeeded(pending: seq<Pending>, op: Op)
    ensures Faulty(pending, op) ==> MayFault(op)
  {
  }

  lemma RunStep(memory: Ram, ops: seq<Op>, outs: seq<Outcome>, op: Op, out: Outcome)
    requires |ops| == |outs| && AllReadsRight(memory, ops, outs)
    requires ReadsRight(EagerAll(memory, ops, outs), op, out)
    ensures EagerAll(memory, ops + [op], outs + [out]) == Eager(EagerAll(memory, ops, outs), op, out)
    ensures AllReadsRight(memory, ops + [op], outs + [out])
  {
    var more, results := ops + [op], outs + [out];
    assert more[..|ops|] == ops && results[..|outs|] == outs;
    forall k | 0 <= k < |more|
      ensures ReadsRight(EagerAll(memory, more[..k], results[..k]), more[k], results[k])
    {
      if k < |ops| {
        assert more[..k] == ops[..k] && results[..k] == outs[..k];
      }
    }
  }

  class CopyStore {
    // Memory: RAM and the registered deferred reads.
    var ram: Ram
    var pending: seq<Pending>
    var nextToken: nat

    // The store, and the texture cache that samples its copies. A range's host address is its key.
    var ranges: map<nat, Entry>
    var cache: map<nat, seq<byte>>

    ghost predicate Valid()
      reads this
    {
      RangesOk(ranges) && TokensOk(ranges, nextToken) && PendingOk(pending, ranges)
    }

    ghost function Guest(): Ram
      reads this
    {
      View(ram, pending)
    }

    constructor (ram: Ram)
      ensures Valid() && Guest() == ram && ranges == map[] && cache == map[] && pending == [] && nextToken == 1
    {
      this.ram, pending, nextToken, ranges, cache := ram, [], 1, map[], map[];
      new;
      assert View(ram, []) == ram;
    }

    /** The first registration that overlaps the range. */
    method FirstHit(start: nat, n: nat) returns (found: Option<nat>)
      ensures found.Some? ==> found.value < |pending| && Hits(pending[found.value], start, n)
      ensures found.None? ==> forall i :: 0 <= i < |pending| ==> !Hits(pending[i], start, n)
    {
      for i := 0 to |pending|
        invariant forall j :: 0 <= j < i ==> !Hits(pending[j], start, n)
      {
        if Hits(pending[i], start, n) {
          return Some(i);
        }
      }
      return None;
    }

    /** `ResolveDeferredReads`: materializes every registration that overlaps the range. Encoding a copy whose token is
        in `faults` fails; the call then throws and keeps that registration. Either way the guest sees the same. */
    method Resolve(start: nat, n: nat, faults: set<nat>) returns (ok: bool)
      requires Valid()
      modifies this`ram, this`pending
      ensures Valid() && Guest() == old(Guest())
      ensures forall p :: p in pending ==> p in old(pending)
      ensures forall p :: p in old(pending) && p !in pending ==> Hits(p, start, n)
      ensures ok ==> forall i :: 0 <= i < |pending| ==> !Hits(pending[i], start, n)
      ensures ok == Resolvable(old(pending), start, n, faults)
    {
      hide View, RangesOk, TokensOk, PendingOk, Stored, Hits;
      while true
        invariant Valid() && Guest() == old(Guest())
        invariant forall p :: p in pending ==> p in old(pending)
        invariant forall p :: p in old(pending) && p !in pending ==> Hits(p, start, n) && p.token !in faults
        decreases |pending|
      {
        var hit := FirstHit(start, n);
        if hit.None? {
          return true;
        }
        var i := hit.value;
        var p := pending[i];
        if p.token in faults {
          return false;
        }
        MaterializedOk(pending, ranges, i);
        MaterializeInvisible(ram, pending, i);
        forall q | q in pending && q != p
          ensures q in Without(pending, i)
        {
          StillIn(pending, i, q);
        }
        ram := Stored(ram, p.start, p.bytes);
        pending := Without(pending, i);
      }
    }

    /** `CancelDeferredRead`. */
    method Cancel(token: nat) returns (cancelled: bool)
      modifies this`pending
      ensures !cancelled ==> pending == old(pending) && forall i :: 0 <= i < |pending| ==> pending[i].token != token
      ensures cancelled ==>
                exists i :: && 0 <= i < |old(pending)| && old(pending)[i].token == token
                            && pending == Without(old(pending), i)
    {
      for i := 0 to |pending|
        invariant forall j :: 0 <= j < i ==> pending[j].token != token
      {
        if pending[i].token == token {
          pending := Without(pending, i);
          return true;
        }
      }
      return false;
    }

    /** The first loop of `publish`: materializes the copies that the incoming range overlaps but does not cover. */
    method ResolvePartial(start: nat, n: nat, faults: set<nat>) returns (ok: bool)
      requires Valid()
      modifies this`ram, this`pending
      ensures Valid() && Guest() == old(Guest())
      ensures forall p :: p in pending ==> p in old(pending)
      ensures forall p :: p in old(pending) && p !in pending ==> Partly(p, start, n)
      ensures ok ==> forall p :: p in pending ==> !Partly(p, start, n)
      ensures ok == PartlyResolvable(old(pending), start, n, faults)
    {
      hide View, RangesOk, TokensOk, PendingOk, Hits, Overlaps;
      OwnRanges(pending, ranges, start, n);
      var todo := ranges.Keys;
      while todo != {}
        invariant Valid() && Guest() == old(Guest()) && todo <= ranges.Keys
        invariant forall p :: p in pending ==> p in old(pending)
        invariant forall p :: p in old(pending) && p !in pending ==> Partly(p, start, n) && p.token !in faults
        invariant forall p :: p in pending && p.start in ranges.Keys - todo ==> !Partly(p, start, n)
      {
        OwnRanges(pending, ranges, start, n);
        var s :| s in todo;
        todo := todo - {s};
        var covered := start <= s && s + ranges[s].bytes <= start + n;
        if Overlaps(s, ranges[s].bytes, start, n) && !covered {
          var resolved := Resolve(s, ranges[s].bytes, faults);
          if !resolved {
            return false;
          }
        }
      }
      return true;
    }

    /** Retires one range that the replacement overlaps. */
    method Retire(s: nat, ghost p: Pending, keep: nat)
      requires Replacing(pending, ranges, p) && s in ranges && Overlaps(s, ranges[s].bytes, p.start, |p.bytes|)
      modifies this`pending, this`ranges, this`cache
      ensures Replacing(pending, ranges, p) && Guest() == old(Guest())
      ensures ranges == old(ranges) - {s} && cache == if s == keep then old(cache) else old(cache) - {s}
    {
      hide Replacing, View, Overlaps;
      ghost var before := pending;
      var cancelled := Cancel(ranges[s].token);
      if cancelled {
        ghost var i :| 0 <= i < |before| && before[i].token == ranges[s].token && pending == Without(before, i);
        ReplacementIsLast(before, ranges, p);
        RetiredCancelled(before, ranges, p, s, i);
        CancelInvisible(ram, before, i, |before| - 1);
      } else {
        RetiredResolved(before, ranges, p, s);
      }
      if s != keep {
        cache := cache - {s};
      }
      ranges := ranges - {s};
    }

    /** The last loop of `publish`, once the replacement is registered and cached. */
    method RetireCovered(ghost p: Pending, start: nat, n: nat)
      requires Replacing(pending, ranges, p) && start == p.start && n == |p.bytes|
      modifies this`pending, this`ranges, this`cache
      ensures Replacing(pending, ranges, p) && Guest() == old(Guest())
      ensures ranges == Surviving(old(ranges), start, n)
      ensures cache == Kept(old(cache), old(ranges), start, n, Some(start))
    {
      hide Replacing, View, Overlaps, Surviving, Kept;
      var todo := ranges.Keys;
      ghost var was, views := ranges, cache;
      hide Retiring;
      RetiringStart(was, views, start, n, Some(start));
      while todo != {}
        invariant Replacing(pending, ranges, p) && Guest() == old(Guest()) && todo <= ranges.Keys
        invariant Retiring(ranges, cache, was, views, todo, start, n, Some(start))
      {
        var s :| s in todo;
        if Overlaps(s, ranges[s].bytes, start, n) {
          RetiringStep(ranges, cache, was, views, todo, start, n, Some(start), s);
          Retire(s, p, start);
        } else {
          RetiringSkip(ranges, cache, was, views, todo, start, n, Some(start), s);
        }
        todo := todo - {s};
      }
      RetiringDone(ranges, cache, was, views, start, n, Some(start));
    }

    /** What a call that throws leaves as it was, and what a publication changes. */
    twostate predicate Published(start: nat, bytes: seq<byte>)
      requires start + |bytes| <= MEM2_END
      reads this
    {
      && Guest() == Stored(old(Guest()), start, bytes)
      && start !in Surviving(old(ranges), start, |bytes|)
      && ranges == Surviving(old(ranges), start, |bytes|)[start := Entry(|bytes|, old(nextToken))]
      && cache == Kept(old(cache), old(ranges), start, |bytes|, None)[start := bytes]
    }

    twostate predicate NothingSeen()
      reads this
    {
      Guest() == old(Guest()) && ranges == old(ranges) && cache == old(cache)
    }

    /** Caches the registered copy, and only then retires the copies it covers. */
    method Commit(p: Pending, start: nat, bytes: seq<byte>)
      requires Replacing(pending, ranges, p) && nextToken == p.token + 1 && p.start == start && p.bytes == bytes
      modifies this`pending, this`ranges, this`cache
      ensures Valid() && Guest() == old(Guest())
      ensures start !in Surviving(old(ranges), start, |bytes|)
      ensures ranges == Surviving(old(ranges), start, |bytes|)[start := Entry(|bytes|, p.token)]
      ensures cache == Kept(old(cache), old(ranges), start, |bytes|, None)[start := bytes]
    {
      KeptThenSet(cache, ranges, start, bytes);
      hide View, Surviving, Kept, PendingOk, RangesOk, TokensOk, Replacing, Hits;
      cache := cache[start := bytes];
      RetireCovered(p, start, |bytes|);
      Committed(pending, old(ranges), p);
      ranges := ranges[start := Entry(|bytes|, p.token)];
    }

    /** Registers the copy, caches it, and only then retires the copies it covers. */
    method Replace(start: nat, bytes: seq<byte>, cacheFails: bool) returns (ok: bool)
      requires Valid() && start + |bytes| <= MEM2_END && |bytes| > 0
      requires forall q :: q in pending && Hits(q, start, |bytes|) ==>
          start <= q.start && q.start + |q.bytes| <= start + |bytes|
      modifies this
      ensures Valid() && ok == !cacheFails
      ensures if ok then Published(start, bytes) else NothingSeen()
    {
      var p := Pending(nextToken, start, bytes);
      RegisterIsStore(ram, pending, p);
      Registered(pending, ranges, p);
      hide View, Surviving, Kept, PendingOk, RangesOk, TokensOk, Replacing, Hits, Stored;
      if cacheFails {
        RegisterAndCancel(p);
        return false;
      }
      pending, nextToken := pending + [p], nextToken + 1;
      Commit(p, start, bytes);
      return true;
    }

    /** The registration is taken back when the copy cannot be cached. */
    method RegisterAndCancel(p: Pending)
      requires TokensOk(ranges, nextToken) && p.token == nextToken
      requires forall i :: 0 <= i < |pending| ==> pending[i].token < p.token
      modifies this`pending, this`nextToken
      ensures pending == old(pending) && TokensOk(ranges, nextToken)
    {
      hide TokensOk, Without;
      ghost var before := pending;
      pending, nextToken := pending + [p], nextToken + 1;
      var cancelled := Cancel(p.token);
      assert (before + [p])[|before|] == p && cancelled;
      ghost var i :| 0 <= i <= |before| && (before + [p])[i].token == p.token && pending == Without(before + [p], i);
      CancelNewest(before, p, i);
      MoreTokens(ranges, p.token);
    }

    /** `publish` of a copy that encodes to `bytes`. It throws when the destination is not in RAM, when a copy it only
        partly covers cannot be encoded, or when registering or caching fails. A failed call changes nothing the guest
        or the texture cache can see; a successful one is, to the guest, a store of the bytes. */
    method Publish(address: u32, bytes: seq<byte>, faults: set<nat>, registerFails: bool,
                   cacheFails: bool) returns (ok: bool)
      requires Valid()
      modifies this
      ensures Valid()
      ensures if ok then CheckedRam(address, |bytes|).Ok? && Published(CheckedRam(address, |bytes|).value, bytes)
          else NothingSeen()
      ensures var op := PublishOp(address, bytes, faults, registerFails, cacheFails);
              !ok <==> Refused(op) || Faulty(old(pending), op)
      ensures ok ==> InBank(address, |bytes|) && Shows(old(Guest()), Guest(), address, bytes)
      ensures !InBank(address, |bytes|) || bytes == [] ==> !ok
    {
      hide Shows, InBank;
      Accepts(address, |bytes|);
      var incoming := CheckedRam(address, |bytes|);
      if incoming.Err? {
        return false;
      }
      StoreShows(Guest(), address, bytes);
      var resolved := ResolvePartial(incoming.value, |bytes|, faults);
      if !resolved || registerFails || address / 0x4000_0000 == 1 {
        return false;
      }
      ok := Replace(incoming.value, bytes, cacheFails);
    }

    /** `prepare_write`: afterwards RAM itself holds what the guest sees of the range, and no GPU view overlaps it. */
    method PrepareWrite(address: u32, n: nat, faults: set<nat>) returns (ok: bool)
      requires Valid()
      modifies this`ram, this`pending, this`ranges, this`cache
      ensures Valid() && Guest() == old(Guest())
      ensures !ok ==> ranges == old(ranges) && cache == old(cache)
      ensures ok && n > 0 ==> CheckedRam(address, n).Ok?
      ensures ok && n > 0 ==> var start := CheckedRam(address, n).value;
                     && (forall i :: 0 <= i < |pending| ==> !Hits(pending[i], start, n))
                     && ranges == Surviving(old(ranges), start, n)
                     && cache == Kept(old(cache), old(ranges), start, n, None)
      ensures n == 0 ==> ok && ranges == old(ranges) && cache == old(cache)
      ensures ok <==> n == 0 || (CheckedRam(address, n).Ok?
                                 && Resolvable(old(pending), CheckedRam(address, n).value, n, faults))
    {
      if n == 0 {
        return true;
      }
      var range := CheckedRam(address, n);
      if range.Err? {
        return false;
      }
      var start := range.value;
      var resolved := Resolve(start, n, faults);
      if !resolved {
        return false;
      }
      RetireViews(start, n);
      return true;
    }

    /** The loop of `prepare_write`, once no registration overlaps the range. */
    method RetireViews(start: nat, n: nat)
      requires Valid() && forall i :: 0 <= i < |pending| ==> !Hits(pending[i], start, n)
      modifies this`ranges, this`cache
      ensures Valid()
      ensures ranges == Surviving(old(ranges), start, n) && cache == Kept(old(cache), old(ranges), start, n, None)
    {
      ghost var was, views := ranges, cache;
      RetiringStart(was, views, start, n, None);
      hide View, Overlaps, Surviving, Kept, Retiring, Hits, RangesOk, TokensOk, PendingOk;
      var todo := ranges.Keys;
      while todo != {}
        invariant Valid() && todo <= ranges.Keys
        invariant Retiring(ranges, cache, was, views, todo, start, n, None)
      {
        var s :| s in todo;
        if Overlaps(s, ranges[s].bytes, start, n) {
          RetiringStep(ranges, cache, was, views, todo, start, n, None, s);
          UnbackedRange(pending, ranges, nextToken, s, start, n);
          cache := cache - {s};
          ranges := ranges - {s};
        } else {
          RetiringSkip(ranges, cache, was, views, todo, start, n, None, s);
        }
        todo := todo - {s};
      }
      RetiringDone(ranges, cache, was, views, start, n, None);
    }

    /** A bulk write of the runtime: announced, then stored through a host pointer. */
    method BulkStore(address: u32, bytes: seq<byte>, faults: set<nat>) returns (ok: bool)
      requires Valid()
      modifies this`ram, this`pending, this`ranges, this`cache
      ensures Valid() && Guest() == Eager(old(Guest()), BulkOp(address, bytes, faults), if ok then Done else Threw)
      ensures var op := BulkOp(address, bytes, faults); !ok <==> Refused(op) || Faulty(old(pending), op)
      ensures old(Coherent(Guest(), ranges, cache)) ==> Coherent(Guest(), ranges, cache)
      ensures ok && bytes != [] ==> InBank(address, |bytes|) && Shows(old(Guest()), Guest(), address, bytes)
      ensures bytes == [] ==> Guest() == old(Guest())
    {
      hide Shows, InBank;
      Accepts(address, |bytes|);
      ok := PrepareWrite(address, |bytes|, faults);
      if ok && bytes != [] {
        StoreShows(old(Guest()), address, bytes);
        var start := CheckedRam(address, |bytes|).value;
        PlainStore(ram, pending, start, bytes);
        if Coherent(old(Guest()), old(ranges), old(cache)) {
          WriteKeepsCoherent(old(Guest()), old(ranges), old(cache), start, bytes);
        }
        ram := Stored(ram, start, bytes);
      }
    }

    /** A scalar guest store: resolves what it overlaps, so the untouched bytes of a copy survive. */
    method ScalarStore(address: u32, bytes: seq<byte>, faults: set<nat>) returns (ok: bool)
      requires Valid()
      modifies this`ram, this`pending
      ensures Valid() && Guest() == Eager(old(Guest()), ScalarOp(address, bytes, faults), if ok then Done else Threw)
      ensures var op := ScalarOp(address, bytes, faults); !ok <==> Refused(op) || Faulty(old(pending), op)
      ensures ok ==> CheckedRam(address, |bytes|).Ok?
      ensures ok && old(Coherent(Guest(), ranges, cache))
        ==> (Coherent(Guest(), ranges, cache)
             <==> Harmless(old(Guest()), cache, CheckedRam(address, |bytes|).value, bytes))
      ensures ok ==> InBank(address, |bytes|) && Shows(old(Guest()), Guest(), address, bytes)
    {
      hide CheckedRam, Coherent, Harmless, View, Stored, RangesOk, TokensOk, PendingOk, Shows, InBank;
      Accepts(address, |bytes|);
      var range := CheckedRam(address, |bytes|);
      if range.Err? {
        return false;
      }
      StoreShows(Guest(), address, bytes);
      ok := Resolve(range.value, |bytes|, faults);
      if ok {
        PlainStore(ram, pending, range.value, bytes);
        if Coherent(old(Guest()), ranges, cache) {
          ScalarCoherence(old(Guest()), ranges, cache, range.value, bytes);
        }
        ram := Stored(ram, range.value, bytes);
      }
    }

    /** A guest read. */
    method Read(address: u32, n: nat, faults: set<nat>) returns (out: Outcome)
      requires Valid()
      modifies this`ram, this`pending
      ensures Valid() && Guest() == old(Guest()) && (out.Got? || out.Threw?)
      ensures ReadsRight(Guest(), ReadOp(address, n, faults), out)
      ensures var op := ReadOp(address, n, faults); out.Threw? <==> Refused(op) || Faulty(old(pending), op)
      ensures out.Got? ==> InBank(address, n) && |out.bytes| == n && ReadsFrom(Guest(), address, out.bytes)
    {
      hide ReadsFrom, InBank, View, Stored, RangesOk, TokensOk, PendingOk, CheckedRam;
      Accepts(address, n);
      var range := CheckedRam(address, n);
      if range.Err? {
        return Threw;
      }
      RangeIs(address, n);
      var ok := Resolve(range.value, n, faults);
      if !ok {
        return Threw;
      }
      var bytes := ram[range.value..range.value + n];
      PlainStore(ram, pending, range.value, bytes);
      RangeRead(Guest(), address, n, range.value, bytes);
      return Got(bytes);
    }

    /** `evict_copy_texture`: one view or all of them. */
    method Destroy(key: Option<nat>)
      modifies this`cache
      ensures cache == if key.Some? then old(cache) - {key.value} else map[]
      ensures old(Coherent(Guest(), ranges, cache)) ==> Coherent(Guest(), ranges, cache)
    {
      cache := if key.Some? then cache - {key.value} else map[];
    }

    /** One operation, whatever fails on the way. */
    method Step(op: Op) returns (out: Outcome)
      requires Valid()
      modifies this
      ensures Valid() && Guest() == Eager(old(Guest()), op, out) && ReadsRight(old(Guest()), op, out)
      ensures out.Threw? <==> Refused(op) || Faulty(old(pending), op)
      ensures !op.ScalarOp? && old(Coherent(Guest(), ranges, cache)) ==> Coherent(Guest(), ranges, cache)
    {
      hide View, RangesOk, TokensOk, PendingOk, Surviving, Kept, Coherent, Stored, Harmless;
      match op {
        case PublishOp(address, bytes, faults, registerFails, cacheFails) =>
          var ok := Publish(address, bytes, faults, registerFails, cacheFails);
          if ok && Coherent(old(Guest()), old(ranges), old(cache)) {
            var start := CheckedRam(address, |bytes|).value;
            PublishKeepsCoherent(old(Guest()), old(ranges), old(cache), start, bytes, old(nextToken));
          }
          out := if ok then Done else Threw;
        case BulkOp(address, bytes, faults) =>
          var ok := BulkStore(address, bytes, faults);
          out := if ok then Done else Threw;
        case ScalarOp(address, bytes, faults) =>
          var ok := ScalarStore(address, bytes, faults);
          out := if ok then Done else Threw;
        case ReadOp(address, n, faults) =>
          out := Read(address, n, faults);
        case DestroyOp(key) =>
          Destroy(key);
          out := Done;
      }
    }

    /** Lazy equals eager: over every sequence of operations and failures, the guest sees the memory of the machine that
        stores every copy at once, and every read that returns gets that machine's bytes. */
    method Execute(ops: seq<Op>) returns (outs: seq<Outcome>)
      requires Valid()
      modifies this
      ensures Valid() && |outs| == |ops|
      ensures Guest() == EagerAll(old(Guest()), ops, outs) && AllReadsRight(old(Guest()), ops, outs)
      ensures forall k :: 0 <= k < |ops| ==> ThrowsRight(ops[k], outs[k])
    {
      outs := [];
      hide View, RangesOk, TokensOk, PendingOk, Eager, ReadsRight;
      for k := 0 to |ops|
        invariant Valid() && |outs| == k
        invariant Guest() == EagerAll(old(Guest()), ops[..k], outs) && AllReadsRight(old(Guest()), ops[..k], outs)
        invariant forall j :: 0 <= j < k ==> ThrowsRight(ops[j], outs[j])
      {
        FaultsAreNeeded(pending, ops[k]);
        var out := Step(ops[k]);
        RunStep(old(Guest()), ops[..k], outs, ops[k], out);
        outs := outs + [out];
        assert ops[..k + 1] == ops[..k] + [ops[k]];
      }
      assert ops[..|ops|] == ops;
    }
  }

  /** One byte is published and another stored over it: the GPU view still shows the first. */
  method ScalarLeavesStale(ram: Ram) returns (store: CopyStore)
    ensures store.Valid() && !Coherent(store.Guest(), store.ranges, store.cache)
  {
    hide View, RangesOk, TokensOk, PendingOk, Stored;
    store := new CopyStore(ram);
    var copied := store.Publish(0, [1], {}, false, false);
    assert copied;
    PublishKeepsCoherent(ram, map[], map[], 0, [1], 1);
    assert Coherent(store.Guest(), store.ranges, store.cache);
    assert store.Guest()[0] == 1 && store.cache[0] == [1];
    ghost var seen := store.Guest();
    var stored := store.ScalarStore(0, [2], {});
    assert stored;
    assert !Harmless(seen, store.cache, 0, [2]);
  }
}
