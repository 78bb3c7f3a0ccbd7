/** The layout of guest memory (ps5/runtime/guest_flat_memory_ps5.cpp): regions of the guest address space, the sections
    of memory behind them, and the host pointer of a guest address. */
module GuestFlat {
  import opened Bytes
  import opened GuestAliases

  const GRANULARITY: nat := 65536

  datatype Kind = Owned | Mem1 | Mem2 | Unknown

  datatype Region = Region(base: nat, size: nat, kind: Kind)

  datatype Section = Section(kind: Kind, ownedBase: nat, bytes: nat)

  datatype Mapping = Mapping(section: nat, offset: nat)

  datatype Fault = UnknownKind | BadRegion | PastSpace | Overlap

  function Rounded(bytes: nat): (r: nat)
    ensures r % GRANULARITY == 0 && bytes <= r < bytes + GRANULARITY
  {
    (bytes + GRANULARITY - 1) / GRANULARITY * GRANULARITY
  }

  /** Size of a bank of emulated memory. */
  function Bank(kind: Kind): (size: nat)
    ensures size > 0
  {
    if kind == Mem1 then 0x200_0000 else 0x1000_0000
  }

  function Offset(r: Region): nat {
    if r.kind == Mem1 || r.kind == Mem2 then r.base % Bank(r.kind) else 0
  }

  function End(r: Region): nat {
    r.base + Rounded(r.size)
  }

  predicate Clear(r: Region, other: Region) {
    other.size == 0 || End(other) <= r.base || End(r) <= other.base
  }

  /** What `Validate` finds at a region. */
  function FaultAt(rs: seq<Region>, i: nat): Option<Fault>
    requires i < |rs|
  {
    var r := rs[i];
    if r.size == 0 then None
    else if r.kind == Unknown then Some(UnknownKind)
    else if r.base % GRANULARITY != 0 || r.base + r.size > SPACE then Some(BadRegion)
    else if End(r) > SPACE then Some(PastSpace)
    else if forall j :: 0 <= j < i ==> Clear(r, rs[j]) then None
    else Some(Overlap)
  }

  /** A layout the source accepts. */
  ghost predicate Sound(rs: seq<Region>) {
    forall i :: 0 <= i < |rs| ==> FaultAt(rs, i) == None
  }

  /** `Validate`: the fault thrown is that of the first region that has one. */
  method Validate(rs: seq<Region>) returns (fault: Option<Fault>)
    ensures fault == None <==> Sound(rs)
    ensures fault != None ==> exists i :: 0 <= i < |rs| && FaultAt(rs, i) == fault
                                     && forall j :: 0 <= j < i ==> FaultAt(rs, j) == None
  {
    for i := 0 to |rs|
      invariant forall j :: 0 <= j < i ==> FaultAt(rs, j) == None
    {
      var r := rs[i];
      if r.size != 0 {
        fault := CheckRegion(rs, i);
        if fault != None {
          return;
        }
      }
    }
    return None;
  }

  method CheckRegion(rs: seq<Region>, i: nat) returns (fault: Option<Fault>)
    requires i < |rs| && rs[i].size != 0
    ensures fault == FaultAt(rs, i)
  {
    var r := rs[i];
    if r.kind != Owned && r.kind != Mem1 && r.kind != Mem2 {
      return Some(UnknownKind);
    }
    if r.base % GRANULARITY != 0 || r.base + r.size > SPACE {
      return Some(BadRegion);
    }
    if End(r) > SPACE {
      return Some(PastSpace);
    }
    for j := 0 to i
      invariant forall k :: 0 <= k < j ==> Clear(r, rs[k])
    {
      var other := rs[j];
      if other.size != 0 && r.base < End(other) && other.base < End(r) {
        assert !Clear(r, other);
        return Some(Overlap);
      }
    }
    return None;
  }

  /** The third check can never fail: an aligned region inside the space is inside it after rounding too. */
  lemma RoundingStaysInside(rs: seq<Region>, i: nat)
    requires i < |rs|
    ensures FaultAt(rs, i) != Some(PastSpace)
  {
    var r := rs[i];
    if r.base % GRANULARITY == 0 && r.base + r.size <= SPACE {
      var q := r.base / GRANULARITY;
      assert r.base == q * GRANULARITY;
      assert (r.size + GRANULARITY - 1) / GRANULARITY <= SPACE / GRANULARITY - q;
    }
  }

  lemma SoundAt(rs: seq<Region>, i: nat)
    requires Sound(rs) && i < |rs| && rs[i].size > 0
    ensures rs[i].kind != Unknown && rs[i].base % GRANULARITY == 0 && End(rs[i]) <= SPACE
  {
    assert FaultAt(rs, i) == None;
  }

  lemma SoundApart(rs: seq<Region>, i: nat, j: nat)
    requires Sound(rs) && i < |rs| && j < |rs| && i != j && rs[i].size > 0 && rs[j].size > 0
    ensures End(rs[i]) <= rs[j].base || End(rs[j]) <= rs[i].base
  {
    assert FaultAt(rs, i) == None && FaultAt(rs, j) == None;
    assert if i < j then Clear(rs[j], rs[i]) else Clear(rs[i], rs[j]);
  }

  /** A section serves a region: memory banks are shared by kind, owned memory by base. */
  /** The region has bytes in the 64 KiB granule `p`. */
  predicate Covers(r: Region, p: nat) {
    r.size > 0 && r.base < (p + 1) * 65536 && p * 65536 < r.base + r.size
  }

  /** A region a list may hold wherever it stands. */
  predicate Regular(r: Region) {
    r.size > 0 ==> r.kind != Unknown && r.base % 65536 == 0 && r.base + r.size <= 0x1_0000_0000
  }

  lemma ClearGranules(r: Region, other: Region)
    requires r.size > 0 && other.size > 0 && r.base % 65536 == 0 && other.base % 65536 == 0
    ensures Clear(r, other) <==> forall p: nat :: !(Covers(r, p) && Covers(other, p))
  {
    var first := if r.base >= other.base then r.base / 65536 else other.base / 65536;
    assert first * 65536 == if r.base >= other.base then r.base else other.base;
    EndCovers(r, first);
    EndCovers(other, first);
    if Clear(r, other) {
      forall p: nat
        ensures !(Covers(r, p) && Covers(other, p))
      {
        EndCovers(r, p);
        EndCovers(other, p);
      }
    } else {
      assert Covers(r, first) && Covers(other, first);
    }
  }

  /** Rounding up the size keeps the granules. */
  lemma EndCovers(r: Region, p: nat)
    requires r.size > 0 && r.base % 65536 == 0
    ensures Covers(r, p) <==> r.base <= p * 65536 < End(r)
  {
  }

  /** A list of regions is accepted if and only if every region that is not empty is of a known kind, begins with a
      granule, lies in the 4 GiB address space, and shares no granule with another. */
  lemma SoundIs(rs: seq<Region>)
    ensures Sound(rs) <==>
              && (forall i :: 0 <= i < |rs| ==> Regular(rs[i]))
              && forall i, j, p: nat :: 0 <= i < j < |rs| ==> !(Covers(rs[i], p) && Covers(rs[j], p))
  {
    hide Clear, Covers;
    if Sound(rs) {
      forall i, j, p: nat | 0 <= i < j < |rs|
        ensures !(Covers(rs[i], p) && Covers(rs[j], p))
      {
        SoundPair(rs, i, j, p);
      }
      forall i | 0 <= i < |rs|
        ensures Regular(rs[i])
      {
        assert FaultAt(rs, i) == None;
      }
    } else if (forall i :: 0 <= i < |rs| ==> Regular(rs[i]))
      && (forall i, j, p: nat :: 0 <= i < j < |rs| ==> !(Covers(rs[i], p) && Covers(rs[j], p))) {
      forall i | 0 <= i < |rs|
        ensures FaultAt(rs, i) == None
      {
        NoFault(rs, i);
      }
    }
  }

  lemma SoundPair(rs: seq<Region>, i: nat, j: nat, p: nat)
    requires Sound(rs) && i < j < |rs|
    ensures !(Covers(rs[i], p) && Covers(rs[j], p))
  {
    assert FaultAt(rs, i) == None && FaultAt(rs, j) == None;
    if rs[i].size > 0 && rs[j].size > 0 {
      assert Clear(rs[j], rs[i]);
      ClearGranules(rs[j], rs[i]);
    }
    hide Clear;
  }

  lemma NoFault(rs: seq<Region>, i: nat)
    requires i < |rs| && forall k :: 0 <= k < |rs| ==> Regular(rs[k])
    requires forall k, p: nat :: 0 <= k < i ==> !(Covers(rs[k], p) && Covers(rs[i], p))
    ensures FaultAt(rs, i) == None
  {
    var r := rs[i];
    if r.size > 0 {
      RoundedInside(r);
      forall k | 0 <= k < i
        ensures Clear(r, rs[k])
      {
        if rs[k].size > 0 {
          assert Regular(rs[k]);
          ClearGranules(r, rs[k]);
        }
      }
    }
    hide Clear, Covers;
  }

  lemma RoundedInside(r: Region)
    requires r.base % 65536 == 0 && r.base + r.size <= 0x1_0000_0000
    ensures End(r) <= 0x1_0000_0000
  {
  }

  predicate Serves(s: Section, r: Region) {
    s.kind == r.kind && (r.kind != Owned || s.ownedBase == r.base)
  }

  predicate SameUse(a: Section, b: Section) {
    a.kind == b.kind && (a.kind != Owned || a.ownedBase == b.ownedBase)
  }

  /** Every region's mapping is inside a section that serves it. */
  ghost predicate Placed(rs: seq<Region>, sections: seq<Section>, mappings: seq<Mapping>, n: nat) {
    n <= |rs| && n <= |mappings|
    && forall i :: 0 <= i < n && rs[i].size > 0 ==>
         && mappings[i].section < |sections| && mappings[i].offset == Offset(rs[i])
         && Serves(sections[mappings[i].section], rs[i])
         && mappings[i].offset + Rounded(rs[i].size) <= sections[mappings[i].section].bytes
  }

  ghost predicate Distinct(sections: seq<Section>) {
    forall i, j :: 0 <= i < j < |sections| ==> !SameUse(sections[i], sections[j])
  }

  /** No section is longer than some region makes it. */
  ghost predicate Tight(rs: seq<Region>, sections: seq<Section>, n: nat) {
    n <= |rs| && forall s :: 0 <= s < |sections| ==> Filled(rs, sections[s], n)
  }

  ghost predicate Filled(rs: seq<Region>, s: Section, n: nat)
    requires n <= |rs|
  {
    exists i :: 0 <= i < n && rs[i].size > 0 && Serves(s, rs[i]) && s.bytes == Offset(rs[i]) + Rounded(rs[i].size)
  }

  /** The section search of `Initialize`. */
  method FindSection(sections: seq<Section>, r: Region) returns (index: nat)
    ensures index <= |sections| && (index < |sections| ==> Serves(sections[index], r))
    ensures forall s :: 0 <= s < index ==> !Serves(sections[s], r)
  {
    index := 0;
    while index < |sections|
      invariant index <= |sections|
      invariant forall s :: 0 <= s < index ==> !Serves(sections[s], r)
    {
      if Serves(sections[index], r) {
        return;
      }
      index := index + 1;
    }
  }

  /** The planning loop of `Initialize`. */
  method Plan(rs: seq<Region>) returns (sections: seq<Section>, mappings: seq<Mapping>)
    requires Sound(rs)
    ensures Planned(rs, sections, mappings)
  {
    sections, mappings := [], [];
    for i := 0 to |rs|
      invariant |mappings| == i && Placed(rs, sections, mappings, i) && Distinct(sections) && Tight(rs, sections, i)
    {
      if rs[i].size == 0 {
        mappings := mappings + [Mapping(0, 0)];
        PlanSkips(rs, sections, i);
      } else {
        sections, mappings := PlanRegion(rs, sections, mappings);
      }
    }
  }

  lemma PlanSkips(rs: seq<Region>, sections: seq<Section>, n: nat)
    requires n < |rs| && Tight(rs, sections, n)
    ensures Tight(rs, sections, n + 1)
  {
    hide Serves;
    forall s | 0 <= s < |sections|
      ensures Filled(rs, sections[s], n + 1)
    {
      assert Filled(rs, sections[s], n);
    }
  }

  /** One region of the planning loop: it reuses a section that serves it, which may grow, or takes a new one. */
  method PlanRegion(rs: seq<Region>, sections: seq<Section>, mappings: seq<Mapping>) returns (grown: seq<Section>,
      more: seq<Mapping>)
    requires |mappings| < |rs| && rs[|mappings|].size > 0
    requires Placed(rs, sections, mappings, |mappings|) && Distinct(sections) && Tight(rs, sections, |mappings|)
    ensures |more| == |mappings| + 1 && Placed(rs, grown, more, |more|) && Distinct(grown) && Tight(rs, grown, |more|)
  {
    hide Placed, Distinct, Tight, Rounded, Offset;
    var i := |mappings|;
    var r := rs[i];
    var index := FindSection(sections, r);
    grown := sections;
    if index == |sections| {
      grown := grown + [Section(r.kind, r.base, 0)];
    }
    more := mappings + [Mapping(index, Offset(r))];
    var end := Offset(r) + Rounded(r.size);
    if end > grown[index].bytes {
      grown := grown[index := grown[index].(bytes := end)];
    }
    assert forall s :: 0 <= s < |sections| ==> SameUse(grown[s], sections[s]) && sections[s].bytes <= grown[s].bytes;
    PlanPlaced(rs, sections, grown, mappings, index);
    PlanDistinct(sections, grown, index, r);
    PlanTight(rs, sections, grown, index, i);
  }

  lemma PlanPlaced(rs: seq<Region>, sections: seq<Section>, grown: seq<Section>, mappings: seq<Mapping>, index: nat)
    requires |mappings| < |rs| && Placed(rs, sections, mappings, |mappings|) && |sections| <= |grown| && index < |grown|
    requires forall s :: 0 <= s < |sections| ==> SameUse(grown[s], sections[s]) && sections[s].bytes <= grown[s].bytes
    requires Serves(grown[index], rs[|mappings|])
    requires Offset(rs[|mappings|]) + Rounded(rs[|mappings|].size) <= grown[index].bytes
    ensures Placed(rs, grown, mappings + [Mapping(index, Offset(rs[|mappings|]))], |mappings| + 1)
  {
    hide Rounded, Offset;
  }

  lemma PlanDistinct(sections: seq<Section>, grown: seq<Section>, index: nat, r: Region)
    requires Distinct(sections) && |sections| <= |grown| <= |sections| + 1
    requires forall s :: 0 <= s < |sections| ==> SameUse(grown[s], sections[s])
    requires |grown| > |sections| ==>
               Serves(grown[|sections|], r) && grown[|sections|].ownedBase == r.base
                   && forall s :: 0 <= s < |sections| ==> !Serves(sections[s], r)
    ensures Distinct(grown)
  {
    forall s, t | 0 <= s < t < |grown|
      ensures !SameUse(grown[s], grown[t])
    {
      assert SameUse(grown[s], sections[s]);
      if t < |sections| {
        assert SameUse(grown[t], sections[t]);
        assert !SameUse(sections[s], sections[t]);
      } else {
        assert !Serves(sections[s], r);
      }
    }
  }

  lemma PlanTight(rs: seq<Region>, sections: seq<Section>, grown: seq<Section>, index: nat, i: nat)
    requires i < |rs| && rs[i].size > 0 && Tight(rs, sections, i) && index < |grown| && |sections| <= |grown|
    requires forall s :: 0 <= s < |grown| && s != index ==> s < |sections| && grown[s] == sections[s]
    requires Serves(grown[index], rs[i])
    requires (index < |sections| && grown[index] == sections[index])
             || grown[index].bytes == Offset(rs[i]) + Rounded(rs[i].size)
    ensures Tight(rs, grown, i + 1)
  {
    hide Serves, Rounded, Offset;
    forall s | 0 <= s < |grown|
      ensures Filled(rs, grown[s], i + 1)
    {
      if s < |sections| && grown[s] == sections[s] {
        assert Filled(rs, sections[s], i);
      }
    }
  }

  /** What the planning loop makes of a sound list. */
  ghost predicate Planned(rs: seq<Region>, sections: seq<Section>, mappings: seq<Mapping>) {
    Sound(rs) && |mappings| == |rs| && Placed(rs, sections, mappings, |rs|) && Distinct(sections)
        && Tight(rs, sections, |rs|)
  }

  predicate Contains(r: Region, address: nat) {
    r.base <= address < r.base + r.size
  }

  /** A layout in use; `hosts` are the addresses of the sections' memory. */
  datatype Layout = Layout(regions: seq<Region>, sections: seq<Section>, mappings: seq<Mapping>, hosts: seq<nat>) {

    /** Planned from a sound list, each section in memory of its own. */
    ghost predicate Valid() {
      && Planned(regions, sections, mappings)
      && |hosts| == |sections|
      && (forall s :: 0 <= s < |hosts| ==> hosts[s] > 0)
      && forall s, t :: 0 <= s < |hosts| && 0 <= t < |hosts| && s != t ==>
           hosts[s] + Rounded(sections[s].bytes) <= hosts[t] || hosts[t] + Rounded(sections[t].bytes) <= hosts[s]
    }

    /** Where a region's mapping puts an address. */
    function Place(i: nat, address: nat): nat
      requires i < |regions| && |mappings| == |regions| && mappings[i].section < |hosts| && address >= regions[i].base
    {
      hosts[mappings[i].section] + mappings[i].offset + (address - regions[i].base)
    }

    /** `HostPointer`. */
    method HostPointer(address: nat) returns (host: Option<nat>)
      requires Valid()
      ensures host == None <==> forall i :: 0 <= i < |regions| ==> !Contains(regions[i], address)
      ensures forall i :: 0 <= i < |regions| && Contains(regions[i], address) ==> host == Some(Place(i, address))
    {
      hide Sound, Distinct, Tight;
      for i := 0 to |regions|
        invariant forall j :: 0 <= j < i ==> !Contains(regions[j], address)
      {
        var region := regions[i];
        if address < region.base || address - region.base >= region.size {
          continue;
        }
        forall j | 0 <= j < |regions| && Contains(regions[j], address)
          ensures j == i
        {
          OneRegion(regions, i, j, address);
        }
        return Some(Place(i, address));
      }
      return None;
    }
  }

  lemma OneRegion(rs: seq<Region>, i: nat, j: nat, address: nat)
    requires Sound(rs) && i < |rs| && j < |rs| && Contains(rs[i], address) && Contains(rs[j], address)
    ensures i == j
  {
    if i != j {
      SoundApart(rs, i, j);
    }
  }

  /** A host pointer stays inside the memory of its own section. */
  lemma PointerInside(l: Layout, i: nat, address: nat)
    requires l.Valid() && i < |l.regions| && Contains(l.regions[i], address)
    ensures l.mappings[i].section < |l.sections|
    ensures l.hosts[l.mappings[i].section] <= l.Place(i, address)
            < l.hosts[l.mappings[i].section] + Rounded(l.sections[l.mappings[i].section].bytes)
  {
    hide Sound, Distinct, Tight;
  }

  /** How far into its memory bank an address lies. */
  function BankOffset(r: Region, address: nat): nat
    requires address >= r.base
  {
    Offset(r) + (address - r.base)
  }

  /** Two guest addresses share a byte exactly if they are the same owned address, or lie equally far into windows onto
      the same bank: nothing else aliases. */
  lemma SameByte(l: Layout, i: nat, a: nat, j: nat, b: nat)
    requires l.Valid() && i < |l.regions| && j < |l.regions| && Contains(l.regions[i], a) && Contains(l.regions[j], b)
    ensures l.mappings[i].section < |l.sections| && l.mappings[j].section < |l.sections|
    ensures l.Place(i, a) == l.Place(j, b)
            <==> l.regions[i].kind == l.regions[j].kind
                 && (if l.regions[i].kind == Owned then a == b
                     else BankOffset(l.regions[i], a) == BankOffset(l.regions[j], b))
  {
    hide Sound, Tight, Rounded, Offset;
    PointerInside(l, i, a);
    PointerInside(l, j, b);
    var p, q := l.regions[i], l.regions[j];
    if l.mappings[i].section == l.mappings[j].section {
      if p.kind == Owned {
        assert p.base == q.base;
        OwnedOnce(l.regions, i, j);
      }
    } else if p.kind == q.kind {
      assert !SameUse(l.sections[l.mappings[i].section], l.sections[l.mappings[j].section]);
      if a == b && p.kind == Owned {
        OneRegion(l.regions, i, j, a);
      }
    }
  }

  /** Regions with the same base are the same region. */
  lemma OwnedOnce(rs: seq<Region>, i: nat, j: nat)
    requires Sound(rs) && i < |rs| && j < |rs| && rs[i].size > 0 && rs[j].size > 0 && rs[i].base == rs[j].base
    ensures i == j
  {
    if i != j {
      SoundApart(rs, i, j);
    }
  }

  /** The distance into the bank is the address itself modulo the bank exactly while the window has not run past the
      bank's end. */
  lemma BankOfAddress(r: Region, address: nat)
    requires (r.kind == Mem1 || r.kind == Mem2) && address >= r.base
    ensures BankOffset(r, address) == address % Bank(r.kind) <==> BankOffset(r, address) < Bank(r.kind)
  {
    var d := address - r.base;
    if r.kind == Mem1 {
      Remainder1(r.base, d);
    } else {
      Remainder2(r.base, d);
    }
  }

  /** A window of the console's memory map: 24 MiB of the first bank or 64 MiB of the second, each at three addresses.
      */
  predicate ConsoleWindow(r: Region) {
    || (r.kind == Mem1 && r.base in {0, 0x8000_0000, 0xC000_0000} && r.size <= 0x180_0000)
    || (r.kind == Mem2 && r.base in {0x1000_0000, 0x9000_0000, 0xD000_0000} && r.size <= 0x400_0000)
  }

  /** These windows never run past their bank, so two addresses in them share a byte exactly if they agree modulo the
      bank. */
  lemma ConsoleBytes(l: Layout, i: nat, a: nat, j: nat, b: nat)
    requires l.Valid() && i < |l.regions| && j < |l.regions| && Contains(l.regions[i], a) && Contains(l.regions[j], b)
    requires ConsoleWindow(l.regions[i]) && ConsoleWindow(l.regions[j])
    ensures l.mappings[i].section < |l.sections| && l.mappings[j].section < |l.sections|
    ensures l.Place(i, a) == l.Place(j, b)
            <==> l.regions[i].kind == l.regions[j].kind
                 && (l.regions[i].kind == Mem1 ==> a % 0x200_0000 == b % 0x200_0000)
                 && (l.regions[i].kind == Mem2 ==> a % 0x1000_0000 == b % 0x1000_0000)
  {
    hide Sound, Tight, Rounded, Planned;
    SameByte(l, i, a, j, b);
    BankOfAddress(l.regions[i], a);
    BankOfAddress(l.regions[j], b);
    WindowInBank(l.regions[i], a);
    WindowInBank(l.regions[j], b);
  }

  lemma WindowInBank(r: Region, address: nat)
    requires ConsoleWindow(r) && Contains(r, address)
    ensures BankOffset(r, address) < Bank(r.kind)
  {
  }

  lemma Remainder1(base: nat, d: nat)
    ensures base % 0x200_0000 + d == (base + d) % 0x200_0000 <==> base % 0x200_0000 + d < 0x200_0000
  {
    var n := base % 0x200_0000 + d;
    assert base + d == 0x200_0000 * (base / 0x200_0000) + n;
  }

  lemma Remainder2(base: nat, d: nat)
    ensures base % 0x1000_0000 + d == (base + d) % 0x1000_0000 <==> base % 0x1000_0000 + d < 0x1000_0000
  {
    var n := base % 0x1000_0000 + d;
    assert base + d == 0x1000_0000 * (base / 0x1000_0000) + n;
  }

  /** The alias arena never refuses a planned region: with the regions before it mapped, every check of `MapAlias`
      passes. */
  lemma RegionFits(arena: Arena, backing: Backing, rs: seq<Region>, sections: seq<Section>, mappings: seq<Mapping>,
                   i: nat)
    requires Planned(rs, sections, mappings) && i < |rs| && rs[i].size > 0
    requires arena.base > 0 && arena.size == SPACE
    requires mappings[i].section < |sections| && backing.host > 0 && backing.size >= sections[mappings[i].section].bytes
    requires forall k :: 0 <= k < |arena.views| ==> Shows(arena.views[k], arena.base, rs, i)
    ensures arena.Fits(rs[i].base, backing, mappings[i].offset, Rounded(rs[i].size))
  {
    hide Sound, Distinct, Tight;
    SoundAt(rs, i);
    OffsetAligned(rs[i]);
    assert mappings[i].offset == Offset(rs[i]);
    RoundedAligned(rs[i].size);
    forall k | 0 <= k < |arena.views|
      ensures arena.base + End(rs[i]) <= arena.views[k].address
              || arena.views[k].address + arena.views[k].size <= arena.base + rs[i].base
    {
      var v := arena.views[k];
      var j :| 0 <= j < i && rs[j].size > 0 && v.address == arena.base + rs[j].base && v.size == Rounded(rs[j].size);
      SoundApart(rs, i, j);
    }
  }

  /** The view is where one of the first regions is. */
  ghost predicate Shows(v: View, base: nat, rs: seq<Region>, n: nat)
    requires n <= |rs|
  {
    exists j :: 0 <= j < n && rs[j].size > 0 && v.address == base + rs[j].base && v.size == Rounded(rs[j].size)
  }

  lemma OffsetAligned(r: Region)
    requires r.base % GRANULARITY == 0
    ensures Aligned(r.base) && Aligned(Offset(r))
  {
    var k := r.base / GRANULARITY;
    assert r.base == PAGE * (4 * k);
    if r.kind == Mem1 {
      assert Offset(r) == PAGE * (4 * k - 2048 * (r.base / 0x200_0000));
    } else if r.kind == Mem2 {
      assert Offset(r) == PAGE * (4 * k - 16384 * (r.base / 0x1000_0000));
    }
  }

  lemma RoundedAligned(bytes: nat)
    ensures Aligned(Rounded(bytes))
  {
  }
}
