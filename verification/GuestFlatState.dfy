/** `Initialize` of ps5/runtime/guest_flat_memory_ps5.cpp as a transaction over the native objects: either every region
    is mapped, or nothing is left of the attempt. */
module GuestFlatState {
  import opened Bytes
  import opened GuestAliases
  import opened GuestFlat

  /** What the kernel answers while the layout is built. Undoing a step succeeds: otherwise the source ends the process.
      */
  datatype Kernel = Kernel(reserve: int, address: nat, grants: seq<Grant>, maps: seq<int>) {
    ghost predicate Valid(sections: nat, regions: nat) {
      && |grants| == sections && |maps| == regions
      && forall s :: 0 <= s < sections ==> grants[s].at >= 0 && grants[s].host > 0 && grants[s].release == OK
    }

    /** The kernel puts the sections' memory at addresses that do not overlap. */
    ghost predicate Apart(sections: seq<Section>) {
      && |grants| == |sections|
      && forall s, t :: 0 <= s < |grants| && 0 <= t < |grants| && s != t ==>
           grants[s].host + Pages(Rounded(sections[s].bytes)) <= grants[t].host
           || grants[t].host + Pages(Rounded(sections[t].bytes)) <= grants[s].host
    }
  }

  /** The native objects of a layout. */
  class State {
    const arena: Arena
    const memory: seq<Backing>
    const handles: seq<Alias>

    constructor (arena: Arena, memory: seq<Backing>, handles: seq<Alias>)
      ensures this.arena == arena && this.memory == memory && this.handles == handles
    {
      this.arena, this.memory, this.handles := arena, memory, handles;
    }

    ghost predicate Separate() {
      && (forall s, t :: 0 <= s < t < |memory| ==> memory[s] != memory[t])
      && (forall i, j :: 0 <= i < j < |handles| ==> handles[i] != handles[j])
    }

    /** Every view is of a handle and of memory of this state; whatever is not in the list is unused. */
    ghost predicate Valid()
      reads this, arena, arena.handles, arena.backings`aliases, memory`aliases, handles
    {
      && Separate()
      && arena.Valid()
      && arena.backings <= (set b | b in memory) && arena.handles <= (set h | h in handles)
      && (forall s :: 0 <= s < |memory| && memory[s] !in arena.backings ==> memory[s].aliases == 0)
      && (forall h :: h in handles && h.address != 0 ==> IsView(arena.views, h))
      && (arena.base == 0 ==> arena.views == [])
    }

    /** Nothing is reserved, allocated or mapped. */
    ghost predicate Released()
      reads arena, memory, handles
    {
      && arena.base == 0 && arena.views == []
      && (forall s :: 0 <= s < |memory| ==> memory[s].host == 0 && memory[s].physical < 0)
      && (forall i :: 0 <= i < |handles| ==> handles[i].address == 0)
    }

    /** The unmapping loop of the destructor, from the last mapping to the first. */
    method UnmapAll()
      requires Valid()
      modifies arena, handles, memory`aliases
      ensures Valid() && arena.views == [] && forall i :: 0 <= i < |handles| ==> handles[i].address == 0
      ensures arena.base == old(arena.base) && arena.size == old(arena.size)
    {
      hide Arena.Linked, ViewsOk, Arena.Counted;
      var i: nat := |handles|;
      while i > 0
        invariant i <= |handles| && Valid()
        invariant forall j :: i <= j < |handles| ==> handles[j].address == 0
        invariant arena.base == old(arena.base) && arena.size == old(arena.size)
      {
        i := i - 1;
        UnmapOne(i);
      }
      AllGone();
    }

    method UnmapOne(i: nat)
      requires Valid() && i < |handles|
      modifies arena, handles, memory`aliases
      ensures Valid() && handles[i].address == 0
      ensures forall j :: 0 <= j < |handles| && j != i ==> handles[j].address == old(handles[j].address)
      ensures arena.base == old(arena.base) && arena.size == old(arena.size)
    {
      hide Arena.Linked, ViewsOk, Arena.Counted;
      var h := handles[i];
      ghost var at: nat := 0;
      if h.address != 0 {
        at :| at < |arena.views| && arena.views[at].handle == h;
      }
      ghost var was := arena.views;
      var rc := arena.Unmap(h, at, OK);
      forall g | g in handles && g.address != 0
        ensures IsView(arena.views, g)
      {
        StillThere(was, arena.views, at, g);
      }
    }

    lemma AllGone()
      requires Valid() && forall i :: 0 <= i < |handles| ==> handles[i].address == 0
      ensures arena.views == []
    {
      hide Arena.Linked, ViewsOk, Arena.Counted;
      if arena.views != [] {
        arena.HandleLives(0);
      }
    }

    /** Without views, no memory counts any. */
    lemma Unused(s: nat)
      requires Valid() && s < |memory| && arena.views == []
      ensures memory[s].aliases == 0
    {
    }

    /** A handle for every region, and memory for every mapping. */
    ghost predicate Fitting(rs: seq<Region>, mappings: seq<Mapping>) {
      |rs| == |mappings| == |handles| && forall i :: 0 <= i < |rs| && rs[i].size > 0 ==> mappings[i].section < |memory|
    }

    /** The handle belongs to the memory planned for a region, mapped where the region is. */
    ghost function ViewOf(base: nat, rs: seq<Region>, mappings: seq<Mapping>, i: nat): View
      requires i < |rs| && |rs| == |mappings| == |handles| && mappings[i].section < |memory|
    {
      View(handles[i], base + rs[i].base, Rounded(rs[i].size), memory[mappings[i].section], mappings[i].offset)
    }

    ghost predicate IsOf(v: View, base: nat, rs: seq<Region>, mappings: seq<Mapping>, n: nat)
      requires n <= |rs| && Fitting(rs, mappings)
    {
      exists i :: 0 <= i < n && rs[i].size > 0 && v == ViewOf(base, rs, mappings, i)
    }

    /** The views are those of the first regions. */
    ghost predicate Mapped(rs: seq<Region>, mappings: seq<Mapping>, n: nat)
      requires n <= |rs| && Fitting(rs, mappings)
      reads arena
    {
      && (forall k :: 0 <= k < |arena.views| ==> IsOf(arena.views[k], arena.base, rs, mappings, n))
      && (forall i :: 0 <= i < n && rs[i].size > 0 ==> ViewOf(arena.base, rs, mappings, i) in arena.views)
    }

    /** The backing loop of `Initialize`. */
    method OpenAll(sections: seq<Section>, grants: seq<Grant>) returns (ok: bool)
      requires Valid() && arena.views == [] && |memory| == |sections| == |grants|
      requires forall s :: 0 <= s < |memory| ==> memory[s].physical < 0 && memory[s].host == 0
      requires forall s :: 0 <= s < |grants| ==> grants[s].at >= 0 && grants[s].host > 0 && grants[s].release == OK
      modifies memory`physical, memory`host, memory`size
      ensures Valid()
      ensures ok ==> forall s :: 0 <= s < |memory| ==>
          memory[s].host > 0 && memory[s].size == Pages(Rounded(sections[s].bytes))
      ensures ok ==> forall s :: 0 <= s < |memory| ==> memory[s].host == grants[s].host
      ensures ok <==> forall s :: 0 <= s < |memory| ==> Granted(sections[s], grants[s])
    {
      hide Arena.Linked, ViewsOk, Arena.Counted;
      var s: nat := 0;
      while s < |memory|
        invariant s <= |memory| && Valid() && arena.views == []
        invariant forall t :: s <= t < |memory| ==> memory[t].physical < 0 && memory[t].host == 0
        invariant forall t :: 0 <= t < s ==> Granted(sections[t], grants[t])
                                              && memory[t].host == grants[t].host
                                                 && memory[t].size == Pages(Rounded(sections[t].bytes))
      {
        Unused(s);
        var rc := memory[s].Open(Rounded(sections[s].bytes), grants[s]);
        if rc != OK {
          return false;
        }
        s := s + 1;
      }
      return true;
    }

    /** The closing loop of the destructor. */
    method CloseAll()
      requires Valid() && arena.views == []
      modifies memory`physical, memory`host, memory`size
      ensures Valid() && forall t :: 0 <= t < |memory| ==> memory[t].host == 0 && memory[t].physical < 0
    {
      hide Arena.Linked, ViewsOk, Arena.Counted;
      var s: nat := |memory|;
      while s > 0
        invariant s <= |memory| && Valid() && arena.views == []
        invariant forall t :: s <= t < |memory| ==> memory[t].host == 0 && memory[t].physical < 0
      {
        s := s - 1;
        Unused(s);
        var rc := memory[s].Close(OK, OK);
      }
    }

    /** The destructor: it never has to end the process. */
    method Destroy()
      requires Valid()
      modifies arena, handles, memory`aliases, memory`physical, memory`host, memory`size
      ensures Valid() && Released()
    {
      hide Arena.Linked, ViewsOk, Arena.Counted;
      UnmapAll();
      CloseAll();
      var rc := arena.Close(OK);
    }

    /** Everything the mapping loop leaves alone. */
    ghost predicate Ready(rs: seq<Region>, sections: seq<Section>, mappings: seq<Mapping>)
      reads arena`base, arena`size, memory`host, memory`size
    {
      && Planned(rs, sections, mappings) && |handles| == |rs| && |memory| == |sections|
      && arena.base > 0 && arena.size == SPACE
      && forall s :: 0 <= s < |memory| ==> memory[s].host > 0 && memory[s].size >= sections[s].bytes
    }

    /** The layout as `HostPointer` uses it. */
    ghost function LayoutOf(rs: seq<Region>, sections: seq<Section>, mappings: seq<Mapping>): Layout
      reads memory
    {
      Layout(rs, sections, mappings, seq(|memory|, s requires 0 <= s < |memory| reads memory => memory[s].host))
    }

    /** Once built, the layout is one in use. */
    lemma BuiltLayout(rs: seq<Region>, sections: seq<Section>, mappings: seq<Mapping>, kernel: Kernel)
      requires Ready(rs, sections, mappings) && kernel.Apart(sections)
      requires forall s :: 0 <= s < |memory| ==> memory[s].host == kernel.grants[s].host
      ensures LayoutOf(rs, sections, mappings).Valid()
    {
      hide Planned, Rounded;
      forall s | 0 <= s < |sections|
        ensures Rounded(sections[s].bytes) <= Pages(Rounded(sections[s].bytes))
      {
        WholePages(Rounded(sections[s].bytes));
      }
    }

    /** The guest's view of a region and the host pointer of an address in it are the same byte of memory. */
    lemma SeesHost(rs: seq<Region>, sections: seq<Section>, mappings: seq<Mapping>, i: nat, address: nat)
      requires Ready(rs, sections, mappings) && Fitting(rs, mappings) && Mapped(rs, mappings, |rs|)
      requires i < |rs| && Contains(rs[i], address)
      ensures var v := ViewOf(arena.base, rs, mappings, i);
              && v in arena.views && v.address <= arena.base + address < v.address + v.size
              && v.backing.host + v.offset + (arena.base + address - v.address)
                  == LayoutOf(rs, sections, mappings).Place(i, address)
    {
      hide Planned;
    }

    lemma ReadyAt(rs: seq<Region>, sections: seq<Section>, mappings: seq<Mapping>)
      requires Ready(rs, sections, mappings)
      ensures Fitting(rs, mappings)
    {
      hide Sound, Distinct, Tight;
    }

    lemma MayMap(rs: seq<Region>, sections: seq<Section>, mappings: seq<Mapping>, i: nat)
      requires Ready(rs, sections, mappings) && i < |rs| && rs[i].size > 0 && Fitting(rs, mappings)
      requires Mapped(rs, mappings, i)
      ensures arena.Fits(rs[i].base, memory[mappings[i].section], mappings[i].offset, Rounded(rs[i].size))
    {
      hide Sound, Distinct, Tight, Placed, Rounded, Arena.Fits;
      forall k | 0 <= k < |arena.views|
        ensures Shows(arena.views[k], arena.base, rs, i)
      {
        assert IsOf(arena.views[k], arena.base, rs, mappings, i);
        var j :| 0 <= j < i && rs[j].size > 0 && arena.views[k] == ViewOf(arena.base, rs, mappings, j);
      }
      RegionFits(arena, memory[mappings[i].section], rs, sections, mappings, i);
    }

    /** One region of the mapping loop: the kernel's answer is the only thing that can stop it. */
    method MapOne(rs: seq<Region>, sections: seq<Section>, mappings: seq<Mapping>, i: nat,
                  answer: int) returns (rc: int)
      requires Valid() && Ready(rs, sections, mappings) && i < |rs| && rs[i].size > 0
      requires Fitting(rs, mappings) && Mapped(rs, mappings, i) && handles[i].address == 0
      modifies arena`aliases, arena`views, arena`handles, arena`backings, handles[i], memory`aliases
      ensures Valid()
      ensures rc == OK <==> answer == OK
      ensures rc == OK ==> Mapped(rs, mappings, i + 1)
    {
      hide Arena.Linked, ViewsOk, Arena.Counted, Arena.Fits, Planned, Rounded, Mapped;
      MayMap(rs, sections, mappings, i);
      var b := memory[mappings[i].section];
      ghost var was := arena.views;
      MappedViews(rs, mappings, i);
      rc := arena.Map(handles[i], rs[i].base, b, mappings[i].offset, Rounded(rs[i].size), answer);
      if rc == OK {
        assert arena.views == [ViewOf(arena.base, rs, mappings, i)] + was;
        Joined(was, arena.views);
        MappedMore(rs, mappings, i, was);
      }
    }

    lemma MappedViews(rs: seq<Region>, mappings: seq<Mapping>, n: nat)
      requires n <= |rs| && Fitting(rs, mappings) && Mapped(rs, mappings, n)
      ensures forall k :: 0 <= k < |arena.views| ==> IsOf(arena.views[k], arena.base, rs, mappings, n)
      ensures forall j :: 0 <= j < n && rs[j].size > 0 ==> ViewOf(arena.base, rs, mappings, j) in arena.views
    {
    }

    /** The views before, and one more. */
    lemma MappedMore(rs: seq<Region>, mappings: seq<Mapping>, i: nat, was: seq<View>)
      requires i < |rs| && Fitting(rs, mappings) && rs[i].size > 0
      requires forall k :: 0 <= k < |was| ==> IsOf(was[k], arena.base, rs, mappings, i)
      requires forall j :: 0 <= j < i && rs[j].size > 0 ==> ViewOf(arena.base, rs, mappings, j) in was
      requires arena.views == [ViewOf(arena.base, rs, mappings, i)] + was
      ensures Mapped(rs, mappings, i + 1)
    {
      hide ViewOf;
      forall k | 0 <= k < |arena.views|
        ensures IsOf(arena.views[k], arena.base, rs, mappings, i + 1)
      {
        if k > 0 {
          assert arena.views[k] == was[k - 1];
          OneMore(was[k - 1], arena.base, rs, mappings, i);
        }
      }
    }

    /** The mapping loop of `Initialize`. */
    method MapAll(rs: seq<Region>, sections: seq<Section>, mappings: seq<Mapping>, answers: seq<int>) returns (ok: bool)
      requires Valid() && Ready(rs, sections, mappings) && arena.views == [] && |answers| == |rs|
      requires Fitting(rs, mappings) && forall i :: 0 <= i < |handles| ==> handles[i].address == 0
      modifies arena`aliases, arena`views, arena`handles, arena`backings, handles, memory`aliases
      ensures Valid()
      ensures ok <==> forall i :: 0 <= i < |rs| && rs[i].size > 0 ==> answers[i] == OK
      ensures ok ==> Mapped(rs, mappings, |rs|)
    {
      hide Valid, Ready, Mapped, ViewOf;
      OwnHandles();
      MappedNone(rs, mappings);
      for i := 0 to |rs|
        invariant Valid() && Ready(rs, sections, mappings) && Mapped(rs, mappings, i)
        invariant forall j :: i <= j < |handles| ==> handles[j].address == 0
        invariant forall j :: 0 <= j < i && rs[j].size > 0 ==> answers[j] == OK
      {
        if rs[i].size != 0 {
          var rc := MapOne(rs, sections, mappings, i, answers[i]);
          if rc != OK {
            return false;
          }
        } else {
          MappedSkips(rs, mappings, i);
        }
      }
      return true;
    }

    lemma OwnHandles()
      requires Valid()
      ensures forall i, j :: 0 <= i < j < |handles| ==> handles[i] != handles[j]
    {
      hide Arena.Valid;
    }

    lemma MappedNone(rs: seq<Region>, mappings: seq<Mapping>)
      requires Fitting(rs, mappings) && arena.views == []
      ensures Mapped(rs, mappings, 0)
    {
    }

    lemma OneMore(v: View, base: nat, rs: seq<Region>, mappings: seq<Mapping>, n: nat)
      requires n < |rs| && Fitting(rs, mappings) && IsOf(v, base, rs, mappings, n)
      ensures IsOf(v, base, rs, mappings, n + 1)
    {
      hide ViewOf;
      var j :| 0 <= j < n && rs[j].size > 0 && v == ViewOf(base, rs, mappings, j);
      assert v == ViewOf(base, rs, mappings, j);
    }

    lemma MappedSkips(rs: seq<Region>, mappings: seq<Mapping>, n: nat)
      requires n < |rs| && Fitting(rs, mappings) && Mapped(rs, mappings, n) && rs[n].size == 0
      ensures Mapped(rs, mappings, n + 1)
    {
      hide ViewOf;
      forall k | 0 <= k < |arena.views|
        ensures IsOf(arena.views[k], arena.base, rs, mappings, n + 1)
      {
        OneMore(arena.views[k], arena.base, rs, mappings, n);
      }
    }

    static lemma GrantsOf(sections: seq<Section>, rs: seq<Region>, kernel: Kernel)
      requires kernel.Valid(|sections|, |rs|)
      ensures |kernel.grants| == |sections| && |kernel.maps| == |rs|
      ensures forall s :: 0 <= s < |sections| ==>
          kernel.grants[s].at >= 0 && kernel.grants[s].host > 0 && kernel.grants[s].release == OK
    {
    }

    lemma NowReady(rs: seq<Region>, sections: seq<Section>, mappings: seq<Mapping>)
      requires Planned(rs, sections, mappings) && |handles| == |rs| && |memory| == |sections|
      requires arena.base > 0 && arena.size == SPACE
      requires forall s :: 0 <= s < |memory| ==>
          memory[s].host > 0 && memory[s].size == Pages(Rounded(sections[s].bytes))
      ensures Ready(rs, sections, mappings)
    {
      hide Planned;
    }

    /** The steps of `Initialize` that can fail, up to the first one that does. */
    method Attempt(rs: seq<Region>, sections: seq<Section>, mappings: seq<Mapping>, kernel: Kernel) returns (ok: bool)
      requires Valid() && Released() && Planned(rs, sections, mappings) && |handles| == |rs| && |memory| == |sections|
      requires kernel.Valid(|sections|, |rs|)
      modifies arena, handles, memory`aliases, memory`physical, memory`host, memory`size
      ensures Valid()
      ensures ok <==> Willing(rs, sections, kernel)
      ensures ok ==> Ready(rs, sections, mappings) && Fitting(rs, mappings) && Mapped(rs, mappings, |rs|)
      ensures ok ==> forall s :: 0 <= s < |memory| ==> memory[s].host == kernel.grants[s].host
    {
      hide Arena.Linked, ViewsOk, Arena.Counted, Planned, ViewOf, Mapped, Granted, Kernel.Valid, Ready, Fitting,
          Rounded, Pages;
      GrantsOf(sections, rs, kernel);
      var rc := arena.Reserve(kernel.reserve, kernel.address);
      ok := rc == OK;
      if ok {
        ok := OpenAll(sections, kernel.grants);
      }
      if ok {
        NowReady(rs, sections, mappings);
        ReadyAt(rs, sections, mappings);
        ok := MapAll(rs, sections, mappings, kernel.maps);
      }
    }

    /** The part of `Initialize` that can fail: it maps every region, or the destructor undoes all of it. */
    method Build(rs: seq<Region>, sections: seq<Section>, mappings: seq<Mapping>, kernel: Kernel) returns (ok: bool)
      requires Valid() && Released() && Planned(rs, sections, mappings) && |handles| == |rs| && |memory| == |sections|
      requires kernel.Valid(|sections|, |rs|)
      modifies arena, handles, memory`aliases, memory`physical, memory`host, memory`size
      ensures Valid()
      ensures ok <==> Willing(rs, sections, kernel)
      ensures ok ==> Ready(rs, sections, mappings) && Fitting(rs, mappings) && Mapped(rs, mappings, |rs|)
      ensures ok && kernel.Apart(sections) ==> LayoutOf(rs, sections, mappings).Valid()
      ensures !ok ==> Released()
    {
      hide Valid, Planned, Mapped, Kernel.Valid, Kernel.Apart, Ready, Fitting, Willing, Layout.Valid, LayoutOf;
      ok := Attempt(rs, sections, mappings, kernel);
      if !ok {
        Destroy();
      } else if kernel.Apart(sections) {
        BuiltLayout(rs, sections, mappings, kernel);
      }
    }
  }

  lemma WholePages(bytes: nat)
    ensures bytes <= Pages(bytes)
  {
  }

  /** The kernel gives a section its memory. */
  predicate Granted(s: Section, g: Grant) {
    0 < Rounded(s.bytes) < WORD64 - PAGE + 1 && Pages(Rounded(s.bytes)) <= g.pool < WORD64 / 2 && g.allocate == OK
        && g.mapping == OK
  }

  /** The kernel does everything the layout asks of it. */
  predicate Willing(rs: seq<Region>, sections: seq<Section>, kernel: Kernel)
    requires |kernel.grants| == |sections| && |kernel.maps| == |rs|
  {
    && kernel.reserve == OK && kernel.address == GUEST_BASE
    && (forall s :: 0 <= s < |sections| ==> Granted(sections[s], kernel.grants[s]))
    && forall i :: 0 <= i < |rs| && rs[i].size > 0 ==> kernel.maps[i] == OK
  }

  /** A handle is that of a mapped view. */
  ghost predicate IsView(views: seq<View>, h: Alias) {
    exists k :: 0 <= k < |views| && views[k].handle == h
  }

  lemma StillThere(was: seq<View>, now: seq<View>, at: nat, h: Alias)
    requires IsView(was, h)
    requires now == was || (at < |was| && now == Without(was, at) && was[at].handle != h)
    ensures IsView(now, h)
  {
    var k :| 0 <= k < |was| && was[k].handle == h;
    if now != was {
      assert now[if k < at then k else k - 1].handle == h;
    }
  }

  lemma Joined(was: seq<View>, now: seq<View>)
    requires |now| == |was| + 1 && now[1..] == was
    ensures forall h :: IsView(was, h) ==> IsView(now, h)
    ensures IsView(now, now[0].handle)
  {
    forall h | IsView(was, h)
      ensures IsView(now, h)
    {
      var k :| 0 <= k < |was| && was[k].handle == h;
      assert now[k + 1].handle == h;
    }
  }
}
