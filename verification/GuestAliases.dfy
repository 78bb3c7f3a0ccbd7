/** The guest address space (ps5/runtime/guest_memory_ps5.cpp): a reservation, the views mapped into it as an intrusive
    linked list, and the memory behind them with its count of views. */
module GuestAliases {
  import opened Bytes

  const PAGE: nat := 16384
  const SPACE: nat := 0x1_0000_0000
  const GUEST_BASE: nat := 0x20_0000_0000
  const OK: int := 0
  const INVALID: int := -1
  const BUSY: int := -2

  predicate Aligned(n: nat) {
    n % PAGE == 0
  }

  const WORD64: nat := 0x1_0000_0000_0000_0000

  function Pages(bytes: nat): (r: nat)
    ensures r % PAGE == 0 && bytes <= r < bytes + PAGE
  {
    (bytes + PAGE - 1) / PAGE * PAGE
  }

  /** What the kernel does while a backing is opened. */
  datatype Grant = Grant(pool: nat, allocate: int, at: int, mapping: int, host: nat, release: int)

  /** Direct memory; `host` is zero while it is not mapped. */
  class Backing {
    var physical: int
    var host: nat
    var size: nat
    var aliases: nat

    constructor ()
      ensures physical == -1 && host == 0 && size == 0 && aliases == 0
    {
      physical, host, size, aliases := -1, 0, 0, 0;
    }

    /** `OpenBacking`: memory of the size asked for, rounded to pages; a failure leaves nothing behind unless the kernel
        does not take back what it gave. */
    method Open(bytes: nat, grant: Grant) returns (rc: int)
      requires aliases == 0 && grant.at >= 0 && grant.host > 0
      modifies this`physical, this`host, this`size
      ensures old(physical >= 0 || host != 0) ==>
          rc != OK && physical == old(physical) && host == old(host) && size == old(size)
      ensures rc == OK
         <==> && old(physical < 0 && host == 0) && 0 < bytes < WORD64 - PAGE + 1
              && Pages(bytes) <= grant.pool < WORD64 / 2 && grant.allocate == OK && grant.mapping == OK
      ensures rc == OK ==> size == Pages(bytes) && host == grant.host && physical == grant.at
      ensures rc != OK && grant.release == OK && old(physical < 0 && host == 0) ==> physical < 0 && host == 0
    {
      if physical >= 0 || host != 0 {
        return BUSY;
      }
      if bytes == 0 || bytes > WORD64 - PAGE {
        return INVALID;
      }
      var rounded := Pages(bytes);
      if rounded > grant.pool || grant.pool >= WORD64 / 2 {
        return INVALID;
      }
      if grant.allocate != OK {
        return grant.allocate;
      }
      physical, size := grant.at, rounded;
      if grant.mapping != OK {
        var closed := Close(OK, grant.release);
        return grant.mapping;
      }
      host := grant.host;
      return OK;
    }

    /** `CloseBacking`: refused while views are left; each step that fails leaves the rest for a retry. */
    method Close(unmap: int, release: int) returns (rc: int)
      modifies this`physical, this`host, this`size
      ensures aliases > 0 ==> rc == BUSY && physical == old(physical) && host == old(host) && size == old(size)
      ensures aliases == 0 && unmap == OK && release == OK ==> rc == OK
      ensures aliases == 0 && rc == OK ==> host == 0 && physical < 0
      ensures rc != OK && old(physical) >= 0 ==> physical == old(physical) && size == old(size)
    {
      if aliases > 0 {
        return BUSY;
      }
      if host != 0 {
        if unmap != OK {
          return unmap;
        }
        host := 0;
      }
      if physical >= 0 {
        if release != OK {
          return release;
        }
        physical, size := -1, 0;
      }
      return OK;
    }
  }

  /** A view's handle; `address` is zero while it is not mapped. */
  class Alias {
    var address: nat
    var size: nat
    var backing: Backing?
    var next: Alias?
    var arena: Arena?

    constructor ()
      ensures address == 0
    {
      address, size, backing, next, arena := 0, 0, null, null, null;
    }
  }

  /** A mapped view, as a value. */
  datatype View = View(handle: Alias, address: nat, size: nat, backing: Backing, offset: nat)

  predicate Apart(a: View, b: View) {
    a.address + a.size <= b.address || b.address + b.size <= a.address
  }

  /** The views lie in the reservation, do not overlap, and have a handle each. */
  predicate ViewsOk(views: seq<View>, base: nat, size: nat) {
    && (forall i :: 0 <= i < |views| ==>
          views[i].address > 0 && views[i].size > 0 && base <= views[i].address
              && views[i].address + views[i].size <= base + size)
    && (forall i, j :: 0 <= i < j < |views| ==> Apart(views[i], views[j]) && views[i].handle != views[j].handle)
  }

  /** How many of the views belong to a backing. */
  function Count(views: seq<View>, b: Backing): nat {
    if views == [] then 0 else (if views[0].backing == b then 1 else 0) + Count(views[1..], b)
  }

  lemma {:induction false} CountWithout(views: seq<View>, i: nat, b: Backing)
    requires i < |views|
    ensures Count(views, b) == Count(Without(views, i), b) + if views[i].backing == b then 1 else 0
  {
    if i == 0 {
      assert Without(views, i) == views[1..];
    } else {
      CountWithout(views[1..], i - 1, b);
      assert Without(views, i)[1..] == Without(views[1..], i - 1);
    }
  }

  lemma {:induction false} CountNone(views: seq<View>, b: Backing)
    requires forall i :: 0 <= i < |views| ==> views[i].backing != b
    ensures Count(views, b) == 0
  {
    if views != [] {
      CountNone(views[1..], b);
    }
  }

  lemma CountMore(v: View, views: seq<View>, b: Backing)
    ensures Count([v] + views, b) == Count(views, b) + if v.backing == b then 1 else 0
  {
    assert ([v] + views)[1..] == views;
  }

  /** A view apart from all others joins them; any one of them leaves. */
  lemma ViewJoins(views: seq<View>, base: nat, size: nat, v: View)
    requires ViewsOk(views, base, size) && v.address > 0 && v.size > 0 && base <= v.address
    requires v.address + v.size <= base + size
    requires forall i :: 0 <= i < |views| ==> Apart(v, views[i]) && views[i].handle != v.handle
    ensures ViewsOk([v] + views, base, size)
  {
    var more := [v] + views;
    assert forall i :: 0 < i < |more| ==> more[i] == views[i - 1];
    hide Apart;
  }

  lemma ViewLeaves(views: seq<View>, base: nat, size: nat, i: nat)
    requires ViewsOk(views, base, size) && i < |views|
    ensures ViewsOk(Without(views, i), base, size)
  {
    hide Apart;
  }

  class Arena {
    var base: nat
    var size: nat
    var aliases: Alias?
    ghost var views: seq<View>
    ghost var handles: set<Alias>
    ghost var backings: set<Backing>

    ghost predicate Holds(v: View)
      reads v.handle
    {
      v.handle.address == v.address && v.handle.size == v.size && v.handle.backing == v.backing
          && v.handle.arena == this
    }

    /** The handle of view `k` points to that of the next view. */
    static ghost predicate Chained(vs: seq<View>, k: nat)
      requires k < |vs|
      reads vs[k].handle
    {
      vs[k].handle.next == if k + 1 < |vs| then vs[k + 1].handle else null
    }

    /** The chain of handles from `aliases` on is the list of views. */
    ghost predicate Linked()
      reads this`aliases, this`views, this`handles, handles
    {
      && (forall i :: 0 <= i < |views| ==> views[i].handle in handles && Holds(views[i]))
      && aliases == (if views == [] then null else views[0].handle)
      && (forall i :: 0 <= i < |views| ==> Chained(views, i))
    }

    ghost predicate Counted()
      reads this`views, this`backings, backings`aliases
    {
      && (forall i :: 0 <= i < |views| ==> views[i].backing in backings)
      && (forall b :: b in backings ==> b.aliases == Count(views, b))
    }

    ghost predicate Valid()
      reads this, handles, backings`aliases
    {
      Linked() && ViewsOk(views, base, size) && Counted()
    }

    constructor (base: nat, size: nat)
      ensures Valid() && views == [] && this.base == base && this.size == size
    {
      this.base, this.size, aliases, views, handles, backings := base, size, null, [], {}, {};
    }

    /** `Reserve`: the guest space, at its fixed address or not at all. */
    method Reserve(answer: int, address: nat) returns (rc: int)
      requires Valid() && (base == 0 ==> views == [])
      modifies this`base, this`size
      ensures Valid()
      ensures rc == OK <==> old(base) == 0 && answer == OK && address == GUEST_BASE
      ensures if rc == OK then base == GUEST_BASE && size == SPACE else base == old(base) && size == old(size)
    {
      if base != 0 {
        return BUSY;
      }
      if answer != OK {
        return answer;
      }
      if address != GUEST_BASE {
        return INVALID;
      }
      base, size := address, SPACE;
      return OK;
    }

    /** The overlap scan of `MapAlias`. */
    method Overlaps(begin: nat, end: nat) returns (found: bool)
      requires Linked()
      ensures found
         <==> exists i :: 0 <= i < |views| && begin < views[i].address + views[i].size && views[i].address < end
    {
      var other := aliases;
      ghost var i := 0;
      while other != null
        invariant 0 <= i <= |views|
        invariant other == if i < |views| then views[i].handle else null
        invariant forall j :: 0 <= j < i ==> !(begin < views[j].address + views[j].size && views[j].address < end)
        decreases |views| - i
      {
        assert Holds(views[i]) && Chained(views, i);
        if begin < other.address + other.size && other.address < end {
          return true;
        }
        other := other.next;
        i := i + 1;
      }
      return false;
    }

    /** Where a new view may go: aligned, inside the reservation and the backing, and apart from all others. */
    ghost predicate Fits(guestOffset: nat, backing: Backing, backingOffset: nat, bytes: nat)
      reads this, backing
    {
      && base > 0 && backing.host > 0 && bytes > 0
      && Aligned(guestOffset) && Aligned(backingOffset) && Aligned(bytes)
      && guestOffset + bytes <= size && backingOffset + bytes <= backing.size
      && forall i :: 0 <= i < |views| ==>
           base + guestOffset + bytes <= views[i].address || views[i].address + views[i].size <= base + guestOffset
    }

    /** The checks of `MapAlias`. */
    method CheckMap(alias: Alias, guestOffset: nat, backing: Backing, backingOffset: nat, bytes: nat) returns (rc: int)
      requires Linked()
      ensures rc == OK <==> alias.address == 0 && Fits(guestOffset, backing, backingOffset, bytes)
    {
      hide Linked;
      if alias.address != 0 {
        return BUSY;
      }
      if base == 0 || backing.host == 0 || bytes == 0 || !Aligned(guestOffset) || !Aligned(backingOffset)
          || !Aligned(bytes)
        || guestOffset > size || bytes > size - guestOffset || backingOffset > backing.size
            || bytes > backing.size - backingOffset
      {
        return INVALID;
      }
      var begin := base + guestOffset;
      var found := Overlaps(begin, begin + bytes);
      return if found then BUSY else OK;
    }

    /** The new view becomes the head of the list. */
    method Link(alias: Alias, guestOffset: nat, backing: Backing, ghost backingOffset: nat, bytes: nat)
      requires Linked() && (forall i :: 0 <= i < |views| ==> views[i].handle != alias)
      modifies this`aliases, this`views, this`handles, alias
      ensures Linked() && views == [View(alias, base + guestOffset, bytes, backing, backingOffset)] + old(views)
      ensures handles == old(handles) + {alias}
    {
      alias.address, alias.size, alias.arena, alias.backing := base + guestOffset, bytes, this, backing;
      alias.next := aliases;
      aliases := alias;
      ghost var was := views;
      views, handles := [View(alias, base + guestOffset, bytes, backing, backingOffset)] + views, handles + {alias};
      assert forall i :: 0 < i < |views| ==> views[i] == was[i - 1];
      forall i | 0 <= i < |views|
        ensures Chained(views, i)
      {
        if i > 0 {
          assert old(Chained(was, i - 1));
        }
      }
    }

    /** `MapAlias`. `answer` is the kernel's. */
    method Map(alias: Alias, guestOffset: nat, backing: Backing, backingOffset: nat, bytes: nat,
               answer: int) returns (rc: int)
      requires Valid() && (backing !in backings ==> backing.aliases == 0)
      modifies this`aliases, this`views, this`handles, this`backings, alias, backing`aliases
      ensures Valid()
      ensures rc == OK <==> old(alias.address == 0 && Fits(guestOffset, backing, backingOffset, bytes)) && answer == OK
      ensures rc == OK ==> views == [View(alias, base + guestOffset, bytes, backing, backingOffset)] + old(views)
                           && backing.aliases == old(backing.aliases) + 1
      ensures rc == OK ==> handles == old(handles) + {alias} && backings == old(backings) + {backing}
      ensures rc != OK ==> unchanged(this) && unchanged(alias) && unchanged(backing)
    {
      hide Linked, ViewsOk, Counted;
      rc := CheckMap(alias, guestOffset, backing, backingOffset, bytes);
      if rc != OK {
        return;
      }
      if answer != OK {
        return answer;
      }
      Adopt(alias, guestOffset, backing, backingOffset, bytes);
    }

    /** Links the view and counts it. */
    method Adopt(alias: Alias, guestOffset: nat, backing: Backing, ghost backingOffset: nat, bytes: nat)
      requires Valid() && (backing !in backings ==> backing.aliases == 0)
      requires alias.address == 0 && Fits(guestOffset, backing, backingOffset, bytes)
      modifies this`aliases, this`views, this`handles, this`backings, alias, backing`aliases
      ensures Valid()
      ensures views == [View(alias, base + guestOffset, bytes, backing, backingOffset)] + old(views)
      ensures backing.aliases == old(backing.aliases) + 1
      ensures handles == old(handles) + {alias} && backings == old(backings) + {backing}
    {
      hide Linked, ViewsOk, Count, Counted, Fits, Aligned;
      Joins(alias, guestOffset, backing, backingOffset, bytes);
      Link(alias, guestOffset, backing, backingOffset, bytes);
      Tally(backing);
    }

    /** What mapping needs of the list and of the counts before the new view is in them. */
    lemma Joins(alias: Alias, guestOffset: nat, backing: Backing, backingOffset: nat, bytes: nat)
      requires Valid() && (backing !in backings ==> backing.aliases == 0)
      requires alias.address == 0 && Fits(guestOffset, backing, backingOffset, bytes)
      ensures Linked() && forall i :: 0 <= i < |views| ==> views[i].handle != alias
      ensures var more := [View(alias, base + guestOffset, bytes, backing, backingOffset)] + views;
              && ViewsOk(more, base, size)
              && (forall i :: 0 <= i < |more| ==> more[i].backing in backings + {backing})
              && forall b :: b in backings + {backing} ==> Count(more, b) == b.aliases + if b == backing then 1 else 0
    {
      hide Linked, ViewsOk, Count, Aligned, Counted;
      ghost var v := View(alias, base + guestOffset, bytes, backing, backingOffset);
      NotMapped(alias);
      ViewJoins(views, base, size, v);
      CountsJoin(v);
      BackingsJoin(v);
    }

    /** `++backing.aliases`. */
    method Tally(backing: Backing)
      requires forall i :: 0 <= i < |views| ==> views[i].backing in backings + {backing}
      requires forall b :: b in backings + {backing} ==> Count(views, b) == b.aliases + if b == backing then 1 else 0
      modifies this`backings, backing`aliases
      ensures Counted() && backing.aliases == old(backing.aliases) + 1 && backings == old(backings) + {backing}
    {
      hide Count;
      backings := backings + {backing};
      backing.aliases := backing.aliases + 1;
    }

    /** `--backing.aliases`. */
    method Untally(backing: Backing)
      requires backing in backings && backing.aliases > 0
      requires forall i :: 0 <= i < |views| ==> views[i].backing in backings
      requires forall b :: b in backings ==> Count(views, b) + (if b == backing then 1 else 0) == b.aliases
      modifies backing`aliases
      ensures Counted()
    {
      hide Count;
      backing.aliases := backing.aliases - 1;
    }

    lemma BackingsJoin(v: View)
      requires Counted()
      ensures forall i :: 0 <= i < |[v] + views| ==> ([v] + views)[i].backing in backings + {v.backing}
    {
      hide Count;
    }

    lemma NotMapped(alias: Alias)
      requires Linked() && ViewsOk(views, base, size) && alias.address == 0
      ensures forall i :: 0 <= i < |views| ==> views[i].handle != alias
    {
      assert forall i :: 0 <= i < |views| ==> Holds(views[i]);
    }

    lemma CountsJoin(v: View)
      requires Counted() && (v.backing !in backings ==> v.backing.aliases == 0)
      ensures forall b :: b in backings + {v.backing} ==>
          Count([v] + views, b) == b.aliases + if b == v.backing then 1 else 0
    {
      forall b | b in backings + {v.backing}
        ensures Count([v] + views, b) == b.aliases + if b == v.backing then 1 else 0
      {
        CountMore(v, views, b);
        if b !in backings {
          CountNone(views, b);
        }
      }
    }

    /** Takes handle `i` out of the chain: the loop walks to the link that points to it. */
    method Unlink(alias: Alias, ghost i: nat)
      requires Linked() && i < |views| && views[i].handle == alias
      requires forall k, l :: 0 <= k < l < |views| ==> views[k].handle != views[l].handle
      modifies this`aliases, this`views, handles`next
      ensures views == Without(old(views), i)
      ensures forall k :: 0 <= k < |views| ==> views[k].handle in handles && Holds(views[k]) && views[k].handle != alias
      ensures aliases == (if views == [] then null else views[0].handle)
      ensures forall k :: 0 <= k < |views| ==> Chained(views, k)
    {
      ghost var was := views;
      assert forall k :: 0 <= k < |was| ==> Holds(was[k]);
      assert forall k :: 0 <= k < |was| ==> Chained(was, k);
      if aliases == alias {
        aliases := alias.next;
      } else {
        var before := aliases;
        ghost var k := 0;
        while before.next != alias
          invariant 0 <= k < i && before == was[k].handle
          decreases i - k
        {
          assert Chained(was, k);
          k := k + 1;
          before := before.next;
        }
        assert Chained(was, k) && was[k + 1].handle == alias;
        before.next := alias.next;
      }
      views := Without(views, i);
      assert old(Chained(was, i));
      forall k | 0 <= k < |views|
        ensures Chained(views, k)
      {
        assert old(Chained(was, if k < i then k else k + 1));
      }
    }

    /** `UnmapAlias`: the view goes, all others stay in order, and its backing counts one less. */
    method Unmap(alias: Alias, ghost i: nat, answer: int) returns (rc: int)
      requires Valid() && (alias.address != 0 ==> i < |views| && views[i].handle == alias)
      modifies this`aliases, this`views, this`handles, handles`next, alias, backings`aliases
      ensures Valid()
      ensures rc == if old(alias.address == 0) then OK else answer
      ensures rc == OK ==> alias.address == 0
      ensures old(alias.address != 0) && rc == OK ==>
          views == Without(old(views), i) && handles == old(handles) - {alias}
      ensures old(alias.address == 0) || rc != OK ==> unchanged(this) && unchanged(alias)
    {
      if alias.address == 0 {
        return OK;
      }
      if answer != OK {
        return answer;
      }
      hide Linked, ViewsOk, Count, Counted;
      Leaves(i);
      Unlink(alias, i);
      Untally(alias.backing);
      Forget(alias);
      return OK;
    }

    /** What unmapping needs of the list and of the counts before the view is gone from them. */
    lemma Leaves(i: nat)
      requires Valid() && i < |views|
      ensures Linked() && Holds(views[i]) && views[i].handle in handles
      ensures forall k, l :: 0 <= k < l < |views| ==> views[k].handle != views[l].handle
      ensures ViewsOk(Without(views, i), base, size)
      ensures forall b :: b in backings ==>
          Count(Without(views, i), b) + (if b == views[i].backing then 1 else 0) == b.aliases
      ensures forall k :: 0 <= k < |Without(views, i)| ==> Without(views, i)[k].backing in backings
      ensures views[i].backing in backings && views[i].backing.aliases > 0
    {
      hide Linked, ViewsOk, Count, Counted, Without;
      HandleOf(i);
      CountsLeave(i);
      ViewLeaves(views, base, size, i);
    }

    /** The handle is free again. */
    method Forget(alias: Alias)
      requires forall k :: 0 <= k < |views| ==>
          views[k].handle in handles && Holds(views[k]) && views[k].handle != alias
      requires aliases == (if views == [] then null else views[0].handle)
      requires forall k :: 0 <= k < |views| ==> Chained(views, k)
      modifies this`handles, alias
      ensures Linked() && alias.address == 0 && handles == old(handles) - {alias}
    {
      alias.address, alias.size, alias.arena, alias.backing, alias.next := 0, 0, null, null, null;
      handles := handles - {alias};
      assert forall k :: 0 <= k < |views| ==> old(Chained(views, k));
    }

    /** The handle of a view is mapped. */
    lemma HandleLives(i: nat)
      requires Valid() && i < |views|
      ensures views[i].handle in handles && views[i].handle.address != 0
    {
      assert Holds(views[i]);
    }

    lemma HandleOf(i: nat)
      requires Linked() && ViewsOk(views, base, size) && i < |views|
      ensures Holds(views[i]) && views[i].handle in handles
      ensures forall k, l :: 0 <= k < l < |views| ==> views[k].handle != views[l].handle
    {
    }

    lemma CountsLeave(i: nat)
      requires Counted() && i < |views|
      ensures forall b :: b in backings ==>
          Count(Without(views, i), b) + (if b == views[i].backing then 1 else 0) == b.aliases
      ensures forall k :: 0 <= k < |Without(views, i)| ==> Without(views, i)[k].backing in backings
      ensures views[i].backing in backings && views[i].backing.aliases > 0
    {
      forall b | b in backings
        ensures Count(Without(views, i), b) + (if b == views[i].backing then 1 else 0) == b.aliases
      {
        CountWithout(views, i, b);
      }
    }

    /** `CloseArena`: refused while any view is left. */
    method Close(answer: int) returns (rc: int)
      requires Valid()
      modifies this`base, this`size
      ensures rc == OK <==> views == [] && (old(base) == 0 || answer == OK)
      ensures rc == OK ==> base == 0
      ensures rc != OK ==> base == old(base) && size == old(size)
      ensures Valid()
    {
      if aliases != null {
        return BUSY;
      }
      if base == 0 {
        return OK;
      }
      if answer == OK {
        base, size := 0, 0;
      }
      return answer;
    }
  }
}
