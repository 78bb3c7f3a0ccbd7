/** The profiler's hash table (ps5/runtime/function_profiler_ps5.cpp, `find`): linear probing, no deletion. */
module ProbeTable {

  const TABLE_SIZE: nat := 65536

  type Keys = k: seq<nat> | |k| == 65536 witness seq(65536, i => 0)

  /** The first slot a key tries: the top bits of a 64-bit product. */
  function Home(key: nat): (h: nat)
    ensures h < TABLE_SIZE
  {
    key * 0x9E37_79B9_7F4A_7C15 % 0x1_0000_0000_0000_0000 / 0x1_0000_0000_0000
  }

  /** The slot tried after `n` others. */
  function Slot(key: nat, n: nat): (i: nat)
    ensures i < TABLE_SIZE
  {
    (Home(key) + n) % TABLE_SIZE
  }

  datatype Found = At(slot: nat) | Free(slot: nat) | Full

  /** The search, from the `n`th try on: the key's slot, the first free slot, or neither in the whole table. */
  function Search(keys: Keys, key: nat, n: nat): (r: Found)
    requires n <= TABLE_SIZE
    ensures !r.Full? ==> r.slot < TABLE_SIZE
    decreases TABLE_SIZE - n
  {
    if n == TABLE_SIZE then Full
    else if keys[Slot(key, n)] == key then At(Slot(key, n))
    else if keys[Slot(key, n)] == 0 then Free(Slot(key, n))
    else Search(keys, key, n + 1)
  }

  /** The table after looking up `key`: a missing key takes the first free slot. */
  function Looked(keys: Keys, key: nat): Keys {
    match Search(keys, key, 0)
    case Free(slot) => keys[slot := key]
    case _ => keys
  }

  /** How many slots a key in slot `i` passed over. */
  function Passed(key: nat, i: nat): (n: nat)
    requires i < TABLE_SIZE
    ensures n < TABLE_SIZE && Slot(key, n) == i
  {
    if i >= Home(key) then i - Home(key) else i + TABLE_SIZE - Home(key)
  }

  /** Every slot a stored key passed over is taken. */
  predicate Reached(keys: Keys, i: nat)
    requires i < TABLE_SIZE
  {
    keys[i] != 0 ==> forall n :: 0 <= n < Passed(keys[i], i) ==> keys[Slot(keys[i], n)] != 0
  }

  /** No key is stored twice, and every key is where a search finds it. */
  predicate TableOk(keys: Keys) {
    && (forall i :: 0 <= i < TABLE_SIZE ==> Reached(keys, i))
    && (forall i, j :: 0 <= i < j < TABLE_SIZE && keys[i] != 0 ==> keys[i] != keys[j])
  }

  /** The tries from `n` to `m` met other keys. */
  predicate Others(keys: Keys, key: nat, n: nat, m: nat) {
    forall k :: n <= k < m ==> keys[Slot(key, k)] != 0 && keys[Slot(key, k)] != key
  }

  /** What the search has ruled out when it stops, and how many tries it made. */
  lemma {:induction false} SearchStops(keys: Keys, key: nat, n: nat) returns (m: nat)
    requires n <= TABLE_SIZE
    ensures n <= m <= TABLE_SIZE && Others(keys, key, n, m)
    ensures m == TABLE_SIZE ==> Search(keys, key, n) == Full
    ensures m < TABLE_SIZE ==> keys[Slot(key, m)] == key || keys[Slot(key, m)] == 0
    ensures m < TABLE_SIZE ==> Search(keys, key, n) == if keys[Slot(key, m)] == key then At(Slot(key, m))
        else Free(Slot(key, m))
    decreases TABLE_SIZE - n
  {
    hide Slot;
    if n == TABLE_SIZE || keys[Slot(key, n)] == key || keys[Slot(key, n)] == 0 {
      m := n;
    } else {
      m := SearchStops(keys, key, n + 1);
    }
  }

  lemma TriesApart(key: nat, n: nat, m: nat)
    requires n < TABLE_SIZE && m < TABLE_SIZE && Slot(key, n) == Slot(key, m)
    ensures n == m
  {
    hide Home;
  }

  lemma PassedIs(key: nat, i: nat)
    requires i < TABLE_SIZE
    ensures Slot(key, Passed(key, i)) == i
  {
  }

  /** A stored key is met before any free slot. */
  lemma StoredIsMet(keys: Keys, key: nat, i: nat, m: nat)
    requires TableOk(keys) && key != 0 && i < TABLE_SIZE && keys[i] == key
    requires m <= TABLE_SIZE && Others(keys, key, 0, m)
    ensures m < TABLE_SIZE && (keys[Slot(key, m)] == 0 || keys[Slot(key, m)] == key ==> keys[Slot(key, m)] == key)
  {
    var p := Passed(key, i);
    assert Reached(keys, i);
    PassedIs(key, i);
    hide Slot, Passed;
    assert m <= p;
  }

  /** The search refines a map: it finds exactly the stored keys; a missing key gets the first free slot, and the table
      stays in order; only when no slot is free is there none. */
  lemma SearchRefinesMap(keys: Keys, key: nat)
    requires TableOk(keys) && key != 0
    ensures var r := Search(keys, key, 0);
            && (key in keys <==> r.At?)
            && (r.At? ==> keys[r.slot] == key)
            && (r.Free? ==> keys[r.slot] == 0 && TableOk(keys[r.slot := key]))
            && (r.Full? <==> key !in keys && 0 !in keys)
  {
    hide Slot, Home, Passed, Search, TableOk;
    var m := SearchStops(keys, key, 0);
    if key in keys {
      var i :| 0 <= i < TABLE_SIZE && keys[i] == key;
      StoredIsMet(keys, key, i, m);
    } else if m == TABLE_SIZE {
      AllTried(keys, key);
    } else {
      assert keys[Slot(key, m)] in keys;
      PassedIs(key, Slot(key, m));
      TriesApart(key, m, Passed(key, Slot(key, m)));
      Inserted(keys, key, Slot(key, m));
    }
  }

  lemma AllTried(keys: Keys, key: nat)
    requires Others(keys, key, 0, TABLE_SIZE)
    ensures 0 !in keys && key !in keys
  {
    hide Slot, Passed;
    forall i | 0 <= i < TABLE_SIZE
      ensures keys[i] != 0 && keys[i] != key
    {
      PassedIs(key, i);
      assert 0 <= Passed(key, i) < TABLE_SIZE;
    }
  }

  lemma Inserted(keys: Keys, key: nat, slot: nat)
    requires TableOk(keys) && key != 0 && key !in keys && slot < TABLE_SIZE && keys[slot] == 0
    requires forall n :: 0 <= n < Passed(key, slot) ==> keys[Slot(key, n)] != 0
    ensures TableOk(keys[slot := key])
  {
    var now := keys[slot := key];
    forall i | 0 <= i < TABLE_SIZE
      ensures Reached(now, i)
    {
      assert Reached(keys, i);
    }
    forall i | 0 <= i < TABLE_SIZE
      ensures keys[i] != key
    {
      assert keys[i] in keys;
    }
  }

  /** The table after looking up keys in turn. */
  function LookedAll(keys: Keys, later: seq<nat>): Keys {
    if later == [] then keys else Looked(LookedAll(keys, later[..|later| - 1]), later[|later| - 1])
  }

  /** One look-up moves no stored key. */
  lemma SlotIsKept(keys: Keys, key: nat, other: nat)
    requires TableOk(keys) && key != 0 && other != 0
    requires Search(keys, key, 0).At?
    ensures Search(Looked(keys, other), key, 0) == Search(keys, key, 0)
    ensures TableOk(Looked(keys, other))
  {
    hide Search;
    SearchRefinesMap(keys, key);
    SearchRefinesMap(keys, other);
    var now, slot := Looked(keys, other), Search(keys, key, 0).slot;
    assert now[slot] == key;
    assert TableOk(now);
    SearchRefinesMap(now, key);
    hide Reached;
  }

  /** A key keeps its slot for ever: whatever is looked up later, the key is found where it was, and no other key is
      ever given that slot. */
  lemma {:induction false} SlotIsForEver(keys: Keys, key: nat, later: seq<nat>, other: nat)
    requires TableOk(keys) && key != 0 && 0 !in later && other != 0 && other != key
    requires Search(keys, key, 0).At?
    ensures TableOk(LookedAll(keys, later))
    ensures Search(LookedAll(keys, later), key, 0) == Search(keys, key, 0)
    ensures Search(LookedAll(keys, later), other, 0) != Search(keys, key, 0)
    ensures forall slot :: Search(LookedAll(keys, later), other, 0) == Free(slot) ==> slot != Search(keys, key, 0).slot
  {
    hide Search, TableOk;
    if later != [] {
      SlotIsForEver(keys, key, later[..|later| - 1], other);
      SlotIsKept(LookedAll(keys, later[..|later| - 1]), key, later[|later| - 1]);
    }
    SearchRefinesMap(LookedAll(keys, later), key);
    SearchRefinesMap(LookedAll(keys, later), other);
  }

  lemma NextSlot(key: nat, n: nat)
    ensures Slot(key, n + 1) == (Slot(key, n) + 1) % TABLE_SIZE && Slot(key, 0) == Home(key)
  {
    hide Home;
  }

  lemma SearchStep(keys: Keys, key: nat, n: nat)
    requires n < TABLE_SIZE
    ensures Search(keys, key, n)
         == if keys[Slot(key, n)] == key then At(Slot(key, n))
            else if keys[Slot(key, n)] == 0 then Free(Slot(key, n)) else Search(keys, key, n + 1)
  {
    hide Slot;
  }

  /** The loop of `find`, with the new key stored. */
  method Find(keys: Keys, key: nat) returns (now: Keys, found: Found)
    requires key != 0
    ensures found == Search(keys, key, 0) && now == Looked(keys, key)
  {
    var i := Home(key);
    NextSlot(key, 0);
    assert Search(keys, key, TABLE_SIZE) == Full;
    hide Slot, Home, Search;
    for n := 0 to TABLE_SIZE
      invariant i == Slot(key, n) && Search(keys, key, n) == Search(keys, key, 0)
    {
      SearchStep(keys, key, n);
      if keys[i] == key {
        return keys, At(i);
      }
      if keys[i] == 0 {
        return keys[i := key], Free(i);
      }
      NextSlot(key, n);
      i := (i + 1) % TABLE_SIZE;
    }
    return keys, Full;
  }
}
