/** The profile against a trace that knows no table and no frames: which calls of which functions are open on each
    fiber, and what a window's rows should say of every function (ps5/runtime/function_profiler_ps5.cpp). */
module FunctionTrace {
  import opened ProbeTable
  import opened FunctionProfiler
  import opened FunctionTimes
  import opened FiberTimes

  /** Open calls by function, the innermost last, and how many more there are beyond the 2048 that are kept. */
  datatype Fiber = Fiber(names: seq<nat>, deeper: nat)

  /** The functions met, 65536 at most, and the fibers. A call of any further function is a call of 0. */
  datatype Trace = Trace(known: set<nat>, fibers: seq<Fiber>, current: nat, last: nat)

  predicate Sane(p: Trace) {
    && p.current < |p.fibers| && 0 !in p.known
    && forall k :: 0 <= k < |p.fibers| ==> forall x :: x in p.fibers[k].names ==> x == 0 || x in p.known
  }

  function Now(p: Trace): Fiber
    requires Sane(p)
  {
    p.fibers[p.current]
  }

  /** The function called last on the running fiber and not left yet. */
  predicate Top(p: Trace, name: nat)
    requires Sane(p)
  {
    Now(p).names != [] && Now(p).names[|Now(p).names| - 1] == name
  }

  function Named(p: Trace, key: nat): nat {
    if key in p.known || |p.known| < 65536 then key else 0
  }

  /** Ends the innermost call of `key` and everything called from it, if there is one. */
  function Cut(names: seq<nat>, key: nat): (r: seq<nat>)
    ensures key !in names ==> r == names
    ensures key in names ==> |r| < |names| && r == names[..|r|] && names[|r|] == key && key !in names[|r| + 1..]
  {
    if names == [] || key !in names then names
    else if names[|names| - 1] == key then names[..|names| - 1]
    else
      var r := Cut(names[..|names| - 1], key);
      assert names[..|names| - 1][|r| + 1..] + [names[|names| - 1]] == names[|r| + 1..];
      r
  }

  predicate Happens(p: Trace, e: Event) {
    match e
    case Entered(key, t0, t1) => key != 0 && p.last <= t0 <= t1
    case Exited(_, t0, t1) => p.last <= t0 <= t1
    case Switched(leave, enter, target) => p.last <= leave <= enter && target < |p.fibers|
    case Reported(now, after) => p.last <= now <= after
  }

  function Next(p: Trace, e: Event): (r: Trace)
    requires Sane(p) && Happens(p, e)
    ensures Sane(r) && p.known <= r.known
  {
    match e
    case Entered(key, _, t1) =>
      var f := Now(p);
      p.(known := if Named(p, key) == key then p.known + {key} else p.known, last := t1,
         fibers := p.fibers[p.current := if |f.names| < 2048 then f.(names := f.names + [Named(p, key)])
                            else f.(deeper := f.deeper + 1)])
    case Exited(key, _, t1) =>
      var f := Now(p);
      p.(last := t1, fibers := p.fibers[p.current := if f.deeper > 0 then f.(deeper := f.deeper - 1)
                                        else f.(names := Cut(f.names, key))])
    case Switched(_, enter, target) =>
      if target < 0 then p.(last := enter, fibers := p.fibers + [Fiber([], 0)], current := |p.fibers|)
      else p.(last := enter, current := target)
    case Reported(_, after) => p.(last := after)
  }

  function Traced(now: nat, events: seq<Event>): (p: Trace)
    ensures Sane(p)
  {
    if events == [] then Trace({}, [Fiber([], 0)], 0, now)
    else
      var p, e := Traced(now, events[..|events| - 1]), events[|events| - 1];
      if Happens(p, e) then Next(p, e) else p
  }

  /** One function's row: its calls, the calls made while it was on top, and the time it was there. */
  datatype Row = Row(calls: nat, childCalls: nat, self: nat)

  /** When the event begins. */
  function Begin(e: Event): nat {
    match e
    case Entered(_, t0, _) => t0
    case Exited(_, t0, _) => t0
    case Switched(leave, _, _) => leave
    case Reported(now, _) => now
  }

  /** What one event adds to the row. */
  function Added(w: Row, p: Trace, e: Event, name: nat): Row
    requires Sane(p) && Happens(p, e)
  {
    Row(w.calls + (if e.Entered? && Named(p, e.key) == name then 1 else 0),
        w.childCalls + (if e.Entered? && Top(p, name) then 1 else 0),
        w.self + (if Top(p, name) then Begin(e) - p.last else 0))
  }

  /** The row of a function since the last report, or since the start where reports clear nothing. */
  function Window(now: nat, events: seq<Event>, name: nat, cleared: bool): Row {
    if events == [] then Row(0, 0, 0)
    else
      var front, e := events[..|events| - 1], events[|events| - 1];
      var p, w := Traced(now, front), Window(now, front, name, cleared);
      if !Happens(p, e) then w
      else if e.Reported? && cleared then Row(0, 0, 0)
      else Added(w, p, e, name)
  }

  // ----- The profiler's state as a trace -----

  function NameOf(keys: Keys, i: nat): nat {
    if i < TABLE_SIZE then keys[i] else 0
  }

  function FiberOf(keys: Keys, k: Stack): (f: Fiber)
    ensures |f.names| == |k.frames| && f.deeper == k.overflow
    ensures forall j :: 0 <= j < |k.frames| ==> f.names[j] == NameOf(keys, k.frames[j].stat)
  {
    Fiber(seq(|k.frames|, j requires 0 <= j < |k.frames| => NameOf(keys, k.frames[j].stat)), k.overflow)
  }

  function FibersOf(keys: Keys, stacks: seq<Stack>): (r: seq<Fiber>)
    ensures |r| == |stacks|
    ensures forall k :: 0 <= k < |r| ==> r[k] == FiberOf(keys, stacks[k])
  {
    seq(|stacks|, k requires 0 <= k < |stacks| => FiberOf(keys, stacks[k]))
  }

  function Known(keys: seq<nat>): set<nat> {
    set x | x in keys && x != 0
  }

  function View(s: State): Trace {
    Trace(Known(s.keys), FibersOf(s.keys, s.stacks), s.current, s.last)
  }

  /** A frame of a function in the table has a taken slot. */
  predicate Placed(s: State) {
    forall k :: 0 <= k < |s.stacks| ==> PlacedOn(s.keys, s.stacks[k].frames)
  }

  predicate PlacedOn(keys: Keys, frames: seq<Frame>) {
    forall j :: 0 <= j < |frames| && frames[j].stat < TABLE_SIZE ==> keys[frames[j].stat] != 0
  }

  // ----- The table -----

  lemma {:induction false} KnownCount(keys: seq<nat>)
    requires forall i, j :: 0 <= i < j < |keys| && keys[i] != 0 ==> keys[i] != keys[j]
    ensures |Known(keys)| <= |keys| && (|Known(keys)| == |keys| <==> 0 !in keys)
  {
    if keys != [] {
      var front, x := keys[..|keys| - 1], keys[|keys| - 1];
      KnownCount(front);
      assert keys == front + [x];
      assert Known(keys) == if x == 0 then Known(front) else Known(front) + {x};
    }
  }

  /** The table is full when 65536 functions are known. */
  lemma RoomLeft(keys: Keys)
    requires TableOk(keys)
    ensures |Known(keys)| < 65536 <==> 0 in keys
  {
    hide Reached;
    KnownCount(keys);
  }

  lemma KnownAfter(keys: Keys, key: nat, x: nat)
    requires TableOk(keys) && key != 0
    ensures x in Known(Looked(keys, key)) <==> x in Known(keys) || (x == key && (key in keys || 0 in keys))
  {
    hide Search, TableOk, Reached;
    SearchRefinesMap(keys, key);
    var r := Search(keys, key, 0);
    if r.Free? {
      var now := keys[r.slot := key];
      assert now[r.slot] == key;
      if x in Known(keys) {
        var j :| 0 <= j < TABLE_SIZE && keys[j] == x;
        assert now[j] == x;
      }
      if x in Known(now) {
        var j :| 0 <= j < TABLE_SIZE && now[j] == x;
        assert j != r.slot ==> keys[j] == x;
      }
    }
  }

  /** The slot of a function looked up: the key's own for ever, or the shared row. */
  lemma SlotLooked(keys: Keys, key: nat)
    requires TableOk(keys) && key != 0
    ensures var i, now := StatOf(keys, key), Looked(keys, key);
            && (i == TABLE_SIZE <==> key !in keys && 0 !in keys)
            && (i < TABLE_SIZE ==> now[i] == key && (keys[i] == 0 || keys[i] == key))
            && (forall j :: 0 <= j < TABLE_SIZE && j != i ==> now[j] == keys[j])
            && (key in keys && i < TABLE_SIZE ==> keys[i] == key)
  {
    hide Search, TableOk, Reached;
    SearchRefinesMap(keys, key);
  }

  lemma OneSlot(keys: Keys, key: nat, j: nat)
    requires TableOk(keys) && key != 0 && j < TABLE_SIZE && keys[j] == key
    ensures StatOf(keys, key) == j
  {
    hide StatOf, Looked, Reached;
    SlotLooked(keys, key);
  }

  /** What a look-up does, in terms of the functions known. */
  lemma NameLooked(s: State, key: nat)
    requires TableOk(s.keys) && key != 0
    ensures var i, now, p := StatOf(s.keys, key), Looked(s.keys, key), View(s);
            && NameOf(now, i) == Named(p, key)
            && (i == TABLE_SIZE <==> Named(p, key) == 0)
            && Known(now) == if Named(p, key) == key then p.known + {key} else p.known
  {
    hide StatOf, Looked, TableOk, FibersOf;
    SlotLooked(s.keys, key);
    RoomLeft(s.keys);
    var now := Looked(s.keys, key);
    forall x
      ensures x in Known(now) <==> x in Known(s.keys) || (x == key && (key in s.keys || 0 in s.keys))
    {
      KnownAfter(s.keys, key, x);
    }
  }

  // ----- One step -----

  lemma ViewSane(s: State)
    requires Shaped(s)
    ensures Sane(View(s))
  {
  }

  lemma FibersReplaced(keys: Keys, stacks: seq<Stack>, i: nat, k: Stack)
    requires i < |stacks|
    ensures FibersOf(keys, stacks[i := k]) == FibersOf(keys, stacks)[i := FiberOf(keys, k)]
  {
  }

  /** Same open calls. */
  lemma SameFiber(s: State, r: State, k: Stack)
    requires Shaped(s) && Shaped(r) && r == WithStack(s, k).(stats := r.stats, root := r.root, hook := r.hook,
      events := r.events, last := r.last, gaps := r.gaps, flushed := r.flushed, switches := r.switches)
    requires |k.frames| == |Running(s).frames| && k.overflow == Running(s).overflow
    requires forall j :: 0 <= j < |k.frames| ==> k.frames[j].stat == Running(s).frames[j].stat
    requires Placed(s)
    ensures Placed(r) && View(r) == View(s).(last := r.last)
  {
    hide Known, NameOf;
    FibersReplaced(s.keys, s.stacks, s.current, k);
    assert FiberOf(s.keys, k).names == FiberOf(s.keys, Running(s)).names;
    assert PlacedOn(s.keys, k.frames) by {
      assert PlacedOn(s.keys, Running(s).frames);
    }
  }

  lemma ChargeTraced(s: State, now: nat)
    requires Shaped(s) && s.last <= now && Placed(s)
    ensures Placed(Charge(s, now)) && View(Charge(s, now)) == View(s)
  {
    var r := Charge(s, now);
    assert s.stacks[s.current := Running(s)] == s.stacks;
    SameFiber(s, r, Running(r));
  }

  lemma FinishTraced(s: State, t0: nat, t1: nat)
    requires Shaped(s) && t0 <= t1 && Placed(s)
    ensures Placed(FinishHook(s, t0, t1)) && View(FinishHook(s, t0, t1)) == View(s).(last := t1)
  {
    SameFiber(s, FinishHook(s, t0, t1), Running(FinishHook(s, t0, t1)));
  }

  /** Taking a free slot renames no open call. */
  lemma FibersKept(s: State, now: Keys)
    requires Shaped(s) && Placed(s)
    requires forall j :: 0 <= j < TABLE_SIZE && s.keys[j] != 0 ==> now[j] == s.keys[j]
    ensures FibersOf(now, s.stacks) == FibersOf(s.keys, s.stacks) && Placed(s.(keys := now))
  {
    forall k | 0 <= k < |s.stacks|
      ensures FiberOf(now, s.stacks[k]) == FiberOf(s.keys, s.stacks[k]) && PlacedOn(now, s.stacks[k].frames)
    {
      assert PlacedOn(s.keys, s.stacks[k].frames);
      assert FiberOf(now, s.stacks[k]).names == FiberOf(s.keys, s.stacks[k]).names;
    }
  }

  lemma PushTraced(s: State, key: nat, now: nat)
    requires Shaped(s) && Placed(s) && TableOk(s.keys) && key != 0 && s.last <= now
    ensures Placed(Push(s, key, now)) && View(Push(s, key, now)).(last := now) == Next(View(s), Entered(key, now, now))
  {
    hide StatOf, Looked, TableOk, CountCall, Known, FibersOf;
    var i, keys, r, k := StatOf(s.keys, key), Looked(s.keys, key), Push(s, key, now), Running(s);
    SlotLooked(s.keys, key);
    NameLooked(s, key);
    FibersKept(s, keys);
    FibersReplaced(keys, s.stacks, s.current, Running(r));
    assert PlacedOn(keys, k.frames);
    assert FiberOf(keys, k) == FiberOf(s.keys, k);
    if |k.frames| < MAX_DEPTH {
      assert FiberOf(keys, Running(r)).names == FiberOf(keys, k).names + [NameOf(keys, i)];
    } else {
      assert FiberOf(keys, Running(r)).names == FiberOf(keys, k).names;
    }
  }

  /** The running stack keeps its first `n` frames. */
  predicate Shortened(s: State, r: State, n: nat)
    requires Shaped(s) && Shaped(r)
  {
    && r.keys == s.keys && r.current == s.current && r.last == s.last && n <= |Running(s).frames|
    && r.stacks == s.stacks[s.current := Running(s).(frames := Running(s).frames[..n])]
  }

  lemma FinalizeShortens(s: State, now: nat)
    requires Shaped(s) && Running(s).frames != []
    ensures Shortened(s, Finalize(s, now), |Running(s).frames| - 1)
  {
  }

  lemma {:induction false} UnwindShortens(s: State, now: nat, depth: nat)
    requires Shaped(s) && depth <= |Running(s).frames|
    ensures Shortened(s, Unwind(s, now, depth), depth)
    decreases |Running(s).frames|
  {
    if |Running(s).frames| <= depth {
      assert Running(s).frames[..depth] == Running(s).frames;
      assert s.stacks[s.current := Running(s)] == s.stacks;
    } else {
      FinalizeShortens(s, now);
      var ended := Finalize(s, now);
      UnwindShortens(ended.(unwound := ended.unwound + 1), now, depth);
      hide Finalize;
      assert Running(s).frames[..|Running(s).frames| - 1][..depth] == Running(s).frames[..depth];
    }
  }

  lemma CutIs(names: seq<nat>, key: nat, n: nat)
    requires n < |names| && names[n] == key && forall j :: n < j < |names| ==> names[j] != key
    ensures Cut(names, key) == names[..n]
  {
    assert |Cut(names, key)| >= n;
  }

  /** Ending the innermost call of the key and those above it. */
  lemma ShortenedTraced(s: State, r: State, key: nat, n: nat)
    requires Shaped(s) && Shaped(r) && Placed(s) && Shortened(s, r, n) && Running(s).overflow == 0
    requires n < |Running(s).frames| && KeyOf(s, Running(s).frames[n]) == key
    requires forall j :: n < j < |Running(s).frames| ==> KeyOf(s, Running(s).frames[j]) != key
    ensures Placed(r) && s.last <= s.last && View(r) == Next(View(s), Exited(key, s.last, s.last))
  {
    var names := FiberOf(s.keys, Running(s)).names;
    hide Known, FibersOf, FiberOf;
    FibersReplaced(s.keys, s.stacks, s.current, Running(r));
    CutIs(names, key, n);
    assert FiberOf(s.keys, Running(r)).names == names[..n];
    assert PlacedOn(s.keys, Running(s).frames);
  }

  lemma PopTraced(s: State, key: nat, now: nat)
    requires Shaped(s) && Placed(s) && s.last <= now
    ensures Placed(Pop(s, key, now)) && View(Pop(s, key, now)).(last := now) == Next(View(s), Exited(key, now, now))
  {
    hide Finalize, Unwind, Known, FibersOf, FiberOf, Shortened;
    var k, n := Running(s), |Running(s).frames|;
    if k.overflow > 0 {
      FibersReplaced(s.keys, s.stacks, s.current, k.(overflow := k.overflow - 1));
      assert FiberOf(s.keys, k.(overflow := k.overflow - 1)).names == FiberOf(s.keys, k).names;
      assert PlacedOn(s.keys, k.frames);
    } else if n > 0 && KeyOf(s, k.frames[n - 1]) == key {
      FinalizeShortens(s, now);
      ShortenedTraced(s, Finalize(s, now), key, n - 1);
    } else {
      var i := LastMatch(s, k.frames, key, n);
      if i >= 0 {
        UnwindShortens(s, now, i);
        ShortenedTraced(s, Unwind(s, now, i), key, i);
      } else {
        assert FiberOf(s.keys, k).names == View(s).fibers[s.current].names;
        assert key !in FiberOf(s.keys, k).names;
        assert View(s).fibers[s.current := View(s).fibers[s.current]] == View(s).fibers;
      }
    }
  }

  lemma SwitchTraced(s: State, leave: nat, enter: nat, target: int)
    requires Shaped(s) && Placed(s) && s.last <= leave <= enter && target < |s.stacks|
    ensures Placed(Switch(s, leave, enter, target))
    ensures View(Switch(s, leave, enter, target)) == Next(View(s), Switched(leave, enter, target))
  {
    var c := Charge(s, leave);
    ChargeTraced(s, leave);
    var l := Leave(c, leave, enter);
    SameFiber(c, l, Running(l));
    hide Charge, Known;
    var r := Resume(l, enter, target);
    if target < 0 {
      assert FibersOf(l.keys, r.stacks) == FibersOf(l.keys, l.stacks) + [Fiber([], 0)];
    } else {
      SameFiber(l.(current := target), r, Running(r));
    }
  }

  lemma ReportTraced(s: State, now: nat, after: nat)
    requires Shaped(s) && Placed(s) && s.last <= now <= after
    ensures Placed(Report(s, now, after)) && View(Report(s, now, after)) == View(s).(last := after)
  {
    ChargeTraced(s, now);
    hide Charge, SelfOf;
    SameFiber(Charge(s, now), Report(s, now, after), Running(Report(s, now, after)));
  }

  /** The trace follows every event. */
  lemma StepTraced(s: State, e: Event)
    requires Shaped(s) && Timed(s, e) && Placed(s) && TableOk(s.keys)
    ensures Placed(Step(s, e)) && Happens(View(s), e) && View(Step(s, e)) == Next(View(s), e)
  {
    hide Charge, Push, Pop, FinishHook, Report, Switch, Placed, TableOk, Known, Cut;
    match e {
      case Entered(key, t0, t1) =>
        ChargeTraced(s, t0);
        ChargeKept(s, t0);
        PushTraced(Charge(s, t0), key, t0);
        FinishTraced(Push(Charge(s, t0), key, t0), t0, t1);
      case Exited(key, t0, t1) =>
        ChargeTraced(s, t0);
        PopTraced(Charge(s, t0), key, t0);
        FinishTraced(Pop(Charge(s, t0), key, t0), t0, t1);
      case Switched(leave, enter, target) =>
        SwitchTraced(s, leave, enter, target);
      case Reported(now, after) =>
        ReportTraced(s, now, after);
    }
  }

  // ----- The rows -----

  function RowOf(e: Stat): Row {
    Row(e.calls, e.childCalls, e.self)
  }

  /** A finished activation changes no row. */
  lemma {:induction false} UnwindRow(s: State, now: nat, depth: nat, i: nat)
    requires Shaped(s) && i <= TABLE_SIZE
    ensures RowOf(Unwind(s, now, depth).stats[i]) == RowOf(s.stats[i])
    decreases |Running(s).frames|
  {
    if |Running(s).frames| > depth {
      FinalizeRow(s, now, i);
      var ended := Finalize(s, now);
      UnwindRow(ended.(unwound := ended.unwound + 1), now, depth, i);
    }
  }

  lemma FinalizeRow(s: State, now: nat, i: nat)
    requires Shaped(s) && Running(s).frames != [] && i <= TABLE_SIZE
    ensures RowOf(Finalize(s, now).stats[i]) == RowOf(s.stats[i])
  {
  }

  lemma PopRow(s: State, key: nat, now: nat, i: nat)
    requires Shaped(s) && i <= TABLE_SIZE
    ensures RowOf(Pop(s, key, now).stats[i]) == RowOf(s.stats[i])
  {
    hide Finalize, Unwind, KeyOf, RowOf;
    var k := Running(s);
    if k.frames != [] {
      FinalizeRow(s, now, i);
      var j := LastMatch(s, k.frames, key, |k.frames|);
      if j >= 0 {
        UnwindRow(s, now, j, i);
      }
    }
  }

  /** What an event adds to row `i` of the table, in the table's own terms. */
  lemma StepRow(s: State, e: Event, i: nat)
    requires Shaped(s) && Timed(s, e) && i <= TABLE_SIZE
    ensures var w, top := RowOf(s.stats[i]), Is(OnTop, s, i);
            RowOf(Step(s, e).stats[i]) == if e.Reported? && i < TABLE_SIZE then Row(0, 0, 0)
        else Row(w.calls + (if e.Entered? && StatOf(s.keys, e.key) == i then 1 else 0),
                 w.childCalls + (if e.Entered? && top then 1 else 0), w.self + (if top then Begin(e) - s.last else 0))
  {
    ChargeRow(s, Begin(e), i);
    hide Charge, StatOf, Looked, RowOf, Pop, Push, SelfOf, AddInside;
    match e {
      case Entered(key, t0, t1) =>
        PushRow(Charge(s, t0), key, t0, i);
        LaterRow(Push(Charge(s, t0), key, t0), t0, t1, i);
      case Exited(key, t0, t1) =>
        PopRow(Charge(s, t0), key, t0, i);
        LaterRow(Pop(Charge(s, t0), key, t0), t0, t1, i);
      case Switched(leave, enter, target) =>
      case Reported(now, after) =>
        ClearedRow(s, now, after, i);
    }
  }

  lemma ChargeRow(s: State, now: nat, i: nat)
    requires Shaped(s) && s.last <= now && i <= TABLE_SIZE
    ensures var w := RowOf(s.stats[i]);
            RowOf(Charge(s, now).stats[i]) == w.(self := w.self + if Is(OnTop, s, i) then now - s.last else 0)
    ensures Charge(s, now).keys == s.keys && (Is(OnTop, Charge(s, now), i) <==> Is(OnTop, s, i))
  {
  }

  lemma PushRow(s: State, key: nat, now: nat, i: nat)
    requires Shaped(s) && i <= TABLE_SIZE
    ensures var w := RowOf(s.stats[i]);
            RowOf(Push(s, key, now).stats[i]) == w.(calls := w.calls + (if StatOf(s.keys, key) == i then 1 else 0),
                childCalls := w.childCalls + if Is(OnTop, s, i) then 1 else 0)
  {
    hide StatOf, Looked;
  }

  lemma LaterRow(s: State, t0: nat, t1: nat, i: nat)
    requires Shaped(s) && t0 <= t1 && i <= TABLE_SIZE
    ensures RowOf(FinishHook(s, t0, t1).stats[i]) == RowOf(s.stats[i])
  {
  }

  lemma ClearedRow(s: State, now: nat, after: nat, i: nat)
    requires Shaped(s) && s.last <= now <= after && i <= TABLE_SIZE
    ensures RowOf(Report(s, now, after).stats[i])
         == if i < TABLE_SIZE then Row(0, 0, 0) else RowOf(Charge(s, now).stats[i])
  {
    hide Charge, SelfOf;
  }

  /** The frame on top is the call on top. */
  lemma TopIs(s: State, i: nat)
    requires Shaped(s) && Placed(s) && TableOk(s.keys) && i <= TABLE_SIZE
    ensures i < TABLE_SIZE && s.keys[i] == 0 ==> !Is(OnTop, s, i)
    ensures i < TABLE_SIZE ==> s.keys[i] == 0 || (Is(OnTop, s, i) <==> Top(View(s), s.keys[i]))
    ensures i == TABLE_SIZE ==> (Is(OnTop, s, i) <==> Top(View(s), 0))
  {
    ViewSane(s);
    hide Known, Reached;
    assert PlacedOn(s.keys, Running(s).frames);
    assert Now(View(s)) == FiberOf(s.keys, Running(s));
  }

  /** A function not known yet has no calls and no time. */
  lemma {:induction false} NotKnownYet(now: nat, events: seq<Event>, name: nat, cleared: bool)
    requires name != 0 && name !in Traced(now, events).known
    ensures Window(now, events, name, cleared) == Row(0, 0, 0)
  {
    hide Next;
    if events != [] {
      var front, e := events[..|events| - 1], events[|events| - 1];
      var p := Traced(now, front);
      NotKnownYet(now, front, name, cleared);
      if Happens(p, e) {
        if e.Entered? {
          KnownEntered(p, e);
        }
        assert forall x :: x in Now(p).names ==> x == 0 || x in p.known;
      }
    }
  }

  lemma KnownEntered(p: Trace, e: Event)
    requires Sane(p) && Happens(p, e) && e.Entered?
    ensures Named(p, e.key) != 0 ==> Named(p, e.key) in Next(p, e).known
  {
  }

  /** A row of the table is the window's row of its function; a row nobody has taken is empty. */
  predicate RowHolds(s: State, now: nat, events: seq<Event>, i: nat)
    requires Shaped(s) && i <= TABLE_SIZE
  {
    RowOf(s.stats[i]) == if i < TABLE_SIZE && s.keys[i] == 0 then Row(0, 0, 0)
        else Window(now, events, NameOf(s.keys, i), i < TABLE_SIZE)
  }

  /** The keys after an event. */
  lemma StepKeys(s: State, e: Event)
    requires Shaped(s) && Timed(s, e)
    ensures Step(s, e).keys == if e.Entered? then Looked(s.keys, e.key) else s.keys
  {
    match e {
      case Entered(key, t0, t1) => hide Looked, StatOf, CountCall;
      case Exited(key, t0, t1) =>
        hide Pop;
        PopKeys(Charge(s, t0), key, t0);
      case Switched(leave, enter, target) =>
      case Reported(now, after) => hide SelfOf;
    }
  }

  lemma PopKeys(s: State, key: nat, now: nat)
    requires Shaped(s)
    ensures Pop(s, key, now).keys == s.keys
  {
    hide Unwind;
    var k := Running(s);
    if k.frames != [] {
      var i := LastMatch(s, k.frames, key, |k.frames|);
      if i >= 0 {
        UnwindShortens(s, now, i);
      }
    }
  }

  lemma WindowAdds(now: nat, front: seq<Event>, e: Event, name: nat, cleared: bool)
    requires Happens(Traced(now, front), e)
    ensures Window(now, front + [e], name, cleared)
         == if e.Reported? && cleared then Row(0, 0, 0)
            else Added(Window(now, front, name, cleared), Traced(now, front), e, name)
  {
    assert (front + [e])[..|front|] == front;
    hide Happens, Traced, Added;
  }

  /** The row of a function that was in the table before. */
  lemma TakenRow(s: State, e: Event, now: nat, front: seq<Event>, i: nat)
    requires Shaped(s) && Timed(s, e) && i <= TABLE_SIZE && Placed(s) && TableOk(s.keys)
    requires RowHolds(s, now, front, i) && Traced(now, front) == View(s) && Happens(View(s), e)
    requires i < TABLE_SIZE ==> s.keys[i] != 0
    ensures RowHolds(Step(s, e), now, front + [e], i)
  {
    var name := NameOf(s.keys, i);
    ViewSane(s);
    StepRow(s, e, i);
    StepKeys(s, e);
    TopIs(s, i);
    WindowAdds(now, front, e, name, i < TABLE_SIZE);
    if e.Entered? {
      EnteredRow(s, e.key, now, front, i);
    }
    hide Step, StatOf, Looked, TableOk, Is, Top, Shaped, Timed, Placed, Sane, Traced, Known, FibersOf, Named, RowOf;
    hide Happens, Window;
  }

  /** The row of a slot that was free. */
  lemma FreeRow(s: State, e: Event, now: nat, front: seq<Event>, i: nat)
    requires Shaped(s) && Timed(s, e) && i < TABLE_SIZE && Placed(s) && TableOk(s.keys) && s.keys[i] == 0
    requires RowHolds(s, now, front, i) && Traced(now, front) == View(s) && Happens(View(s), e)
    ensures RowHolds(Step(s, e), now, front + [e], i)
  {
    var name := NameOf(Step(s, e).keys, i);
    ViewSane(s);
    StepRow(s, e, i);
    StepKeys(s, e);
    TopIs(s, i);
    WindowAdds(now, front, e, name, true);
    if e.Entered? {
      EnteredRow(s, e.key, now, front, i);
    }
    hide Step, StatOf, Looked, TableOk, Is, Top, Shaped, Timed, Placed, Sane, Traced, Known, FibersOf, Named, RowOf;
    hide Happens, Window;
  }

  /** Entering a function counts for its row, which is empty until then. */
  lemma EnteredRow(s: State, key: nat, now: nat, front: seq<Event>, i: nat)
    requires Shaped(s) && i <= TABLE_SIZE && TableOk(s.keys) && key != 0 && Traced(now, front) == View(s)
    ensures NameOf(s.keys, i) != 0 || i == TABLE_SIZE ==>
        NameOf(Looked(s.keys, key), i) == NameOf(s.keys, i)
        && (StatOf(s.keys, key) == i <==> Named(View(s), key) == NameOf(s.keys, i))
    ensures NameOf(s.keys, i) == 0 && i < TABLE_SIZE ==>
        var name := NameOf(Looked(s.keys, key), i);
        && (name == 0 ==> StatOf(s.keys, key) != i)
        && (name != 0 ==>
              && StatOf(s.keys, key) == i && name == key == Named(View(s), key)
              && Sane(View(s)) && !Top(View(s), name) && Window(now, front, name, true) == Row(0, 0, 0))
  {
    ViewSane(s);
    hide StatOf, Looked, TableOk, Traced, Window, Known, FibersOf;
    SlotLooked(s.keys, key);
    NameLooked(s, key);
    if i < TABLE_SIZE && s.keys[i] == key {
      OneSlot(s.keys, key, i);
    }
    if i < TABLE_SIZE && s.keys[i] == 0 && StatOf(s.keys, key) == i {
      NotKnown(s, key, i);
      NotKnownYet(now, front, key, true);
    }
  }

  lemma NotKnown(s: State, key: nat, i: nat)
    requires Shaped(s) && TableOk(s.keys) && key != 0 && i < TABLE_SIZE && s.keys[i] == 0 && StatOf(s.keys, key) == i
    ensures key !in View(s).known
  {
    hide StatOf, TableOk, FibersOf;
    if key in s.keys {
      var j :| 0 <= j < TABLE_SIZE && s.keys[j] == key;
      OneSlot(s.keys, key, j);
    }
  }

  // ----- Runs -----

  lemma StartTraced(now: nat, i: nat)
    requires i <= TABLE_SIZE
    ensures Placed(StartState(now)) && View(StartState(now)) == Traced(now, []) && RowHolds(StartState(now), now, [], i)
  {
    assert FibersOf(StartState(now).keys, StartState(now).stacks) == [Fiber([], 0)];
  }

  lemma {:induction false} RunTraced(now: nat, events: seq<Event>, i: nat)
    requires i <= TABLE_SIZE
    ensures var s := Run(StartState(now), events);
            Placed(s) && TableOk(s.keys) && View(s) == Traced(now, events) && RowHolds(s, now, events, i)
  {
    hide Step, Timed, StartState, RowHolds, Placed, View, Next, StacksOk, Conserved, ActiveOk, TableOk;
    RunKeeps(now, events);
    if events == [] {
      StartTraced(now, i);
    } else {
      var front, e := events[..|events| - 1], events[|events| - 1];
      RunTraced(now, front, i);
      RunKeeps(now, front);
      var s := Run(StartState(now), front);
      assert front + [e] == events;
      SameTimes(s, e);
      if Timed(s, e) {
        StepTraced(s, e);
        if i < TABLE_SIZE && s.keys[i] == 0 {
          FreeRow(s, e, now, front, i);
        } else {
          TakenRow(s, e, now, front, i);
        }
      } else {
        NothingHappens(s, now, front, e, i);
      }
    }
  }

  lemma SameTimes(s: State, e: Event)
    requires Shaped(s)
    ensures Timed(s, e) <==> Happens(View(s), e)
  {
  }

  lemma NothingHappens(s: State, now: nat, front: seq<Event>, e: Event, i: nat)
    requires Shaped(s) && i <= TABLE_SIZE && RowHolds(s, now, front, i)
    requires Traced(now, front) == View(s) && !Happens(View(s), e)
    ensures RowHolds(s, now, front + [e], i)
  {
    assert (front + [e])[..|front|] == front;
    hide Happens, View;
  }

  /** The profile is the trace's: over every run, the shadow stacks are the open calls of every fiber, and the row of
      every function met has, since the last report, as many calls as the function was entered, as many child calls as
      functions were entered with it on top, and as much self time as it was on top. Functions that found the table full
      share one row, which no report clears. */
  lemma ProfileIsTrue(now: nat, events: seq<Event>)
    ensures var s, p := Run(StartState(now), events), Traced(now, events);
            && View(s) == p
            && (forall i :: 0 <= i < TABLE_SIZE && s.keys[i] != 0 ==>
                  RowOf(s.stats[i]) == Window(now, events, s.keys[i], true))
            && (forall i :: 0 <= i < TABLE_SIZE && s.keys[i] == 0 ==> RowOf(s.stats[i]) == Row(0, 0, 0))
            && RowOf(s.stats[TABLE_SIZE]) == Window(now, events, 0, false)
            && (forall key :: key in p.known ==> StatOf(s.keys, key) < TABLE_SIZE && s.keys[StatOf(s.keys, key)] == key)
  {
    hide Run, StartState, View, RowOf, Traced, Window, Placed, TableOk, StatOf;
    var s, p := Run(StartState(now), events), Traced(now, events);
    RunTraced(now, events, TABLE_SIZE);
    forall i | 0 <= i < TABLE_SIZE
      ensures RowOf(s.stats[i]) == if s.keys[i] == 0 then Row(0, 0, 0) else Window(now, events, s.keys[i], true)
    {
      RunTraced(now, events, i);
    }
    forall key | key in p.known
      ensures StatOf(s.keys, key) < TABLE_SIZE && s.keys[StatOf(s.keys, key)] == key
    {
      KnownSlot(s, key);
    }
  }

  lemma KnownSlot(s: State, key: nat)
    requires TableOk(s.keys) && key in View(s).known
    ensures StatOf(s.keys, key) < TABLE_SIZE && s.keys[StatOf(s.keys, key)] == key
  {
    hide StatOf, TableOk, FibersOf;
    SlotLooked(s.keys, key);
  }

  /** What a report prints: the row of the window it closes, up to the moment it begins. */
  lemma ReportIsTrue(now: nat, events: seq<Event>, at: nat, i: nat)
    requires i < TABLE_SIZE && Run(StartState(now), events).keys[i] != 0
    requires Run(StartState(now), events).last <= at && Traced(now, events).last <= at
    ensures var s, p := Run(StartState(now), events), Traced(now, events);
            RowOf(Charge(s, at).stats[i]) == Added(Window(now, events, s.keys[i], true), p, Reported(at, at), s.keys[i])
  {
    RunTraced(now, events, i);
    var s := Run(StartState(now), events);
    TopIs(s, i);
    hide Run, StartState, View, Traced, Window, Placed, TableOk, StatOf, Top;
  }

  /** A function has a frame on the running stack if and only if one of its calls is open there. */
  lemma AnywhereIsOpen(s: State, i: nat)
    requires Shaped(s) && Placed(s) && i < TABLE_SIZE && s.keys[i] != 0 && TableOk(s.keys)
    ensures Sane(View(s)) && (Is(Anywhere, s, i) <==> s.keys[i] in Now(View(s)).names)
  {
    ViewSane(s);
    var frames := Running(s).frames;
    HasFrame(frames, i, false);
    hide Frames, Known, Reached;
    var names := Now(View(s)).names;
    if s.keys[i] in names {
      var j :| 0 <= j < |names| && names[j] == s.keys[i];
      assert frames[j].stat == i;
    }
    if Is(Anywhere, s, i) {
      var j :| 0 <= j < |frames| && frames[j].stat == i;
      assert names[j] == s.keys[i];
    }
  }
}
