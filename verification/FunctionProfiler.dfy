/** The exact function profiler (ps5/runtime/function_profiler_ps5.cpp): shadow stacks of fibers, and where every tick
    of the time-stamp counter is charged. */
module FunctionProfiler {
  import opened ProbeTable

  const MAX_DEPTH: nat := 2048

  /** Totals of one function in the current window; `active` counts its frames on all stacks. */
  datatype Stat = Stat(calls: nat, childCalls: nat, self: nat, inclusive: nat, active: nat)

  /** An activation. `inside` is a history: the self time charged, to any function, while it is on the running stack. */
  datatype Frame = Frame(stat: nat, enter: nat, excludedAtEnter: nat, outermost: bool, inside: nat)

  /** A fiber's shadow stack. `excluded` is hook time plus time switched out. */
  datatype Stack = Stack(excluded: nat, leftAt: nat, overflow: nat, frames: seq<Frame>)

  /** One thread's profile. Statistic `TABLE_SIZE` is the one shared by keys that no longer fit. The last three fields
      are histories: time between fibers and in reports, self time of past windows, and the first counter value. */
  datatype State = State(
    keys: Keys, stats: seq<Stat>, stacks: seq<Stack>, current: nat, last: nat,
    root: nat, hook: nat, events: nat, unmatched: nat, unwound: nat, overflows: nat, switches: nat,
    gaps: nat, flushed: nat, start: nat)

  predicate Shaped(s: State) {
    && |s.stats| == TABLE_SIZE + 1 && s.current < |s.stacks|
    && forall k :: 0 <= k < |s.stacks| ==>
         |s.stacks[k].frames| <= MAX_DEPTH && forall i :: 0 <= i < |s.stacks[k].frames| ==>
             s.stacks[k].frames[i].stat <= TABLE_SIZE
  }

  function Running(s: State): Stack
    requires Shaped(s)
  {
    s.stacks[s.current]
  }

  function WithStack(s: State, k: Stack): State
    requires Shaped(s)
  {
    s.(stacks := s.stacks[s.current := k])
  }

  function TopStat(k: Stack): nat
    requires k.frames != []
  {
    k.frames[|k.frames| - 1].stat
  }

  // ----- The hooks -----

  function AddInside(frames: seq<Frame>, delta: nat): (r: seq<Frame>)
    ensures |r| == |frames|
  {
    seq(|frames|, i requires 0 <= i < |frames| => frames[i].(inside := frames[i].inside + delta))
  }

  function AddSelf(stats: seq<Stat>, i: nat, delta: nat): (r: seq<Stat>)
    requires i < |stats|
    ensures |r| == |stats|
  {
    stats[i := stats[i].(self := stats[i].self + delta)]
  }

  /** `charge`: the time since the last event belongs to the function on top. */
  function Charge(s: State, now: nat): (r: State)
    requires Shaped(s) && s.last <= now
    ensures Shaped(r) && |r.stacks| == |s.stacks|
  {
    var k, delta := Running(s), now - s.last;
    if k.frames == [] then s.(root := s.root + delta)
    else
      WithStack(s.(stats := AddSelf(s.stats, TopStat(k), delta)), k.(frames := AddInside(k.frames, delta)))
  }

  /** `find`. */
  function StatOf(keys: Keys, key: nat): (i: nat)
    ensures i <= TABLE_SIZE
  {
    match Search(keys, key, 0)
    case At(slot) => slot
    case Free(slot) => slot
    case Full => TABLE_SIZE
  }

  function CountCall(stats: seq<Stat>, i: nat, k: Stack): (r: seq<Stat>)
    requires |stats| == TABLE_SIZE + 1 && i <= TABLE_SIZE && (k.frames != [] ==> TopStat(k) <= TABLE_SIZE)
    ensures |r| == |stats|
  {
    var called := stats[i := stats[i].(calls := stats[i].calls + 1)];
    if k.frames == [] then called
    else called[TopStat(k) := called[TopStat(k)].(childCalls := called[TopStat(k)].childCalls + 1)]
  }

  /** `push`, after charging: a new activation, or one more call beyond the depth of the stack. */
  function Push(s: State, key: nat, now: nat): (r: State)
    requires Shaped(s)
    ensures Shaped(r)
  {
    var k, i := Running(s), StatOf(s.keys, key);
    var stats := CountCall(s.stats, i, k);
    var found := s.(keys := Looked(s.keys, key));
    if |k.frames| < MAX_DEPTH then
      WithStack(found.(stats := stats[i := stats[i].(active := stats[i].active + 1)]),
                k.(frames := k.frames + [Frame(i, now, k.excluded, stats[i].active == 0, 0)]))
    else WithStack(found.(stats := stats, overflows := s.overflows + 1), k.(overflow := k.overflow + 1))
  }

  function Minus(a: int, b: int): nat {
    if a >= b then a - b else 0
  }

  /** `finalize`: the top activation ends; an outermost one is credited its inclusive time. */
  function Finalize(s: State, now: nat): (r: State)
    requires Shaped(s) && Running(s).frames != []
    ensures Shaped(r) && |Running(r).frames| == |Running(s).frames| - 1
  {
    var k := Running(s);
    var f := k.frames[|k.frames| - 1];
    var stat := s.stats[f.stat].(active := Minus(s.stats[f.stat].active, 1));
    var ended := if f.outermost then stat.(inclusive :=
                                           stat.inclusive + Minus(now - f.enter, k.excluded - f.excludedAtEnter))
        else stat;
    WithStack(s.(stats := s.stats[f.stat := ended]), k.(frames := k.frames[..|k.frames| - 1]))
  }

  function KeyOf(s: State, f: Frame): nat {
    if f.stat < TABLE_SIZE then s.keys[f.stat] else 0
  }

  /** The innermost of the first `n` activations that has the key. */
  function LastMatch(s: State, frames: seq<Frame>, key: nat, n: nat): (r: int)
    requires n <= |frames|
    ensures -1 <= r < n && (r >= 0 ==> KeyOf(s, frames[r]) == key)
    ensures forall i :: r < i < n ==> KeyOf(s, frames[i]) != key
  {
    if n == 0 then -1 else if KeyOf(s, frames[n - 1]) == key then n - 1 else LastMatch(s, frames, key, n - 1)
  }

  /** Ends activations until `depth` are left, counting them as unwound. */
  function Unwind(s: State, now: nat, depth: nat): (r: State)
    requires Shaped(s)
    ensures Shaped(r)
    decreases |Running(s).frames|
  {
    if |Running(s).frames| <= depth then s
    else
      var ended := Finalize(s, now);
      Unwind(ended.(unwound := ended.unwound + 1), now, depth)
  }

  /** `pop`, after charging: ends the matching activation, whatever was abandoned above it first. */
  function Pop(s: State, key: nat, now: nat): (r: State)
    requires Shaped(s)
    ensures Shaped(r)
  {
    var k := Running(s);
    if k.overflow > 0 then WithStack(s, k.(overflow := k.overflow - 1))
    else if k.frames != [] && KeyOf(s, k.frames[|k.frames| - 1]) == key then Finalize(s, now)
    else
      var i := LastMatch(s, k.frames, key, |k.frames|);
      if i >= 0 then Unwind(s, now, i) else s.(unmatched := s.unmatched + 1)
  }

  /** `finish_hook`: the hook's own time is nobody's. */
  function FinishHook(s: State, t0: nat, t1: nat): (r: State)
    requires Shaped(s) && t0 <= t1
    ensures Shaped(r)
  {
    var k := Running(s);
    WithStack(s.(hook := s.hook + (t1 - t0), events := s.events + 1, last := t1),
              k.(excluded := k.excluded + (t1 - t0)))
  }

  /** `mkw_fprof_fiber_leave`, after charging. */
  function Leave(s: State, leave: nat, enter: nat): (r: State)
    requires Shaped(s) && leave <= enter
    ensures Shaped(r) && |r.stacks| == |s.stacks|
  {
    WithStack(s, Running(s).(leftAt := leave)).(switches := s.switches + 1, last := enter,
                                                gaps := s.gaps + (enter - leave))
  }

  /** `mkw_fprof_fiber_enter`: the fiber of stack `target`, or a new one when it is negative. */
  function Resume(s: State, enter: nat, target: int): (r: State)
    requires Shaped(s) && target < |s.stacks|
    ensures Shaped(r)
  {
    if target < 0 then s.(stacks := s.stacks + [Stack(0, 0, 0, [])], current := |s.stacks|)
    else
      var k := s.stacks[target];
      s.(current := target, stacks := s.stacks[target := k.(excluded := k.excluded + Minus(enter, k.leftAt))])
  }

  /** A fiber switch: one fiber is left and another entered. */
  function Switch(s: State, leave: nat, enter: nat, target: int): (r: State)
    requires Shaped(s) && s.last <= leave <= enter && target < |s.stacks|
    ensures Shaped(r)
  {
    Resume(Leave(Charge(s, leave), leave, enter), enter, target)
  }

  function Cleared(e: Stat): Stat {
    e.(calls := 0, childCalls := 0, self := 0, inclusive := 0)
  }

  /** `report`: closes the window and starts the next one; the time it takes is nobody's. */
  function Report(s: State, now: nat, after: nat): (r: State)
    requires Shaped(s) && s.last <= now <= after
    ensures Shaped(r)
  {
    var charged := Charge(s, now);
    var k := Running(charged);
    WithStack(
      charged.(stats := seq(TABLE_SIZE + 1, i requires 0 <= i <= TABLE_SIZE => if i < TABLE_SIZE
                            then Cleared(charged.stats[i]) else charged.stats[i]),
               flushed := s.flushed + SelfOf(charged.stats, TABLE_SIZE), last := after, gaps := s.gaps + (after - now)),
      k.(excluded := k.excluded + (after - now)))
  }

  /** Self time of the first `n` functions. */
  function SelfOf(stats: seq<Stat>, n: nat): nat
    requires n <= |stats|
  {
    if n == 0 then 0 else SelfOf(stats, n - 1) + stats[n - 1].self
  }

  // ----- Conservation and inclusive time -----

  /** On a stack that is up to date at `at`, the time since a frame was entered, less what was excluded since, is the
      self time charged inside it. */
  predicate FrameOk(f: Frame, excluded: nat, at: nat) {
    f.inside == (at - f.enter) - (excluded - f.excludedAtEnter)
  }

  predicate StackOk(k: Stack, at: nat) {
    forall i :: 0 <= i < |k.frames| ==> FrameOk(k.frames[i], k.excluded, at)
  }

  /** The running stack is up to date at `at`; every other one was when its fiber was left. */
  predicate StacksOk(s: State, at: nat)
    requires Shaped(s)
  {
    forall k :: 0 <= k < |s.stacks| ==>
      (if k == s.current then StackOk(s.stacks[k], at)
       else s.stacks[k].leftAt <= at && StackOk(s.stacks[k], s.stacks[k].leftAt))
  }

  /** Every tick since the start is self time of one function, time outside all functions, hook time, or time between
      fibers and in reports. */
  predicate Conserved(s: State, at: nat)
    requires Shaped(s)
  {
    SelfOf(s.stats, TABLE_SIZE + 1) + s.flushed + s.root + s.hook + s.gaps == at - s.start
  }

  /** Frames of one function on a stack, all of them or the outermost ones. */
  function Frames(frames: seq<Frame>, stat: nat, outer: bool): nat {
    if frames == [] then 0
    else
      var f := frames[|frames| - 1];
      Frames(frames[..|frames| - 1], stat, outer) + if f.stat == stat && (outer ==> f.outermost) then 1 else 0
  }

  function AllFrames(stacks: seq<Stack>, stat: nat, outer: bool): nat {
    if stacks == [] then 0
    else AllFrames(stacks[..|stacks| - 1], stat, outer) + Frames(stacks[|stacks| - 1].frames, stat, outer)
  }

  /** A function's `active` is the number of its frames on all stacks, and at most one of them counts as outermost. */
  predicate ActiveOk(s: State)
    requires Shaped(s)
  {
    forall i :: 0 <= i <= TABLE_SIZE ==>
        s.stats[i].active == AllFrames(s.stacks, i, false) && AllFrames(s.stacks, i, true) <= 1
  }

  predicate Inv(s: State, at: nat) {
    Shaped(s) && StacksOk(s, at) && Conserved(s, at) && ActiveOk(s) && TableOk(s.keys) && s.start <= at
  }

  lemma {:induction false} SelfAdded(stats: seq<Stat>, i: nat, delta: nat, n: nat)
    requires i < |stats| && n <= |stats|
    ensures SelfOf(AddSelf(stats, i, delta), n) == SelfOf(stats, n) + if i < n then delta else 0
  {
    if n > 0 {
      SelfAdded(stats, i, delta, n - 1);
    }
  }

  lemma {:induction false} SelfSame(a: seq<Stat>, b: seq<Stat>, n: nat)
    requires n <= |a| == |b| && forall i :: 0 <= i < n ==> a[i].self == b[i].self
    ensures SelfOf(a, n) == SelfOf(b, n)
  {
    if n > 0 {
      SelfSame(a, b, n - 1);
    }
  }

  lemma {:induction false} FramesSame(a: seq<Frame>, b: seq<Frame>, stat: nat, outer: bool)
    requires |a| == |b| && forall i :: 0 <= i < |a| ==> a[i].stat == b[i].stat && a[i].outermost == b[i].outermost
    ensures Frames(a, stat, outer) == Frames(b, stat, outer)
  {
    if a != [] {
      FramesSame(a[..|a| - 1], b[..|b| - 1], stat, outer);
    }
  }

  /** Replacing one stack. */
  lemma {:induction false} AllFramesReplaced(stacks: seq<Stack>, k: nat, now: Stack, stat: nat, outer: bool)
    requires k < |stacks|
    ensures AllFrames(stacks[k := now], stat, outer) + Frames(stacks[k].frames, stat, outer)
         == AllFrames(stacks, stat, outer) + Frames(now.frames, stat, outer)
  {
    hide Frames;
    var last := |stacks| - 1;
    if k < last {
      AllFramesReplaced(stacks[..last], k, now, stat, outer);
      assert stacks[k := now][..last] == stacks[..last][k := now];
    } else {
      assert stacks[k := now][..last] == stacks[..last];
    }
  }

  /** Same frames, up to their histories. */
  predicate SameFrames(a: Stack, b: Stack) {
    |a.frames| == |b.frames|
    && forall i :: 0 <= i < |a.frames| ==>
        a.frames[i].stat == b.frames[i].stat && a.frames[i].outermost == b.frames[i].outermost
  }

  lemma ActiveKept(s: State, now: State, k: Stack)
    requires Shaped(s) && Shaped(now) && ActiveOk(s) && SameFrames(k, Running(s))
    requires now.stacks == s.stacks[s.current := k]
    requires forall i :: 0 <= i <= TABLE_SIZE ==> now.stats[i].active == s.stats[i].active
    ensures ActiveOk(now)
  {
    forall i | 0 <= i <= TABLE_SIZE
      ensures now.stats[i].active == AllFrames(now.stacks, i, false) && AllFrames(now.stacks, i, true) <= 1
    {
      AllFramesReplaced(s.stacks, s.current, k, i, false);
      AllFramesReplaced(s.stacks, s.current, k, i, true);
      FramesSame(k.frames, Running(s).frames, i, false);
      FramesSame(k.frames, Running(s).frames, i, true);
    }
  }

  /** Charging brings the running stack and the totals up to date. */
  lemma ChargeKeeps(s: State, now: nat)
    requires Inv(s, s.last) && s.last <= now
    ensures Inv(Charge(s, now), now)
  {
    var k, delta, r := Running(s), now - s.last, Charge(s, now);
    if k.frames == [] {
      assert r.stacks == s.stacks;
      hide SelfOf;
    } else {
      SelfAdded(s.stats, TopStat(k), delta, TABLE_SIZE + 1);
      ActiveKept(s, r, Running(r));
      hide SelfOf, AllFrames, ActiveOk;
      assert StackOk(Running(r), now) by {
        assert StackOk(k, s.last);
      }
    }
  }

  lemma FinishKeeps(s: State, t0: nat, t1: nat)
    requires Inv(s, t0) && t0 <= t1
    ensures Inv(FinishHook(s, t0, t1), t1)
  {
    var r := FinishHook(s, t0, t1);
    ActiveKept(s, r, Running(r));
    hide SelfOf, AllFrames, ActiveOk;
    assert StackOk(Running(s), t0);
  }

  lemma CountCallKeeps(stats: seq<Stat>, i: nat, k: Stack)
    requires |stats| == TABLE_SIZE + 1 && i <= TABLE_SIZE && (k.frames != [] ==> TopStat(k) <= TABLE_SIZE)
    ensures var r := CountCall(stats, i, k); forall j :: 0 <= j <= TABLE_SIZE ==>
        r[j].self == stats[j].self && r[j].active == stats[j].active
  {
  }

  /** One more frame of function `i`. */
  lemma FramesPushed(frames: seq<Frame>, f: Frame, stat: nat, outer: bool)
    ensures Frames(frames + [f], stat, outer) == Frames(frames, stat, outer) + if f.stat == stat
            && (outer ==> f.outermost) then 1 else 0
  {
    assert (frames + [f])[..|frames|] == frames;
  }

  lemma {:induction false} OuterAreFrames(frames: seq<Frame>, stat: nat)
    ensures Frames(frames, stat, true) <= Frames(frames, stat, false)
  {
    if frames != [] {
      OuterAreFrames(frames[..|frames| - 1], stat);
    }
  }

  lemma {:induction false} AllOuterAreFrames(stacks: seq<Stack>, stat: nat)
    ensures AllFrames(stacks, stat, true) <= AllFrames(stacks, stat, false)
  {
    hide Frames;
    if stacks != [] {
      AllOuterAreFrames(stacks[..|stacks| - 1], stat);
      OuterAreFrames(stacks[|stacks| - 1].frames, stat);
    }
  }

  lemma PushActive(s: State, now: State, f: Frame)
    requires Shaped(s) && Shaped(now) && ActiveOk(s) && f.stat <= TABLE_SIZE
    requires now.stacks == s.stacks[s.current := Running(s).(frames := Running(s).frames + [f])]
    requires now.current == s.current
    requires forall i :: 0 <= i <= TABLE_SIZE ==>
        now.stats[i].active == s.stats[i].active + if i == f.stat then 1 else 0
    requires f.outermost <==> s.stats[f.stat].active == 0
    ensures ActiveOk(now)
  {
    var k := Running(now);
    forall i | 0 <= i <= TABLE_SIZE
      ensures now.stats[i].active == AllFrames(now.stacks, i, false) && AllFrames(now.stacks, i, true) <= 1
    {
      AllFramesReplaced(s.stacks, s.current, k, i, false);
      AllFramesReplaced(s.stacks, s.current, k, i, true);
      FramesPushed(Running(s).frames, f, i, false);
      FramesPushed(Running(s).frames, f, i, true);
      AllOuterAreFrames(s.stacks, i);
    }
  }

  lemma LookedKeeps(keys: Keys, key: nat)
    requires TableOk(keys) && key != 0
    ensures TableOk(Looked(keys, key))
  {
    hide TableOk;
    SearchRefinesMap(keys, key);
  }

  lemma PushKeeps(s: State, key: nat, now: nat)
    requires Inv(s, now) && key != 0
    ensures Inv(Push(s, key, now), now)
  {
    hide Search, TableOk, Looked;
    var k, i, r := Running(s), StatOf(s.keys, key), Push(s, key, now);
    LookedKeeps(s.keys, key);
    CountCallKeeps(s.stats, i, k);
    SelfSame(r.stats, s.stats, TABLE_SIZE + 1);
    if |k.frames| < MAX_DEPTH {
      var f := Frame(i, now, k.excluded, s.stats[i].active == 0, 0);
      PushActive(s, r, f);
      hide SelfOf, AllFrames, ActiveOk, CountCall;
      assert Running(r).frames == k.frames + [f];
      assert StackOk(k, now);
      assert StackOk(Running(r), now);
    } else {
      ActiveKept(s, r, Running(r));
      hide SelfOf, AllFrames, ActiveOk, CountCall;
      assert StackOk(k, now) && StackOk(Running(r), now);
    }
  }

  /** A frame on a stack is a frame of its function. */
  lemma {:induction false} TopCounts(stacks: seq<Stack>, k: nat, stat: nat)
    requires k < |stacks| && stacks[k].frames != [] && TopStat(stacks[k]) == stat
    ensures AllFrames(stacks, stat, false) >= 1
  {
    var last := |stacks| - 1;
    if k < last {
      TopCounts(stacks[..last], k, stat);
    }
  }

  /** Ending an activation credits an outermost one with exactly the self time charged inside it, and changes no other
      function's totals. */
  lemma FinalizeCredits(s: State, now: nat)
    requires Inv(s, now) && Running(s).frames != []
    ensures var f := Running(s).frames[|Running(s).frames| - 1];
            var r := Finalize(s, now);
            && r.stats[f.stat].inclusive == s.stats[f.stat].inclusive + (if f.outermost then f.inside else 0)
            && r.stats[f.stat].self == s.stats[f.stat].self
            && (forall i :: 0 <= i <= TABLE_SIZE && i != f.stat ==> r.stats[i] == s.stats[i])
  {
    var k := Running(s);
    assert StackOk(k, now);
    assert FrameOk(k.frames[|k.frames| - 1], k.excluded, now);
    hide SelfOf, AllFrames, ActiveOk, TableOk;
  }

  lemma FinalizeKeeps(s: State, now: nat)
    requires Inv(s, now) && Running(s).frames != []
    ensures Inv(Finalize(s, now), now) && Running(s).frames[|Running(s).frames| - 1].stat <= TABLE_SIZE
  {
    var k, r := Running(s), Finalize(s, now);
    var f := k.frames[|k.frames| - 1];
    TopCounts(s.stacks, s.current, f.stat);
    FinalizeCredits(s, now);
    SelfSame(r.stats, s.stats, TABLE_SIZE + 1);
    forall i | 0 <= i <= TABLE_SIZE
      ensures r.stats[i].active == AllFrames(r.stacks, i, false) && AllFrames(r.stacks, i, true) <= 1
    {
      AllFramesReplaced(s.stacks, s.current, Running(r), i, false);
      AllFramesReplaced(s.stacks, s.current, Running(r), i, true);
      FramesPushed(Running(r).frames, f, i, false);
      FramesPushed(Running(r).frames, f, i, true);
      assert Running(r).frames + [f] == k.frames;
    }
    hide SelfOf, AllFrames, TableOk;
    assert StackOk(k, now) && StackOk(Running(r), now);
  }

  lemma CounterKeeps(s: State, r: State, at: nat)
    requires Inv(s, at) && r == s.(unmatched := r.unmatched, unwound := r.unwound)
    ensures Inv(r, at)
  {
    hide SelfOf, AllFrames, TableOk;
  }

  lemma {:induction false} UnwindKeeps(s: State, now: nat, depth: nat)
    requires Inv(s, now)
    ensures Inv(Unwind(s, now, depth), now)
    decreases |Running(s).frames|
  {
    if |Running(s).frames| > depth {
      FinalizeKeeps(s, now);
      var ended := Finalize(s, now);
      CounterKeeps(ended, ended.(unwound := ended.unwound + 1), now);
      UnwindKeeps(ended.(unwound := ended.unwound + 1), now, depth);
    }
  }

  lemma PopKeeps(s: State, key: nat, now: nat)
    requires Inv(s, now)
    ensures Inv(Pop(s, key, now), now)
  {
    var k := Running(s);
    if k.overflow > 0 {
      var r := Pop(s, key, now);
      ActiveKept(s, r, Running(r));
      hide SelfOf, AllFrames, ActiveOk, TableOk;
      assert StackOk(k, now) && StackOk(Running(r), now);
    } else if k.frames != [] && KeyOf(s, k.frames[|k.frames| - 1]) == key {
      FinalizeKeeps(s, now);
    } else {
      var i := LastMatch(s, k.frames, key, |k.frames|);
      if i >= 0 {
        UnwindKeeps(s, now, i);
      } else {
        CounterKeeps(s, s.(unmatched := s.unmatched + 1), now);
      }
    }
  }

  lemma {:induction false} NewStack(stacks: seq<Stack>, k: Stack, stat: nat, outer: bool)
    ensures AllFrames(stacks + [k], stat, outer) == AllFrames(stacks, stat, outer) + Frames(k.frames, stat, outer)
  {
    assert (stacks + [k])[..|stacks|] == stacks;
  }

  /** Between fibers: every stack was up to date when its fiber was left. */
  predicate Between(s: State, leave: nat, enter: nat) {
    && Shaped(s) && Conserved(s, enter) && ActiveOk(s) && TableOk(s.keys) && s.start <= enter && leave <= enter
    && forall k :: 0 <= k < |s.stacks| ==> s.stacks[k].leftAt <= leave && StackOk(s.stacks[k], s.stacks[k].leftAt)
  }

  lemma LeaveKeeps(s: State, leave: nat, enter: nat)
    requires Inv(s, leave) && leave <= enter
    ensures Between(Leave(s, leave, enter), leave, enter)
  {
    var left := Leave(s, leave, enter);
    ActiveKept(s, left, Running(left));
    hide SelfOf, AllFrames, ActiveOk, TableOk;
    assert StackOk(Running(s), leave);
  }

  lemma ResumeKeeps(s: State, leave: nat, enter: nat, target: int)
    requires Between(s, leave, enter) && target < |s.stacks|
    ensures Inv(Resume(s, enter, target), enter)
  {
    var r := Resume(s, enter, target);
    if target < 0 {
      forall i | 0 <= i <= TABLE_SIZE
        ensures r.stats[i].active == AllFrames(r.stacks, i, false) && AllFrames(r.stacks, i, true) <= 1
      {
        NewStack(s.stacks, Stack(0, 0, 0, []), i, false);
        NewStack(s.stacks, Stack(0, 0, 0, []), i, true);
      }
      hide SelfOf, AllFrames, TableOk, Frames;
    } else {
      ActiveKept(s.(current := target), r, Running(r));
      hide SelfOf, AllFrames, ActiveOk, TableOk, Frames;
    }
  }

  lemma SwitchKeeps(s: State, leave: nat, enter: nat, target: int)
    requires Inv(s, s.last) && s.last <= leave <= enter && target < |s.stacks|
    ensures Inv(Switch(s, leave, enter, target), enter) && Switch(s, leave, enter, target).last == enter
  {
    ChargeKeeps(s, leave);
    hide Charge, StacksOk, Conserved, ActiveOk, TableOk;
    LeaveKeeps(Charge(s, leave), leave, enter);
    ResumeKeeps(Leave(Charge(s, leave), leave, enter), leave, enter, target);
  }

  lemma {:induction false} SelfCleared(a: seq<Stat>, b: seq<Stat>, n: nat)
    requires n <= TABLE_SIZE && |a| == |b| == TABLE_SIZE + 1
    requires forall i :: 0 <= i < TABLE_SIZE ==> b[i] == Cleared(a[i])
    ensures SelfOf(b, n) == 0
  {
    if n > 0 {
      SelfCleared(a, b, n - 1);
    }
  }

  lemma ReportKeeps(s: State, now: nat, after: nat)
    requires Inv(s, s.last) && s.last <= now <= after
    ensures Inv(Report(s, now, after), after) && Report(s, now, after).last == after
  {
    ChargeKeeps(s, now);
    var charged, r := Charge(s, now), Report(s, now, after);
    SelfCleared(charged.stats, r.stats, TABLE_SIZE);
    assert SelfOf(r.stats, TABLE_SIZE + 1) == r.stats[TABLE_SIZE].self;
    assert SelfOf(charged.stats, TABLE_SIZE + 1) == SelfOf(charged.stats, TABLE_SIZE) + charged.stats[TABLE_SIZE].self;
    ActiveKept(charged, r, Running(r));
    hide SelfOf, AllFrames, ActiveOk, TableOk, Charge;
    assert StackOk(Running(charged), now);
  }

  // ----- Runs -----

  datatype Event =
    | Entered(key: nat, t0: nat, t1: nat)
    | Exited(key: nat, t0: nat, t1: nat)
    | Switched(leave: nat, enter: nat, target: int)
    | Reported(now: nat, after: nat)

  /** The counter does not run backwards, keys are function addresses, and a fiber resumes on an existing stack. */
  predicate Timed(s: State, e: Event)
    requires Shaped(s)
  {
    match e
    case Entered(key, t0, t1) => key != 0 && s.last <= t0 <= t1
    case Exited(_, t0, t1) => s.last <= t0 <= t1
    case Switched(leave, enter, target) => s.last <= leave <= enter && target < |s.stacks|
    case Reported(now, after) => s.last <= now <= after
  }

  function Step(s: State, e: Event): (r: State)
    requires Shaped(s) && Timed(s, e)
    ensures Shaped(r)
  {
    match e
    case Entered(key, t0, t1) => FinishHook(Push(Charge(s, t0), key, t0), t0, t1)
    case Exited(key, t0, t1) => FinishHook(Pop(Charge(s, t0), key, t0), t0, t1)
    case Switched(leave, enter, target) => Switch(s, leave, enter, target)
    case Reported(now, after) => Report(s, now, after)
  }

  function StartState(now: nat): (s: State)
    ensures Shaped(s)
  {
    State(seq(TABLE_SIZE, i => 0), seq(TABLE_SIZE + 1, i => Stat(0, 0, 0, 0, 0)), [Stack(0, 0, 0, [])], 0, now,
          0, 0, 0, 0, 0, 0, 0, 0, 0, now)
  }

  /** A run from `s`; events that cannot happen are left out. */
  function Run(s: State, events: seq<Event>): (r: State)
    requires Shaped(s)
    ensures Shaped(r)
  {
    if events == [] then s
    else
      var before, e := Run(s, events[..|events| - 1]), events[|events| - 1];
      if Timed(before, e) then Step(before, e) else before
  }

  lemma StepKeeps(s: State, e: Event)
    requires Inv(s, s.last) && Timed(s, e)
    ensures Inv(Step(s, e), Step(s, e).last)
  {
    match e {
      case Entered(key, t0, t1) =>
        ChargeKeeps(s, t0);
        PushKeeps(Charge(s, t0), key, t0);
        FinishKeeps(Push(Charge(s, t0), key, t0), t0, t1);
      case Exited(key, t0, t1) =>
        ChargeKeeps(s, t0);
        PopKeeps(Charge(s, t0), key, t0);
        FinishKeeps(Pop(Charge(s, t0), key, t0), t0, t1);
      case Switched(leave, enter, target) =>
        SwitchKeeps(s, leave, enter, target);
      case Reported(now, after) =>
        ReportKeeps(s, now, after);
    }
  }

  lemma {:induction false} NothingYet(n: nat, stats: seq<Stat>)
    requires n <= |stats| && forall i :: 0 <= i < n ==> stats[i].self == 0
    ensures SelfOf(stats, n) == 0
  {
    if n > 0 {
      NothingYet(n - 1, stats);
    }
  }

  lemma StartOk(now: nat)
    ensures Inv(StartState(now), now)
  {
    var s := StartState(now);
    NothingYet(TABLE_SIZE + 1, s.stats);
    assert s.stacks[..0] == [];
    assert TableOk(s.keys);
    forall i | 0 <= i <= TABLE_SIZE
      ensures AllFrames(s.stacks, i, false) == 0 && AllFrames(s.stacks, i, true) == 0
    {
      assert AllFrames(s.stacks[..0], i, false) == 0 && AllFrames(s.stacks[..0], i, true) == 0;
    }
    hide SelfOf, TableOk, AllFrames;
  }

  lemma {:induction false} RunKeeps(now: nat, events: seq<Event>)
    ensures Inv(Run(StartState(now), events), Run(StartState(now), events).last)
  {
    hide Inv, Step, Timed, StartState;
    if events == [] {
      StartOk(now);
      StartLast(now);
    } else {
      RunKeeps(now, events[..|events| - 1]);
      var before, e := Run(StartState(now), events[..|events| - 1]), events[|events| - 1];
      if Timed(before, e) {
        StepKeeps(before, e);
      }
    }
  }

  lemma StartLast(now: nat)
    ensures StartState(now).last == now
  {
  }

  /** Main result, over every sequence of entries, exits, unmatched exits, overflows, fiber switches and reports: every
      tick is accounted for once, and whenever an activation ends, an outermost one is credited exactly the self time
      charged inside it. */
  lemma EveryTickOnce(now: nat, events: seq<Event>)
    ensures var s := Run(StartState(now), events);
            SelfOf(s.stats, TABLE_SIZE + 1) + s.flushed + s.root + s.hook + s.gaps == s.last - s.start
    ensures var s := Run(StartState(now), events);
            forall i :: 0 <= i <= TABLE_SIZE ==>
                s.stats[i].active == AllFrames(s.stacks, i, false) && AllFrames(s.stacks, i, true) <= 1
    ensures var s := Run(StartState(now), events);
            forall f :: f in Running(s).frames ==>
                f.inside == (s.last - f.enter) - (Running(s).excluded - f.excludedAtEnter)
  {
    RunKeeps(now, events);
    hide Run, StartState, SelfOf, AllFrames;
    var s := Run(StartState(now), events);
    assert StackOk(Running(s), s.last);
  }

  /** An exit, while no deeper call overflowed, counts as unmatched exactly if no frame of the running stack is the
      function's; it then changes nothing else. */
  lemma ExitMatches(s: State, key: nat, now: nat)
    requires Shaped(s) && Running(s).overflow == 0
    ensures (forall f :: f in Running(s).frames ==> KeyOf(s, f) != key)
        <==> Pop(s, key, now) == s.(unmatched := s.unmatched + 1)
  {
    hide Finalize, Unwind;
    var frames := Running(s).frames;
    var i := LastMatch(s, frames, key, |frames|);
    assert forall j :: 0 <= j < |frames| ==> frames[j] in frames;
    if i >= 0 {
      FramesUnwound(s, now, i);
      FramesEnded(s, now);
    }
  }

  lemma FramesEnded(s: State, now: nat)
    requires Shaped(s) && Running(s).frames != []
    ensures |Running(Finalize(s, now)).frames| < |Running(s).frames|
  {
  }

  lemma {:induction false} FramesUnwound(s: State, now: nat, depth: nat)
    requires Shaped(s) && depth < |Running(s).frames|
    ensures |Running(Unwind(s, now, depth)).frames| == depth
    decreases |Running(s).frames|
  {
    hide Finalize;
    var ended := Finalize(s, now);
    var next := ended.(unwound := ended.unwound + 1);
    if |Running(next).frames| > depth {
      FramesUnwound(next, now, depth);
    }
  }

  /** Once the table is full, new functions share one record without a key, so none of their exits is ever matched. */
  lemma SharedIsUnmatched(s: State, key: nat, now: nat)
    requires Shaped(s) && key != 0 && Running(s).overflow == 0 && key !in s.keys
    ensures Pop(s, key, now) == s.(unmatched := s.unmatched + 1)
  {
    hide Finalize, Unwind, Pop;
    forall f | f in Running(s).frames
      ensures KeyOf(s, f) != key
    {
    }
    ExitMatches(s, key, now);
  }

  // ----- The profiler as it runs -----

  class Profiler {
    var keys: Keys
    var stats: seq<Stat>
    var stacks: seq<Stack>
    var current: nat
    var last: nat
    var root: nat
    var hook: nat
    var events: nat
    var unmatched: nat
    var unwound: nat
    var overflows: nat
    var switches: nat
    ghost var gaps: nat
    ghost var flushed: nat
    ghost var start: nat

    ghost function View(): State
      reads this
    {
      State(keys, stats, stacks, current, last, root, hook, events, unmatched, unwound, overflows, switches, gaps,
            flushed, start)
    }

    constructor (now: nat)
      ensures View() == StartState(now)
    {
      keys, stats := seq(TABLE_SIZE, i => 0), seq(TABLE_SIZE + 1, i => Stat(0, 0, 0, 0, 0));
      stacks, current, last := [Stack(0, 0, 0, [])], 0, now;
      root, hook, events, unmatched, unwound, overflows, switches := 0, 0, 0, 0, 0, 0, 0;
      gaps, flushed, start := 0, 0, now;
    }

    method ChargeTo(now: nat)
      requires Shaped(View()) && last <= now
      modifies this`stats, this`stacks, this`root
      ensures View() == Charge(old(View()), now)
    {
      var delta, k := now - last, stacks[current];
      if k.frames != [] {
        var top := TopStat(k);
        stats := stats[top := stats[top].(self := stats[top].self + delta)];
        stacks := stacks[current := k.(frames := AddInside(k.frames, delta))];
      } else {
        root := root + delta;
      }
    }

    method PushFrame(key: nat, now: nat)
      requires Shaped(View()) && key != 0
      modifies this`keys, this`stats, this`stacks, this`overflows
      ensures View() == Push(old(View()), key, now)
    {
      hide Search, Looked;
      var k := stacks[current];
      var found: Found;
      keys, found := Find(keys, key);
      var i := if found.Full? then TABLE_SIZE else found.slot;
      stats := stats[i := stats[i].(calls := stats[i].calls + 1)];
      if k.frames != [] {
        var top := TopStat(k);
        stats := stats[top := stats[top].(childCalls := stats[top].childCalls + 1)];
      }
      if |k.frames| < MAX_DEPTH {
        stacks := stacks[current := k.(frames := k.frames + [Frame(i, now, k.excluded, stats[i].active == 0, 0)])];
        stats := stats[i := stats[i].(active := stats[i].active + 1)];
      } else {
        stacks := stacks[current := k.(overflow := k.overflow + 1)];
        overflows := overflows + 1;
      }
    }

    method FinalizeTop(now: nat)
      requires Shaped(View()) && stacks[current].frames != []
      modifies this`stats, this`stacks
      ensures View() == Finalize(old(View()), now)
    {
      var k := stacks[current];
      var f := k.frames[|k.frames| - 1];
      stacks := stacks[current := k.(frames := k.frames[..|k.frames| - 1])];
      stats := stats[f.stat := stats[f.stat].(active := Minus(stats[f.stat].active, 1))];
      if f.outermost {
        stats := stats[f.stat := stats[f.stat].(inclusive :=
                                                stats[f.stat].inclusive + Minus(now - f.enter,
                                                                                k.excluded - f.excludedAtEnter))];
      }
    }

    method UnwindTo(now: nat, depth: nat)
      requires Shaped(View())
      modifies this`stats, this`stacks, this`unwound
      ensures View() == Unwind(old(View()), now, depth)
    {
      hide Finalize;
      while |stacks[current].frames| > depth
        invariant Shaped(View()) && Unwind(View(), now, depth) == Unwind(old(View()), now, depth)
        decreases |stacks[current].frames|
      {
        FinalizeTop(now);
        unwound := unwound + 1;
      }
    }

    method PopFrame(key: nat, now: nat)
      requires Shaped(View())
      modifies this`stats, this`stacks, this`unwound, this`unmatched
      ensures View() == Pop(old(View()), key, now)
    {
      hide Finalize, Unwind;
      var k := stacks[current];
      if k.overflow > 0 {
        stacks := stacks[current := k.(overflow := k.overflow - 1)];
        return;
      }
      if k.frames != [] && (if TopStat(k) < TABLE_SIZE then keys[TopStat(k)] else 0) == key {
        FinalizeTop(now);
        return;
      }
      var i: nat := |k.frames|;
      while i > 0
        invariant i <= |k.frames| && View() == old(View())
        invariant LastMatch(View(), k.frames, key, i) == LastMatch(View(), k.frames, key, |k.frames|)
      {
        i := i - 1;
        var stat := k.frames[i].stat;
        if (if stat < TABLE_SIZE then keys[stat] else 0) == key {
          UnwindTo(now, i);
          return;
        }
      }
      unmatched := unmatched + 1;
    }

    method Finish(t0: nat, t1: nat)
      requires Shaped(View()) && t0 <= t1
      modifies this`stacks, this`hook, this`events, this`last
      ensures View() == FinishHook(old(View()), t0, t1)
    {
      stacks := stacks[current := stacks[current].(excluded := stacks[current].excluded + (t1 - t0))];
      hook, events, last := hook + (t1 - t0), events + 1, t1;
    }

    /** `__cyg_profile_func_enter`. */
    method Enter(key: nat, t0: nat, t1: nat)
      requires Shaped(View()) && Timed(View(), Entered(key, t0, t1))
      modifies this
      ensures View() == Step(old(View()), Entered(key, t0, t1))
    {
      hide Charge, Push, FinishHook;
      ChargeTo(t0);
      PushFrame(key, t0);
      Finish(t0, t1);
    }

    /** `__cyg_profile_func_exit`. */
    method Exit(key: nat, t0: nat, t1: nat)
      requires Shaped(View()) && Timed(View(), Exited(key, t0, t1))
      modifies this
      ensures View() == Step(old(View()), Exited(key, t0, t1))
    {
      hide Charge, Pop, FinishHook;
      ChargeTo(t0);
      PopFrame(key, t0);
      Finish(t0, t1);
    }

    /** The two fiber hooks around a context switch. */
    method SwitchFiber(leave: nat, enter: nat, target: int)
      requires Shaped(View()) && Timed(View(), Switched(leave, enter, target))
      modifies this
      ensures View() == Step(old(View()), Switched(leave, enter, target))
    {
      hide Charge;
      ChargeTo(leave);
      last := leave;
      stacks := stacks[current := stacks[current].(leftAt := leave)];
      switches := switches + 1;
      if target >= 0 {
        var k := stacks[target];
        stacks := stacks[target := k.(excluded := k.excluded + Minus(enter, k.leftAt))];
        current := target;
      } else {
        stacks, current := stacks + [Stack(0, 0, 0, [])], |stacks|;
      }
      last, gaps := enter, gaps + (enter - leave);
    }

    /** `report` and the start of the next window. */
    method ReportWindow(now: nat, after: nat)
      requires Shaped(View()) && Timed(View(), Reported(now, after))
      modifies this
      ensures View() == Step(old(View()), Reported(now, after))
    {
      hide Charge;
      ChargeTo(now);
      ghost var before := stats;
      for i := 0 to TABLE_SIZE
        invariant |stats| == TABLE_SIZE + 1 && View() == Charge(old(View()), now).(stats := stats)
        invariant forall j :: 0 <= j < |stats| ==> stats[j] == if j < i then Cleared(before[j]) else before[j]
      {
        stats := stats[i := Cleared(stats[i])];
      }
      stacks := stacks[current := stacks[current].(excluded := stacks[current].excluded + (after - now))];
      last := after;
      flushed, gaps := flushed + SelfOf(before, TABLE_SIZE), gaps + (after - now);
      assert stats == Report(old(View()), now, after).stats;
    }
  }
}
