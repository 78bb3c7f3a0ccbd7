/** What the profiler's totals mean in terms of the run alone: self time is the time a function was on top of the
    running stack, inclusive time the time its outermost activation was on it. */
module FunctionTimes {
  import opened ProbeTable
  import opened FunctionProfiler

  /** Where on the running stack a function is. */
  datatype Where = OnTop | Outermost | Anywhere

  predicate Is(w: Where, s: State, i: nat)
    requires Shaped(s)
  {
    var k := Running(s);
    match w
    case OnTop => k.frames != [] && TopStat(k) == i
    case Outermost => Frames(k.frames, i, true) > 0
    case Anywhere => Frames(k.frames, i, false) > 0
  }

  /** The time between the last event and this one. */
  function Interval(s: State, e: Event): nat
    requires Shaped(s) && Timed(s, e)
  {
    match e
    case Entered(_, t0, _) => t0 - s.last
    case Exited(_, t0, _) => t0 - s.last
    case Switched(leave, _, _) => leave - s.last
    case Reported(now, _) => now - s.last
  }

  /** The time function `i` spent there, summed over the intervals of a run. */
  function Spent(w: Where, now: nat, events: seq<Event>, i: nat): nat {
    if events == [] then 0
    else
      var front, e := events[..|events| - 1], events[|events| - 1];
      var s := Run(StartState(now), front);
      Spent(w, now, front, i) + if Timed(s, e) && Is(w, s, i) then Interval(s, e) else 0
  }

  /** The total that goes with it: self time for the top, inclusive time for the outermost activation. */
  function Total(w: Where, e: Stat): nat {
    if w == OnTop then e.self else e.inclusive
  }

  /** What past reports took out of the totals. */
  function Flushed(w: Where, now: nat, events: seq<Event>, i: nat): nat
    requires i <= TABLE_SIZE
  {
    if events == [] then 0
    else
      var front, e := events[..|events| - 1], events[|events| - 1];
      var s := Run(StartState(now), front);
      Flushed(w, now, front, i) + if Timed(s, e) && e.Reported? && i < TABLE_SIZE
          then Total(w, Charge(s, e.now).stats[i]) else 0
  }

  // ----- Self time -----

  lemma FinalizeSelf(s: State, now: nat, i: nat)
    requires Shaped(s) && Running(s).frames != [] && i <= TABLE_SIZE
    ensures Finalize(s, now).stats[i].self == s.stats[i].self
  {
  }

  lemma {:induction false} UnwindSelf(s: State, now: nat, depth: nat, i: nat)
    requires Shaped(s) && i <= TABLE_SIZE
    ensures Unwind(s, now, depth).stats[i].self == s.stats[i].self
    decreases |Running(s).frames|
  {
    if |Running(s).frames| > depth {
      FinalizeSelf(s, now, i);
      var ended := Finalize(s, now);
      UnwindSelf(ended.(unwound := ended.unwound + 1), now, depth, i);
    }
  }

  lemma PopSelf(s: State, key: nat, now: nat, i: nat)
    requires Shaped(s) && i <= TABLE_SIZE
    ensures Pop(s, key, now).stats[i].self == s.stats[i].self
  {
    hide Finalize, Unwind, KeyOf;
    var k := Running(s);
    if k.frames != [] {
      FinalizeSelf(s, now, i);
      var j := LastMatch(s, k.frames, key, |k.frames|);
      if j >= 0 {
        UnwindSelf(s, now, j, i);
      }
    }
  }

  lemma PushSelf(s: State, key: nat, now: nat, i: nat)
    requires Shaped(s) && i <= TABLE_SIZE
    ensures Push(s, key, now).stats[i].self == s.stats[i].self
  {
    hide Looked, Search;
    CountCallKeeps(s.stats, StatOf(s.keys, key), Running(s));
    hide CountCall;
  }

  lemma StepSelf(s: State, e: Event, i: nat)
    requires Shaped(s) && Timed(s, e) && i <= TABLE_SIZE
    ensures Step(s, e).stats[i].self + (if e.Reported? && i < TABLE_SIZE then Charge(s, e.now).stats[i].self else 0)
            == s.stats[i].self + if Is(OnTop, s, i) then Interval(s, e) else 0
  {
    match e {
      case Entered(key, t0, t1) =>
        hide Push;
        PushSelf(Charge(s, t0), key, t0, i);
      case Exited(key, t0, t1) =>
        hide Pop;
        PopSelf(Charge(s, t0), key, t0, i);
      case Switched(leave, enter, target) =>
      case Reported(now, after) =>
        hide SelfOf;
    }
  }

  /** Self time is time on top: over every run and for every function, the self time of this window and of all past ones
      is the time the function was on top of the running stack. */
  lemma {:induction false} SelfIsTimeOnTop(now: nat, events: seq<Event>, i: nat)
    requires i <= TABLE_SIZE
    ensures Run(StartState(now), events).stats[i].self + Flushed(OnTop, now, events, i) == Spent(OnTop, now, events, i)
  {
    hide Step, Timed, Is, Interval, Charge;
    if events == [] {
      StartsEmpty(now, i);
    } else {
      var front, e := events[..|events| - 1], events[|events| - 1];
      hide StartState;
      SelfIsTimeOnTop(now, front, i);
      var s := Run(StartState(now), front);
      if Timed(s, e) {
        StepSelf(s, e, i);
      }
    }
  }

  lemma StartsEmpty(now: nat, i: nat)
    requires i <= TABLE_SIZE
    ensures StartState(now).stats[i].self == 0 && StartState(now).stats[i].inclusive == 0
    ensures OpenInside(StartState(now).stacks, i) == 0
  {
    assert StartState(now).stacks[..0] == [];
    assert OpenInside([], i) == 0;
  }

  // ----- Inclusive time -----

  /** What the outermost activations of a function on a stack will be credited with. */
  function Open(frames: seq<Frame>, i: nat): nat {
    if frames == [] then 0
    else
      var f := frames[|frames| - 1];
      Open(frames[..|frames| - 1], i) + if f.stat == i && f.outermost then f.inside else 0
  }

  function OpenInside(stacks: seq<Stack>, i: nat): nat {
    if stacks == [] then 0 else OpenInside(stacks[..|stacks| - 1], i) + Open(stacks[|stacks| - 1].frames, i)
  }

  lemma {:induction false} OpenReplaced(stacks: seq<Stack>, k: nat, now: Stack, i: nat)
    requires k < |stacks|
    ensures OpenInside(stacks[k := now], i) + Open(stacks[k].frames, i) == OpenInside(stacks, i) + Open(now.frames, i)
  {
    hide Open;
    var last := |stacks| - 1;
    if k < last {
      OpenReplaced(stacks[..last], k, now, i);
      assert stacks[k := now][..last] == stacks[..last][k := now];
    } else {
      assert stacks[k := now][..last] == stacks[..last];
    }
  }

  lemma {:induction false} OuterOnOne(stacks: seq<Stack>, k: nat, i: nat)
    requires k < |stacks|
    ensures Frames(stacks[k].frames, i, true) <= AllFrames(stacks, i, true)
  {
    hide Frames;
    if k < |stacks| - 1 {
      OuterOnOne(stacks[..|stacks| - 1], k, i);
    }
  }

  /** Time charged inside all frames is charged to the only outermost one. */
  lemma {:induction false} OpenCharged(frames: seq<Frame>, delta: nat, i: nat)
    requires Frames(frames, i, true) <= 1
    ensures Open(AddInside(frames, delta), i) == Open(frames, i) + if Frames(frames, i, true) > 0 then delta else 0
  {
    if frames != [] {
      var front := frames[..|frames| - 1];
      assert AddInside(frames, delta)[..|frames| - 1] == AddInside(front, delta);
      OpenCharged(front, delta, i);
    }
  }

  lemma OpenPushed(frames: seq<Frame>, f: Frame, i: nat)
    ensures Open(frames + [f], i) == Open(frames, i) + if f.stat == i && f.outermost then f.inside else 0
  {
    assert (frames + [f])[..|frames|] == frames;
  }

  /** Credited so far, and still to be credited. */
  function Inclusive(s: State, i: nat): nat
    requires Shaped(s) && i <= TABLE_SIZE
  {
    s.stats[i].inclusive + OpenInside(s.stacks, i)
  }

  lemma SameStack(s: State, r: State, k: Stack, i: nat)
    requires Shaped(s) && Shaped(r) && i <= TABLE_SIZE && k.frames == Running(s).frames
    requires r.stacks == s.stacks[s.current := k] && r.stats[i].inclusive == s.stats[i].inclusive
    ensures Inclusive(r, i) == Inclusive(s, i)
  {
    hide Open;
    OpenReplaced(s.stacks, s.current, k, i);
  }

  lemma ChargeInclusive(s: State, now: nat, i: nat)
    requires Inv(s, s.last) && s.last <= now && i <= TABLE_SIZE
    ensures Inclusive(Charge(s, now), i) == Inclusive(s, i) + if Is(Outermost, s, i) then now - s.last else 0
  {
    OneOuter(s, s.last, i);
    var k, r := Running(s), Charge(s, now);
    if k.frames != [] {
      OpenCharged(k.frames, now - s.last, i);
      OpenReplaced(s.stacks, s.current, Running(r), i);
    }
    hide Inv, Open, OpenInside;
  }

  lemma OneOuter(s: State, at: nat, i: nat)
    requires Inv(s, at) && i <= TABLE_SIZE
    ensures Frames(Running(s).frames, i, true) <= 1
  {
    OuterOnOne(s.stacks, s.current, i);
    hide SelfOf, AllFrames, Frames;
  }

  lemma PushInclusive(s: State, key: nat, now: nat, i: nat)
    requires Shaped(s) && i <= TABLE_SIZE
    ensures Inclusive(Push(s, key, now), i) == Inclusive(s, i)
  {
    hide Looked, Search, Open, OpenInside;
    var k, r := Running(s), Push(s, key, now);
    var j := StatOf(s.keys, key);
    OpenReplaced(s.stacks, s.current, Running(r), i);
    OpenPushed(k.frames, Frame(j, now, k.excluded, CountCall(s.stats, j, k)[j].active == 0, 0), i);
  }

  lemma FinalizeInclusive(s: State, now: nat, i: nat)
    requires Inv(s, now) && Running(s).frames != [] && i <= TABLE_SIZE
    ensures Inclusive(Finalize(s, now), i) == Inclusive(s, i)
  {
    var k, r := Running(s), Finalize(s, now);
    var f := k.frames[|k.frames| - 1];
    FinalizeCredits(s, now);
    hide Inv, Open, OpenInside;
    OpenReplaced(s.stacks, s.current, Running(r), i);
    OpenPushed(Running(r).frames, f, i);
    assert Running(r).frames + [f] == k.frames;
  }

  lemma {:induction false} UnwindInclusive(s: State, now: nat, depth: nat, i: nat)
    requires Inv(s, now) && i <= TABLE_SIZE
    ensures Inclusive(Unwind(s, now, depth), i) == Inclusive(s, i)
    decreases |Running(s).frames|
  {
    hide SelfOf, AllFrames, Open, OpenInside;
    if |Running(s).frames| > depth {
      var ended := Finalize(s, now);
      FinalizeInclusive(s, now, i);
      FinalizeKeeps(s, now);
      CounterKeeps(ended, ended.(unwound := ended.unwound + 1), now);
      UnwindInclusive(ended.(unwound := ended.unwound + 1), now, depth, i);
    }
  }

  lemma PopInclusive(s: State, key: nat, now: nat, i: nat)
    requires Inv(s, now) && i <= TABLE_SIZE
    ensures Inclusive(Pop(s, key, now), i) == Inclusive(s, i)
  {
    hide Finalize, Unwind, KeyOf, SelfOf, AllFrames, Open, OpenInside;
    var k := Running(s);
    SameStack(s, WithStack(s, k.(overflow := if k.overflow > 0 then k.overflow - 1 else 0)),
              k.(overflow := if k.overflow > 0 then k.overflow - 1 else 0), i);
    if k.frames != [] {
      FinalizeInclusive(s, now, i);
      var j := LastMatch(s, k.frames, key, |k.frames|);
      if j >= 0 {
        UnwindInclusive(s, now, j, i);
      }
    }
  }

  lemma FinishInclusive(s: State, t0: nat, t1: nat, i: nat)
    requires Shaped(s) && t0 <= t1 && i <= TABLE_SIZE
    ensures Inclusive(FinishHook(s, t0, t1), i) == Inclusive(s, i)
  {
    hide Open, OpenInside;
    SameStack(s, FinishHook(s, t0, t1), Running(FinishHook(s, t0, t1)), i);
  }

  lemma LeaveInclusive(s: State, leave: nat, enter: nat, i: nat)
    requires Shaped(s) && leave <= enter && i <= TABLE_SIZE
    ensures Inclusive(Leave(s, leave, enter), i) == Inclusive(s, i)
  {
    hide Open, OpenInside;
    SameStack(s, Leave(s, leave, enter), Running(Leave(s, leave, enter)), i);
  }

  lemma ResumeInclusive(s: State, enter: nat, target: int, i: nat)
    requires Shaped(s) && target < |s.stacks| && i <= TABLE_SIZE
    ensures Inclusive(Resume(s, enter, target), i) == Inclusive(s, i)
  {
    if target < 0 {
      assert (s.stacks + [Stack(0, 0, 0, [])])[..|s.stacks|] == s.stacks;
      assert Open([], i) == 0;
    } else {
      OpenReplaced(s.stacks, target, Resume(s, enter, target).stacks[target], i);
    }
  }

  lemma ReportInclusive(s: State, now: nat, after: nat, i: nat)
    requires Shaped(s) && s.last <= now <= after && i <= TABLE_SIZE
    ensures Inclusive(Report(s, now, after), i) + (if i < TABLE_SIZE then Charge(s, now).stats[i].inclusive else 0)
            == Inclusive(Charge(s, now), i)
  {
    hide Open, OpenInside, Charge, SelfOf;
    var charged := Charge(s, now);
    OpenReplaced(charged.stacks, charged.current, Running(Report(s, now, after)), i);
  }

  lemma StepInclusive(s: State, e: Event, i: nat)
    requires Inv(s, s.last) && Timed(s, e) && i <= TABLE_SIZE
    ensures Inclusive(Step(s, e), i)
        + (if e.Reported? && i < TABLE_SIZE then Charge(s, e.now).stats[i].inclusive else 0)
            == Inclusive(s, i) + if Is(Outermost, s, i) then Interval(s, e) else 0
  {
    hide Charge, Push, Pop, FinishHook, Leave, Resume, Report, Inclusive, Is, StacksOk, Conserved, ActiveOk, TableOk;
    match e {
      case Entered(key, t0, t1) =>
        ChargeInclusive(s, t0, i);
        PushInclusive(Charge(s, t0), key, t0, i);
        FinishInclusive(Push(Charge(s, t0), key, t0), t0, t1, i);
      case Exited(key, t0, t1) =>
        ChargeInclusive(s, t0, i);
        ChargeKeeps(s, t0);
        PopInclusive(Charge(s, t0), key, t0, i);
        FinishInclusive(Pop(Charge(s, t0), key, t0), t0, t1, i);
      case Switched(leave, enter, target) =>
        ChargeInclusive(s, leave, i);
        LeaveInclusive(Charge(s, leave), leave, enter, i);
        ResumeInclusive(Leave(Charge(s, leave), leave, enter), enter, target, i);
      case Reported(now, after) =>
        ChargeInclusive(s, now, i);
        ReportInclusive(s, now, after, i);
    }
  }

  /** Inclusive time is time under the outermost activation: over every run and for every function, what it was credited
      with, now and in past windows, and what its open activations still hold, is the time its outermost activation was
      on the running stack. */
  lemma {:induction false} InclusiveIsTimeUnder(now: nat, events: seq<Event>, i: nat)
    requires i <= TABLE_SIZE
    ensures Inclusive(Run(StartState(now), events), i) + Flushed(Outermost, now, events, i)
        == Spent(Outermost, now, events, i)
  {
    hide Step, Timed, Is, Interval, Charge, Inclusive, Inv;
    if events == [] {
      StartsInclusive(now, i);
    } else {
      var front, e := events[..|events| - 1], events[|events| - 1];
      hide StartState;
      InclusiveIsTimeUnder(now, front, i);
      RunKeeps(now, front);
      var s := Run(StartState(now), front);
      if Timed(s, e) {
        StepInclusive(s, e, i);
      }
    }
  }

  lemma StartsInclusive(now: nat, i: nat)
    requires i <= TABLE_SIZE
    ensures Inclusive(StartState(now), i) == 0
  {
    StartsEmpty(now, i);
    hide StartState, OpenInside;
  }
}
