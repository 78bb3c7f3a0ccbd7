/** When inclusive time is all the time a function is on the running stack: fibers can hide some, and exactly when they
    do is told from the pushes of the run. */
module FiberTimes {
  import opened ProbeTable
  import opened FunctionProfiler
  import opened FunctionTimes

  // ----- Frames by position -----

  lemma {:induction false} HasFrame(frames: seq<Frame>, i: nat, outer: bool)
    ensures Frames(frames, i, outer) > 0
        <==> exists j :: 0 <= j < |frames| && frames[j].stat == i && (outer ==> frames[j].outermost)
  {
    if frames != [] {
      var last := |frames| - 1;
      HasFrame(frames[..last], i, outer);
      if Frames(frames[..last], i, outer) > 0 {
        var j :| 0 <= j < last && frames[..last][j].stat == i && (outer ==> frames[..last][j].outermost);
        assert frames[j].stat == i;
      }
      if j :| 0 <= j < last && frames[j].stat == i && (outer ==> frames[j].outermost) {
        assert frames[..last][j].stat == i;
      }
    }
  }

  /** The lowest frame of a function, or the number of frames when it has none. */
  function Lowest(frames: seq<Frame>, i: nat): (j: nat)
    ensures j <= |frames| && (j < |frames| ==> frames[j].stat == i)
    ensures forall l :: 0 <= l < j ==> frames[l].stat != i
  {
    if frames == [] || frames[0].stat == i then 0 else 1 + Lowest(frames[1..], i)
  }

  /** Functions and outermost flags of `now` are the first ones of `was`. */
  predicate Prefix(now: seq<Frame>, was: seq<Frame>) {
    |now| <= |was| && forall j :: 0 <= j < |now| ==> now[j].stat == was[j].stat && now[j].outermost == was[j].outermost
  }

  // ----- What a step does to the stacks -----

  /** Frames may go from the top of stacks, and empty stacks may be added. */
  predicate Kept(s: State, r: State) {
    && |s.stacks| <= |r.stacks|
    && (forall k :: 0 <= k < |s.stacks| ==> Prefix(r.stacks[k].frames, s.stacks[k].frames))
    && forall k :: |s.stacks| <= k < |r.stacks| ==> r.stacks[k].frames == []
  }

  lemma KeptTwice(s: State, m: State, r: State)
    requires Kept(s, m) && Kept(m, r)
    ensures Kept(s, r)
  {
  }

  lemma ChargeKept(s: State, now: nat)
    requires Shaped(s) && s.last <= now
    ensures Kept(s, Charge(s, now)) && Kept(Charge(s, now), s) && Charge(s, now).current == s.current
    ensures forall i :: 0 <= i <= TABLE_SIZE ==> Charge(s, now).stats[i].active == s.stats[i].active
    ensures Charge(s, now).keys == s.keys
  {
  }

  lemma FinalizeKept(s: State, now: nat)
    requires Shaped(s) && Running(s).frames != []
    ensures Kept(s, Finalize(s, now))
  {
  }

  lemma {:induction false} UnwindKept(s: State, now: nat, depth: nat)
    requires Shaped(s)
    ensures Kept(s, Unwind(s, now, depth))
    decreases |Running(s).frames|
  {
    if |Running(s).frames| > depth {
      var ended := Finalize(s, now);
      FinalizeKept(s, now);
      UnwindKept(ended.(unwound := ended.unwound + 1), now, depth);
      hide Finalize;
      KeptTwice(s, ended, Unwind(ended.(unwound := ended.unwound + 1), now, depth));
    }
  }

  lemma PopKept(s: State, key: nat, now: nat)
    requires Shaped(s)
    ensures Kept(s, Pop(s, key, now))
  {
    hide Finalize, Unwind, KeyOf;
    var k := Running(s);
    if k.frames != [] {
      FinalizeKept(s, now);
      var j := LastMatch(s, k.frames, key, |k.frames|);
      if j >= 0 {
        UnwindKept(s, now, j);
      }
    }
  }

  lemma FinishKept(s: State, t0: nat, t1: nat)
    requires Shaped(s) && t0 <= t1
    ensures Kept(s, FinishHook(s, t0, t1))
  {
  }

  lemma SwitchKept(s: State, leave: nat, enter: nat, target: int)
    requires Shaped(s) && leave <= enter && target < |s.stacks|
    ensures Kept(s, Resume(Leave(s, leave, enter), enter, target))
  {
  }

  lemma ReportKept(s: State, now: nat, after: nat)
    requires Shaped(s) && s.last <= now <= after
    ensures Kept(s, Report(s, now, after))
  {
    ChargeKept(s, now);
    hide Charge, SelfOf;
    KeptTwice(s, Charge(s, now), Report(s, now, after));
  }

  /** Every event but an entry only takes frames away. */
  lemma StepKept(s: State, e: Event)
    requires Shaped(s) && Timed(s, e) && !e.Entered?
    ensures Kept(s, Step(s, e))
  {
    hide Charge, Pop, FinishHook, Report, Leave, Resume, Kept;
    match e {
      case Exited(key, t0, t1) =>
        ChargeKept(s, t0);
        var c := Charge(s, t0);
        PopKept(c, key, t0);
        FinishKept(Pop(c, key, t0), t0, t1);
        KeptTwice(s, c, Pop(c, key, t0));
        KeptTwice(s, Pop(c, key, t0), Step(s, e));
      case Switched(leave, enter, target) =>
        ChargeKept(s, leave);
        SwitchKept(Charge(s, leave), leave, enter, target);
        KeptTwice(s, Charge(s, leave), Step(s, e));
      case Reported(now, after) =>
        ReportKept(s, now, after);
    }
  }

  /** A function has a frame on a stack other than `k`. */
  predicate Elsewhere(s: State, k: nat, i: nat) {
    exists j :: 0 <= j < |s.stacks| && j != k && Frames(s.stacks[j].frames, i, false) > 0
  }

  lemma {:induction false} NoFrames(stacks: seq<Stack>, i: nat)
    ensures AllFrames(stacks, i, false) == 0
        <==> forall k :: 0 <= k < |stacks| ==> Frames(stacks[k].frames, i, false) == 0
  {
    hide Frames;
    if stacks != [] {
      var front := stacks[..|stacks| - 1];
      NoFrames(front, i);
      assert forall k :: 0 <= k < |front| ==> front[k] == stacks[k];
    }
  }

  /** An entry with room pushes one frame; it is outermost exactly if the function has no frame on any stack. */
  predicate Pushed(s: State, r: State)
    requires Shaped(s)
  {
    && |r.stacks| == |s.stacks|
    && (forall k :: 0 <= k < |s.stacks| && k != s.current ==>
          Prefix(r.stacks[k].frames, s.stacks[k].frames) && |r.stacks[k].frames| == |s.stacks[k].frames|)
    && var was, now := s.stacks[s.current].frames, r.stacks[s.current].frames;
       && |now| == |was| + 1 && Prefix(now[..|was|], was)
       && var stat := now[|was|].stat;
          now[|was|].outermost == (Frames(was, stat, false) == 0 && !Elsewhere(s, s.current, stat))
  }

  /** The counter of a function is zero exactly if it has no frame on any stack. */
  lemma InactiveIsNowhere(s: State, at: nat, i: nat)
    requires Inv(s, at) && i <= TABLE_SIZE
    ensures s.stats[i].active == 0 <==> Frames(Running(s).frames, i, false) == 0 && !Elsewhere(s, s.current, i)
  {
    NoFrames(s.stacks, i);
    assert s.stats[i].active == AllFrames(s.stacks, i, false);
    hide Frames, AllFrames, StacksOk, Conserved, TableOk;
  }

  lemma PushPushes(s: State, key: nat, now: nat)
    requires Inv(s, now)
    ensures Pushed(s, Push(s, key, now)) || Kept(s, Push(s, key, now))
  {
    hide CountCall, Looked, Search, Frames, AllFrames, Elsewhere, StacksOk, Conserved, ActiveOk, TableOk, StatOf;
    var i, k := StatOf(s.keys, key), Running(s);
    InactiveIsNowhere(s, now, i);
    CountCallKeeps(s.stats, i, k);
    if |k.frames| < MAX_DEPTH {
      assert (k.frames + [Frame(i, now, k.excluded, s.stats[i].active == 0, 0)])[..|k.frames|] == k.frames;
    }
  }

  /** Charging changes no function and no flag of a frame, and a hook's end no frame at all. */
  lemma PushedBetween(s: State, c: State, p: State, r: State)
    requires Shaped(s) && Shaped(c) && Kept(s, c) && Kept(c, s) && c.current == s.current && Pushed(c, p)
    requires |r.stacks| == |p.stacks| && forall k :: 0 <= k < |p.stacks| ==> r.stacks[k].frames == p.stacks[k].frames
    ensures Pushed(s, r)
  {
    var was, now := s.stacks[s.current].frames, r.stacks[s.current].frames;
    var i := now[|was|].stat;
    assert now[..|was|] == p.stacks[s.current].frames[..|was|];
    forall k | 0 <= k < |s.stacks|
      ensures Frames(s.stacks[k].frames, i, false) == Frames(c.stacks[k].frames, i, false)
    {
      FramesSame(s.stacks[k].frames, c.stacks[k].frames, i, false);
    }
    hide Frames;
  }

  lemma StepEntered(s: State, e: Event)
    requires Inv(s, s.last) && Timed(s, e) && e.Entered?
    ensures Pushed(s, Step(s, e)) || Kept(s, Step(s, e))
  {
    var c := Charge(s, e.t0);
    var p := Push(c, e.key, e.t0);
    ChargeKept(s, e.t0);
    ChargeKeeps(s, e.t0);
    PushPushes(c, e.key, e.t0);
    FinishKept(p, e.t0, e.t1);
    hide Charge, Push, Inv;
    if Pushed(c, p) {
      hide Kept, Pushed;
      PushedBetween(s, c, p, Step(s, e));
    } else {
      hide Pushed;
      KeptTwice(s, c, p);
      KeptTwice(s, p, Step(s, e));
    }
  }

  // ----- The history of pushes -----

  /** For every frame of every stack, whether its function had a frame on another stack when it was pushed. */
  type Marks = seq<seq<bool>>

  function Follow(s: State, k: nat, marks: seq<bool>, frames: seq<Frame>): seq<bool> {
    if |frames| <= |marks| then marks[..|frames|] else marks + [Elsewhere(s, k, frames[|marks|].stat)]
  }

  function Update(s: State, marks: Marks, r: State): Marks {
    seq(|r.stacks|, k requires 0 <= k < |r.stacks| => if k < |marks| then Follow(s, k, marks[k], r.stacks[k].frames)
        else [])
  }

  function History(now: nat, events: seq<Event>): Marks {
    if events == [] then [[]]
    else
      var front := events[..|events| - 1];
      Update(Run(StartState(now), front), History(now, front), Run(StartState(now), events))
  }

  /** The lowest frame of the function on the running stack was pushed while it was active on another stack. */
  predicate Shared(s: State, marks: Marks, i: nat)
    requires Shaped(s)
  {
    var frames := Running(s).frames;
    var j := Lowest(frames, i);
    j < |frames| && s.current < |marks| && j < |marks[s.current]| && marks[s.current][j]
  }

  /** A frame is outermost exactly if no frame of the function is below it and it was not pushed while active elsewhere.
      */
  predicate Layered(frames: seq<Frame>, marks: seq<bool>) {
    |marks| == |frames|
    && forall j :: 0 <= j < |frames| ==>
         (frames[j].outermost <==> !marks[j] && forall l :: 0 <= l < j ==> frames[l].stat != frames[j].stat)
  }

  predicate AllLayered(s: State, marks: Marks) {
    |marks| == |s.stacks| && forall k :: 0 <= k < |s.stacks| ==> Layered(s.stacks[k].frames, marks[k])
  }

  lemma LayeredPrefix(was: seq<Frame>, marks: seq<bool>, now: seq<Frame>)
    requires Layered(was, marks) && Prefix(now, was)
    ensures Layered(now, marks[..|now|])
  {
  }

  lemma LayeredPushed(was: seq<Frame>, marks: seq<bool>, now: seq<Frame>, shared: bool)
    requires Layered(was, marks) && |now| == |was| + 1 && Prefix(now[..|was|], was)
    requires now[|was|].outermost <==> Frames(was, now[|was|].stat, false) == 0 && !shared
    ensures Layered(now, marks + [shared])
  {
    var i := now[|was|].stat;
    HasFrame(was, i, false);
    assert forall j :: 0 <= j < |was| ==> now[j] == now[..|was|][j];
    if Frames(was, i, false) > 0 {
      var j :| 0 <= j < |was| && was[j].stat == i;
      assert now[j].stat == i;
    }
  }

  lemma LayeredStep(s: State, marks: Marks, r: State)
    requires Shaped(s) && AllLayered(s, marks) && (Pushed(s, r) || Kept(s, r))
    ensures AllLayered(r, Update(s, marks, r))
  {
    hide Layered, Prefix, Elsewhere;
    var after := Update(s, marks, r);
    forall k | 0 <= k < |r.stacks|
      ensures Layered(r.stacks[k].frames, after[k])
    {
      if k >= |s.stacks| {
        EmptyLayered();
      } else if Kept(s, r) || k != s.current {
        LayeredPrefix(s.stacks[k].frames, marks[k], r.stacks[k].frames);
        SameLength(s.stacks[k].frames, marks[k], r.stacks[k].frames);
      } else {
        LayeredPushed(s.stacks[k].frames, marks[k], r.stacks[k].frames,
                      Elsewhere(s, k, r.stacks[k].frames[|s.stacks[k].frames|].stat));
        SameLength(s.stacks[k].frames, marks[k], []);
      }
    }
  }

  lemma SameLength(was: seq<Frame>, marks: seq<bool>, now: seq<Frame>)
    requires Layered(was, marks)
    ensures |marks| == |was| && (Prefix(now, was) ==> |now| <= |marks|)
  {
  }

  lemma EmptyLayered()
    ensures Layered([], [])
  {
  }

  lemma StaysLayered(s: State, marks: Marks)
    requires AllLayered(s, marks)
    ensures Update(s, marks, s) == marks
  {
    forall k | 0 <= k < |s.stacks|
      ensures Update(s, marks, s)[k] == marks[k]
    {
      assert Layered(s.stacks[k].frames, marks[k]);
    }
  }

  lemma {:induction false} RunLayered(now: nat, events: seq<Event>)
    ensures AllLayered(Run(StartState(now), events), History(now, events))
  {
    if events == [] {
      hide Step, Timed;
    } else {
      hide StartState, Step, Timed, AllLayered, Inv, Update, Pushed, Kept;
      var front, e := events[..|events| - 1], events[|events| - 1];
      RunLayered(now, front);
      RunKeeps(now, front);
      var s, marks := Run(StartState(now), front), History(now, front);
      if !Timed(s, e) {
        StaysLayered(s, marks);
      } else {
        if e.Entered? {
          StepEntered(s, e);
        } else {
          StepKept(s, e);
        }
        LayeredStep(s, marks, Step(s, e));
      }
    }
  }

  // ----- Hidden time -----

  /** The lowest frame of a function tells whether one of its frames is outermost. */
  lemma LowestTells(frames: seq<Frame>, marks: seq<bool>, i: nat)
    requires Layered(frames, marks)
    ensures |marks| == |frames|
    ensures var j := Lowest(frames, i);
            Frames(frames, i, false) > 0 && !(Frames(frames, i, true) > 0) <==> j < |frames| && marks[j]
  {
    hide Frames;
    HasFrame(frames, i, false);
    HasFrame(frames, i, true);
    var j := Lowest(frames, i);
    if j < |frames| {
      assert frames[j].stat == i;
    }
  }

  /** Over every run, a function is on the running stack without an outermost frame there exactly if its lowest frame
      there was pushed while it was active on another stack. */
  lemma HiddenIsShared(now: nat, events: seq<Event>, i: nat)
    ensures var s := Run(StartState(now), events);
            Is(Anywhere, s, i) && !Is(Outermost, s, i) <==> Shared(s, History(now, events), i)
  {
    hide Run, StartState, Frames, Layered, Lowest, History;
    RunLayered(now, events);
    var s, marks := Run(StartState(now), events), History(now, events);
    LowestTells(Running(s).frames, marks[s.current], i);
  }

  /** No time passes in interval `n` of the run while the function's lowest frame on the running stack is a shared one.
      */
  predicate Quiet(now: nat, events: seq<Event>, n: nat, i: nat)
    requires n < |events|
  {
    var s := Run(StartState(now), events[..n]);
    Timed(s, events[n]) && Shared(s, History(now, events[..n]), i) ==> Interval(s, events[n]) == 0
  }

  /** Inclusive time is all the time a function is on the running stack if and only if no time passes while its lowest
      frame there is one that was pushed while the function was active on another stack. */
  lemma {:induction false} CompleteExactly(now: nat, events: seq<Event>, i: nat)
    ensures Spent(Outermost, now, events, i) <= Spent(Anywhere, now, events, i)
    ensures Spent(Outermost, now, events, i) == Spent(Anywhere, now, events, i)
            <==> forall n :: 0 <= n < |events| ==> Quiet(now, events, n, i)
  {
    hide StartState, Step, Timed, Interval, Shared, Is;
    if events != [] {
      var last := |events| - 1;
      var front := events[..last];
      CompleteExactly(now, front, i);
      HiddenIsShared(now, front, i);
      OuterIsAnywhere(Run(StartState(now), front), i);
      forall n | 0 <= n < last
        ensures Quiet(now, events, n, i) <==> Quiet(now, front, n, i)
      {
        assert events[..n] == front[..n];
      }
      hide Run, History;
      assert Quiet(now, events, last, i) <==> QuietLast(now, front, events[last], i);
    }
  }

  predicate QuietLast(now: nat, front: seq<Event>, e: Event, i: nat) {
    var s := Run(StartState(now), front);
    Timed(s, e) && Shared(s, History(now, front), i) ==> Interval(s, e) == 0
  }

  lemma OuterIsAnywhere(s: State, i: nat)
    requires Shaped(s)
    ensures Is(Outermost, s, i) ==> Is(Anywhere, s, i)
  {
    OuterAreFrames(Running(s).frames, i);
  }

  /** With one stack no push is a shared one. */
  predicate Unshared(s: State, marks: Marks) {
    |s.stacks| == 1 && forall k, j :: 0 <= k < |marks| && 0 <= j < |marks[k]| ==> !marks[k][j]
  }

  lemma {:induction false} OneFiber(now: nat, events: seq<Event>)
    requires forall e :: e in events ==> !e.Switched?
    ensures Unshared(Run(StartState(now), events), History(now, events))
  {
    if events != [] {
      hide StartState, Step, Timed, Frames, Shaped;
      var front, e := events[..|events| - 1], events[|events| - 1];
      OneFiber(now, front);
      var s := Run(StartState(now), front);
      if Timed(s, e) {
        OneStack(s, e);
      }
    }
  }

  lemma OneStack(s: State, e: Event)
    requires Shaped(s) && Timed(s, e) && !e.Switched?
    ensures |Step(s, e).stacks| == |s.stacks|
  {
    hide Finalize, Looked, Search, CountCall, SelfOf;
    match e {
      case Entered(key, t0, t1) =>
      case Exited(key, t0, t1) => PopStacks(Charge(s, t0), key, t0);
      case Reported(now, after) =>
    }
  }

  lemma PopStacks(s: State, key: nat, now: nat)
    requires Shaped(s)
    ensures |Pop(s, key, now).stacks| == |s.stacks|
  {
    hide KeyOf, Unwind;
    var k := Running(s);
    if k.frames != [] {
      var j := LastMatch(s, k.frames, key, |k.frames|);
      if j >= 0 {
        UnwindStacks(s, now, j);
      }
    }
  }

  lemma {:induction false} UnwindStacks(s: State, now: nat, depth: nat)
    requires Shaped(s)
    ensures |Unwind(s, now, depth).stacks| == |s.stacks|
    decreases |Running(s).frames|
  {
    if |Running(s).frames| > depth {
      var ended := Finalize(s, now);
      UnwindStacks(ended.(unwound := ended.unwound + 1), now, depth);
    }
  }

  /** Without fiber switches inclusive time is all the time a function is anywhere on the stack, recursion counted once.
      */
  lemma UnderIsAnywhere(now: nat, events: seq<Event>, i: nat)
    requires forall e :: e in events ==> !e.Switched?
    ensures Spent(Outermost, now, events, i) == Spent(Anywhere, now, events, i)
  {
    hide Run, StartState, Spent, History;
    forall n | 0 <= n < |events|
      ensures Quiet(now, events, n, i)
    {
      OneFiber(now, events[..n]);
    }
    CompleteExactly(now, events, i);
  }

  // ----- A run that hides time -----

  /** A stored key is found where it was stored. */
  lemma FoundAgain(keys: Keys, key: nat)
    requires TableOk(keys) && key != 0 && 0 in keys
    ensures StatOf(Looked(keys, key), key) == StatOf(keys, key) < TABLE_SIZE
  {
    hide TableOk, Search;
    SearchRefinesMap(keys, key);
    LookedKeeps(keys, key);
    SearchRefinesMap(Looked(keys, key), key);
    Unique(Looked(keys, key));
    if key !in keys {
      assert Looked(keys, key)[StatOf(keys, key)] == key;
    }
  }

  lemma Unique(keys: Keys)
    requires TableOk(keys)
    ensures forall i, j :: 0 <= i < j < TABLE_SIZE && keys[i] != 0 ==> keys[i] != keys[j]
  {
    hide Reached;
  }

  lemma RunStepped(now: nat, front: seq<Event>, e: Event)
    requires Timed(Run(StartState(now), front), e)
    ensures Run(StartState(now), front + [e]) == Step(Run(StartState(now), front), e)
  {
    hide Timed, StartState, Step;
    assert (front + [e])[..|front|] == front;
  }

  /** The first function is entered: its frame is outermost. */
  lemma FirstEntered(s: State, key: nat)
    requires key != 0 && Shaped(s) && Running(s).frames == [] && s.last == 0 && s.stats[StatOf(s.keys, key)].active == 0
    ensures var r := Step(s, Entered(key, 0, 0)); var i := StatOf(s.keys, key);
            && r.last == 0 && r.keys == Looked(s.keys, key) && r.current == s.current && |r.stacks| == |s.stacks|
            && r.stats[i].active == 1 && Running(r).frames == [Frame(i, 0, Running(s).excluded, true, 0)]
  {
    hide Search, Looked;
  }

  /** A new fiber has an empty stack. */
  lemma FreshFiber(s: State)
    requires Shaped(s) && s.last == 0
    ensures var r := Step(s, Switched(0, 0, -1));
            r.last == 0 && r.keys == s.keys && Running(r).frames == [] && forall i :: 0 <= i <= TABLE_SIZE ==>
                r.stats[i].active == s.stats[i].active
  {
  }

  /** A function active elsewhere is entered on an empty stack: its frame is not outermost. */
  lemma EnteredAgain(s: State, key: nat)
    requires key != 0 && Shaped(s) && Running(s).frames == [] && s.last == 0 && s.stats[StatOf(s.keys, key)].active > 0
    ensures var r := Step(s, Entered(key, 0, 0)); var i := StatOf(s.keys, key);
            r.last == 0 && Running(r).frames == [Frame(i, 0, Running(s).excluded, false, 0)]
  {
    hide Search, Looked;
  }

  lemma OneFrame(f: Frame)
    ensures Frames([f], f.stat, false) == 1 && Frames([f], f.stat, true) == if f.outermost then 1 else 0
  {
    assert [f][..0] == [];
    assert Frames([], f.stat, false) == 0 && Frames([], f.stat, true) == 0;
  }

  lemma SpentStep(w: Where, now: nat, front: seq<Event>, e: Event, i: nat)
    ensures var s := Run(StartState(now), front);
            Spent(w, now, front + [e], i) == Spent(w, now, front, i) + if Timed(s, e) && Is(w, s, i) then Interval(s, e)
                else 0
  {
    hide Is, Interval, Timed, Run, StartState;
    assert (front + [e])[..|front|] == front;
  }

  /** Fibers do hide time: a function entered on one fiber and again on the next spends its time there uncredited. */
  lemma FibersHide(key: nat)
    requires key != 0
    ensures var events := [Entered(key, 0, 0)] + [Switched(0, 0, -1)] + [Entered(key, 0, 0)] + [Exited(key, 5, 5)];
            var i := StatOf(StartState(0).keys, key);
            Spent(Outermost, 0, events, i) + 5 <= Spent(Anywhere, 0, events, i)
  {
    hide Search, Looked, TableOk, Step, StacksOk, Conserved, ActiveOk, Spent, Frames, AllFrames;
    var s0 := StartState(0);
    var i := StatOf(s0.keys, key);
    StartOk(0);
    assert s0.keys[0] == 0;
    FoundAgain(s0.keys, key);
    FirstEntered(s0, key);
    var s1 := Step(s0, Entered(key, 0, 0));
    FreshFiber(s1);
    var s2 := Step(s1, Switched(0, 0, -1));
    EnteredAgain(s2, key);
    var s3 := Step(s2, Entered(key, 0, 0));
    RunStepped(0, [], Entered(key, 0, 0));
    assert [] + [Entered(key, 0, 0)] == [Entered(key, 0, 0)];
    RunStepped(0, [Entered(key, 0, 0)], Switched(0, 0, -1));
    RunStepped(0, [Entered(key, 0, 0)] + [Switched(0, 0, -1)], Entered(key, 0, 0));
    var three := [Entered(key, 0, 0)] + [Switched(0, 0, -1)] + [Entered(key, 0, 0)];
    SpentStep(Outermost, 0, three, Exited(key, 5, 5), i);
    SpentStep(Anywhere, 0, three, Exited(key, 5, 5), i);
    CompleteExactly(0, three, i);
    OneFrame(Running(s3).frames[0]);
  }
}
