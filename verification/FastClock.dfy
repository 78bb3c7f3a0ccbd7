/** The fast monotonic clock (ps5/runtime/fast_clock.h): a sequence lock, a try-lock and a maximum register, used by
    any number of threads. Every atomic access is one step; steps of different threads interleave freely. */
module FastClock {

  const NANOS: nat := 1_000_000_000

  datatype Config = Config(frequency: nat, resyncTicks: nat)

  predicate ConfigOk(c: Config) {
    c.frequency > 0 && c.resyncTicks > 0
  }

  /** `scale`: ticks to nanoseconds, rounded down. */
  function Scale(c: Config, ticks: nat): nat
    requires ConfigOk(c)
  {
    ticks * NANOS / c.frequency
  }

  /** The constructor's settings; `ticks_for` gives at least one tick. */
  function ConfigOf(frequency: nat, resyncNanos: nat): (c: Config)
    requires frequency > 0
    ensures ConfigOk(c) && c.frequency == frequency
    ensures resyncNanos * frequency < 2_000_000_000 ==> c.resyncTicks == 1
    ensures resyncNanos * frequency >= 1_000_000_000 ==>
        c.resyncTicks * 1_000_000_000 <= resyncNanos * frequency < (c.resyncTicks + 1) * 1_000_000_000
  {
    var ticks := resyncNanos * frequency / NANOS;
    Config(frequency, if ticks == 0 then 1 else ticks)
  }

  /** Counter and kernel time of an anchor. */
  datatype Anchor = Anchor(counter: nat, nanos: nat)

  /** Where a thread stands. `begin` is the number of events before its call started, `counter` what the call read
      first. */
  datatype Local =
    | Idle
    | LoadSequence(begin: nat, counter: nat)
    | LoadCounter(begin: nat, counter: nat, sequence: nat)
    | LoadNanos(begin: nat, counter: nat, sequence: nat, baseCounter: nat)
    | Recheck(begin: nat, counter: nat, sequence: nat, baseCounter: nat, baseNanos: nat)
    | TryLock(begin: nat, counter: nat, nanos: nat)
    | ReadSlow(begin: nat, counter: nat)
    | ReadAfter(begin: nat, counter: nat, kernel: nat)
    | LockLoad(begin: nat, counter: nat, anchor: Anchor, after: nat)
    | StoreOdd(begin: nat, counter: nat, anchor: Anchor, after: nat, sequence: nat)
    | StoreCounter(begin: nat, counter: nat, anchor: Anchor, after: nat, sequence: nat)
    | StoreNanos(begin: nat, counter: nat, anchor: Anchor, after: nat, sequence: nat)
    | StoreEven(begin: nat, counter: nat, anchor: Anchor, after: nat, sequence: nat)
    | Unlock(begin: nat, counter: nat, nanos: nat)
    | LoadLast(begin: nat, counter: nat, nanos: nat)
    | Exchange(begin: nat, counter: nat, nanos: nat, previous: nat)

  /** A finished call: its value, the number of calls that had finished before it started, and the counter when it
      started and when it ended. */
  datatype Finished = Finished(value: nat, begin: nat, started: nat, ended: nat)

  /** Shared variables, all threads, the counter, and two histories: the anchors that were in force, and the finished
      calls in order. */
  datatype State = State(
    sequence: nat, baseCounter: nat, baseNanos: nat, last: nat, resyncing: bool,
    tick: nat, threads: seq<Local>, anchors: seq<Anchor>, calls: seq<Finished>)

  /** One step of the environment and of one thread: ticks that pass, the kernel reading if one is taken, and whether a
      weak exchange fails for no reason. */
  datatype Choice = Choice(thread: nat, ticks: nat, kernel: nat, spurious: bool)

  function Middle(before: nat, after: nat): nat {
    if before <= after then before + (after - before) / 2 else before
  }

  function Minus(a: nat, b: nat): nat {
    if a > b then a - b else 0
  }

  /** The constructor. */
  function Start(threads: nat, before: nat, nanos: nat, after: nat): State {
    State(0, Middle(before, after), nanos, nanos, false, after, seq(threads, i => Idle),
          [Anchor(Middle(before, after), nanos)], [])
  }

  function At(s: State, t: nat, local: Local): State
    requires t < |s.threads|
  {
    s.(threads := s.threads[t := local])
  }

  /** The next atomic access of thread `t` in `now_nanos` or `resync`. */
  function Act(c: Config, s: State, t: nat, kernel: nat, spurious: bool): State
    requires ConfigOk(c) && t < |s.threads|
  {
    match s.threads[t]
    case Idle => At(s, t, LoadSequence(|s.calls|, s.tick))
    case LoadSequence(begin, counter) => At(s, t, LoadCounter(begin, counter, s.sequence))
    case LoadCounter(begin, counter, sequence) => At(s, t, LoadNanos(begin, counter, sequence, s.baseCounter))
    case LoadNanos(begin, counter, sequence, baseCounter) =>
      At(s, t, Recheck(begin, counter, sequence, baseCounter, s.baseNanos))
    case Recheck(begin, counter, sequence, baseCounter, baseNanos) =>
      if sequence % 2 == 1 || sequence != s.sequence then At(s, t, LoadSequence(begin, counter))
      else
        var elapsed := Minus(counter, baseCounter);
        var nanos := baseNanos + Scale(c, elapsed);
        At(s, t, if elapsed >= c.resyncTicks then TryLock(begin, counter, nanos) else LoadLast(begin, counter, nanos))
    case TryLock(begin, counter, nanos) =>
      if s.resyncing then At(s, t, LoadLast(begin, counter, nanos))
          else At(s.(resyncing := true), t, ReadSlow(begin, counter))
    case ReadSlow(begin, counter) => At(s, t, ReadAfter(begin, counter, kernel))
    case ReadAfter(begin, counter, nanos) =>
      At(s, t, LockLoad(begin, counter, Anchor(Middle(counter, s.tick), nanos), s.tick))
    case LockLoad(begin, counter, anchor, after) => At(s, t, StoreOdd(begin, counter, anchor, after, s.sequence))
    case StoreOdd(begin, counter, anchor, after, sequence) =>
      At(s.(sequence := sequence + 1), t, StoreCounter(begin, counter, anchor, after, sequence))
    case StoreCounter(begin, counter, anchor, after, sequence) =>
      At(s.(baseCounter := anchor.counter), t, StoreNanos(begin, counter, anchor, after, sequence))
    case StoreNanos(begin, counter, anchor, after, sequence) =>
      At(s.(baseNanos := anchor.nanos), t, StoreEven(begin, counter, anchor, after, sequence))
    case StoreEven(begin, counter, anchor, after, sequence) =>
      At(s.(sequence := sequence + 2, anchors := s.anchors + [anchor]), t,
         Unlock(begin, counter, anchor.nanos + Scale(c, Minus(after, anchor.counter))))
    case Unlock(begin, counter, nanos) => At(s.(resyncing := false), t, LoadLast(begin, counter, nanos))
    case LoadLast(begin, counter, nanos) => At(s, t, Exchange(begin, counter, nanos, s.last))
    case Exchange(begin, counter, nanos, previous) =>
      if nanos <= previous then At(s.(calls := s.calls + [Finished(previous, begin, counter, s.tick)]), t, Idle)
      else if s.last == previous && !spurious then
        At(s.(last := nanos, calls := s.calls + [Finished(nanos, begin, counter, s.tick)]), t, Idle)
      else At(s, t, Exchange(begin, counter, nanos, s.last))
  }

  function Step(c: Config, s: State, choice: Choice): State
    requires ConfigOk(c)
  {
    var later := s.(tick := s.tick + choice.ticks);
    if choice.thread < |s.threads| then Act(c, later, choice.thread, choice.kernel, choice.spurious) else later
  }

  function Run(c: Config, s: State, choices: seq<Choice>): State
    requires ConfigOk(c)
  {
    if choices == [] then s
    else Step(c, Run(c, s, choices[..|choices| - 1]), choices[|choices| - 1])
  }

  // ----- The invariant -----

  predicate Resyncing(l: Local) {
    l.ReadSlow? || l.ReadAfter? || l.LockLoad? || l.StoreOdd? || l.StoreCounter? || l.StoreNanos? || l.StoreEven?
        || l.Unlock?
  }

  /** At most one thread resyncs, and only while the flag is set. */
  predicate Exclusive(s: State) {
    && (forall t :: 0 <= t < |s.threads| && Resyncing(s.threads[t]) ==> s.resyncing)
    && (forall t, u :: 0 <= t < u < |s.threads| ==> !Resyncing(s.threads[t]) || !Resyncing(s.threads[u]))
  }

  /** The thread is between its two stores of the sequence number. */
  predicate Writing(l: Local) {
    l.StoreCounter? || l.StoreNanos? || l.StoreEven?
  }

  /** What the writer has stored so far, and where the sequence number stands. */
  predicate WriterOk(s: State, l: Local)
    requires s.anchors != []
  {
    var current := s.anchors[|s.anchors| - 1];
    && (l.StoreOdd? || Writing(l) ==> l.sequence == 2 * (|s.anchors| - 1))
    && (l.StoreOdd? ==> s.sequence == l.sequence)
    && (Writing(l) ==> s.sequence == l.sequence + 1)
    && (l.StoreNanos? || l.StoreEven? ==> s.baseCounter == l.anchor.counter)
    && (l.StoreEven? ==> s.baseNanos == l.anchor.nanos)
  }

  /** An even sequence number means the anchor in force is stored whole. */
  predicate LockOk(s: State) {
    && s.anchors != []
    && s.sequence / 2 == |s.anchors| - 1
    && (s.sequence % 2 == 0 ==> Anchor(s.baseCounter, s.baseNanos) == s.anchors[|s.anchors| - 1])
    && (s.sequence % 2 == 1 ==> exists t :: 0 <= t < |s.threads| && Writing(s.threads[t]))
  }

  /** What a reader has loaded is the current anchor as long as the sequence number it started from stands. */
  predicate ReaderOk(s: State, l: Local)
    requires s.anchors != []
  {
    var current := s.anchors[|s.anchors| - 1];
    && (l.LoadCounter? || l.LoadNanos? || l.Recheck? ==> l.sequence <= s.sequence)
    && (l.LoadNanos? && l.sequence == s.sequence && s.sequence % 2 == 0 ==> l.baseCounter == current.counter)
    && (l.Recheck? && l.sequence == s.sequence && s.sequence % 2 == 0 ==>
        l.baseCounter == current.counter && l.baseNanos == current.nanos)
  }

  /** A call that is under way started after the calls counted in `begin`, and its reading of the register covers them.
      */
  predicate CallOk(s: State, l: Local) {
    && (!l.Idle? ==> l.begin <= |s.calls|)
    && (l.Exchange? ==> l.previous <= s.last && forall i :: 0 <= i < l.begin ==> s.calls[i].value <= l.previous)
  }

  /** The register is at least every finished value; a call is at least every call that finished before it started. */
  predicate CallsOk(s: State) {
    && (forall i :: 0 <= i < |s.calls| ==> s.calls[i].value <= s.last && s.calls[i].begin <= i)
    && (forall i, j :: 0 <= i < j < |s.calls| && i < s.calls[j].begin ==> s.calls[i].value <= s.calls[j].value)
  }

  /** A call's first counter reading is not ahead of the counter, and the anchor lies between its two readings. */
  predicate BracketOk(s: State, l: Local) {
    && (!l.Idle? ==> l.counter <= s.tick)
    && (l.LockLoad? || l.StoreOdd? || Writing(l) ==> l.counter <= l.anchor.counter <= l.after <= s.tick)
  }

  predicate LocalOk(s: State, l: Local) {
    s.anchors != [] && WriterOk(s, l) && ReaderOk(s, l) && CallOk(s, l) && BracketOk(s, l)
  }

  predicate Inv(s: State) {
    Exclusive(s) && LockOk(s) && CallsOk(s) && forall t :: 0 <= t < |s.threads| ==> LocalOk(s, s.threads[t])
  }

  lemma StartOk(threads: nat, before: nat, nanos: nat, after: nat)
    ensures Inv(Start(threads, before, nanos, after))
  {
  }

  /** A thread moves on without touching shared variables. */
  lemma MovesOn(s: State, t: nat, l: Local)
    requires Inv(s) && t < |s.threads| && LocalOk(s, l)
    requires Resyncing(l) == Resyncing(s.threads[t]) && Writing(l) == Writing(s.threads[t])
    ensures Inv(At(s, t, l))
  {
    var now := At(s, t, l);
    hide WriterOk, ReaderOk, CallOk, BracketOk, Writing, Resyncing;
    assert s.sequence % 2 == 1 ==> exists u :: 0 <= u < |now.threads| && Writing(now.threads[u]) by {
      if s.sequence % 2 == 1 {
        var u :| 0 <= u < |s.threads| && Writing(s.threads[u]);
        assert Writing(now.threads[u]);
      }
    }
    forall u | 0 <= u < |now.threads|
      ensures LocalOk(now, now.threads[u])
    {
      assert LocalOk(s, now.threads[u]);
      SameShared(s, now, now.threads[u]);
    }
  }

  lemma SameShared(s: State, now: State, l: Local)
    requires now == s.(threads := now.threads, tick := now.tick, resyncing := now.resyncing) && s.tick <= now.tick
    requires LocalOk(s, l)
    ensures LocalOk(now, l)
  {
  }

  /** The try-lock is taken by a thread that was not resyncing, or released by the thread that was. */
  lemma LockChanges(s: State, t: nat, l: Local, taken: bool)
    requires Inv(s) && t < |s.threads| && LocalOk(s, l) && !Writing(l) && !Writing(s.threads[t])
    requires if taken then !s.resyncing && Resyncing(l) else Resyncing(s.threads[t]) && !Resyncing(l)
    ensures Inv(At(s.(resyncing := taken), t, l))
  {
    var now := At(s.(resyncing := taken), t, l);
    hide WriterOk, ReaderOk, CallOk, BracketOk, Writing, Resyncing;
    assert s.sequence % 2 == 1 ==> exists u :: 0 <= u < |now.threads| && Writing(now.threads[u]) by {
      if s.sequence % 2 == 1 {
        var u :| 0 <= u < |s.threads| && Writing(s.threads[u]);
        assert Writing(now.threads[u]);
      }
    }
    forall u | 0 <= u < |now.threads|
      ensures LocalOk(now, now.threads[u])
    {
      assert LocalOk(s, now.threads[u]);
      SameShared(s, now, now.threads[u]);
    }
  }

  /** The resyncing thread stores: what other threads have loaded is now tied to a sequence number that is odd or past.
      */
  lemma WriterStores(s: State, now: State, t: nat, l: Local)
    requires Inv(s) && t < |s.threads| && Resyncing(s.threads[t]) && Resyncing(l)
    requires now.threads == s.threads[t := l] && LocalOk(now, l) && LockOk(now)
    requires now.sequence % 2 == 1 || now.sequence > s.sequence
    requires now.sequence >= s.sequence && now.last == s.last && now.calls == s.calls && now.resyncing == s.resyncing
    requires now.tick == s.tick
    ensures Inv(now)
  {
    hide LockOk;
    forall u | 0 <= u < |now.threads|
      ensures LocalOk(now, now.threads[u])
    {
      if u != t {
        assert LocalOk(s, s.threads[u]) && !Resyncing(s.threads[u]);
      }
    }
  }

  /** The maximum register grows, and a call finishes. */
  lemma CallEnds(s: State, t: nat, value: nat, last: nat)
    requires Inv(s) && t < |s.threads| && s.threads[t].Exchange? && s.last <= last && value <= last
    requires s.threads[t].previous <= value
    ensures Inv(At(s.(last := last,
                      calls := s.calls + [Finished(value, s.threads[t].begin, s.threads[t].counter, s.tick)]), t, Idle))
  {
    var call := Finished(value, s.threads[t].begin, s.threads[t].counter, s.tick);
    var now := At(s.(last := last, calls := s.calls + [call]), t, Idle);
    assert LocalOk(s, s.threads[t]);
    assert CallsOk(now) by {
      hide Exclusive, LockOk, WriterOk, ReaderOk;
    }
    hide CallsOk;
    assert s.sequence % 2 == 1 ==> exists u :: 0 <= u < |now.threads| && Writing(now.threads[u]) by {
      if s.sequence % 2 == 1 {
        var u :| 0 <= u < |s.threads| && Writing(s.threads[u]);
        assert Writing(now.threads[u]);
      }
    }
    forall u | 0 <= u < |now.threads|
      ensures LocalOk(now, now.threads[u])
    {
      assert LocalOk(s, s.threads[u]);
    }
  }

  /** Reading steps: nothing shared changes. */
  predicate Reads(l: Local) {
    l.Idle? || l.LoadSequence? || l.LoadCounter? || l.LoadNanos? || l.Recheck? || l.ReadSlow? || l.ReadAfter?
        || l.LockLoad? || l.LoadLast?
  }

  lemma ReadKeeps(c: Config, s: State, t: nat, kernel: nat, spurious: bool)
    requires ConfigOk(c) && t < |s.threads| && Inv(s) && Reads(s.threads[t])
    ensures Inv(Act(c, s, t, kernel, spurious))
  {
    hide Scale, Minus;
    var now := Act(c, s, t, kernel, spurious);
    var l := now.threads[t];
    assert LocalOk(s, s.threads[t]);
    assert s.threads[t].LockLoad? ==> s.sequence % 2 == 0 by {
      forall u | 0 <= u < |s.threads| && s.threads[t].LockLoad?
        ensures !Writing(s.threads[u])
      {
        assert u == t || !Resyncing(s.threads[u]);
      }
    }
    assert LocalOk(s, l);
    hide Inv, LocalOk;
    MovesOn(s, t, l);
  }

  lemma WriteKeeps(c: Config, s: State, t: nat, kernel: nat, spurious: bool)
    requires ConfigOk(c) && t < |s.threads| && Inv(s) && (s.threads[t].StoreOdd? || Writing(s.threads[t]))
    ensures Inv(Act(c, s, t, kernel, spurious))
  {
    hide Scale, Middle, Minus;
    var now := Act(c, s, t, kernel, spurious);
    var l := now.threads[t];
    assert LocalOk(s, s.threads[t]);
    assert LocalOk(now, l);
    assert LockOk(now) by {
      if now.sequence % 2 == 1 {
        assert Writing(now.threads[t]);
      }
    }
    hide Inv, LocalOk, LockOk;
    WriterStores(s, now, t, l);
  }

  /** Every step of every thread keeps the invariant. */
  lemma ActKeeps(c: Config, s: State, t: nat, kernel: nat, spurious: bool)
    requires ConfigOk(c) && t < |s.threads| && Inv(s)
    ensures Inv(Act(c, s, t, kernel, spurious))
  {
    var l := s.threads[t];
    if Reads(l) {
      ReadKeeps(c, s, t, kernel, spurious);
    } else if l.StoreOdd? || Writing(l) {
      WriteKeeps(c, s, t, kernel, spurious);
    } else {
      assert LocalOk(s, l);
      match l {
        case TryLock(begin, counter, nanos) =>
          if s.resyncing {
            MovesOn(s, t, LoadLast(begin, counter, nanos));
          } else {
            LockChanges(s, t, ReadSlow(begin, counter), true);
          }
        case Unlock(begin, counter, nanos) =>
          LockChanges(s, t, LoadLast(begin, counter, nanos), false);
        case Exchange(begin, counter, nanos, previous) =>
          if nanos <= previous {
            CallEnds(s, t, previous, s.last);
          } else if s.last == previous && !spurious {
            CallEnds(s, t, nanos, nanos);
          } else {
            ExchangeFails(s, begin, counter, nanos);
            MovesOn(s, t, Exchange(begin, counter, nanos, s.last));
          }
      }
    }
  }

  lemma ExchangeFails(s: State, begin: nat, counter: nat, nanos: nat)
    requires Inv(s) && begin <= |s.calls| && counter <= s.tick
    ensures LocalOk(s, Exchange(begin, counter, nanos, s.last))
  {
  }

  lemma TicksPass(s: State, ticks: nat)
    requires Inv(s)
    ensures Inv(s.(tick := s.tick + ticks))
  {
    var now := s.(tick := s.tick + ticks);
    forall u | 0 <= u < |now.threads|
      ensures LocalOk(now, now.threads[u])
    {
      assert LocalOk(s, s.threads[u]);
    }
  }

  lemma {:induction false} RunKeeps(c: Config, s: State, choices: seq<Choice>)
    requires ConfigOk(c) && Inv(s)
    ensures Inv(Run(c, s, choices)) && |Run(c, s, choices).threads| == |s.threads|
  {
    hide Inv, Act;
    if choices != [] {
      var front, choice := choices[..|choices| - 1], choices[|choices| - 1];
      RunKeeps(c, s, front);
      var before := Run(c, s, front);
      TicksPass(before, choice.ticks);
      var later := before.(tick := before.tick + choice.ticks);
      if choice.thread < |before.threads| {
        ActKeeps(c, later, choice.thread, choice.kernel, choice.spurious);
        SameThreads(c, later, choice.thread, choice.kernel, choice.spurious);
      }
    }
  }

  lemma SameThreads(c: Config, s: State, t: nat, kernel: nat, spurious: bool)
    requires ConfigOk(c) && t < |s.threads|
    ensures |Act(c, s, t, kernel, spurious).threads| == |s.threads|
  {
    hide Scale, Middle, Minus;
  }

  // ----- What every interleaving guarantees -----

  /** A call that starts after another returned gives no smaller value, whichever threads make them. */
  lemma NeverBackwards(c: Config, threads: nat, before: nat, nanos: nat, after: nat, choices: seq<Choice>, i: nat,
                       j: nat)
    requires ConfigOk(c)
    requires var calls := Run(c, Start(threads, before, nanos, after), choices).calls;
             i < j < |calls| && i < calls[j].begin
    ensures var calls := Run(c, Start(threads, before, nanos, after), choices).calls;
            calls[i].value <= calls[j].value
  {
    StartOk(threads, before, nanos, after);
    RunKeeps(c, Start(threads, before, nanos, after), choices);
    hide Run;
  }

  /** The sequence lock works: a thread that leaves the read loop leaves with the anchor of one resync, the newest. */
  lemma ReadsOneAnchor(c: Config, threads: nat, before: nat, nanos: nat, after: nat, choices: seq<Choice>, t: nat)
    requires ConfigOk(c)
    requires var s := Run(c, Start(threads, before, nanos, after), choices);
             t < |s.threads| && s.threads[t].Recheck? && s.threads[t].sequence % 2 == 0
                 && s.threads[t].sequence == s.sequence
    ensures var s := Run(c, Start(threads, before, nanos, after), choices);
            s.anchors != [] && Anchor(s.threads[t].baseCounter, s.threads[t].baseNanos) == s.anchors[|s.anchors| - 1]
  {
    hide Run, CallsOk, LockOk, BracketOk, CallOk, WriterOk;
    StartOk(threads, before, nanos, after);
    RunKeeps(c, Start(threads, before, nanos, after), choices);
    assert LocalOk(Run(c, Start(threads, before, nanos, after), choices),
                   Run(c, Start(threads, before, nanos, after), choices).threads[t]);
  }

  /** The counter never runs back between the two readings of a resync, so the anchor is their middle. */
  lemma AnchorInBracket(c: Config, threads: nat, before: nat, nanos: nat, after: nat, choices: seq<Choice>, t: nat)
    requires ConfigOk(c)
    requires var s := Run(c, Start(threads, before, nanos, after), choices); t < |s.threads| && s.threads[t].ReadAfter?
    ensures var s := Run(c, Start(threads, before, nanos, after), choices); var from := s.threads[t].counter;
            from <= Middle(from, s.tick) <= s.tick
                && 0 <= (s.tick - Middle(from, s.tick)) - (Middle(from, s.tick) - from) <= 1
  {
    StartOk(threads, before, nanos, after);
    RunKeeps(c, Start(threads, before, nanos, after), choices);
    hide Run;
    assert LocalOk(Run(c, Start(threads, before, nanos, after), choices),
                   Run(c, Start(threads, before, nanos, after), choices).threads[t]);
  }

  /** At most one thread resyncs at a time. */
  lemma OneResync(c: Config, threads: nat, before: nat, nanos: nat, after: nat, choices: seq<Choice>, t: nat, u: nat)
    requires ConfigOk(c)
    requires var s := Run(c, Start(threads, before, nanos, after), choices);
             t < |s.threads| && u < |s.threads| && Resyncing(s.threads[t]) && Resyncing(s.threads[u])
    ensures t == u
  {
    StartOk(threads, before, nanos, after);
    RunKeeps(c, Start(threads, before, nanos, after), choices);
    hide Run;
  }

  // ----- Arithmetic -----

  lemma AtLeastOne(a: int, d: nat)
    requires a >= 1
    ensures a * d >= d
  {
  }

  /** The rounded quotient is within one of the exact one. */
  lemma ScaleBounds(c: Config, ticks: nat)
    requires ConfigOk(c)
    ensures Scale(c, ticks) * c.frequency <= ticks * NANOS < Scale(c, ticks) * c.frequency + c.frequency
  {
  }

  /** More ticks are no less time, and splitting an interval loses at most one nanosecond. */
  lemma ScaleAdditive(c: Config, a: nat, b: nat)
    requires ConfigOk(c)
    ensures Scale(c, a) <= Scale(c, a + b)
    ensures Scale(c, a) + Scale(c, b) <= Scale(c, a + b) <= Scale(c, a) + Scale(c, b) + 1
  {
    hide Scale;
    ScaleBounds(c, a);
    ScaleBounds(c, b);
    ScaleBounds(c, a + b);
    Additive(Scale(c, a), Scale(c, b), Scale(c, a + b), c.frequency, a * NANOS, b * NANOS);
  }

  /** Rounded quotients of two numbers and of their sum. */
  lemma Additive(x: nat, y: nat, z: nat, f: nat, m: nat, n: nat)
    requires f > 0 && x * f <= m < x * f + f && y * f <= n < y * f + f && z * f <= m + n < z * f + f
    ensures x <= z && x + y <= z <= x + y + 1
  {
    Order(x, z + 1, f);
    Order(x + y, z + 1, f);
    Order(z, x + y + 2, f);
    Order(x, y, f);
    Order(z, 1, f);
    Order(x + y, 2, f);
  }

  lemma Order(a: int, b: int, f: nat)
    requires f > 0
    ensures a * f < b * f ==> a < b
    ensures (a + b) * f == a * f + b * f
  {
    if a >= b {
      assert (a - b) * f >= 0;
    }
  }
}
