/** What one call of the fast clock returns when no other call is under way, and when it reads the kernel clock
    (ps5/runtime/fast_clock.h, `now_nanos`). */
module ClockAlone {
  import opened FastClock

  /** Thread `t` alone takes the steps, and no exchange fails for no reason. */
  predicate Alone(choices: seq<Choice>, t: nat) {
    forall k :: 0 <= k < |choices| ==> choices[k].thread == t && !choices[k].spurious
  }

  /** The counter at the access of step `k`. */
  function TickAt(s: State, choices: seq<Choice>, k: nat): nat
    requires k < |choices|
  {
    (if k == 0 then s.tick else TickAt(s, choices, k - 1)) + choices[k].ticks
  }

  /** Nanoseconds between two counter values. */
  function Nanos(c: Config, from: nat, counter: nat): nat
    requires ConfigOk(c)
  {
    if counter > from then (counter - from) * 1_000_000_000 / c.frequency else 0
  }

  function Larger(a: nat, b: nat): nat {
    if a > b then a else b
  }

  /** Nobody is inside a call and the anchor is stored whole. */
  predicate Quiet(s: State, t: nat) {
    t < |s.threads| && s.threads[t].Idle? && s.sequence % 2 == 0 && !s.resyncing
  }

  /** The state after `k` steps. */
  function After(c: Config, s: State, choices: seq<Choice>, k: nat): State
    requires ConfigOk(c) && k <= |choices|
  {
    Run(c, s, choices[..k])
  }

  /** Where the thread stands, at a counter value. */
  function Placed(s: State, t: nat, tick: nat, l: Local): State
    requires t < |s.threads|
  {
    s.(tick := tick, threads := s.threads[t := l])
  }

  /** One step from there. */
  lemma {:induction false} Next(c: Config, s: State, choices: seq<Choice>, t: nat, k: nat, base: State, l: Local)
    requires ConfigOk(c) && k < |choices| && Alone(choices, t) && t < |base.threads|
    requires After(c, s, choices, k) == Placed(base, t, if k == 0 then s.tick else TickAt(s, choices, k - 1), l)
    ensures After(c, s, choices, k + 1)
         == Act(c, Placed(base, t, TickAt(s, choices, k), l), t, choices[k].kernel, false)
  {
    assert choices[..k + 1][..k] == choices[..k];
    hide Act;
  }

  lemma {:induction false} Begins(c: Config, s: State, choices: seq<Choice>, t: nat)
    requires ConfigOk(c) && t < |s.threads|
    ensures After(c, s, choices, 0) == Placed(s, t, s.tick, s.threads[t])
  {
    assert s.threads[t := s.threads[t]] == s.threads;
  }

  /** Moving on. */
  lemma {:induction false} Moves(s: State, t: nat, tick: nat, l: Local, m: Local)
    requires t < |s.threads|
    ensures At(Placed(s, t, tick, l), t, m) == Placed(s, t, tick, m)
  {
  }

  /** Reading the anchor: five steps. */
  lemma {:induction false} Reads(c: Config, s: State, choices: seq<Choice>, t: nat)
    requires ConfigOk(c) && Quiet(s, t) && Alone(choices, t) && |choices| >= 5
    ensures var counter := TickAt(s, choices, 0);
            var nanos := s.baseNanos + Scale(c, Minus(counter, s.baseCounter));
            var l := if Minus(counter, s.baseCounter) >= c.resyncTicks then TryLock(|s.calls|, counter, nanos)
                     else LoadLast(|s.calls|, counter, nanos);
            After(c, s, choices, 5) == Placed(s, t, TickAt(s, choices, 4), l)
  {
    hide After, TickAt, Scale, Minus;
    var counter, begin := TickAt(s, choices, 0), |s.calls|;
    Begins(c, s, choices, t);
    var l1, l2 := LoadSequence(begin, counter), LoadCounter(begin, counter, s.sequence);
    var l3 := LoadNanos(begin, counter, s.sequence, s.baseCounter);
    var l4 := Recheck(begin, counter, s.sequence, s.baseCounter, s.baseNanos);
    Next(c, s, choices, t, 0, s, Idle);
    Moves(s, t, counter, Idle, l1);
    Next(c, s, choices, t, 1, s, l1);
    Moves(s, t, TickAt(s, choices, 1), l1, l2);
    Next(c, s, choices, t, 2, s, l2);
    Moves(s, t, TickAt(s, choices, 2), l2, l3);
    Next(c, s, choices, t, 3, s, l3);
    Moves(s, t, TickAt(s, choices, 3), l3, l4);
    Next(c, s, choices, t, 4, s, l4);
    var nanos := s.baseNanos + Scale(c, Minus(counter, s.baseCounter));
    Moves(s, t, TickAt(s, choices, 4), l4, TryLock(begin, counter, nanos));
    Moves(s, t, TickAt(s, choices, 4), l4, LoadLast(begin, counter, nanos));
  }

  /** The call has returned. */
  function Ended(base: State, t: nat, begin: nat, counter: nat, nanos: nat, end: nat): State
    requires t < |base.threads|
  {
    var value := Larger(nanos, base.last);
    Placed(base, t, end, Idle).(last := value, calls := base.calls + [Finished(value, begin, counter, end)])
  }

  /** Returning: the larger of the reading and the last value returned. */
  lemma {:induction false} Returns(c: Config, s: State, choices: seq<Choice>, t: nat, k: nat, base: State, begin: nat,
                                   counter: nat, nanos: nat)
    requires ConfigOk(c) && t < |base.threads| && Alone(choices, t) && 0 < k && k + 2 <= |choices|
    requires After(c, s, choices, k) == Placed(base, t, TickAt(s, choices, k - 1), LoadLast(begin, counter, nanos))
    ensures After(c, s, choices, k + 2) == Ended(base, t, begin, counter, nanos, TickAt(s, choices, k + 1))
  {
    hide After, TickAt;
    var l1, l2 := LoadLast(begin, counter, nanos), Exchange(begin, counter, nanos, base.last);
    Next(c, s, choices, t, k, base, l1);
    Moves(base, t, TickAt(s, choices, k), l1, l2);
    Next(c, s, choices, t, k + 1, base, l2);
    Moves(base, t, TickAt(s, choices, k + 1), l2, Idle);
  }

  lemma EndedIs(base: State, t: nat, begin: nat, counter: nat, nanos: nat, end: nat)
    requires t < |base.threads| && base.threads[t].Idle?
    ensures var value := Larger(nanos, base.last);
            Ended(base, t, begin, counter, nanos, end)
            == base.(tick := end, last := value, calls := base.calls + [Finished(value, begin, counter, end)])
  {
    assert base.threads[t := Idle] == base.threads;
  }

  /** A call soon after the anchor does not read the kernel clock: it returns the anchor's time and the ticks since
      then in nanoseconds, or the last value returned if that is larger; nothing else changes. */
  lemma {:induction false} SoonAfter(c: Config, s: State, choices: seq<Choice>, t: nat)
    requires ConfigOk(c) && Quiet(s, t) && Alone(choices, t) && |choices| == 7
    requires TickAt(s, choices, 0) < s.baseCounter + c.resyncTicks
    ensures var counter, end := TickAt(s, choices, 0), TickAt(s, choices, 6);
            var value := Larger(s.baseNanos + Nanos(c, s.baseCounter, counter), s.last);
            Run(c, s, choices)
            == s.(tick := end, last := value, calls := s.calls + [Finished(value, |s.calls|, counter, end)])
  {
    hide *;
    var counter := TickAt(s, choices, 0);
    Quieted(s, t);
    Elapsed(c, s.baseCounter, counter);
    Reads(c, s, choices, t);
    NanosAre(c, counter, s.baseCounter);
    WholeRun(c, s, choices);
    var nanos := s.baseNanos + Nanos(c, s.baseCounter, counter);
    Returns(c, s, choices, t, 5, s, |s.calls|, counter, nanos);
    EndedIs(s, t, |s.calls|, counter, nanos, TickAt(s, choices, 6));
  }

  /** A new anchor is in force. */
  function Anchored(s: State, anchor: Anchor): State {
    s.(sequence := s.sequence + 2, baseCounter := anchor.counter, baseNanos := anchor.nanos,
       anchors := s.anchors + [anchor])
  }

  /** Where the writer stands after reading the kernel clock: four steps from the lock on. */
  lemma {:induction false} Locks(c: Config, s: State, choices: seq<Choice>, t: nat, counter: nat, nanos: nat)
    requires ConfigOk(c) && Quiet(s, t) && Alone(choices, t) && |choices| >= 14
    requires After(c, s, choices, 5) == Placed(s, t, TickAt(s, choices, 4), TryLock(|s.calls|, counter, nanos))
    ensures var after := TickAt(s, choices, 7);
            var l := StoreOdd(|s.calls|, counter, Anchor(Middle(counter, after), choices[6].kernel), after, s.sequence);
            After(c, s, choices, 9) == Placed(s.(resyncing := true), t, TickAt(s, choices, 8), l)
  {
    hide After, TickAt, Scale, Minus, Middle;
    var begin, after, base := |s.calls|, TickAt(s, choices, 7), s.(resyncing := true);
    var anchor := Anchor(Middle(counter, after), choices[6].kernel);
    var l5, l6 := TryLock(begin, counter, nanos), ReadSlow(begin, counter);
    var l7, l8 := ReadAfter(begin, counter, choices[6].kernel), LockLoad(begin, counter, anchor, after);
    Next(c, s, choices, t, 5, s, l5);
    Moves(base, t, TickAt(s, choices, 5), l5, l6);
    Next(c, s, choices, t, 6, base, l6);
    Moves(base, t, TickAt(s, choices, 6), l6, l7);
    Next(c, s, choices, t, 7, base, l7);
    Moves(base, t, TickAt(s, choices, 7), l7, l8);
    Next(c, s, choices, t, 8, base, l8);
    Moves(base, t, TickAt(s, choices, 8), l8, StoreOdd(begin, counter, anchor, after, s.sequence));
  }

  /** The sequence number becomes odd and the anchor's counter is stored. */
  lemma {:induction false} Opens(c: Config, s: State, choices: seq<Choice>, t: nat, counter: nat, anchor: Anchor,
                                 after: nat)
    requires ConfigOk(c) && Quiet(s, t) && Alone(choices, t) && |choices| >= 14
    requires After(c, s, choices, 9) == Placed(s.(resyncing := true), t, TickAt(s, choices, 8),
                                               StoreOdd(|s.calls|, counter, anchor, after, s.sequence))
    ensures var base := s.(resyncing := true, sequence := s.sequence + 1, baseCounter := anchor.counter);
            var l := StoreNanos(|s.calls|, counter, anchor, after, s.sequence);
            After(c, s, choices, 11) == Placed(base, t, TickAt(s, choices, 10), l)
  {
    hide After, TickAt, Scale, Minus, Middle;
    var begin, q := |s.calls|, s.sequence;
    var l9, l10 := StoreOdd(begin, counter, anchor, after, q), StoreCounter(begin, counter, anchor, after, q);
    var b9 := s.(resyncing := true);
    var b10 := b9.(sequence := q + 1);
    Next(c, s, choices, t, 9, b9, l9);
    Moves(b10, t, TickAt(s, choices, 9), l9, l10);
    Next(c, s, choices, t, 10, b10, l10);
    Moves(b10.(baseCounter := anchor.counter), t, TickAt(s, choices, 10), l10,
          StoreNanos(begin, counter, anchor, after, q));
  }

  /** The anchor's time is stored, the sequence number is even again, and the lock is given back. */
  lemma {:induction false} Closes(c: Config, s: State, choices: seq<Choice>, t: nat, counter: nat, anchor: Anchor,
                                  after: nat)
    requires ConfigOk(c) && Quiet(s, t) && Alone(choices, t) && |choices| >= 14
    requires var base := s.(resyncing := true, sequence := s.sequence + 1, baseCounter := anchor.counter);
             var l := StoreNanos(|s.calls|, counter, anchor, after, s.sequence);
             After(c, s, choices, 11) == Placed(base, t, TickAt(s, choices, 10), l)
    ensures var l := LoadLast(|s.calls|, counter, anchor.nanos + Scale(c, Minus(after, anchor.counter)));
            After(c, s, choices, 14) == Placed(Anchored(s, anchor), t, TickAt(s, choices, 13), l)
  {
    hide After, TickAt, Scale, Minus, Middle;
    var begin, q := |s.calls|, s.sequence;
    var l11, l12 := StoreNanos(begin, counter, anchor, after, q), StoreEven(begin, counter, anchor, after, q);
    var l13 := Unlock(begin, counter, anchor.nanos + Scale(c, Minus(after, anchor.counter)));
    var b11 := s.(resyncing := true, sequence := q + 1, baseCounter := anchor.counter);
    var b12 := b11.(baseNanos := anchor.nanos);
    var b13 := Anchored(s, anchor).(resyncing := true);
    Next(c, s, choices, t, 11, b11, l11);
    Moves(b12, t, TickAt(s, choices, 11), l11, l12);
    Next(c, s, choices, t, 12, b12, l12);
    Moves(b13, t, TickAt(s, choices, 12), l12, l13);
    Next(c, s, choices, t, 13, b13, l13);
    Moves(Anchored(s, anchor), t, TickAt(s, choices, 13), l13, LoadLast(begin, counter, l13.nanos));
  }

  /** A call `resyncTicks` or more after the anchor reads the kernel clock, takes the middle of its two counter readings
      as the reading's moment, and returns the kernel's time and the ticks since that moment in nanoseconds, or the last
      value returned if that is larger. The next calls count from there. */
  lemma {:induction false} LongAfter(c: Config, s: State, choices: seq<Choice>, t: nat)
    requires ConfigOk(c) && Quiet(s, t) && Alone(choices, t) && |choices| == 16
    requires TickAt(s, choices, 0) >= s.baseCounter + c.resyncTicks
    ensures var counter, after, end := TickAt(s, choices, 0), TickAt(s, choices, 7), TickAt(s, choices, 15);
            counter <= after &&
            var middle, kernel := counter + (after - counter) / 2, choices[6].kernel;
            var value := Larger(kernel + Nanos(c, middle, after), s.last);
            && Run(c, s, choices)
               == s.(tick := end, last := value, calls := s.calls + [Finished(value, |s.calls|, counter, end)],
                     sequence := s.sequence + 2, baseCounter := middle, baseNanos := kernel,
                     anchors := s.anchors + [Anchor(middle, kernel)])
  {
    hide *;
    var counter, after := TickAt(s, choices, 0), TickAt(s, choices, 7);
    TicksPass(s, choices, 7);
    MiddleIs(counter, after);
    var anchor := Anchor(counter + (after - counter) / 2, choices[6].kernel);
    Quieted(s, t);
    Elapsed(c, s.baseCounter, counter);
    Reads(c, s, choices, t);
    Locks(c, s, choices, t, counter, s.baseNanos + Scale(c, Minus(counter, s.baseCounter)));
    Opens(c, s, choices, t, counter, anchor, after);
    Closes(c, s, choices, t, counter, anchor, after);
    NanosAre(c, after, anchor.counter);
    WholeRun(c, s, choices);
    var nanos := anchor.nanos + Nanos(c, anchor.counter, after);
    AnchoredIs(s, anchor);
    Returns(c, s, choices, t, 14, Anchored(s, anchor), |s.calls|, counter, nanos);
    EndedIs(Anchored(s, anchor), t, |s.calls|, counter, nanos, TickAt(s, choices, 15));
  }

  lemma AnchoredIs(s: State, anchor: Anchor)
    ensures Anchored(s, anchor) == s.(sequence := s.sequence + 2, baseCounter := anchor.counter,
                                      baseNanos := anchor.nanos, anchors := s.anchors + [anchor])
  {
  }

  lemma Quieted(s: State, t: nat)
    requires Quiet(s, t)
    ensures t < |s.threads| && s.threads[t].Idle?
  {
  }

  lemma Elapsed(c: Config, from: nat, counter: nat)
    requires ConfigOk(c)
    ensures Minus(counter, from) < c.resyncTicks <==> counter < from + c.resyncTicks
  {
  }

  lemma {:induction false} TicksPass(s: State, choices: seq<Choice>, k: nat)
    requires k < |choices|
    ensures TickAt(s, choices, 0) <= TickAt(s, choices, k)
  {
    if k > 0 {
      TicksPass(s, choices, k - 1);
    }
  }

  lemma MiddleIs(before: nat, after: nat)
    requires before <= after
    ensures Middle(before, after) == before + (after - before) / 2
  {
  }

  lemma NanosAre(c: Config, a: nat, b: nat)
    requires ConfigOk(c)
    ensures Scale(c, Minus(a, b)) == Nanos(c, b, a)
  {
  }

  lemma WholeRun(c: Config, s: State, choices: seq<Choice>)
    requires ConfigOk(c)
    ensures After(c, s, choices, |choices|) == Run(c, s, choices)
  {
    assert choices[..|choices|] == choices;
  }
}
