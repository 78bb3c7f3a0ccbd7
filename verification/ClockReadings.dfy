/** What the values of the fast clock are (ps5/runtime/fast_clock.h): readings of the counter on the line of an anchor
    that was in force. */
module ClockReadings {
  import opened FastClock

  /** The time a counter value stands for, from an anchor on. */
  function Reading(c: Config, a: Anchor, counter: nat): nat
    requires ConfigOk(c)
  {
    a.nanos + Scale(c, Minus(counter, a.counter))
  }

  /** A reading of an anchor that was in force, at a counter value that has been reached. */
  ghost predicate OnLine(c: Config, s: State, n: nat)
    requires ConfigOk(c)
  {
    exists a, counter: nat :: a in s.anchors && counter <= s.tick && n == Reading(c, a, counter)
  }

  /** The time a thread is about to return, and what it saw in the register. */
  ghost predicate HeldOnLine(c: Config, s: State, l: Local)
    requires ConfigOk(c)
  {
    && (l.TryLock? || l.Unlock? || l.LoadLast? || l.Exchange? ==> OnLine(c, s, l.nanos))
    && (l.Exchange? ==> OnLine(c, s, l.previous))
  }

  ghost predicate AllOnLine(c: Config, s: State)
    requires ConfigOk(c)
  {
    && OnLine(c, s, s.last)
    && (forall i :: 0 <= i < |s.calls| ==> OnLine(c, s, s.calls[i].value))
    && forall t :: 0 <= t < |s.threads| ==> HeldOnLine(c, s, s.threads[t])
  }

  /** Anchors are only added and the counter does not run back. */
  predicate Later(s: State, now: State) {
    s.anchors <= now.anchors && s.tick <= now.tick
  }

  lemma StaysOnLine(c: Config, s: State, now: State, n: nat)
    requires ConfigOk(c) && Later(s, now) && OnLine(c, s, n)
    ensures OnLine(c, now, n)
  {
    var a, counter: nat :| a in s.anchors && counter <= s.tick && n == Reading(c, a, counter);
    assert a in now.anchors;
  }

  lemma IsOnLine(c: Config, s: State, a: Anchor, counter: nat)
    requires ConfigOk(c) && a in s.anchors && counter <= s.tick
    ensures OnLine(c, s, Reading(c, a, counter))
  {
  }

  lemma StaysHeld(c: Config, s: State, now: State, l: Local)
    requires ConfigOk(c) && Later(s, now) && HeldOnLine(c, s, l)
    ensures HeldOnLine(c, now, l)
  {
    hide OnLine;
    if l.TryLock? || l.Unlock? || l.LoadLast? || l.Exchange? {
      StaysOnLine(c, s, now, l.nanos);
    }
    if l.Exchange? {
      StaysOnLine(c, s, now, l.previous);
    }
  }

  /** One thread moves; the register and the finished calls hold only values it or the register held. */
  lemma AllStay(c: Config, s: State, now: State, t: nat)
    requires ConfigOk(c) && AllOnLine(c, s) && Later(s, now) && t < |s.threads| && |now.threads| == |s.threads|
    requires forall u :: 0 <= u < |s.threads| && u != t ==> now.threads[u] == s.threads[u]
    requires HeldOnLine(c, now, now.threads[t]) && (now.last == s.last || OnLine(c, now, now.last))
    requires now.calls == s.calls || (|now.calls| == |s.calls| + 1 && now.calls[..|s.calls|] == s.calls
                                      && OnLine(c, now, now.calls[|s.calls|].value))
    ensures AllOnLine(c, now)
  {
    hide OnLine;
    StaysOnLine(c, s, now, s.last);
    forall i | 0 <= i < |now.calls|
      ensures OnLine(c, now, now.calls[i].value)
    {
      if i < |s.calls| {
        assert now.calls[i] == s.calls[i];
        StaysOnLine(c, s, now, s.calls[i].value);
      }
    }
    forall u | 0 <= u < |now.threads|
      ensures HeldOnLine(c, now, now.threads[u])
    {
      if u != t {
        StaysHeld(c, s, now, s.threads[u]);
      }
    }
  }

  /** What the step of a thread makes it hold. */
  lemma ActHolds(c: Config, s: State, t: nat, kernel: nat, spurious: bool)
    requires ConfigOk(c) && t < |s.threads| && Inv(s) && AllOnLine(c, s)
    ensures var now := Act(c, s, t, kernel, spurious);
            && Later(s, now) && |now.threads| == |s.threads| && HeldOnLine(c, now, now.threads[t])
            && (forall u :: 0 <= u < |s.threads| && u != t ==> now.threads[u] == s.threads[u])
            && (now.last == s.last || OnLine(c, now, now.last))
            && (now.calls == s.calls
                || (|now.calls| == |s.calls| + 1 && now.calls[..|s.calls|] == s.calls
                    && OnLine(c, now, now.calls[|s.calls|].value)))
  {
    hide Scale, Exclusive, CallsOk, OnLine, Middle;
    var l, now := s.threads[t], Act(c, s, t, kernel, spurious);
    assert LocalOk(s, l) && HeldOnLine(c, s, l);
    StaysHeld(c, s, now, l);
    StaysOnLine(c, s, now, s.last);
    match l {
      case Recheck(begin, counter, sequence, baseCounter, baseNanos) =>
        if sequence % 2 == 0 && sequence == s.sequence {
          IsOnLine(c, now, s.anchors[|s.anchors| - 1], counter);
        }
      case StoreEven(begin, counter, anchor, after, sequence) =>
        IsOnLine(c, now, anchor, after);
      case _ =>
    }
  }

  lemma {:induction false} RunOnLine(c: Config, threads: nat, before: nat, nanos: nat, after: nat, choices: seq<Choice>)
    requires ConfigOk(c)
    ensures AllOnLine(c, Run(c, Start(threads, before, nanos, after), choices))
  {
    var start := Start(threads, before, nanos, after);
    StartOk(threads, before, nanos, after);
    hide Act, Inv;
    if choices == [] {
      IsOnLine(c, start, start.anchors[0], 0);
      hide OnLine, Scale;
    } else {
      hide Start, OnLine;
      var front, choice := choices[..|choices| - 1], choices[|choices| - 1];
      RunOnLine(c, threads, before, nanos, after, front);
      RunKeeps(c, start, front);
      var s := Run(c, start, front);
      var later := s.(tick := s.tick + choice.ticks);
      TicksPass(s, choice.ticks);
      TicksOnLine(c, s, later);
      if choice.thread < |s.threads| {
        ActHolds(c, later, choice.thread, choice.kernel, choice.spurious);
        AllStay(c, later, Act(c, later, choice.thread, choice.kernel, choice.spurious), choice.thread);
      }
    }
  }

  lemma TicksOnLine(c: Config, s: State, now: State)
    requires ConfigOk(c) && AllOnLine(c, s) && Later(s, now) && now == s.(tick := now.tick)
    ensures AllOnLine(c, now)
  {
    hide OnLine, HeldOnLine;
    StaysOnLine(c, s, now, s.last);
    forall i | 0 <= i < |now.calls|
      ensures OnLine(c, now, now.calls[i].value)
    {
      StaysOnLine(c, s, now, s.calls[i].value);
    }
    forall u | 0 <= u < |now.threads|
      ensures HeldOnLine(c, now, now.threads[u])
    {
      StaysHeld(c, s, now, s.threads[u]);
    }
  }

  /** In every interleaving, every value a call returns is the reading of some anchor that was in force, at a counter
      value that had been reached: no torn pair of counter and time ever shows, and no value lies ahead of all anchors.
      */
  lemma ValuesAreReadings(c: Config, threads: nat, before: nat, nanos: nat, after: nat, choices: seq<Choice>, i: nat)
      returns (a: Anchor, counter: nat)
    requires ConfigOk(c) && i < |Run(c, Start(threads, before, nanos, after), choices).calls|
    ensures var s := Run(c, Start(threads, before, nanos, after), choices);
            a in s.anchors && counter <= s.tick && s.calls[i].value == Reading(c, a, counter)
  {
    hide Run, Start, Reading;
    RunOnLine(c, threads, before, nanos, after, choices);
    var s := Run(c, Start(threads, before, nanos, after), choices);
    assert OnLine(c, s, s.calls[i].value);
    a, counter :| a in s.anchors && counter <= s.tick && s.calls[i].value == Reading(c, a, counter);
  }
}
