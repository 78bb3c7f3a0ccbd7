/** How far the fast clock is from true time (ps5/runtime/fast_clock.h), when the counter runs at its frequency and the
    kernel clock is right at the moment it is read. */
module ClockError {
  import opened FastClock

  /** True time at a counter value, in nanoseconds multiplied by the frequency. */
  function Truth(origin: int, counter: nat): int {
    origin + counter * NANOS
  }

  /** A kernel reading that is right at a counter value: true time rounded down to nanoseconds. */
  predicate Exact(c: Config, origin: int, nanos: nat, counter: nat) {
    nanos * c.frequency <= Truth(origin, counter) < nanos * c.frequency + c.frequency
  }

  /** What the middle of a bracket of at most `width` ticks can be off by. */
  function Slack(width: nat): nat {
    (width + 1) / 2 * NANOS
  }

  /** A kernel reading is right when it is taken, and no bracket is wider than `width`. */
  predicate GoodAct(c: Config, origin: int, width: nat, s: State, t: nat, kernel: nat)
    requires t < |s.threads|
  {
    var l := s.threads[t];
    (l.ReadSlow? ==> Exact(c, origin, kernel, s.tick)) && (l.ReadAfter? ==> s.tick <= l.counter + width)
  }

  predicate GoodRun(c: Config, origin: int, width: nat, s: State, choices: seq<Choice>)
    requires ConfigOk(c)
  {
    choices == [] ||
    var front, choice := choices[..|choices| - 1], choices[|choices| - 1];
    var before := Run(c, s, front);
    && GoodRun(c, origin, width, s, front)
    && (choice.thread < |before.threads| ==>
          GoodAct(c, origin, width, before.(tick := before.tick + choice.ticks), choice.thread, choice.kernel))
  }

  /** A time that is not before that of a counter value, but for the slack and two nanoseconds. */
  predicate NotEarly(c: Config, origin: int, width: nat, nanos: nat, counter: nat) {
    Truth(origin, counter) < nanos * c.frequency + Slack(width) + 2 * c.frequency
  }

  /** A time that is not after that of a counter value, but for the slack. */
  predicate NotLate(c: Config, origin: int, width: nat, nanos: nat, counter: nat) {
    nanos * c.frequency <= Truth(origin, counter) + Slack(width)
  }

  /** An anchor is right up to the slack and one nanosecond. */
  predicate AnchorTrue(c: Config, origin: int, width: nat, a: Anchor) {
    && NotLate(c, origin, width, a.nanos, a.counter)
    && Truth(origin, a.counter) < a.nanos * c.frequency + Slack(width) + c.frequency
  }

  /** What a thread holds: a kernel reading from its bracket, an anchor, or the time it will return. */
  predicate LocalTrue(c: Config, origin: int, width: nat, tick: nat, l: Local) {
    && (l.ReadAfter? ==>
          && Truth(origin, l.counter) < l.kernel * c.frequency + c.frequency
          && l.kernel * c.frequency <= Truth(origin, tick))
    && (l.LockLoad? || l.StoreOdd? || Writing(l) ==> AnchorTrue(c, origin, width, l.anchor))
    && (l.TryLock? || l.Unlock? || l.LoadLast? || l.Exchange? ==>
          NotEarly(c, origin, width, l.nanos, l.counter) && NotLate(c, origin, width, l.nanos, tick))
    && (l.Exchange? ==> NotLate(c, origin, width, l.previous, tick))
  }

  predicate CallTrue(c: Config, origin: int, width: nat, call: Finished) {
    && NotEarly(c, origin, width, call.value, call.started)
    && NotLate(c, origin, width, call.value, call.ended)
  }

  predicate AllTrue(c: Config, origin: int, width: nat, s: State) {
    && (forall i :: 0 <= i < |s.anchors| ==>
        AnchorTrue(c, origin, width, s.anchors[i]) && s.anchors[i].counter <= s.tick)
    && NotLate(c, origin, width, s.last, s.tick)
    && (forall i :: 0 <= i < |s.calls| ==> CallTrue(c, origin, width, s.calls[i]))
    && forall t :: 0 <= t < |s.threads| ==> LocalTrue(c, origin, width, s.tick, s.threads[t])
  }

  lemma TicksTrue(c: Config, origin: int, width: nat, s: State, ticks: nat)
    requires AllTrue(c, origin, width, s)
    ensures AllTrue(c, origin, width, s.(tick := s.tick + ticks))
  {
    hide AnchorTrue, CallTrue, Slack;
    var now := s.(tick := s.tick + ticks);
    forall t | 0 <= t < |now.threads|
      ensures LocalTrue(c, origin, width, now.tick, now.threads[t])
    {
      assert LocalTrue(c, origin, width, s.tick, s.threads[t]);
    }
  }

  /** A reading of a true anchor: at a counter value behind it the anchor's own time. */
  lemma ReadingTrue(c: Config, origin: int, width: nat, a: Anchor, counter: nat, tick: nat)
    requires ConfigOk(c) && AnchorTrue(c, origin, width, a) && a.counter <= tick && counter <= tick
    ensures var nanos := a.nanos + Scale(c, Minus(counter, a.counter));
            NotEarly(c, origin, width, nanos, counter) && NotLate(c, origin, width, nanos, tick)
  {
    var elapsed := Minus(counter, a.counter);
    ScaleBounds(c, elapsed);
    assert (a.nanos + Scale(c, elapsed)) * c.frequency == a.nanos * c.frequency + Scale(c, elapsed) * c.frequency;
    hide Scale;
  }

  /** The middle of a bracket whose reading was right somewhere inside. */
  lemma MiddleTrue(c: Config, origin: int, width: nat, before: nat, nanos: nat, after: nat)
    requires before <= after <= before + width
    requires Truth(origin, before) < nanos * c.frequency + c.frequency && nanos * c.frequency <= Truth(origin, after)
    ensures AnchorTrue(c, origin, width, Anchor(Middle(before, after), nanos))
  {
  }

  lemma ValueOrder(c: Config, origin: int, width: nat, nanos: nat, larger: nat, counter: nat)
    requires NotEarly(c, origin, width, nanos, counter) && nanos <= larger
    ensures NotEarly(c, origin, width, larger, counter)
  {
    assert (larger - nanos) * c.frequency >= 0;
    assert larger * c.frequency == nanos * c.frequency + (larger - nanos) * c.frequency;
  }

  /** What a step leaves its thread with. */
  lemma ActLocal(c: Config, origin: int, width: nat, s: State, t: nat, kernel: nat, spurious: bool)
    requires ConfigOk(c) && t < |s.threads| && Inv(s) && AllTrue(c, origin, width, s)
    requires GoodAct(c, origin, width, s, t, kernel)
    ensures LocalTrue(c, origin, width, s.tick, Act(c, s, t, kernel, spurious).threads[t])
  {
    hide Scale, Middle, Minus, NotEarly, NotLate, AnchorTrue, CallTrue, Slack, Exclusive, CallsOk;
    var l := s.threads[t];
    assert LocalOk(s, l) && LocalTrue(c, origin, width, s.tick, l);
    match l {
      case Recheck(begin, counter, sequence, baseCounter, baseNanos) =>
        if sequence % 2 == 0 && sequence == s.sequence {
          ReadingTrue(c, origin, width, s.anchors[|s.anchors| - 1], counter, s.tick);
        }
      case ReadAfter(begin, counter, nanos) =>
        MiddleTrue(c, origin, width, counter, nanos, s.tick);
      case StoreEven(begin, counter, anchor, after, sequence) =>
        ReadingTrue(c, origin, width, anchor, after, s.tick);
        StillNotEarly(c, origin, width, anchor.nanos + Scale(c, Minus(after, anchor.counter)), counter, after);
      case _ =>
    }
  }

  lemma StillNotEarly(c: Config, origin: int, width: nat, nanos: nat, counter: nat, later: nat)
    requires NotEarly(c, origin, width, nanos, later) && counter <= later
    ensures NotEarly(c, origin, width, nanos, counter)
  {
  }

  /** Every step keeps every value true. */
  lemma ActTrue(c: Config, origin: int, width: nat, s: State, t: nat, kernel: nat, spurious: bool)
    requires ConfigOk(c) && t < |s.threads| && Inv(s) && AllTrue(c, origin, width, s)
    requires GoodAct(c, origin, width, s, t, kernel)
    ensures AllTrue(c, origin, width, Act(c, s, t, kernel, spurious))
  {
    var l := s.threads[t];
    ActLocal(c, origin, width, s, t, kernel, spurious);
    assert LocalOk(s, l) && LocalTrue(c, origin, width, s.tick, l);
    if l.Exchange? && l.nanos <= l.previous {
      ValueOrder(c, origin, width, l.nanos, l.previous, l.counter);
    }
    hide Scale, Middle, Minus, NotEarly, NotLate, AnchorTrue, Slack, Inv, LocalTrue, LocalOk;
  }

  lemma {:induction false} RunTrue(c: Config, origin: int, width: nat, s: State, choices: seq<Choice>)
    requires ConfigOk(c) && Inv(s) && AllTrue(c, origin, width, s) && GoodRun(c, origin, width, s, choices)
    ensures AllTrue(c, origin, width, Run(c, s, choices))
  {
    hide Inv, Act, AllTrue, GoodAct;
    if choices != [] {
      var front, choice := choices[..|choices| - 1], choices[|choices| - 1];
      RunTrue(c, origin, width, s, front);
      RunKeeps(c, s, front);
      var before := Run(c, s, front);
      var later := before.(tick := before.tick + choice.ticks);
      TicksPass(before, choice.ticks);
      TicksTrue(c, origin, width, before, choice.ticks);
      if choice.thread < |before.threads| {
        ActTrue(c, origin, width, later, choice.thread, choice.kernel, choice.spurious);
      }
    }
  }

  lemma StartTrue(c: Config, origin: int, width: nat, threads: nat, before: nat, exact: nat, nanos: nat, after: nat)
    requires before <= exact <= after <= before + width && Exact(c, origin, nanos, exact)
    ensures AllTrue(c, origin, width, Start(threads, before, nanos, after))
  {
    MiddleTrue(c, origin, width, before, nanos, after);
  }

  /** In every interleaving, every value a call returns is true time somewhere between the call's start and its end, up
      to half the widest bracket of a resync and two nanoseconds of rounding: two below, none above. */
  lemma ErrorBound(c: Config, origin: int, width: nat, threads: nat, before: nat, exact: nat, nanos: nat, after: nat,
                   choices: seq<Choice>, i: nat)
    requires ConfigOk(c) && before <= exact <= after <= before + width && Exact(c, origin, nanos, exact)
    requires GoodRun(c, origin, width, Start(threads, before, nanos, after), choices)
    requires i < |Run(c, Start(threads, before, nanos, after), choices).calls|
    ensures var call := Run(c, Start(threads, before, nanos, after), choices).calls[i];
            Truth(origin, call.started) - Slack(width) - 2 * c.frequency < call.value * c.frequency
                <= Truth(origin, call.ended) + Slack(width)
  {
    StartOk(threads, before, nanos, after);
    StartTrue(c, origin, width, threads, before, exact, nanos, after);
    RunTrue(c, origin, width, Start(threads, before, nanos, after), choices);
    hide Run, GoodRun, Start, LocalTrue, AnchorTrue, Truth, Slack;
  }
}
