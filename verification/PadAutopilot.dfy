/** Scripted button presses (ps5/input/pad_autopilot.cpp): a cursor over the sorted presses against the full scan. */
module PadAutopilot {

  type Mask = bv32

  /** Buttons held over [start, end), in microseconds since the script began. */
  datatype Press = Press(start: nat, end: nat, buttons: Mask)

  function Join(a: Mask, b: Mask): Mask {
    a | b
  }

  lemma JoinLaws(a: Mask, b: Mask, c: Mask)
    ensures Join(Join(a, b), c) == Join(a, Join(b, c)) && Join(a, b) == Join(b, a) && Join(0, a) == a && Join(a, 0) == a
  {
  }

  /** The buttons a press adds at a moment. */
  function Down(p: Press, elapsed: nat): Mask {
    if p.start <= elapsed < p.end then p.buttons else 0
  }

  /** The meaning of a script: at each moment, the buttons of every press that is on. */
  function Held(presses: seq<Press>, elapsed: nat): Mask {
    if presses == [] then 0 else Join(Down(presses[0], elapsed), Held(presses[1..], elapsed))
  }

  /** Whether any of the buttons in `some` is among `buttons`. */
  predicate AnyOf(buttons: Mask, some: Mask) {
    buttons & some != 0
  }

  lemma AnyJoined(a: Mask, b: Mask, some: Mask)
    ensures AnyOf(Join(a, b), some) <==> AnyOf(a, some) || AnyOf(b, some)
  {
    Distributes(a, b, some);
    NoneOfBoth(a & some, b & some);
  }

  lemma Distributes(a: Mask, b: Mask, c: Mask)
    ensures Join(a, b) & c == (a & c) | (b & c)
  {
  }

  lemma NoneOfBoth(a: Mask, b: Mask)
    ensures a | b == 0 <==> a == 0 && b == 0
  {
  }

  lemma NoneHeld(some: Mask)
    ensures !AnyOf(0, some)
  {
  }

  /** A button is held if and only if one of the presses holds it: from its start on and before its end. */
  lemma {:induction false} HeldButtons(presses: seq<Press>, elapsed: nat, some: Mask)
    ensures AnyOf(Held(presses, elapsed), some)
        <==> exists i :: 0 <= i < |presses| && presses[i].start <= elapsed < presses[i].end
                         && AnyOf(presses[i].buttons, some)
  {
    hide Join, AnyOf;
    NoneHeld(some);
    if presses != [] {
      var rest := presses[1..];
      HeldButtons(rest, elapsed, some);
      AnyJoined(Down(presses[0], elapsed), Held(rest, elapsed), some);
      if AnyOf(Held(rest, elapsed), some) {
        var i :| 0 <= i < |rest| && rest[i].start <= elapsed < rest[i].end && AnyOf(rest[i].buttons, some);
        assert presses[i + 1] == rest[i];
      }
      if i :| 0 < i < |presses| && presses[i].start <= elapsed < presses[i].end && AnyOf(presses[i].buttons, some) {
        assert rest[i - 1] == presses[i];
      }
    }
  }

  predicate Sorted(presses: seq<Press>) {
    forall i, j :: 0 <= i < j < |presses| ==> presses[i].start <= presses[j].start
  }

  lemma {:induction false} HeldAppends(a: seq<Press>, b: seq<Press>, elapsed: nat)
    ensures Held(a + b, elapsed) == Join(Held(a, elapsed), Held(b, elapsed))
  {
    hide Down, Join;
    if a == [] {
      assert a + b == b;
      JoinLaws(Held(b, elapsed), 0, 0);
    } else {
      assert (a + b)[1..] == a[1..] + b;
      HeldAppends(a[1..], b, elapsed);
      JoinLaws(Down(a[0], elapsed), Held(a[1..], elapsed), Held(b, elapsed));
    }
  }

  lemma {:induction false} HeldNone(presses: seq<Press>, elapsed: nat)
    requires forall i :: 0 <= i < |presses| ==> Down(presses[i], elapsed) == 0
    ensures Held(presses, elapsed) == 0
  {
    hide Down, Join;
    if presses != [] {
      HeldNone(presses[1..], elapsed);
      JoinLaws(0, 0, 0);
    }
  }

  /** One press more: the step of both scans. */
  lemma HeldOneMore(presses: seq<Press>, i: nat, elapsed: nat)
    requires i < |presses|
    ensures Held(presses[..i + 1], elapsed) == Join(Held(presses[..i], elapsed), Down(presses[i], elapsed))
  {
    hide Down, Join;
    assert presses[..i + 1] == presses[..i] + [presses[i]];
    HeldAppends(presses[..i], [presses[i]], elapsed);
    assert Held([presses[i]], elapsed) == Join(Down(presses[i], elapsed), Held([], elapsed));
    JoinLaws(Down(presses[i], elapsed), 0, 0);
  }

  /** The order of the presses carries no meaning, so neither does the order an unstable sort leaves ties in. */
  lemma {:induction false} OrderIsIrrelevant(a: seq<Press>, b: seq<Press>, elapsed: nat)
    requires multiset(a) == multiset(b)
    ensures Held(a, elapsed) == Held(b, elapsed)
    decreases |a|
  {
    hide Down, Join;
    if a == [] {
      assert |multiset(b)| == 0;
    } else {
      assert a[0] in multiset(b);
      var i :| 0 <= i < |b| && b[i] == a[0];
      var rest := b[..i] + b[i + 1..];
      assert a == [a[0]] + a[1..];
      assert b == b[..i] + [b[i]] + b[i + 1..];
      assert multiset(a[1..]) == multiset(a) - multiset{a[0]};
      assert multiset(rest) == multiset(b) - multiset{a[0]};
      OrderIsIrrelevant(a[1..], rest, elapsed);
      HeldWithout(b, i, elapsed);
    }
  }

  lemma HeldWithout(b: seq<Press>, i: nat, elapsed: nat)
    requires i < |b|
    ensures Held(b, elapsed) == Join(Down(b[i], elapsed), Held(b[..i] + b[i + 1..], elapsed))
  {
    hide Down, Join;
    var d, x, y := Down(b[i], elapsed), Held(b[..i], elapsed), Held(b[i + 1..], elapsed);
    assert b == b[..i + 1] + b[i + 1..];
    HeldAppends(b[..i + 1], b[i + 1..], elapsed);
    HeldOneMore(b, i, elapsed);
    HeldAppends(b[..i], b[i + 1..], elapsed);
    JoinLaws(x, d, y);
    JoinLaws(d, x, y);
  }

  /** Presses that start later are not on. */
  lemma LaterIsOff(presses: seq<Press>, i: nat, elapsed: nat)
    requires Sorted(presses) && i < |presses| && presses[i].start > elapsed
    ensures Held(presses, elapsed) == Held(presses[..i], elapsed)
  {
    hide Join;
    assert presses == presses[..i] + presses[i..];
    HeldAppends(presses[..i], presses[i..], elapsed);
    HeldNone(presses[i..], elapsed);
    JoinLaws(Held(presses[..i], elapsed), 0, 0);
  }

  /** Presses before the cursor that are over are not on. */
  lemma EarlierIsOff(presses: seq<Press>, cursor: nat, elapsed: nat)
    requires cursor <= |presses| && forall i :: 0 <= i < cursor ==> presses[i].end <= elapsed
    ensures Held(presses[..cursor], elapsed) == 0
  {
    HeldNone(presses[..cursor], elapsed);
  }

  lemma CursorIsEnough(presses: seq<Press>, cursor: nat, elapsed: nat)
    requires cursor <= |presses| && forall i :: 0 <= i < cursor ==> presses[i].end <= elapsed
    ensures Held(presses, elapsed) == Held(presses[cursor..], elapsed)
  {
    hide Join, Down;
    EarlierIsOff(presses, cursor, elapsed);
    assert presses == presses[..cursor] + presses[cursor..];
    HeldAppends(presses[..cursor], presses[cursor..], elapsed);
    JoinLaws(Held(presses[cursor..], elapsed), 0, 0);
  }

  class PadSample {
    var connected: bool
    var intercepted: bool
    var buttons: Mask
  }

  class Autopilot {
    var presses: seq<Press>
    var started: bool
    var origin: nat
    var cursor: nat
    /** The latest moment a sample was taken at. */
    ghost var latest: nat

    ghost predicate Valid()
      reads this
    {
      && Sorted(presses) && cursor <= |presses|
      && (!started ==> cursor == 0)
      && forall i :: 0 <= i < cursor ==> presses[i].end <= latest
    }

    function Elapsed(now: nat): nat
      reads this
    {
      if !started then 0 else if now >= origin then now - origin else 0
    }

    /** `load`: a script with an error presses nothing. */
    method Load(script: seq<Press>, error: bool)
      requires Sorted(script)
      modifies this
      ensures Valid() && presses == (if error then [] else script) && !started && latest == 0
    {
      presses := if error then [] else script;
      started, origin, cursor := false, 0, 0;
      latest := 0;
    }

    /** `buttons_at`: the full scan. */
    method ButtonsAt(elapsed: nat) returns (held: Mask)
      requires Valid()
      ensures held == Held(presses, elapsed)
    {
      hide Join;
      held := 0;
      for i := 0 to |presses|
        invariant held == Held(presses[..i], elapsed)
      {
        var p := presses[i];
        if p.start > elapsed {
          LaterIsOff(presses, i, elapsed);
          return;
        }
        HeldOneMore(presses, i, elapsed);
        if elapsed < p.end {
          held := Join(held, p.buttons);
        } else {
          JoinLaws(held, 0, 0);
        }
      }
      assert presses[..|presses|] == presses;
    }

    /** `apply`: the cursor skips what is over for good. */
    method Apply(sample: PadSample, now: nat) returns (held: Mask)
      requires Valid()
      modifies this, sample
      ensures Valid() && presses == old(presses)
      ensures presses == [] ==> held == 0 && unchanged(this) && unchanged(sample)
      ensures presses != [] ==> started && sample.connected && !sample.intercepted
      ensures presses != [] ==> sample.buttons == Join(old(sample.buttons), held)
      ensures presses != [] ==> origin == if old(started) then old(origin) else now
      ensures presses != [] ==> held == Held(presses[cursor..], Elapsed(now))
      ensures presses != [] && Elapsed(now) >= old(latest) ==>
          held == Held(presses, Elapsed(now)) && latest == Elapsed(now)
    {
      hide Join, Held, Sorted;
      if presses == [] {
        return 0;
      }
      if !started {
        origin, started, cursor := now, true, 0;
      }
      var elapsed := if now >= origin then now - origin else 0;
      ghost var before := latest;
      latest := if elapsed >= latest then elapsed else latest;
      Skip(elapsed);
      held := Scan(elapsed);
      sample.connected, sample.intercepted := true, false;
      sample.buttons := Join(sample.buttons, held);
      if elapsed >= before {
        CursorIsEnough(presses, cursor, elapsed);
      }
    }

    /** The cursor passes presses that are over, up to the first that is not. */
    method Skip(elapsed: nat)
      requires Valid() && started && elapsed <= latest
      modifies this`cursor
      ensures Valid() && cursor >= old(cursor)
      ensures cursor < |presses| ==> presses[cursor].end > elapsed
    {
      hide Sorted;
      while cursor < |presses| && presses[cursor].end <= elapsed
        invariant Valid() && cursor >= old(cursor)
      {
        cursor := cursor + 1;
      }
    }

    /** The scan of `apply`, from the cursor on. */
    method Scan(elapsed: nat) returns (held: Mask)
      requires Valid()
      ensures held == Held(presses[cursor..], elapsed)
    {
      hide Join;
      held := 0;
      var i := cursor;
      ghost var rest := presses[cursor..];
      while i < |presses| && presses[i].start <= elapsed
        invariant cursor <= i <= |presses|
        invariant held == Held(rest[..i - cursor], elapsed)
      {
        HeldOneMore(rest, i - cursor, elapsed);
        if elapsed < presses[i].end {
          held := Join(held, presses[i].buttons);
        } else {
          JoinLaws(held, 0, 0);
        }
        i := i + 1;
      }
      if i < |presses| {
        LaterIsOff(rest, i - cursor, elapsed);
      } else {
        assert rest[..i - cursor] == rest;
      }
    }

    /** A whole run: samples at times that never decrease get exactly the full scan's buttons, counted from the first.
        */
    method Replay(times: seq<nat>, sample: PadSample) returns (helds: seq<Mask>)
      requires Valid() && presses != [] && !started && latest == 0
      requires forall i, j :: 0 <= i < j < |times| ==> times[i] <= times[j]
      modifies this, sample
      ensures |helds| == |times| && presses == old(presses)
      ensures forall i :: 0 <= i < |times| ==> helds[i] == Held(presses, times[i] - times[0])
    {
      helds := [];
      for i := 0 to |times|
        invariant Valid() && presses == old(presses) && |helds| == i
        invariant if i == 0 then !started && latest == 0
            else started && origin == times[0] && latest == times[i - 1] - times[0]
        invariant forall j :: 0 <= j < i ==> helds[j] == Held(presses, times[j] - times[0])
      {
        var held := Apply(sample, times[i]);
        helds := helds + [held];
      }
    }
  }
}
