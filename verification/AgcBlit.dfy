/** Asynchronous blits (ps5/gpu/agc_blit.cpp): up to sixteen in flight, each in an arena of its own with its own
    completion label, and a shared 1x1 image for clears. The GPU finishes blits in submission order and reads an arena
    and the image only then. */
module AgcBlit {
  import opened Bytes

  const IN_FLIGHT: nat := 16
  const TRIES: nat := 5000

  /** What a blit reads from: a depth or colour target of the caller, or a clear image. */
  datatype Source = NoSource | Target(id: nat) | Fill(id: nat)

  /** An arena: its memory (commands, geometry, constants), its completion label, the serial of its last blit, whether
      that blit is unresolved, and the source it keeps alive. */
  datatype Arena = Arena(mapped: bool, memory: nat, mark: nat, serial: nat, submitted: bool, source: Source)

  const NoArena := Arena(false, 0, 0, 0, false, NoSource)

  /** What the GPU does for one blit: the arena contents it reads, and the colour when the source is a clear image. */
  datatype Seen = Seen(memory: nat, source: Source, color: Option<nat>)

  datatype Job = Job(arena: nat, serial: nat)

  function ColorOf(colors: map<nat, nat>, source: Source): Option<nat> {
    if source.Fill? && source.id in colors then Some(colors[source.id]) else None
  }

  function Image(a: Arena, colors: map<nat, nat>): Seen {
    Seen(a.memory, a.source, ColorOf(colors, a.source))
  }

  function JobImage(arenas: seq<Arena>, colors: map<nat, nat>, q: Job): Seen {
    if q.arena < |arenas| then Image(arenas[q.arena], colors) else Seen(0, NoSource, None)
  }

  /** What the GPU would do for its unfinished jobs, reading memory as it is now. */
  function QueueImage(arenas: seq<Arena>, colors: map<nat, nat>, queue: seq<Job>): (r: seq<Seen>)
    ensures |r| == |queue|
  {
    seq(|queue|, i requires 0 <= i < |queue| => JobImage(arenas, colors, queue[i]))
  }

  predicate InQueue(queue: seq<Job>, i: nat) {
    exists k :: 0 <= k < |queue| && queue[k].arena == i
  }

  /** `landed`. */
  predicate Landed(a: Arena) {
    a.mark == a.serial
  }

  predicate JobOk(arenas: seq<Arena>, q: Job) {
    q.arena < |arenas| && arenas[q.arena].submitted && arenas[q.arena].serial == q.serial > 0
  }

  predicate QueueOk(arenas: seq<Arena>, queue: seq<Job>) {
    && (forall k :: 0 <= k < |queue| ==> JobOk(arenas, queue[k]))
    && (forall k, l :: 0 <= k < l < |queue| ==> queue[k].arena != queue[l].arena)
  }

  /** For an unresolved blit, the label holds its serial exactly when the GPU has finished it. Only the blit of a
      refused submission is neither queued nor finished, for good. */
  predicate ArenaOk(a: Arena, serial: nat, queued: bool, failed: bool) {
    && a.serial <= serial
    && (a.submitted ==> a.mapped && a.serial > 0)
    && (queued ==> a.submitted && !Landed(a))
    && (a.submitted && !failed ==> (queued <==> !Landed(a)))
  }

  predicate ArenasOk(arenas: seq<Arena>, serial: nat, queue: seq<Job>, failed: bool) {
    |arenas| == IN_FLIGHT && forall i :: 0 <= i < IN_FLIGHT ==> ArenaOk(arenas[i], serial, InQueue(queue, i), failed)
  }

  predicate History(requests: seq<Seen>, finished: seq<Seen>, queued: seq<Seen>, failed: bool) {
    finished + queued <= requests && (!failed ==> requests == finished + queued)
  }

  /** A change of an arena that is not queued is out of the GPU's reach. */
  lemma QueueKept(arenas: seq<Arena>, colors: map<nat, nat>, queue: seq<Job>, i: nat, a: Arena)
    requires i < |arenas| && !InQueue(queue, i)
    ensures QueueImage(arenas[i := a], colors, queue) == QueueImage(arenas, colors, queue)
  {
    forall k | 0 <= k < |queue|
      ensures queue[k].arena != i
    {
    }
  }

  /** So is a change of a clear image that no queued blit reads. */
  lemma ColorKept(arenas: seq<Arena>, colors: map<nat, nat>, queue: seq<Job>, image: nat, color: nat)
    requires forall k :: 0 <= k < |queue| && queue[k].arena < |arenas| ==> arenas[queue[k].arena].source != Fill(image)
    ensures QueueImage(arenas, colors[image := color], queue) == QueueImage(arenas, colors, queue)
  {
    var a, b := QueueImage(arenas, colors[image := color], queue), QueueImage(arenas, colors, queue);
    forall k | 0 <= k < |queue|
      ensures a[k] == b[k]
    {
    }
  }

  lemma FirstOrLater(queue: seq<Job>, i: nat)
    requires queue != []
    ensures InQueue(queue, i) <==> queue[0].arena == i || InQueue(queue[1..], i)
  {
    assert forall k :: 0 < k < |queue| ==> queue[k] == queue[1..][k - 1];
  }

  lemma Appended(queue: seq<Job>, q: Job, i: nat)
    ensures InQueue(queue + [q], i) <==> InQueue(queue, i) || i == q.arena
  {
    assert (queue + [q])[|queue|] == q;
    assert forall k :: 0 <= k < |queue| ==> (queue + [q])[k] == queue[k];
  }

  /** The GPU finishes the first job: it writes that arena's label and no other. */
  lemma JobFinishes(arenas: seq<Arena>, colors: map<nat, nat>, serial: nat, queue: seq<Job>, failed: bool)
    requires ArenasOk(arenas, serial, queue, failed) && QueueOk(arenas, queue) && queue != []
    ensures queue[0].arena < |arenas|
    ensures var now := arenas[queue[0].arena := arenas[queue[0].arena].(mark := queue[0].serial)];
            && ArenasOk(now, serial, queue[1..], failed) && QueueOk(now, queue[1..])
            && QueueImage(arenas, colors, queue)
                == [JobImage(arenas, colors, queue[0])] + QueueImage(now, colors, queue[1..])
  {
    var q := queue[0];
    assert JobOk(arenas, q);
    var now := arenas[q.arena := arenas[q.arena].(mark := q.serial)];
    forall i | 0 <= i < IN_FLIGHT
      ensures ArenaOk(now[i], serial, InQueue(queue[1..], i), failed)
    {
      FirstOrLater(queue, i);
      assert ArenaOk(arenas[i], serial, InQueue(queue, i), failed);
    }
    forall k | 0 <= k < |queue| - 1
      ensures JobOk(now, queue[1..][k])
      ensures JobImage(now, colors, queue[1..][k]) == JobImage(arenas, colors, queue[k + 1])
    {
      assert JobOk(arenas, queue[k + 1]);
    }
  }

  /** What the GPU can do to an arena: write the label of an unresolved blit that had not landed. */
  predicate Marked(a: Arena, b: Arena) {
    b == a.(mark := b.mark) && (b.mark != a.mark ==> a.submitted && !Landed(a))
  }

  /** What a look at an arena's label does while the GPU goes on: a blit that has landed is released, and no other. */
  predicate Looked(a: Arena, b: Arena) {
    || (Marked(a, b) && !(a.submitted && Landed(a)))
    || (a.submitted && Landed(b) && b == a.(mark := b.mark, submitted := false, source := NoSource))
  }

  class Blitter {
    var arenas: seq<Arena>
    var serial: nat
    var failed: bool

    // Clear images: their colours, the one in use, and the name of the next one.
    var colors: map<nat, nat>
    var constant: Option<nat>
    var nextImage: nat

    // The GPU's unfinished jobs.
    var queue: seq<Job>

    // Accepted blits, and what the GPU has done.
    ghost var requests: seq<Seen>
    ghost var finished: seq<Seen>

    ghost predicate Valid()
      reads this
    {
      && ArenasOk(arenas, serial, queue, failed) && QueueOk(arenas, queue)
      && History(requests, finished, QueueImage(arenas, colors, queue), failed)
      && (constant.Some? ==> constant.value in colors)
      && (forall c :: c in colors ==> c < nextImage)
      && (forall i :: 0 <= i < |arenas| && arenas[i].source.Fill? ==> arenas[i].source.id < nextImage)
    }

    constructor ()
      ensures Valid() && !failed && requests == [] && finished == [] && queue == [] && serial == 0
    {
      arenas := seq(IN_FLIGHT, i => if i == 0 then NoArena.(mapped := true) else NoArena);
      serial, failed, colors, constant, nextImage, queue := 0, false, map[], None, 0, [];
      requests, finished := [], [];
    }

    /** The GPU finishes its next job, reading the arena and the clear image as they are now. */
    method GpuFinishes()
      requires Valid() && queue != []
      modifies this`arenas, this`queue, this`finished
      ensures Valid() && queue == old(queue)[1..]
      ensures finished == old(finished) + [JobImage(old(arenas), colors, old(queue)[0])]
      ensures finished + QueueImage(arenas, colors, queue) == old(finished + QueueImage(arenas, colors, queue))
      ensures forall i :: 0 <= i < IN_FLIGHT ==> Marked(old(arenas)[i], arenas[i])
    {
      hide ArenaOk, QueueImage, JobImage;
      JobFinishes(arenas, colors, serial, queue, failed);
      FirstUnlanded(arenas, serial, queue, failed);
      ghost var image, rest := JobImage(arenas, colors, queue[0]), QueueImage(arenas, colors, queue)[1..];
      assert finished + ([image] + rest) == finished + [image] + rest;
      finished := finished + [image];
      var q := queue[0];
      arenas := arenas[q.arena := arenas[q.arena].(mark := q.serial)];
      queue := queue[1..];
    }

    /** Between any two steps of the caller the GPU may finish any number of jobs. */
    method GpuRuns()
      requires Valid()
      modifies this`arenas, this`queue, this`finished
      ensures Valid() && |arenas| == IN_FLIGHT
      ensures finished + QueueImage(arenas, colors, queue) == old(finished + QueueImage(arenas, colors, queue))
      ensures forall i :: 0 <= i < IN_FLIGHT ==> Marked(old(arenas)[i], arenas[i])
    {
      hide ArenasOk, QueueOk, History, QueueImage;
      var n: nat :| n <= |queue|;
      Count(arenas, serial, queue, failed);
      while n > 0
        invariant Valid() && n <= |queue| && |arenas| == IN_FLIGHT
        invariant finished + QueueImage(arenas, colors, queue) == old(finished + QueueImage(arenas, colors, queue))
        invariant forall i :: 0 <= i < IN_FLIGHT ==> Marked(old(arenas)[i], arenas[i])
      {
        GpuFinishes();
        Count(arenas, serial, queue, failed);
        n := n - 1;
      }
    }

    /** `Arena::release`. */
    method Release(i: nat)
      requires Valid() && i < |arenas| && arenas[i].submitted && Landed(arenas[i])
      modifies this`arenas
      ensures Valid() && arenas == old(arenas)[i := old(arenas)[i].(submitted := false, source := NoSource)]
      ensures QueueImage(arenas, colors, queue) == old(QueueImage(arenas, colors, queue))
    {
      ArenaFreed(arenas, colors, serial, queue, failed, i);
      hide ArenasOk, QueueOk, History, QueueImage;
      arenas := arenas[i := arenas[i].(submitted := false, source := NoSource)];
    }

    /** `retire`: releases every blit that has landed when its label is looked at. */
    method Retire()
      requires Valid()
      modifies this`arenas, this`queue, this`finished
      ensures Valid() && |arenas| == IN_FLIGHT
      ensures finished + QueueImage(arenas, colors, queue) == old(finished + QueueImage(arenas, colors, queue))
      ensures forall i :: 0 <= i < IN_FLIGHT ==> Looked(old(arenas)[i], arenas[i])
    {
      hide ArenasOk, QueueOk, History, QueueImage;
      Count(arenas, serial, queue, failed);
      for i := 0 to IN_FLIGHT
        invariant Valid() && |arenas| == IN_FLIGHT
        invariant finished + QueueImage(arenas, colors, queue) == old(finished + QueueImage(arenas, colors, queue))
        invariant forall j :: i <= j < IN_FLIGHT ==> Marked(old(arenas)[j], arenas[j])
        invariant forall j :: 0 <= j < i ==> Looked(old(arenas)[j], arenas[j])
      {
        GpuRuns();
        if arenas[i].submitted && Landed(arenas[i]) {
          Release(i);
        }
      }
      GpuRuns();
    }

    /** `wait`: 5000 looks at the label, the first at entry; a timeout is final. `looks` is what each of them saw. */
    method Wait(i: nat) returns (ok: bool, ghost looks: seq<nat>)
      requires Valid() && !failed && i < |arenas| && arenas[i].submitted
      modifies this`arenas, this`queue, this`finished, this`failed
      ensures Valid() && ok == !failed && |arenas| == IN_FLIGHT
      ensures ok ==> Looked(old(arenas)[i], arenas[i]) && !arenas[i].submitted
      ensures forall j :: 0 <= j < IN_FLIGHT && j != i ==> Marked(old(arenas)[j], arenas[j])
      ensures 0 < |looks| <= 5000 && looks[0] == old(arenas)[i].mark
      ensures ok == (looks[|looks| - 1] == old(arenas)[i].serial)
      ensures !ok ==> |looks| == 5000 && forall k :: 0 <= k < |looks| ==> looks[k] != old(arenas)[i].serial
    {
      hide ArenasOk, QueueOk, History, QueueImage;
      Count(arenas, serial, queue, failed);
      looks := [];
      for tries := 0 to TRIES
        invariant Valid() && !failed && |arenas| == IN_FLIGHT
        invariant forall j :: 0 <= j < IN_FLIGHT ==> Marked(old(arenas)[j], arenas[j])
        invariant |looks| == tries && (tries == 0 ==> arenas[i].mark == old(arenas)[i].mark)
        invariant tries > 0 ==> looks[0] == old(arenas)[i].mark
        invariant forall k :: 0 <= k < tries ==> looks[k] != old(arenas)[i].serial
      {
        looks := looks + [arenas[i].mark];
        if Landed(arenas[i]) {
          Release(i);
          return true, looks;
        }
        GpuRuns();
      }
      Failed(arenas, colors, serial, queue, requests, finished);
      failed := true;
      return false, looks;
    }

    /** The unresolved blit with the smallest serial. */
    method Oldest() returns (found: Option<nat>)
      requires |arenas| == IN_FLIGHT
      ensures found.None? ==> forall i :: 0 <= i < IN_FLIGHT ==> !arenas[i].submitted
      ensures found.Some? ==> found.value < IN_FLIGHT && arenas[found.value].submitted
      ensures found.Some? ==> forall i :: 0 <= i < IN_FLIGHT && arenas[i].submitted ==>
          arenas[found.value].serial <= arenas[i].serial
    {
      found := None;
      for i := 0 to IN_FLIGHT
        invariant found.None? ==> forall j :: 0 <= j < i ==> !arenas[j].submitted
        invariant found.Some? ==> found.value < i && arenas[found.value].submitted
        invariant found.Some? ==> forall j :: 0 <= j < i && arenas[j].submitted ==>
            arenas[found.value].serial <= arenas[j].serial
      {
        if arenas[i].submitted && (found.None? || arenas[i].serial < arenas[found.value].serial) {
          found := Some(i);
        }
      }
    }

    /** `claim`: a free arena, a new one, or the one whose blit lands first. */
    method Claim(mapFails: bool) returns (i: nat, ok: bool)
      requires Valid() && !failed
      modifies this`arenas, this`queue, this`finished, this`failed
      ensures Valid() && |arenas| == IN_FLIGHT && (failed ==> !ok) && (!ok && !failed ==> mapFails)
      ensures ok ==> i < IN_FLIGHT && arenas[i].mapped && !arenas[i].submitted
    {
      hide ArenasOk, QueueOk, History, QueueImage;
      Retire();
      for k := 0 to IN_FLIGHT
        invariant forall j :: 0 <= j < k ==> !arenas[j].mapped || arenas[j].submitted
      {
        if arenas[k].mapped && !arenas[k].submitted {
          return k, true;
        }
      }
      for k := 0 to IN_FLIGHT
        invariant forall j :: 0 <= j < k ==> arenas[j].mapped
      {
        if !arenas[k].mapped {
          if mapFails {
            return k, false;
          }
          ArenaMapped(arenas, colors, serial, queue, failed, k);
          arenas := arenas[k := NoArena.(mapped := true)];
          return k, true;
        }
      }
      assert arenas[0].mapped;
      GpuRuns();
      var oldest := Oldest();
      i := oldest.value;
      ghost var looks;
      ok, looks := Wait(i);
    }

    /** Whether any arena keeps the image alive. */
    method InUse(image: nat) returns (used: bool)
      requires |arenas| == IN_FLIGHT
      ensures used <==> exists i :: 0 <= i < IN_FLIGHT && arenas[i].source == Fill(image)
    {
      for i := 0 to IN_FLIGHT
        invariant forall j :: 0 <= j < i ==> arenas[j].source != Fill(image)
      {
        if arenas[i].source == Fill(image) {
          return true;
        }
      }
      return false;
    }

    /** `fill_constant`: the clear image is only recoloured when no arena holds it; otherwise a new one is made. */
    method FillConstant(color: nat) returns (image: nat)
      requires Valid()
      modifies this`colors, this`constant, this`nextImage, this`arenas, this`queue, this`finished
      ensures Valid() && image in colors && colors[image] == color
      ensures finished + QueueImage(arenas, colors, queue) == old(finished + QueueImage(arenas, colors, queue))
    {
      hide ArenasOk, QueueOk, History, QueueImage;
      Count(arenas, serial, queue, failed);
      var used := true;
      if constant.Some? {
        used := InUse(constant.value);
      }
      GpuRuns();
      if used {
        constant := Some(nextImage);
        nextImage := nextImage + 1;
      }
      image := constant.value;
      ColorKept(arenas, colors, queue, image, color);
      colors := colors[image := color];
    }

    /** The tail of `execute`: the claimed arena is written, its label cleared, and the blit submitted. */
    method Execute(memory: nat, source: Source, refused: bool, mapFails: bool) returns (out: Option<nat>)
      requires Valid() && (source.Fill? ==> source.id in colors)
      modifies this`arenas, this`queue, this`finished, this`failed, this`serial, this`requests
      ensures Valid()
      ensures out.Some? ==> !failed && out.value == serial == old(serial) + 1
                            && requests == old(requests) + [Seen(memory, source, ColorOf(colors, source))]
      ensures out.None? ==> requests == old(requests) && (failed || mapFails || old(serial) == 0xFFFF_FFFF_FFFF_FFFF)
    {
      hide ArenasOk, QueueOk, History, QueueImage;
      if failed || serial == 0xFFFF_FFFF_FFFF_FFFF {
        return None;
      }
      var i, ok := Claim(mapFails);
      if !ok {
        return None;
      }
      GpuRuns();
      var a := Arena(true, memory, 0, serial + 1, true, source);
      BlitSubmitted(arenas, colors, serial, queue, requests, finished, i, a);
      arenas, serial := arenas[i := a], serial + 1;
      if refused {
        failed := true;
        return None;
      }
      queue := queue + [Job(i, serial)];
      requests := requests + [Seen(memory, source, ColorOf(colors, source))];
      GpuRuns();
      Retire();
      return Some(serial);
    }

    /** A clear: its image keeps its colour until the GPU has read it. */
    method Clear(memory: nat, color: nat, refused: bool, mapFails: bool) returns (out: Option<nat>)
      requires Valid()
      modifies this
      ensures Valid()
      ensures out.Some? ==> !failed && out.value == serial == old(serial) + 1
      ensures out.Some? ==> |requests| == |old(requests)| + 1 && requests[..|old(requests)|] == old(requests)
      ensures out.Some? ==>
                var made := requests[|old(requests)|];
                made.memory == memory && made.source.Fill? && made.color == Some(color)
      ensures out.None? ==> requests == old(requests) && (failed || mapFails || old(serial) == 0xFFFF_FFFF_FFFF_FFFF)
    {
      hide ArenasOk, QueueOk, History, QueueImage;
      if failed {
        return None;
      }
      var image := FillConstant(color);
      GpuRuns();
      out := Execute(memory, Fill(image), refused, mapFails);
    }

    /** `unresolved`: a failure, or a blit the GPU has not finished. */
    method Unresolved() returns (r: bool)
      requires Valid()
      ensures r <==> failed || queue != []
    {
      if failed {
        return true;
      }
      for i := 0 to IN_FLIGHT
        invariant forall j :: 0 <= j < i ==> !InQueue(queue, j)
      {
        assert ArenaOk(arenas[i], serial, InQueue(queue, i), failed);
        if arenas[i].submitted && !Landed(arenas[i]) {
          return true;
        }
      }
      FirstQueued(arenas, queue);
      return false;
    }

    /** `finish`: waits for every blit, oldest first. When it returns, nothing is unresolved and the GPU has done every
        accepted blit, in order, with its own memory and colour. */
    method Finish() returns (ok: bool)
      requires Valid()
      modifies this`arenas, this`queue, this`finished, this`failed
      ensures Valid() && ok == !failed
      ensures ok ==> queue == [] && finished == requests && forall i :: 0 <= i < IN_FLIGHT ==> !arenas[i].submitted
    {
      hide ArenasOk, QueueOk, History, QueueImage, Unfinished;
      if failed {
        return false;
      }
      Count(arenas, serial, queue, failed);
      var oldest: Option<nat> := Oldest();
      while oldest.Some?
        invariant Valid() && !failed && |arenas| == IN_FLIGHT
        invariant oldest.Some? ==> oldest.value < IN_FLIGHT && arenas[oldest.value].submitted
        invariant oldest.None? ==> forall i :: 0 <= i < IN_FLIGHT ==> !arenas[i].submitted
        decreases Unfinished(arenas, IN_FLIGHT), if oldest.Some? then 1 else 0
      {
        ghost var before, looks := arenas, [];
        ok, looks := Wait(oldest.value);
        if !ok {
          return;
        }
        FewerUnfinished(before, arenas, oldest.value, IN_FLIGHT);
        oldest := Oldest();
      }
      NothingLeft(arenas, colors, serial, queue, requests, finished);
      return true;
    }
  }

  /** Arenas among the first `n` whose blit is unresolved. */
  function Unfinished(arenas: seq<Arena>, n: nat): nat
    requires n <= |arenas|
  {
    if n == 0 then 0 else Unfinished(arenas, n - 1) + if arenas[n - 1].submitted then 1 else 0
  }

  lemma {:induction false} FewerUnfinished(a: seq<Arena>, b: seq<Arena>, i: nat, n: nat)
    requires i < |a| == |b| && n <= |a| && a[i].submitted && !b[i].submitted
    requires forall j :: 0 <= j < |a| && j != i ==> a[j].submitted == b[j].submitted
    ensures Unfinished(b, n) + (if i < n then 1 else 0) == Unfinished(a, n)
  {
    if n > 0 {
      FewerUnfinished(a, b, i, n - 1);
    }
  }

  lemma ArenaFreed(arenas: seq<Arena>, colors: map<nat, nat>, serial: nat, queue: seq<Job>, failed: bool, i: nat)
    requires ArenasOk(arenas, serial, queue, failed) && QueueOk(arenas, queue)
    requires i < |arenas| && arenas[i].submitted && Landed(arenas[i])
    ensures var now := arenas[i := arenas[i].(submitted := false, source := NoSource)];
            ArenasOk(now, serial, queue, failed) && QueueOk(now, queue)
                && QueueImage(now, colors, queue) == QueueImage(arenas, colors, queue)
  {
    assert ArenaOk(arenas[i], serial, InQueue(queue, i), failed);
    ArenaReplaced(arenas, colors, serial, queue, failed, i, arenas[i].(submitted := false, source := NoSource));
  }

  lemma ArenaMapped(arenas: seq<Arena>, colors: map<nat, nat>, serial: nat, queue: seq<Job>, failed: bool, i: nat)
    requires ArenasOk(arenas, serial, queue, failed) && QueueOk(arenas, queue) && i < |arenas| && !arenas[i].mapped
    ensures var now := arenas[i := NoArena.(mapped := true)];
            ArenasOk(now, serial, queue, failed) && QueueOk(now, queue)
                && QueueImage(now, colors, queue) == QueueImage(arenas, colors, queue)
  {
    assert ArenaOk(arenas[i], serial, InQueue(queue, i), failed);
    ArenaReplaced(arenas, colors, serial, queue, failed, i, NoArena.(mapped := true));
  }

  /** An arena the GPU is done with may be rewritten. */
  lemma ArenaReplaced(arenas: seq<Arena>, colors: map<nat, nat>, serial: nat, queue: seq<Job>, failed: bool, i: nat,
                      a: Arena)
    requires ArenasOk(arenas, serial, queue, failed) && QueueOk(arenas, queue) && i < |arenas| && !InQueue(queue, i)
    requires ArenaOk(a, serial, false, failed)
    ensures var now := arenas[i := a];
            ArenasOk(now, serial, queue, failed) && QueueOk(now, queue)
                && QueueImage(now, colors, queue) == QueueImage(arenas, colors, queue)
  {
    QueueKept(arenas, colors, queue, i, a);
    hide QueueImage;
    forall k | 0 <= k < |queue|
      ensures JobOk(arenas[i := a], queue[k])
    {
      assert JobOk(arenas, queue[k]) && queue[k].arena != i;
    }
  }

  lemma Failed(arenas: seq<Arena>, colors: map<nat, nat>, serial: nat, queue: seq<Job>, requests: seq<Seen>,
               finished: seq<Seen>)
    requires ArenasOk(arenas, serial, queue, false)
    requires History(requests, finished, QueueImage(arenas, colors, queue), false)
    ensures ArenasOk(arenas, serial, queue, true)
    ensures History(requests, finished, QueueImage(arenas, colors, queue), true)
  {
    hide QueueImage;
    forall i | 0 <= i < IN_FLIGHT
      ensures ArenaOk(arenas[i], serial, InQueue(queue, i), true)
    {
      assert ArenaOk(arenas[i], serial, InQueue(queue, i), false);
    }
  }

  /** A blit written to a claimed arena, queued behind the others or refused. */
  lemma BlitSubmitted(arenas: seq<Arena>, colors: map<nat, nat>, serial: nat, queue: seq<Job>, requests: seq<Seen>,
                      finished: seq<Seen>,
                      i: nat, a: Arena)
    requires ArenasOk(arenas, serial, queue, false) && QueueOk(arenas, queue)
    requires History(requests, finished, QueueImage(arenas, colors, queue), false)
    requires i < |arenas| && !arenas[i].submitted && a.mapped && a.submitted && a.mark == 0 && a.serial == serial + 1
    ensures var now, longer := arenas[i := a], queue + [Job(i, serial + 1)];
            && ArenasOk(now, serial + 1, queue, true) && QueueOk(now, queue)
            && ArenasOk(now, serial + 1, longer, false) && QueueOk(now, longer)
            && History(requests, finished, QueueImage(now, colors, queue), true)
            && History(requests + [Image(a, colors)], finished, QueueImage(now, colors, longer), false)
  {
    var now, q := arenas[i := a], Job(i, serial + 1);
    var longer := queue + [q];
    assert ArenaOk(arenas[i], serial, InQueue(queue, i), false);
    QueueKept(arenas, colors, queue, i, a);
    assert QueueImage(now, colors, longer) == QueueImage(now, colors, queue) + [Image(a, colors)];
    assert finished + (QueueImage(now, colors, queue) + [Image(a, colors)])
        == finished + QueueImage(now, colors, queue) + [Image(a, colors)];
    hide QueueImage, Image;
    forall j | 0 <= j < IN_FLIGHT
      ensures ArenaOk(now[j], serial + 1, InQueue(queue, j), true)
      ensures ArenaOk(now[j], serial + 1, InQueue(longer, j), false)
    {
      Appended(queue, q, j);
      assert ArenaOk(arenas[j], serial, InQueue(queue, j), false);
    }
    hide ArenaOk;
    forall k | 0 <= k < |longer|
      ensures JobOk(now, longer[k])
    {
      if k < |queue| {
        assert JobOk(arenas, queue[k]) && longer[k] == queue[k] && queue[k].arena != i;
      }
    }
    assert forall k :: 0 <= k < |queue| ==> JobOk(now, queue[k]) by {
      assert forall k :: 0 <= k < |queue| ==> longer[k] == queue[k];
    }
  }

  /** With no blit unresolved nothing is queued. */
  lemma NothingLeft(arenas: seq<Arena>, colors: map<nat, nat>, serial: nat, queue: seq<Job>, requests: seq<Seen>,
                    finished: seq<Seen>)
    requires QueueOk(arenas, queue) && History(requests, finished, QueueImage(arenas, colors, queue), false)
    requires forall i :: 0 <= i < |arenas| ==> !arenas[i].submitted
    ensures queue == [] && finished == requests
  {
    FirstJob(arenas, queue);
    assert finished + [] == finished;
  }

  lemma FirstQueued(arenas: seq<Arena>, queue: seq<Job>)
    requires QueueOk(arenas, queue)
    ensures queue != [] ==> queue[0].arena < |arenas| && InQueue(queue, queue[0].arena)
  {
    assert queue != [] ==> JobOk(arenas, queue[0]);
  }

  lemma FirstUnlanded(arenas: seq<Arena>, serial: nat, queue: seq<Job>, failed: bool)
    requires ArenasOk(arenas, serial, queue, failed) && QueueOk(arenas, queue) && queue != []
    ensures queue[0].arena < |arenas| && arenas[queue[0].arena].submitted && !Landed(arenas[queue[0].arena])
  {
    FirstQueued(arenas, queue);
    assert ArenaOk(arenas[queue[0].arena], serial, InQueue(queue, queue[0].arena), failed);
  }

  lemma FirstJob(arenas: seq<Arena>, queue: seq<Job>)
    requires QueueOk(arenas, queue)
    ensures queue != [] ==> exists i :: 0 <= i < |arenas| && arenas[i].submitted
  {
    assert queue != [] ==> JobOk(arenas, queue[0]);
  }

  lemma Count(arenas: seq<Arena>, serial: nat, queue: seq<Job>, failed: bool)
    requires ArenasOk(arenas, serial, queue, failed)
    ensures |arenas| == IN_FLIGHT
  {
  }
}
