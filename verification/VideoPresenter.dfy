/** Presentation by flipping two buffers (ps5/gpu/video_presenter.cpp). The display takes a queued flip whenever it
    likes; the presenter must never draw into the buffer on screen or in the queue, and keeps the border black without
    clearing it every time. */
module VideoPresenter {

  const ATTEMPTS: nat := 5000
  const BLACK: nat := 0xFF00_0000
  const MAX_SERIAL: nat := 0x7FFF_FFFF_FFFF_FFFF

  datatype Rect = Rect(x: nat, y: nat, width: nat, height: nat)

  const NoRect := Rect(0, 0, 0, 0)

  predicate Inside(r: Rect, x: nat, y: nat) {
    r.x <= x < r.x + r.width && r.y <= y < r.y + r.height
  }

  /** Pixels by coordinates. */
  type Image = (nat, nat) -> nat

  function Copied(image: Image, source: Image, r: Rect): Image {
    (x, y) => if Inside(r, x, y) then source(x, y) else image(x, y)
  }

  /** Every pixel of the screen outside the rectangle is black. */
  ghost predicate Bordered(image: Image, r: Rect, width: nat, height: nat) {
    forall x: nat, y: nat ::
      x < width && y < height && (x < r.x || x >= r.x + r.width || y < r.y || y >= r.y + r.height) ==>
        image(x, y) == 0xFF00_0000
  }

  /** Every pixel inside the rectangle is the source's. */
  ghost predicate Shows(image: Image, source: Image, r: Rect) {
    forall x: nat, y: nat :: r.x <= x < r.x + r.width && r.y <= y < r.y + r.height ==> image(x, y) == source(x, y)
  }

  /** The border of a copy is black after a clear, when it was black before, and when there is no border. */
  lemma CopyBorders(image: Image, source: Image, r: Rect, width: nat, height: nat)
    requires Bordered(image, r, width, height) || r == Rect(0, 0, width, height)
    ensures Bordered(Copied(image, source, r), r, width, height) && Shows(Copied(image, source, r), source, r)
  {
  }

  /** A flip the display has accepted and not shown yet. */
  datatype Flip = Flip(slot: int, arg: nat)

  class Presenter {
    const width: nat
    const height: nat

    var current: int
    var serial: nat
    var count: nat
    var failed: bool
    var outstanding: bool
    var outstandingSlot: int
    var outstandingBefore: nat
    var previousRect: seq<Rect>
    var images: seq<Image>

    // The display: the buffer on screen, the number that came with it, completed flips, and queued ones.
    var shown: int
    var shownArg: nat
    var flips: nat
    var queued: seq<Flip>

    /** What the presenter knows of the display while nothing has failed. */
    ghost predicate InStep()
      reads this
    {
      if outstanding then
        && outstandingSlot in {0, 1} && outstandingSlot != current && serial > 0
        && if queued == [] then shown == outstandingSlot && shownArg == serial && flips > outstandingBefore
           else queued == [Flip(outstandingSlot, serial)] && shown == current && flips == outstandingBefore
      else queued == [] && shown == current && flips >= count && (serial > 0 ==> current >= 0 && shownArg == serial)
    }

    ghost predicate Valid()
      reads this
    {
      && |previousRect| == 2 && |images| == 2 && current in {-1, 0, 1} && |queued| <= 1
      && (!failed ==> InStep() && forall s :: 0 <= s < 2 && previousRect[s] != NoRect ==>
          Bordered(images[s], previousRect[s], width, height))
    }

    constructor (width: nat, height: nat, first: Image, second: Image)
      ensures Valid() && !failed && !outstanding && this.width == width && this.height == height
    {
      this.width, this.height := width, height;
      current, serial, count, failed, outstanding, outstandingSlot, outstandingBefore := -1, 0, 0, false, false, -1, 0;
      previousRect, images := [NoRect, NoRect], [first, second];
      shown, shownArg, flips, queued := -1, 0, 0, [];
    }

    /** The display shows the queued flip. */
    method DisplayFlips()
      requires Valid() && queued != []
      modifies this`shown, this`shownArg, this`flips, this`queued
      ensures Valid() && queued == [] && flips == old(flips) + 1
      ensures shown == old(queued)[0].slot && shownArg == old(queued)[0].arg
    {
      shown, shownArg, flips, queued := queued[0].slot, queued[0].arg, flips + 1, [];
    }

    /** Whether the outstanding flip is on screen. */
    predicate Retired()
      reads this
    {
      flips > outstandingBefore && shownArg == serial && queued == [] && shown == outstandingSlot
    }

    /** `retire`: waits until the outstanding flip is on screen. `statusFails` says at which attempt the status call
        fails. `looks` is whether no flip was queued any more at each attempt whose call went well. */
    method Retire(statusFails: nat) returns (ok: bool, ghost looks: seq<bool>)
      requires Valid() && !failed && outstanding
      modifies this`current, this`count, this`outstanding, this`failed, this`shown, this`shownArg, this`flips,
          this`queued
      ensures Valid() && ok == !failed
      ensures ok ==> !outstanding && queued == [] && current == shown == outstandingSlot && count == flips
      ensures looks != [] ==> looks[0] == (old(queued) == [])
      ensures ok ==> looks != [] && looks[|looks| - 1] && |looks| <= 5000
      ensures !ok ==> |looks| == (if statusFails < 5000 then statusFails else 5000) && true !in looks
    {
      looks := [];
      for attempt := 0 to ATTEMPTS
        invariant Valid() && !failed && outstanding
        invariant |looks| == attempt <= statusFails && true !in looks
        invariant attempt == 0 ==> queued == old(queued)
        invariant looks != [] ==> looks[0] == (old(queued) == [])
      {
        if attempt == statusFails {
          failed := true;
          return false, looks;
        }
        looks := looks + [queued == []];
        if Retired() {
          current, count, outstanding := outstandingSlot, flips, false;
          return true, looks;
        }
        var late := *;
        if late && queued != [] {
          DisplayFlips();
        }
      }
      failed := true;
      return false, looks;
    }

    /** The clear and the copy into a buffer that is neither on screen nor queued. The clear is skipped when the
        buffer's border is already the right one. */
    method Paint(slot: nat, source: Image, rect: Rect)
      requires slot < 2 && |images| == 2 && |previousRect| == 2
      requires slot != shown && forall f :: f in queued ==> f.slot != slot
      requires rect.width > 0 && rect.height > 0
      requires previousRect[slot] != NoRect ==> Bordered(images[slot], previousRect[slot], width, height)
      modifies this`images, this`previousRect
      ensures |images| == 2 && images[1 - slot] == old(images)[1 - slot]
      ensures previousRect == old(previousRect)[slot := rect]
      ensures Bordered(images[slot], rect, width, height)
      ensures Shows(images[slot], source, rect)
    {
      var image := images[slot];
      if rect.x != 0 || rect.y != 0 || rect.width != width || rect.height != height {
        if previousRect[slot] != rect {
          image := (x, y) => BLACK;
        }
      }
      CopyBorders(image, source, rect, width, height);
      hide Bordered, Shows, Copied;
      image := Copied(image, source, rect);
      images := images[slot := image];
      previousRect := previousRect[slot := rect];
    }

    /** The checks in front of a submission: the previous flip is on screen, and the display is where it was left. The
        buffer to paint is neither on screen nor queued. */
    method FreeBuffer(statusFails: bool, retireFails: nat) returns (slot: nat, ok: bool)
      requires Valid()
      modifies this`current, this`count, this`outstanding, this`failed, this`shown, this`shownArg, this`flips,
          this`queued
      ensures Valid()
      ensures (ok ==> !failed && !outstanding && queued == [] && slot < 2 && slot != shown && shown == current)
      ensures old(failed) ==> !ok && failed
      ensures !ok ==> failed || serial == MAX_SERIAL
    {
      slot := 0;
      if failed {
        return slot, false;
      }
      if outstanding {
        ghost var looks;
        var retired;
        retired, looks := Retire(retireFails);
        if !retired {
          return slot, false;
        }
      }
      if serial == MAX_SERIAL {
        return slot, false;
      }
      if statusFails {
        failed := true;
        return slot, false;
      }
      assert !(queued != [] || (serial > 0 && (shown != current || shownArg != serial || flips < count)));
      return if current == 0 then 1 else 0, true;
    }

    /** `submit`: copies the image into the free buffer and queues its flip. */
    method Submit(source: Image, rect: Rect, statusFails: bool, retireFails: nat, blitFails: bool,
                  flipFails: bool) returns (ok: bool)
      requires Valid() && rect.width > 0 && rect.height > 0
      modifies this
      ensures Valid() && (failed ==> !ok)
      ensures old(failed) ==> !ok && failed
      ensures !ok ==> failed || serial == MAX_SERIAL
      ensures ok ==> outstanding && serial == old(serial) + 1 && queued == [Flip(outstandingSlot, serial)]
      ensures ok ==> outstandingSlot in {0, 1} && outstandingSlot != shown
      ensures ok ==> Bordered(images[outstandingSlot], rect, width, height)
      ensures ok ==> Shows(images[outstandingSlot], source, rect)
      ensures ok && shown >= 0 ==> images[shown] == old(images)[shown]
    {
      hide Bordered, Shows, Copied;
      var slot, free := FreeBuffer(statusFails, retireFails);
      if !free {
        return false;
      }
      if blitFails {
        failed := true;
        return false;
      }
      Paint(slot, source, rect);
      ok := QueueFlip(slot, flips, flipFails);
    }

    /** The flip of a painted buffer; until it is accepted the presenter counts as failed. */
    method QueueFlip(slot: nat, before: nat, flipFails: bool) returns (ok: bool)
      requires Valid() && !failed && !outstanding && slot < 2 && slot != shown && before == flips
      modifies this`serial, this`failed, this`queued, this`outstanding, this`outstandingSlot, this`outstandingBefore
      ensures Valid() && ok == !failed
      ensures ok ==> outstanding && outstandingSlot == slot && serial == old(serial) + 1
      ensures ok ==> queued == [Flip(slot, serial)]
    {
      hide Bordered;
      serial, failed := serial + 1, true;
      if flipFails {
        return false;
      }
      queued := queued + [Flip(slot, serial)];
      outstanding, outstandingSlot, outstandingBefore, failed := true, slot, before, false;
      return true;
    }

    /** `present`: the flip is on screen when it returns. */
    method Present(source: Image, rect: Rect, statusFails: bool, retireFails: nat, laterFails: nat, blitFails: bool,
                   flipFails: bool)
      returns (ok: bool)
      requires Valid() && rect.width > 0 && rect.height > 0
      modifies this
      ensures Valid() && (!ok ==> failed || serial == MAX_SERIAL)
      ensures ok ==> !failed && !outstanding && queued == [] && 0 <= shown == current < 2
      ensures ok ==> Bordered(images[shown], rect, width, height)
      ensures ok ==> Shows(images[shown], source, rect)
    {
      ok := Submit(source, rect, statusFails, retireFails, blitFails, flipFails);
      if ok {
        ghost var looks;
        ok, looks := Retire(laterFails);
      }
    }
  }
}
