/**
 * One carousel instance: the slides in display order (each carrying the
 * original-index tag given at initialisation), the slider position, the
 * current index, the enabled / animating flags, the touch gesture state
 * and what the navigation elements show.  Asynchronous completion of an
 * animation is the separate method OnTransitionEnd; the callbacks and the
 * sync broadcast are recorded in `events`.  Event handlers are methods
 * that do nothing unless the plugin has bound them.
 */
module CarouselPlugin {
  import opened Optional
  import opened Settings
  import opened Selectors
  import opened Slides
  import opened Presentation
  import opened Gesture
  import opened Keys

  /** Observable effects: the start / stop callbacks and the sync event sent to peers. */
  datatype Event =
    | Start(index: int, original: Option<int>)
    | Stop(index: int, original: Option<int>)
    | Broadcast(index: int)

  /** The completion an animated `goTo` leaves waiting for the end of its transition. */
  datatype Completion = Completion(index: int, original: Option<int>)

  /**
   * The touch handlers' closure: start and end coordinates, start time,
   * the slider position (half-pixels) when the touch began, and the
   * distance and speed thresholds in pixels and pixels per second.
   */
  datatype Touch = Touch(startX: int, startY: int, endX: int, endY: int, startTime: int, origin: int,
                         distanceLimit: real, speedLimit: real)

  /**
   * The closure `_touchEnable` creates when it binds the handlers: zero
   * coordinates and times, and thresholds scaled by the frame width then.
   */
  function FreshTouch(cfg: Config, frameWidth: int): Touch {
    Touch(0, 0, 0, 0, 0, 0, cfg.distanceThreshold * frameWidth as real, cfg.speedThreshold * frameWidth as real)
  }

  class Carousel {
    const cfg: Config
    /** Original-index tags of the slides, in display order. */
    var slides: seq<int>
    /** Outer size of one slide along the slider's axis, in pixels. */
    var slideSize: int
    /** The frame's width when `resize` last measured it, in pixels. */
    var frameWidth: int
    /** The height `resize` gave the frame, when the height is fixed. */
    var frameHeight: Option<int>
    /** The slider's position (left or top), in half-pixels. */
    var sliderPos: int
    var currentDomIndex: int
    var currentSlideIndex: Option<int>
    var enabled: bool
    var animating: bool
    /** Whether the touch handlers are bound to the frame. */
    var touchBound: bool
    var pending: Option<Completion>
    var isSwiping: bool
    var isScrolling: bool
    var touch: Touch
    var view: NavView
    var events: seq<Event>

    /** The invariant every operation keeps, apart from what the navigation elements show. */
    ghost predicate Consistent()
      reads this
    {
      && cfg.visible >= 1
      && slideSize > 0
      && IsTagging(slides)
      && IndexOk(cfg.circular, |slides|, cfg.visible, currentDomIndex)
      && currentSlideIndex == OriginalIndex(cfg.circular, slides, currentDomIndex)
      && (enabled ==> cfg.visible <= |slides|)
      && (pending.Some? ==> animating)
      && !(isSwiping && isScrolling)
    }

    /** The navigation elements show the current state. */
    ghost predicate Shown()
      reads this
      requires cfg.visible >= 1
    {
      view == Refresh(cfg, view, enabled, currentDomIndex, OriginalIndex(cfg.circular, slides, currentDomIndex), |slides|)
    }

    ghost predicate Valid()
      reads this
    {
      Consistent() && Shown()
    }

    /**
     * The state `goTo(i, skipAnimation, synced)` leaves: nothing at all
     * changes while an animation runs; otherwise the resolver's slide order
     * and index, the slider at that index's position, the original index,
     * and the navigation refreshed.  An animated move sets `animating`,
     * unbinds touch, fires `start` and waits for completion; it broadcasts
     * unless it was itself caused by a sync.
     */
    twostate predicate GoToDone(i: int, skipAnimation: bool, synced: bool)
      reads this
    {
      var same := && enabled == old(enabled) && isSwiping == old(isSwiping)
                  && isScrolling == old(isScrolling) && touch == old(touch);
      if old(animating) then
        && same
        && slides == old(slides) && sliderPos == old(sliderPos)
        && currentDomIndex == old(currentDomIndex) && currentSlideIndex == old(currentSlideIndex)
        && animating && touchBound == old(touchBound) && pending == old(pending)
        && view == old(view) && events == old(events)
      else
        var r := Resolve(cfg.circular, cfg.visible, old(slides), old(sliderPos), slideSize, i);
        var original := OriginalIndex(cfg.circular, r.slides, r.index);
        && same
        && cfg.visible >= 1
        && slides == r.slides
        && sliderPos == TargetPosition(r.index, slideSize, cfg.gutter)
        && currentDomIndex == r.index
        && currentSlideIndex == original
        && view == Refresh(cfg, old(view), enabled, r.index, original, |r.slides|)
        && if skipAnimation then
             && !animating && touchBound == old(touchBound) && pending == old(pending)
             && events == old(events)
           else
             && animating && !touchBound
             && pending == Some(Completion(r.index, original))
             && events == old(events) + (if cfg.onStart then [Start(r.index, original)] else [])
                                      + (if cfg.synced && !synced then [Broadcast(r.index)] else [])
    }

    /**
     * Initialisation for `count` slides, the frame `containerWidth` wide and
     * the slides' measured heights: the slides are tagged 0 .. count - 1 in
     * document order (the source tags them only in circular mode, and
     * bounded mode never reads the tags), then `update` resizes (jumping to index 0 without
     * animation) and enables the carousel when there are at least `visible`
     * slides.
     */
    constructor (cfg: Config, count: nat, containerWidth: int, heights: seq<int>)
      requires cfg.visible >= 1 && |heights| == count
      requires SlideSize(cfg, containerWidth, heights) > 0
      ensures Valid()
      ensures this.cfg == cfg && slideSize == SlideSize(cfg, containerWidth, heights)
      ensures frameWidth == containerWidth
      ensures frameHeight == if cfg.fixedHeight then Some(FrameHeight(cfg.horizontal, cfg.visible, MaxHeight(heights), cfg.gutter)) else None
      ensures slides == Range(count)
      ensures currentDomIndex == 0 && sliderPos == TargetPosition(0, slideSize, cfg.gutter)
      ensures !animating && pending == None && events == []
      ensures enabled <==> cfg.visible <= count
      ensures touchBound <==> enabled && cfg.touch
      ensures touchBound ==> touch == FreshTouch(cfg, containerWidth)
    {
      this.cfg := cfg;
      slideSize := SlideSize(cfg, containerWidth, heights);
      frameWidth := containerWidth;
      frameHeight := None;
      slides := Range(count);
      sliderPos := 0;
      currentDomIndex := 0;
      currentSlideIndex := OriginalIndex(cfg.circular, Range(count), 0);
      enabled := false;
      animating := false;
      touchBound := false;
      pending := None;
      isSwiping := false;
      isScrolling := false;
      touch := FreshTouch(cfg, containerWidth);
      view := NavView(false, false, false, Span(0, 0), cfg.counterTemplate);
      events := [];
      new;
      RangeIsTagging(count);
      Resize(containerWidth, heights);
      Enable();
    }

    /** `_updateNav`. */
    method UpdateNav()
      requires cfg.visible >= 1
      modifies this`view
      ensures view == Refresh(cfg, old(view), enabled, currentDomIndex, OriginalIndex(cfg.circular, slides, currentDomIndex), |slides|)
    {
      var original := OriginalIndex(cfg.circular, slides, currentDomIndex);
      view := Refresh(cfg, view, enabled, currentDomIndex, original, |slides|);
    }

    /** `_shiftSlides(index, dir)`: moves the selected slides to the front or back and compensates the slider. */
    method ShiftSlides(index: int, dir: int) returns (moved: bool)
      modifies this`slides, this`sliderPos
      ensures Shifted(moved, slides, sliderPos) == Shift(old(slides), old(sliderPos), slideSize, index, dir)
    {
      var n := |slides|;
      var from, to := 0, n;
      if dir == -1 {
        from := GtStart(index - 1, n);
      } else {
        to := LtEnd(index + 1, n);
      }
      var selected := slides[from..to];
      if |selected| > 0 {
        sliderPos := sliderPos + 2 * dir * |selected| * slideSize;
        if dir == -1 {
          slides := selected + slides[..from];
        } else {
          slides := slides[to..] + selected;
        }
        moved := true;
      } else {
        moved := false;
      }
    }

    /** `_getValidatedTarget(i)`. */
    method GetValidatedTarget(i: int) returns (index: int)
      modifies this`slides, this`sliderPos
      ensures Resolved(slides, sliderPos, index) == Resolve(cfg.circular, cfg.visible, old(slides), old(sliderPos), slideSize, i)
    {
      var n := |slides|;
      index := i;
      if n <= cfg.visible {
        index := 0;
      } else if !cfg.circular {
        if i < 0 {
          index := 0;
        } else if i >= n - cfg.visible {
          index := n - cfg.visible;
        }
      } else if i < 0 {
        var moved := ShiftSlides(n + i, -1);
        if moved {
          index := 0;
        }
      } else if n > cfg.visible && i > n - cfg.visible {
        var maxIndex := (i - 1) - (n - cfg.visible);
        var moved := ShiftSlides(maxIndex, 1);
        if moved {
          index := i - (maxIndex + 1);
        }
      }
    }

    /**
     * `_getCurrentSlideIndex(original)`: in circular mode, scans the slides
     * for the first one tagged `original`; otherwise returns the argument.
     */
    method GetCurrentSlideIndex(original: int) returns (index: int)
      ensures index == CurrentIndex(cfg.circular, slides, original)
      ensures cfg.circular && original in slides ==> 0 <= index < |slides| && slides[index] == original
      ensures !(cfg.circular && original in slides) ==> index == original
    {
      index := original;
      if cfg.circular {
        var k := 0;
        while k < |slides|
          invariant 0 <= k <= |slides|
          invariant forall j :: 0 <= j < k ==> slides[j] != original
        {
          if slides[k] == original {
            assert FirstIndexOf(slides, original) == k;
            index := k;
            return;
          }
          k := k + 1;
        }
        assert FirstIndexOf(slides, original) == |slides|;
      }
    }

    /**
     * The animated branch of `goTo`: flags the animation, unbinds touch,
     * fires `start`, leaves the completion waiting and broadcasts to the
     * synced carousels unless the move came from one of them.
     */
    method BeginAnimation(index: int, original: Option<int>, synced: bool)
      modifies this`animating, this`touchBound, this`pending, this`events
      ensures animating && !touchBound && pending == Some(Completion(index, original))
      ensures events == old(events) + (if cfg.onStart then [Start(index, original)] else [])
                                    + (if cfg.synced && !synced then [Broadcast(index)] else [])
    {
      animating := true;
      touchBound := false;
      if cfg.onStart {
        events := events + [Start(index, original)];
      }
      pending := Some(Completion(index, original));
      if cfg.synced && !synced {
        events := events + [Broadcast(index)];
      }
    }

    /** `goTo(i, skipAnimation, synced)`: dropped while an animation runs. */
    method GoTo(i: int, skipAnimation: bool, synced: bool)
      requires Consistent()
      modifies this`slides, this`sliderPos, this`currentDomIndex, this`currentSlideIndex,
               this`animating, this`touchBound, this`pending, this`view, this`events
      ensures Consistent()
      ensures !old(animating) || old(Valid()) ==> Valid()
      ensures GoToDone(i, skipAnimation, synced)
    {
      if !animating {
        ghost var r := Resolve(cfg.circular, cfg.visible, slides, sliderPos, slideSize, i);
        ResolveKeepsTagging(cfg.circular, cfg.visible, slides, sliderPos, slideSize, i);
        MoveTo(i, skipAnimation, synced);
        RefreshIdempotent(cfg, old(view), enabled, r.index, OriginalIndex(cfg.circular, r.slides, r.index), |r.slides|);
      }
    }

    /** The body of `goTo` once no animation runs. */
    method MoveTo(i: int, skipAnimation: bool, synced: bool)
      requires cfg.visible >= 1 && !animating
      modifies this`slides, this`sliderPos, this`currentDomIndex, this`currentSlideIndex,
               this`animating, this`touchBound, this`pending, this`view, this`events
      ensures GoToDone(i, skipAnimation, synced)
    {
      var index := GetValidatedTarget(i);
      var original := OriginalIndex(cfg.circular, slides, index);
      if !skipAnimation {
        BeginAnimation(index, original, synced);
      }
      Land(index, original);
    }

    /** The end of `goTo`: the slider at the index's position, the indices stored, the navigation refreshed. */
    method Land(index: int, original: Option<int>)
      requires cfg.visible >= 1 && original == OriginalIndex(cfg.circular, slides, index)
      modifies this`sliderPos, this`currentDomIndex, this`currentSlideIndex, this`view
      ensures sliderPos == TargetPosition(index, slideSize, cfg.gutter)
      ensures currentDomIndex == index && currentSlideIndex == original
      ensures view == Refresh(cfg, old(view), enabled, index, original, |slides|)
    {
      sliderPos := TargetPosition(index, slideSize, cfg.gutter);
      currentDomIndex := index;
      currentSlideIndex := original;
      UpdateNav();
    }

    /** The end of an animated move: fires `stop`, binds touch again and clears `animating`. */
    method OnTransitionEnd()
      requires Valid()
      modifies this`events, this`touchBound, this`touch, this`animating, this`pending
      ensures Valid()
      ensures old(pending) == None ==> unchanged(this)
      ensures old(pending).Some? ==>
                && events == old(events) + (if cfg.onStop then [Stop(old(pending).value.index, old(pending).value.original)] else [])
                && touchBound && touch == FreshTouch(cfg, frameWidth) && !animating && pending == None
    {
      if pending.Some? {
        var c := pending.value;
        if cfg.onStop {
          events := events + [Stop(c.index, c.original)];
        }
        touchBound := true;
        touch := FreshTouch(cfg, frameWidth);
        animating := false;
        pending := None;
      }
    }

    /** `next()`: goTo(current + step). */
    method Next()
      requires Valid()
      modifies this`slides, this`sliderPos, this`currentDomIndex, this`currentSlideIndex,
               this`animating, this`touchBound, this`pending, this`view, this`events
      ensures Valid()
      ensures slideSize == old(slideSize)
      ensures GoToDone(old(currentDomIndex) + cfg.step, false, false)
    {
      GoTo(currentDomIndex + cfg.step, false, false);
    }

    /** `prev()`: goTo(current - step). */
    method Prev()
      requires Valid()
      modifies this`slides, this`sliderPos, this`currentDomIndex, this`currentSlideIndex,
               this`animating, this`touchBound, this`pending, this`view, this`events
      ensures Valid()
      ensures slideSize == old(slideSize)
      ensures GoToDone(old(currentDomIndex) - cfg.step, false, false)
    {
      GoTo(currentDomIndex - cfg.step, false, false);
    }

    /**
     * `enable()`: nothing when already enabled or when there are fewer
     * slides than `visible`; otherwise binds the handlers (touch ones with
     * fresh coordinates when touch is on) and refreshes the navigation.
     */
    method Enable()
      requires Valid()
      modifies this`enabled, this`touchBound, this`touch, this`view
      ensures Valid()
      ensures old(enabled) || cfg.visible > |slides| ==> unchanged(this)
      ensures !old(enabled) && cfg.visible <= |slides| ==>
                && enabled
                && touchBound == (old(touchBound) || cfg.touch)
                && touch == (if cfg.touch then FreshTouch(cfg, frameWidth) else old(touch))
                && view == Refresh(cfg, old(view), true, currentDomIndex, currentSlideIndex, |slides|)
    {
      if enabled || cfg.visible > |slides| {
        return;
      }
      if cfg.touch {
        touchBound := true;
        touch := FreshTouch(cfg, frameWidth);
      }
      enabled := true;
      UpdateNav();
      RefreshIdempotent(cfg, old(view), true, currentDomIndex, currentSlideIndex, |slides|);
    }

    /**
     * `disable()`: nothing when not enabled; otherwise unbinds every
     * handler of the plugin, which with CSS transitions includes the one
     * waiting for the end of a running move (so `animating` then stays
     * set), and refreshes the navigation.
     */
    method Disable()
      requires Valid()
      modifies this`enabled, this`touchBound, this`pending, this`view
      ensures Valid()
      ensures !old(enabled) ==> unchanged(this)
      ensures old(enabled) ==>
                && !enabled && !touchBound
                && pending == (if cfg.cssTransitions then None else old(pending))
                && view == Refresh(cfg, old(view), false, currentDomIndex, currentSlideIndex, |slides|)
    {
      if !enabled {
        return;
      }
      touchBound := false;
      if cfg.cssTransitions {
        pending := None;
      }
      enabled := false;
      UpdateNav();
      RefreshIdempotent(cfg, old(view), false, currentDomIndex, currentSlideIndex, |slides|);
    }

    /**
     * `resize()` for the measured frame width and slide heights (in display
     * order): the new slide size, with a fixed height the frame's height
     * from the highest slide, then a jump to the current index.
     */
    method Resize(containerWidth: int, heights: seq<int>)
      requires Consistent()
      requires |heights| == |slides| && SlideSize(cfg, containerWidth, heights) > 0
      modifies this`slideSize, this`frameWidth, this`frameHeight,
               this`slides, this`sliderPos, this`currentDomIndex, this`currentSlideIndex,
               this`animating, this`touchBound, this`pending, this`view, this`events
      ensures Consistent()
      ensures old(Valid()) ==> Valid()
      ensures slideSize == SlideSize(cfg, containerWidth, heights)
      ensures frameWidth == containerWidth
      ensures frameHeight == if cfg.fixedHeight then Some(FrameHeight(cfg.horizontal, cfg.visible, MaxHeight(heights), cfg.gutter))
                             else old(frameHeight)
      ensures GoToDone(old(currentDomIndex), true, false)
    {
      if cfg.fixedHeight {
        var highest := HighestSlide(heights);
        frameHeight := Some(FrameHeight(cfg.horizontal, cfg.visible, highest, cfg.gutter));
      }
      slideSize := SlideSize(cfg, containerWidth, heights);
      frameWidth := containerWidth;
      GoTo(currentDomIndex, true, false);
    }

    /** Touch start: records where and when, and the slider position; clears the gesture flags. */
    method TouchStart(x: int, y: int, now: int)
      requires Valid()
      modifies this`touch, this`isSwiping, this`isScrolling
      ensures Valid()
      ensures !touchBound ==> unchanged(this)
      ensures touchBound ==>
                && touch == old(touch).(startX := x, startY := y, startTime := now, origin := sliderPos)
                && !isSwiping && !isScrolling
    {
      if touchBound {
        touch := touch.(startX := x, startY := y, startTime := now, origin := sliderPos);
        isSwiping := false;
        isScrolling := false;
      }
    }

    /**
     * Touch move: ignored once the gesture was taken for a scroll; a drag
     * that is mostly along the axis (or already a swipe) is a swipe and
     * drags the slider with it; anything else is a scroll.
     */
    method TouchMove(x: int, y: int)
      requires Valid()
      modifies this`touch, this`sliderPos, this`isSwiping, this`isScrolling
      ensures Valid()
      ensures !old(touchBound) || (old(isScrolling) && !old(isSwiping)) ==> unchanged(this)
      ensures old(touchBound) && !(old(isScrolling) && !old(isSwiping)) ==>
                var d := TouchDistance(cfg.horizontal, touch.startX, touch.startY, x, y);
                && touch == old(touch).(endX := x, endY := y)
                && if Abs(d.along) > Abs(d.across) || old(isSwiping) then
                     isSwiping && !isScrolling && sliderPos == touch.origin + 2 * d.along
                   else
                     isScrolling && !isSwiping && sliderPos == old(sliderPos)
    {
      if !touchBound || (isScrolling && !isSwiping) {
        return;
      }
      touch := touch.(endX := x, endY := y);
      var d := TouchDistance(cfg.horizontal, touch.startX, touch.startY, x, y);
      if Abs(d.along) > Abs(d.across) || isSwiping {
        sliderPos := touch.origin + 2 * d.along;
        isSwiping := true;
      } else {
        isScrolling := true;
      }
    }

    /**
     * Touch end: acts only after a swipe whose final drag is mostly along
     * the axis, and then goes to the swipe's target (the current index when
     * the swipe was too short and too slow).
     */
    method TouchEnd(now: int) returns (handled: bool)
      requires Valid()
      modifies this`slides, this`sliderPos, this`currentDomIndex, this`currentSlideIndex,
               this`animating, this`touchBound, this`pending, this`view, this`events
      ensures Valid()
      ensures var d := TouchDistance(cfg.horizontal, old(touch).startX, old(touch).startY, old(touch).endX, old(touch).endY);
              handled == (old(touchBound) && old(isSwiping) && !old(isScrolling) && Abs(d.along) > Abs(d.across))
      ensures !handled ==> unchanged(this)
      ensures handled ==>
                var d := TouchDistance(cfg.horizontal, old(touch).startX, old(touch).startY, old(touch).endX, old(touch).endY);
                && slideSize == old(slideSize)
                && GoToDone(SwipeTarget(old(currentDomIndex), d.along, now - old(touch).startTime, slideSize,
                                        old(touch).distanceLimit, old(touch).speedLimit), false, false)
    {
      handled := false;
      if !touchBound || !isSwiping || isScrolling {
        return;
      }
      var d := TouchDistance(cfg.horizontal, touch.startX, touch.startY, touch.endX, touch.endY);
      if Abs(d.along) > Abs(d.across) {
        var target := SwipeTarget(currentDomIndex, d.along, now - touch.startTime, slideSize,
                                  touch.distanceLimit, touch.speedLimit);
        GoTo(target, false, false);
        handled := true;
      }
    }

    /** Keydown on the container, handled while enabled with keyboard navigation on. */
    method KeyDown(code: int, inFormField: bool, meta: bool, ctrl: bool) returns (success: bool)
      requires Valid()
      modifies this`slides, this`sliderPos, this`currentDomIndex, this`currentSlideIndex,
               this`animating, this`touchBound, this`pending, this`view, this`events
      ensures Valid()
      ensures success == (old(enabled) && cfg.keyboardNav && Dispatch(code, inFormField, meta, ctrl) != Unhandled)
      ensures !success ==> unchanged(this)
      ensures success ==>
                && slideSize == old(slideSize)
                && match Dispatch(code, inFormField, meta, ctrl)
                   case PrevKey => GoToDone(old(currentDomIndex) - cfg.step, false, false)
                   case NextKey => GoToDone(old(currentDomIndex) + cfg.step, false, false)
                   case Number(k) => GoToDone(CurrentIndex(cfg.circular, old(slides), k), false, false)
                   case Unhandled => false
    {
      success := false;
      if !enabled || !cfg.keyboardNav {
        return;
      }
      match Dispatch(code, inFormField, meta, ctrl)
      case PrevKey =>
        Prev();
        success := true;
      case NextKey =>
        Next();
        success := true;
      case Number(k) =>
        var index := GetCurrentSlideIndex(k);
        GoTo(index, false, false);
        success := true;
      case Unhandled =>
    }

    /**
     * A click on the previous (isNext false) or next button, bound while
     * enabled; a disabled button receives no click.
     */
    method NavClick(isNext: bool) returns (clicked: bool)
      requires Valid()
      modifies this`slides, this`sliderPos, this`currentDomIndex, this`currentSlideIndex,
               this`animating, this`touchBound, this`pending, this`view, this`events
      ensures Valid()
      ensures clicked == (old(enabled) && cfg.prevNext && !(if isNext then old(view).nextDisabled else old(view).prevDisabled))
      ensures !clicked ==> unchanged(this)
      ensures clicked ==>
                && slideSize == old(slideSize)
                && GoToDone((if isNext then 1 else -1) * cfg.step + old(currentDomIndex), false, false)
    {
      clicked := enabled && cfg.prevNext && !(if isNext then view.nextDisabled else view.prevDisabled);
      if clicked {
        var dir := if isNext then 1 else -1;
        GoTo(dir * cfg.step + currentDomIndex, false, false);
      }
    }

    /** A click on handle h, bound while enabled: goes to the slide position of the handle's slot. */
    method HandleClick(h: int) returns (clicked: bool)
      requires Valid()
      requires 0 <= h < |Handles(|slides|, cfg.visible, cfg.groupedHandles)|
      modifies this`slides, this`sliderPos, this`currentDomIndex, this`currentSlideIndex,
               this`animating, this`touchBound, this`pending, this`view, this`events
      ensures Valid()
      ensures clicked == (old(enabled) && cfg.handles)
      ensures !clicked ==> unchanged(this)
      ensures clicked ==>
                var slot := Handles(|old(slides)|, cfg.visible, cfg.groupedHandles)[h].slot;
                && slideSize == old(slideSize)
                && GoToDone(CurrentIndex(cfg.circular, old(slides), slot), false, false)
    {
      clicked := enabled && cfg.handles;
      if clicked {
        var slot := Handles(|slides|, cfg.visible, cfg.groupedHandles)[h].slot;
        var index := GetCurrentSlideIndex(slot);
        GoTo(index, false, false);
      }
    }

    /**
     * The sync event from a peer, bound while enabled with synced
     * carousels: an animated goTo that is never broadcast again.
     */
    method OnSync(index: int) returns (received: bool)
      requires Valid()
      modifies this`slides, this`sliderPos, this`currentDomIndex, this`currentSlideIndex,
               this`animating, this`touchBound, this`pending, this`view, this`events
      ensures Valid()
      ensures received == (old(enabled) && cfg.synced)
      ensures !received ==> unchanged(this)
      ensures received ==> slideSize == old(slideSize) && GoToDone(index, false, true)
      ensures |events| >= |old(events)| && events[..|old(events)|] == old(events)
      ensures forall k :: |old(events)| <= k < |events| ==> !events[k].Broadcast?
    {
      received := enabled && cfg.synced;
      if received {
        GoTo(index, false, true);
      }
    }
  }
}
