# jQuery Carousel navigation engine, in Dafny

This project models the navigation engine of the jQuery Carousel plugin
(`jquery.carousel.js`) and proves properties of it. The page's DOM is
represented as plain state:

- the slides are a sequence of original-index tags in display order, the
  tags being assigned at initialisation;
- the slider's left (or top) offset is an integer;
- sizes and the gutter are integers, and the swipe thresholds are reals.

Slider positions are kept in **half-pixels** (twice the CSS value). This
keeps the half gutter of `_getTargetPosition` integral.

The model has four parts.

- **Position resolver** (`Slides`, plus `Carousel.GetValidatedTarget` and
  `Carousel.ShiftSlides`).
  - `Resolve` is the specification of `_getValidatedTarget`, and `Shift` that
    of `_shiftSlides`.
  - Both use jQuery's positional selectors `:gt`, `:lt` and `:eq` (module
    `Selectors`). A negative argument counts from the end; an index out of
    range selects nothing.
  - Bounded mode clamps the index. Circular mode rotates the slide sequence
    and moves the slider by the moved count times the slide size.
  - A circular request of exactly `-total` meets `:gt(-1)`, which selects
    nothing. The resolver then returns `-total` unchanged; this is reproduced
    and proved (`ResolveMinusTotal`).
- **Navigation state machine** (`CarouselPlugin.Carousel`). It is a class whose
  methods update the same fields `goTo`, `next`, `prev`, `enable`, `disable`,
  `resize`, the click, key and sync handlers and the touch handlers update.
  - The end of an animated move is the separate method `OnTransitionEnd`.
  - The `start`/`stop` callbacks and the sync broadcast are appended to an
    `events` log.
  - `Valid()` is the invariant every method keeps:
    - the tags stay a bijection onto `0 .. total-1`;
    - the current index is one the resolver can produce;
    - the stored original index is the tag at that index;
    - a waiting completion implies `animating`;
    - a gesture is never both a swipe and a scroll;
    - the navigation elements show the current state.
- **Gesture recognizer** (`Gesture`, plus the `Touch*` methods). It covers:
  - the axis swap;
  - JavaScript's `Math.round` as `floor((2a+b)/(2b))`;
  - the speed test, made by cross-multiplying (a zero elapsed time is an
    infinite speed);
  - the swipe target.
- **Derived presentation values** (`Presentation`, `Keys`, `Text`):
  - the target position;
  - the button states, the active handles and the counter text of
    `_updateNav`;
  - the handle labels of `_getHandles`;
  - the keyboard dispatch;
  - `getNamespacedEvents`;
  - the resize arithmetic.

Some of the source's behaviour is easy to misread. The model reproduces it
as written:

- **Overflow forward in circular mode.** The resolver returns
  `total - visible` even when the request is more than a full turn away.
  Then at most `total` slides move, fewer than were asked for
  (`ResolveForward`).
- **Swipe count.** A swipe moves `|round(dx / size)|` slides, with halves
  rounded up. A drag of -1.5 slides therefore moves one slide, and a drag of
  +1.5 slides moves two (`JsRoundHalves`, `AcceptedSwipeMoves`).
- **Active handle group.** The active group is `ceil(original / visible)`.
  That is the group holding the current slide only when the slide starts a
  group (`ActiveGroupedRoundsUp`).
- **Active handles in circular mode.** The ungrouped selector
  `:gt(original - 1):lt(visible)` does not wrap around the end. A window that
  wraps marks only the handles up to the last one
  (`ActiveCircularDoesNotWrap`).
- **Sync.** A received sync calls `goTo(index, false, true)`, which runs the
  receiver's own resolver again. It never re-broadcasts (`OnSync`).
- **Enable.** Apart from being enabled already, the only thing that makes it
  refuse is `visible > total`.
- **Zero-distance `goTo`.** It still starts an animation and waits for its
  completion.
- **Swipe thresholds.** They are fractions of the frame width, multiplied by
  the width each time the touch handlers are bound. That happens on
  `enable` and at the end of every animated move, so a resize changes them
  only from the next binding on (`FreshTouch`).

## Model

| member | source | states |
|---|---|---|
| Selectors.GtStart | jquery.carousel.js:774-775 | `:gt(a)` over n slides selects exactly the positions p .. n-1 for the returned p; a negative a counts from the end |
| Selectors.LtEnd | jquery.carousel.js:774-775 | `:lt(a)` over n slides selects exactly 0 .. q-1 for the returned q; an argument of n or more selects all |
| Slides.RangeIsTagging | jquery.carousel.js:242-244 | the initial tags are a bijection onto 0 .. n-1 |
| Slides.Rotate | jquery.carousel.js:787-791 | moving a suffix to the front (or a prefix to the back) is a rotation, element by element |
| Slides.RotatePermutes | jquery.carousel.js:787-791 | a rotation keeps the multiset of tags |
| Slides.RotateKeepsTagging | jquery.carousel.js:787-791 | a rotation keeps the tags a bijection onto 0 .. n-1 |
| Slides.FirstIndexOf | jquery.carousel.js:672-681 | the returned slot holds the tag and no earlier slot does; no slot holds it when the result is n |
| Slides.CurrentOfOriginal | jquery.carousel.js:658-685 | `_getCurrentSlideIndex(_getOriginalSlideIndex(k)) == k` for every slot k |
| Slides.OriginalOfCurrent | jquery.carousel.js:658-685 | `_getOriginalSlideIndex(_getCurrentSlideIndex(t)) == t` for every tag t |
| Slides.OriginalIndex | jquery.carousel.js:658-666 | `_getOriginalSlideIndex`: the tag at the slot in circular mode (undefined when `.eq` selects nothing), the slot itself otherwise; specified by CurrentOfOriginal and OriginalOfCurrent |
| Slides.CurrentIndex | jquery.carousel.js:668-685 | `_getCurrentSlideIndex`: the first slot carrying the tag in circular mode, else the argument; specified by FirstIndexOf, CurrentOfOriginal, OriginalOfCurrent and ResolveShowsTag |
| Slides.Shift | jquery.carousel.js:773-797 | `_shiftSlides`: specified by ShiftPermutes, and through Resolve by ResolveBackward, ResolveBeyondFront and ResolveForward |
| Slides.ShiftPermutes | jquery.carousel.js:773-797 | a shift keeps length, tags and bijection; it reports a move exactly when its selector selects some slide (`GtSelectsSome(index - 1, n)` backward, `LtSelectsSome(index + 1, n)` forward), and an empty selection changes nothing |
| Slides.Resolve | jquery.carousel.js:719-749 | `_getValidatedTarget`: specified case by case by ResolveClamps, ResolveInWindow, ResolveBackward, ResolveBeyondFront, ResolveMinusTotal and ResolveForward, and as a whole by ResolveKeepsTagging |
| Slides.ResolveClamps | jquery.carousel.js:719-729 | bounded mode or total <= visible: the result is in 0 .. total-visible (0 when total <= visible), in-range requests come back unchanged, and nothing moves |
| Slides.ResolveInWindow | jquery.carousel.js:731-748 | circular mode, 0 <= i <= total-visible: i is returned, with no reorder |
| Slides.ResolveBackward | jquery.carousel.js:731-737 | circular, -total < i < 0: the last -i slides move in order to the front, the slider moves back -i slide sizes, and 0 is returned |
| Slides.ResolveBeyondFront | jquery.carousel.js:731-737 | circular, i <= -total: min(-i-total, total) slides move to the front; nothing moves and i is returned when that count is 0 |
| Slides.ResolveMinusTotal | jquery.carousel.js:731-737 | circular, i = -total: nothing moves and -total is returned |
| Slides.ResolveForward | jquery.carousel.js:739-744 | circular, i > total-visible: the first min(i-(total-visible), total) slides move in order to the back, the slider moves on by that many sizes, and total-visible is returned |
| Slides.ResolveKeepsTagging | jquery.carousel.js:719-749 | every resolution keeps length, multiset and bijection of the tags, and lands on an index the resolver can produce |
| Slides.ResolveShowsTag | jquery.carousel.js:384-387 | circular: going to the slot of tag t (digit keys, handles) ends with tag t at the current index |
| Slides.BoundedClampExamples | jquery.carousel.js:719-729 | 5 slides, 2 visible: -5 resolves to 0 and 10 to 3 |
| Slides.CircularRoundTrip | jquery.carousel.js:541-546 | 5 slides, 1 visible, circular: one prev, then five nexts, restores the original order |
| Text.NatToString | jquery.carousel.js:992 | a number's text is non-empty decimal digits with no leading zero |
| Text.ParseNatToString | jquery.carousel.js:992 | the decimal text of n reads back as n |
| Text.NatToStringInjective | jquery.carousel.js:992 | different numbers are written differently |
| Text.ReplaceFirstSkips | jquery.carousel.js:992 | `replace` leaves a prefix that lacks the pattern's first character as it is |
| Text.ReplaceFirstAtStart | jquery.carousel.js:992 | `replace` of a pattern at the start substitutes that occurrence |
| Text.JoinSplit | jquery.carousel.js:118-124 | `s.split(c).join(c) == s` |
| Text.SplitJoin | jquery.carousel.js:118-124 | pieces without the separator, joined then split, come back unchanged |
| Text.SplitPiecesLackSeparator | jquery.carousel.js:118 | no piece of a split contains the separator |
| Text.SplitPrefix | jquery.carousel.js:118 | a prefix without the separator joins the first piece of what follows |
| Text.NamespacedEvents | jquery.carousel.js:117-125 | `getNamespacedEvents`: specified by NamespacedEventsPieces and NamespacedEventsOfNothing |
| Text.NamespacedEventsPieces | jquery.carousel.js:117-125 | the result splits at spaces into exactly the original names, each followed by ".carousel" |
| Text.NamespacedEventsOfNothing | jquery.carousel.js:456-457 | the empty event list gives the bare namespace ".carousel" that `disable` unbinds |
| Presentation.TargetPositionAligns | jquery.carousel.js:707-716 | the target position puts slot `index` at the frame's leading edge and the next slot one slide further |
| Presentation.TargetPosition | jquery.carousel.js:707-716 | `_getTargetPosition`, in half-pixels: specified by TargetPositionAligns, BackwardShiftJump and ForwardShiftJump |
| Presentation.BackwardShiftJump | jquery.carousel.js:779-783 | a backward wrap moves every slide that stays by -i slots, and its edge by -i gutters, because the compensation leaves the gutter out |
| Presentation.ForwardShiftJump | jquery.carousel.js:779-783 | a forward wrap of m slides moves every slide that stays back m slots, and its edge back m gutters |
| Presentation.ButtonsDisabledExactlyWhenStuck | jquery.carousel.js:940-953 | bounded mode: prev (next) is disabled exactly when goTo(index -/+ step) would resolve to the current index |
| Presentation.ButtonStates | jquery.carousel.js:940-953 | the prev/next disabled flags: specified by ButtonsDisabledExactlyWhenStuck |
| Presentation.Ceil | jquery.carousel.js:962 | `Math.ceil(a / b)` is the c with b(c-1) < a <= bc |
| Presentation.GroupCountIsLoopBound | jquery.carousel.js:605-607 | the group loop runs for exactly the g with g*visible < total |
| Presentation.GroupsCoverSlides | jquery.carousel.js:605-629 | grouped handles cover every slide exactly once: slide s lies in group s / visible and in no other group |
| Presentation.Handles | jquery.carousel.js:588-635 | `_getHandles`: specified by GroupCountIsLoopBound, GroupsCoverSlides and SevenSlidesInThrees |
| Presentation.SevenSlidesInThrees | jquery.carousel.js:605-629 | 7 slides, 3 visible: labels "1 - 3", "4 - 6", "7" with slots 0, 3, 6 |
| Presentation.ActiveUngroupedAreOnScreen | jquery.carousel.js:957-959 | bounded mode (original index = slot), one handle per slide: the active handles are exactly those of the slides on screen |
| Presentation.ActiveCircularDoesNotWrap | jquery.carousel.js:957-959 | circular: with tags [3,4,0,1,2] and 3 visible, tag 0 is on screen but only handles 3 and 4 are marked, because the selector does not wrap |
| Presentation.ActiveGroupedRoundsUp | jquery.carousel.js:961-963 | grouped: the active group is original / visible, plus one when the original index does not start a group |
| Presentation.ClickedHandleBecomesActive | jquery.carousel.js:348-356 | bounded, grouped: clicking any handle g goes to g*visible, or to total-visible for the last, partial group, and handle g becomes the active one |
| Presentation.ActiveHandles | jquery.carousel.js:957-963 | the active handles of `_updateNav`: specified by ActiveUngroupedAreOnScreen, ActiveCircularDoesNotWrap, ActiveGroupedRoundsUp and ClickedHandleBecomesActive |
| Presentation.DefaultTemplateFills | jquery.carousel.js:992 | the shipped template, filled, reads "<current> of <total>" |
| Presentation.DefaultCounterText | jquery.carousel.js:981-992 | the counter with the shipped template reads "<current> of <total>" |
| Presentation.CounterShowsWindow | jquery.carousel.js:981-990 | bounded mode: the counter shows "a" or "a-b" for the first and last slide on screen |
| Presentation.CounterExamples | jquery.carousel.js:981-995 | 10 slides: "4-6 of 10" with 3 visible from index 3, and "1 of 10" with 1 visible from index 0 |
| Presentation.CounterCurrent | jquery.carousel.js:981-990 | the counter's `%current%` text: specified by CounterShowsWindow and CounterExamples |
| Presentation.CounterText | jquery.carousel.js:992 | the two first-occurrence replaces: specified by DefaultTemplateFills, DefaultCounterText and CounterExamples |
| Presentation.RefreshIdempotent | jquery.carousel.js:936-995 | refreshing the navigation twice is refreshing it once |
| Presentation.Refresh | jquery.carousel.js:936-995 | what `_updateNav` leaves the navigation showing: specified by RefreshIdempotent, ButtonsDisabledExactlyWhenStuck, the ActiveHandles lemmas and the counter lemmas |
| Presentation.ResizeLayoutFits | jquery.carousel.js:307-309 | horizontal: `visible` slides fill the frame to within one pixel each, and the slider holds every slide with its gutter |
| Presentation.SlideSize | jquery.carousel.js:307-323 | the slide size after a resize: floor(width / visible) when horizontal; the first slide's outer height, or the highest with a fixed height, when vertical; used by Resize and the constructor |
| Presentation.FrameHoldsVisibleSlides | jquery.carousel.js:320-322 | a vertical fixed-height frame is exactly as tall as `visible` slides of the highest height with their gutters, measured along the slider |
| Presentation.FrameHeight | jquery.carousel.js:320-322 | the frame height `resize` sets with a fixed height: specified by FrameHoldsVisibleSlides |
| Presentation.MaxHeight | jquery.carousel.js:638-655 | the value `_getHighestSlide` computes: at least 0, no height above it, and 0 or one of the heights |
| Presentation.HighestSlide | jquery.carousel.js:638-655 | the loop returns MaxHeight of the heights: 0 or one of the heights, and no height exceeds it |
| Gesture.VerticalIsMirroredHorizontal | jquery.carousel.js:799-814 | `_getTouchDistance` of a vertical slider reads a drag as a horizontal one reads the mirrored drag |
| Gesture.TouchDistanceIgnoresPlace | jquery.carousel.js:799-804 | the distance depends only on the drag, not on where it happened |
| Gesture.TouchDistanceAdds | jquery.carousel.js:799-804 | a drag in two legs measures the sum of the legs, and the drag back measures the opposite |
| Gesture.TouchDistanceAlongAxis | jquery.carousel.js:799-814 | a drag with no movement across the slider's axis is measured fully along it, horizontal or vertical |
| Gesture.JsRoundNearest | jquery.carousel.js:908 | `Math.round(a/b)` is within one half of a/b |
| Gesture.JsRoundSign | jquery.carousel.js:908 | rounding keeps the sign and gives 0 below one half |
| Gesture.JsRoundHalves | jquery.carousel.js:908 | halves go up: round(1.5) = 2 and round(-1.5) = -1 |
| Gesture.JsRound | jquery.carousel.js:908 | `Math.round(a / b)`: specified by JsRoundNearest, JsRoundSign and JsRoundHalves |
| Gesture.SpeedExceedsMeansFaster | jquery.carousel.js:901-905 | for a non-zero elapsed time the test is `abs(dx) / elapsed * 1000 > threshold`, evaluated in exact arithmetic; for a zero elapsed time it holds exactly when the finger moved (Infinity rather than NaN) |
| Gesture.SpeedExceeds | jquery.carousel.js:901-905 | the speed test: specified by SpeedExceedsMeansFaster |
| Gesture.RejectedSwipeStays | jquery.carousel.js:893-918 | a swipe neither long nor fast enough goes to the current index |
| Gesture.AcceptedSwipeMoves | jquery.carousel.js:905-915 | an accepted swipe moves against the drag by the nearest whole number of slides, or by one slide when it was fast and that number is 0 |
| Gesture.FastFlickMovesOne | jquery.carousel.js:910-913 | a fast flick shorter than half a slide moves exactly one slide |
| Gesture.SwipeExamples | jquery.carousel.js:905-915 | concrete swipes: a fast short flick moves one slide, a slow one stays, and a long drag moves two |
| Gesture.SwipeTarget | jquery.carousel.js:895-918 | the index a finished swipe passes to `goTo`: specified by RejectedSwipeStays, AcceptedSwipeMoves, FastFlickMovesOne and SwipeExamples |
| Keys.Dispatch | jquery.carousel.js:367-391 | left/p are prev, right/n are next, codes 48-57 select code-49; all keys are ignored in form fields or with meta/ctrl |
| Keys.DigitKeys | jquery.carousel.js:384-387 | "1" selects index 0, "9" index 8 and "0" index -1 |
| CarouselPlugin.Carousel.constructor | jquery.carousel.js:240-294 | slides tagged 0 .. n-1 (the source tags them only in circular mode; bounded mode never reads the tags), the measured slide size and frame, the carousel at index 0 without animation, enabled iff visible <= total, touch bound iff enabled with touch on, with thresholds from the measured width |
| CarouselPlugin.Carousel.UpdateNav | jquery.carousel.js:936-995 | the navigation view becomes Refresh of the current state |
| CarouselPlugin.Carousel.ShiftSlides | jquery.carousel.js:773-797 | slide order, slider position and result are those of Shift |
| CarouselPlugin.Carousel.GetValidatedTarget | jquery.carousel.js:719-749 | slide order, slider position and result are those of Resolve |
| CarouselPlugin.Carousel.GetCurrentSlideIndex | jquery.carousel.js:668-685 | circular: the slot of the tag when some slide carries it; otherwise the argument |
| CarouselPlugin.Carousel.GoTo | jquery.carousel.js:472-540 | nothing changes while animating; otherwise the state is GoToDone: resolved order and index, slider at the target, original index, refreshed navigation, and for an animated move `animating`, touch unbound, `start`, and a broadcast unless synced |
| CarouselPlugin.Carousel.MoveTo | jquery.carousel.js:475-534 | the body of goTo when idle establishes GoToDone |
| CarouselPlugin.Carousel.BeginAnimation | jquery.carousel.js:492-527 | sets `animating`, unbinds touch, logs `start` then the broadcast, and leaves the completion waiting |
| CarouselPlugin.Carousel.Land | jquery.carousel.js:529-534 | slider at the target position, indices stored, navigation refreshed |
| CarouselPlugin.Carousel.OnTransitionEnd | jquery.carousel.js:481-489 | with a completion waiting: logs `stop`, binds fresh touch handlers with thresholds from the current frame width, and clears `animating`; otherwise nothing |
| CarouselPlugin.Carousel.Next | jquery.carousel.js:541-543 | is goTo(current + step) |
| CarouselPlugin.Carousel.Prev | jquery.carousel.js:544-546 | is goTo(current - step) |
| CarouselPlugin.Carousel.Enable | jquery.carousel.js:329-450 | does nothing when enabled or when visible > total; otherwise sets enabled, binds touch with fresh coordinates and thresholds from the current frame width when configured, and refreshes the navigation |
| CarouselPlugin.Carousel.Disable | jquery.carousel.js:452-470 | does nothing when disabled; otherwise clears enabled, unbinds touch, drops a waiting CSS-transition completion, and refreshes the navigation |
| CarouselPlugin.Carousel.Resize | jquery.carousel.js:296-327 | the slide size becomes SlideSize of the measurement, the frame width is recorded, with a fixed height the frame gets FrameHeight of the highest slide (via HighestSlide), then goTo(current, skipAnimation) |
| CarouselPlugin.Carousel.TouchStart | jquery.carousel.js:836-847 | records start point, time and slider origin, and clears both gesture flags |
| CarouselPlugin.Carousel.TouchMove | jquery.carousel.js:849-888 | ignored after a scroll; a drag mostly along the axis (or an ongoing swipe) is a swipe and moves the slider by the drag; anything else is a scroll |
| CarouselPlugin.Carousel.TouchEnd | jquery.carousel.js:890-923 | acts exactly after a swipe whose final drag is mostly along the axis, and then is goTo(SwipeTarget) with the thresholds of the closure bound last |
| CarouselPlugin.Carousel.KeyDown | jquery.carousel.js:362-398 | handled exactly when enabled, keyboard navigation is on and the key dispatches; then prev, next, or goTo(_getCurrentSlideIndex(code-49)) |
| CarouselPlugin.Carousel.NavClick | jquery.carousel.js:336-346 | an enabled, non-disabled button is goTo(dir * step + current) |
| CarouselPlugin.Carousel.HandleClick | jquery.carousel.js:348-356 | a handle click is goTo(_getCurrentSlideIndex(slot)) |
| CarouselPlugin.Carousel.OnSync | jquery.carousel.js:445-448 | a received sync is goTo(index, false, true), and it appends no broadcast |
| CarouselPlugin.FreshTouch | jquery.carousel.js:817-834 | the closure `_touchEnable` binds: zero coordinates and times, and thresholds equal to the configured fractions times the frame width at that moment; used by Enable, OnTransitionEnd and the constructor |

## Left out

- DOM construction, templating, `update`, `destroy` and the `$.fn` dispatcher: these are jQuery plumbing. The constructor stands for `init` as far as the engine's state goes.
- Feature detection, easing, durations and the intermediate positions of an animation. The slider is set to its target at once, and completion is the explicit call `OnTransitionEnd`.
- Timers: autoplay (and its disabling by keys and swipes), the resize debounce, and the focus handler's `setTimeout`.
- `_updateHeight` (the auto-height animation of the frame), the `min-height` style that a fixed height gives every slide, and the auto-detection of `visible` in `_getVisibleSlides`. `visible` is a configured integer of at least 1. `_getHighestSlide` runs over measured heights passed to `Resize`, and a vertical slide's size is taken to be the first slide's measured outer height, or the highest one with a fixed height.
- Floating point: the threshold fractions and the speed are exact reals rather than doubles, sizes are whole pixels, and times are integer milliseconds.
- The frame width is not read live from the page. The touch thresholds use the width last passed to `Resize` (or to the constructor), which is what the page shows as long as every change of width is followed by a resize.
- Synced peers: the broadcast is logged as an event. The peers' live drag styling and their own handling are not modelled.
- Handle labels are the text substituted for `%index%`; the rest of the handle template is not modelled.
- Re-binding already-bound touch handlers adds duplicate listeners in the source. The model keeps one flag, `touchBound`.
- `isSwiping` / `isScrolling` are shared by every carousel on the page in the source. Here they are fields of the one instance.
- CarouselPlugin.Carousel.Resize: requires one measured height per slide and a positive new slide size. Zero-size slides, and the division by zero they cause in a swipe, are not modelled.
- CarouselPlugin.Carousel.constructor: requires one measured height per slide, a positive slide size and `visible >= 1`, for the same reason.
- CarouselPlugin.Carousel.HandleClick: takes the clicked handle's position among the rendered handles, which requires it to exist.
- Liveness: the browser may fire no `transitionend` for a move of zero distance. The model only states what happens if completion arrives.
- The `initialSlide` option: the source never reads it.
