/**
 * Values the carousel derives from its state for display: the slider
 * position for an index (`_getTargetPosition`), the state of the
 * previous/next buttons, the active handles and the counter text
 * (`_updateNav`), the handle labels (`_getHandles`) and the sizes set on
 * resize.  Positions are in half-pixels, as in module Slides.
 */
module Presentation {
  import opened Optional
  import opened Settings
  import opened Selectors
  import opened Slides
  import opened Text
  import opened Arithmetic

  /** `_getTargetPosition`: -(index * (size + gutter) + gutter / 2) pixels, doubled. */
  function TargetPosition(index: int, size: int, gutter: int): int {
    -(2 * index * (size + gutter) + gutter)
  }

  /**
   * Where the slide in display slot k starts, relative to the frame, when
   * the slider is at pos: each slide takes size + gutter and carries half
   * the gutter as its leading margin.
   */
  function SlideEdge(pos: int, k: int, size: int, gutter: int): int {
    pos + 2 * k * (size + gutter) + gutter
  }

  /** The target position brings slot `index` to the frame's leading edge and the next slot one slide further. */
  lemma TargetPositionAligns(index: int, size: int, gutter: int)
    ensures SlideEdge(TargetPosition(index, size, gutter), index, size, gutter) == 0
    ensures SlideEdge(TargetPosition(index, size, gutter), index + 1, size, gutter) == 2 * (size + gutter)
  {
  }

  /**
   * Circular mode, backward wrap of -n < i < 0: every slide that stays
   * moves on by -i slots, and because the slider compensation leaves the
   * gutter out, its edge jumps by -i gutters (zero only without gutter).
   */
  lemma BackwardShiftJump(visible: int, slides: seq<int>, pos: int, size: int, gutter: int, i: int, j: int)
    requires |slides| > visible && -|slides| < i < 0
    requires 0 <= j < |slides| + i
    ensures var r := Resolve(true, visible, slides, pos, size, i);
            && r.slides[j - i] == slides[j]
            && SlideEdge(r.pos, j - i, size, gutter) == SlideEdge(pos, j, size, gutter) + 2 * (-i) * gutter
  {
    ResolveBackward(visible, slides, pos, size, i);
    var r := Resolve(true, visible, slides, pos, size, i);
    assert r.slides[-i..][j] == slides[..|slides| + i][j];
  }

  /**
   * Circular mode, forward wrap that moves m slides to the back: every
   * slide that stays moves back by m slots and its edge jumps back by m
   * gutters.
   */
  lemma ForwardShiftJump(visible: int, slides: seq<int>, pos: int, size: int, gutter: int, i: int, j: int)
    requires |slides| > visible >= 1 && i > |slides| - visible
    requires var m := i - (|slides| - visible); m < |slides| && m <= j < |slides|
    ensures var r := Resolve(true, visible, slides, pos, size, i);
            var m := i - (|slides| - visible);
            && r.slides[j - m] == slides[j]
            && SlideEdge(r.pos, j - m, size, gutter) == SlideEdge(pos, j, size, gutter) - 2 * m * gutter
  {
    ResolveForward(visible, slides, pos, size, i);
    var r := Resolve(true, visible, slides, pos, size, i);
    var m := i - (|slides| - visible);
    assert r.slides[..|slides| - m][j - m] == slides[m..][j - m];
  }

  /**
   * `_updateNav` on an enabled carousel: (previous disabled, next disabled).
   * Circular mode leaves both enabled.
   */
  function ButtonStates(circular: bool, index: int, total: int, visible: int): (bool, bool) {
    if circular then (false, false) else (index == 0, index == total - visible)
  }

  /**
   * Bounded mode: a button is disabled exactly when pressing it would not
   * move the carousel (`goTo(index -/+ step)` resolves to the current index).
   */
  lemma ButtonsDisabledExactlyWhenStuck(slides: seq<int>, pos: int, size: int, index: int, visible: int, step: int)
    requires 1 <= visible <= |slides| && step >= 1
    requires IndexOk(false, |slides|, visible, index)
    ensures var (prevOff, nextOff) := ButtonStates(false, index, |slides|, visible);
            && (prevOff <==> Resolve(false, visible, slides, pos, size, index - step).index == index)
            && (nextOff <==> Resolve(false, visible, slides, pos, size, index + step).index == index)
  {
  }

  /** Math.ceil(a / b) for a positive b. */
  function Ceil(a: int, b: int): (c: int)
    requires b > 0
    ensures b * (c - 1) < a <= b * c
  {
    var q := (-a) / b;
    assert b * q <= -a < b * q + b;
    -q
  }

  /** Ceil(a, b) is the only c with b * (c - 1) < a <= b * c. */
  lemma CeilUnique(a: int, b: int, c: int)
    requires b > 0 && b * (c - 1) < a <= b * c
    ensures Ceil(a, b) == c
  {
    var d := Ceil(a, b);
    if d > c {
      MulLe(c, d - 1, b);
    } else if d < c {
      MulLe(d, c - 1, b);
    }
  }

  /** Number of handle groups: the count of g >= 0 with g < total / visible. */
  function GroupCount(total: int, visible: int): nat
    requires visible >= 1
  {
    if total <= 0 then 0 else Ceil(total, visible)
  }

  /** The loop `for (i = 0; i < total / visible; i++)` runs exactly GroupCount times. */
  lemma GroupCountIsLoopBound(total: int, visible: int, g: int)
    requires visible >= 1 && g >= 0
    ensures g < GroupCount(total, visible) <==> g * visible < total
  {
    if total > 0 {
      var c := GroupCount(total, visible);
      if g < c {
        assert g * visible <= (c - 1) * visible;
      } else {
        assert g * visible >= c * visible;
      }
    }
  }

  /** A handle: its label and the index its click passes to `_getCurrentSlideIndex`. */
  datatype Handle = Handle(caption: string, slot: int)

  /** First and last 1-based slide numbers of handle group g. */
  function GroupFirst(g: int, visible: int): int {
    g * visible + 1
  }

  function GroupLast(g: int, total: int, visible: int): int {
    if (g + 1) * visible > total then total else (g + 1) * visible
  }

  /** A group's label: "first - last", or just "last" for a single slide. */
  function GroupLabel(first: int, last: int): string {
    if first < last then IntToString(first) + " - " + IntToString(last) else IntToString(last)
  }

  /** `_getHandles`: one handle per slide, or one per group of `visible` slides. */
  function Handles(total: int, visible: int, grouped: bool): (hs: seq<Handle>)
    requires visible >= 1
  {
    if !grouped then
      seq(if total < 0 then 0 else total, i => Handle(IntToString(i + 1), i))
    else
      seq(GroupCount(total, visible), g =>
        Handle(GroupLabel(GroupFirst(g, visible), GroupLast(g, total, visible)), g * visible))
  }

  /**
   * Grouped handles cover every slide exactly once: slide number s + 1
   * lies in group s / visible, and in no other group.
   */
  lemma GroupsCoverSlides(total: int, visible: int, s: int)
    requires visible >= 1 && 0 <= s < total
    ensures var g := s / visible;
            && 0 <= g < |Handles(total, visible, true)|
            && GroupFirst(g, visible) <= s + 1 <= GroupLast(g, total, visible)
            && forall h :: 0 <= h < GroupCount(total, visible) && h != g ==>
                 !(GroupFirst(h, visible) <= s + 1 <= GroupLast(h, total, visible))
  {
    var g := s / visible;
    assert s == visible * g + s % visible;
    assert (g + 1) * visible == g * visible + visible;
    GroupCountIsLoopBound(total, visible, g);
    forall h | 0 <= h < GroupCount(total, visible) && h != g
      ensures !(GroupFirst(h, visible) <= s + 1 <= GroupLast(h, total, visible))
    {
      if h < g {
        MulLe(h + 1, g, visible);
      } else {
        MulLe(g + 1, h, visible);
      }
    }
  }

  /** The grouping the plugin's documentation shows: 7 slides, 3 visible gives "1 - 3", "4 - 6", "7". */
  lemma SevenSlidesInThrees()
    ensures var hs := Handles(7, 3, true);
            |hs| == 3 && hs[0].caption == "1 - 3" && hs[1].caption == "4 - 6" && hs[2].caption == "7"
            && hs[0].slot == 0 && hs[1].slot == 3 && hs[2].slot == 6
  {
    var hs := Handles(7, 3, true);
    assert NatToString(3) == "3" && NatToString(4) == "4" && NatToString(6) == "6" && NatToString(7) == "7";
    assert NatToString(1) == "1";
    assert hs[0].caption == "1" + " - " + "3";
    assert hs[1].caption == "4" + " - " + "6";
  }

  /** A run of handle positions from .. to - 1. */
  datatype Span = Span(from: int, to: int) {
    predicate Contains(k: int) {
      from <= k < to
    }
  }

  /**
   * The handles `_updateNav` marks active for the slide with original
   * index `original`: with grouped handles `:eq(ceil(original / visible))`;
   * otherwise `:gt(original - 1):lt(visible)`, or `:lt(original + visible)`
   * when original is not positive.
   */
  function ActiveHandles(grouped: bool, original: int, total: nat, visible: int): Span
    requires visible >= 1
  {
    if grouped then
      var count := GroupCount(total, visible);
      var k := Anchor(Ceil(original, visible), count);
      if 0 <= k < count then Span(k, k + 1) else Span(0, 0)
    else if original > 0 then
      var p := GtStart(original - 1, total);
      Span(p, p + LtEnd(visible, total - p))
    else
      Span(0, LtEnd(original + visible, total))
  }

  /** One handle per slide: the active ones are those of the slides on screen. */
  lemma ActiveUngroupedAreOnScreen(original: int, total: nat, visible: int)
    requires visible >= 1 && 0 <= original < total
    ensures ActiveHandles(false, original, total, visible)
            == Span(original, if original + visible < total then original + visible else total)
  {
  }

  /**
   * Grouped handles: the active group is original / visible when the
   * original index starts a group, and the following group otherwise.
   */
  lemma ActiveGroupedRoundsUp(original: int, total: nat, visible: int)
    requires visible >= 1 && 0 <= original < total
    ensures var g := original / visible + (if original % visible == 0 then 0 else 1);
            ActiveHandles(true, original, total, visible)
            == (if g < GroupCount(total, visible) then Span(g, g + 1) else Span(0, 0))
  {
    var q := original / visible;
    assert original == visible * q + original % visible;
    assert visible * (q - 1) == visible * q - visible;
    assert visible * (q + 1) == visible * q + visible;
    if original % visible == 0 {
      CeilUnique(original, visible, q);
    } else {
      CeilUnique(original, visible, q + 1);
    }
  }

  /**
   * In circular mode the ungrouped selector does not wrap: with the tags
   * [3, 4, 0, 1, 2] and 3 slides on screen from slot 0, the slides tagged
   * 3, 4 and 0 are shown, but only handles 3 and 4 are marked.
   */
  lemma ActiveCircularDoesNotWrap()
    ensures var shown := [3, 4, 0, 1, 2][..3];
            && 0 in shown
            && ActiveHandles(false, [3, 4, 0, 1, 2][0], 5, 3) == Span(3, 5)
            && !ActiveHandles(false, [3, 4, 0, 1, 2][0], 5, 3).Contains(0)
  {
    assert [3, 4, 0, 1, 2][..3][2] == 0;
  }

  /**
   * Bounded mode, grouped handles: clicking handle g goes to g * visible,
   * clamped to the last window for the final, partial group, and in both
   * cases handle g becomes active.
   */
  lemma ClickedHandleBecomesActive(slides: seq<int>, pos: int, size: int, visible: int, g: int)
    requires 1 <= visible <= |slides| && 0 <= g < GroupCount(|slides|, visible)
    ensures var hs := Handles(|slides|, visible, true);
            && g < |hs|
            && var index := Resolve(false, visible, slides, pos, size, CurrentIndex(false, slides, hs[g].slot)).index;
               && index == (if g * visible <= |slides| - visible then g * visible else |slides| - visible)
               && ActiveHandles(true, index, |slides|, visible) == Span(g, g + 1)
  {
    var n := |slides|;
    var x := g * visible;
    MulLe(0, g, visible);
    assert visible * (g - 1) == x - visible;
    GroupCountIsLoopBound(n, visible, g);
    if x <= n - visible {
      CeilUnique(x, visible, g);
      assert Resolve(false, visible, slides, pos, size, x).index == x;
    } else {
      CeilUnique(n - visible, visible, g);
      assert Resolve(false, visible, slides, pos, size, x).index == n - visible;
    }
  }

  /**
   * The counter's `%current%`: "a" for one visible slide, otherwise "a-b"
   * with b = min(a + visible - 1, total), where a is the original index
   * plus one ("NaN" when the original index is undefined).
   */
  function CounterCurrent(original: Option<int>, visible: int, total: int): string {
    match original
    case None => if visible > 1 then "NaN-NaN" else "NaN"
    case Some(o) =>
      var a := o + 1;
      var b := if a + (visible - 1) > total then total else a + (visible - 1);
      if visible > 1 then IntToString(a) + "-" + IntToString(b) else IntToString(a)
  }

  /** The counter text: the template with its first `%current%` and then its first `%total%` replaced. */
  function CounterText(template: string, current: string, total: int): string {
    ReplaceFirst(ReplaceFirst(template, "%current%", current), "%total%", IntToString(total))
  }

  lemma IntToStringLacksPercent(i: int)
    ensures '%' !in IntToString(i)
  {
    var d := NatToString(if i < 0 then -i else i);
    assert forall k :: 0 <= k < |d| ==> IsDigit(d[k]);
  }

  lemma CounterCurrentLacksPercent(original: Option<int>, visible: int, total: int)
    ensures '%' !in CounterCurrent(original, visible, total)
  {
    if original.Some? {
      var a := original.value + 1;
      var b := if a + (visible - 1) > total then total else a + (visible - 1);
      IntToStringLacksPercent(a);
      IntToStringLacksPercent(b);
    }
  }

  /** The shipped template filled with a current text that has no '%' and a total text. */
  lemma DefaultTemplateFills(current: string, total: string)
    requires '%' !in current
    ensures ReplaceFirst(ReplaceFirst(DefaultCounterTemplate, "%current%", current), "%total%", total)
            == current + " of " + total
  {
    assert DefaultCounterTemplate == "%current%" + " of %total%";
    ReplaceFirstAtStart("%current%", " of %total%", current);
    var x := current + " of ";
    assert '%' !in x;
    assert current + " of %total%" == x + "%total%";
    ReplaceFirstSkips(x, "%total%", "%total%", total);
    assert "%total%" == "%total%" + "";
    ReplaceFirstAtStart("%total%", "", total);
    assert total + "" == total;
  }

  /** With the shipped template the counter reads "<current> of <total>". */
  lemma DefaultCounterText(original: Option<int>, visible: int, total: int)
    ensures CounterText(DefaultCounterTemplate, CounterCurrent(original, visible, total), total)
            == CounterCurrent(original, visible, total) + " of " + IntToString(total)
  {
    CounterCurrentLacksPercent(original, visible, total);
    DefaultTemplateFills(CounterCurrent(original, visible, total), IntToString(total));
  }

  /**
   * Bounded mode (index within 0 .. total - visible): the counter names
   * exactly the slides on screen, first and last.
   */
  lemma CounterShowsWindow(index: int, visible: int, total: int)
    requires 1 <= visible && 0 <= index <= total - visible
    ensures CounterCurrent(OriginalIndex(false, [], index), visible, total)
            == if visible > 1 then IntToString(index + 1) + "-" + IntToString(index + visible) else IntToString(index + 1)
  {
  }

  /** Ten slides: "4-6 of 10" with three visible from index 3, "1 of 10" with one visible from index 0. */
  lemma CounterExamples()
    ensures CounterText(DefaultCounterTemplate, CounterCurrent(Some(3), 3, 10), 10) == "4-6 of 10"
    ensures CounterText(DefaultCounterTemplate, CounterCurrent(Some(0), 1, 10), 10) == "1 of 10"
  {
    DefaultCounterText(Some(3), 3, 10);
    DefaultCounterText(Some(0), 1, 10);
    assert NatToString(10) == "10";
    assert NatToString(4) == "4" && NatToString(6) == "6" && NatToString(1) == "1";
  }

  /**
   * What `_updateNav` leaves in the DOM: disabled flags of the two buttons
   * and of the handles, the active handles and the counter text.
   */
  datatype NavView = NavView(
    prevDisabled: bool,
    nextDisabled: bool,
    handlesDisabled: bool,
    active: Span,
    counter: string)

  /**
   * `_updateNav`: elements that are not configured are left alone; a
   * disabled carousel disables its buttons and handles but keeps the
   * active marks; the counter is rewritten in both states.  An undefined
   * original index makes the handle selector select nothing.
   */
  function Refresh(cfg: Config, v: NavView, enabled: bool, index: int, original: Option<int>, total: nat): NavView
    requires cfg.visible >= 1
  {
    var withButtons :=
      if !cfg.prevNext then v
      else if enabled then
        var (p, n) := ButtonStates(cfg.circular, index, total, cfg.visible);
        v.(prevDisabled := p, nextDisabled := n)
      else v.(prevDisabled := true, nextDisabled := true);
    var withHandles :=
      if !cfg.handles then withButtons
      else if enabled then
        withButtons.(handlesDisabled := false,
                     active := if original.Some? then ActiveHandles(cfg.groupedHandles, original.value, total, cfg.visible)
                               else Span(0, 0))
      else withButtons.(handlesDisabled := true);
    if !cfg.counter then withHandles
    else withHandles.(counter := CounterText(cfg.counterTemplate, CounterCurrent(original, cfg.visible, total), total))
  }

  /** Refreshing twice is refreshing once: the DOM reflects the state after one call. */
  lemma RefreshIdempotent(cfg: Config, v: NavView, enabled: bool, index: int, original: Option<int>, total: nat)
    requires cfg.visible >= 1
    ensures var once := Refresh(cfg, v, enabled, index, original, total);
            Refresh(cfg, once, enabled, index, original, total) == once
  {
  }

  /** Sizes `resize` sets: each slide's outer width and the slider's width. */
  datatype Layout = Layout(slideWidth: int, sliderWidth: int)

  function ResizeLayout(horizontal: bool, containerWidth: int, visible: int, total: int, gutter: int): Layout
    requires visible >= 1
  {
    var slideWidth := if horizontal then containerWidth / visible else containerWidth;
    Layout(slideWidth, if horizontal then total * (slideWidth + gutter) else slideWidth)
  }

  /**
   * Horizontal layout: `visible` slides fill the frame up to less than one
   * pixel per slide, and the slider holds every slide with its gutter.
   */
  lemma ResizeLayoutFits(containerWidth: nat, visible: int, total: int, gutter: int)
    requires visible >= 1
    ensures var l := ResizeLayout(true, containerWidth, visible, total, gutter);
            && visible * l.slideWidth <= containerWidth < visible * (l.slideWidth + 1)
            && l.sliderWidth == total * (l.slideWidth + gutter)
  {
  }

  /**
   * The slide size along the slider's axis after `resize`: the width given
   * to every slide when horizontal; otherwise the first slide's outer
   * height, which with a fixed height is the highest slide's (every slide
   * gets it as its minimum).  The heights are measured in display order.
   */
  function SlideSize(cfg: Config, containerWidth: int, heights: seq<int>): int
    requires cfg.visible >= 1
  {
    if cfg.horizontal then ResizeLayout(true, containerWidth, cfg.visible, |heights|, cfg.gutter).slideWidth
    else if heights == [] then 0
    else if cfg.fixedHeight then MaxHeight(heights)
    else heights[0]
  }

  /** Fixed-height frame: the highest slide, or `visible` highest slides with gutters when vertical. */
  function FrameHeight(horizontal: bool, visible: int, slidesHeight: int, gutter: int): int {
    if horizontal then slidesHeight else visible * (slidesHeight + gutter)
  }

  /**
   * A vertical fixed-height frame is exactly as tall as the stretch of
   * slider between the window at `index` and the window `visible` slides
   * further on (target positions are in half-pixels).
   */
  lemma FrameHoldsVisibleSlides(index: int, visible: int, slidesHeight: int, gutter: int)
    ensures TargetPosition(index, slidesHeight, gutter) - TargetPosition(index + visible, slidesHeight, gutter)
            == 2 * FrameHeight(false, visible, slidesHeight, gutter)
  {
    assert (index + visible) * (slidesHeight + gutter) == index * (slidesHeight + gutter) + visible * (slidesHeight + gutter);
  }

  /** The largest of the heights, 0 when there are none or all are negative. */
  function MaxHeight(heights: seq<int>): (m: int)
    ensures m >= 0
    ensures forall i :: 0 <= i < |heights| ==> heights[i] <= m
    ensures m == 0 || m in heights
  {
    if heights == [] then 0
    else
      var rest := MaxHeight(heights[..|heights| - 1]);
      var last := heights[|heights| - 1];
      if last > rest then last else rest
  }

  /** `_getHighestSlide` over the measured outer heights (0 when there are none). */
  method HighestSlide(heights: seq<int>) returns (height: int)
    ensures height == MaxHeight(heights)
    ensures height >= 0
    ensures forall i :: 0 <= i < |heights| ==> heights[i] <= height
    ensures height == 0 || height in heights
  {
    height := 0;
    var i := 0;
    while i < |heights|
      invariant 0 <= i <= |heights|
      invariant height == MaxHeight(heights[..i])
    {
      assert heights[..i + 1][..i] == heights[..i];
      if heights[i] > height {
        height := heights[i];
      }
      i := i + 1;
    }
    assert heights[..i] == heights;
  }
}
