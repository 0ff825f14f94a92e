/**
 * The position resolver of the carousel: the slide list as a sequence of
 * original-index tags in display order, the rotation that circular mode
 * performs on it (`_shiftSlides`), the validation of a requested index
 * (`_getValidatedTarget`) and the two lookups between a display slot and
 * the tag given to its slide at initialisation (`_getOriginalSlideIndex`,
 * `_getCurrentSlideIndex`).
 *
 * Slider positions are in half-pixels (twice the CSS value), so that the
 * half gutter of the target position stays an integer.
 */
module Slides {
  import opened Optional
  import opened Selectors

  /** The tags assigned at initialisation: slide k of the authored list gets tag k. */
  function Range(n: nat): seq<int> {
    seq(n, k => k)
  }

  /** The display order after the first k slides are moved, in order, behind the others. */
  function Rotate(s: seq<int>, k: nat): (r: seq<int>)
    requires k <= |s|
    ensures |r| == |s|
    ensures forall j :: 0 <= j < |s| - k ==> r[j] == s[j + k]
    ensures forall j :: |s| - k <= j < |s| ==> r[j] == s[j + k - |s|]
  {
    s[k..] + s[..k]
  }

  /** A rotation keeps every slide: the same tags with the same multiplicities. */
  lemma RotatePermutes(s: seq<int>, k: nat)
    requires k <= |s|
    ensures multiset(Rotate(s, k)) == multiset(s)
  {
    assert s == s[..k] + s[k..];
  }

  /** Every slide carries a distinct tag and the tags are exactly 0 .. n-1. */
  ghost predicate IsTagging(s: seq<int>) {
    && (forall i, j :: 0 <= i < j < |s| ==> s[i] != s[j])
    && (forall i :: 0 <= i < |s| ==> 0 <= s[i] < |s|)
    && (forall t :: 0 <= t < |s| ==> t in s)
  }

  lemma RangeIsTagging(n: nat)
    ensures IsTagging(Range(n))
  {
    var r := Range(n);
    forall t | 0 <= t < n ensures t in r {
      assert r[t] == t;
    }
  }

  /** Rotating the display order keeps the tagging a bijection onto 0 .. n-1. */
  lemma RotateKeepsTagging(s: seq<int>, k: nat)
    requires k <= |s| && IsTagging(s)
    ensures IsTagging(Rotate(s, k))
  {
    var r := Rotate(s, k);
    var n := |s|;
    RotatePermutes(s, k);
    forall i, j | 0 <= i < j < n ensures r[i] != r[j] {
      var si := if i < n - k then i + k else i + k - n;
      var sj := if j < n - k then j + k else j + k - n;
      assert r[i] == s[si] && r[j] == s[sj] && si != sj;
      if si < sj { assert s[si] != s[sj]; } else { assert s[sj] != s[si]; }
    }
    forall t | 0 <= t < n ensures t in r {
      assert t in s;
      assert t in multiset(s);
    }
  }

  /**
   * `_getOriginalSlideIndex`: in circular mode the tag of the slide that
   * `.eq(index)` selects (None, JavaScript's undefined, when it selects
   * nothing); otherwise the index itself.
   */
  function OriginalIndex(circular: bool, s: seq<int>, index: int): Option<int> {
    if !circular then Some(index)
    else
      var j := Anchor(index, |s|);
      if 0 <= j < |s| then Some(s[j]) else None
  }

  /** Position of the first slide tagged t, or |s| when there is none. */
  function FirstIndexOf(s: seq<int>, t: int): (j: nat)
    ensures j <= |s|
    ensures j < |s| ==> s[j] == t
    ensures forall k :: 0 <= k < j ==> s[k] != t
  {
    if s == [] then 0
    else if s[0] == t then 0
    else 1 + FirstIndexOf(s[1..], t)
  }

  /**
   * `_getCurrentSlideIndex`: in circular mode the display slot of the first
   * slide tagged `original`; when no slide carries it, or in bounded mode,
   * the argument itself.
   */
  function CurrentIndex(circular: bool, s: seq<int>, original: int): int {
    if circular && FirstIndexOf(s, original) < |s| then FirstIndexOf(s, original) else original
  }

  /** The tag found at slot k leads back to slot k. */
  lemma CurrentOfOriginal(circular: bool, s: seq<int>, k: int)
    requires IsTagging(s) && 0 <= k < |s|
    ensures OriginalIndex(circular, s, k).Some?
    ensures CurrentIndex(circular, s, OriginalIndex(circular, s, k).value) == k
  {
    if circular {
      var j := FirstIndexOf(s, s[k]);
      assert j <= k;
    }
  }

  /** The slot found for a tag holds that tag. */
  lemma OriginalOfCurrent(circular: bool, s: seq<int>, t: int)
    requires IsTagging(s) && 0 <= t < |s|
    ensures OriginalIndex(circular, s, CurrentIndex(circular, s, t)) == Some(t)
  {
    if circular {
      assert t in s;
      var j :| 0 <= j < |s| && s[j] == t;
      assert FirstIndexOf(s, t) <= j;
    }
  }

  /** The outcome of `_shiftSlides`: whether slides moved, the new order and the new slider position. */
  datatype Shifted = Shifted(moved: bool, slides: seq<int>, pos: int)

  /**
   * `_shiftSlides(index, dir)`: with dir = -1 the slides selected by
   * `:gt(index - 1)` move, in order, to the front; otherwise those selected
   * by `:lt(index + 1)` move to the back.  The slider position moves by
   * dir * (number moved) * slide size, leaving the gutter out.  An empty
   * selection changes nothing.
   */
  function Shift(slides: seq<int>, pos: int, size: int, index: int, dir: int): Shifted {
    var n := |slides|;
    if dir == -1 then
      var p := GtStart(index - 1, n);
      if n - p > 0 then Shifted(true, Rotate(slides, p), pos + 2 * dir * (n - p) * size)
      else Shifted(false, slides, pos)
    else
      var q := LtEnd(index + 1, n);
      if q > 0 then Shifted(true, Rotate(slides, q), pos + 2 * dir * q * size)
      else Shifted(false, slides, pos)
  }

  /**
   * A shift is a rotation: same length, same tags.  It reports a move
   * exactly when its selector selects some slide, and when nothing is
   * selected it changes nothing.
   */
  lemma ShiftPermutes(slides: seq<int>, pos: int, size: int, index: int, dir: int)
    requires IsTagging(slides)
    ensures var r := Shift(slides, pos, size, index, dir);
            && |r.slides| == |slides|
            && multiset(r.slides) == multiset(slides)
            && IsTagging(r.slides)
            && (r.moved <==> if dir == -1 then GtSelectsSome(index - 1, |slides|) else LtSelectsSome(index + 1, |slides|))
            && (!r.moved ==> r.slides == slides && r.pos == pos)
  {
    var n := |slides|;
    if dir == -1 {
      var p := GtStart(index - 1, n);
      if n - p > 0 {
        RotatePermutes(slides, p);
        RotateKeepsTagging(slides, p);
        assert GtSelects(index - 1, n, p);
      }
    } else {
      var q := LtEnd(index + 1, n);
      if q > 0 {
        RotatePermutes(slides, q);
        RotateKeepsTagging(slides, q);
        assert LtSelects(index + 1, n, 0);
      }
    }
  }

  /** The outcome of `_getValidatedTarget`: slide order, slider position and the index to show. */
  datatype Resolved = Resolved(slides: seq<int>, pos: int, index: int)

  /** `_getValidatedTarget(i)` for `visible` slides on screen. */
  function Resolve(circular: bool, visible: int, slides: seq<int>, pos: int, size: int, i: int): Resolved {
    var n := |slides|;
    if n <= visible then Resolved(slides, pos, 0)
    else if !circular then
      Resolved(slides, pos, if i < 0 then 0 else if i >= n - visible then n - visible else i)
    else if i < 0 then
      var sh := Shift(slides, pos, size, n + i, -1);
      if sh.moved then Resolved(sh.slides, sh.pos, 0) else Resolved(slides, pos, i)
    else if n > visible && i > n - visible then
      var maxIndex := (i - 1) - (n - visible);
      var sh := Shift(slides, pos, size, maxIndex, 1);
      if sh.moved then Resolved(sh.slides, sh.pos, i - (maxIndex + 1)) else Resolved(slides, pos, i)
    else Resolved(slides, pos, i)
  }

  /**
   * The indices the resolver can produce: 0 .. n - visible (only 0 when
   * nothing can scroll), and in circular mode also -n, the request that
   * `:gt(-1)` turns into an empty selection.
   */
  predicate IndexOk(circular: bool, n: int, visible: int, index: int) {
    if !circular || n <= visible then 0 <= index && (index == 0 || index <= n - visible)
    else index == -n || 0 <= index <= n - visible
  }

  /** Bounded mode, or nothing to scroll: the request is clamped to 0 .. n - visible and nothing moves. */
  lemma ResolveClamps(circular: bool, visible: int, slides: seq<int>, pos: int, size: int, i: int)
    requires !circular || |slides| <= visible
    ensures var r := Resolve(circular, visible, slides, pos, size, i);
            var n := |slides|;
            && r.slides == slides && r.pos == pos
            && (n <= visible ==> r.index == 0)
            && (n > visible ==> 0 <= r.index <= n - visible)
            && (n > visible && 0 <= i <= n - visible ==> r.index == i)
            && (n > visible && i < 0 ==> r.index == 0)
            && (n > visible && i > n - visible ==> r.index == n - visible)
  {
  }

  /** Circular mode, a request inside the window: returned unchanged, nothing reordered. */
  lemma ResolveInWindow(visible: int, slides: seq<int>, pos: int, size: int, i: int)
    requires 0 <= i <= |slides| - visible
    ensures Resolve(true, visible, slides, pos, size, i) == Resolved(slides, pos, i)
  {
  }

  /**
   * Circular mode, -n < i < 0: the last -i slides move, in order, to the
   * front, the slider moves back by -i slide sizes and the result is 0.
   */
  lemma ResolveBackward(visible: int, slides: seq<int>, pos: int, size: int, i: int)
    requires |slides| > visible && -|slides| < i < 0
    ensures var r := Resolve(true, visible, slides, pos, size, i);
            var n := |slides|;
            && r.index == 0
            && r.slides[..-i] == slides[n + i..]
            && r.slides[-i..] == slides[..n + i]
            && r.pos == pos - 2 * (-i) * size
  {
    var n := |slides|;
    assert GtStart(n + i - 1, n) == n + i;
  }

  /**
   * Circular mode, i <= -n: `:gt` counts its negative argument from the
   * end, so the last min(-i - n, n) slides move to the front; when that is
   * none (i = -n) the request comes back unchanged, outside the window.
   */
  lemma ResolveBeyondFront(visible: int, slides: seq<int>, pos: int, size: int, i: int)
    requires |slides| > visible && i <= -|slides|
    ensures var r := Resolve(true, visible, slides, pos, size, i);
            var n := |slides|;
            var m := if -i - n < n then -i - n else n;
            && r.slides[..m] == slides[n - m..]
            && r.slides[m..] == slides[..n - m]
            && r.pos == pos - 2 * m * size
            && r.index == (if m == 0 then i else 0)
  {
    var n := |slides|;
    var m := if -i - n < n then -i - n else n;
    assert GtStart(n + i - 1, n) == n - m;
    if m == 0 {
      assert slides[n..] == [] && slides[..n] == slides;
    }
  }

  /** Circular mode, i = -n: nothing moves and -n is returned. */
  lemma ResolveMinusTotal(visible: int, slides: seq<int>, pos: int, size: int)
    requires |slides| > visible
    ensures Resolve(true, visible, slides, pos, size, -|slides|) == Resolved(slides, pos, -|slides|)
  {
    var n := |slides|;
    assert GtStart(n - n - 1, n) == n;
  }

  /**
   * Circular mode, i > n - visible: the first m = min(i - (n - visible), n)
   * slides move, in order, to the back, the slider moves on by m slide
   * sizes and the result is n - visible.
   */
  lemma ResolveForward(visible: int, slides: seq<int>, pos: int, size: int, i: int)
    requires |slides| > visible >= 1 && i > |slides| - visible
    ensures var r := Resolve(true, visible, slides, pos, size, i);
            var n := |slides|;
            var m := if i - (n - visible) < n then i - (n - visible) else n;
            && r.index == n - visible
            && r.slides[..n - m] == slides[m..]
            && r.slides[n - m..] == slides[..m]
            && r.pos == pos + 2 * m * size
  {
    var n := |slides|;
    var m := if i - (n - visible) < n then i - (n - visible) else n;
    assert LtEnd((i - 1) - (n - visible) + 1, n) == m;
    var r := Resolve(true, visible, slides, pos, size, i);
    assert r.slides == slides[m..] + slides[..m];
    assert r.slides[..n - m] == slides[m..];
  }

  /** Every resolution is a rotation of the slides and lands on an index the resolver can produce. */
  lemma ResolveKeepsTagging(circular: bool, visible: int, slides: seq<int>, pos: int, size: int, i: int)
    requires IsTagging(slides) && visible >= 1
    ensures var r := Resolve(circular, visible, slides, pos, size, i);
            && |r.slides| == |slides|
            && IsTagging(r.slides)
            && multiset(r.slides) == multiset(slides)
            && IndexOk(circular, |slides|, visible, r.index)
  {
    var n := |slides|;
    if n > visible && circular {
      if i < 0 {
        ShiftPermutes(slides, pos, size, n + i, -1);
        if i < -n {
          ResolveBeyondFront(visible, slides, pos, size, i);
        }
      } else if i > n - visible {
        ShiftPermutes(slides, pos, size, (i - 1) - (n - visible), 1);
      }
    }
  }

  /**
   * Circular mode: going to the slot of tag t (as keyboard digits and
   * handles do) always ends with the slide tagged t at the current index,
   * even when the slot lies past the window and slides have to move.
   */
  lemma ResolveShowsTag(visible: int, slides: seq<int>, pos: int, size: int, t: int)
    requires IsTagging(slides) && |slides| > visible >= 1 && 0 <= t < |slides|
    ensures var r := Resolve(true, visible, slides, pos, size, CurrentIndex(true, slides, t));
            OriginalIndex(true, r.slides, r.index) == Some(t)
  {
    var n := |slides|;
    OriginalOfCurrent(true, slides, t);
    var j := CurrentIndex(true, slides, t);
    assert 0 <= j < n && slides[j] == t;
    if j > n - visible {
      ResolveForward(visible, slides, pos, size, j);
      var m := j - (n - visible);
      var r := Resolve(true, visible, slides, pos, size, j);
      assert r.slides[..n - m][n - visible] == slides[m..][n - visible];
    }
  }

  /** Five slides, two visible, bounded: -5 resolves to 0 and 10 to 3. */
  lemma BoundedClampExamples(pos: int, size: int)
    ensures Resolve(false, 2, Range(5), pos, size, -5).index == 0
    ensures Resolve(false, 2, Range(5), pos, size, 10).index == 3
  {
  }

  /**
   * Five slides, one visible, circular: from index 0, one step back moves
   * the last slide to the front; five steps forward then bring back the
   * original order, with the carousel at the last window.
   */
  lemma CircularRoundTrip(pos: int, size: int)
    ensures var a := Resolve(true, 1, Range(5), pos, size, -1);
            var b := Resolve(true, 1, a.slides, a.pos, size, a.index + 1);
            var c := Resolve(true, 1, b.slides, b.pos, size, b.index + 1);
            var d := Resolve(true, 1, c.slides, c.pos, size, c.index + 1);
            var e := Resolve(true, 1, d.slides, d.pos, size, d.index + 1);
            var f := Resolve(true, 1, e.slides, e.pos, size, e.index + 1);
            && a.slides == [4, 0, 1, 2, 3] && a.index == 0
            && f.slides == Range(5) && f.index == 4
  {
    var s := Range(5);
    assert s == [0, 1, 2, 3, 4];
    ResolveBackward(1, s, pos, size, -1);
    var a := Resolve(true, 1, s, pos, size, -1);
    assert a.slides == a.slides[..1] + a.slides[1..];
    assert a.slides == [4, 0, 1, 2, 3];
    ResolveInWindow(1, a.slides, a.pos, size, 1);
    ResolveInWindow(1, a.slides, a.pos, size, 2);
    ResolveInWindow(1, a.slides, a.pos, size, 3);
    ResolveInWindow(1, a.slides, a.pos, size, 4);
    ResolveForward(1, a.slides, a.pos, size, 5);
    var f := Resolve(true, 1, a.slides, a.pos, size, 5);
    assert f.slides == f.slides[..4] + f.slides[4..];
  }
}
