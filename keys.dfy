/**
 * The keyboard handler's dispatch: which key codes navigate and where.
 */
module Keys {

  /** What a keydown asks for; `Number(k)` passes k to `_getCurrentSlideIndex`. */
  datatype KeyAction = PrevKey | NextKey | Number(original: int) | Unhandled

  /**
   * Keys in an input or textarea, or with meta or ctrl held, are ignored;
   * left arrow and "p" go back, right arrow and "n" go forward, and the
   * digit keys 0-9 (codes 48-57) select original index code - 49.
   */
  function Dispatch(code: int, inFormField: bool, meta: bool, ctrl: bool): (a: KeyAction)
    ensures a != Unhandled ==> !inFormField && !meta && !ctrl
    ensures a == PrevKey <==> !inFormField && !meta && !ctrl && (code == 37 || code == 80)
    ensures a == NextKey <==> !inFormField && !meta && !ctrl && (code == 39 || code == 78)
    ensures a.Number? <==> !inFormField && !meta && !ctrl && 47 < code < 58
    ensures a.Number? ==> a.original == code - 49
  {
    if inFormField || meta || ctrl then Unhandled
    else if code == 37 || code == 80 then PrevKey
    else if code == 39 || code == 78 then NextKey
    else if 47 < code < 58 then Number(code - 49)
    else Unhandled
  }

  /** Digit key "1" selects the first slide, "9" the ninth, and "0" asks for index -1. */
  lemma DigitKeys()
    ensures Dispatch(49, false, false, false) == Number(0)
    ensures Dispatch(57, false, false, false) == Number(8)
    ensures Dispatch(48, false, false, false) == Number(-1)
  {
  }
}
