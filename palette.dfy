/** Colour assignment for plotted charge states: a palette is reused cyclically once there
    are at least as many items as colours. */
module Palette {
  import opened Failures

  /** Colour of item `currentItem` out of `totalItems`. With fewer items than colours the item
      indexes the palette directly (Python indexing, negative indices counting from the end);
      otherwise the index is reduced modulo the palette size (a floored modulo, so never
      negative). */
  function ColorPicker<T>(totalItems: int, currentItem: int, palette: seq<T>): (r: Result<T>)
    ensures r.Ok? ==> r.value in palette
    ensures totalItems < |palette| ==> (r.Ok? <==> -|palette| <= currentItem < |palette|)
    ensures totalItems >= |palette| ==> (r.Ok? <==> |palette| > 0)
    ensures totalItems >= |palette| && |palette| > 0 ==> r.value == palette[currentItem % |palette|]
  {
    if totalItems < |palette| then
      PyIndex(palette, currentItem)
    else if |palette| == 0 then
      Err(DivisionByZero)
    else
      Ok(palette[currentItem % |palette|])
  }

  /** An item in range gets the colour at its own position, whichever branch applies. */
  lemma ColorPickerInRange<T>(totalItems: int, currentItem: int, palette: seq<T>)
    requires 0 <= currentItem < |palette|
    ensures ColorPicker(totalItems, currentItem, palette) == Ok(palette[currentItem])
  {
    if totalItems >= |palette| {
      assert currentItem % |palette| == currentItem;
    }
  }

  /** Once the palette is exhausted, colours repeat with period |palette|. */
  lemma ColorPickerCycles<T>(totalItems: int, currentItem: int, palette: seq<T>)
    requires totalItems >= |palette| > 0
    ensures ColorPicker(totalItems, currentItem + |palette|, palette)
         == ColorPicker(totalItems, currentItem, palette)
  {
    var n := |palette|;
    assert (currentItem + n) % n == currentItem % n by {
      ModShift(currentItem, n);
    }
  }

  lemma ModShift(a: int, n: int)
    requires n > 0
    ensures (a + n) % n == a % n
  {
    var q, r := a / n, a % n;
    var q', r' := (a + n) / n, (a + n) % n;
    var d := q' - q - 1;
    assert d * n == r - r';
    if d > 0 {
      MulAtLeast(d, n);
    } else if d < 0 {
      MulAtLeast(-d, n);
    }
  }

  lemma MulAtLeast(d: int, n: int)
    requires d >= 1 && n > 0
    ensures d * n >= n
  {
    assert d * n == (d - 1) * n + n;
  }
}
