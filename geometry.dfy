/** Cell geometry of the asset grid: the square cell side computed from the
    available width, and the size and offset of the checkmark overlay.
    `CGFloat` is modelled as exact `real` arithmetic. */
module Geometry {

  // The fixed configuration of the picker.
  const GridColumns: int := 3
  const CellSpacing: real := 5.0
  const CheckmarkMinFontSize: real := 20.0
  const CheckmarkMaxFontSize: real := 35.0

  datatype Size = Size(width: real, height: real)

  function Min(a: real, b: real): real { if a <= b then a else b }
  function Max(a: real, b: real): real { if a >= b then a else b }

  /** Horizontal space taken by the gaps of one row: one gap before every
      column and one after the last. */
  function RowTotalSpace(columns: int): real
  {
    CellSpacing * (columns + 1) as real
  }

  /** The size of every cell of a grid with `columns` columns laid out in
      `width`. The source divides by the column count without a guard, so a
      positive count is demanded of the caller; a width that does not leave
      room for the gaps is not guarded either and gives a non-positive side. */
  function ImageSize(width: real, columns: int): (size: Size)
    requires columns > 0
    ensures size.width == size.height
    ensures columns as real * size.width + RowTotalSpace(columns) == width
    ensures size.width > 0.0 <==> width > RowTotalSpace(columns)
  {
    var side := (width - RowTotalSpace(columns)) / columns as real;
    Size(side, side)
  }

  /** A wider grid never has smaller cells. */
  lemma ImageSizeMonotone(w1: real, w2: real, columns: int)
    requires columns > 0 && w1 <= w2
    ensures ImageSize(w1, columns).width <= ImageSize(w2, columns).width
  {
  }

  /** Example: 320 points and three columns give 100-point cells. */
  lemma ImageSizeOf320() ensures ImageSize(320.0, GridColumns) == Size(100.0, 100.0)
  {
  }

  /** Checkmark font size: an eighth of the cell width, kept within
      [CheckmarkMinFontSize, CheckmarkMaxFontSize]. */
  function FontSize(size: Size): (fontSize: real)
    ensures CheckmarkMinFontSize <= fontSize <= CheckmarkMaxFontSize
    ensures CheckmarkMinFontSize <= size.width / 8.0 <= CheckmarkMaxFontSize ==> fontSize == size.width / 8.0
    ensures size.width / 8.0 < CheckmarkMinFontSize ==> fontSize == CheckmarkMinFontSize
    ensures size.width / 8.0 > CheckmarkMaxFontSize ==> fontSize == CheckmarkMaxFontSize
  {
    Min(Max(size.width / 8.0, CheckmarkMinFontSize), CheckmarkMaxFontSize)
  }

  /** A wider cell never has a smaller checkmark. */
  lemma FontSizeMonotone(a: Size, b: Size)
    requires a.width <= b.width
    ensures FontSize(a) <= FontSize(b)
  {
  }

  /** Offset of the checkmark from the cell's top-leading corner, in both axes. */
  function CheckmarkOffset(size: Size): (offset: real)
    ensures 3.0 * offset == FontSize(size)
    ensures CheckmarkMinFontSize / 3.0 <= offset <= CheckmarkMaxFontSize / 3.0
  {
    FontSize(size) / 3.0
  }
}
