/**
 * The layout arithmetic of paste.py: the fixed cell and image sizes set up by
 * `App.set_info`, the integer part of `App.img_resize`, and the two cursor
 * steps `App.get_next_col` and `App.get_next_row`.
 */
module Geometry {
  import opened Wrappers

  /** Width of one worksheet cell, in pixels. */
  const CellWidthPix: nat := 88
  /** Height of one worksheet cell, in pixels. */
  const CellHeightPix: nat := 18
  /** Every pasted image is resized to the width of three cells. */
  const ImgInsertWidth: nat := CellWidthPix * 3
  /** Each image slot takes four columns: one spacer and three for the image. */
  const ColsPerImg: nat := 4
  /** The values `set_info` gives `max_cols` and `max_rows` before any run. */
  const InitialMaxCols: int := 200
  const InitialMaxRows: int := 1000

  /** Pixel size of a decoded image, as reported by the image's shape. */
  datatype Dims = Dims(height: nat, width: nat)

  /** A decoder never returns an image with no pixels. */
  type ImageSize = d: Dims | d.height > 0 && d.width > 0 witness Dims(1, 1)

  /** What `img_resize` leaves behind for a successful resize. */
  datatype Resized = Resized(width: nat, height: nat, rows: nat)

  /**
   * The resized height: the aspect ratio kept by floor division, so the
   * result is the largest height whose ratio to the new width does not
   * exceed the original ratio.
   */
  function ResizedHeight(d: ImageSize): (h: nat)
    ensures h * d.width <= d.height * ImgInsertWidth < (h + 1) * d.width
  {
    d.height * ImgInsertWidth / d.width
  }

  /** Number of worksheet rows an image of the given pixel height covers. */
  function RowsSpanned(height: nat): (r: nat)
    ensures r * CellHeightPix >= height
    ensures (r - 1) * CellHeightPix < height
  {
    (height + CellHeightPix - 1) / CellHeightPix
  }

  /** An image the resize library refuses: its resized height would be 0. */
  predicate TooWide(d: ImageSize)
  {
    d.height * ImgInsertWidth < d.width
  }

  /**
   * The integer part of `img_resize`. The resize library refuses a target
   * of zero height, which happens exactly when the image is more than
   * `ImgInsertWidth` times wider than it is high: that is `None`.
   */
  function Resize(d: ImageSize): (r: Option<Resized>)
    ensures r.Some? <==> !TooWide(d)
    ensures r.Some? ==> r.value.width == ImgInsertWidth
    ensures r.Some? ==> r.value.height * d.width <= d.height * ImgInsertWidth < (r.value.height + 1) * d.width
    ensures r.Some? ==> r.value.rows >= 1 && r.value.rows * CellHeightPix >= r.value.height > (r.value.rows - 1) * CellHeightPix
  {
    var h := ResizedHeight(d);
    assert h >= 1 ==> h * d.width >= d.width;
    assert h * d.width <= d.height * ImgInsertWidth < (h + 1) * d.width;
    assert h == 0 ==> (h + 1) * d.width == d.width;
    if h == 0 then None else Some(Resized(ImgInsertWidth, h, RowsSpanned(h)))
  }

  /** The column of the next image slot. */
  function NextCol(col: int): (c: int)
    ensures (col + 1) * CellWidthPix + ImgInsertWidth < (c + 1) * CellWidthPix
  {
    col + ColsPerImg
  }

  /** The first row of the next directory's block: the image rows plus three. */
  function NextRow(row: int, rowsPerImg: nat): (r: int)
    ensures row + 1 + rowsPerImg < r
  {
    row + rowsPerImg + 3
  }
}
