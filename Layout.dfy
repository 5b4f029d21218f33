/**
 * The layout that `App.execute` in paste.py produces, as functions over
 * values: the worksheet, the two cursors, the longest directory label and
 * the scratch fields `img_resize` leaves on the `App` object. Each loop of
 * the program is a function over a prefix of its input, so that the
 * imperative model in module Paste can state its loop invariants with them.
 */
module Layout {
  import opened Wrappers
  import opened Geometry

  /** A worksheet cell, by row and column, both counted from 1. */
  datatype Cell = Cell(row: int, col: int)

  /** The three thick border styles the program draws. */
  datatype Border = Top | Right | RightTop

  /** An image added to the worksheet, anchored at its top-left cell. */
  datatype Picture = Picture(anchor: Cell, width: nat, height: nat)

  /**
   * The part of a worksheet the program touches: cell values, cell borders,
   * the images in the order they were added, and the width of column 1
   * (`None` while it keeps the worksheet's default).
   */
  datatype Sheet = Sheet(
    text: map<Cell, string>,
    border: map<Cell, Border>,
    pictures: seq<Picture>,
    labelWidth: Option<nat>)

  /**
   * A directory found under the root: its path as written into column 1,
   * whether it holds at least one file, and the pixel size of each target
   * name that decodes as an image there (a name that is missing or does not
   * decode has no entry).
   */
  datatype Directory = Directory(path: string, hasFiles: bool, decoded: map<string, ImageSize>)

  /** The two ways a run stops early. */
  datatype Error =
    | RowsPerImgUnset     // `rows_per_img` read before any image was resized
    | ZeroHeightResize    // the resize library refused a target of height 0

  /** The fields `img_resize` writes on the `App` object. */
  datatype Scratch = Scratch(imageHeight: nat, imageWidth: nat, rowsPerImg: Option<nat>)

  /** Everything `execute` changes while it runs. */
  datatype State = State(sheet: Sheet, row: int, col: int, maxDirLen: nat, app: Scratch)

  /** Where a step ended, and why it stopped if it did. */
  datatype Outcome = Outcome(state: State, error: Option<Error>)

  /** The row and column at which the first directory's block starts. */
  const FirstRow: int := 2
  const FirstCol: int := 2

  /** `max_cols` for a run over `n` target names: column 1 and four per slot. */
  function MaxCols(n: nat): int
  {
    1 + ColsPerImg * n
  }

  function Max(a: nat, b: nat): nat
  {
    if a < b then b else a
  }

  /** Cells (row, 1) .. (row, n) given a top border, in column order. */
  function TopBorder(b: map<Cell, Border>, row: int, n: int): (r: map<Cell, Border>)
    ensures b.Keys <= r.Keys
    ensures n >= 1 ==> Cell(row, 1) in r && r[Cell(row, 1)] == Top
    decreases n
  {
    if n <= 0 then b else TopBorder(b, row, n - 1)[Cell(row, n) := Top]
  }

  /**
   * The right edge of column 1 drawn for offsets 0 .. n-1 below `row`: the
   * first cell gets a right and top border, the others a right border.
   */
  function RightBorder(b: map<Cell, Border>, row: int, n: int): (r: map<Cell, Border>)
    ensures b.Keys <= r.Keys
    ensures n >= 1 ==> Cell(row, 1) in r && r[Cell(row, 1)] == RightTop
    decreases n
  {
    if n <= 0 then b
    else RightBorder(b, row, n - 1)[Cell(row + n - 1, 1) := if n == 1 then RightTop else Right]
  }

  /** Sets the value of one cell, as `write_info` does. */
  function WriteText(s: State, c: Cell, info: string): State
  {
    s.(sheet := s.sheet.(text := s.sheet.text[c := info]))
  }

  /**
   * One image slot: the name goes into the cell right of the column cursor;
   * if the name decodes, the resized image is anchored one row below it and
   * the scratch fields take its size; then the column cursor moves on.
   */
  function PlaceName(s: State, dir: Directory, name: string): (o: Outcome)
    ensures o.error.Some? <==> name in dir.decoded && TooWide(dir.decoded[name])
    ensures o.state.row == s.row && o.state.maxDirLen == s.maxDirLen
    ensures o.error.None? ==> o.state.col > s.col
  {
    var s1 := WriteText(s, Cell(s.row, s.col + 1), name);
    if name !in dir.decoded then
      Outcome(s1.(col := NextCol(s1.col)), None)
    else
      var d := dir.decoded[name];
      match Resize(d)
      case None =>
        Outcome(s1.(app := s1.app.(imageHeight := d.height, imageWidth := d.width)), Some(ZeroHeightResize))
      case Some(r) =>
        var pic := Picture(Cell(s.row + 1, s.col + 1), r.width, r.height);
        Outcome(s1.(sheet := s1.sheet.(pictures := s1.sheet.pictures + [pic]),
                    col := NextCol(s1.col),
                    app := Scratch(r.height, r.width, Some(r.rows))), None)
  }

  /** The slots for `names`, in order, stopping at the first error. */
  function PlaceNames(s: State, dir: Directory, names: seq<string>): (o: Outcome)
    ensures o.state.row == s.row && o.state.maxDirLen == s.maxDirLen
    ensures o.error.Some? ==> o.error == Some(ZeroHeightResize)
    decreases |names|
  {
    if names == [] then Outcome(s, None)
    else
      var o := PlaceNames(s, dir, names[..|names| - 1]);
      if o.error.Some? then o else PlaceName(o.state, dir, names[|names| - 1])
  }

  /** The state in which a block's image slots start: after the top border, the label and the longest label. */
  function SlotsStart(s: State, dir: Directory, maxCols: int): State
  {
    var s1 := s.(sheet := s.sheet.(border := TopBorder(s.sheet.border, s.row, maxCols)));
    WriteText(s1, Cell(s.row, 1), dir.path).(maxDirLen := Max(s.maxDirLen, |dir.path|))
  }

  /**
   * One directory's block. A directory with no files is skipped. Otherwise:
   * the top border across the row, the path in column 1, the longest label
   * so far, the image slots, the right border of column 1 over the block's
   * rows (which needs `rows_per_img`), and the cursors move to the next block.
   */
  function LayOutDirectory(s: State, dir: Directory, names: seq<string>, maxCols: int): (o: Outcome)
    ensures o.error.Some? ==> dir.hasFiles
    ensures o.error.None? ==> o.state.row >= s.row && o.state.maxDirLen >= s.maxDirLen
    ensures o.error.None? && dir.hasFiles ==> o.state.col == FirstCol && o.state.row >= s.row + 3 && o.state.maxDirLen >= |dir.path|
  {
    if !dir.hasFiles then Outcome(s, None)
    else
      var o := PlaceNames(SlotsStart(s, dir, maxCols), dir, names);
      if o.error.Some? then o
      else if o.state.app.rowsPerImg.None? then Outcome(o.state, Some(RowsPerImgUnset))
      else
        var t := o.state;
        var rows := t.app.rowsPerImg.value;
        Outcome(t.(sheet := t.sheet.(border := RightBorder(t.sheet.border, t.row, rows + 3)),
                   col := FirstCol,
                   row := NextRow(t.row, rows)), None)
  }

  /** The blocks for `dirs`, in order, stopping at the first error. */
  function LayOutDirectories(s: State, dirs: seq<Directory>, names: seq<string>, maxCols: int): (o: Outcome)
    ensures o.error.None? ==> o.state.row >= s.row && o.state.maxDirLen >= s.maxDirLen
    decreases |dirs|
  {
    if dirs == [] then Outcome(s, None)
    else
      var o := LayOutDirectories(s, dirs[..|dirs| - 1], names, maxCols);
      if o.error.Some? then o else LayOutDirectory(o.state, dirs[|dirs| - 1], names, maxCols)
  }

  /** The state in which a run starts on a worksheet and an `App` object. */
  function Start(sheet: Sheet, app: Scratch): State
  {
    State(sheet, FirstRow, FirstCol, 0, app)
  }

  /**
   * A whole run of `execute`: all blocks, then column 1 is made as wide as
   * the longest directory label.
   */
  function Run(sheet: Sheet, app: Scratch, dirs: seq<Directory>, names: seq<string>): (o: Outcome)
    ensures o.error.None? ==> o.state.row >= FirstRow && o.state.sheet.labelWidth.Some?
  {
    var o := LayOutDirectories(Start(sheet, app), dirs, names, MaxCols(|names|));
    if o.error.Some? then o
    else Outcome(o.state.(sheet := o.state.sheet.(labelWidth := Some(o.state.maxDirLen))), None)
  }
}
