/**
 * The `App` class of paste.py and the worksheet it writes to, as objects
 * whose fields change in place. `App.Execute` is proved to leave exactly
 * the worksheet and fields that `Layout.Run` describes.
 */
module Paste {
  import opened Wrappers
  import opened Geometry
  import opened Layout
  import opened LayoutProps

  /** The worksheet: cell values, cell borders, added images, width of column 1. */
  class Worksheet {
    var text: map<Cell, string>
    var border: map<Cell, Border>
    var pictures: seq<Picture>
    var labelWidth: Option<nat>

    function Value(): Sheet
      reads this
    {
      Sheet(text, border, pictures, labelWidth)
    }

    /** A fresh worksheet: nothing written, default column width. */
    constructor ()
      ensures Value() == Sheet(map[], map[], [], None)
    {
      text, border, pictures, labelWidth := map[], map[], [], None;
    }
  }

  /** Pastes the images found in directories into a worksheet. */
  class App {
    // Scratch fields written by ImgResize.
    var imageHeight: nat
    var imageWidth: nat
    var rowsPerImg: Option<nat>   // `None` until the first successful resize
    var maxCols: int
    var maxRows: int

    function ScratchValue(): Scratch
      reads this
    {
      Scratch(imageHeight, imageWidth, rowsPerImg)
    }

    /** `__init__`, which runs `set_info`; `rows_per_img` is left unset. */
    constructor ()
      ensures maxCols == InitialMaxCols && maxRows == InitialMaxRows
      ensures rowsPerImg == None
      ensures ValidScratch(ScratchValue())
    {
      imageHeight, imageWidth, rowsPerImg := 0, 0, None;
      maxCols := InitialMaxCols;
      maxRows := InitialMaxRows;
    }

    /**
     * Resizes an image to `ImgInsertWidth` pixels wide and records its new
     * size and row span. The original size is recorded first, so a resize
     * that the library refuses leaves that behind and keeps `rowsPerImg`.
     */
    method ImgResize(d: ImageSize) returns (r: Option<Resized>)
      modifies this
      ensures r == Resize(d)
      ensures r.Some? ==> ScratchValue() == Scratch(r.value.height, r.value.width, Some(r.value.rows))
      ensures r.None? ==> ScratchValue() == Scratch(d.height, d.width, old(rowsPerImg))
      ensures r.Some? ==> ValidScratch(ScratchValue())
      ensures ValidScratch(old(ScratchValue())) ==> ValidScratch(ScratchValue())
      ensures maxCols == old(maxCols) && maxRows == old(maxRows)
    {
      imageHeight, imageWidth := d.height, d.width;
      var height := ResizedHeight(d);
      if height == 0 {
        return None;
      }
      imageWidth := ImgInsertWidth;
      imageHeight := height;
      rowsPerImg := Some(RowsSpanned(imageHeight));
      r := Some(Resized(imageWidth, imageHeight, rowsPerImg.value));
    }

    /** Writes `prefix + info` into cell (row, col) and nothing else. */
    method WriteInfo(ws: Worksheet, row: int, col: int, info: string, prefix: string)
      modifies ws
      ensures ws.Value() == old(ws.Value()).(text := old(ws.text)[Cell(row, col) := prefix + info])
    {
      ws.text := ws.text[Cell(row, col) := prefix + info];
    }

    /**
     * The image slots of one directory's block at `row`, starting at column
     * cursor `col`: each name's label, and its image when it decodes.
     */
    method PlaceImages(ws: Worksheet, dir: Directory, names: seq<string>, row: int, col: int, ghost s: State)
      returns (nextCol: int, error: Option<Error>)
      requires s == State(ws.Value(), row, col, s.maxDirLen, ScratchValue())
      modifies this, ws
      ensures maxCols == old(maxCols) && maxRows == old(maxRows)
      ensures PlaceNames(s, dir, names) == Outcome(State(ws.Value(), row, nextCol, s.maxDirLen, ScratchValue()), error)
      ensures ValidScratch(old(ScratchValue())) ==> ValidScratch(ScratchValue())
    {
      nextCol := col;
      var j := 0;
      while j < |names|
        invariant 0 <= j <= |names|
        invariant maxCols == old(maxCols) && maxRows == old(maxRows)
        invariant PlaceNames(s, dir, names[..j])
          == Outcome(State(ws.Value(), row, nextCol, s.maxDirLen, ScratchValue()), None)
        invariant ValidScratch(old(ScratchValue())) ==> ValidScratch(ScratchValue())
      {
        var name := names[j];
        assert names[..j + 1][..j] == names[..j];
        WriteInfo(ws, row, nextCol + 1, name, "");
        assert "" + name == name;
        if name in dir.decoded {
          var resized := ImgResize(dir.decoded[name]);
          if resized.None? {
            NamesErrorSticks(s, dir, names, j + 1);
            return nextCol, Some(ZeroHeightResize);
          }
          ws.pictures := ws.pictures + [Picture(Cell(row + 1, nextCol + 1), resized.value.width, resized.value.height)];
        }
        nextCol := NextCol(nextCol);
        j := j + 1;
      }
      assert names[..j] == names;
      error := None;
    }

    /** The thick top border across columns 1 .. `max_cols` of `row`. */
    method DrawTopBorder(ws: Worksheet, row: int)
      modifies ws
      ensures ws.Value() == old(ws.Value()).(border := TopBorder(old(ws.border), row, maxCols))
    {
      ghost var t := ws.Value();
      var c := 1;
      while c < maxCols + 1
        invariant 1 <= c <= maxCols + 1 || (maxCols < 0 && c == 1)
        invariant ws.Value() == t.(border := TopBorder(t.border, row, c - 1))
      {
        ws.border := ws.border[Cell(row, c) := Top];
        c := c + 1;
      }
    }

    /** The thick right border of column 1 over `n` rows from `row`, the first also with a top border. */
    method DrawRightBorder(ws: Worksheet, row: int, n: nat)
      modifies ws
      ensures ws.Value() == old(ws.Value()).(border := RightBorder(old(ws.border), row, n))
    {
      ghost var t := ws.Value();
      var dr := 0;
      while dr < n
        invariant 0 <= dr <= n
        invariant ws.Value() == t.(border := RightBorder(t.border, row, dr))
      {
        if dr == 0 {
          ws.border := ws.border[Cell(row + dr, 1) := RightTop];
        } else {
          ws.border := ws.border[Cell(row + dr, 1) := Right];
        }
        dr := dr + 1;
      }
    }

    /**
     * The block of one directory that holds files, at `row`: top border,
     * label, image slots, right border of column 1, and the cursor moves.
     */
    method LayOutBlock(ws: Worksheet, dir: Directory, names: seq<string>, row: int, col: int, maxDirLen: nat)
      returns (nextRow: int, nextCol: int, nextMaxDirLen: nat, error: Option<Error>)
      requires dir.hasFiles
      requires maxCols == MaxCols(|names|)
      modifies this, ws
      ensures maxCols == old(maxCols) && maxRows == old(maxRows)
      ensures LayOutDirectory(State(old(ws.Value()), row, col, maxDirLen, old(ScratchValue())), dir, names, maxCols)
        == Outcome(State(ws.Value(), nextRow, nextCol, nextMaxDirLen, ScratchValue()), error)
      ensures ValidScratch(old(ScratchValue())) ==> ValidScratch(ScratchValue())
    {
      ghost var s0 := State(ws.Value(), row, col, maxDirLen, ScratchValue());
      DrawTopBorder(ws, row);
      WriteInfo(ws, row, 1, dir.path, "");
      assert "" + dir.path == dir.path;
      nextMaxDirLen := Max(maxDirLen, |dir.path|);
      ghost var s3 := State(ws.Value(), row, col, nextMaxDirLen, ScratchValue());
      nextCol, error := PlaceImages(ws, dir, names, row, col, s3);
      nextRow := row;
      if error.Some? {
        return;
      }
      if rowsPerImg.None? {
        return row, nextCol, nextMaxDirLen, Some(RowsPerImgUnset);
      }
      DrawRightBorder(ws, row, rowsPerImg.value + 3);
      nextCol := FirstCol;
      nextRow := NextRow(row, rowsPerImg.value);
    }

    /**
     * Lays out every directory in `dirs`, in order, with one slot per name
     * in `names`, then sets the width of column 1. Stops at the first error.
     */
    method Execute(ws: Worksheet, dirs: seq<Directory>, names: seq<string>) returns (error: Option<Error>)
      modifies this, ws
      ensures maxCols == MaxCols(|names|) && maxRows == old(maxRows)
      ensures var o := Run(old(ws.Value()), old(ScratchValue()), dirs, names);
        ws.Value() == o.state.sheet && ScratchValue() == o.state.app && error == o.error
      ensures ValidScratch(old(ScratchValue())) ==> ValidScratch(ScratchValue())
    {
      maxCols := MaxCols(|names|);
      ghost var start := Start(ws.Value(), ScratchValue());
      var row := FirstRow;
      var col := FirstCol;
      var maxDirLen: nat := 0;
      var i := 0;
      while i < |dirs|
        invariant 0 <= i <= |dirs|
        invariant maxCols == MaxCols(|names|) && maxRows == old(maxRows)
        invariant LayOutDirectories(start, dirs[..i], names, maxCols)
          == Outcome(State(ws.Value(), row, col, maxDirLen, ScratchValue()), None)
        invariant ValidScratch(old(ScratchValue())) ==> ValidScratch(ScratchValue())
      {
        var dir := dirs[i];
        assert dirs[..i + 1][..i] == dirs[..i];
        if !dir.hasFiles {
          i := i + 1;
          continue;
        }
        row, col, maxDirLen, error := LayOutBlock(ws, dir, names, row, col, maxDirLen);
        if error.Some? {
          DirsErrorSticks(start, dirs, names, maxCols, i + 1);
          return;
        }
        i := i + 1;
      }
      assert dirs[..i] == dirs;
      ws.labelWidth := Some(maxDirLen);
      error := None;
    }
  }
}
