/**
 * What the layout of module Layout guarantees: where each label, border and
 * image of a directory's block lands, how the cursors move, when a run
 * fails, and how wide column 1 ends up.
 */
module LayoutProps {
  import opened Wrappers
  import opened Geometry
  import opened Layout

  /** Once the slots of a prefix of the names stop with an error, later names change nothing. */
  lemma {:induction false} NamesErrorSticks(s: State, dir: Directory, names: seq<string>, k: nat)
    requires k <= |names|
    requires PlaceNames(s, dir, names[..k]).error.Some?
    ensures PlaceNames(s, dir, names) == PlaceNames(s, dir, names[..k])
    decreases |names|
  {
    if k == |names| {
      assert names[..k] == names;
    } else {
      var init := names[..|names| - 1];
      assert init[..k] == names[..k];
      NamesErrorSticks(s, dir, init, k);
    }
  }

  /** Once the blocks of a prefix of the directories stop with an error, later directories change nothing. */
  lemma {:induction false} DirsErrorSticks(s: State, dirs: seq<Directory>, names: seq<string>, maxCols: int, k: nat)
    requires k <= |dirs|
    requires LayOutDirectories(s, dirs[..k], names, maxCols).error.Some?
    ensures LayOutDirectories(s, dirs, names, maxCols) == LayOutDirectories(s, dirs[..k], names, maxCols)
    decreases |dirs|
  {
    if k == |dirs| {
      assert dirs[..k] == dirs;
    } else {
      var init := dirs[..|dirs| - 1];
      assert init[..k] == dirs[..k];
      DirsErrorSticks(s, init, names, maxCols, k);
    }
  }

  /** Column of the label of the k-th name when the slots start at column cursor `col`. */
  function SlotCol(col: int, k: int): int
  {
    col + 1 + ColsPerImg * k
  }

  /** Whether `c` is one of the first `n` label cells of a block at (row, col). */
  ghost predicate IsSlot(row: int, col: int, n: int, c: Cell)
  {
    c.row == row && exists k :: 0 <= k < n && c.col == SlotCol(col, k)
  }

  /** Whether some picture in `ps` is anchored at `c`. */
  ghost predicate Anchored(ps: seq<Picture>, c: Cell)
  {
    exists p :: p in ps && p.anchor == c
  }

  /** The last of `names` that decodes in `dir`, if any: the reference for which image sets `rows_per_img`. */
  function LastLoaded(dir: Directory, names: seq<string>): (r: Option<ImageSize>)
    ensures r.None? <==> forall k :: 0 <= k < |names| ==> names[k] !in dir.decoded
    ensures r.Some? ==> exists k :: 0 <= k < |names| && names[k] in dir.decoded && r.value == dir.decoded[names[k]] &&
                                    forall j :: k < j < |names| ==> names[j] !in dir.decoded
    decreases |names|
  {
    if names == [] then None
    else
      var m := |names| - 1;
      if names[m] in dir.decoded then
        Some(dir.decoded[names[m]])
      else
        var init := names[..m];
        var r := LastLoaded(dir, init);
        assert forall k :: 0 <= k < m ==> init[k] == names[k];
        assert r.Some? ==> exists k :: 0 <= k < |names| && names[k] in dir.decoded && r.value == dir.decoded[names[k]] &&
                                       forall j :: k < j < |names| ==> names[j] !in dir.decoded by {
          if r.Some? {
            var k :| 0 <= k < m && init[k] in dir.decoded && r.value == dir.decoded[init[k]] &&
                     forall j :: k < j < m ==> init[j] !in dir.decoded;
            assert forall j :: k < j < |names| ==> names[j] !in dir.decoded;
          }
        }
        r
  }

  /** The `rows_per_img` a run has after the slots: the last loaded image's, or the one carried in. */
  function RowsAfter(s: State, dir: Directory, names: seq<string>): Option<nat>
  {
    match LastLoaded(dir, names)
    case None => s.app.rowsPerImg
    case Some(d) => Some(RowsSpanned(ResizedHeight(d)))
  }

  /** Cells (row, 1) .. (row, n) have a top border; every other cell keeps its border. */
  lemma {:induction false} TopBorderAt(b: map<Cell, Border>, row: int, n: int, c: Cell)
    ensures var r := TopBorder(b, row, n);
      (c in r <==> c in b || (c.row == row && 1 <= c.col <= n))
      && (c.row == row && 1 <= c.col <= n ==> r[c] == Top)
      && (!(c.row == row && 1 <= c.col <= n) && c in b ==> r[c] == b[c])
    decreases n
  {
    if n > 0 {
      TopBorderAt(b, row, n - 1, c);
    }
  }

  /**
   * Column 1 of rows row .. row+n-1 gets a right border, the top one a right
   * and top border; every other cell keeps its border.
   */
  lemma {:induction false} RightBorderAt(b: map<Cell, Border>, row: int, n: int, c: Cell)
    ensures var r := RightBorder(b, row, n);
      (c in r <==> c in b || (c.col == 1 && row <= c.row < row + n))
      && (c.col == 1 && c.row == row && n >= 1 ==> r[c] == RightTop)
      && (c.col == 1 && row < c.row < row + n ==> r[c] == Right)
      && (!(c.col == 1 && row <= c.row < row + n) && c in b ==> r[c] == b[c])
    decreases n
  {
    if n > 0 {
      RightBorderAt(b, row, n - 1, c);
    }
  }

  /**
   * The slots move only the column cursor (by four per name when they all
   * succeed), leave the row, the longest label, the borders and the column
   * width alone, and only add images after those already there.
   */
  lemma {:induction false} PlaceNamesFrame(s: State, dir: Directory, names: seq<string>)
    ensures var t := PlaceNames(s, dir, names).state;
      t.row == s.row && t.maxDirLen == s.maxDirLen
      && t.sheet.border == s.sheet.border && t.sheet.labelWidth == s.sheet.labelWidth
      && |t.sheet.pictures| >= |s.sheet.pictures| && t.sheet.pictures[..|s.sheet.pictures|] == s.sheet.pictures
    ensures PlaceNames(s, dir, names).error.None? ==> PlaceNames(s, dir, names).state.col == s.col + ColsPerImg * |names|
    decreases |names|
  {
    if names != [] {
      var init := names[..|names| - 1];
      PlaceNamesFrame(s, dir, init);
      var t := PlaceNames(s, dir, init).state;
      var n := |s.sheet.pictures|;
      forall p: Picture ensures (t.sheet.pictures + [p])[..n] == s.sheet.pictures {
        assert (t.sheet.pictures + [p])[..n] == t.sheet.pictures[..n];
      }
    }
  }

  /**
   * The slots stop with an error exactly when one of the names decodes to an
   * image too wide to resize, and that error is the resize's.
   */
  lemma {:induction false} PlaceNamesError(s: State, dir: Directory, names: seq<string>)
    ensures var e := PlaceNames(s, dir, names).error;
      (e.Some? <==> exists k :: 0 <= k < |names| && names[k] in dir.decoded && TooWide(dir.decoded[names[k]]))
      && (e.Some? ==> e == Some(ZeroHeightResize))
    decreases |names|
  {
    if names != [] {
      var init := names[..|names| - 1];
      PlaceNamesError(s, dir, init);
      assert forall k :: 0 <= k < |init| ==> init[k] == names[k];
    }
  }

  /**
   * After successful slots the k-th name is the value of cell
   * (row, col + 1 + 4k), whether or not its image loaded, and no other cell
   * value changed.
   */
  lemma {:induction false} PlaceNamesText(s: State, dir: Directory, names: seq<string>)
    requires PlaceNames(s, dir, names).error.None?
    ensures var text := PlaceNames(s, dir, names).state.sheet.text;
      forall k :: 0 <= k < |names| ==>
        Cell(s.row, SlotCol(s.col, k)) in text && text[Cell(s.row, SlotCol(s.col, k))] == names[k]
    ensures var text := PlaceNames(s, dir, names).state.sheet.text;
      forall c :: !IsSlot(s.row, s.col, |names|, c) ==>
        (c in text <==> c in s.sheet.text) && (c in text ==> text[c] == s.sheet.text[c])
    decreases |names|
  {
    if names != [] {
      var init := names[..|names| - 1];
      PlaceNamesText(s, dir, init);
      PlaceNamesFrame(s, dir, init);
      var t := PlaceNames(s, dir, init).state;
      var text := PlaceNames(s, dir, names).state.sheet.text;
      var last := Cell(s.row, SlotCol(s.col, |init|));
      assert text == t.sheet.text[last := names[|init|]];
      forall k | 0 <= k < |names|
        ensures Cell(s.row, SlotCol(s.col, k)) in text && text[Cell(s.row, SlotCol(s.col, k))] == names[k]
      {
        if k < |init| {
          assert init[k] == names[k];
        }
      }
      forall c | !IsSlot(s.row, s.col, |names|, c)
        ensures (c in text <==> c in s.sheet.text) && (c in text ==> text[c] == s.sheet.text[c])
      {
        assert c != last;
        assert !IsSlot(s.row, s.col, |init|, c);
      }
    }
  }

  /**
   * Every image the successful slots add is one of them: anchored one row
   * below the label of a name that decoded, `ImgInsertWidth` wide and as
   * high as its resize says; they are added left to right, so no slot gets
   * two.
   */
  lemma {:induction false} PlaceNamesPictureShape(s: State, dir: Directory, names: seq<string>)
    requires PlaceNames(s, dir, names).error.None?
    ensures var ps := PlaceNames(s, dir, names).state.sheet.pictures;
      |ps| >= |s.sheet.pictures| &&
      forall p :: p in ps[|s.sheet.pictures|..] ==>
        p.width == ImgInsertWidth &&
        exists k :: 0 <= k < |names| && names[k] in dir.decoded
          && p.anchor == Cell(s.row + 1, SlotCol(s.col, k)) && p.height == ResizedHeight(dir.decoded[names[k]])
    ensures var ps := PlaceNames(s, dir, names).state.sheet.pictures;
      |ps| >= |s.sheet.pictures| &&
      forall i, j :: |s.sheet.pictures| <= i < j < |ps| ==> ps[i].anchor.col < ps[j].anchor.col
    decreases |names|
  {
    PlaceNamesFrame(s, dir, names);
    if names != [] {
      var init := names[..|names| - 1];
      PlaceNamesPictureShape(s, dir, init);
      PlaceNamesFrame(s, dir, init);
      var n := |s.sheet.pictures|;
      var before := PlaceNames(s, dir, init).state.sheet.pictures;
      var after := PlaceNames(s, dir, names).state.sheet.pictures;
      var name := names[|init|];
      assert forall k :: 0 <= k < |init| ==> init[k] == names[k];
      if name in dir.decoded {
        var pic := Picture(Cell(s.row + 1, SlotCol(s.col, |init|)), ImgInsertWidth, ResizedHeight(dir.decoded[name]));
        assert after == before + [pic];
        ShapeWithNewImage(before, pic, n, dir, names, s.row, s.col);
      } else {
        assert after == before;
      }
    }
  }

  /** Appending the image of slot m after images of earlier slots keeps every added image a slot image, in column order. */
  lemma ShapeWithNewImage(before: seq<Picture>, pic: Picture, n: nat, dir: Directory, names: seq<string>, row: int, col: int)
    requires n <= |before| && |names| >= 1
    requires var m := |names| - 1;
      names[m] in dir.decoded &&
      pic == Picture(Cell(row + 1, SlotCol(col, m)), ImgInsertWidth, ResizedHeight(dir.decoded[names[m]]))
    requires forall p :: p in before[n..] ==>
        p.width == ImgInsertWidth &&
        exists k :: 0 <= k < |names| - 1 && names[k] in dir.decoded
          && p.anchor == Cell(row + 1, SlotCol(col, k)) && p.height == ResizedHeight(dir.decoded[names[k]])
    requires forall i, j :: n <= i < j < |before| ==> before[i].anchor.col < before[j].anchor.col
    ensures forall p :: p in (before + [pic])[n..] ==>
        p.width == ImgInsertWidth &&
        exists k :: 0 <= k < |names| && names[k] in dir.decoded
          && p.anchor == Cell(row + 1, SlotCol(col, k)) && p.height == ResizedHeight(dir.decoded[names[k]])
    ensures forall i, j :: n <= i < j < |before| + 1 ==> (before + [pic])[i].anchor.col < (before + [pic])[j].anchor.col
  {
  }

  /** Adding the image of slot m keeps the anchors of slots 0 .. m-1 and anchors slot m. */
  lemma AnchorsWithNewImage(added: seq<Picture>, pic: Picture, dir: Directory, names: seq<string>, m: nat, row: int, col: int)
    requires m < |names| && names[m] in dir.decoded && pic.anchor == Cell(row + 1, SlotCol(col, m))
    requires forall k :: 0 <= k < m ==> (names[k] in dir.decoded <==> Anchored(added, Cell(row + 1, SlotCol(col, k))))
    ensures forall k :: 0 <= k <= m ==> (names[k] in dir.decoded <==> Anchored(added + [pic], Cell(row + 1, SlotCol(col, k))))
  {
  }

  /** Without a new image, slot m has no anchor when every earlier image is anchored under an earlier slot. */
  lemma AnchorsWithoutNewImage(added: seq<Picture>, dir: Directory, names: seq<string>, m: nat, row: int, col: int)
    requires m < |names| && names[m] !in dir.decoded
    requires forall k :: 0 <= k < m ==> (names[k] in dir.decoded <==> Anchored(added, Cell(row + 1, SlotCol(col, k))))
    requires forall p :: p in added ==> exists k :: 0 <= k < m && p.anchor == Cell(row + 1, SlotCol(col, k))
    ensures forall k :: 0 <= k <= m ==> (names[k] in dir.decoded <==> Anchored(added, Cell(row + 1, SlotCol(col, k))))
  {
  }

  /**
   * After successful slots, an image is anchored one row below the k-th
   * label exactly when the k-th name decoded.
   */
  lemma {:induction false} PlaceNamesSlotAnchors(s: State, dir: Directory, names: seq<string>)
    requires PlaceNames(s, dir, names).error.None?
    ensures var ps := PlaceNames(s, dir, names).state.sheet.pictures;
      |ps| >= |s.sheet.pictures| &&
      forall k :: 0 <= k < |names| ==>
        (names[k] in dir.decoded <==> Anchored(ps[|s.sheet.pictures|..], Cell(s.row + 1, SlotCol(s.col, k))))
    decreases |names|
  {
    PlaceNamesFrame(s, dir, names);
    if names != [] {
      var init := names[..|names| - 1];
      var m := |init|;
      PlaceNamesSlotAnchors(s, dir, init);
      PlaceNamesPictureShape(s, dir, init);
      PlaceNamesFrame(s, dir, init);
      var n := |s.sheet.pictures|;
      var before := PlaceNames(s, dir, init).state.sheet.pictures;
      var after := PlaceNames(s, dir, names).state.sheet.pictures;
      assert forall k :: 0 <= k < m ==> init[k] == names[k];
      if names[m] in dir.decoded {
        var pic := Picture(Cell(s.row + 1, SlotCol(s.col, m)), ImgInsertWidth, ResizedHeight(dir.decoded[names[m]]));
        assert after[n..] == before[n..] + [pic];
        AnchorsWithNewImage(before[n..], pic, dir, names, m, s.row, s.col);
      } else {
        assert after == before;
        AnchorsWithoutNewImage(before[n..], dir, names, m, s.row, s.col);
      }
    }
  }

  /**
   * After successful slots, an image is anchored one row below the k-th
   * label exactly when the k-th name decoded, and no two added images share
   * an anchor: one image per loaded name.
   */
  lemma PlaceNamesPictures(s: State, dir: Directory, names: seq<string>)
    requires PlaceNames(s, dir, names).error.None?
    ensures var ps := PlaceNames(s, dir, names).state.sheet.pictures;
      |ps| >= |s.sheet.pictures| &&
      forall k :: 0 <= k < |names| ==>
        (names[k] in dir.decoded <==> Anchored(ps[|s.sheet.pictures|..], Cell(s.row + 1, SlotCol(s.col, k))))
    ensures var ps := PlaceNames(s, dir, names).state.sheet.pictures;
      |ps| >= |s.sheet.pictures| &&
      forall i, j :: |s.sheet.pictures| <= i < j < |ps| ==> ps[i].anchor != ps[j].anchor
  {
    PlaceNamesSlotAnchors(s, dir, names);
    PlaceNamesPictureShape(s, dir, names);
  }

  /** After successful slots, `rows_per_img` is that of the last name that loaded, or the value carried in. */
  lemma {:induction false} PlaceNamesRowsPerImg(s: State, dir: Directory, names: seq<string>)
    requires PlaceNames(s, dir, names).error.None?
    ensures PlaceNames(s, dir, names).state.app.rowsPerImg == RowsAfter(s, dir, names)
    decreases |names|
  {
    if names != [] {
      var init := names[..|names| - 1];
      PlaceNamesRowsPerImg(s, dir, init);
    }
  }

  /**
   * A block stops with the resize error exactly when one of its names
   * decodes to an image too wide to resize, and with the missing
   * `rows_per_img` exactly when no name loads and no earlier image ever
   * loaded. A directory without files is skipped and changes nothing.
   */
  lemma BlockOutcome(s: State, dir: Directory, names: seq<string>, maxCols: int)
    ensures var e := LayOutDirectory(s, dir, names, maxCols).error;
      (e == Some(ZeroHeightResize) <==>
        dir.hasFiles && exists k :: 0 <= k < |names| && names[k] in dir.decoded && TooWide(dir.decoded[names[k]]))
      && (e == Some(RowsPerImgUnset) <==> dir.hasFiles && s.app.rowsPerImg.None? && LastLoaded(dir, names).None?)
    ensures !dir.hasFiles ==> LayOutDirectory(s, dir, names, maxCols) == Outcome(s, None)
  {
    if dir.hasFiles {
      var s3 := SlotsStart(s, dir, maxCols);
      PlaceNamesError(s3, dir, names);
      if PlaceNames(s3, dir, names).error.None? {
        PlaceNamesRowsPerImg(s3, dir, names);
      }
    }
  }

  /**
   * The labels of a block at row r: the directory's path in (r, 1), the k-th
   * name in (r, 3 + 4k) whether or not its image loaded, and no other cell
   * value changed.
   */
  lemma BlockText(s: State, dir: Directory, names: seq<string>, maxCols: int)
    requires dir.hasFiles && s.col == FirstCol
    requires LayOutDirectory(s, dir, names, maxCols).error.None?
    ensures var text := LayOutDirectory(s, dir, names, maxCols).state.sheet.text;
      Cell(s.row, 1) in text && text[Cell(s.row, 1)] == dir.path
    ensures var text := LayOutDirectory(s, dir, names, maxCols).state.sheet.text;
      forall k :: 0 <= k < |names| ==>
        Cell(s.row, 3 + ColsPerImg * k) in text && text[Cell(s.row, 3 + ColsPerImg * k)] == names[k]
    ensures var text := LayOutDirectory(s, dir, names, maxCols).state.sheet.text;
      forall c :: c != Cell(s.row, 1) && !IsSlot(s.row, FirstCol, |names|, c) ==>
        (c in text <==> c in s.sheet.text) && (c in text ==> text[c] == s.sheet.text[c])
  {
    var s3 := SlotsStart(s, dir, maxCols);
    PlaceNamesText(s3, dir, names);
    assert !IsSlot(s.row, FirstCol, |names|, Cell(s.row, 1));
    var text := LayOutDirectory(s, dir, names, maxCols).state.sheet.text;
    forall k | 0 <= k < |names|
      ensures Cell(s.row, 3 + ColsPerImg * k) in text && text[Cell(s.row, 3 + ColsPerImg * k)] == names[k]
    {
      assert SlotCol(FirstCol, k) == 3 + ColsPerImg * k;
    }
  }

  /**
   * The images of a block at row r: one is anchored at (r + 1, 3 + 4k)
   * exactly when the k-th name loaded, each is `ImgInsertWidth` wide and as
   * high as its resize says, they are added left to right (so one per
   * loaded name), and the images already on the sheet stay.
   */
  lemma BlockPictures(s: State, dir: Directory, names: seq<string>, maxCols: int)
    requires dir.hasFiles && s.col == FirstCol
    requires LayOutDirectory(s, dir, names, maxCols).error.None?
    ensures var ps := LayOutDirectory(s, dir, names, maxCols).state.sheet.pictures;
      |ps| >= |s.sheet.pictures| && ps[..|s.sheet.pictures|] == s.sheet.pictures
    ensures var ps := LayOutDirectory(s, dir, names, maxCols).state.sheet.pictures;
      |ps| >= |s.sheet.pictures| &&
      forall k :: 0 <= k < |names| ==>
        (names[k] in dir.decoded <==> Anchored(ps[|s.sheet.pictures|..], Cell(s.row + 1, 3 + ColsPerImg * k)))
    ensures var ps := LayOutDirectory(s, dir, names, maxCols).state.sheet.pictures;
      |ps| >= |s.sheet.pictures| &&
      forall p :: p in ps[|s.sheet.pictures|..] ==>
        p.width == ImgInsertWidth &&
        exists k :: 0 <= k < |names| && names[k] in dir.decoded
          && p.anchor == Cell(s.row + 1, 3 + ColsPerImg * k) && p.height == ResizedHeight(dir.decoded[names[k]])
    ensures var ps := LayOutDirectory(s, dir, names, maxCols).state.sheet.pictures;
      |ps| >= |s.sheet.pictures| &&
      forall i, j :: |s.sheet.pictures| <= i < j < |ps| ==> ps[i].anchor.col < ps[j].anchor.col
  {
    var s3 := SlotsStart(s, dir, maxCols);
    PlaceNamesFrame(s3, dir, names);
    PlaceNamesPictures(s3, dir, names);
    PlaceNamesPictureShape(s3, dir, names);
    assert forall k :: SlotCol(FirstCol, k) == 3 + ColsPerImg * k;
  }

  /**
   * The borders of a block at row r: a top border on (r, 2) .. (r, maxCols),
   * right and top on (r, 1), a right border on column 1 of every further row
   * of the block up to the row where the next block starts, and no other
   * cell's border changed.
   */
  lemma BlockBorders(s: State, dir: Directory, names: seq<string>, maxCols: int)
    requires dir.hasFiles && maxCols >= 1
    requires LayOutDirectory(s, dir, names, maxCols).error.None?
    ensures var t := LayOutDirectory(s, dir, names, maxCols).state;
      forall c: Cell :: c.row == s.row && 2 <= c.col <= maxCols ==> c in t.sheet.border && t.sheet.border[c] == Top
    ensures var t := LayOutDirectory(s, dir, names, maxCols).state;
      Cell(s.row, 1) in t.sheet.border && t.sheet.border[Cell(s.row, 1)] == RightTop
    ensures var t := LayOutDirectory(s, dir, names, maxCols).state;
      forall c: Cell :: c.col == 1 && s.row < c.row < t.row ==> c in t.sheet.border && t.sheet.border[c] == Right
    ensures var t := LayOutDirectory(s, dir, names, maxCols).state;
      forall c: Cell :: !(c.row == s.row && 1 <= c.col <= maxCols) && !(c.col == 1 && s.row <= c.row < t.row) ==>
        (c in t.sheet.border <==> c in s.sheet.border) && (c in t.sheet.border ==> t.sheet.border[c] == s.sheet.border[c])
  {
    var s3 := SlotsStart(s, dir, maxCols);
    PlaceNamesFrame(s3, dir, names);
    var o := PlaceNames(s3, dir, names).state;
    var t := LayOutDirectory(s, dir, names, maxCols).state;
    var n := o.app.rowsPerImg.value + 3;
    assert t.row == s.row + n;
    forall c: Cell
      ensures (c.row == s.row && 2 <= c.col <= maxCols ==> c in t.sheet.border && t.sheet.border[c] == Top)
      ensures (c == Cell(s.row, 1) ==> c in t.sheet.border && t.sheet.border[c] == RightTop)
      ensures (c.col == 1 && s.row < c.row < t.row ==> c in t.sheet.border && t.sheet.border[c] == Right)
      ensures (!(c.row == s.row && 1 <= c.col <= maxCols) && !(c.col == 1 && s.row <= c.row < t.row) ==>
        (c in t.sheet.border <==> c in s.sheet.border) && (c in t.sheet.border ==> t.sheet.border[c] == s.sheet.border[c]))
    {
      TopBorderAt(s.sheet.border, s.row, maxCols, c);
      RightBorderAt(o.sheet.border, s.row, n, c);
    }
  }

  /**
   * The cursors after a block at row r: `rows_per_img` is that of the last
   * image loaded in this block, or the one carried over from an earlier
   * block when none loaded; the next block starts that many rows plus three
   * further down; the column cursor is back at 2; the longest label counts
   * this path; column 1 keeps its width.
   */
  lemma BlockCursor(s: State, dir: Directory, names: seq<string>, maxCols: int)
    requires dir.hasFiles
    requires LayOutDirectory(s, dir, names, maxCols).error.None?
    ensures var t := LayOutDirectory(s, dir, names, maxCols).state;
      t.app.rowsPerImg == RowsAfter(s, dir, names) && t.app.rowsPerImg.Some?
    ensures var t := LayOutDirectory(s, dir, names, maxCols).state;
      t.app.rowsPerImg.Some? && t.row == s.row + t.app.rowsPerImg.value + 3
    ensures var t := LayOutDirectory(s, dir, names, maxCols).state;
      t.col == FirstCol && t.maxDirLen == Max(s.maxDirLen, |dir.path|) && t.sheet.labelWidth == s.sheet.labelWidth
  {
    var s3 := SlotsStart(s, dir, maxCols);
    PlaceNamesFrame(s3, dir, names);
    PlaceNamesRowsPerImg(s3, dir, names);
  }

  /**
   * A block in which no name loads still moves the row cursor, by the
   * `rows_per_img` left over from the last image loaded in an earlier block.
   */
  lemma CarriedRowsPerImg(s: State, dir: Directory, names: seq<string>, maxCols: int, rows: nat)
    requires dir.hasFiles && s.app.rowsPerImg == Some(rows)
    requires forall k :: 0 <= k < |names| ==> names[k] !in dir.decoded
    ensures LayOutDirectory(s, dir, names, maxCols).error.None?
    ensures LayOutDirectory(s, dir, names, maxCols).state.row == s.row + rows + 3
  {
    BlockOutcome(s, dir, names, maxCols);
    var e := LayOutDirectory(s, dir, names, maxCols).error;
    if e.Some? {
      match e.value
      case ZeroHeightResize => assert false;
      case RowsPerImgUnset => assert false;
    }
    BlockCursor(s, dir, names, maxCols);
  }

  /** The directories that hold at least one file, in their original order. */
  function WithFiles(dirs: seq<Directory>): (r: seq<Directory>)
    ensures |r| <= |dirs|
    ensures forall d :: d in r <==> d in dirs && d.hasFiles
    decreases |dirs|
  {
    if dirs == [] then []
    else
      var init := WithFiles(dirs[..|dirs| - 1]);
      assert forall d :: d in dirs <==> d in dirs[..|dirs| - 1] || d == dirs[|dirs| - 1];
      if dirs[|dirs| - 1].hasFiles then init + [dirs[|dirs| - 1]] else init
  }

  /** Length of the longest path among the directories that hold files, 0 when there is none. */
  function MaxPathLen(dirs: seq<Directory>): (r: nat)
    ensures forall d :: d in dirs && d.hasFiles ==> |d.path| <= r
    ensures r == 0 || exists d :: d in dirs && d.hasFiles && |d.path| == r
    decreases |dirs|
  {
    if dirs == [] then 0
    else
      var last := dirs[|dirs| - 1];
      var m := MaxPathLen(dirs[..|dirs| - 1]);
      assert forall d :: d in dirs <==> d in dirs[..|dirs| - 1] || d == last;
      if last.hasFiles then Max(m, |last.path|) else m
  }

  /** Directories without files can be dropped: the layout is that of the others alone. */
  lemma {:induction false} SkipEmptyDirectories(s: State, dirs: seq<Directory>, names: seq<string>, maxCols: int)
    ensures LayOutDirectories(s, dirs, names, maxCols) == LayOutDirectories(s, WithFiles(dirs), names, maxCols)
    decreases |dirs|
  {
    if dirs != [] {
      var init := dirs[..|dirs| - 1];
      var last := dirs[|dirs| - 1];
      SkipEmptyDirectories(s, init, names, maxCols);
      if last.hasFiles {
        var w := WithFiles(init);
        assert WithFiles(dirs) == w + [last];
        assert (w + [last])[..|w|] == w;
      }
    }
  }

  /** When no directory holds a file, nothing is written and the cursors stay where they were. */
  lemma {:induction false} NoFilesNoOutput(s: State, dirs: seq<Directory>, names: seq<string>, maxCols: int)
    requires forall d :: d in dirs ==> !d.hasFiles
    ensures LayOutDirectories(s, dirs, names, maxCols) == Outcome(s, None)
    decreases |dirs|
  {
    if dirs != [] {
      var init := dirs[..|dirs| - 1];
      assert forall d :: d in init ==> d in dirs;
      NoFilesNoOutput(s, init, names, maxCols);
      assert dirs[|dirs| - 1] in dirs;
    }
  }

  /** `rows_per_img`, once set, is at least 1. */
  predicate ValidScratch(a: Scratch)
  {
    a.rowsPerImg.Some? ==> a.rowsPerImg.value >= 1
  }

  /**
   * Over successful blocks the row cursor moves down at least four rows per
   * directory that holds files (an image covers at least one row), the
   * column cursor stays at 2, and `rows_per_img` stays at least 1.
   */
  lemma {:induction false} RowsAdvance(s: State, dirs: seq<Directory>, names: seq<string>, maxCols: int)
    requires ValidScratch(s.app) && s.col == FirstCol
    requires LayOutDirectories(s, dirs, names, maxCols).error.None?
    ensures var t := LayOutDirectories(s, dirs, names, maxCols).state;
      ValidScratch(t.app) && t.col == FirstCol && t.row >= s.row + 4 * |WithFiles(dirs)|
    decreases |dirs|
  {
    if dirs != [] {
      var init := dirs[..|dirs| - 1];
      var last := dirs[|dirs| - 1];
      RowsAdvance(s, init, names, maxCols);
      var m := LayOutDirectories(s, init, names, maxCols).state;
      if last.hasFiles {
        BlockCursor(m, last, names, maxCols);
        var ld := LastLoaded(last, names);
        if ld.Some? {
          var k :| 0 <= k < |names| && names[k] in last.decoded && ld.value == last.decoded[names[k]];
          BlockOutcome(m, last, names, maxCols);
          assert !TooWide(ld.value);
          assert ResizedHeight(ld.value) >= 1;
        }
        assert WithFiles(dirs) == WithFiles(init) + [last];
      }
    }
  }

  /** After successful blocks the longest label is the longest path of a directory that holds files. */
  lemma {:induction false} LongestLabel(s: State, dirs: seq<Directory>, names: seq<string>, maxCols: int)
    requires LayOutDirectories(s, dirs, names, maxCols).error.None?
    ensures LayOutDirectories(s, dirs, names, maxCols).state.maxDirLen == Max(s.maxDirLen, MaxPathLen(dirs))
    decreases |dirs|
  {
    if dirs != [] {
      var init := dirs[..|dirs| - 1];
      var last := dirs[|dirs| - 1];
      LongestLabel(s, init, names, maxCols);
      if last.hasFiles {
        BlockCursor(LayOutDirectories(s, init, names, maxCols).state, last, names, maxCols);
      }
    }
  }

  /**
   * A run that finishes sets column 1 as wide as the longest path of a
   * directory holding files; the width is 0 exactly when every such path is
   * empty, in particular when no directory holds files.
   */
  lemma LabelWidthIsLongestPath(sheet: Sheet, app: Scratch, dirs: seq<Directory>, names: seq<string>)
    requires Run(sheet, app, dirs, names).error.None?
    ensures Run(sheet, app, dirs, names).state.sheet.labelWidth == Some(MaxPathLen(dirs))
    ensures MaxPathLen(dirs) == 0 <==> forall d :: d in dirs && d.hasFiles ==> d.path == []
  {
    LongestLabel(Start(sheet, app), dirs, names, MaxCols(|names|));
  }

  /**
   * On an `App` whose `rows_per_img` was never set, a run fails at the first
   * directory holding files when none of its names loads.
   */
  lemma FreshAppNeedsAnImage(sheet: Sheet, app: Scratch, dirs: seq<Directory>, names: seq<string>)
    requires app.rowsPerImg.None?
    requires |WithFiles(dirs)| > 0 && LastLoaded(WithFiles(dirs)[0], names).None?
    ensures Run(sheet, app, dirs, names).error == Some(RowsPerImgUnset)
  {
    var s := Start(sheet, app);
    var w := WithFiles(dirs);
    var maxCols := MaxCols(|names|);
    SkipEmptyDirectories(s, dirs, names, maxCols);
    assert w[0] in w;
    assert w[..1][..0] == [];
    BlockOutcome(s, w[0], names, maxCols);
    assert LayOutDirectories(s, w[..1], names, maxCols) == LayOutDirectory(s, w[0], names, maxCols);
    DirsErrorSticks(s, w, names, maxCols, 1);
  }
}
