/**
 * A worked run over the root `test_dir` the program is configured with: the
 * traversal yields the root itself, which holds only directories, then
 * `test_dir\a`, holding `test.bmp` (100 x 100 pixels) and `red.bmp` (50 high,
 * 100 wide), then `test_dir\b`, holding no file. The four target names are
 * those the program is configured with. Paths use the `\` separator that
 * the program itself joins file names with.
 */
module Scenario {
  import opened Wrappers
  import opened Geometry
  import opened Layout
  import opened LayoutProps

  const Root := Directory("test_dir", false, map[])
  const A := Directory("test_dir\\a", true, map["test.bmp" := Dims(100, 100), "red.bmp" := Dims(50, 100)])
  const B := Directory("test_dir\\b", false, map[])
  const Names := ["test.bmp", "red.bmp", "green.bmp", "blue.bmp"]

  /** The last of the names that loads in `a` is `red.bmp`. */
  lemma LastLoadedInA()
    ensures LastLoaded(A, Names) == Some(Dims(50, 100))
  {
    assert Names[0] in A.decoded && Names[1] in A.decoded && Names[2] !in A.decoded && Names[3] !in A.decoded;
  }

  /** Neither image in `a` is too wide to resize, and at least one loads, so the block of `a` succeeds wherever it starts. */
  lemma BlockOfASucceeds(s: State, maxCols: int)
    ensures LayOutDirectory(s, A, Names, maxCols).error.None?
  {
    LastLoadedInA();
    BlockOutcome(s, A, Names, maxCols);
    assert forall k :: 0 <= k < |Names| && Names[k] in A.decoded ==> !TooWide(A.decoded[Names[k]]);
    var e := LayOutDirectory(s, A, Names, maxCols).error;
    if e.Some? {
      match e.value
      case ZeroHeightResize => assert false;
      case RowsPerImgUnset => assert false;
    }
  }

  /** Only `test_dir\a` is laid out: the root and `test_dir\b` hold no file. */
  lemma OnlyABlock(s: State, maxCols: int)
    ensures LayOutDirectories(s, [Root, A, B], Names, maxCols) == LayOutDirectory(s, A, Names, maxCols)
  {
    assert [Root, A, B][..2] == [Root, A];
    assert [Root, A][..1] == [Root];
    assert [Root][..0] == [];
    assert [A][..0] == [];
    assert WithFiles([Root]) == [];
    assert WithFiles([Root, A]) == [A];
    assert WithFiles([Root, A, B]) == [A];
    SkipEmptyDirectories(s, [Root, A, B], Names, maxCols);
  }

  /**
   * The block of `a` is 11 rows high: `red.bmp`, the last image loaded, is
   * resized to 132 pixels, which is 8 rows, although `test.bmp` beside it
   * is resized to 264 pixels, which needs 15.
   */
  lemma BlockOfAHeight(s: State, maxCols: int)
    ensures LayOutDirectory(s, A, Names, maxCols).state.row == s.row + 11
    ensures LayOutDirectory(s, A, Names, maxCols).state.col == 2
    ensures RowsSpanned(ResizedHeight(Dims(100, 100))) == 15
  {
    BlockOfASucceeds(s, maxCols);
    LastLoadedInA();
    BlockCursor(s, A, Names, maxCols);
    assert ResizedHeight(Dims(50, 100)) == 132;
  }

  /** All four names are written in the block's first row, after the path. */
  lemma BlockOfAText(s: State, maxCols: int)
    requires s.col == FirstCol
    ensures var text := LayOutDirectory(s, A, Names, maxCols).state.sheet.text;
      Cell(s.row, 1) in text && text[Cell(s.row, 1)] == "test_dir\\a"
      && Cell(s.row, 3) in text && text[Cell(s.row, 3)] == "test.bmp"
      && Cell(s.row, 7) in text && text[Cell(s.row, 7)] == "red.bmp"
      && Cell(s.row, 11) in text && text[Cell(s.row, 11)] == "green.bmp"
      && Cell(s.row, 15) in text && text[Cell(s.row, 15)] == "blue.bmp"
  {
    BlockOfASucceeds(s, maxCols);
    BlockText(s, A, Names, maxCols);
    assert 3 + ColsPerImg * 0 == 3 && 3 + ColsPerImg * 1 == 7 && 3 + ColsPerImg * 2 == 11 && 3 + ColsPerImg * 3 == 15;
  }

  /** Images are anchored one row down under `test.bmp` and `red.bmp`, and under no other name. */
  lemma BlockOfAPictures(s: State, maxCols: int)
    requires s.col == FirstCol
    ensures var ps := LayOutDirectory(s, A, Names, maxCols).state.sheet.pictures;
      |ps| >= |s.sheet.pictures| &&
      var added := ps[|s.sheet.pictures|..];
      Anchored(added, Cell(s.row + 1, 3)) && Anchored(added, Cell(s.row + 1, 7))
      && !Anchored(added, Cell(s.row + 1, 11)) && !Anchored(added, Cell(s.row + 1, 15))
  {
    BlockOfASucceeds(s, maxCols);
    BlockPictures(s, A, Names, maxCols);
    assert 3 + ColsPerImg * 0 == 3 && 3 + ColsPerImg * 1 == 7 && 3 + ColsPerImg * 2 == 11 && 3 + ColsPerImg * 3 == 15;
    assert Names[0] in A.decoded && Names[1] in A.decoded && Names[2] !in A.decoded && Names[3] !in A.decoded;
  }

  /** Laid out from row 2 on a fresh `App`, only `a` gets a block, and the next one would start at row 13. */
  lemma ExampleRun(sheet: Sheet)
    ensures var o := LayOutDirectories(Start(sheet, Scratch(0, 0, None)), [Root, A, B], Names, MaxCols(|Names|));
      o == LayOutDirectory(Start(sheet, Scratch(0, 0, None)), A, Names, MaxCols(|Names|))
      && o.error == None && o.state.row == 13 && o.state.col == 2
  {
    var s := Start(sheet, Scratch(0, 0, None));
    OnlyABlock(s, MaxCols(|Names|));
    BlockOfASucceeds(s, MaxCols(|Names|));
    BlockOfAHeight(s, MaxCols(|Names|));
  }

  /** The finished run of the example sets column 1 to the length of the path `test_dir\a`. */
  lemma ExampleLabelWidth(sheet: Sheet)
    ensures Run(sheet, Scratch(0, 0, None), [Root, A, B], Names).error.None?
    ensures Run(sheet, Scratch(0, 0, None), [Root, A, B], Names).state.sheet.labelWidth == Some(10)
  {
    var s := Start(sheet, Scratch(0, 0, None));
    OnlyABlock(s, MaxCols(|Names|));
    BlockOfASucceeds(s, MaxCols(|Names|));
    LabelWidthIsLongestPath(sheet, Scratch(0, 0, None), [Root, A, B], Names);
    assert A in [Root, A, B];
  }
}
