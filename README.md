# Image pasting layout engine, modelled in Dafny

This project models the layout engine of `paste.py`: the `App` class that
walks a list of directories and, for each directory holding at least one
file, lays out a block of rows on a spreadsheet worksheet. A block gets a
thick top border across the row, the directory path in column 1, one
filename label every four columns, the resized image one row below each
label whose file decodes, and a thick right border down column 1. After the
last directory, column 1 is made as wide as the longest path written.

Files and modules:

- `Wrappers.dfy`: the `Option` datatype.
- `Geometry.dfy`: the fixed sizes `set_info` configures (cells of 88 x 18
  pixels, images 264 pixels wide, four columns per image slot), the integer
  arithmetic of `img_resize`, and the cursor steps `get_next_col` /
  `get_next_row` (`NextCol`, `NextRow`).
- `Layout.dfy`: the layout as functions over values. The worksheet is a
  `Sheet` (cell values and borders keyed by `(row, col)`, the added images
  in order, and the width of column 1). A directory is a `Directory`: its
  path, whether it holds a file, and the pixel size of every target name
  that decodes there. Each loop of `execute` is a function over a prefix of
  its input (`TopBorder`, `PlaceNames`, `RightBorder`, `LayOutDirectories`);
  `Run` is a whole call of `execute`.
- `LayoutProps.dfy`: what the layout guarantees, as lemmas.
- `Paste.dfy`: the `App` class and the worksheet as objects updated in
  place. `App.Execute`, with the loops of the source, is proved to leave
  exactly the worksheet and `App` fields that `Run` describes.
- `Scenario.dfy`: a worked run over the root `test_dir` and its two subdirectories, with the four target
  names configured in `main`.

Two error outcomes are modelled. `RowsPerImgUnset` is the `AttributeError`
raised at line 176 when no image has been resized on this `App` yet:
`set_info` never sets `rows_per_img`. `ZeroHeightResize` is the failure of
the resize library when `h * 264 // w` is 0, that is an image more than 264
times wider than high. On either error the run stops, and the model keeps
the worksheet and fields as they were at that point.

The resized height is floor division (`//`, paste.py:97), not rounding. The row
advance uses the `rows_per_img` of the last image resized, which may come
from an earlier directory when none loads in this one; it is not the
tallest image of the block. The directory sequence is an input, in
whatever order the traversal produced it.

The column step of `get_next_col` (4 per name) is stated by
`PlaceNamesFrame`. The row step of `get_next_row` (`rows_per_img + 3`) is
stated by `BlockCursor` and `RowsAdvance`. `img_resize` sets
`rows_per_img` to `math.ceil(height / 18)`; `RowsSpanned` is that ceiling
in integer arithmetic.

## Model

| member | source | states |
|---|---|---|
| Geometry.ResizedHeight | paste.py:96-100 | the resized height `h` is the floor of `height * 264 / width`: `h * width <= height * 264 < (h + 1) * width` |
| Geometry.RowsSpanned | paste.py:102 | `rows_per_img` is the ceiling of height / 18: `r * 18 >= height` and `(r - 1) * 18 < height` |
| Geometry.Resize | paste.py:94-104 | a resize succeeds exactly when the image is not `TooWide`, that is when `width <= height * 264`; the new width is 264, the new height the floor of the scaled height, the row span at least 1 and the ceiling of height / 18 |
| Geometry.NextCol | paste.py:118-120 | the next slot starts far enough right that a 264-pixel image anchored right of the current cursor ends before the next slot's label; the exact step of 4 per name is stated by `LayoutProps.PlaceNamesFrame` |
| Geometry.NextRow | paste.py:122-124 | the next block starts below the label row and the `rows_per_img` image rows, with a gap; the exact step `rows_per_img + 3` is stated by `LayoutProps.BlockCursor` and `LayoutProps.RowsAdvance` |
| Layout.TopBorder | paste.py:150-152 | every existing border cell stays bordered and (r, 1) gets a top border; the cell-by-cell effect is stated by `LayoutProps.TopBorderAt` |
| Layout.RightBorder | paste.py:176-181 | every existing border cell stays bordered and (r, 1) gets a right and top border; the cell-by-cell effect is stated by `LayoutProps.RightBorderAt` |
| Layout.PlaceName | paste.py:158-174 | one slot fails exactly when its name decodes to an image too wide to resize; the row and longest label stay, and on success the column cursor moves right |
| Layout.PlaceNames | paste.py:157-174 | the name loop keeps the row and longest label, and its only error is the resize error; its text, images, cursor and `rows_per_img` are stated by `LayoutProps.PlaceNamesText`, `PlaceNamesPictures`, `PlaceNamesFrame` and `PlaceNamesRowsPerImg` |
| Layout.LayOutDirectory | paste.py:145-184 | a directory without files never fails; a block that succeeds resets the column cursor to 2, moves the row down by at least 3 and counts its path in the longest label; the exact effect is stated by `LayoutProps.BlockOutcome`, `BlockText`, `BlockPictures`, `BlockBorders` and `BlockCursor` |
| Layout.LayOutDirectories | paste.py:143-184 | over successful blocks the row cursor never moves up and the longest label never shrinks; stated further by `LayoutProps.RowsAdvance`, `LongestLabel` and `DirsErrorSticks` |
| Layout.Run | paste.py:127-186 | a run that finishes leaves the row cursor at or below row 2 and sets the width of column 1; which width is stated by `LayoutProps.LabelWidthIsLongestPath` |
| Paste.App.constructor | paste.py:68-81 | a new `App` has `max_cols` 200 and `max_rows` 1000 and no `rows_per_img`, so `ValidScratch` holds |
| Paste.App.ImgResize | paste.py:94-104 | returns the resize of the image; on success the fields hold width 264, the resized height and its row span; on failure they hold the original size and `rows_per_img` is unchanged; `rows_per_img`, once set, stays at least 1 (`ValidScratch`) |
| Paste.App.WriteInfo | paste.py:107-115 | cell (row, col) takes `prefix + info`; no other cell, border or image changes |
| Paste.App.PlaceImages | paste.py:157-174 | the name loop leaves exactly the worksheet, column cursor, fields and error that `PlaceNames` describes |
| Paste.App.DrawTopBorder | paste.py:150-152 | the loop over columns 1 .. `max_cols` leaves exactly the borders `TopBorder` describes |
| Paste.App.DrawRightBorder | paste.py:176-181 | the loop over the block's rows leaves exactly the borders `RightBorder` describes |
| Paste.App.LayOutBlock | paste.py:149-184 | the body of the directory loop leaves exactly the worksheet, cursors, longest label, fields and error that `LayOutDirectory` describes |
| Paste.App.Execute | paste.py:127-186 | sets `max_cols` to 1 + 4N and leaves exactly the worksheet, fields and error that `Run` describes, and keeps `ValidScratch`, so `RowsAdvance` applies to every run of an `App` |
| LayoutProps.NamesErrorSticks | paste.py:165-172 | once a resize fails, the remaining names change nothing |
| LayoutProps.DirsErrorSticks | paste.py:143-184 | once a directory's block fails, the remaining directories change nothing |
| LayoutProps.LastLoaded | paste.py:165-167 | the image that sets `rows_per_img` in a block: the last name that decodes, `None` exactly when none does |
| LayoutProps.TopBorderAt | paste.py:150-152 | cells (r, 1) .. (r, max_cols) get a top border and every other cell keeps its border |
| LayoutProps.RightBorderAt | paste.py:176-181 | column 1 of rows r .. r+n-1 gets a right border, (r, 1) a right and top border, and every other cell keeps its border |
| LayoutProps.PlaceNamesFrame | paste.py:118-120 | the name loop moves the column cursor by exactly 4 per name and leaves the row, longest label, borders, column width and earlier images alone |
| LayoutProps.PlaceNamesError | paste.py:94-98 | the name loop fails exactly when a name decodes to an image too wide to resize, and then with the resize error |
| LayoutProps.PlaceNamesText | paste.py:157-162 | the k-th name is written at (r, col + 1 + 4k) whether or not it loaded, and no other cell value changes |
| LayoutProps.PlaceNamesPictureShape | paste.py:165-172 | every image the name loop adds sits one row below the label of a name that decoded, 264 wide, with that image's resized height; images are added left to right |
| LayoutProps.PlaceNamesSlotAnchors | paste.py:165-172 | an image is anchored one row below the k-th label exactly when the k-th name decodes |
| LayoutProps.PlaceNamesPictures | paste.py:165-172 | an image is anchored one row below the k-th label exactly when the k-th name decodes, and no two added images share an anchor, so there is one image per loaded name |
| LayoutProps.PlaceNamesRowsPerImg | paste.py:102 | after the name loop `rows_per_img` is the row span of the last image loaded, or the value carried in when none loaded |
| LayoutProps.BlockOutcome | paste.py:146-176 | a directory without files changes nothing; a block fails with the resize error exactly when a loaded image is too wide, and with the missing `rows_per_img` exactly when nothing loaded in it or before it |
| LayoutProps.BlockText | paste.py:153-162 | in a block at row r, (r, 1) holds the path, (r, 3 + 4k) the k-th name, and no other cell value changes |
| LayoutProps.BlockPictures | paste.py:165-172 | in a block at row r, an image is anchored at (r + 1, 3 + 4k) exactly when the k-th name loaded, with width 264 and its resized height; images are added left to right, so one per loaded name; earlier images stay |
| LayoutProps.BlockBorders | paste.py:150-181 | in a block at row r, (r, 2) .. (r, max_cols) have a top border, (r, 1) right and top, column 1 of every later row of the block a right border, and no other border changes |
| LayoutProps.BlockCursor | paste.py:183-184 | after a block the next row is r + rows_per_img + 3 with the `rows_per_img` of the last image loaded so far, the column cursor is 2 and the longest label counts this path |
| LayoutProps.CarriedRowsPerImg | paste.py:176-184 | a block where nothing loads still succeeds after an earlier image and moves down by that image's row span plus 3 |
| LayoutProps.WithFiles | paste.py:145-148 | the directories holding a file, and only those |
| LayoutProps.MaxPathLen | paste.py:155 | the longest path of a directory holding a file: at least every such length and equal to one of them, or 0 |
| LayoutProps.SkipEmptyDirectories | paste.py:143-148 | the layout of all directories equals the layout of those holding a file |
| LayoutProps.NoFilesNoOutput | paste.py:146-148 | when no directory holds a file, nothing is written and the cursors do not move |
| LayoutProps.RowsAdvance | paste.py:122-124 | over successful blocks the row cursor moves down at least 4 rows per directory holding a file and the column cursor stays at 2 |
| LayoutProps.LongestLabel | paste.py:142-155 | after successful blocks the longest label is the longest path of a directory holding a file |
| LayoutProps.LabelWidthIsLongestPath | paste.py:186 | a finished run makes column 1 as wide as the longest path of a directory holding a file, 0 when every such path is empty |
| LayoutProps.FreshAppNeedsAnImage | paste.py:72-81 | on a fresh `App`, a run fails with the missing `rows_per_img` when nothing loads in the first directory holding a file |
| Scenario.LastLoadedInA | paste.py:192-194 | in the example, `red.bmp` is the last name that loads in `test_dir\a` |
| Scenario.BlockOfASucceeds | paste.py:157-184 | the block of `test_dir\a` succeeds |
| Scenario.OnlyABlock | paste.py:143-148 | the root and `test_dir\b`, which hold no file, add nothing |
| Scenario.BlockOfAHeight | paste.py:176-184 | the block of `test_dir\a` is 11 rows high, from `red.bmp`'s 8 rows, although `test.bmp` needs 15 |
| Scenario.BlockOfAText | paste.py:153-162 | the path and all four names are written in the block's first row |
| Scenario.BlockOfAPictures | paste.py:165-172 | images are anchored under `test.bmp` and `red.bmp` only |
| Scenario.ExampleRun | paste.py:189-201 | on a fresh `App` the example lays out one block, at row 2, and ends with the cursor at row 13 |
| Scenario.ExampleLabelWidth | paste.py:186 | the example run finishes and column 1 gets width 10, the length of `test_dir\a` |

## Left out

- `imread`, `imwrite` and `cv2pil` (image decoding, encoding and colour conversion): a load is the pixel size recorded in `Directory.decoded`, absent when the decoder returns nothing.
- The path `directory + '\\' + img_name` handed to the decoder: loads are keyed by target name within each directory.
- `get_dir_list` and the per-directory file listing: the directory sequence and each directory's "holds a file" flag are inputs.
- `get_cell_index_letter` and the library's column letters: cells are keyed by `(row, col)`.
- `format_cells`: floating-point unit conversions that do nothing with the configured 88 x 18 cell size.
- The resized pixel data, the embedding of images in the workbook, and the border styling objects (modelled as the three kinds `Top`, `Right`, `RightTop`).
- `main`'s workbook creation and save, and failures of the save.
- Geometry.RowsSpanned: models `math.ceil(height / 18)` as exact integer ceiling; the floating-point division agrees only while the height is small enough to be exact in a double.
- `max_rows` is set by the constructor and read only by `format_cells`.
- The cell and image sizes that `set_info` stores on the object are module constants, since nothing changes them.
- Paste.App.constructor: `image_height` and `image_width` do not exist on a new object; the model starts them at 0, and nothing reads them before a resize writes them.
