# pySlipQt core, modelled in Dafny

pySlipQt is a slip-map widget: a view that shows a map built from square
tiles and can be dragged and zoomed. This project models the sequential
logic around the widget and proves properties of it. Each part below
follows the Python file it comes from.

- **Tile layout of the widget** (`pyslipqt/pyslipqt.py`, modules
  `TileLayout` and `SlipWidget`). A "key tile" is the tile drawn at the
  view's top-left, together with the offset at which it starts.
  - A wrapped drag moves the key tile. Two `while` loops then bring the
    offset back into one tile width and step the key column modulo the
    tile count.
  - `paintEvent` lists the columns and rows covering the view, then draws
    each tile a tile width or height apart. Each tile comes from the tile
    source, which queues a request for a missing or stale tile, or raises
    KeyError for a tile a local source does not have.
  - The mouse-button flags, the drag start, `use_level` and the wheel are
    modelled too.
- **Tile sources** (`TileCommon`, `QtTiles`, `SlipTiles`, `NetTiles`):
  - level selection and the 2^level tile counts;
  - cache lookup, with the pending tile on a miss;
  - the request queue and its de-duplicating `queued_requests`;
  - the refetch-age threshold;
  - the mapping from tile extension to Content-Type;
  - the `{Z}/{X}/{Y}.png` cache path.
- **GMT tiles** (`GmtLocalTiles`, `MakeGmtTiles`):
  - the linear geo/tile conversions, over exact reals;
  - the generator's cutting of the world extent into 2^(L+1) × 2^L tiles,
    its task queue, its info tuple and its command line.
- **Demo programs** (`DemoSelect`, `DemoTilesets`, `DebugOption`):
  - the select-handler dispatch table and the highlight state machines of
    `pointSelect`, `pointViewSelect` and `textSelect`;
  - the lazy tileset manager and the Tilesets menu;
  - the `-d` debug-level option.
- **Small helpers**:
  - the nine-way placement rule and its exec table (`Placement`);
  - the base64 image-to-module writer `img2py` (`Img2Py`);
  - the `tkinter_error` message formatting (`ErrorDialog`).

Python's string behaviour that these rely on is in `PyText`: `strip`,
`replace`, `int()`, `str()`, `os.path.splitext`, `lower`/`upper` and the
`getopt` result. Objects the Python code updates in place are classes
with `modifies` clauses. Pure expressions are functions. Loops are
methods with invariants, proved against specification functions.

The world outside the program becomes parameters:
- the clock is a `now` argument;
- what exists on disk is a `PathKind`, a set of existing paths, or info
  files given as a map;
- the creation date of a tile's file is an argument or a function;
- the base64 text an external encoder produces is an argument;
- images are opaque identities.

## Model

| member | source | states |
|---|---|---|
| TileLayout.NormalOffset | pyslipqt/pyslipqt.py:161-168 | the normalised key-tile offset lies in (-tile_size, 0] |
| TileLayout.Steps | pyslipqt/pyslipqt.py:161-168 | the offset equals whole tile widths moved plus the normalised offset |
| TileLayout.StepsZero | pyslipqt/pyslipqt.py:161-168 | the key tile moves exactly when the offset changes |
| TileLayout.Normalise | pyslipqt/pyslipqt.py:159-168 | the two loops leave the offset normalised and the key column moved by the number of tile widths crossed, modulo the tile count |
| TileLayout.StepRight | pyslipqt/pyslipqt.py:161-164 | each subtracted tile width advances the key column by one modulo the count, and the loop ends with the offset at most 0 |
| TileLayout.StepLeft | pyslipqt/pyslipqt.py:165-168 | each added tile width moves the key column back by one modulo the count, and the loop ends with the offset above -tile_size |
| TileLayout.ModNext | pyslipqt/pyslipqt.py:163-164 | stepping the residue forward equals stepping the number |
| TileLayout.ModPrev | pyslipqt/pyslipqt.py:167-168 | `(k - 1 + n) % n` on a residue equals stepping the number back |
| TileLayout.NormalKeyInRange | pyslipqt/pyslipqt.py:157-168 | a key column inside the map stays in [0, num_tiles) after a wrapped drag |
| TileLayout.Columns | pyslipqt/pyslipqt.py:253-271 | the list is empty exactly when the offset reaches the view size, and otherwise starts with the key tile |
| TileLayout.ColumnsInRange | pyslipqt/pyslipqt.py:253-261 | every listed column lies in [0, num_tiles_x) |
| TileLayout.ColumnsSuccessive | pyslipqt/pyslipqt.py:256-261 | each entry is its predecessor plus one, modulo num_tiles_x |
| TileLayout.ColumnsNoWrap | pyslipqt/pyslipqt.py:258-259 | without wrap the list counts up from the key tile and never passes num_tiles_x - 1 |
| TileLayout.ColumnsWrapLength | pyslipqt/pyslipqt.py:256-261 | with wrap the length is the number of tile widths from the offset to the view width |
| TileLayout.TileList | pyslipqt/pyslipqt.py:253-271 | the append loop builds exactly Columns |
| SlipWidget.ColumnDrawsAt | pyslipqt/pyslipqt.py:310-314 | row j of a column is TileDraw at y = key_tile_yoffset + j*tile_size_y: the cached tile of (level, col, rows[j]) when there is one, else the pending tile |
| SlipWidget.PySlipQt.constructor | pyslipqt/pyslipqt.py:45-85 | the widget starts at start_level, with min/max from the source's levels, a zero key tile, no buttons down and no drag start |
| SlipWidget.PySlipQt.MousePress | pyslipqt/pyslipqt.py:99-113 | only the pressed button's flag is set |
| SlipWidget.PySlipQt.MouseRelease | pyslipqt/pyslipqt.py:115-131 | only the released button's flag is cleared; a left release also resets the drag start to None |
| SlipWidget.PySlipQt.MouseMove | pyslipqt/pyslipqt.py:146-196 | with the left button down, (x, y) becomes the drag start; only a truthy earlier start moves a key tile, only on a wrapping axis, to the normalised offset and column |
| SlipWidget.PySlipQt.Resize | pyslipqt/pyslipqt.py:231-244 | the view takes the new size and nothing else changes |
| SlipWidget.PySlipQt.UseLevel | pyslipqt/pyslipqt.py:216-229 | it returns the source's answer; on success the level and tile counts come from the source's info, and on failure nothing changes |
| SlipWidget.PySlipQt.Wheel | pyslipqt/pyslipqt.py:207-214 | a negative delta asks for level + 1 and any other delta for level - 1 |
| SlipWidget.PySlipQt.Paint | pyslipqt/pyslipqt.py:246-317 | the drawing is the Canvas of the listed columns and rows, starting at the key tile's offsets; a source with servers always paints and its requests become CanvasRequests of the old ones (each missing or stale tile queued in drawing order unless already outstanding); a local source queues nothing and fails (KeyError) exactly when a listed tile is not cached; the source's level, info, cache and refetch threshold do not change |
| SlipWidget.CanvasAt | pyslipqt/pyslipqt.py:308-315 | column i of the canvas is drawn at key_tile_xoffset + i*tile_size_x, and its row j at key_tile_yoffset + j*tile_size_y |
| SlipWidget.PySlipQt.DrawCanvas | pyslipqt/pyslipqt.py:308-315 | the outer loop draws the columns one tile width apart, as Canvas says; with servers it always completes and requests the wanted tiles column after column; a local source stops with KeyError exactly when some tile of the columns is not cached |
| SlipWidget.PySlipQt.DrawColumn | pyslipqt/pyslipqt.py:310-315 | the inner loop draws one column as ColumnDraws says; with servers it always completes and requests the wanted tiles row after row; a local source stops with KeyError exactly when some tile of the column is not cached |
| SlipWidget.PySlipQt.DrawTile | pyslipqt/pyslipqt.py:312-313 | one GetTile and its drawing, which is TileDraw of the tile before the call: with servers a tile is always drawn and requested when missing or stale; a local source fails exactly when the tile is not cached |
| SlipWidget.ColumnRequestsQueued | pyslipqt/tiles.py:428-447 | painting a column only appends to the request queue, and afterwards a key is outstanding exactly when it was before or it is a missing or stale tile of the column |
| SlipWidget.ColumnRequestsConsistent | pyslipqt/tiles.py:483-497 | painting a column never queues a tile twice |
| SlipWidget.CanvasRequestsQueued | pyslipqt/pyslipqt.py:308-315 | painting only appends to the request queue, and afterwards a key is outstanding exactly when it was before or it is a missing or stale tile of a listed column and row at the current level |
| SlipWidget.CanvasRequestsConsistent | pyslipqt/tiles.py:483-497 | painting never queues a tile twice |
| TileCommon.SeqMin | pySlipQt/tiles.py:131 | `min(levels)` is a member of levels that is at most every member |
| TileCommon.SeqMax | pySlipQt/tiles.py:132 | `max(levels)` is a member of levels that is at least every member |
| TileCommon.TilesAtLevelDoubles | pySlipQt/tiles.py:228-229 | TilesAtLevel, `int(math.pow(2, level))` (0 below level 0), doubles with each level |
| TileCommon.EnqueueIdempotent | pySlipQt/tiles_net.py:391-405 | Enqueue, which queues a key unless it is outstanding, is idempotent: asking twice for the same tile queues it once |
| TileCommon.EnqueueConsistent | pyslipqt/tiles.py:493-497 | Enqueue keeps the queue free of duplicates and within queued_requests |
| TileCommon.EnqueueAllOnce | pyslipqt/tiles.py:493-497 | any sequence of requests leaves each key at most once in the queue |
| TileCommon.TilePath | pySlipQt/tiles.py:52-58 | the path starts with tiles_dir as os.path.join places it |
| TileCommon.TilePathRoundTrip | pySlipQt/tiles.py:42-43 | the level, x and y read back from `dir/Z/X/Y.png` are the key it was made from |
| TileCommon.TilePathInjective | pySlipQt/tiles.py:52-58 | different keys never share a cache file |
| TileCommon.ContentTypeMatchesFileType | pySlipQt/tiles_net.py:188-205 | TileFormat, the (filetype, content_type) pair set from the URL path's lower-cased extension, pairs JPG with 'image/jpeg' and PNG with 'image/png' |
| TileCommon.TileFormatByExtension | pySlipQt/tiles_net.py:188-198 | TileFormat accepts a `name.ext` URL path exactly when ext is png or jpg in any case; any other extension raises TypeError |
| QtTiles.BaseTiles.constructor | pySlipQt/tiles.py:112-147 | levels, sizes and tiles_dir are stored; min/max come from levels; the level starts at min_level; the extent is the default one |
| QtTiles.BaseTiles.Create | pySlipQt/tiles.py:112-159 | empty levels, a file at tiles_dir and a missing tiles_dir each fail; otherwise a source at min_level with extent (-180.0, 180.0, -85.0511, 85.0511) |
| QtTiles.BaseTiles.GetInfo | pySlipQt/tiles.py:211-231 | None for a level not served, with nothing changed; otherwise (2^level, 2^level, None, None), and the counts are stored |
| QtTiles.BaseTiles.UseLevel | pySlipQt/tiles.py:164-185 | False with nothing changed for a level not served; otherwise True with the level and its info current |
| QtTiles.BaseTiles.GetTile | pySlipQt/tiles.py:187-209 | the cached tile for (level, x, y), or KeyError exactly when it is absent |
| QtTiles.BaseTiles.TilePathOf | pySlipQt/tiles.py:52-58 | the source's tile path names its key |
| SlipTiles.ModuleGlobals.constructor | pyslipqt/tiles.py:54 | RefreshTilesAfterDays starts at 60 |
| SlipTiles.StaleAfterDays | pyslipqt/tiles.py:442-445 | with the constructor's InitialAge, in which refetch_days overrides RefreshTilesAfterDays, a cached tile is stale exactly when it is older than that period |
| SlipTiles.NeverStaleWithoutPeriod | pyslipqt/tiles.py:247-248 | with neither period set InitialAge is 0, and no tile dated after the epoch is ever stale |
| SlipTiles.BaseTiles.constructor | pyslipqt/tiles.py:218-311 | the parameters are stored, the level is min(levels), no request is outstanding, and file type and Content-Type are set only with servers |
| SlipTiles.BaseTiles.Create | pyslipqt/tiles.py:218-321 | the failures in the constructor's order (no levels, a file at tiles_dir, a bad extension with servers, an empty server list that `servers[0]` cannot index), else a new source holding the given levels, tile size, tiles_dir, url_path, servers and pending/error images, at min_level, with the default extent, the file and content type of the URL's extension, the refetch threshold from refetch_days or the global, and no requests |
| SlipTiles.BaseTiles.GetInfo | pyslipqt/tiles.py:449-471 | it returns InfoFor(level): None outside levels, PowerInfo (2^level tiles each way, no ppd) for the plain source, the info file's tuple for the GMT source; the plain source stores its 2^level tile counts; nothing else changes |
| SlipTiles.BaseTiles.FlushRequests | pyslipqt/tiles.py:473-481 | with servers both the queue and queued_requests become empty; a local source is unchanged |
| SlipTiles.BaseTiles.UseLevel | pyslipqt/tiles.py:384-410 | False with no change for a level without info; otherwise the level and info become current and pending requests are flushed |
| SlipTiles.BaseTiles.GetInternetTile | pyslipqt/tiles.py:483-497 | the request bookkeeping becomes Enqueue of the key |
| SlipTiles.BaseTiles.GetTile | pyslipqt/tiles.py:412-447 | a local miss raises KeyError; an internet miss queues the tile and returns pending_tile; a hit returns the tile and re-queues it only when it is stale |
| SlipTiles.BaseTiles.TileAvailable | pyslipqt/tiles.py:514-523 | the intended delivery: a tile without error is cached; the key leaves queued_requests, and an absent key is tolerated |
| SlipTiles.BaseTiles.TileAvailableAsWritten | pyslipqt/tiles.py:509-512 | the delivery as written raises AttributeError and leaves the cache and the requests as they were |
| SlipWidget.TileLostAsWritten | pyslipqt/tiles.py:512-521 | after the delivery as written a requested tile is still missing and still outstanding: every later paint shows the pending tile and requests nothing |
| SlipWidget.TileShownAfterDelivery | pyslipqt/tiles.py:514-523 | after the intended delivery the next paint shows the tile, and the tile can be requested again once it is stale |
| SlipTiles.BaseTiles.SetAgeThresholdDaysAsWritten | pyslipqt/tiles.py:545-560 | the global becomes num_days and the age becomes now - num_days*86400, also for 0 |
| SlipTiles.BaseTiles.SetAgeThresholdDays | pyslipqt/tiles.py:545-551 | 0 inhibits refetching (no tile is ever stale); any other value makes a tile stale exactly when it is older than num_days |
| SlipTiles.ZeroDaysStillStale | pyslipqt/tiles.py:545-560 | as written, after SetAgeThresholdDays(0) a tile cached a second earlier is stale |
| NetTiles.RefetchAfterDays | pySlipQt/tiles_net.py:344-356 | with the threshold RerequestAge sets for d days, a tile on disk is re-requested exactly when it is older than d days |
| NetTiles.NoRefetchWhenInhibited | pySlipQt/tiles_net.py:179-182 | RerequestAge sets no threshold without refetch_days or with 0, so nothing is ever re-requested |
| NetTiles.Tiles.constructor | pySlipQt/tiles_net.py:140-215 | the parameters are stored, the threshold follows RerequestAge, the format follows TileFormat, and no request is outstanding |
| NetTiles.Tiles.Create | pySlipQt/tiles_net.py:140-218 | empty levels, a file at tiles_dir, a bad extension and an empty server list (`servers[0]`) each fail in that order; otherwise a new source holding the given levels, tile size, tiles_dir, servers, url_path and pending/error images, at min_level, with extent (-180, 180, -85.0511, 85.0511), no callback, an empty memory cache, the given disk, the refetch threshold and no requests |
| NetTiles.Tiles.GetInfo | pySlipQt/tiles_net.py:358-380 | None outside levels, with nothing changed; otherwise (2^level, 2^level, None, None) |
| NetTiles.Tiles.FlushRequests | pySlipQt/tiles_net.py:382-389 | the queue and queued_requests become empty and nothing else changes |
| NetTiles.Tiles.UseLevel | pySlipQt/tiles_net.py:300-326 | False with no change outside levels; otherwise the level and info are set, then requests are flushed |
| NetTiles.Tiles.GetServerTile | pySlipQt/tiles_net.py:391-405 | the bookkeeping becomes Enqueue of the key |
| NetTiles.Tiles.GetTile | pySlipQt/tiles_net.py:328-356 | a miss queues the tile and returns pending_tile; a hit returns it and re-queues only when it is on disk and older than the threshold |
| NetTiles.Tiles.SetCallback | pySlipQt/tiles_net.py:413-419 | the callback is stored and nothing else changes |
| NetTiles.Tiles.TileIsAvailable | pySlipQt/tiles_net.py:421-449 | the image always enters the memory cache; it reaches disk only without error; the key leaves queued_requests; the callback gets (level, x, y, image, True), or RuntimeError when none is set |
| NetTiles.Tiles.SetAgeThresholdDaysAsWritten | pySlipQt/tiles_net.py:451-466 | the threshold becomes now - num_days*86400, also for 0 |
| NetTiles.Tiles.SetAgeThresholdDays | pySlipQt/tiles_net.py:451-458 | 0 inhibits refetching: no tile is re-requested afterwards |
| NetTiles.ZeroDaysStillRefetches | pySlipQt/tiles_net.py:451-466 | as written, after SetAgeThresholdDays(0) a tile on disk created a second earlier is re-requested |
| GmtLocalTiles.Create | pyslipqt/gmt_local_tiles.py:78-99 | a file at tiles_dir fails; a missing tiles_dir is created empty (pyslipqt/tiles.py:271-280), so it fails for want of the level-0 info file, as does an existing directory without one; otherwise a source over range(5) with the GMT extent, wrap_x True and wrap_y False |
| GmtLocalTiles.GetInfoLevels | pyslipqt/gmt_local_tiles.py:101-124 | GetInfo is None for a level outside range(5) or without an info file, else that file's tuple |
| GmtLocalTiles.GeoRoundTrip | pyslipqt/gmt_local_tiles.py:126-181 | Tile2Geo(Geo2Tile(g)) == g for nonzero ppd and tile sizes |
| GmtLocalTiles.TileRoundTrip | pyslipqt/gmt_local_tiles.py:126-181 | Geo2Tile(Tile2Geo(t)) == t for nonzero ppd and tile sizes |
| GmtLocalTiles.TopLeftIsOrigin | pyslipqt/gmt_local_tiles.py:147-154 | (min_xgeo, max_ygeo) is tile (0, 0) |
| GmtLocalTiles.Geo2TileMonotone | pyslipqt/gmt_local_tiles.py:147-154 | for positive ppd, xtile grows with longitude and ytile falls with latitude |
| MakeGmtTiles.DetailFor | pySlipQt/examples/make_gmt_tiles.py:62-72 | 'l' for levels 0-2, 'i' for 3-5, 'h' for 6-8, 'f' for 9 and for any other level |
| MakeGmtTiles.ExtentIsSourceExtent | pySlipQt/examples/make_gmt_tiles.py:225 | the generator's extent is the GMT source's extent |
| MakeGmtTiles.TilesetInfo | pySlipQt/examples/make_gmt_tiles.py:275-284 | under exact arithmetic num_tiles_x = 2^(L+1) and num_tiles_y = 2^L; ppd_x = tile_size / d_lon and ppd_y = tile_size / d_lat |
| MakeGmtTiles.TilesetPpd | pySlipQt/examples/make_gmt_tiles.py:275-280 | tile_size / d_lon = tile_size * 2^(L+1) / (E - W) and tile_size / d_lat = tile_size * 2^L / (N - S): the level's pixels across over its degrees across |
| MakeGmtTiles.TileTask | pySlipQt/examples/make_gmt_tiles.py:306-316 | tile (x, y) spans w + x*d_lon to one d_lon further east, and n - y*d_lat to one d_lat further south |
| MakeGmtTiles.TilesShareEdges | pySlipQt/examples/make_gmt_tiles.py:309-312 | neighbouring tiles share their edges |
| MakeGmtTiles.TilesCoverExtent | pySlipQt/examples/make_gmt_tiles.py:309-312 | the first tile starts at (w, n) and the last ends at (e, s) |
| MakeGmtTiles.InfoMatchesGrid | pySlipQt/examples/make_gmt_tiles.py:279-280 | the GMT source, reading the info written, maps tile (num_tiles_x, num_tiles_y) to the extent's (e, s) corner |
| MakeGmtTiles.GridOrder | pySlipQt/examples/make_gmt_tiles.py:298-316 | Grid, the Columns of x = 0 to nx - 1 in turn, holds exactly nx*ny tasks, and tile (x, y) is task x*ny + y |
| MakeGmtTiles.WorkerStep | pySlipQt/examples/make_gmt_tiles.py:301-303 | one counter step wraps to 0 after NumberOfWorkers, so the counter stays in [0, NumberOfWorkers] |
| MakeGmtTiles.MakeTileset | pySlipQt/examples/make_gmt_tiles.py:260-322 | the queue gains exactly the level's grid in x-major order; the info is TilesetInfo; the worker counter is the task count modulo workers + 1 |
| MakeGmtTiles.QueueColumn | pySlipQt/examples/make_gmt_tiles.py:299-316 | the inner loop appends Column x, the tasks of rows 0 to ny - 1 in order, and advances the worker counter once per task |
| MakeGmtTiles.LevelTasksLevels | pySlipQt/examples/make_gmt_tiles.py:243-244 | every queued task belongs to one of the levels asked for |
| MakeGmtTiles.MakeGmtTiles | pySlipQt/examples/make_gmt_tiles.py:191-244 | the top info is (extent, (256, 256), water, land); an info is written exactly for the levels start to stop; a start above the stop queues nothing |
| MakeGmtTiles.ScanOptions | pySlipQt/examples/make_gmt_tiles.py:348-367 | a tile size kept is at least 1, and the loop only ever exits with 0 or 1 |
| MakeGmtTiles.ScanStep | pySlipQt/examples/make_gmt_tiles.py:351-367 | an option that is neither help nor a bad size moves on with updated settings; any other option exits, help with 0 |
| MakeGmtTiles.ScanGoes | pySlipQt/examples/make_gmt_tiles.py:351-367 | the loop runs to the end exactly when no option is help or a bad size |
| MakeGmtTiles.ScanHelp | pySlipQt/examples/make_gmt_tiles.py:351-367 | the loop exits 0 exactly when a help option comes before any bad size |
| MakeGmtTiles.ScanSize | pySlipQt/examples/make_gmt_tiles.py:352-358 | the tile size used is LastSize of the options, which LastSizeIsLast shows is the last -s/--size value |
| MakeGmtTiles.LastSizeIsLast | pySlipQt/examples/make_gmt_tiles.py:349-360 | the size left is the value of the last -s/--size option with an integer, none after it, or the starting size when there is no such option |
| MakeGmtTiles.Command | pySlipQt/examples/make_gmt_tiles.py:334-396 | getopt errors, a help option, bad sizes, a positional count other than 2 or 3, and non-integer or negative levels each exit as main does; otherwise it runs with start level default 0 and tile size default 256 |
| Placement.Amount | pyslipqt/test_assumptions.py:155-156 | the amount subtracted is none of a size, a half that doubles back to it, or all of it |
| Placement.PlaceByCompass | pyslipqt/test_assumptions.py:154-176 | for the nine codes the offsets are added and x then moves back by 0, w/2 or w (west, centre, east), y by 0, h/2 or h (north, middle, south); any other code returns (x, y) unchanged |
| Placement.NorthWestAddsOffsets | pyslipqt/test_assumptions.py:159-160 | 'nw' gives (x + x_off, y + y_off) |
| Placement.TableRow | pyslipqt/test_assumptions.py:124-132 | each of the nine table statements subtracts the share of w and h that the code's compass letters call for |
| Placement.ExecTableAgrees | pyslipqt/test_assumptions.py:124-135 | the exec table places all nine codes as the function does |
| Placement.FalsyKeysDoNothing | pyslipqt/test_assumptions.py:133-135 | None, False and '' are in the table and change nothing |
| Placement.ExecTableKeys | pyslipqt/test_assumptions.py:124-135 | the table's keys are the nine codes and the three falsy keys |
| Img2Py.ChunksRejoin | pyslipqt/examples/graphics/img2py.py:58-60 | the chunks concatenate back to the stripped data |
| Img2Py.ChunkSizes | pyslipqt/examples/graphics/img2py.py:17-60 | no chunk is empty, each has at most 60 characters, and all but the last have exactly 60 |
| Img2Py.WriteChunks | pyslipqt/examples/graphics/img2py.py:58-64 | the write loop emits QuoteAll of the chunks (each in double quotes after eight spaces) joined by newlines, with no newline after the last |
| Img2Py.WriteSource | pyslipqt/examples/graphics/img2py.py:55-66 | the file text is the header joined by newlines, the quoted chunks, then ')\n' |
| Img2Py.SourceShape | pyslipqt/examples/graphics/img2py.py:28-66 | the module defines `get_<name>_image()` on its third line and ends with ')\n' |
| Img2Py.Img2Py | pyslipqt/examples/graphics/img2py.py:20-66 | a missing input or an existing output exits 1 before anything is written; otherwise the module text is written to the output path |
| Img2Py.NameOptionIsLast | pyslipqt/examples/graphics/img2py.py:92-99 | the name left by the options loop is the value of some -n/--name option with none after it, or the starting name when there is no such option |
| Img2Py.Command | pyslipqt/examples/graphics/img2py.py:82-103 | a getopt error or a positional count other than 2 exits 1; help exits 0; the name is NameOption of the options, which NameOptionIsLast shows is the last -n/--name value, defaulting to 'Name' |
| ErrorDialog.Dialog | pySlipQt/examples/tkinter_error.py:59-70 | the title (Title) is the caller's or 'ERROR'; the label text has no '\r', is the stripped message framed by '   \n   ' on both ends, pads every newline with three spaces each side and has two newlines more than the stripped message |
| ErrorDialog.NoCarriageReturn | pyslipqt/tkinter_error.py:60 | the formatted message holds no '\r' |
| ErrorDialog.Framed | pyslipqt/tkinter_error.py:58-61 | the result is '   \n   ' + (the stripped message without '\r', each '\n' padded) + '   \n   ' |
| ErrorDialog.NewlineCount | pySlipQt/examples/tkinter_error.py:64-67 | the result has two more newlines than the stripped message |
| ErrorDialog.MessageNewlinesPadded | pySlipQt/examples/tkinter_error.py:64-67 | every newline has three spaces on each side |
| DemoSelect.PointSelectToggles | pyslipqt/pyslipqt_demo.py:761-798 | a repeated identical selection turns the highlight off and clears sel_point |
| DemoSelect.PointSelectShowsStripped | pySlipQt/examples/pyslipqt_demo.py:530-567 | a new non-empty selection is stored as made and shown without colour and radius |
| DemoSelect.PointSelectIgnoresEmpty | pySlipQt/examples/pyslipqt_demo.py:530-567 | an empty selection changes nothing |
| DemoSelect.PointViewReselectAsWritten | pySlipQt/examples/pyslipqt_demo.py:635-660 | as written, selecting the same points twice leaves them highlighted |
| DemoSelect.PointViewReselectTurnsOff | pyslipqt/pyslipqt_demo.py:857-859 | the next event always removes the highlight; only a different non-empty selection gets a new one |
| DemoSelect.Demo.constructor | pyslipqt/pyslipqt_demo.py:197-200 | no handlers, no layers and no selections |
| DemoSelect.Demo.AddPointLayer | pySlipQt/examples/pyslipqt_demo.py:557-562 | the widget adds one layer under a fresh id and changes nothing else |
| DemoSelect.Demo.AddSelectHandler | pyslipqt/pyslipqt_demo.py:2039-2042 | inserts or overwrites one layer's handler, so HandlerFor (the handler select events of that layer are dispatched to) gives it; other layers keep theirs |
| DemoSelect.Demo.DelSelectHandler | pySlipQt/examples/pyslipqt_demo.py:1858-1861 | removes the handler so HandlerFor gives null_handler for the layer's events; KeyError with nothing changed for an unregistered id |
| DemoSelect.Demo.PointSelect | pyslipqt/pyslipqt_demo.py:761-798 | the selection and highlight follow PointSelectStep; only this handler's layer is deleted or added (blue for single, cyan for box, radius 5) |
| DemoSelect.Demo.PointViewSelectAsWritten | pySlipQt/examples/pyslipqt_demo.py:635-660 | follows PointViewStepAsWritten: the stored selection has its attributes stripped |
| DemoSelect.Demo.PointViewSelect | pyslipqt/pyslipqt_demo.py:857-887 | follows PointViewStep: the previous highlight always goes, and only a new non-empty selection is stored and highlighted |
| DemoSelect.Demo.TextSelectPoints | pySlipQt/examples/pyslipqt_demo.py:988-1009 | the previous highlight always goes; a non-empty selection is shown without colour, radius and offsets |
| DemoSelect.Demo.TextSelectTexts | pyslipqt/pyslipqt_demo.py:1200-1227 | sel_text and its highlight are cleared, then any non-empty selection is recorded and highlighted |
| DemoTilesets.PyIndex | pySlipQt/examples/pyslipqt_demo.py:190-191 | list indexing accepts -n <= i < n and raises IndexError otherwise |
| DemoTilesets.FreshEntry | pySlipQt/examples/pyslipqt_demo.py:182 | an entry is [fname, fname without extension, None] |
| DemoTilesets.TilesetManager.constructor | pySlipQt/examples/pyslipqt_demo.py:170-182 | one fresh entry per module name, in order |
| DemoTilesets.TilesetManager.GetTileSource | pySlipQt/examples/pyslipqt_demo.py:184-198 | the entry's object is created on the first call and stored; later calls return the same object; no other entry changes |
| DemoTilesets.TilesetMenu.InitMenu | pySlipQt/examples/pyslipqt_demo.py:371-394 | one entry per tileset under its position, no objects yet, and only the default tileset checked |
| DemoTilesets.TilesetMenu.ChangeTileset | pySlipQt/examples/pyslipqt_demo.py:408-434 | afterwards exactly the action for menu_id is checked; an unknown id raises RuntimeError; otherwise the object is created once, cached in id2tiledata and handed to the widget |
| DebugOption.LastDebug | pyslipqt/pyslipqt_demo.py:2118-2120 | the last -d/--debug value wins |
| DebugOption.DebugLevel | pySlipQt/examples/pyslipqt_demo.py:1935-1944 | a symbolic level is one of LogSym2Num's six numbers |
| DebugOption.NumericLevel | pySlipQt/examples/pyslipqt_demo.py:1936-1937 | any integer string is taken as it is, with no range check |
| DebugOption.NamedLevel | pyslipqt/pyslipqt_demo.py:2125-2134 | a LogSym2Num name in any letter case, "debug" as much as "DEBUG", gives its level |
| DebugOption.HandleOptions | pySlipQt/examples/pyslipqt_demo.py:1918-1945 | a getopt error exits 1; help exits 0; the level is 10 by default, else the converted last -d, and an unknown name exits 1 |

## Left out

- Worker threads, `urlopen` and the firewall/proxy probe, the request-queue consumers and QTimer callbacks: this is I/O and concurrency. Only the queue and `queued_requests` bookkeeping is modelled.
- The disk cache (`_get_from_back`, `_put_to_back`, directory creation, pickled info files) and the `pycacheback` LRU. The cache is one map (`SlipTiles`) or a memory map and a disk map (`NetTiles`). Tile dates and "on disk" are inputs. The `OSError` that `getctime` would raise for a tile held only in memory is not modelled.
- `SlipTiles.BaseTiles.SetAvailableCallback` and the widget's `setCallback(self.update)` call: they only store a callback that the model never calls.
- Mercator `Geo2Tile`/`Tile2Geo` of the internet tile sources: they use transcendental floating point.
- Floating point in general: the GMT geometry is over exact reals, so `int()` truncation of the tile counts, `'%f'` formatting and `math.pow` overflow are not modelled.
- The GMT processes, `multiprocessing`, temporary directories and the output file names. `NumberOfWorkers` is a parameter. UseTopo and Verbose are only recorded. The generator writes level directories as `'%02d'` while the reader reads `'%d'`; file layout is not part of the model.
- MakeGmtTiles.MakeGmtTiles: the top-level info records DefaultTileSize, as the source does, not the chosen size.
- The Qt widgets, painting, the repaint requests, prints and the Tk dialog. The widget layer API (`AddPointLayer`, `DeleteLayer`) is a map of layer ids to layers. Z-order calls (`PlaceLayerBelowLayer`) and every other widget call are left out.
- Dynamic imports (`__import__`, `exec`): a tile source is an object that records its module name. Instantiation cannot fail in the model.
- The base64 shell command of `img2py`: its output is a parameter.
- The wall-clock timing tests of `test_assumptions.py` and packaging.
- Unicode case mapping: `upper`/`lower` cover ASCII, plus the two non-ASCII characters whose upper case is an ASCII capital.
- PyText.ParseInt: Python's `int()` also accepts the non-ASCII Unicode decimal digits (Arabic-Indic, Devanagari, fullwidth and others), but the model accepts only ASCII '0'-'9'. A debug level (`DebugOption.DebugLevel`, `DebugOption.NumericLevel`) or a `make_gmt_tiles` `-s`/level argument written in such digits is read as a number by the source and as an error or a name by the model.
- SlipWidget.PySlipQt.MouseMove: `num_tiles_x`/`num_tiles_y` exist only after the first `use_level`. The model starts them at 0 and requires a positive count before a wrapped drag instead of raising AttributeError.
- SlipWidget.PySlipQt.Paint: requires positive tile sizes: on a wrapping axis the source's loops would not end, and on a non-wrapping axis the model also excludes a size the source tolerates (its loop breaks at the last tile whatever the size). It also requires a key tile inside the map when a modulo by the tile count is reached.
- SlipWidget.PySlipQt.Paint: before the first `use_level` the model's tile counts are 0 where the source has no `num_tiles_x`/`num_tiles_y` at all (pyslipqt/pyslipqt.py:258 and 268 would raise AttributeError), so the requires on a usable count excludes a wrapping axis in that state, including the painting of an empty view, which does nothing in the source.
- NetTiles.Tiles.SetAgeThresholdDaysAsWritten: the write of the module global RefreshTilesAfterDays (pySlipQt/tiles_net.py:460-461) is not modelled; nothing reads it afterwards, since the constructor's default `refetch_days=RefreshTilesAfterDays` (line 142) was fixed when the class was defined. The pyslipqt/tiles.py version, whose constructor does read the global, models the write.
- The plain BaseTiles of `pyslipqt/tiles.py` has no `wrap_x`/`wrap_y` attributes; the model gives it False.
- DemoSelect.Demo.PointSelect: the `del` of colour and radius needs every selected point to have them, which is a requires here; the widget always supplies them. The same holds for the other select handlers.
- An event whose selection is None is modelled by the empty selection, which the handlers treat the same way. Layer ids are taken to be non-zero.
- The `-d` option's `usage()` printing, and the demo windows themselves.

## Findings

| source | as written | input that shows it | evidently intended | confidence | as-written member | corrected member |
|---|---|---|---|---|---|---|
| pyslipqt/tiles.py:545-560 | `rerequest_age = now - num_days*86400` for every num_days | `SetAgeThresholdDays(0)`, then GetTile of a cached tile dated one second earlier: the tile is stale and re-requested | the docstring: 0 inhibits refetching | not executed | SlipTiles.BaseTiles.SetAgeThresholdDaysAsWritten, SlipTiles.ZeroDaysStillStale | SlipTiles.BaseTiles.SetAgeThresholdDays |
| pySlipQt/tiles_net.py:451-466 | the same formula, always setting a threshold | `SetAgeThresholdDays(0)` at a non-zero time, then GetTile of a tile on disk created one second earlier: it is re-requested | the docstring: 0 inhibits refetching, as the constructor's `if refetch_days:` does | not executed | NetTiles.Tiles.SetAgeThresholdDaysAsWritten, NetTiles.ZeroDaysStillRefetches | NetTiles.Tiles.SetAgeThresholdDays |
| pyslipqt/tiles.py:512 | `bitmap = image.ConvertToBitmap()`, a wxPython method, called on the QPixmap that TileWorker.run (pyslipqt/tiles.py:103-115) delivers | any tile fetched from a server: AttributeError is raised before `_cache_tile` and before the key leaves `queued_requests`, so the tile is never cached and never requested again | cache the delivered tile and forget the request, as the comments there say and as `tile_is_available` of pySlipQt/tiles_net.py:421-441 does | not executed | SlipTiles.BaseTiles.TileAvailableAsWritten, SlipWidget.TileLostAsWritten | SlipTiles.BaseTiles.TileAvailable, SlipWidget.TileShownAfterDelivery |
| pySlipQt/examples/pyslipqt_demo.py:643-650 | `sel_point_view = event.selection` stores the selection by reference, and the highlight loop then deletes colour and radius from those same points (pyslipqt/pyslipqt_demo.py:870-876 does the same) | the same non-empty selection of points carrying colour and radius, twice: the second click highlights again | the docstring: after a click turns the highlight on, any other select event turns it off (pointSelect stores a deep copy for this reason) | not executed | DemoSelect.PointViewReselectAsWritten, DemoSelect.Demo.PointViewSelectAsWritten | DemoSelect.PointViewReselectTurnsOff, DemoSelect.Demo.PointViewSelect |
