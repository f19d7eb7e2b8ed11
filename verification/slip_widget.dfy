/** pyslipqt/pyslipqt.py: the PySlipQt widget's tile layout. The view is
    placed over the tiles by a "key" tile: the tile column and row drawn at
    the view's top-left, and the view offset (zero or negative) at which
    that tile starts. Dragging moves the key tile; painting lists the tile
    columns and rows that cover the view. Qt painting, the update()
    repaint request and the button prints are outside the model. */
module SlipWidget {
  import opened PyText
  import opened TileCommon
  import SlipTiles
  import opened TileLayout

  /** One tile drawn: its view position, its column and row, and the image
      the tile source gave for it. */
  datatype Draw = Draw(x: int, y: int, col: int, row: int, image: Image)

  /** The tile drawn at view position (x, y) for column col and row row:
      the cached tile of the level, or the pending tile while it is being
      fetched. */
  function TileDraw(x: int, y: int, level: int, col: int, row: int, cache: map<Key, Image>, pending: Image): Draw
  {
    Draw(x, y, col, row, if (level, col, row) in cache then cache[(level, col, row)] else pending)
  }

  /** The tiles of one column as paintEvent draws them: column col at view
      x position xPix, one tile per row, a tile height apart from the key
      tile's y offset. */
  function ColumnDraws(xPix: int, yOffset: int, tileHeight: int, level: int, col: int, rows: seq<int>,
                       cache: map<Key, Image>, pending: Image): (column: seq<Draw>)
    ensures |column| == |rows|
  {
    seq(|rows|, j requires 0 <= j < |rows| => TileDraw(xPix, yOffset + j * tileHeight, level, col, rows[j], cache, pending))
  }

  /** Row j of a column is drawn j tile heights below the first, with the
      cached tile of (level, col, rows[j]) or the pending tile. */
  lemma ColumnDrawsAt(xPix: int, yOffset: int, tileHeight: int, level: int, col: int, rows: seq<int>,
                      cache: map<Key, Image>, pending: Image, j: int)
    requires 0 <= j < |rows|
    ensures ColumnDraws(xPix, yOffset, tileHeight, level, col, rows, cache, pending)[j] ==
      TileDraw(xPix, yOffset + j * tileHeight, level, col, rows[j], cache, pending)
  {
  }

  /** Drawing one more row appends that row's tile, j tile heights below
      the first. */
  lemma ColumnDrawsStep(xPix: int, yOffset: int, tileHeight: int, level: int, col: int, rows: seq<int>,
                        cache: map<Key, Image>, pending: Image, j: int)
    requires 0 <= j < |rows|
    ensures ColumnDraws(xPix, yOffset, tileHeight, level, col, rows[..j + 1], cache, pending) ==
      ColumnDraws(xPix, yOffset, tileHeight, level, col, rows[..j], cache, pending) +
      [TileDraw(xPix, yOffset + j * tileHeight, level, col, rows[j], cache, pending)]
  {
    var longer := ColumnDraws(xPix, yOffset, tileHeight, level, col, rows[..j + 1], cache, pending);
    var shorter := ColumnDraws(xPix, yOffset, tileHeight, level, col, rows[..j], cache, pending);
    forall b | 0 <= b <= j
      ensures longer[b] == (shorter + [TileDraw(xPix, yOffset + j * tileHeight, level, col, rows[j], cache, pending)])[b]
    {
      ColumnDrawsAt(xPix, yOffset, tileHeight, level, col, rows[..j + 1], cache, pending, b);
      if b < j {
        ColumnDrawsAt(xPix, yOffset, tileHeight, level, col, rows[..j], cache, pending, b);
      }
    }
  }

  /** The tiles of a run of columns as paintEvent draws them: the first
      column at view x position xPix, each further column a tile width to
      the right. */
  function Canvas(xPix: int, tileWidth: int, yOffset: int, tileHeight: int, level: int, cols: seq<int>,
                  rows: seq<int>, cache: map<Key, Image>, pending: Image): (canvas: seq<seq<Draw>>)
    ensures |canvas| == |cols|
    decreases |cols|
  {
    if cols == [] then []
    else [ColumnDraws(xPix, yOffset, tileHeight, level, cols[0], rows, cache, pending)] +
         Canvas(xPix + tileWidth, tileWidth, yOffset, tileHeight, level, cols[1..], rows, cache, pending)
  }

  /** Drawing column i extends the drawn columns towards the canvas by
      one: what is left is the canvas from column i + 1 on, a tile width
      further right. */
  lemma CanvasStep(drawn: seq<seq<Draw>>, column: seq<Draw>, xPix: int, tileWidth: int, yOffset: int,
                   tileHeight: int, level: int, cols: seq<int>, i: int, rows: seq<int>, cache: map<Key, Image>,
                   pending: Image, canvas: seq<seq<Draw>>)
    requires 0 <= i < |cols|
    requires drawn + Canvas(xPix, tileWidth, yOffset, tileHeight, level, cols[i..], rows, cache, pending) == canvas
    requires column == ColumnDraws(xPix, yOffset, tileHeight, level, cols[i], rows, cache, pending)
    ensures (drawn + [column]) +
      Canvas(xPix + tileWidth, tileWidth, yOffset, tileHeight, level, cols[i + 1..], rows, cache, pending) == canvas
  {
    assert cols[i..][1..] == cols[i + 1..];
  }

  /** Column i of the canvas is drawn i tile widths right of the first. */
  lemma {:induction false} CanvasAt(xPix: int, tileWidth: int, yOffset: int, tileHeight: int, level: int,
                                    cols: seq<int>, rows: seq<int>, cache: map<Key, Image>, pending: Image, i: int)
    requires 0 <= i < |cols|
    ensures Canvas(xPix, tileWidth, yOffset, tileHeight, level, cols, rows, cache, pending)[i] ==
      ColumnDraws(xPix + i * tileWidth, yOffset, tileHeight, level, cols[i], rows, cache, pending)
    decreases i
  {
    if i > 0 {
      CanvasAt(xPix + tileWidth, tileWidth, yOffset, tileHeight, level, cols[1..], rows, cache, pending, i - 1);
      assert xPix + tileWidth + (i - 1) * tileWidth == xPix + i * tileWidth;
    }
  }

  /** Whether GetTile on a source with servers requests the tile: it is
      missing from the cache, or cached but older than the refetch
      threshold. */
  predicate Wanted(key: Key, cache: map<Key, Image>, age: real, tileDate: Key -> real) {
    key !in cache || SlipTiles.Stale(age, tileDate(key))
  }

  /** The request bookkeeping after GetTile of every row of column col, in
      row order, on a source with servers. */
  function ColumnRequests(p: Requests, level: int, col: int, rows: seq<int>, cache: map<Key, Image>,
                          age: real, tileDate: Key -> real): Requests
    decreases |rows|
  {
    if rows == [] then p
    else
      var before := ColumnRequests(p, level, col, rows[..|rows| - 1], cache, age, tileDate);
      var key := (level, col, rows[|rows| - 1]);
      if Wanted(key, cache, age, tileDate) then Enqueue(before, key) else before
  }

  /** The request bookkeeping after GetTile of every tile of the canvas,
      column after column, on a source with servers. */
  function CanvasRequests(p: Requests, level: int, cols: seq<int>, rows: seq<int>, cache: map<Key, Image>,
                          age: real, tileDate: Key -> real): Requests
    decreases |cols|
  {
    if cols == [] then p
    else ColumnRequests(CanvasRequests(p, level, cols[..|cols| - 1], rows, cache, age, tileDate),
                        level, cols[|cols| - 1], rows, cache, age, tileDate)
  }

  /** Drawing one more row requests that row's tile if it is wanted. */
  lemma ColumnRequestsStep(p: Requests, level: int, col: int, rows: seq<int>, j: int,
                           cache: map<Key, Image>, age: real, tileDate: Key -> real)
    requires 0 <= j < |rows|
    ensures ColumnRequests(p, level, col, rows[..j + 1], cache, age, tileDate) ==
      var before := ColumnRequests(p, level, col, rows[..j], cache, age, tileDate);
      if Wanted((level, col, rows[j]), cache, age, tileDate) then Enqueue(before, (level, col, rows[j])) else before
  {
    assert rows[..j + 1][..j] == rows[..j];
  }

  /** Drawing one more column adds that column's requests. */
  lemma CanvasRequestsStep(p: Requests, level: int, cols: seq<int>, i: int, rows: seq<int>,
                           cache: map<Key, Image>, age: real, tileDate: Key -> real)
    requires 0 <= i < |cols|
    ensures CanvasRequests(p, level, cols[..i + 1], rows, cache, age, tileDate) ==
      ColumnRequests(CanvasRequests(p, level, cols[..i], rows, cache, age, tileDate), level, cols[i], rows, cache, age, tileDate)
  {
    assert cols[..i + 1][..i] == cols[..i];
  }

  /** Every tile of column col in the rows is in the cache. */
  predicate ColumnCached(level: int, col: int, rows: seq<int>, cache: map<Key, Image>) {
    forall w :: w in rows ==> (level, col, w) in cache
  }

  /** Every tile of the listed columns and rows is in the cache. */
  predicate CanvasCached(level: int, cols: seq<int>, rows: seq<int>, cache: map<Key, Image>) {
    forall c :: c in cols ==> ColumnCached(level, c, rows, cache)
  }

  /** The canvas is cached up to one more column exactly when it is cached
      up to the column before and that column is cached. */
  lemma CanvasCachedStep(level: int, cols: seq<int>, i: int, rows: seq<int>, cache: map<Key, Image>)
    requires 0 <= i < |cols|
    ensures CanvasCached(level, cols[..i + 1], rows, cache) <==>
      CanvasCached(level, cols[..i], rows, cache) && ColumnCached(level, cols[i], rows, cache)
  {
    assert cols[..i + 1] == cols[..i] + [cols[i]];
  }

  /** A column with a missing tile leaves the canvas with one. */
  lemma MissingColumn(level: int, cols: seq<int>, i: int, rows: seq<int>, cache: map<Key, Image>)
    requires 0 <= i < |cols| && !ColumnCached(level, cols[i], rows, cache)
    ensures !CanvasCached(level, cols, rows, cache)
  {
    assert cols[i] in cols;
  }

  /** Drawing a column only adds requests at the end of the queue, and
      afterwards exactly the tiles already outstanding and the wanted
      tiles of the column are outstanding. */
  lemma {:induction false} ColumnRequestsQueued(p: Requests, level: int, col: int, rows: seq<int>,
                                                cache: map<Key, Image>, age: real, tileDate: Key -> real, key: Key)
    ensures p.queue <= ColumnRequests(p, level, col, rows, cache, age, tileDate).queue
    ensures key in ColumnRequests(p, level, col, rows, cache, age, tileDate).queued <==>
      key in p.queued || (key.0 == level && key.1 == col && key.2 in rows && Wanted(key, cache, age, tileDate))
    decreases |rows|
  {
    if rows != [] {
      var init := rows[..|rows| - 1];
      ColumnRequestsQueued(p, level, col, init, cache, age, tileDate, key);
      assert rows == init + [rows[|rows| - 1]];
    }
  }

  /** Drawing a column keeps the queue free of duplicates. */
  lemma {:induction false} ColumnRequestsConsistent(p: Requests, level: int, col: int, rows: seq<int>,
                                                    cache: map<Key, Image>, age: real, tileDate: Key -> real)
    requires Consistent(p)
    ensures Consistent(ColumnRequests(p, level, col, rows, cache, age, tileDate))
    decreases |rows|
  {
    if rows != [] {
      var before := ColumnRequests(p, level, col, rows[..|rows| - 1], cache, age, tileDate);
      ColumnRequestsConsistent(p, level, col, rows[..|rows| - 1], cache, age, tileDate);
      EnqueueConsistent(before, (level, col, rows[|rows| - 1]));
    }
  }

  /** Painting only adds requests at the end of the queue, and afterwards
      exactly the tiles already outstanding and the wanted tiles of the
      listed columns and rows are outstanding. */
  lemma {:induction false} CanvasRequestsQueued(p: Requests, level: int, cols: seq<int>, rows: seq<int>,
                                                cache: map<Key, Image>, age: real, tileDate: Key -> real, key: Key)
    ensures p.queue <= CanvasRequests(p, level, cols, rows, cache, age, tileDate).queue
    ensures key in CanvasRequests(p, level, cols, rows, cache, age, tileDate).queued <==>
      key in p.queued || (key.0 == level && key.1 in cols && key.2 in rows && Wanted(key, cache, age, tileDate))
    decreases |cols|
  {
    if cols != [] {
      var init := cols[..|cols| - 1];
      var before := CanvasRequests(p, level, init, rows, cache, age, tileDate);
      CanvasRequestsQueued(p, level, init, rows, cache, age, tileDate, key);
      ColumnRequestsQueued(before, level, cols[|cols| - 1], rows, cache, age, tileDate, key);
      assert cols == init + [cols[|cols| - 1]];
    }
  }

  /** Painting keeps the queue free of duplicates. */
  lemma {:induction false} CanvasRequestsConsistent(p: Requests, level: int, cols: seq<int>, rows: seq<int>,
                                                    cache: map<Key, Image>, age: real, tileDate: Key -> real)
    requires Consistent(p)
    ensures Consistent(CanvasRequests(p, level, cols, rows, cache, age, tileDate))
    decreases |cols|
  {
    if cols != [] {
      var before := CanvasRequests(p, level, cols[..|cols| - 1], rows, cache, age, tileDate);
      CanvasRequestsConsistent(p, level, cols[..|cols| - 1], rows, cache, age, tileDate);
      ColumnRequestsConsistent(before, level, cols[|cols| - 1], rows, cache, age, tileDate);
    }
  }

  /** As written, the delivery of a requested tile changes nothing (see
      SlipTiles.BaseTiles.TileAvailableAsWritten): the tile stays missing,
      so every later paint shows the pending tile, and it stays
      outstanding, so no paint requests it again. */
  lemma TileLostAsWritten(p: Requests, level: int, col: int, row: int, cache: map<Key, Image>,
                          age: real, tileDate: Key -> real, pending: Image, x: int, y: int)
    requires (level, col, row) !in cache
    ensures var requested := ColumnRequests(p, level, col, [row], cache, age, tileDate);
      (level, col, row) in requested.queued &&
      TileDraw(x, y, level, col, row, cache, pending).image == pending &&
      ColumnRequests(requested, level, col, [row], cache, age, tileDate) == requested
  {
    assert [row][..0] == [];
  }

  /** With the delivery SlipTiles.BaseTiles.TileAvailable describes, the
      next paint shows the delivered tile, and the tile is no longer
      outstanding, so it can be requested again once it is stale. */
  lemma TileShownAfterDelivery(p: Requests, level: int, col: int, row: int, cache: map<Key, Image>,
                               age: real, tileDate: Key -> real, pending: Image, image: Image, x: int, y: int)
    requires SlipTiles.Stale(age, tileDate((level, col, row)))
    ensures var requested := ColumnRequests(p, level, col, [row], cache, age, tileDate);
      var delivered := Requests(requested.queue, requested.queued - {(level, col, row)});
      var cache' := cache[(level, col, row) := image];
      TileDraw(x, y, level, col, row, cache', pending).image == image &&
      (level, col, row) in ColumnRequests(delivered, level, col, [row], cache', age, tileDate).queued &&
      (level, col, row) !in delivered.queued
  {
    assert [row][..0] == [];
  }

  /** A mouse button as Qt reports it. */
  datatype Button = NoButton | LeftButton | MidButton | RightButton | OtherButton

  /** `if self.start_drag_x:`: a drag start at x = 0 does not count. */
  predicate DragStarted(startDrag: Option<(int, int)>) {
    startDrag.Some? && startDrag.value.0 != 0
  }

  class PySlipQt {
    const tileSrc: SlipTiles.BaseTiles
    const minLevel: int
    const maxLevel: int
    const tileSizeX: int
    const tileSizeY: int
    var level: int
    var viewWidth: int
    var viewHeight: int
    /** The tile counts of the level in use; 0 until a level is used. */
    var numTilesX: int
    var numTilesY: int
    var keyTileLeft: int
    var keyTileTop: int
    var keyTileXOffset: int
    var keyTileYOffset: int
    var leftButtonDown: bool
    var midButtonDown: bool
    var rightButtonDown: bool
    /** (start_drag_x, start_drag_y), None when no drag is recorded. */
    var startDrag: Option<(int, int)>

    /** The key tile and its offsets. */
    function Key(): (int, int, int, int)
      reads this
    {
      (keyTileLeft, keyTileTop, keyTileXOffset, keyTileYOffset)
    }

    /** The level, tile counts and view size. */
    function Layout(): (int, int, int, int, int)
      reads this
    {
      (level, numTilesX, numTilesY, viewWidth, viewHeight)
    }

    /** The button flags and the drag start. */
    function Mouse(): (bool, bool, bool, Option<(int, int)>)
      reads this
    {
      (leftButtonDown, midButtonDown, rightButtonDown, startDrag)
    }

    constructor (tileSrc: SlipTiles.BaseTiles, startLevel: int)
      requires tileSrc.levels != []
      ensures this.tileSrc == tileSrc && level == startLevel
      ensures maxLevel == SeqMax(tileSrc.levels) && minLevel == SeqMin(tileSrc.levels)
      ensures tileSizeX == tileSrc.tileSizeX && tileSizeY == tileSrc.tileSizeY
      ensures Key() == (0, 0, 0, 0) && Mouse() == (false, false, false, None)
      ensures viewWidth == 0 && viewHeight == 0 && numTilesX == 0 && numTilesY == 0
    {
      this.tileSrc := tileSrc;
      level := startLevel;
      viewWidth, viewHeight := 0, 0;
      maxLevel := SeqMax(tileSrc.levels);
      minLevel := SeqMin(tileSrc.levels);
      tileSizeX, tileSizeY := tileSrc.tileSizeX, tileSrc.tileSizeY;
      numTilesX, numTilesY := 0, 0;
      keyTileLeft, keyTileTop, keyTileXOffset, keyTileYOffset := 0, 0, 0, 0;
      leftButtonDown, midButtonDown, rightButtonDown := false, false, false;
      startDrag := None;
    }

    /** mousePressEvent: the pressed button's flag is set. */
    method MousePress(b: Button)
      modifies this
      ensures leftButtonDown == (old(leftButtonDown) || b == LeftButton)
      ensures midButtonDown == (old(midButtonDown) || b == MidButton)
      ensures rightButtonDown == (old(rightButtonDown) || b == RightButton)
      ensures startDrag == old(startDrag) && Key() == old(Key()) && Layout() == old(Layout())
    {
      match b
      case LeftButton => leftButtonDown := true;
      case MidButton => midButtonDown := true;
      case RightButton => rightButtonDown := true;
      case _ =>
    }

    /** mouseReleaseEvent: the released button's flag is cleared, and
        releasing the left button also ends any drag. */
    method MouseRelease(b: Button)
      modifies this
      ensures leftButtonDown == (old(leftButtonDown) && b != LeftButton)
      ensures midButtonDown == (old(midButtonDown) && b != MidButton)
      ensures rightButtonDown == (old(rightButtonDown) && b != RightButton)
      ensures startDrag == if b == LeftButton then None else old(startDrag)
      ensures Key() == old(Key()) && Layout() == old(Layout())
    {
      match b
      case LeftButton =>
        leftButtonDown := false;
        startDrag := None;
      case MidButton => midButtonDown := false;
      case RightButton => rightButtonDown := false;
      case _ =>
    }

    /** mouseMoveEvent at (x, y). With the left button down the position
        becomes the drag start; if a drag was already under way, each
        wrapping axis moves its key tile by the drag distance and
        normalises it, and a non-wrapping axis is left alone. */
    method MouseMove(x: int, y: int)
      requires leftButtonDown && DragStarted(startDrag) && tileSrc.wrapX ==> tileSizeX > 0 && numTilesX > 0
      requires leftButtonDown && DragStarted(startDrag) && tileSrc.wrapY ==> tileSizeY > 0 && numTilesY > 0
      modifies this
      ensures !old(leftButtonDown) ==> unchanged(this)
      ensures old(leftButtonDown) ==> startDrag == Some((x, y))
      ensures var moving := old(leftButtonDown) && DragStarted(old(startDrag));
        if moving && tileSrc.wrapX then
          var off := old(keyTileXOffset) - (old(startDrag).value.0 - x);
          keyTileXOffset == NormalOffset(off, tileSizeX) &&
          keyTileLeft == if keyTileXOffset == off then old(keyTileLeft)
                         else (old(keyTileLeft) + Steps(off, tileSizeX)) % old(numTilesX)
        else keyTileXOffset == old(keyTileXOffset) && keyTileLeft == old(keyTileLeft)
      ensures var moving := old(leftButtonDown) && DragStarted(old(startDrag));
        if moving && tileSrc.wrapY then
          var off := old(keyTileYOffset) - (old(startDrag).value.1 - y);
          keyTileYOffset == NormalOffset(off, tileSizeY) &&
          keyTileTop == if keyTileYOffset == off then old(keyTileTop)
                        else (old(keyTileTop) + Steps(off, tileSizeY)) % old(numTilesY)
        else keyTileYOffset == old(keyTileYOffset) && keyTileTop == old(keyTileTop)
      ensures Layout() == old(Layout())
      ensures leftButtonDown == old(leftButtonDown) && midButtonDown == old(midButtonDown) &&
              rightButtonDown == old(rightButtonDown)
    {
      if !leftButtonDown {
        return;
      }
      if DragStarted(startDrag) {
        var deltaX := startDrag.value.0 - x;
        var deltaY := startDrag.value.1 - y;
        if tileSrc.wrapX {
          keyTileLeft, keyTileXOffset := Normalise(keyTileLeft, keyTileXOffset - deltaX, tileSizeX, numTilesX);
        }
        if tileSrc.wrapY {
          keyTileTop, keyTileYOffset := Normalise(keyTileTop, keyTileYOffset - deltaY, tileSizeY, numTilesY);
        }
      }
      startDrag := Some((x, y));
    }

    /** resizeEvent: the view takes the widget's new size. */
    method Resize(width: int, height: int)
      modifies this
      ensures viewWidth == width && viewHeight == height
      ensures level == old(level) && numTilesX == old(numTilesX) && numTilesY == old(numTilesY)
      ensures Key() == old(Key()) && Mouse() == old(Mouse())
    {
      viewWidth, viewHeight := width, height;
    }

    /** use_level(level): the tile source decides; on success the widget
        takes the level and the source's tile counts for it, otherwise
        nothing changes. */
    method UseLevel(lvl: int) returns (ok: bool)
      requires tileSrc.Valid()
      modifies this, tileSrc
      ensures tileSrc.Valid()
      ensures ok <==> tileSrc.InfoFor(lvl).Some?
      ensures ok ==> level == lvl && numTilesX == tileSrc.InfoFor(lvl).value.numTilesX &&
                     numTilesY == tileSrc.InfoFor(lvl).value.numTilesY && tileSrc.level == lvl
      ensures !ok ==> unchanged(this) && unchanged(tileSrc)
      ensures viewWidth == old(viewWidth) && viewHeight == old(viewHeight)
      ensures Key() == old(Key()) && Mouse() == old(Mouse())
    {
      ok := tileSrc.UseLevel(lvl);
      if ok {
        level := lvl;
        var info := tileSrc.GetInfo(lvl);
        numTilesX, numTilesY := info.value.numTilesX, info.value.numTilesY;
      }
    }

    /** wheelEvent: a wheel turned towards the user (negative delta) asks
        for the next level in, any other turn for the next level out. */
    method Wheel(deltaY: int) returns (ok: bool)
      requires tileSrc.Valid()
      modifies this, tileSrc
      ensures var want := if deltaY < 0 then old(level) + 1 else old(level) - 1;
        (ok <==> tileSrc.InfoFor(want).Some?) && (ok ==> level == want) && (!ok ==> unchanged(this))
      ensures tileSrc.Valid()
    {
      var newLevel := if deltaY < 0 then level + 1 else level - 1;
      ok := UseLevel(newLevel);
    }

    /** paintEvent, given the creation date of each tile's file: the
        columns and rows covering the view, then every (column, row) tile
        fetched from the source and drawn a tile width and height apart,
        starting at the key tile's offset. A source with servers always
        paints, and requests each missing or stale tile in drawing order;
        a local source requests nothing and fails (None, the KeyError of
        GetTile) exactly when a listed tile is missing from its cache. */
    method Paint(tileDate: Key -> real) returns (r: Option<seq<seq<Draw>>>)
      requires tileSrc.tileSizeX > 0 && tileSrc.tileSizeY > 0
      requires ListDefined(keyTileLeft, numTilesX, tileSrc.wrapX)
      requires ListDefined(keyTileTop, numTilesY, tileSrc.wrapY)
      modifies tileSrc
      ensures r.Some? ==> (r.value ==
        Canvas(keyTileXOffset, tileSizeX, keyTileYOffset, tileSizeY, tileSrc.level,
               Columns(keyTileLeft, keyTileXOffset, viewWidth, numTilesX, tileSrc.tileSizeX, tileSrc.wrapX),
               Columns(keyTileTop, keyTileYOffset, viewHeight, numTilesY, tileSrc.tileSizeY, tileSrc.wrapY),
               tileSrc.cache, tileSrc.pendingTile))
      ensures tileSrc.servers.Some? ==> (r.Some? && tileSrc.Pending() ==
        CanvasRequests(old(tileSrc.Pending()), tileSrc.level,
                       Columns(keyTileLeft, keyTileXOffset, viewWidth, numTilesX, tileSrc.tileSizeX, tileSrc.wrapX),
                       Columns(keyTileTop, keyTileYOffset, viewHeight, numTilesY, tileSrc.tileSizeY, tileSrc.wrapY),
                       tileSrc.cache, tileSrc.rerequestAge, tileDate))
      ensures tileSrc.servers.None? ==> (tileSrc.Pending() == old(tileSrc.Pending()) &&
        (r.None? <==> !CanvasCached(tileSrc.level,
                         Columns(keyTileLeft, keyTileXOffset, viewWidth, numTilesX, tileSrc.tileSizeX, tileSrc.wrapX),
                         Columns(keyTileTop, keyTileYOffset, viewHeight, numTilesY, tileSrc.tileSizeY, tileSrc.wrapY),
                         tileSrc.cache)))
      ensures tileSrc.View() == old(tileSrc.View()) && tileSrc.cache == old(tileSrc.cache)
      ensures tileSrc.rerequestAge == old(tileSrc.rerequestAge)
    {
      var cols := TileList(keyTileLeft, keyTileXOffset, viewWidth, numTilesX, tileSrc.tileSizeX, tileSrc.wrapX);
      var rows := TileList(keyTileTop, keyTileYOffset, viewHeight, numTilesY, tileSrc.tileSizeY, tileSrc.wrapY);
      r := DrawCanvas(cols, rows, tileDate);
    }

    /** The outer loop of paintEvent: the columns in cols, one after the
        other, a tile width apart from the key tile's offset. A source with
        servers draws them all and requests their wanted tiles; a local
        source stops at its first missing tile (None), which happens
        exactly when one of the tiles is missing. */
    method DrawCanvas(cols: seq<int>, rows: seq<int>, tileDate: Key -> real) returns (r: Option<seq<seq<Draw>>>)
      modifies tileSrc
      ensures r.Some? ==> (r.value ==
        Canvas(keyTileXOffset, tileSizeX, keyTileYOffset, tileSizeY, tileSrc.level, cols, rows,
               tileSrc.cache, tileSrc.pendingTile))
      ensures tileSrc.servers.Some? ==> (r.Some? && tileSrc.Pending() ==
        CanvasRequests(old(tileSrc.Pending()), tileSrc.level, cols, rows, tileSrc.cache, tileSrc.rerequestAge, tileDate))
      ensures tileSrc.servers.None? ==> (tileSrc.Pending() == old(tileSrc.Pending()) &&
        (r.None? <==> !CanvasCached(tileSrc.level, cols, rows, tileSrc.cache)))
      ensures tileSrc.View() == old(tileSrc.View()) && tileSrc.cache == old(tileSrc.cache)
      ensures tileSrc.rerequestAge == old(tileSrc.rerequestAge)
    {
      ghost var view, cache, age, p := tileSrc.View(), tileSrc.cache, tileSrc.rerequestAge, tileSrc.Pending();
      ghost var level := tileSrc.level;
      ghost var canvas := Canvas(keyTileXOffset, tileSizeX, keyTileYOffset, tileSizeY, level, cols, rows,
                                 cache, tileSrc.pendingTile);
      var drawn: seq<seq<Draw>> := [];
      var xPix := keyTileXOffset;
      var i := 0;
      while i < |cols|
        invariant 0 <= i <= |cols|
        invariant tileSrc.View() == view && tileSrc.cache == cache && tileSrc.rerequestAge == age
        invariant drawn + Canvas(xPix, tileSizeX, keyTileYOffset, tileSizeY, level, cols[i..], rows,
                                 cache, tileSrc.pendingTile) == canvas
        invariant tileSrc.servers.Some? ==> (tileSrc.Pending() == CanvasRequests(p, level, cols[..i], rows, cache, age, tileDate))
        invariant tileSrc.servers.None? ==> tileSrc.Pending() == p && CanvasCached(level, cols[..i], rows, cache)
      {
        var column := DrawColumn(cols[i], rows, xPix, tileDate);
        assert tileSrc.level == level;
        if column.None? {
          MissingColumn(level, cols, i, rows, cache);
          return None;
        }
        CanvasCachedStep(level, cols, i, rows, cache);
        CanvasStep(drawn, column.value, xPix, tileSizeX, keyTileYOffset, tileSizeY, level, cols, i, rows, cache,
                   tileSrc.pendingTile, canvas);
        CanvasRequestsStep(p, level, cols, i, rows, cache, age, tileDate);
        drawn := drawn + [column.value];
        xPix := xPix + tileSizeX;
        i := i + 1;
      }
      assert cols[..i] == cols;
      return Some(drawn);
    }

    /** The inner loop of paintEvent: the tiles of column col, one per row,
        a tile height apart from the key tile's offset. A source with
        servers draws them all and requests the wanted ones; a local
        source stops at its first missing tile (None), which happens
        exactly when one of the tiles is missing. */
    method DrawColumn(col: int, rows: seq<int>, xPix: int, tileDate: Key -> real) returns (column: Option<seq<Draw>>)
      modifies tileSrc
      ensures column.Some? ==>
        column.value == ColumnDraws(xPix, keyTileYOffset, tileSizeY, tileSrc.level, col, rows, tileSrc.cache, tileSrc.pendingTile)
      ensures tileSrc.servers.Some? ==> (column.Some? && tileSrc.Pending() ==
        ColumnRequests(old(tileSrc.Pending()), tileSrc.level, col, rows, tileSrc.cache, tileSrc.rerequestAge, tileDate))
      ensures tileSrc.servers.None? ==> (tileSrc.Pending() == old(tileSrc.Pending()) &&
        (column.None? <==> !ColumnCached(tileSrc.level, col, rows, tileSrc.cache)))
      ensures tileSrc.View() == old(tileSrc.View()) && tileSrc.cache == old(tileSrc.cache)
      ensures tileSrc.rerequestAge == old(tileSrc.rerequestAge)
    {
      ghost var level, cache, age, p := tileSrc.level, tileSrc.cache, tileSrc.rerequestAge, tileSrc.Pending();
      var drawn: seq<Draw> := [];
      var yPix := keyTileYOffset;
      var j := 0;
      while j < |rows|
        invariant 0 <= j <= |rows|
        invariant yPix == keyTileYOffset + j * tileSizeY
        invariant tileSrc.View() == old(tileSrc.View()) && tileSrc.cache == cache && tileSrc.rerequestAge == age
        invariant drawn == ColumnDraws(xPix, keyTileYOffset, tileSizeY, level, col, rows[..j], cache, tileSrc.pendingTile)
        invariant tileSrc.servers.Some? ==> (tileSrc.Pending() == ColumnRequests(p, level, col, rows[..j], cache, age, tileDate))
        invariant tileSrc.servers.None? ==> tileSrc.Pending() == p && ColumnCached(level, col, rows[..j], cache)
      {
        var tile := DrawTile(col, rows[j], xPix, yPix, tileDate);
        if tile.None? {
          assert rows[j] in rows;
          return None;
        }
        assert rows[..j + 1] == rows[..j] + [rows[j]];
        ColumnRequestsStep(p, level, col, rows, j, cache, age, tileDate);
        ColumnDrawsStep(xPix, keyTileYOffset, tileSizeY, level, col, rows, cache, tileSrc.pendingTile, j);
        drawn := drawn + [tile.value];
        yPix := yPix + tileSizeY;
        j := j + 1;
      }
      assert rows[..j] == rows;
      return Some(drawn);
    }

    /** The body of paintEvent's inner loop: the tile at column col and row
        row fetched from the source and drawn at (xPix, yPix). A source
        with servers always gives a tile, and requests it when it is
        wanted; a local source fails (None) exactly when the tile is
        missing from its cache. */
    method DrawTile(col: int, row: int, xPix: int, yPix: int, tileDate: Key -> real) returns (tile: Option<Draw>)
      modifies tileSrc
      ensures tile.Some? ==> tile.value == TileDraw(xPix, yPix, tileSrc.level, col, row, tileSrc.cache, tileSrc.pendingTile)
      ensures tileSrc.servers.Some? ==> (tile.Some? && tileSrc.Pending() ==
        if Wanted((tileSrc.level, col, row), tileSrc.cache, tileSrc.rerequestAge, tileDate)
        then Enqueue(old(tileSrc.Pending()), (tileSrc.level, col, row)) else old(tileSrc.Pending()))
      ensures tileSrc.servers.None? ==> (tileSrc.Pending() == old(tileSrc.Pending()) &&
        (tile.None? <==> (tileSrc.level, col, row) !in tileSrc.cache))
      ensures tileSrc.View() == old(tileSrc.View()) && tileSrc.cache == old(tileSrc.cache)
      ensures tileSrc.rerequestAge == old(tileSrc.rerequestAge)
    {
      var image := tileSrc.GetTile(col, row, tileDate((tileSrc.level, col, row)));
      if image.None? {
        return None;
      }
      return Some(Draw(xPix, yPix, col, row, image.value));
    }
  }
}
