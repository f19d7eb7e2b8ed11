/** pySlipQt/examples/make_gmt_tiles.py: the program that cuts the GMT world
    map into tilesets. For each level L it divides the extent into
    2^(L+1) columns and 2^L rows, queues one drawing task per tile for the
    worker processes, and writes the level's info (tile counts and pixels
    per degree) that the GMT tile source reads back. The GMT drawing
    commands, the worker processes and the files themselves are outside
    the model; the geometry is over exact reals. */
module MakeGmtTiles {
  import opened PyText
  import opened TileCommon
  import TileLayout
  import GmtLocalTiles

  const DefaultTileSize := 256

  /** Level2Detail: the GMT coastline detail letter for each level. */
  const Level2Detail: map<int, char> :=
    map[0 := 'l', 1 := 'l', 2 := 'l', 3 := 'i', 4 := 'i', 5 := 'i', 6 := 'h', 7 := 'h', 8 := 'h', 9 := 'f']

  /** Level2Detail.get(level, 'f'): low detail for the first three levels,
      then intermediate, high, and full for level 9 and every level not in
      the table. */
  function DetailFor(level: int): (d: char)
    ensures 0 <= level <= 2 ==> d == 'l'
    ensures 3 <= level <= 5 ==> d == 'i'
    ensures 6 <= level <= 8 ==> d == 'h'
    ensures level < 0 || level >= 9 ==> d == 'f'
  {
    if level in Level2Detail then Level2Detail[level] else 'f'
  }

  /** The extent (W, E, S, N) the program maps: the whole world with the
      break through South America. */
  const Extent: (real, real, real, real) := (-65.0, 295.0, -66.66, 66.66)

  /** The generator maps exactly the extent the GMT tile source reports,
      component for component (min_xgeo = W, max_xgeo = E, min_ygeo = S,
      max_ygeo = N). */
  lemma ExtentIsSourceExtent()
    ensures Extent == GmtLocalTiles.GmtExtent
    ensures Extent.0 < Extent.1 && Extent.2 < Extent.3
  {
  }

  /** An extent make_tileset can divide: a zero width or height divides
      by zero when the pixels per degree are computed. */
  predicate Divisible(ext: (real, real, real, real)) {
    ext.1 != ext.0 && ext.3 != ext.2
  }

  /** d_lon: the width in degrees of one of the 2^(L+1) columns. */
  function DLon(ext: (real, real, real, real), level: nat): real {
    (ext.1 - ext.0) / (Pow2(level) as real) / 2.0
  }

  /** d_lat: the height in degrees of one of the 2^L rows. */
  function DLat(ext: (real, real, real, real), level: nat): real {
    (ext.3 - ext.2) / (Pow2(level) as real)
  }

  /** Dividing a span into p (or 2p) parts and asking how many parts fit
      gives p (or 2p) back. */
  lemma PartsFit(a: real, p: real, k: real)
    requires a != 0.0 && p >= 1.0 && k >= 1.0
    ensures a / p / k != 0.0
    ensures a / (a / p / k) == p * k
  {
    var d := a / p / k;
    assert d * (p * k) == a;
    assert a / d == p * k;
  }

  /** Pixels per degree times the degrees across is the pixels across:
      t / (a / p / k) * a == t * p * k. */
  lemma PixelsAcross(a: real, p: real, k: real, t: real)
    requires a != 0.0 && p >= 1.0 && k >= 1.0
    ensures t / (a / p / k) * a == t * (p * k)
  {
    var d := a / p / k;
    PartsFit(a, p, k);
    calc {
      t / d * a;
      t * (a / d);
      t * (p * k);
    }
  }

  /** The (num_tiles_x, num_tiles_y, ppd_x, ppd_y) make_tileset writes for
      a level: int() of the exact counts, and tile_size over the tile's
      span in degrees. */
  function TilesetInfo(ext: (real, real, real, real), level: nat, tileSize: int): (i: LevelInfo)
    requires Divisible(ext)
    ensures i.numTilesX == 2 * Pow2(level) && i.numTilesY == Pow2(level)
    ensures i.ppdX == Some(tileSize as real / DLon(ext, level)) && i.ppdY == Some(tileSize as real / DLat(ext, level))
  {
    PartsFit(ext.1 - ext.0, Pow2(level) as real, 2.0);
    PartsFit(ext.3 - ext.2, Pow2(level) as real, 1.0);
    assert (ext.3 - ext.2) / (Pow2(level) as real) / 1.0 == DLat(ext, level);
    LevelInfo(((ext.1 - ext.0) / DLon(ext, level)).Floor, ((ext.3 - ext.2) / DLat(ext, level)).Floor,
              Some(tileSize as real / DLon(ext, level)), Some(tileSize as real / DLat(ext, level)))
  }

  /** The pixels per degree written for a level are the level's pixels
      across the extent over its degrees across: tile_size / d_lon is
      tile_size * 2^(L+1) pixels over E - W, and tile_size / d_lat is
      tile_size * 2^L pixels over N - S. */
  lemma TilesetPpd(ext: (real, real, real, real), level: nat, tileSize: int)
    requires Divisible(ext)
    ensures tileSize as real / DLon(ext, level) * (ext.1 - ext.0) == tileSize as real * (Pow2(level) as real * 2.0)
    ensures tileSize as real / DLat(ext, level) * (ext.3 - ext.2) == tileSize as real * (Pow2(level) as real * 1.0)
  {
    var p, t := Pow2(level) as real, tileSize as real;
    var w, h := ext.1 - ext.0, ext.3 - ext.2;
    assert DLon(ext, level) == w / p / 2.0 && DLat(ext, level) == h / p / 1.0;
    PixelsAcross(w, p, 2.0, t);
    PixelsAcross(h, p, 1.0, t);
  }

  /** One task on the work queue: the tile (its level and column/row, for
      the file name), the tile size, the -D detail and the -R bounds
      (r_w, r_e, r_s, r_n). */
  datatype Task = Task(level: int, x: int, y: int, tileSize: int, detail: char,
                       west: real, east: real, south: real, north: real)

  /** The work item for tile (x, y) of a level: its west edge x columns east of
      W, its north edge y rows south of N, one column wide and one row
      high. */
  function TileTask(ext: (real, real, real, real), level: nat, tileSize: int, x: int, y: int): (t: Task)
    ensures t.level == level && t.x == x && t.y == y && t.tileSize == tileSize && t.detail == DetailFor(level)
    ensures t.east - t.west == DLon(ext, level) && t.north - t.south == DLat(ext, level)
  {
    var rW := ext.0 + x as real * DLon(ext, level);
    var rN := ext.3 - y as real * DLat(ext, level);
    Task(level, x, y, tileSize, DetailFor(level), rW, rW + DLon(ext, level), rN - DLat(ext, level), rN)
  }

  /** Neighbouring tiles share their edges: the tiles leave no gap and do
      not overlap. */
  lemma TilesShareEdges(ext: (real, real, real, real), level: nat, tileSize: int, x: int, y: int)
    ensures TileTask(ext, level, tileSize, x + 1, y).west == TileTask(ext, level, tileSize, x, y).east
    ensures TileTask(ext, level, tileSize, x, y + 1).north == TileTask(ext, level, tileSize, x, y).south
  {
    var d, h := DLon(ext, level), DLat(ext, level);
    assert (x + 1) as real * d == x as real * d + d;
    assert (y + 1) as real * h == y as real * h + h;
  }

  /** The grid starts at the extent's north-west corner and its last tile
      ends at the south-east corner. */
  lemma TilesCoverExtent(ext: (real, real, real, real), level: nat, tileSize: int)
    requires Divisible(ext)
    ensures var first := TileTask(ext, level, tileSize, 0, 0);
      first.west == ext.0 && first.north == ext.3
    ensures var info := TilesetInfo(ext, level, tileSize);
      var last := TileTask(ext, level, tileSize, info.numTilesX - 1, info.numTilesY - 1);
      last.east == ext.1 && last.south == ext.2
  {
    var p := Pow2(level) as real;
    var d, h := DLon(ext, level), DLat(ext, level);
    var nx, ny := 2 * Pow2(level), Pow2(level);
    assert (nx - 1) as real * d + d == (2.0 * p) * d;
    assert (2.0 * p) * ((ext.1 - ext.0) / p / 2.0) == ext.1 - ext.0;
    assert (ny - 1) as real * h + h == p * h;
    assert p * ((ext.3 - ext.2) / p) == ext.3 - ext.2;
  }

  /** The GMT tile source, given the info written for a level, puts the
      far corner of the last tile at the extent's south-east corner: the
      info and the grid agree. */
  lemma InfoMatchesGrid(level: nat, tileSize: int)
    requires tileSize >= 1
    ensures var info := TilesetInfo(Extent, level, tileSize);
      var f := GmtLocalTiles.Frame(GmtLocalTiles.GmtExtent, info.ppdX.value, info.ppdY.value,
                                   tileSize as real, tileSize as real);
      GmtLocalTiles.Usable(f) &&
      GmtLocalTiles.Tile2Geo(f, (info.numTilesX as real, info.numTilesY as real)) == (Extent.1, Extent.2)
  {
    var p := Pow2(level) as real;
    var ts := tileSize as real;
    var d, h := DLon(Extent, level), DLat(Extent, level);
    PartsFit(Extent.1 - Extent.0, p, 2.0);
    PartsFit(Extent.3 - Extent.2, p, 1.0);
    assert d != 0.0 && h != 0.0;
    var info := TilesetInfo(Extent, level, tileSize);
    assert info.ppdX.value == ts / d && info.ppdY.value == ts / h;
    assert ts / (ts / d) == d;
    assert ts / (ts / h) == h;
    var f := GmtLocalTiles.Frame(GmtLocalTiles.GmtExtent, info.ppdX.value, info.ppdY.value, ts, ts);
    var g := GmtLocalTiles.Tile2Geo(f, (info.numTilesX as real, info.numTilesY as real));
    assert info.numTilesX as real == 2.0 * p && info.numTilesY as real == p;
    assert (2.0 * p) * d == Extent.1 - Extent.0;
    assert p * h == Extent.3 - Extent.2;
    assert g.0 == (2.0 * p) * d + Extent.0;
    assert g.1 == Extent.3 - p * h;
  }

  // ---------------------------------------------------------------------
  // make_tileset
  // ---------------------------------------------------------------------

  /** The tasks of column x, rows 0 to ny - 1. */
  function Column(ext: (real, real, real, real), level: nat, tileSize: int, x: int, ny: nat): seq<Task>
  {
    seq(ny, y requires 0 <= y < ny => TileTask(ext, level, tileSize, x, y))
  }

  /** Column x holds ny tasks. */
  lemma ColumnLength(ext: (real, real, real, real), level: nat, tileSize: int, x: int, ny: nat)
    ensures |Column(ext, level, tileSize, x, ny)| == ny
  {
  }

  /** The tasks of columns 0 to nx - 1, column after column. */
  function Grid(ext: (real, real, real, real), level: nat, tileSize: int, nx: nat, ny: nat): seq<Task>
  {
    if nx == 0 then [] else Grid(ext, level, tileSize, nx - 1, ny) + Column(ext, level, tileSize, nx - 1, ny)
  }

  /** The grid holds nx * ny tasks in x-major order: tile (x, y) is task
      x * ny + y. */
  lemma {:induction false} GridOrder(ext: (real, real, real, real), level: nat, tileSize: int, nx: nat, ny: nat)
    ensures |Grid(ext, level, tileSize, nx, ny)| == nx * ny
    ensures forall x, y :: 0 <= x < nx && 0 <= y < ny ==>
      x * ny + y < nx * ny && Grid(ext, level, tileSize, nx, ny)[x * ny + y] == TileTask(ext, level, tileSize, x, y)
  {
    if nx > 0 {
      GridOrder(ext, level, tileSize, nx - 1, ny);
      ColumnLength(ext, level, tileSize, nx - 1, ny);
      var g := Grid(ext, level, tileSize, nx, ny);
      var front := Grid(ext, level, tileSize, nx - 1, ny);
      assert |front| == (nx - 1) * ny;
      assert nx * ny == (nx - 1) * ny + ny;
      forall x, y | 0 <= x < nx && 0 <= y < ny
        ensures x * ny + y < nx * ny && g[x * ny + y] == TileTask(ext, level, tileSize, x, y)
      {
        if x < nx - 1 {
          RowsBefore(x, nx - 1, y, ny);
          assert g[x * ny + y] == front[x * ny + y];
        } else {
          assert x * ny == (nx - 1) * ny;
          assert g[x * ny + y] == Column(ext, level, tileSize, nx - 1, ny)[y];
        }
      }
    }
  }

  /** A task of an earlier column comes before the later columns' tasks. */
  lemma RowsBefore(x: nat, n: nat, y: nat, ny: nat)
    requires x < n && y < ny
    ensures x * ny + y < n * ny
  {
    assert (n - x) * ny >= ny by {
      TileLayout.MulBounds(n - x, ny);
    }
    assert n * ny == x * ny + (n - x) * ny;
  }

  /** One step of the worker counter: on past the number of workers it
      wraps to 0, so after k tasks it is k modulo (workers + 1). */
  lemma WorkerStep(k: int, workers: nat)
    ensures var w := k % (workers + 1);
      (if w + 1 > workers then 0 else w + 1) == (k + 1) % (workers + 1)
  {
    var n := workers + 1;
    TileLayout.ModNext(k, n);
    var w := k % n;
    if w + 1 > workers {
      TileLayout.DivUnique(w + 1, 1, 0, n);
    } else {
      TileLayout.DivUnique(w + 1, 0, w + 1, n);
    }
  }

  /** make_tileset(q, ..., extent, level, tile_size): appends the level's
      tasks to the queue, column after column and row after row within a
      column, and returns the info written for the level. The worker
      number the loop leaves (unused by the program) stays within
      [0, workers]. */
  method MakeTileset(q: seq<Task>, ext: (real, real, real, real), level: nat, tileSize: int, workers: nat)
    returns (q': seq<Task>, info: LevelInfo, wNum: int)
    requires Divisible(ext)
    ensures info == TilesetInfo(ext, level, tileSize)
    ensures q' == q + Grid(ext, level, tileSize, info.numTilesX, info.numTilesY)
    ensures 0 <= wNum <= workers && wNum == (|q'| - |q|) % (workers + 1)
  {
    info := TilesetInfo(ext, level, tileSize);
    var numTilesX, numTilesY := info.numTilesX, info.numTilesY;
    q' := q;
    wNum := 0;
    var x := 0;
    while x < numTilesX
      invariant 0 <= x <= numTilesX
      invariant q' == q + Grid(ext, level, tileSize, x, numTilesY)
      invariant 0 <= wNum <= workers && wNum == (|q'| - |q|) % (workers + 1)
    {
      ghost var before := q';
      q', wNum := QueueColumn(q', ext, level, tileSize, x, numTilesY, workers, wNum, |q|);
      assert q' == before + Column(ext, level, tileSize, x, numTilesY);
      x := x + 1;
    }
  }

  /** The inner loop of make_tileset: the tasks of column x, row after
      row, each one bumping the worker number. */
  method QueueColumn(q: seq<Task>, ext: (real, real, real, real), level: nat, tileSize: int, x: int, ny: nat,
                     workers: nat, w0: int, ghost base: int)
    returns (q': seq<Task>, wNum: int)
    requires 0 <= w0 <= workers && w0 == (|q| - base) % (workers + 1)
    ensures q' == q + Column(ext, level, tileSize, x, ny)
    ensures 0 <= wNum <= workers && wNum == (|q'| - base) % (workers + 1)
  {
    var (w, e, s, n) := ext;
    var dLon := (e - w) / (Pow2(level) as real) / 2.0;
    var dLat := (n - s) / (Pow2(level) as real);
    var detail := DetailFor(level);
    q', wNum := q, w0;
    var y := 0;
    while y < ny
      invariant 0 <= y <= ny
      invariant q' == q + Column(ext, level, tileSize, x, y)
      invariant 0 <= wNum <= workers && wNum == (|q'| - base) % (workers + 1)
      decreases ny - y
    {
      WorkerStep(|q'| - base, workers);
      wNum := wNum + 1;
      if wNum > workers {
        wNum := 0;
      }
      var rW := w + x as real * dLon;
      var rE := rW + dLon;
      var rN := n - y as real * dLat;
      var rS := rN - dLat;
      var task := Task(level, x, y, tileSize, detail, rW, rE, rS, rN);
      assert task == TileTask(ext, level, tileSize, x, y);
      assert Column(ext, level, tileSize, x, y + 1) == Column(ext, level, tileSize, x, y) + [task];
      q' := q' + [task];
      y := y + 1;
    }
  }

  // ---------------------------------------------------------------------
  // make_gmt_tiles
  // ---------------------------------------------------------------------

  const WaterColour := (254, 254, 255)
  const LandColour := (253, 233, 174)

  /** The top-level info file: the extent, the default tile size (whatever
      size was asked for) and the water and land colours. */
  datatype TopInfo = TopInfo(extent: (real, real, real, real), tileSize: (int, int),
                             water: (int, int, int), land: (int, int, int))

  /** The tasks of levels lo to hi, level after level. */
  function LevelTasks(lo: nat, hi: int, tileSize: int): seq<Task>
    decreases hi - lo
  {
    if hi < lo then []
    else LevelTasks(lo, hi - 1, tileSize) + Grid(Extent, hi, tileSize, 2 * Pow2(hi), Pow2(hi))
  }

  /** Every queued task belongs to one of the levels asked for. */
  lemma {:induction false} LevelTasksLevels(lo: nat, hi: int, tileSize: int)
    ensures forall t :: t in LevelTasks(lo, hi, tileSize) ==> lo <= t.level <= hi
    decreases hi - lo
  {
    if hi >= lo {
      LevelTasksLevels(lo, hi - 1, tileSize);
      var g := Grid(Extent, hi, tileSize, 2 * Pow2(hi), Pow2(hi));
      GridLevel(Extent, hi, tileSize, 2 * Pow2(hi), Pow2(hi));
      assert forall t :: t in LevelTasks(lo, hi, tileSize) ==> t in LevelTasks(lo, hi - 1, tileSize) || t in g;
    }
  }

  /** Every task of a level's grid is of that level. */
  lemma {:induction false} GridLevel(ext: (real, real, real, real), level: nat, tileSize: int, nx: nat, ny: nat)
    ensures forall t :: t in Grid(ext, level, tileSize, nx, ny) ==> t.level == level
  {
    if nx > 0 {
      GridLevel(ext, level, tileSize, nx - 1, ny);
      var c := Column(ext, level, tileSize, nx - 1, ny);
      assert forall t :: t in Grid(ext, level, tileSize, nx, ny) ==> t in Grid(ext, level, tileSize, nx - 1, ny) || t in c;
    }
  }

  /** make_gmt_tiles(tile_dir, min_level, max_level, tile_size), past the
      GMT set-up: the top-level info, then every level from min_level to
      max_level queued in turn with its info written. A start level above
      the stop level is not refused; it makes no tilesets. */
  method MakeGmtTiles(minLevel: nat, maxLevel: nat, tileSize: int, workers: nat)
    returns (q: seq<Task>, infos: map<int, LevelInfo>, top: TopInfo)
    ensures top == TopInfo(Extent, (DefaultTileSize, DefaultTileSize), WaterColour, LandColour)
    ensures q == LevelTasks(minLevel, maxLevel, tileSize)
    ensures forall l :: l in infos <==> minLevel <= l <= maxLevel
    ensures forall l: nat :: minLevel <= l <= maxLevel ==> infos[l] == TilesetInfo(Extent, l, tileSize)
    ensures minLevel > maxLevel ==> q == [] && infos == map[]
  {
    top := TopInfo(Extent, (DefaultTileSize, DefaultTileSize), WaterColour, LandColour);
    q, infos := [], map[];
    var level := minLevel;
    while level <= maxLevel
      invariant minLevel <= level && (level <= maxLevel + 1 || level == minLevel)
      invariant q == LevelTasks(minLevel, level - 1, tileSize)
      invariant forall l :: l in infos <==> minLevel <= l < level
      invariant forall l: nat :: minLevel <= l < level ==> infos[l] == TilesetInfo(Extent, l, tileSize)
    {
      var info, wNum;
      q, info, wNum := MakeTileset(q, Extent, level, tileSize, workers);
      infos := infos[level := info];
      level := level + 1;
    }
  }

  // ---------------------------------------------------------------------
  // main
  // ---------------------------------------------------------------------

  predicate IsSize(opt: string) { opt == "-s" || opt == "--size" }
  predicate IsTopo(opt: string) { opt == "-t" || opt == "--topo" }
  predicate IsVerbose(opt: string) { opt == "-v" || opt == "--verbose" }
  predicate IsHelp(opt: string) { opt == "-h" || opt == "--help" }

  /** The settings the options loop builds. */
  datatype Settings = Settings(tileSize: int, useTopo: bool, verbose: bool)

  const Defaults := Settings(DefaultTileSize, false, false)

  /** Where the options loop ends: an exit code, or the settings. */
  datatype Scan = Stop(code: int) | Go(settings: Settings)

  /** A tile size main accepts: an integer of at least 1. */
  predicate SizeOk(param: string) {
    ParseInt(param).Some? && ParseInt(param).value >= 1
  }

  /** An option the loop passes over: neither help nor a bad size. */
  predicate Passes(o: (string, string)) {
    !IsHelp(o.0) && (IsSize(o.0) ==> SizeOk(o.1))
  }

  /** The options loop of main, from settings st: the first help option
      exits 0, the first bad size exits 1, whichever comes first;
      otherwise the last size, topo and verbose options set their
      settings. */
  function ScanOptions(opts: seq<(string, string)>, st: Settings): (r: Scan)
    ensures r.Go? && st.tileSize >= 1 ==> r.settings.tileSize >= 1
    ensures r.Stop? ==> r.code == 0 || r.code == 1
    decreases |opts|
  {
    if opts == [] then Go(st)
    else
      var (opt, param) := opts[0];
      if IsSize(opt) then
        match ParseInt(param)
        case None => Stop(1)
        case Some(v) => if v < 1 then Stop(1) else ScanOptions(opts[1..], st.(tileSize := v))
      else if IsTopo(opt) then ScanOptions(opts[1..], st.(useTopo := true))
      else if IsVerbose(opt) then ScanOptions(opts[1..], st.(verbose := true))
      else if IsHelp(opt) then Stop(0)
      else ScanOptions(opts[1..], st)
  }

  /** The settings after the loop passes over option o. */
  function Next(o: (string, string), st: Settings): Settings {
    if IsSize(o.0) && SizeOk(o.1) then st.(tileSize := ParseInt(o.1).value)
    else if IsTopo(o.0) then st.(useTopo := true)
    else if IsVerbose(o.0) then st.(verbose := true)
    else st
  }

  /** One turn of the loop: an option it passes over moves on to the next
      with the updated settings; any other option stops it, help with 0. */
  lemma ScanStep(opts: seq<(string, string)>, st: Settings)
    requires opts != []
    ensures Passes(opts[0]) ==> ScanOptions(opts, st) == ScanOptions(opts[1..], Next(opts[0], st))
    ensures !Passes(opts[0]) ==> ScanOptions(opts, st).Stop?
    ensures ScanOptions(opts, st) == Stop(0) <==> IsHelp(opts[0].0) || (Passes(opts[0]) && ScanOptions(opts[1..], Next(opts[0], st)) == Stop(0))
  {
  }

  /** The loop runs to the end exactly when it passes over every option. */
  lemma {:induction false} ScanGoes(opts: seq<(string, string)>, st: Settings)
    ensures ScanOptions(opts, st).Go? <==> forall i :: 0 <= i < |opts| ==> Passes(opts[i])
    decreases |opts|
  {
    if opts != [] {
      ScanStep(opts, st);
      if Passes(opts[0]) {
        ScanGoes(opts[1..], Next(opts[0], st));
        assert forall i :: 1 <= i < |opts| ==> opts[i] == opts[1..][i - 1];
      }
    }
  }

  /** Some help option comes before any option that stops the loop. */
  predicate HelpFirst(opts: seq<(string, string)>) {
    exists i :: 0 <= i < |opts| && IsHelp(opts[i].0) && forall j :: 0 <= j < i ==> Passes(opts[j])
  }

  /** An option the loop passes over does not decide HelpFirst. */
  lemma HelpFirstSkips(opts: seq<(string, string)>)
    requires opts != [] && Passes(opts[0])
    ensures HelpFirst(opts) <==> HelpFirst(opts[1..])
  {
    var tail := opts[1..];
    if HelpFirst(tail) {
      var i :| 0 <= i < |tail| && IsHelp(tail[i].0) && forall j :: 0 <= j < i ==> Passes(tail[j]);
      assert IsHelp(opts[i + 1].0) && forall j :: 0 <= j < i + 1 ==> Passes(opts[j]) by {
        forall j | 0 <= j < i + 1 ensures Passes(opts[j]) {
          if j > 0 {
            assert opts[j] == tail[j - 1];
          }
        }
      }
    }
    if HelpFirst(opts) {
      var i :| 0 <= i < |opts| && IsHelp(opts[i].0) && forall j :: 0 <= j < i ==> Passes(opts[j]);
      assert i > 0;
      assert IsHelp(tail[i - 1].0) && forall j :: 0 <= j < i - 1 ==> Passes(tail[j]) by {
        forall j | 0 <= j < i - 1 ensures Passes(tail[j]) {
          assert tail[j] == opts[j + 1];
        }
      }
    }
  }

  /** The loop exits 0 exactly when a help option comes before any bad
      size. */
  lemma {:induction false} ScanHelp(opts: seq<(string, string)>, st: Settings)
    ensures ScanOptions(opts, st) == Stop(0) <==> HelpFirst(opts)
    decreases |opts|
  {
    if opts != [] {
      ScanStep(opts, st);
      if IsHelp(opts[0].0) {
        assert HelpFirst(opts) by {
          assert IsHelp(opts[0].0);
        }
      } else if Passes(opts[0]) {
        ScanHelp(opts[1..], Next(opts[0], st));
        HelpFirstSkips(opts);
      } else {
        assert !HelpFirst(opts) by {
          if HelpFirst(opts) {
            var i :| 0 <= i < |opts| && IsHelp(opts[i].0) && forall j :: 0 <= j < i ==> Passes(opts[j]);
            assert false;
          }
        }
      }
    }
  }

  /** An option that sets the tile size: -s or --size with an integer. */
  predicate SetsSize(opt: (string, string)) {
    IsSize(opt.0) && ParseInt(opt.1).Some?
  }

  /** The tile size the loop settles on is the last -s/--size value, or
      the starting one when there is none. */
  function LastSize(opts: seq<(string, string)>, size: int): int
    decreases |opts|
  {
    if opts == [] then size
    else LastSize(opts[1..], if SetsSize(opts[0]) then ParseInt(opts[0].1).value else size)
  }

  /** LastSize is the value of the last -s or --size option with an
      integer, which overrides every earlier one, or the starting size
      when there is none. */
  lemma {:induction false} LastSizeIsLast(opts: seq<(string, string)>, size: int)
    ensures (forall j :: 0 <= j < |opts| ==> !SetsSize(opts[j])) ==> LastSize(opts, size) == size
    ensures (exists j :: 0 <= j < |opts| && SetsSize(opts[j])) ==>
      exists j :: (0 <= j < |opts| && SetsSize(opts[j]) && LastSize(opts, size) == ParseInt(opts[j].1).value &&
        forall k :: j < k < |opts| ==> !SetsSize(opts[k]))
    decreases |opts|
  {
    if opts != [] {
      var tail := opts[1..];
      var size' := if SetsSize(opts[0]) then ParseInt(opts[0].1).value else size;
      assert LastSize(opts, size) == LastSize(tail, size');
      LastSizeIsLast(tail, size');
      if exists j :: 0 <= j < |tail| && SetsSize(tail[j]) {
        var j :| 0 <= j < |tail| && SetsSize(tail[j]) && LastSize(tail, size') == ParseInt(tail[j].1).value &&
          forall k :: j < k < |tail| ==> !SetsSize(tail[k]);
        assert opts[j + 1] == tail[j];
        forall k | j + 1 < k < |opts|
          ensures !SetsSize(opts[k])
        {
          assert opts[k] == tail[k - 1];
        }
      } else {
        forall k | 0 < k < |opts|
          ensures !SetsSize(opts[k])
        {
          assert opts[k] == tail[k - 1];
        }
      }
    }
  }

  lemma {:induction false} ScanSize(opts: seq<(string, string)>, st: Settings)
    requires ScanOptions(opts, st).Go?
    ensures ScanOptions(opts, st).settings.tileSize == LastSize(opts, st.tileSize)
    decreases |opts|
  {
    if opts != [] {
      ScanStep(opts, st);
      ScanGoes(opts, st);
      assert Passes(opts[0]);
      ScanSize(opts[1..], Next(opts[0], st));
    }
  }

  /** A level main accepts: an integer of at least 0. */
  predicate LevelOk(arg: string) {
    ParseInt(arg).Some? && ParseInt(arg).value >= 0
  }

  /** What main does: exit with a code, or make the tiles in tileDir for
      levels minLevel to maxLevel with the settings chosen. */
  datatype Outcome = Exit(code: int) | Run(tileDir: string, minLevel: int, maxLevel: int, settings: Settings)

  /** main(): a getopt error exits 1; then the options loop (help exits 0,
      a bad size exits 1); then the positional arguments must number two
      or three, the stop level and any start level must be integers of at
      least 0, and the start level defaults to 0. */
  method Command(parsed: Getopt) returns (r: Outcome)
    ensures parsed.GetoptError? ==> r == Exit(1)
    ensures parsed.Parsed? && ScanOptions(parsed.opts, Defaults).Stop? ==>
      r == Exit(ScanOptions(parsed.opts, Defaults).code)
    ensures parsed.Parsed? && ScanOptions(parsed.opts, Defaults).Go? ==>
      var args := parsed.args;
      var st := ScanOptions(parsed.opts, Defaults).settings;
      (r.Run? <==> (|args| == 2 || |args| == 3) && LevelOk(args[1]) && (|args| == 3 ==> LevelOk(args[2]))) &&
      (!r.Run? ==> r == Exit(1)) &&
      (r.Run? ==> r == Run(args[0], if |args| == 3 then ParseInt(args[2]).value else 0, ParseInt(args[1]).value, st))
    ensures r.Run? ==> r.minLevel >= 0 && r.maxLevel >= 0 && r.settings.tileSize >= 1
  {
    if parsed.GetoptError? {
      return Exit(1);
    }
    var opts, args := parsed.opts, parsed.args;
    var st := Defaults;
    var i := 0;
    while i < |opts|
      invariant 0 <= i <= |opts| && st.tileSize >= 1
      invariant ScanOptions(opts[i..], st) == ScanOptions(opts, Defaults)
    {
      var (opt, param) := opts[i];
      assert opts[i..][1..] == opts[i + 1..];
      if IsSize(opt) {
        var size := ParseInt(param);
        if size.None? {
          return Exit(1);
        }
        if size.value < 1 {
          return Exit(1);
        }
        st := st.(tileSize := size.value);
      } else if IsTopo(opt) {
        st := st.(useTopo := true);
      } else if IsVerbose(opt) {
        st := st.(verbose := true);
      } else if IsHelp(opt) {
        return Exit(0);
      }
      i := i + 1;
    }
    assert opts[i..] == [];
    if |args| != 2 && |args| != 3 {
      return Exit(1);
    }
    var tileDir := args[0];
    var minLevel := 0;
    var maxLevel := ParseInt(args[1]);
    if maxLevel.None? {
      return Exit(1);
    }
    if maxLevel.value < 0 {
      return Exit(1);
    }
    if |args| == 3 {
      var start := ParseInt(args[2]);
      if start.None? {
        return Exit(1);
      }
      if start.value < 0 {
        return Exit(1);
      }
      minLevel := start.value;
    }
    return Run(tileDir, minLevel, maxLevel.value, st);
  }
}
