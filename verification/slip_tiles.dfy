/** pyslipqt/tiles.py: BaseTiles, one tile source for both local and
    internet tiles. A source without servers serves tiles from its cache
    only; a source with servers queues requests for missing or stale tiles.
    The cache is one map from key to image (memory and disk together, since
    a delivered tile is put into both); worker threads, the network and
    file dates are outside the model, and the date of a cached tile is
    supplied by the caller. The GMT tile source of gmt_local_tiles.py, whose
    GetInfo reads per-level info files instead of computing 2^level, is the
    same class with its info files given. */
module SlipTiles {
  import opened PyText
  import opened TileCommon

  /** Seconds in a day (60 * 60 * 24). */
  const SecondsInADay: real := 86400.0

  /** The module global RefreshTilesAfterDays that constructors read and
      SetAgeThresholdDays rewrites. */
  class ModuleGlobals {
    var refreshTilesAfterDays: Option<real>

    constructor ()
      ensures refreshTilesAfterDays == Some(60.0)
    {
      refreshTilesAfterDays := Some(60.0);
    }
  }

  /** The constructor's rerequest_age: 0 unless a refresh period is known,
      refetch_days taking precedence over the global. */
  function InitialAge(refreshDays: Option<real>, refetchDays: Option<real>, now: real): real
  {
    var age := if refreshDays.Some? then now - refreshDays.value * SecondsInADay else 0.0;
    if refetchDays.Some? then now - refetchDays.value * SecondsInADay else age
  }

  /** GetTile's staleness test on a cache hit of an internet source. */
  predicate Stale(rerequestAge: real, tileDate: real) {
    tileDate < rerequestAge
  }

  /** With a refresh period of d days known at time now, a cached tile is
      stale exactly when it is more than d days old. */
  lemma StaleAfterDays(refreshDays: Option<real>, refetchDays: Option<real>, now: real, tileDate: real)
    requires refreshDays.Some? || refetchDays.Some?
    ensures var d := if refetchDays.Some? then refetchDays.value else refreshDays.value;
      Stale(InitialAge(refreshDays, refetchDays, now), tileDate) <==> now - tileDate > d * SecondsInADay
  {
  }

  /** With no refresh period at all, no tile dated after the epoch is ever
      stale. */
  lemma NeverStaleWithoutPeriod(now: real, tileDate: real)
    requires tileDate >= 0.0
    ensures !Stale(InitialAge(None, None, now), tileDate)
  {
  }

  /** Why BaseTiles() raises: min() of no levels (ValueError), tiles_dir
      is a file, the URL path's extension is not png or jpg (TypeError), or
      the server list is empty (IndexError at servers[0]). */
  datatype InitError = EmptyLevels | NotADirectory | BadExtension | NoServers

  datatype Created = Created(tiles: BaseTiles) | Failed(error: InitError)

  /** `if self.servers:` */
  predicate HasServers(servers: Option<seq<string>>) {
    servers.Some? && servers.value != []
  }

  class BaseTiles {
    const levels: seq<int>
    const tileSizeX: int
    const tileSizeY: int
    const tilesDir: string
    const minLevel: int
    const maxLevel: int
    /** None for a local source. */
    const servers: Option<seq<string>>
    const urlPath: string
    /** Set only for an internet source; empty for a local one. */
    const fileType: string
    const contentType: string
    const pendingTile: Image
    const errorTile: Image
    const extent: (real, real, real, real)
    /** The GMT source's wrap flags; false for the plain source. */
    const wrapX: bool
    const wrapY: bool
    /** None: GetInfo computes 2^level. Some(files): the GMT override, files
        holding the info of every level whose info file can be read. */
    const infoFiles: Option<map<int, LevelInfo>>
    var level: int
    var numTilesX: int
    var numTilesY: int
    var ppdX: Option<real>
    var ppdY: Option<real>
    var rerequestAge: real
    /** The tile cache, memory and disk together. */
    var cache: map<Key, Image>
    /** The request queue, oldest request first. */
    var queue: seq<Key>
    /** The keys of queued_requests. */
    var queued: set<Key>

    predicate Valid()
      reads this
    {
      levels != [] && minLevel == SeqMin(levels) && maxLevel == SeqMax(levels) &&
      level in levels && servers != Some([])
    }

    /** The current level and its info. */
    function View(): (int, int, int, Option<real>, Option<real>)
      reads this
    {
      (level, numTilesX, numTilesY, ppdX, ppdY)
    }

    /** The request bookkeeping as one value. */
    function Pending(): Requests
      reads this
    {
      Requests(queue, queued)
    }

    /** What GetInfo(level) returns. */
    function InfoFor(lvl: int): Option<LevelInfo>
    {
      if lvl !in levels then None
      else match infoFiles
        case None => Some(PowerInfo(lvl))
        case Some(files) => if lvl in files then Some(files[lvl]) else None
    }

    constructor (levels: seq<int>, tileWidth: int, tileHeight: int, tilesDir: string,
                 cache: map<Key, Image>, servers: Option<seq<string>>, urlPath: string,
                 age: real, pending: Image, error: Image,
                 extent: (real, real, real, real), wrapX: bool, wrapY: bool,
                 infoFiles: Option<map<int, LevelInfo>>)
      requires levels != [] && servers != Some([])
      requires servers.Some? ==> TileFormat(urlPath).Some?
      ensures Valid()
      ensures this.levels == levels && tileSizeX == tileWidth && tileSizeY == tileHeight
      ensures this.tilesDir == tilesDir && this.servers == servers && this.urlPath == urlPath
      ensures level == SeqMin(levels)
      ensures this.extent == extent && this.wrapX == wrapX && this.wrapY == wrapY && this.infoFiles == infoFiles
      ensures numTilesX == 0 && numTilesY == 0 && ppdX.None? && ppdY.None?
      ensures this.cache == cache && rerequestAge == age
      ensures servers.Some? ==> (fileType, contentType) == TileFormat(urlPath).value
      ensures servers.None? ==> fileType == "" && contentType == ""
      ensures queue == [] && queued == {}
      ensures pendingTile == pending && errorTile == error
    {
      this.levels := levels;
      tileSizeX, tileSizeY := tileWidth, tileHeight;
      this.tilesDir := tilesDir;
      minLevel := SeqMin(levels);
      maxLevel := SeqMax(levels);
      level := SeqMin(levels);
      numTilesX, numTilesY := 0, 0;
      ppdX, ppdY := None, None;
      this.cache := cache;
      this.servers := servers;
      this.urlPath := urlPath;
      rerequestAge := age;
      if servers.Some? {
        fileType := TileFormat(urlPath).value.0;
        contentType := TileFormat(urlPath).value.1;
      } else {
        fileType, contentType := "", "";
      }
      queue, queued := [], {};
      pendingTile, errorTile := pending, error;
      this.extent := extent;
      this.wrapX, this.wrapY := wrapX, wrapY;
      this.infoFiles := infoFiles;
    }

    /** BaseTiles(levels, ..., servers, url_path, tiles_dir, refetch_days):
        the failures in the order the constructor meets them (a missing
        tiles_dir is created, a file in its place is an error; the URL is
        looked at only when servers are given), else a new source at its
        lowest level with the refetch threshold computed from refetch_days
        or the global. */
    static method Create(levels: seq<int>, tileWidth: int, tileHeight: int, tilesDir: string,
                         dirKind: PathKind, cache: map<Key, Image>, servers: Option<seq<string>>,
                         urlPath: string, refetchDays: Option<real>, now: real, globals: ModuleGlobals,
                         pending: Image, error: Image) returns (r: Created)
      ensures levels == [] ==> r == Failed(EmptyLevels)
      ensures levels != [] && dirKind == RegularFile ==> r == Failed(NotADirectory)
      ensures levels != [] && dirKind != RegularFile && servers.None? ==> r.Created?
      ensures levels != [] && dirKind != RegularFile && servers.Some? && TileFormat(urlPath).None? ==>
        r == Failed(BadExtension)
      ensures levels != [] && dirKind != RegularFile && servers == Some([]) && TileFormat(urlPath).Some? ==>
        r == Failed(NoServers)
      ensures levels != [] && dirKind != RegularFile && HasServers(servers) && TileFormat(urlPath).Some? ==>
        r.Created?
      ensures r.Created? ==>
        fresh(r.tiles) && r.tiles.Valid() && r.tiles.level == SeqMin(levels) && r.tiles.servers == servers &&
        r.tiles.rerequestAge == InitialAge(globals.refreshTilesAfterDays, refetchDays, now) &&
        r.tiles.Pending() == NoRequests && r.tiles.cache == cache && r.tiles.extent == DefaultExtent &&
        r.tiles.infoFiles.None? &&
        (servers.Some? ==> (r.tiles.fileType, r.tiles.contentType) == TileFormat(urlPath).value)
      ensures r.Created? ==>
        r.tiles.levels == levels && r.tiles.tileSizeX == tileWidth && r.tiles.tileSizeY == tileHeight &&
        r.tiles.tilesDir == tilesDir && r.tiles.urlPath == urlPath &&
        r.tiles.pendingTile == pending && r.tiles.errorTile == error &&
        !r.tiles.wrapX && !r.tiles.wrapY &&
        r.tiles.numTilesX == 0 && r.tiles.numTilesY == 0 && r.tiles.ppdX.None? && r.tiles.ppdY.None?
    {
      if levels == [] {
        return Failed(EmptyLevels);
      }
      if dirKind == RegularFile {
        return Failed(NotADirectory);
      }
      var age := InitialAge(globals.refreshTilesAfterDays, refetchDays, now);
      if servers.Some? {
        if TileFormat(urlPath).None? {
          return Failed(BadExtension);
        }
        if servers.value == [] {
          return Failed(NoServers);
        }
      }
      var t := new BaseTiles(levels, tileWidth, tileHeight, tilesDir, cache, servers, urlPath, age,
                             pending, error, DefaultExtent, false, false, None);
      return Created(t);
    }

    /** GetInfo(level): None for a level not served; otherwise the level's
        info. The computed 2^level info is also stored in the tile counts;
        the GMT info files are only read. */
    method GetInfo(lvl: int) returns (info: Option<LevelInfo>)
      modifies this
      ensures info == InfoFor(lvl)
      ensures lvl in levels && infoFiles.None? ==> numTilesX == numTilesY == TilesAtLevel(lvl)
      ensures !(lvl in levels && infoFiles.None?) ==> unchanged(this)
      ensures level == old(level) && ppdX == old(ppdX) && ppdY == old(ppdY) && Pending() == old(Pending()) &&
              cache == old(cache) && rerequestAge == old(rerequestAge)
    {
      if lvl !in levels {
        return None;
      }
      if infoFiles.Some? {
        if lvl in infoFiles.value {
          return Some(infoFiles.value[lvl]);
        }
        return None;
      }
      numTilesX := TilesAtLevel(lvl);
      numTilesY := TilesAtLevel(lvl);
      return Some(LevelInfo(numTilesX, numTilesY, None, None));
    }

    /** FlushRequests(): an internet source forgets every outstanding
        request; a local source has none to forget. */
    method FlushRequests()
      modifies this
      ensures Pending() == if HasServers(servers) then NoRequests else old(Pending())
      ensures View() == old(View()) && cache == old(cache) && rerequestAge == old(rerequestAge)
    {
      if servers.Some? && servers.value != [] {
        queue := [];
        queued := {};
      }
    }

    /** UseLevel(level): refused with nothing changed for a level not served
        or whose info cannot be had; otherwise the level and its info
        become current and the outstanding requests are dropped. */
    method UseLevel(lvl: int) returns (ok: bool)
      requires Valid()
      modifies this
      ensures Valid()
      ensures ok <==> InfoFor(lvl).Some?
      ensures !ok ==> unchanged(this)
      ensures ok ==> View() == (lvl, InfoFor(lvl).value.numTilesX, InfoFor(lvl).value.numTilesY,
                                InfoFor(lvl).value.ppdX, InfoFor(lvl).value.ppdY)
      ensures ok ==> Pending() == if servers.Some? then NoRequests else old(Pending())
      ensures cache == old(cache) && rerequestAge == old(rerequestAge)
    {
      if lvl !in levels {
        return false;
      }
      var info := GetInfo(lvl);
      if info.None? {
        return false;
      }
      var i := info.value;
      level, numTilesX, numTilesY, ppdX, ppdY := lvl, i.numTilesX, i.numTilesY, i.ppdX, i.ppdY;
      assert Valid();
      FlushRequests();
      return true;
    }

    /** _get_internet_tile(level, x, y): queue a request unless one is
        already outstanding. */
    method GetInternetTile(lvl: int, x: int, y: int)
      modifies this
      ensures Pending() == Enqueue(old(Pending()), (lvl, x, y))
      ensures View() == old(View()) && cache == old(cache) && rerequestAge == old(rerequestAge)
    {
      var key := (lvl, x, y);
      if key !in queued {
        queue := queue + [key];
        queued := queued + {key};
      }
    }

    /** GetTile(x, y) with tileDate the creation date of the cached tile's
        file. A miss is a KeyError (None) for a local source and the
        pending tile plus a queued request for an internet source; a hit
        returns the cached tile, and an internet source also queues a
        request when the tile is stale. */
    method GetTile(x: int, y: int, tileDate: real) returns (r: Option<Image>)
      modifies this
      ensures var key := (level, x, y);
        if key in cache then
          r == Some(cache[key]) &&
          Pending() == (if servers.Some? && Stale(rerequestAge, tileDate) then Enqueue(old(Pending()), key)
                        else old(Pending()))
        else if servers.None? then
          r.None? && Pending() == old(Pending())
        else
          r == Some(pendingTile) && Pending() == Enqueue(old(Pending()), key)
      ensures View() == old(View()) && cache == old(cache) && rerequestAge == old(rerequestAge)
    {
      var key := (level, x, y);
      if key !in cache {
        if servers.None? {
          return None;
        }
        GetInternetTile(level, x, y);
        return Some(pendingTile);
      }
      r := Some(cache[key]);
      if servers.Some? {
        if tileDate < rerequestAge {
          GetInternetTile(level, x, y);
        }
      }
    }

    /** _tile_available(level, x, y, image, error) as intended, and as
        its comments say: a good tile replaces the cached one, an error
        tile is not cached; the request is no longer outstanding, whether
        or not it still was. TileAvailableAsWritten is what the source
        does. */
    method TileAvailable(lvl: int, x: int, y: int, image: Image, error: bool)
      modifies this
      ensures cache == if error then old(cache) else old(cache)[(lvl, x, y) := image]
      ensures queue == old(queue) && queued == old(queued) - {(lvl, x, y)}
      ensures View() == old(View()) && rerequestAge == old(rerequestAge)
    {
      var key := (lvl, x, y);
      if !error {
        cache := cache[key := image];
      }
      queued := queued - {key};
    }

    /** _tile_available as the source has it: its first step calls the
        wxPython method ConvertToBitmap on the image, which the worker
        delivers as a QPixmap that has no such method, so AttributeError
        is raised (true) before the tile is cached and before its key
        leaves queued_requests. */
    method TileAvailableAsWritten(lvl: int, x: int, y: int, image: Image, error: bool) returns (raised: bool)
      modifies this
      ensures raised
      ensures cache == old(cache) && Pending() == old(Pending())
      ensures View() == old(View()) && rerequestAge == old(rerequestAge)
    {
      raised := true;
    }

    /** SetAgeThresholdDays(num_days) as the source has it: the global
        becomes num_days and the threshold num_days before now, so 0 makes
        every cached tile stale instead of inhibiting refetches. */
    method SetAgeThresholdDaysAsWritten(numDays: real, now: real, globals: ModuleGlobals)
      modifies this, globals
      ensures globals.refreshTilesAfterDays == Some(numDays)
      ensures rerequestAge == now - numDays * SecondsInADay
      ensures View() == old(View()) && Pending() == old(Pending()) && cache == old(cache)
    {
      globals.refreshTilesAfterDays := Some(numDays);
      rerequestAge := now - globals.refreshTilesAfterDays.value * SecondsInADay;
    }

    /** SetAgeThresholdDays(num_days) as documented: 0 inhibits
        refetching, here and in sources made later (the global then holds
        no refresh period); any other value is num_days before now. */
    method SetAgeThresholdDays(numDays: real, now: real, globals: ModuleGlobals)
      modifies this, globals
      ensures globals.refreshTilesAfterDays == if numDays == 0.0 then None else Some(numDays)
      ensures rerequestAge == InitialAge(globals.refreshTilesAfterDays, None, now)
      ensures numDays == 0.0 ==> forall date: real :: date >= 0.0 ==> !Stale(rerequestAge, date)
      ensures numDays != 0.0 ==> forall date: real :: Stale(rerequestAge, date) <==> now - date > numDays * SecondsInADay
      ensures View() == old(View()) && Pending() == old(Pending()) && cache == old(cache)
    {
      globals.refreshTilesAfterDays := if numDays == 0.0 then None else Some(numDays);
      rerequestAge := InitialAge(globals.refreshTilesAfterDays, None, now);
    }
  }

  /** The documented meaning of SetAgeThresholdDays(0) fails as written:
      a tile cached a second before the call is stale. */
  lemma ZeroDaysStillStale(now: real)
    ensures Stale(now - 0.0 * SecondsInADay, now - 1.0)
  {
  }
}
