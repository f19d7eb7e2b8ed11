/** pySlipQt/tiles_net.py: Tiles, the tile source that fetches missing or
    stale tiles from servers. Worker threads, the network and the disk are
    outside the model: the request queue is the sequence the workers would
    read, a delivered tile arrives through TileIsAvailable, and the disk
    cache is a map from key to image whose file dates are supplied by the
    caller. */
module NetTiles {
  import opened PyText
  import opened TileCommon

  /** Seconds in a day (60 * 60 * 24). */
  const SecondsInADay: real := 86400.0

  /** The refetch threshold as a UNIX time: set only when refetch_days is
      truthy (neither None nor 0), to that many days before now. */
  function RerequestAge(refetchDays: Option<real>, now: real): Option<real>
  {
    if refetchDays.Some? && refetchDays.value != 0.0 then Some(now - refetchDays.value * SecondsInADay)
    else None
  }

  /** GetTile's test for a cache hit: re-request a tile on disk when a
      (truthy) threshold is set and the file is older than it. */
  predicate RefetchDue(rerequestAge: Option<real>, onDisk: bool, tileDate: real) {
    onDisk && rerequestAge.Some? && rerequestAge.value != 0.0 && tileDate < rerequestAge.value
  }

  /** With a threshold of d days set at time now, a tile on disk is
      re-requested exactly when its file is more than d days old. */
  lemma RefetchAfterDays(d: real, now: real, tileDate: real)
    requires d != 0.0 && now - d * SecondsInADay != 0.0
    ensures RefetchDue(RerequestAge(Some(d), now), true, tileDate) <==> now - tileDate > d * SecondsInADay
  {
  }

  /** Without refetch days, or with 0, nothing is ever re-requested. */
  lemma NoRefetchWhenInhibited(refetchDays: Option<real>, now: real, onDisk: bool, tileDate: real)
    requires refetchDays.None? || refetchDays.value == 0.0
    ensures !RefetchDue(RerequestAge(refetchDays, now), onDisk, tileDate)
  {
  }

  /** Why Tiles() raises: min() of no levels (ValueError), tiles_dir is a
      file so the level directories cannot be made, the URL path's
      extension is not png or jpg (TypeError), or there is no server to
      probe (IndexError). */
  datatype InitError = EmptyLevels | NotADirectory | BadExtension | NoServers

  /** What tile_is_available ends with: the callback called with
      (level, x, y, image, True), or RuntimeError because none is set. */
  datatype Delivery = Notified(callback: int, level: int, x: int, y: int, image: Image, flag: bool)
                    | CallbackNotSet

  datatype Created = Created(tiles: Tiles) | Failed(error: InitError)

  class Tiles {
    const levels: seq<int>
    const tileSizeX: int
    const tileSizeY: int
    const tilesDir: string
    const minLevel: int
    const maxLevel: int
    var level: int
    var numTilesX: int
    var numTilesY: int
    var ppdX: Option<real>
    var ppdY: Option<real>
    const extent: (real, real, real, real)
    const servers: seq<string>
    const urlPath: string
    /** The registered callback, as an identity; None until setCallback. */
    var callback: Option<int>
    var rerequestAge: Option<real>
    const fileType: string
    const contentType: string
    /** The in-memory tile cache. */
    var memory: map<Key, Image>
    /** The tiles saved in the on-disk cache. */
    var disk: map<Key, Image>
    /** request_queue, oldest request first. */
    var queue: seq<Key>
    /** The keys of queued_requests. */
    var queued: set<Key>
    const pendingTile: Image
    const errorTile: Image

    predicate Valid()
      reads this
    {
      levels != [] && minLevel == SeqMin(levels) && maxLevel == SeqMax(levels) &&
      level in levels && servers != []
    }

    /** The tile caches, the callback and the refetch threshold. */
    function Store(): (map<Key, Image>, map<Key, Image>, Option<int>, Option<real>)
      reads this
    {
      (memory, disk, callback, rerequestAge)
    }

    /** The current level and its info. */
    function View(): (int, int, int, Option<real>, Option<real>)
      reads this
    {
      (level, numTilesX, numTilesY, ppdX, ppdY)
    }

    /** The request bookkeeping as one value. */
    function Pending(): Requests
      reads this
    {
      Requests(queue, queued)
    }

    constructor (levels: seq<int>, tileWidth: int, tileHeight: int, tilesDir: string,
                 disk: map<Key, Image>, servers: seq<string>, urlPath: string,
                 refetchDays: Option<real>, now: real, pending: Image, error: Image)
      requires levels != [] && servers != [] && TileFormat(urlPath).Some?
      ensures Valid()
      ensures this.levels == levels && tileSizeX == tileWidth && tileSizeY == tileHeight
      ensures this.tilesDir == tilesDir && this.servers == servers && this.urlPath == urlPath
      ensures level == SeqMin(levels) && extent == DefaultExtent
      ensures numTilesX == 0 && numTilesY == 0 && ppdX.None? && ppdY.None?
      ensures memory == map[] && this.disk == disk && callback.None?
      ensures rerequestAge == RerequestAge(refetchDays, now)
      ensures (fileType, contentType) == TileFormat(urlPath).value
      ensures queue == [] && queued == {}
      ensures pendingTile == pending && errorTile == error
    {
      this.levels := levels;
      tileSizeX, tileSizeY := tileWidth, tileHeight;
      this.tilesDir := tilesDir;
      minLevel := SeqMin(levels);
      maxLevel := SeqMax(levels);
      level := SeqMin(levels);
      numTilesX, numTilesY := 0, 0;
      ppdX, ppdY := None, None;
      memory := map[];
      this.disk := disk;
      extent := DefaultExtent;
      this.servers := servers;
      this.urlPath := urlPath;
      callback := None;
      rerequestAge := RerequestAge(refetchDays, now);
      fileType := TileFormat(urlPath).value.0;
      contentType := TileFormat(urlPath).value.1;
      queue, queued := [], {};
      pendingTile, errorTile := pending, error;
    }

    /** Tiles(levels, ..., tiles_dir, servers, url_path, refetch_days=...):
        the failures in the order the constructor meets them, else a new
        source at its lowest level with no requests outstanding. */
    static method Create(levels: seq<int>, tileWidth: int, tileHeight: int, tilesDir: string,
                         dirKind: PathKind, disk: map<Key, Image>, servers: seq<string>,
                         urlPath: string, refetchDays: Option<real>, now: real,
                         pending: Image, error: Image) returns (r: Created)
      ensures levels == [] ==> r == Failed(EmptyLevels)
      ensures levels != [] && dirKind == RegularFile ==> r == Failed(NotADirectory)
      ensures levels != [] && dirKind != RegularFile && TileFormat(urlPath).None? ==> r == Failed(BadExtension)
      ensures levels != [] && dirKind != RegularFile && TileFormat(urlPath).Some? && servers == [] ==>
        r == Failed(NoServers)
      ensures levels != [] && dirKind != RegularFile && TileFormat(urlPath).Some? && servers != [] ==> r.Created?
      ensures r.Created? ==>
        fresh(r.tiles) && r.tiles.Valid() && r.tiles.level == SeqMin(levels) &&
        r.tiles.rerequestAge == RerequestAge(refetchDays, now) &&
        r.tiles.Pending() == NoRequests && r.tiles.memory == map[] && r.tiles.disk == disk &&
        (r.tiles.fileType, r.tiles.contentType) == TileFormat(urlPath).value
      ensures r.Created? ==>
        r.tiles.levels == levels && r.tiles.tileSizeX == tileWidth && r.tiles.tileSizeY == tileHeight &&
        r.tiles.tilesDir == tilesDir && r.tiles.servers == servers && r.tiles.urlPath == urlPath &&
        r.tiles.extent == DefaultExtent && r.tiles.callback.None? &&
        r.tiles.pendingTile == pending && r.tiles.errorTile == error &&
        r.tiles.numTilesX == 0 && r.tiles.numTilesY == 0 && r.tiles.ppdX.None? && r.tiles.ppdY.None?
    {
      if levels == [] {
        return Failed(EmptyLevels);
      }
      if dirKind == RegularFile {
        return Failed(NotADirectory);
      }
      if TileFormat(urlPath).None? {
        return Failed(BadExtension);
      }
      if servers == [] {
        return Failed(NoServers);
      }
      var t := new Tiles(levels, tileWidth, tileHeight, tilesDir, disk, servers, urlPath,
                         refetchDays, now, pending, error);
      return Created(t);
    }

    /** GetInfo(level): None for a level not served; otherwise 2^level
        tiles each way and no ppd, and the tile counts are stored. */
    method GetInfo(lvl: int) returns (info: Option<LevelInfo>)
      modifies this
      ensures lvl !in levels ==> info.None? && unchanged(this)
      ensures lvl in levels ==> info == Some(PowerInfo(lvl)) && numTilesX == numTilesY == TilesAtLevel(lvl)
      ensures level == old(level) && ppdX == old(ppdX) && ppdY == old(ppdY)
      ensures Pending() == old(Pending()) && Store() == old(Store())
    {
      if lvl !in levels {
        return None;
      }
      numTilesX := TilesAtLevel(lvl);
      numTilesY := TilesAtLevel(lvl);
      return Some(LevelInfo(numTilesX, numTilesY, None, None));
    }

    /** FlushRequests(): with servers set, forget every outstanding
        request. */
    method FlushRequests()
      requires servers != []
      modifies this
      ensures Pending() == NoRequests
      ensures View() == old(View()) && Store() == old(Store())
    {
      if servers != [] {
        queue := [];
        queued := {};
      }
    }

    /** UseLevel(level): a level not served is refused with nothing
        changed; a successful change also drops the outstanding requests. */
    method UseLevel(lvl: int) returns (ok: bool)
      requires Valid()
      modifies this
      ensures Valid()
      ensures ok <==> lvl in levels
      ensures !ok ==> unchanged(this)
      ensures ok ==> level == lvl && numTilesX == numTilesY == TilesAtLevel(lvl) &&
                     ppdX.None? && ppdY.None? && Pending() == NoRequests
      ensures Store() == old(Store())
    {
      if lvl !in levels {
        return false;
      }
      var info := GetInfo(lvl);
      if info.None? {
        return false;
      }
      var i := info.value;
      assert i == PowerInfo(lvl);
      level, numTilesX, numTilesY, ppdX, ppdY := lvl, i.numTilesX, i.numTilesY, i.ppdX, i.ppdY;
      assert Valid();
      FlushRequests();
      return true;
    }

    /** get_server_tile(level, x, y): queue a request unless one is already
        outstanding. */
    method GetServerTile(lvl: int, x: int, y: int)
      modifies this
      ensures Pending() == Enqueue(old(Pending()), (lvl, x, y))
      ensures View() == old(View()) && Store() == old(Store())
    {
      var key := (lvl, x, y);
      if key !in queued {
        queue := queue + [key];
        queued := queued + {key};
      }
    }

    /** tile_on_disk(level, x, y). */
    predicate TileOnDisk(lvl: int, x: int, y: int)
      reads this
    {
      (lvl, x, y) in disk
    }

    /** GetTile(x, y) with tileDate the creation time of the tile's file:
        a miss queues a request and shows the pending tile; a hit shows the
        cached tile and queues a request only when the file on disk is
        older than the refetch threshold. */
    method GetTile(x: int, y: int, tileDate: real) returns (r: Image)
      modifies this
      ensures var key := (level, x, y);
        if key in old(memory) || key in old(disk) then
          r == (if key in old(memory) then old(memory)[key] else old(disk)[key]) &&
          Pending() == (if RefetchDue(rerequestAge, key in disk, tileDate) then Enqueue(old(Pending()), key)
                        else old(Pending()))
        else
          r == pendingTile && Pending() == Enqueue(old(Pending()), key)
      ensures View() == old(View()) && Store() == old(Store())
    {
      var key := (level, x, y);
      if key in memory || key in disk {
        r := if key in memory then memory[key] else disk[key];
        if TileOnDisk(level, x, y) {
          if rerequestAge.Some? && rerequestAge.value != 0.0 && tileDate < rerequestAge.value {
            GetServerTile(level, x, y);
          }
        }
      } else {
        GetServerTile(level, x, y);
        r := pendingTile;
      }
    }

    /** setCallback(callback). */
    method SetCallback(cb: Option<int>)
      modifies this
      ensures callback == cb
      ensures View() == old(View()) && Pending() == old(Pending()) &&
              memory == old(memory) && disk == old(disk) && rerequestAge == old(rerequestAge)
    {
      callback := cb;
    }

    /** tile_is_available(level, x, y, image, error): the image always goes
        into the memory cache but onto disk only when it is not an error
        image; the request is no longer outstanding (it may already have
        been flushed); then the callback is told, or RuntimeError is raised
        when none is set. */
    method TileIsAvailable(lvl: int, x: int, y: int, image: Image, error: bool) returns (d: Delivery)
      modifies this
      ensures memory == old(memory)[(lvl, x, y) := image]
      ensures disk == if error then old(disk) else old(disk)[(lvl, x, y) := image]
      ensures queue == old(queue) && queued == old(queued) - {(lvl, x, y)}
      ensures callback.Some? ==> d == Notified(callback.value, lvl, x, y, image, true)
      ensures callback.None? ==> d == CallbackNotSet
      ensures View() == old(View()) &&
              callback == old(callback) && rerequestAge == old(rerequestAge)
    {
      var key := (lvl, x, y);
      memory := memory[key := image];
      if !error {
        disk := disk[key := image];
      }
      queued := queued - {key};
      if callback.Some? {
        return Notified(callback.value, lvl, x, y, image, true);
      }
      return CallbackNotSet;
    }

    /** SetAgeThresholdDays(num_days) as the source has it: the threshold
        becomes num_days before now whatever num_days is, so 0 sets it to
        now instead of inhibiting refetches. */
    method SetAgeThresholdDaysAsWritten(numDays: real, now: real)
      modifies this
      ensures rerequestAge == Some(now - numDays * SecondsInADay)
      ensures View() == old(View()) && Pending() == old(Pending()) &&
              memory == old(memory) && disk == old(disk) && callback == old(callback)
    {
      rerequestAge := Some(now - numDays * SecondsInADay);
    }

    /** SetAgeThresholdDays(num_days) as documented: the threshold is
        recomputed with the constructor's rule, so 0 inhibits refetching. */
    method SetAgeThresholdDays(numDays: real, now: real)
      modifies this
      ensures rerequestAge == RerequestAge(Some(numDays), now)
      ensures numDays == 0.0 ==> forall date: real :: !RefetchDue(rerequestAge, true, date)
      ensures View() == old(View()) && Pending() == old(Pending()) &&
              memory == old(memory) && disk == old(disk) && callback == old(callback)
    {
      rerequestAge := RerequestAge(Some(numDays), now);
    }
  }

  /** The documented meaning of SetAgeThresholdDays(0) fails as written:
      at any non-zero clock time, a tile on disk created a second before
      the call is re-requested. */
  lemma ZeroDaysStillRefetches(now: real)
    requires now != 0.0
    ensures RefetchDue(Some(now - 0.0 * SecondsInADay), true, now - 1.0)
  {
  }
}
