/** pySlipQt/tiles.py: BaseTiles, the tile source that serves tiles from
    an existing on-disk cache directory. The cache (memory backed by disk)
    is the map of tiles self.cache can produce; the directory check is
    decided by what the file system has at tiles_dir. */
module QtTiles {
  import opened PyText
  import opened TileCommon

  /** Why BaseTiles() raises: min() of no levels (ValueError), tiles_dir
      is a file, or tiles_dir does not exist. */
  datatype InitError = EmptyLevels | NotADirectory | MissingDirectory

  datatype Created = Created(tiles: BaseTiles) | Failed(error: InitError)

  class BaseTiles {
    const levels: seq<int>
    const tileSizeX: int
    const tileSizeY: int
    const tilesDir: string
    const minLevel: int
    const maxLevel: int
    var level: int
    var numTilesX: int
    var numTilesY: int
    var ppdX: Option<real>
    var ppdY: Option<real>
    const extent: (real, real, real, real)
    const cache: map<Key, Image>

    /** The level bounds come from the levels served and the current level
        is one of them. */
    predicate Valid()
      reads this
    {
      levels != [] && minLevel == SeqMin(levels) && maxLevel == SeqMax(levels) &&
      level in levels && minLevel <= level <= maxLevel
    }

    constructor (levels: seq<int>, tileWidth: int, tileHeight: int, tilesDir: string, tiles: map<Key, Image>)
      requires levels != []
      ensures Valid()
      ensures this.levels == levels && tileSizeX == tileWidth && tileSizeY == tileHeight
      ensures this.tilesDir == tilesDir && cache == tiles
      ensures minLevel == SeqMin(levels) && maxLevel == SeqMax(levels) && level == minLevel
      ensures extent == DefaultExtent
      ensures numTilesX == 0 && numTilesY == 0 && ppdX.None? && ppdY.None?
    {
      this.levels := levels;
      tileSizeX, tileSizeY := tileWidth, tileHeight;
      this.tilesDir := tilesDir;
      minLevel := SeqMin(levels);
      maxLevel := SeqMax(levels);
      level := SeqMin(levels);
      numTilesX, numTilesY := 0, 0;
      ppdX, ppdY := None, None;
      cache := tiles;
      extent := DefaultExtent;
    }

    /** BaseTiles(levels, tile_width, tile_height, tiles_dir): fails when
        levels is empty, then when tiles_dir is not an existing directory;
        otherwise the new source is at its lowest level and reports the
        default extent. */
    static method Create(levels: seq<int>, tileWidth: int, tileHeight: int, tilesDir: string,
                         dirKind: PathKind, tiles: map<Key, Image>) returns (r: Created)
      ensures levels == [] ==> r == Failed(EmptyLevels)
      ensures levels != [] && dirKind == RegularFile ==> r == Failed(NotADirectory)
      ensures levels != [] && dirKind == Missing ==> r == Failed(MissingDirectory)
      ensures levels != [] && dirKind == Directory ==> r.Created?
      ensures r.Created? ==>
        fresh(r.tiles) && r.tiles.Valid() && r.tiles.levels == levels &&
        r.tiles.level == r.tiles.minLevel == SeqMin(levels) && r.tiles.maxLevel == SeqMax(levels) &&
        r.tiles.GetExtent() == DefaultExtent && r.tiles.cache == tiles &&
        r.tiles.tileSizeX == tileWidth && r.tiles.tileSizeY == tileHeight
    {
      if levels == [] {
        return Failed(EmptyLevels);
      }
      if dirKind == RegularFile {
        return Failed(NotADirectory);
      }
      if dirKind == Missing {
        return Failed(MissingDirectory);
      }
      var t := new BaseTiles(levels, tileWidth, tileHeight, tilesDir, tiles);
      return Created(t);
    }

    /** GetInfo(level): None for a level not served; otherwise 2^level
        tiles each way and no ppd, and the tile counts are stored. */
    method GetInfo(lvl: int) returns (info: Option<LevelInfo>)
      modifies this
      ensures lvl !in levels ==> info.None? && unchanged(this)
      ensures lvl in levels ==> info == Some(PowerInfo(lvl))
      ensures lvl in levels ==> numTilesX == numTilesY == TilesAtLevel(lvl)
      ensures level == old(level) && ppdX == old(ppdX) && ppdY == old(ppdY)
    {
      if lvl !in levels {
        return None;
      }
      numTilesX := TilesAtLevel(lvl);
      numTilesY := TilesAtLevel(lvl);
      return Some(LevelInfo(numTilesX, numTilesY, None, None));
    }

    /** UseLevel(level): a level not served is refused with nothing
        changed; otherwise the level and its info become current. */
    method UseLevel(lvl: int) returns (ok: bool)
      requires Valid()
      modifies this
      ensures Valid()
      ensures ok <==> lvl in levels
      ensures !ok ==> unchanged(this)
      ensures ok ==> level == lvl && numTilesX == numTilesY == TilesAtLevel(lvl) && ppdX.None? && ppdY.None?
    {
      if lvl !in levels {
        return false;
      }
      var info := GetInfo(lvl);
      if info.None? {
        return false;
      }
      level := lvl;
      numTilesX, numTilesY, ppdX, ppdY := info.value.numTilesX, info.value.numTilesY, info.value.ppdX, info.value.ppdY;
      return true;
    }

    /** GetTile(x, y): the cached tile for (level, x, y), or None where
        the source raises KeyError. */
    method GetTile(x: int, y: int) returns (r: Option<Image>)
      ensures (level, x, y) in cache <==> r.Some?
      ensures r.Some? ==> r.value == cache[(level, x, y)]
    {
      if (level, x, y) in cache {
        return Some(cache[(level, x, y)]);
      }
      return None;
    }

    /** GetExtent(): the (left, right, top, bottom) geo limits. */
    function GetExtent(): (real, real, real, real)
      reads this
    {
      extent
    }

    /** Cache.tile_path(key) for this source's cache directory. */
    function TilePathOf(key: Key): (p: string)
      reads this
      ensures ParseTilePath(tilesDir, p) == Some(key)
    {
      TilePathRoundTrip(tilesDir, key);
      TilePath(tilesDir, key)
    }
  }
}
