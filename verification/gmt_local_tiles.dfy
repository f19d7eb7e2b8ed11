/** pyslipqt/gmt_local_tiles.py: the GMT tile source, a local BaseTiles
    whose levels are 0 to 4, whose extent is the GMT tileset's, which wraps
    east-west only, and whose level info comes from the info files written
    by the tile generator. The geo/tile conversion is linear and is modelled
    over exact reals. */
module GmtLocalTiles {
  import opened PyText
  import opened TileCommon
  import SlipTiles

  /** TileLevels = range(5). */
  const TileLevels: seq<int> := seq(5, i => i)

  const TileWidth := 256
  const TileHeight := 256

  /** The extent (min_xgeo, max_xgeo, min_ygeo, max_ygeo) of the GMT tileset. */
  const GmtExtent: (real, real, real, real) := (-65.0, 295.0, -66.66, 66.66)

  /** Why Tiles() raises: tiles_dir is a file, or the level-0 info file
      cannot be read, so unpacking GetInfo's None fails (TypeError). */
  datatype InitError = NotADirectory | NoLevelInfo

  datatype Created = Created(tiles: SlipTiles.BaseTiles) | Failed(error: InitError)

  /** Tiles(tiles_dir), given what is at tiles_dir and the info files that
      can be read there (level to info). A missing tiles_dir is created
      empty, so no info file can be read from it then. */
  method Create(tilesDir: string, dirKind: PathKind, infoFiles: map<int, LevelInfo>,
                cache: map<Key, Image>, now: real, globals: SlipTiles.ModuleGlobals,
                pending: Image, error: Image) returns (r: Created)
    ensures dirKind == RegularFile ==> r == Failed(NotADirectory)
    ensures dirKind == Missing ==> r == Failed(NoLevelInfo)
    ensures dirKind == Directory && 0 !in infoFiles ==> r == Failed(NoLevelInfo)
    ensures dirKind == Directory && 0 in infoFiles ==> r.Created?
    ensures r.Created? ==>
      fresh(r.tiles) && r.tiles.Valid() && r.tiles.levels == TileLevels && r.tiles.servers.None? &&
      r.tiles.tileSizeX == TileWidth && r.tiles.tileSizeY == TileHeight &&
      r.tiles.extent == GmtExtent && r.tiles.wrapX && !r.tiles.wrapY &&
      r.tiles.infoFiles == Some(infoFiles) && r.tiles.level == 0 &&
      r.tiles.View() == (0, infoFiles[0].numTilesX, infoFiles[0].numTilesY, infoFiles[0].ppdX, infoFiles[0].ppdY) &&
      r.tiles.cache == cache && r.tiles.Pending() == NoRequests
  {
    if dirKind == RegularFile {
      return Failed(NotADirectory);
    }
    var files := if dirKind == Missing then map[] else infoFiles;
    assert TileLevels[0] == 0 && SeqMin(TileLevels) == 0;
    var age := SlipTiles.InitialAge(globals.refreshTilesAfterDays, None, now);
    var t := new SlipTiles.BaseTiles(TileLevels, TileWidth, TileHeight, tilesDir, cache, None, "", age,
                                     pending, error, GmtExtent, true, false, Some(files));
    var info := t.GetInfo(0);
    if info.None? {
      return Failed(NoLevelInfo);
    }
    t.numTilesX, t.numTilesY, t.ppdX, t.ppdY := info.value.numTilesX, info.value.numTilesY,
                                                info.value.ppdX, info.value.ppdY;
    return Created(t);
  }

  /** The GMT source's GetInfo: None for a level outside range(5) and for a
      level whose info file cannot be read; otherwise the file's info. */
  lemma GetInfoLevels(t: SlipTiles.BaseTiles, files: map<int, LevelInfo>, lvl: int)
    requires t.levels == TileLevels && t.infoFiles == Some(files)
    ensures t.InfoFor(lvl).Some? <==> 0 <= lvl < 5 && lvl in files
    ensures t.InfoFor(lvl).Some? ==> t.InfoFor(lvl).value == files[lvl]
  {
    if 0 <= lvl < 5 {
      assert TileLevels[lvl] == lvl;
    }
  }

  /** What the conversions read from the source: the extent, the pixels
      per degree of the level in use and the tile size. */
  datatype Frame = Frame(extent: (real, real, real, real), ppdX: real, ppdY: real, tileSizeX: real, tileSizeY: real)

  /** The left (min_xgeo) and top (max_ygeo) of the extent. */
  function MinX(f: Frame): real { f.extent.0 }

  function MaxY(f: Frame): real { f.extent.3 }

  /** Geo2Tile((xgeo, ygeo)): tile coordinates from the top-left of the
      extent. */
  function Geo2Tile(f: Frame, geo: (real, real)): (tile: (real, real))
    requires f.tileSizeX != 0.0 && f.tileSizeY != 0.0
  {
    ((geo.0 - MinX(f)) * f.ppdX / f.tileSizeX, (MaxY(f) - geo.1) * f.ppdY / f.tileSizeY)
  }

  /** Tile2Geo((xtile, ytile)). */
  function Tile2Geo(f: Frame, tile: (real, real)): (geo: (real, real))
    requires f.ppdX != 0.0 && f.ppdY != 0.0
  {
    (tile.0 * (f.tileSizeX / f.ppdX) + MinX(f), MaxY(f) - tile.1 * (f.tileSizeY / f.ppdY))
  }

  /** A frame both conversions accept. */
  predicate Usable(f: Frame) {
    f.ppdX != 0.0 && f.ppdY != 0.0 && f.tileSizeX != 0.0 && f.tileSizeY != 0.0
  }

  lemma MulDivCancel(a: real, p: real, s: real)
    requires p != 0.0 && s != 0.0
    ensures (a * p / s) * (s / p) == a
  {
    calc {
      (a * p / s) * (s / p);
      == (a * p) * s / (s * p);
      == a * (p * s) / (p * s);
    }
  }

  lemma DivMulCancel(t: real, p: real, s: real)
    requires p != 0.0 && s != 0.0
    ensures (t * (s / p)) * p / s == t
  {
    calc {
      (t * (s / p)) * p / s;
      == t * (s * p) / (p * s);
    }
  }

  /** A geo position converted to tile coordinates and back is itself. */
  lemma GeoRoundTrip(f: Frame, geo: (real, real))
    requires Usable(f)
    ensures Tile2Geo(f, Geo2Tile(f, geo)) == geo
  {
    var t := Geo2Tile(f, geo);
    assert t.0 == (geo.0 - MinX(f)) * f.ppdX / f.tileSizeX;
    assert t.1 == (MaxY(f) - geo.1) * f.ppdY / f.tileSizeY;
    MulDivCancel(geo.0 - MinX(f), f.ppdX, f.tileSizeX);
    MulDivCancel(MaxY(f) - geo.1, f.ppdY, f.tileSizeY);
    var g := Tile2Geo(f, t);
    assert g.0 == t.0 * (f.tileSizeX / f.ppdX) + MinX(f) == geo.0;
    assert g.1 == MaxY(f) - t.1 * (f.tileSizeY / f.ppdY) == geo.1;
  }

  /** Tile coordinates converted to a geo position and back are
      themselves. */
  lemma TileRoundTrip(f: Frame, tile: (real, real))
    requires Usable(f)
    ensures Geo2Tile(f, Tile2Geo(f, tile)) == tile
  {
    var g := Tile2Geo(f, tile);
    assert g.0 - MinX(f) == tile.0 * (f.tileSizeX / f.ppdX);
    assert MaxY(f) - g.1 == tile.1 * (f.tileSizeY / f.ppdY);
    DivMulCancel(tile.0, f.ppdX, f.tileSizeX);
    DivMulCancel(tile.1, f.ppdY, f.tileSizeY);
    var t := Geo2Tile(f, g);
    assert t.0 == (g.0 - MinX(f)) * f.ppdX / f.tileSizeX == tile.0;
    assert t.1 == (MaxY(f) - g.1) * f.ppdY / f.tileSizeY == tile.1;
  }

  /** The top-left corner of the extent is tile (0, 0). */
  lemma TopLeftIsOrigin(f: Frame)
    requires f.tileSizeX != 0.0 && f.tileSizeY != 0.0
    ensures Geo2Tile(f, (MinX(f), MaxY(f))) == (0.0, 0.0)
  {
    var t := Geo2Tile(f, (MinX(f), MaxY(f)));
    assert t.0 == 0.0 * f.ppdX / f.tileSizeX;
    assert t.1 == 0.0 * f.ppdY / f.tileSizeY;
  }

  /** With positive ppd and tile sizes, moving east moves right along the
      tiles and moving north moves up (towards row 0). */
  lemma Geo2TileMonotone(f: Frame, g1: (real, real), g2: (real, real))
    requires f.ppdX > 0.0 && f.ppdY > 0.0 && f.tileSizeX > 0.0 && f.tileSizeY > 0.0
    ensures g1.0 < g2.0 ==> Geo2Tile(f, g1).0 < Geo2Tile(f, g2).0
    ensures g1.1 < g2.1 ==> Geo2Tile(f, g1).1 > Geo2Tile(f, g2).1
  {
    if g1.0 < g2.0 {
      assert (g1.0 - MinX(f)) * f.ppdX < (g2.0 - MinX(f)) * f.ppdX;
    }
    if g1.1 < g2.1 {
      assert (MaxY(f) - g1.1) * f.ppdY > (MaxY(f) - g2.1) * f.ppdY;
    }
  }
}
