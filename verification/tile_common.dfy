/** What the tile sources of both packages share: tile keys, the level
    info tuple, the number of tiles at a level, the on-disk tile path of
    Cache.tile_path, and the mapping from a server URL path's extension
    to the image type and HTTP Content-Type (AllowedFileTypes). */
module TileCommon {
  import opened PyText

  /** A tile key (level, x, y). */
  type Key = (int, int, int)

  /** A tile image. The model keeps images as opaque identities: a pixmap
      loaded from disk, fetched from a server, or the "pending" and
      "error" placeholders. */
  datatype Image = Image(id: int)

  /** GetInfo's (num_tiles_x, num_tiles_y, ppd_x, ppd_y); ppd is None for
      tile sources where pixels per degree has no fixed meaning. */
  datatype LevelInfo = LevelInfo(numTilesX: int, numTilesY: int, ppdX: Option<real>, ppdY: Option<real>)

  /** What the file system has at a path. */
  datatype PathKind = Directory | RegularFile | Missing

  /** The map extent (left, right, top, bottom) every tile source starts
      with. */
  const DefaultExtent: (real, real, real, real) := (-180.0, 180.0, -85.0511, 85.0511)

  /** min(levels). */
  function SeqMin(s: seq<int>): (m: int)
    requires s != []
    ensures m in s && forall x :: x in s ==> m <= x
  {
    if |s| == 1 then s[0]
    else
      var t := SeqMin(s[1..]);
      assert forall x :: x in s ==> x == s[0] || x in s[1..];
      if s[0] <= t then s[0] else t
  }

  /** max(levels). */
  function SeqMax(s: seq<int>): (m: int)
    requires s != []
    ensures m in s && forall x :: x in s ==> x <= m
  {
    if |s| == 1 then s[0]
    else
      var t := SeqMax(s[1..]);
      assert forall x :: x in s ==> x == s[0] || x in s[1..];
      if s[0] >= t then s[0] else t
  }

  function Pow2(n: nat): (r: nat)
    ensures r >= 1
  {
    if n == 0 then 1 else 2 * Pow2(n - 1)
  }

  /** int(math.pow(2, level)): for a negative level the power is a
      fraction below one and int() truncates it to 0. */
  function TilesAtLevel(level: int): nat
  {
    if level < 0 then 0 else Pow2(level)
  }

  /** One more level doubles the tile count along each axis. */
  lemma TilesAtLevelDoubles(level: nat)
    ensures TilesAtLevel(level + 1) == 2 * TilesAtLevel(level)
  {
  }

  /** The info the server tile sources report for a level they serve:
      2^level tiles along each axis and no ppd. */
  function PowerInfo(level: int): LevelInfo
  {
    LevelInfo(TilesAtLevel(level), TilesAtLevel(level), None, None)
  }

  // ---------------------------------------------------------------------
  // The request queue and queued_requests
  // ---------------------------------------------------------------------

  /** The server request bookkeeping: the FIFO request queue the workers
      read, and the keys of queued_requests. */
  datatype Requests = Requests(queue: seq<Key>, queued: set<Key>)

  /** get_server_tile / _get_internet_tile: queue the key unless a request
      for it is already outstanding. */
  function Enqueue(r: Requests, key: Key): Requests
  {
    if key in r.queued then r else Requests(r.queue + [key], r.queued + {key})
  }

  /** The queue holds no key twice and every queued key is recorded as
      outstanding. */
  predicate Consistent(r: Requests) {
    (forall i, j :: 0 <= i < j < |r.queue| ==> r.queue[i] != r.queue[j]) &&
    (forall i :: 0 <= i < |r.queue| ==> r.queue[i] in r.queued)
  }

  /** Asking twice for the same tile queues it once. */
  lemma EnqueueIdempotent(r: Requests, key: Key)
    ensures Enqueue(Enqueue(r, key), key) == Enqueue(r, key)
  {
  }

  /** Queueing keeps the queue free of duplicates. */
  lemma EnqueueConsistent(r: Requests, key: Key)
    requires Consistent(r)
    ensures Consistent(Enqueue(r, key))
  {
    var r' := Enqueue(r, key);
    if key !in r.queued {
      forall i, j | 0 <= i < j < |r'.queue|
        ensures r'.queue[i] != r'.queue[j]
      {
        if j == |r.queue| {
          assert r'.queue[i] == r.queue[i] && r.queue[i] in r.queued;
        }
      }
    }
  }

  /** Any number of requests for the same key leave at most one copy of it
      in the queue. */
  lemma {:induction false} EnqueueAllOnce(r: Requests, keys: seq<Key>, key: Key)
    requires Consistent(r)
    ensures Consistent(EnqueueAll(r, keys))
    ensures multiset(EnqueueAll(r, keys).queue)[key] <= 1
    decreases |keys|
  {
    if keys != [] {
      EnqueueConsistent(r, keys[0]);
      EnqueueAllOnce(Enqueue(r, keys[0]), keys[1..], key);
    } else {
      ConsistentAtMostOnce(r, key);
    }
  }

  /** The requests made one after the other. */
  function EnqueueAll(r: Requests, keys: seq<Key>): Requests
    decreases |keys|
  {
    if keys == [] then r else EnqueueAll(Enqueue(r, keys[0]), keys[1..])
  }

  lemma {:induction false} ConsistentAtMostOnce(r: Requests, key: Key)
    requires Consistent(r)
    ensures multiset(r.queue)[key] <= 1
    decreases |r.queue|
  {
    if r.queue != [] {
      var q := r.queue;
      var rest := Requests(q[1..], r.queued);
      ConsistentAtMostOnce(rest, key);
      assert q == [q[0]] + q[1..];
      if q[0] == key {
        assert key !in q[1..] by {
          forall j | 0 <= j < |q| - 1
            ensures q[1..][j] != key
          {
            assert q[1..][j] == q[j + 1];
          }
        }
      }
    }
  }

  /** FlushRequests empties both the queue and queued_requests. */
  const NoRequests := Requests([], {})

  // ---------------------------------------------------------------------
  // Cache.tile_path
  // ---------------------------------------------------------------------

  /** The '{Z}/{X}/{Y}.png' path of a tile inside the cache directory. */
  function RelativeTilePath(key: Key): string {
    IntToString(key.0) + "/" + IntToString(key.1) + "/" + IntToString(key.2) + ".png"
  }

  /** What os.path.join(dir, rel) puts before a relative part that does
      not start with '/': dir itself when it is empty or ends in '/',
      else dir and a '/'. */
  function JoinPrefix(dir: string): string {
    if dir == [] || dir[|dir| - 1] == '/' then dir else dir + "/"
  }

  /** Cache.tile_path((level, x, y)). */
  function TilePath(dir: string, key: Key): (p: string)
    ensures |p| >= |JoinPrefix(dir)| && p[..|JoinPrefix(dir)|] == JoinPrefix(dir)
  {
    var rel := RelativeTilePath(key);
    assert rel[0] != '/';
    JoinPrefix(dir) + rel
  }

  /** Reads a tile key back out of a path under dir; None when the path is
      not of the 'dir/Z/X/Y.png' form. */
  function ParseTilePath(dir: string, p: string): Option<Key> {
    var pre := JoinPrefix(dir);
    if |p| < |pre| || p[..|pre|] != pre then None
    else match SplitOnce(p[|pre|..], '/')
      case None => None
      case Some((z, rest)) =>
        match SplitOnce(rest, '/')
        case None => None
        case Some((x, file)) =>
          if |file| < 4 || file[|file| - 4..] != ".png" then None
          else
            match (ParseInt(z), ParseInt(x), ParseInt(file[..|file| - 4]))
            case (Some(l), Some(tx), Some(ty)) => Some((l, tx, ty))
            case _ => None
  }

  lemma IntToStringNoSlash(n: int)
    ensures '/' !in IntToString(n)
  {
    var s := IntToString(n);
    assert forall i :: 0 <= i < |s| ==> s[i] != '/';
  }

  /** The tile path names its tile: the key read back from it is the key
      it was made from. */
  lemma {:induction false} TilePathRoundTrip(dir: string, key: Key)
    ensures ParseTilePath(dir, TilePath(dir, key)) == Some(key)
  {
    var pre := JoinPrefix(dir);
    var (l, x, y) := key;
    var z, xs, ys := IntToString(l), IntToString(x), IntToString(y);
    var p := TilePath(dir, key);
    var file := ys + ".png";
    assert p[|pre|..] == z + ['/'] + (xs + ['/'] + file);
    IntToStringNoSlash(l);
    IntToStringNoSlash(x);
    SplitOnceJoin(z, '/', xs + ['/'] + file);
    SplitOnceJoin(xs, '/', file);
    assert file[|file| - 4..] == ".png" && file[..|file| - 4] == ys;
    ParseIntToString(l);
    ParseIntToString(x);
    ParseIntToString(y);
  }

  /** Different tiles never share a cache file. */
  lemma TilePathInjective(dir: string, k1: Key, k2: Key)
    requires TilePath(dir, k1) == TilePath(dir, k2)
    ensures k1 == k2
  {
    TilePathRoundTrip(dir, k1);
    TilePathRoundTrip(dir, k2);
  }

  // ---------------------------------------------------------------------
  // AllowedFileTypes and the Content-Type
  // ---------------------------------------------------------------------

  /** The tile image types a server may deliver, keyed by extension. */
  const AllowedFileTypes: map<string, string> := map["png" := "PNG", "jpg" := "JPG"]

  /** os.path.splitext(url_path)[1][1:]: the extension without its dot. */
  function TileExtension(urlPath: string): string {
    var ext := SplitExt(urlPath).1;
    if ext == [] then [] else ext[1..]
  }

  /** The (filetype, content_type) a server tile source sets from its URL
      path; None where the constructor raises TypeError. The extension is
      compared lower-cased. */
  function TileFormat(urlPath: string): Option<(string, string)>
  {
    var ext := Lower(TileExtension(urlPath));
    if ext !in AllowedFileTypes then None
    else if ext == "jpg" then Some((AllowedFileTypes[ext], "image/jpeg"))
    else Some((AllowedFileTypes[ext], "image/png"))
  }

  /** The Content-Type expected from a server always names the same image
      type as the file type. */
  lemma ContentTypeMatchesFileType(urlPath: string)
    requires TileFormat(urlPath).Some?
    ensures var (ft, ct) := TileFormat(urlPath).value;
      (ft == "JPG" && ct == "image/jpeg") || (ft == "PNG" && ct == "image/png")
  {
  }

  /** For a URL path whose last component is a name followed by '.' and an
      extension, the path is accepted exactly when the extension is png or
      jpg in any mix of cases. */
  lemma {:induction false} TileFormatByExtension(stem: string, ext: string)
    requires stem != [] && stem[|stem| - 1] != '/' && stem[|stem| - 1] != '.'
    requires '.' !in ext && '/' !in ext
    ensures TileFormat(stem + "." + ext).Some? <==> Lower(ext) in AllowedFileTypes
  {
    var p := stem + "." + ext;
    var n := |stem|;
    assert p[n] == '.';
    var dot := RFind(p, '.');
    var sep := RFind(p, '/');
    forall i | n < i < |p|
      ensures p[i] != '.' && p[i] != '/'
    {
      assert p[i] == ext[i - n - 1];
    }
    assert p[n - 1] == stem[n - 1];
    assert dot == n;
    assert sep < n - 1;
    assert p[n - 1] != '.';
    assert HasNonDot(p, sep + 1, dot);
    assert SplitExt(p).1 == p[n..];
    assert p[n..][1..] == ext;
  }
}
