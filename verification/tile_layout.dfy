/** The arithmetic of the PySlipQt widget's tile layout (pyslipqt/pyslipqt.py):
    bringing the key tile's view offset back within one tile after a drag
    while stepping the key tile column or row around the map, and the list
    of columns or rows that cover the view. Python's % on a positive
    divisor agrees with Dafny's. */
module TileLayout {

  // ---------------------------------------------------------------------
  // Integer division facts
  // ---------------------------------------------------------------------

  lemma MulBounds(k: int, n: int)
    requires n > 0
    ensures k >= 1 ==> k * n >= n
    ensures k <= -1 ==> k * n <= -n
  {
  }

  /** Quotient and remainder are the only ones with the remainder in
      [0, n). */
  lemma DivUnique(a: int, q: int, r: int, n: int)
    requires n > 0 && 0 <= r < n && a == q * n + r
    ensures a / n == q && a % n == r
  {
    var d, m := a / n, a % n;
    assert a == d * n + m;
    assert (q - d) * n == m - r;
    MulBounds(q - d, n);
  }

  /** Stepping a residue forward is stepping the number. */
  lemma ModNext(a: int, n: int)
    requires n > 0
    ensures ((a % n) + 1) % n == (a + 1) % n
  {
    var d, m := a / n, a % n;
    assert a == d * n + m;
    if m + 1 < n {
      DivUnique(a + 1, d, m + 1, n);
      DivUnique(m + 1, 0, m + 1, n);
    } else {
      DivUnique(a + 1, d + 1, 0, n);
      DivUnique(m + 1, 1, 0, n);
    }
  }

  /** Stepping a residue back (as key = (key - 1 + n) % n does) is
      stepping the number back. */
  lemma ModPrev(a: int, n: int)
    requires n > 0
    ensures ((a % n) - 1 + n) % n == (a - 1) % n
  {
    var d, m := a / n, a % n;
    assert a == d * n + m;
    if m >= 1 {
      DivUnique(a - 1, d, m - 1, n);
      DivUnique(m - 1 + n, 1, m - 1, n);
    } else {
      DivUnique(a - 1, d - 1, n - 1, n);
      DivUnique(m - 1 + n, 0, n - 1, n);
    }
  }

  /** Adding the divisor does not change the residue. */
  lemma ModPeriodic(a: int, n: int)
    requires n > 0
    ensures (a + n) % n == a % n
  {
    var d, m := a / n, a % n;
    assert a == d * n + m;
    DivUnique(a + n, d + 1, m, n);
  }

  // ---------------------------------------------------------------------
  // Key tile normalisation
  // ---------------------------------------------------------------------

  /** The key tile offset brought into (-size, 0] by whole tiles. */
  function NormalOffset(offset: int, size: int): (o: int)
    requires size > 0
    ensures -size < o <= 0
  {
    -((-offset) % size)
  }

  /** How many whole tiles the normalisation moves: positive to the right
      (the offset is reduced), negative to the left. */
  function Steps(offset: int, size: int): (k: int)
    requires size > 0
    ensures offset == k * size + NormalOffset(offset, size)
  {
    -((-offset) / size)
  }

  /** The offset changes exactly when the normalisation moves at least
      one tile. */
  lemma StepsZero(offset: int, size: int)
    requires size > 0
    ensures Steps(offset, size) == 0 <==> NormalOffset(offset, size) == offset
  {
  }

  /** The two normalisation loops of mouseMoveEvent, on one axis: while
      the offset is positive a tile width is taken off it and the key tile
      moves one on, modulo the tile count; while it is a tile width or
      more to the left, a width is added and the key tile moves one
      back. */
  method Normalise(key: int, offset: int, size: int, count: int) returns (key': int, offset': int)
    requires size > 0 && count > 0
    ensures offset' == NormalOffset(offset, size)
    ensures key' == if offset' == offset then key else (key + Steps(offset, size)) % count
  {
    ghost var right;
    key', offset', right := StepRight(key, offset, size, count);
    ghost var steps;
    key', offset', steps := StepLeft(key, offset, key', offset', right, size, count);
    DivUnique(-offset, -steps, -offset', size);
  }

  /** The first loop: while the offset is positive, one tile to the
      right. */
  method StepRight(key: int, offset: int, size: int, count: int) returns (key': int, offset': int, ghost steps: int)
    requires size > 0 && count > 0
    ensures offset == steps * size + offset' && offset' <= 0
    ensures steps >= 0 && (steps == 0 ==> key' == key && offset' == offset)
    ensures steps > 0 ==> key' == (key + steps) % count && offset' > -size
  {
    key', offset' := key, offset;
    steps := 0;
    while offset' > 0
      invariant offset == steps * size + offset'
      invariant steps >= 0 && (steps == 0 ==> key' == key && offset' == offset)
      invariant steps > 0 ==> key' == (key + steps) % count && offset' > -size
      decreases offset'
    {
      if steps > 0 {
        ModNext(key + steps, count);
      }
      offset' := offset' - size;
      key' := key' + 1;
      key' := key' % count;
      steps := steps + 1;
    }
  }

  /** The second loop: while the offset is a tile width or more to the
      left, one tile to the left. */
  method StepLeft(ghost key: int, ghost offset: int, key0: int, offset0: int, ghost steps0: int, size: int, count: int)
    returns (key': int, offset': int, ghost steps: int)
    requires size > 0 && count > 0
    requires offset == steps0 * size + offset0 && offset0 <= 0
    requires steps0 >= 0 && (steps0 == 0 ==> key0 == key && offset0 == offset)
    requires steps0 > 0 ==> key0 == (key + steps0) % count && offset0 > -size
    ensures offset == steps * size + offset' && -size < offset' <= 0
    ensures steps == 0 ==> key' == key && offset' == offset
    ensures steps != 0 ==> key' == (key + steps) % count
  {
    key', offset', steps := key0, offset0, steps0;
    while offset' <= -size
      invariant offset == steps * size + offset'
      invariant steps == 0 ==> key' == key && offset' == offset
      invariant steps != 0 ==> key' == (key + steps) % count
      invariant steps > 0 ==> offset' > -size
      invariant offset' <= 0
      decreases -offset'
    {
      if steps == 0 {
        ModPeriodic(key - 1, count);
      } else {
        ModPrev(key + steps, count);
      }
      offset' := offset' + size;
      key' := key' - 1;
      key' := (key' + count) % count;
      steps := steps - 1;
    }
  }

  /** For a key tile inside the map, the normalised key tile is inside the
      map too and has moved Steps tiles, modulo the tile count. */
  lemma NormalKeyInRange(key: int, offset: int, size: int, count: int)
    requires size > 0 && count > 0 && 0 <= key < count
    ensures var k := if NormalOffset(offset, size) == offset then key else (key + Steps(offset, size)) % count;
      0 <= k < count && k == (key + Steps(offset, size)) % count
  {
    StepsZero(offset, size);
    DivUnique(key, 0, key, count);
  }

  // ---------------------------------------------------------------------
  // The tiles covering the view
  // ---------------------------------------------------------------------

  /** The loop can run: it divides by the tile count unless it stops at
      the map edge first. */
  predicate ListDefined(start: int, count: int, wrap: bool) {
    count > 0 || (!wrap && start >= count - 1)
  }

  /** The columns (or rows) paintEvent lists: from the key tile at view
      offset `offset`, one tile every `size` pixels while the tile starts
      inside the view, stopping after the map's last tile unless the map
      wraps. */
  function Columns(start: int, offset: int, limit: int, count: int, size: int, wrap: bool): (c: seq<int>)
    requires size > 0 && ListDefined(start, count, wrap)
    ensures c == [] <==> offset >= limit
    ensures c != [] ==> c[0] == start
    decreases limit - offset
  {
    if offset >= limit then []
    else if !wrap && start >= count - 1 then [start]
    else [start] + Columns((start + 1) % count, offset + size, limit, count, size, wrap)
  }

  /** Every listed column is a tile of the map. */
  lemma {:induction false} ColumnsInRange(start: int, offset: int, limit: int, count: int, size: int, wrap: bool)
    requires size > 0 && count > 0 && 0 <= start < count
    ensures var c := Columns(start, offset, limit, count, size, wrap);
      forall i :: 0 <= i < |c| ==> 0 <= c[i] < count
    decreases limit - offset
  {
    if offset < limit && !(!wrap && start >= count - 1) {
      var next := (start + 1) % count;
      ColumnsInRange(next, offset + size, limit, count, size, wrap);
      var c := Columns(start, offset, limit, count, size, wrap);
      assert c[1..] == Columns(next, offset + size, limit, count, size, wrap);
      forall i | 0 <= i < |c|
        ensures 0 <= c[i] < count
      {
        if i > 0 {
          assert c[i] == c[1..][i - 1];
        }
      }
    }
  }

  /** Every entry is the one after its predecessor, modulo count. */
  predicate Successive(c: seq<int>, count: int)
    requires count > 0
  {
    forall i :: 0 <= i < |c| - 1 ==> c[i + 1] == (c[i] + 1) % count
  }

  /** Each listed column is the one after its predecessor, modulo the tile
      count. */
  lemma {:induction false} ColumnsSuccessive(start: int, offset: int, limit: int, count: int, size: int, wrap: bool)
    requires size > 0 && count > 0
    ensures Successive(Columns(start, offset, limit, count, size, wrap), count)
    decreases limit - offset
  {
    if offset < limit && !(!wrap && start >= count - 1) {
      var next := (start + 1) % count;
      var c := Columns(start, offset, limit, count, size, wrap);
      var rest := Columns(next, offset + size, limit, count, size, wrap);
      ColumnsSuccessive(next, offset + size, limit, count, size, wrap);
      assert c == [start] + rest;
      forall i | 0 <= i < |c| - 1
        ensures c[i + 1] == (c[i] + 1) % count
      {
        assert c[i + 1] == rest[i];
        if i == 0 {
          assert rest != [] && rest[0] == next;
        } else {
          assert c[i] == rest[i - 1];
        }
      }
    }
  }

  /** Without wrapping the list counts up from the key tile and never
      passes the map's last tile. */
  lemma {:induction false} ColumnsNoWrap(start: int, offset: int, limit: int, count: int, size: int)
    requires size > 0 && 0 <= start < count
    ensures var c := Columns(start, offset, limit, count, size, false);
      (forall i :: 0 <= i < |c| ==> c[i] == start + i) && start + |c| <= count
    decreases limit - offset
  {
    if offset < limit && start < count - 1 {
      var c := Columns(start, offset, limit, count, size, false);
      var rest := Columns(start + 1, offset + size, limit, count, size, false);
      DivUnique(start + 1, 0, start + 1, count);
      ColumnsNoWrap(start + 1, offset + size, limit, count, size);
      assert c == [start] + rest;
      forall i | 0 <= i < |c|
        ensures c[i] == start + i
      {
        if i > 0 {
          assert c[i] == rest[i - 1];
        }
      }
    }
  }

  /** With wrapping the list has one column per tile width needed to go
      from the key tile's offset to the view's edge. */
  lemma {:induction false} ColumnsWrapLength(start: int, offset: int, limit: int, count: int, size: int)
    requires size > 0 && count > 0
    ensures |Columns(start, offset, limit, count, size, true)| ==
      if offset >= limit then 0 else (limit - offset + size - 1) / size
    decreases limit - offset
  {
    if offset < limit {
      ColumnsWrapLength((start + 1) % count, offset + size, limit, count, size);
      var a := limit - offset + size - 1;
      var q, r := a / size, a % size;
      assert a == q * size + r;
      DivUnique(a - size, q - 1, r, size);
      if offset + size >= limit {
        DivUnique(a, 1, limit - offset - 1, size);
      }
    }
  }

  /** The column (or row) loop of paintEvent. */
  method TileList(start: int, offset: int, limit: int, count: int, size: int, wrap: bool) returns (list: seq<int>)
    requires size > 0 && ListDefined(start, count, wrap)
    ensures list == Columns(start, offset, limit, count, size, wrap)
  {
    list := [];
    var coord := start;
    var pix := offset;
    while pix < limit
      invariant ListDefined(coord, count, wrap)
      invariant list + Columns(coord, pix, limit, count, size, wrap) == Columns(start, offset, limit, count, size, wrap)
      decreases limit - pix
    {
      assert Columns(coord, pix, limit, count, size, wrap)[0] == coord;
      list := list + [coord];
      if !wrap && coord >= count - 1 {
        return;
      }
      coord := (coord + 1) % count;
      pix := pix + size;
    }
    assert list + [] == list;
  }

}
