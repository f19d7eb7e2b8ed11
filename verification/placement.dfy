/** The nine-way placement rule of pyslipqt/test_assumptions.py: an object
    of size w x h anchored at (x, y) with offsets (x_off, y_off) is moved so
    that the named compass point of the object sits on the anchor. Two
    forms exist side by side: an if/elif chain and a table of statements
    run with exec(); the model has both and proves them equal. Python's '/'
    is true division here, so coordinates are reals. */
module Placement {

  /** The nine placement codes the rule recognises. */
  const Codes: set<string> := {"nw", "cn", "ne", "cw", "cc", "ce", "sw", "cs", "se"}

  /** The if/elif chain test(x, y, place, w, h, x_off, y_off). */
  function Place(x: real, y: real, place: string, w: real, h: real,
                 xOff: real, yOff: real): (real, real)
  {
    var w2 := w / 2.0;
    var h2 := h / 2.0;
    if place == "cc" then (x + (xOff - w2), y + (yOff - h2))
    else if place == "nw" then (x + xOff, y + yOff)
    else if place == "cn" then (x + (xOff - w2), y + yOff)
    else if place == "ne" then (x + (xOff - w), y + yOff)
    else if place == "ce" then (x + (xOff - w), y + (yOff - h2))
    else if place == "se" then (x + (xOff - w), y + (yOff - h))
    else if place == "cs" then (x + (xOff - w2), y + (yOff - h))
    else if place == "sw" then (x + xOff, y + (yOff - h))
    else if place == "cw" then (x + xOff, y + (yOff - h2))
    else (x, y)
  }

  /** How much of a size a placement subtracts: none, half or all of it. */
  datatype Share = Nothing | Half | All

  function Amount(s: Share, size: real): (r: real)
    ensures s == Nothing ==> r == 0.0
    ensures s == Half ==> r + r == size
    ensures s == All ==> r == size
  {
    match s
    case Nothing => 0.0
    case Half => size / 2.0
    case All => size
  }

  /** Reference rule read off the compass letters: a west code keeps the
      anchor on the left edge, an east code on the right edge, any other
      code on the centre. */
  function HorizontalShare(place: string): Share {
    if 'w' in place then Nothing else if 'e' in place then All else Half
  }

  /** A north code keeps the anchor on the top edge, a south code on the
      bottom edge, any other code on the middle. */
  function VerticalShare(place: string): Share {
    if 'n' in place then Nothing else if 's' in place then All else Half
  }

  /** The chain agrees with the compass-letter rule on all nine codes,
      and leaves (x, y) untouched, offsets included, on anything else. */
  lemma PlaceByCompass(x: real, y: real, place: string, w: real, h: real, xOff: real, yOff: real)
    ensures place in Codes ==>
      Place(x, y, place, w, h, xOff, yOff) ==
        (x + xOff - Amount(HorizontalShare(place), w), y + yOff - Amount(VerticalShare(place), h))
    ensures place !in Codes ==> Place(x, y, place, w, h, xOff, yOff) == (x, y)
  {
    if place in Codes {
      assert |place| == 2 && place == [place[0], place[1]];
    }
  }

  /** 'nw' only adds the offsets. */
  lemma NorthWestAddsOffsets(x: real, y: real, w: real, h: real, xOff: real, yOff: real)
    ensures Place(x, y, "nw", w, h, xOff, yOff) == (x + xOff, y + yOff)
  {
  }

  // ---------------------------------------------------------------------
  // The exec() dispatch table
  // ---------------------------------------------------------------------

  /** Keys of the exec table: Python strings, None and False. */
  datatype Key = Str(s: string) | PyNone | PyFalse

  /** A compiled table entry: either the empty statement or
      'x+=x_off-<dx>; y+=y_off-<dy>' with dx, dy among 0, w2/h2, w/h. */
  datatype Stmt = Pass | Shift(dx: Share, dy: Share)

  /** The table of statements keyed by placement code. */
  const ExecTable: map<Key, Stmt> := map[
    Str("cc") := Shift(Half, Half),
    Str("nw") := Shift(Nothing, Nothing),
    Str("cn") := Shift(Half, Nothing),
    Str("ne") := Shift(All, Nothing),
    Str("ce") := Shift(All, Half),
    Str("se") := Shift(All, All),
    Str("cs") := Shift(Half, All),
    Str("sw") := Shift(Nothing, All),
    Str("cw") := Shift(Nothing, Half),
    PyNone := Pass,
    PyFalse := Pass,
    Str("") := Pass]

  /** exec() of one compiled statement on the variables x and y, given
      the effect its text spells out. Run inside a method, CPython 3's
      exec() would update a snapshot of locals() and leave x and y as
      they were; the test source never reads x or y after the exec, so
      the difference is not observable there. */
  function Exec(st: Stmt, x: real, y: real, w: real, h: real, xOff: real, yOff: real): (real, real)
  {
    match st
    case Pass => (x, y)
    case Shift(dx, dy) => (x + (xOff - Amount(dx, w)), y + (yOff - Amount(dy, h)))
  }

  /** The table's statements for the top edge: nw, cn and ne. */
  lemma NorthRow(place: string)
    requires place == "nw" || place == "cn" || place == "ne"
    ensures Str(place) in ExecTable
    ensures ExecTable[Str(place)] == Shift(HorizontalShare(place), VerticalShare(place))
  {
    if place == "nw" {
      assert ExecTable[Str("nw")] == Shift(Nothing, Nothing);
      assert "nw"[0] == 'n' && "nw"[1] == 'w';
    } else if place == "cn" {
      assert ExecTable[Str("cn")] == Shift(Half, Nothing);
      assert "cn"[0] == 'c' && "cn"[1] == 'n';
    } else {
      assert ExecTable[Str("ne")] == Shift(All, Nothing);
      assert "ne"[0] == 'n' && "ne"[1] == 'e';
    }
  }

  /** The table's statements for the middle: cw, cc and ce. */
  lemma MiddleRow(place: string)
    requires place == "cw" || place == "cc" || place == "ce"
    ensures Str(place) in ExecTable
    ensures ExecTable[Str(place)] == Shift(HorizontalShare(place), VerticalShare(place))
  {
    if place == "cw" {
      assert ExecTable[Str("cw")] == Shift(Nothing, Half);
      assert "cw"[0] == 'c' && "cw"[1] == 'w';
    } else if place == "cc" {
      assert ExecTable[Str("cc")] == Shift(Half, Half);
      assert "cc"[0] == 'c' && "cc"[1] == 'c';
    } else {
      assert ExecTable[Str("ce")] == Shift(All, Half);
      assert "ce"[0] == 'c' && "ce"[1] == 'e';
    }
  }

  /** The table's statements for the bottom edge: sw, cs and se. */
  lemma SouthRow(place: string)
    requires place == "sw" || place == "cs" || place == "se"
    ensures Str(place) in ExecTable
    ensures ExecTable[Str(place)] == Shift(HorizontalShare(place), VerticalShare(place))
  {
    if place == "sw" {
      assert ExecTable[Str("sw")] == Shift(Nothing, All);
      assert "sw"[0] == 's' && "sw"[1] == 'w';
    } else if place == "cs" {
      assert ExecTable[Str("cs")] == Shift(Half, All);
      assert "cs"[0] == 'c' && "cs"[1] == 's';
    } else {
      assert ExecTable[Str("se")] == Shift(All, All);
      assert "se"[0] == 's' && "se"[1] == 'e';
    }
  }

  /** The table's statement for each of the nine codes is the one the
      compass letters call for. */
  lemma TableRow(place: string)
    requires place in Codes
    ensures Str(place) in ExecTable
    ensures ExecTable[Str(place)] == Shift(HorizontalShare(place), VerticalShare(place))
  {
    if place == "nw" || place == "cn" || place == "ne" {
      NorthRow(place);
    } else if place == "cw" || place == "cc" || place == "ce" {
      MiddleRow(place);
    } else {
      SouthRow(place);
    }
  }

  /** The exec table and the if/elif chain place every one of the nine
      codes identically. */
  lemma ExecTableAgrees(x: real, y: real, place: string, w: real, h: real, xOff: real, yOff: real)
    requires place in Codes
    ensures Str(place) in ExecTable
    ensures Exec(ExecTable[Str(place)], x, y, w, h, xOff, yOff) == Place(x, y, place, w, h, xOff, yOff)
  {
    TableRow(place);
    PlaceByCompass(x, y, place, w, h, xOff, yOff);
  }

  /** None, False and '' are in the table and do nothing. */
  lemma FalsyKeysDoNothing(x: real, y: real, w: real, h: real, xOff: real, yOff: real)
    ensures forall k :: k in {PyNone, PyFalse, Str("")} ==>
      k in ExecTable && Exec(ExecTable[k], x, y, w, h, xOff, yOff) == (x, y)
  {
  }

  /** The table holds exactly the nine codes and the three falsy keys. */
  lemma ExecTableKeys()
    ensures ExecTable.Keys == (set c | c in Codes :: Str(c)) + {PyNone, PyFalse, Str("")}
  {
  }
}
