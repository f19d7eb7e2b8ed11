/** The select handling shared by the two demo programs
    (pySlipQt/examples/pyslipqt_demo.py and pyslipqt/pyslipqt_demo.py):
    the dispatch table from layer id to select handler, and the handlers
    that highlight a selection in a layer of their own. The widget's layer
    store is modelled as a map from layer id to the layer drawn; layer ids
    are handed out from 1 upwards, so every id is truthy. */
module DemoSelect {
  import opened PyText

  /** An attribute value of a selected point (colour, radius, offsets,
      user data). */
  datatype Value = Value(repr: string)

  /** A selected point (x, y, attributes). */
  datatype Point = Point(x: real, y: real, attrs: map<string, Value>)

  /** A selected text (x, y, text, attributes). */
  datatype TextPoint = TextPoint(x: real, y: real, text: string, attrs: map<string, Value>)

  /** A highlight layer: its points, colour, point radius and whether it
      is map-relative. */
  datatype Layer = Layer(points: seq<Point>, colour: string, radius: int, mapRel: bool)

  /** The attributes the point handlers delete before highlighting. */
  const PointKeys: set<string> := {"colour", "radius"}

  /** The attributes the text handlers delete: the point attributes and
      the text offsets. */
  const TextKeys: set<string> := {"colour", "radius", "offset_x", "offset_y"}

  function Strip(p: Point, keys: set<string>): Point {
    Point(p.x, p.y, p.attrs - keys)
  }

  /** Every point of a selection with the given attributes deleted. */
  function StripAll(sel: seq<Point>, keys: set<string>): (r: seq<Point>)
    ensures |r| == |sel|
    ensures forall i :: 0 <= i < |sel| ==> r[i] == Strip(sel[i], keys)
  {
    seq(|sel|, i requires 0 <= i < |sel| => Strip(sel[i], keys))
  }

  /** The texts of a selection with the given attributes deleted. */
  function StripTexts(sel: seq<TextPoint>, keys: set<string>): (r: seq<TextPoint>)
    ensures |r| == |sel|
    ensures forall i :: 0 <= i < |sel| ==>
      r[i] == TextPoint(sel[i].x, sel[i].y, sel[i].text, sel[i].attrs - keys)
  {
    seq(|sel|, i requires 0 <= i < |sel| => TextPoint(sel[i].x, sel[i].y, sel[i].text, sel[i].attrs - keys))
  }

  /** The (x, y, attributes) points of a text selection. */
  function TextsAsPoints(sel: seq<TextPoint>): (r: seq<Point>)
    ensures |r| == |sel|
    ensures forall i :: 0 <= i < |sel| ==> r[i] == Point(sel[i].x, sel[i].y, sel[i].attrs)
  {
    seq(|sel|, i requires 0 <= i < |sel| => Point(sel[i].x, sel[i].y, sel[i].attrs))
  }

  /** Every point carries the attributes a handler deletes (`del d[key]`
      raises KeyError otherwise; the layer code guarantees them). */
  predicate HasKeys(sel: seq<Point>, keys: set<string>) {
    forall i :: 0 <= i < |sel| ==> keys <= sel[i].attrs.Keys
  }

  predicate TextsHaveKeys(sel: seq<TextPoint>, keys: set<string>) {
    forall i :: 0 <= i < |sel| ==> keys <= sel[i].attrs.Keys
  }

  // ---------------------------------------------------------------------
  // The highlight state machines
  // ---------------------------------------------------------------------

  /** What a point handler remembers and shows: the stored selection
      (sel_point, sel_point_view) and the points of its highlight layer,
      None when there is none. */
  datatype Highlight = Highlight(selected: Option<seq<Point>>, shown: Option<seq<Point>>)

  const Off := Highlight(None, None)

  /** pointSelect: the same selection again turns the highlight off; any
      other non-empty selection replaces it, remembering a copy taken
      before the attributes are deleted; an empty selection changes
      nothing. */
  function PointSelectStep(h: Highlight, sel: seq<Point>): Highlight {
    if h.selected == Some(sel) then Off
    else if sel != [] then Highlight(Some(sel), Some(StripAll(sel, PointKeys)))
    else h
  }

  /** A second identical selection turns the highlight off. */
  lemma PointSelectToggles(h: Highlight, sel: seq<Point>)
    requires sel != [] && h.selected != Some(sel)
    ensures PointSelectStep(h, sel).shown.Some?
    ensures PointSelectStep(PointSelectStep(h, sel), sel) == Off
  {
  }

  /** The highlight shows the selection without its colour and radius, and
      the selection remembered is the one made. */
  lemma PointSelectShowsStripped(h: Highlight, sel: seq<Point>)
    requires sel != [] && h.selected != Some(sel)
    ensures var h' := PointSelectStep(h, sel);
      h'.selected == Some(sel) && |h'.shown.value| == |sel| &&
      forall i :: 0 <= i < |sel| ==>
        h'.shown.value[i].attrs.Keys == sel[i].attrs.Keys - PointKeys &&
        (h'.shown.value[i].x, h'.shown.value[i].y) == (sel[i].x, sel[i].y)
  {
  }

  /** An empty selection is ignored unless it repeats the stored one. */
  lemma PointSelectIgnoresEmpty(h: Highlight)
    requires h.selected != Some([])
    ensures PointSelectStep(h, []) == h
  {
  }

  /** pointViewSelect as written: the old highlight always goes; a
      non-empty selection that differs from the stored one is highlighted
      and stored, but it is stored by reference, so the attribute
      deletion that follows strips the stored selection too; anything
      else clears the stored selection. */
  function PointViewStepAsWritten(h: Highlight, sel: seq<Point>): Highlight {
    if sel != [] && h.selected != Some(sel) then
      Highlight(Some(StripAll(sel, PointKeys)), Some(StripAll(sel, PointKeys)))
    else Off
  }

  /** pointViewSelect as intended: the stored selection is the one made,
      as pointSelect keeps it with a deep copy. */
  function PointViewStep(h: Highlight, sel: seq<Point>): Highlight {
    if sel != [] && h.selected != Some(sel) then Highlight(Some(sel), Some(StripAll(sel, PointKeys)))
    else Off
  }

  /** As written, selecting the same points twice highlights them twice:
      the stored selection has lost its colour and radius, so the fresh
      one never compares equal to it. */
  lemma PointViewReselectAsWritten(h: Highlight, sel: seq<Point>)
    requires sel != [] && HasKeys(sel, PointKeys) && h.selected != Some(sel)
    ensures PointViewStepAsWritten(h, sel).shown.Some?
    ensures PointViewStepAsWritten(PointViewStepAsWritten(h, sel), sel).shown.Some?
  {
    var stored := StripAll(sel, PointKeys);
    assert "colour" in sel[0].attrs && "colour" !in stored[0].attrs;
    assert stored != sel;
  }

  /** As intended, the click after a highlight turns it off, whether it
      selects the same points, other points or nothing; only other
      points are highlighted in its place. */
  lemma PointViewReselectTurnsOff(h: Highlight, sel: seq<Point>, next: seq<Point>)
    requires sel != [] && h.selected != Some(sel)
    ensures PointViewStep(h, sel).shown == Some(StripAll(sel, PointKeys))
    ensures PointViewStep(PointViewStep(h, sel), sel) == Off
    ensures next != sel ==> PointViewStep(PointViewStep(h, sel), next) == PointViewStep(Off, next)
  {
  }

  // ---------------------------------------------------------------------
  // The handlers
  // ---------------------------------------------------------------------

  /** A select handler, by name. */
  datatype Handler = Handler(name: string)

  const NullHandler := Handler("null_handler")

  /** The layer store without the layer id names, if any. */
  function Without(layers: map<int, Layer>, id: Option<int>): (r: map<int, Layer>)
    ensures id.Some? ==> r == layers - {id.value}
    ensures id.None? ==> r == layers
  {
    if id.Some? then layers - {id.value} else layers
  }

  /** Two highlight layer ids that are not the same layer. */
  predicate Apart(a: Option<int>, b: Option<int>) {
    a.Some? && b.Some? ==> a.value != b.value
  }

  /** The state the demo keeps for selections, and the widget's layers. */
  class Demo {
    /** The widget's layers, by id, and the next id AddPointLayer hands
        out. */
    var layers: map<int, Layer>
    var nextId: int
    /** demo_select_dispatch. */
    var dispatch: map<int, Handler>
    var selPoint: Option<seq<Point>>
    var selPointLayer: Option<int>
    var selPointView: Option<seq<Point>>
    var selPointViewLayer: Option<int>
    var selText: Option<seq<TextPoint>>
    var selTextLayer: Option<int>

    /** Layer ids are positive and below the next one. */
    predicate StoreValid()
      reads this
    {
      nextId >= 1 && forall k :: k in layers ==> 1 <= k < nextId
    }

    /** The store is valid; each highlight layer recorded is in the store
        and is a layer of its own; pointSelect keeps its selection and
        layer together. */
    predicate Valid()
      reads this
    {
      StoreValid() &&
      (selPointLayer.Some? ==> selPointLayer.value in layers) &&
      (selPointViewLayer.Some? ==> selPointViewLayer.value in layers) &&
      (selTextLayer.Some? ==> selTextLayer.value in layers) &&
      Apart(selPointLayer, selPointViewLayer) && Apart(selPointLayer, selTextLayer) &&
      Apart(selPointViewLayer, selTextLayer) &&
      (selPoint.Some? <==> selPointLayer.Some?)
    }

    /** The points of a highlight layer, None when there is none. */
    function Shown(id: Option<int>): Option<seq<Point>>
      reads this
    {
      if id.Some? && id.value in layers then Some(layers[id.value].points) else None
    }

    /** The demo starts with no selections, no handlers and no layers. */
    constructor ()
      ensures Valid() && layers == map[] && dispatch == map[]
      ensures selPoint.None? && selPointView.None? && selText.None?
      ensures selPointLayer.None? && selPointViewLayer.None? && selTextLayer.None?
    {
      layers, nextId, dispatch := map[], 1, map[];
      selPoint, selPointLayer := None, None;
      selPointView, selPointViewLayer := None, None;
      selText, selTextLayer := None, None;
    }

    /** The widget's AddPointLayer: a new layer under a fresh id. */
    method AddPointLayer(points: seq<Point>, colour: string, radius: int, mapRel: bool) returns (id: int)
      requires StoreValid()
      modifies this
      ensures StoreValid()
      ensures id == old(nextId) && id !in old(layers) && nextId == old(nextId) + 1
      ensures layers == old(layers)[id := Layer(points, colour, radius, mapRel)]
      ensures dispatch == old(dispatch) && selPoint == old(selPoint) && selPointLayer == old(selPointLayer)
      ensures selPointView == old(selPointView) && selPointViewLayer == old(selPointViewLayer)
      ensures selText == old(selText) && selTextLayer == old(selTextLayer)
    {
      id := nextId;
      layers := layers[id := Layer(points, colour, radius, mapRel)];
      nextId := nextId + 1;
    }

    /** select_event / handle_select_event: the handler registered for the
        event's layer, or null_handler for an unregistered layer or an
        event on no layer. */
    function HandlerFor(layerId: Option<int>): Handler
      reads this
    {
      if layerId.Some? && layerId.value in dispatch then dispatch[layerId.value] else NullHandler
    }

    /** add_select_handler(id, handler): registers or replaces the handler
        for one layer. */
    method AddSelectHandler(id: int, handler: Handler)
      modifies this
      ensures HandlerFor(Some(id)) == handler
      ensures forall other :: other != id ==> HandlerFor(Some(other)) == old(HandlerFor(Some(other)))
      ensures dispatch == old(dispatch)[id := handler]
      ensures layers == old(layers) && nextId == old(nextId)
      ensures selPoint == old(selPoint) && selPointLayer == old(selPointLayer)
      ensures selPointView == old(selPointView) && selPointViewLayer == old(selPointViewLayer)
      ensures selText == old(selText) && selTextLayer == old(selTextLayer)
    {
      dispatch := dispatch[id := handler];
    }

    /** del_select_handler(id): unregisters a layer's handler, after which
        its events go to null_handler; ok is false where `del` raises
        KeyError for a layer with none, and then nothing changes. */
    method DelSelectHandler(id: int) returns (ok: bool)
      modifies this
      ensures ok <==> id in old(dispatch)
      ensures !ok ==> unchanged(this)
      ensures ok ==> dispatch == old(dispatch) - {id} && HandlerFor(Some(id)) == NullHandler
      ensures forall other :: other != id ==> HandlerFor(Some(other)) == old(HandlerFor(Some(other)))
      ensures layers == old(layers) && nextId == old(nextId)
      ensures selPoint == old(selPoint) && selPointLayer == old(selPointLayer)
      ensures selPointView == old(selPointView) && selPointViewLayer == old(selPointViewLayer)
      ensures selText == old(selText) && selTextLayer == old(selTextLayer)
    {
      if id !in dispatch {
        return false;
      }
      dispatch := dispatch - {id};
      return true;
    }

    /** pointSelect(event): the selection and highlight move as
        PointSelectStep says; the highlight is blue for a single select and
        cyan for a box select, map-relative, radius 5. Only this handler's
        layer is deleted or added. */
    method PointSelect(selection: seq<Point>, single: bool)
      requires Valid()
      requires selPoint != Some(selection) ==> HasKeys(selection, PointKeys)
      modifies this
      ensures Valid()
      ensures var step := PointSelectStep(Highlight(old(selPoint), old(Shown(selPointLayer))), selection);
        selPoint == step.selected && Shown(selPointLayer) == step.shown
      ensures old(selPoint) == Some(selection) ==> layers == Without(old(layers), old(selPointLayer))
      ensures old(selPoint) != Some(selection) && selection != [] ==>
        selPointLayer == Some(old(nextId)) &&
        layers == Without(old(layers), old(selPointLayer))[old(nextId) :=
          Layer(StripAll(selection, PointKeys), if single then "#0000ff" else "#00ffff", 5, true)]
      ensures old(selPoint) != Some(selection) && selection == [] ==> layers == old(layers)
      ensures dispatch == old(dispatch)
      ensures selPointView == old(selPointView) && selPointViewLayer == old(selPointViewLayer)
      ensures selText == old(selText) && selTextLayer == old(selTextLayer)
    {
      if Some(selection) == selPoint {
        layers := layers - {selPointLayer.value};
        selPointLayer := None;
        selPoint := None;
      } else if selection != [] {
        if selPointLayer.Some? {
          layers := layers - {selPointLayer.value};
        }
        selPoint := Some(selection);
        var colour := if single then "#0000ff" else "#00ffff";
        var highlight := StripAll(selection, PointKeys);
        var id := AddPointLayer(highlight, colour, 5, true);
        selPointLayer := Some(id);
      }
    }

    /** pointViewSelect(event) as written: the selection stored is the one
        the highlight loop strips (PointViewStepAsWritten). The highlight
        is blue, view-relative, radius 3. */
    method PointViewSelectAsWritten(selection: seq<Point>)
      requires Valid()
      requires selection != [] && selPointView != Some(selection) ==> HasKeys(selection, PointKeys)
      modifies this
      ensures Valid()
      ensures var step := PointViewStepAsWritten(Highlight(old(selPointView), old(Shown(selPointViewLayer))), selection);
        selPointView == step.selected && Shown(selPointViewLayer) == step.shown
      ensures layers == if selPointViewLayer.Some?
        then Without(old(layers), old(selPointViewLayer))[old(nextId) := Layer(StripAll(selection, PointKeys), "#0000ff", 3, false)]
        else Without(old(layers), old(selPointViewLayer))
      ensures dispatch == old(dispatch)
      ensures selPoint == old(selPoint) && selPointLayer == old(selPointLayer)
      ensures selText == old(selText) && selTextLayer == old(selTextLayer)
    {
      if selPointViewLayer.Some? {
        layers := layers - {selPointViewLayer.value};
        selPointViewLayer := None;
      }
      if selection != [] && Some(selection) != selPointView {
        var highlight := StripAll(selection, PointKeys);
        selPointView := Some(highlight);
        var id := AddPointLayer(highlight, "#0000ff", 3, false);
        selPointViewLayer := Some(id);
      } else {
        selPointView := None;
      }
    }

    /** pointViewSelect(event) as intended: the selection is stored before
        its attributes are deleted (PointViewStep). */
    method PointViewSelect(selection: seq<Point>)
      requires Valid()
      requires selection != [] && selPointView != Some(selection) ==> HasKeys(selection, PointKeys)
      modifies this
      ensures Valid()
      ensures var step := PointViewStep(Highlight(old(selPointView), old(Shown(selPointViewLayer))), selection);
        selPointView == step.selected && Shown(selPointViewLayer) == step.shown
      ensures layers == if selPointViewLayer.Some?
        then Without(old(layers), old(selPointViewLayer))[old(nextId) := Layer(StripAll(selection, PointKeys), "#0000ff", 3, false)]
        else Without(old(layers), old(selPointViewLayer))
      ensures dispatch == old(dispatch)
      ensures selPoint == old(selPoint) && selPointLayer == old(selPointLayer)
      ensures selText == old(selText) && selTextLayer == old(selTextLayer)
    {
      if selPointViewLayer.Some? {
        layers := layers - {selPointViewLayer.value};
        selPointViewLayer := None;
      }
      if selection != [] && Some(selection) != selPointView {
        selPointView := Some(selection);
        var highlight := StripAll(selection, PointKeys);
        var id := AddPointLayer(highlight, "#0000ff", 3, false);
        selPointViewLayer := Some(id);
      } else {
        selPointView := None;
      }
    }

    /** textSelect(event) of pySlipQt/examples/pyslipqt_demo.py: the old
        highlight always goes; a non-empty selection is highlighted as
        blue map-relative points of radius 5 without their colour, radius
        and offsets. */
    method TextSelectPoints(selection: seq<Point>)
      requires Valid() && HasKeys(selection, TextKeys)
      modifies this
      ensures Valid()
      ensures Shown(selTextLayer) == if selection != [] then Some(StripAll(selection, TextKeys)) else None
      ensures layers == if selection != []
        then Without(old(layers), old(selTextLayer))[old(nextId) := Layer(StripAll(selection, TextKeys), "#0000ff", 5, true)]
        else Without(old(layers), old(selTextLayer))
      ensures dispatch == old(dispatch) && selText == old(selText)
      ensures selPoint == old(selPoint) && selPointLayer == old(selPointLayer)
      ensures selPointView == old(selPointView) && selPointViewLayer == old(selPointViewLayer)
    {
      if selTextLayer.Some? {
        layers := layers - {selTextLayer.value};
        selTextLayer := None;
      }
      if selection != [] {
        var points := StripAll(selection, TextKeys);
        var id := AddPointLayer(points, "#0000ff", 5, true);
        selTextLayer := Some(id);
      }
    }

    /** textSelect(event) of pyslipqt/pyslipqt_demo.py: an existing
        highlight goes and sel_text is cleared; a non-empty selection is
        recorded in sel_text (by reference, so with its attributes
        deleted) and highlighted as points. */
    method TextSelectTexts(selection: seq<TextPoint>)
      requires Valid() && TextsHaveKeys(selection, TextKeys)
      modifies this
      ensures Valid()
      ensures var stripped := StripTexts(selection, TextKeys);
        Shown(selTextLayer) == (if selection != [] then Some(TextsAsPoints(stripped)) else None) &&
        selText == (if selection != [] then Some(stripped)
                    else if old(selTextLayer).Some? then None else old(selText))
      ensures layers == if selection != []
        then Without(old(layers), old(selTextLayer))[old(nextId) :=
          Layer(TextsAsPoints(StripTexts(selection, TextKeys)), "#0000ff", 5, true)]
        else Without(old(layers), old(selTextLayer))
      ensures dispatch == old(dispatch)
      ensures selPoint == old(selPoint) && selPointLayer == old(selPointLayer)
      ensures selPointView == old(selPointView) && selPointViewLayer == old(selPointViewLayer)
    {
      if selTextLayer.Some? {
        selText := None;
        layers := layers - {selTextLayer.value};
        selTextLayer := None;
      }
      if selection != [] {
        var stripped := StripTexts(selection, TextKeys);
        selText := Some(stripped);
        var points := TextsAsPoints(stripped);
        var id := AddPointLayer(points, "#0000ff", 5, true);
        selTextLayer := Some(id);
      }
    }
  }
}
