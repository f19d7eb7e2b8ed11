/** The tileset handling of pySlipQt/examples/pyslipqt_demo.py: the
    TilesetManager that opens each tile source module the first time it is
    asked for, and the Tilesets menu whose handler switches the widget to
    another tile source, creating it on first use. Importing a module and
    instantiating its Tiles class become creating a TileSource object that
    records which module it came from. */
module DemoTilesets {
  import opened PyText

  /** An instantiated tile source: `module.Tiles()`. */
  class TileSource {
    const moduleName: string

    constructor (moduleName: string)
      ensures this.moduleName == moduleName
    {
      this.moduleName := moduleName;
    }
  }

  /** Python list indexing: an index from the front, or a negative index
      from the back; None where IndexError is raised. */
  function PyIndex(i: int, n: nat): (r: Option<nat>)
    ensures r.Some? <==> 0 <= n + i && i < n
    ensures r.Some? ==> r.value < n && (r.value == i || r.value == n + i)
  {
    if 0 <= i < n then Some(i) else if 0 <= n + i && i < 0 then Some(n + i) else None
  }

  /** One [filename, module name, tile object] entry of the manager. */
  datatype Entry = Entry(filename: string, moduleName: string, obj: Option<TileSource>)

  /** The entry TilesetManager starts with for a module file name: the
      name without its extension, and no object yet. */
  function FreshEntry(fname: string): (e: Entry)
    ensures e.filename == fname && e.obj.None?
    ensures e.moduleName + SplitExt(fname).1 == fname
  {
    Entry(fname, SplitExt(fname).0, None)
  }

  class TilesetManager {
    var modules: seq<Entry>

    /** Every object created so far came from its own entry's module. */
    predicate Valid()
      reads this
    {
      forall i :: 0 <= i < |modules| && modules[i].obj.Some? ==>
        modules[i].obj.value.moduleName == modules[i].moduleName
    }

    /** TilesetManager(mod_list): one entry per module file name, in
        order, none of them opened. */
    constructor (modList: seq<string>)
      ensures Valid()
      ensures |modules| == |modList|
      ensures forall i :: 0 <= i < |modList| ==> modules[i] == FreshEntry(modList[i])
    {
      var entries := [];
      var i := 0;
      while i < |modList|
        invariant 0 <= i <= |modList| && |entries| == i
        invariant forall j :: 0 <= j < i ==> entries[j] == FreshEntry(modList[j])
      {
        entries := entries + [FreshEntry(modList[i])];
        i := i + 1;
      }
      modules := entries;
    }

    /** get_tile_source(mod_index): the entry's object, created from its
        module on the first call and stored, so that every later call
        returns the same object; no other entry changes. None where the
        index raises IndexError. */
    method GetTileSource(modIndex: int) returns (r: Option<TileSource>)
      requires Valid()
      modifies this
      ensures Valid()
      ensures PyIndex(modIndex, |old(modules)|).None? ==> r.None? && modules == old(modules)
      ensures PyIndex(modIndex, |old(modules)|).Some? ==>
        var i := PyIndex(modIndex, |old(modules)|).value;
        var e := old(modules)[i];
        r.Some? && r.value.moduleName == e.moduleName &&
        (e.obj.Some? ==> r == e.obj && modules == old(modules)) &&
        (e.obj.None? ==> fresh(r.value) && modules == old(modules)[i := e.(obj := r)])
    {
      var index := PyIndex(modIndex, |modules|);
      if index.None? {
        return None;
      }
      var i := index.value;
      var Entry(filename, moduleName, tileObj) := modules[i];
      if tileObj.None? {
        var obj := new TileSource(moduleName);
        tileObj := Some(obj);
        modules := modules[i := Entry(filename, moduleName, tileObj)];
      }
      return tileObj;
    }
  }

  /** A non-empty set of menu ids has a member to pick. */
  lemma HasMember(s: set<int>)
    requires s != {}
    ensures exists x :: x in s
  {
    if forall x :: x !in s {
      assert false;
    }
  }

  /** The entry of id2tiledata for a menu id: the display name, the module
      name and the tile object once created (the menu action is the
      checked flag kept beside it). */
  datatype TileData = TileData(name: string, moduleName: string, obj: Option<TileSource>)

  /** The Tilesets menu of the demo window. */
  class TilesetMenu {
    var id2tiledata: map<int, TileData>
    /** Whether each id's menu action is checked. */
    var checked: map<int, bool>
    /** The tile source last handed to the widget's ChangeTileset. */
    var current: Option<TileSource>

    /** Every menu id has one action, and every object created came from
        its entry's module. */
    predicate Valid()
      reads this
    {
      checked.Keys == id2tiledata.Keys &&
      forall k :: k in id2tiledata && id2tiledata[k].obj.Some? ==>
        id2tiledata[k].obj.value.moduleName == id2tiledata[k].moduleName
    }

    /** initMenu: one entry per (display name, module name) pair under its
        position as menu id, no tile object yet, and only the default
        tileset's action checked. */
    constructor InitMenu(tilesets: seq<(string, string)>, defaultIndex: int, initial: TileSource)
      ensures Valid() && current == Some(initial)
      ensures forall k :: k in id2tiledata <==> 0 <= k < |tilesets|
      ensures forall k :: 0 <= k < |tilesets| ==> id2tiledata[k] == TileData(tilesets[k].0, tilesets[k].1, None)
      ensures forall k :: k in checked ==> checked[k] == (k == defaultIndex)
    {
      var data: map<int, TileData> := map[];
      var marks: map<int, bool> := map[];
      var actionId := 0;
      while actionId < |tilesets|
        invariant 0 <= actionId <= |tilesets|
        invariant forall k :: k in data <==> 0 <= k < actionId
        invariant forall k :: k in marks <==> 0 <= k < actionId
        invariant forall k :: 0 <= k < actionId ==> data[k] == TileData(tilesets[k].0, tilesets[k].1, None)
        invariant forall k :: k in marks ==> marks[k] == (k == defaultIndex)
      {
        var (name, moduleName) := tilesets[actionId];
        marks := marks[actionId := actionId == defaultIndex];
        data := data[actionId := TileData(name, moduleName, None)];
        actionId := actionId + 1;
      }
      id2tiledata, checked, current := data, marks, Some(initial);
    }

    /** change_tileset(menu_id): first every action is checked exactly
        when its id is menu_id; then an unknown id raises RuntimeError (ok
        false) with nothing else changed; otherwise the id's tile object,
        created and stored on first use, goes to the widget. */
    method ChangeTileset(menuId: int) returns (ok: bool)
      requires Valid()
      modifies this
      ensures Valid()
      ensures checked.Keys == old(checked.Keys)
      ensures forall k :: k in checked ==> checked[k] == (k == menuId)
      ensures ok <==> menuId in old(id2tiledata)
      ensures !ok ==> id2tiledata == old(id2tiledata) && current == old(current)
      ensures ok ==>
        var d := old(id2tiledata)[menuId];
        current.Some? && current.value.moduleName == d.moduleName &&
        (d.obj.Some? ==> current == d.obj && id2tiledata == old(id2tiledata)) &&
        (d.obj.None? ==> fresh(current.value) && id2tiledata == old(id2tiledata)[menuId := d.(obj := current)])
    {
      var keys := id2tiledata.Keys;
      while keys != {}
        invariant forall k :: k in keys ==> k in checked
        invariant id2tiledata == old(id2tiledata)
        invariant current == old(current)
        invariant checked.Keys == old(checked.Keys)
        invariant forall k :: k in checked && k !in keys ==> checked[k] == (k == menuId)
        decreases keys
      {
        HasMember(keys);
        var key: int :| key in keys;
        checked := checked[key := key == menuId];
        keys := keys - {key};
      }
      if menuId !in id2tiledata {
        return false;
      }
      var TileData(name, moduleName, newTileObj) := id2tiledata[menuId];
      if newTileObj.None? {
        var obj := new TileSource(moduleName);
        newTileObj := Some(obj);
        id2tiledata := id2tiledata[menuId := TileData(name, moduleName, newTileObj)];
      }
      current := newTileObj;
      return true;
    }
  }
}
