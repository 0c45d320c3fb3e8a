/** `PlayingMap` of project/common/map/playing_map.py: static and dynamic
    objects under integer ids, painted into a flat list of map cells.

    `random.randint(0, 1000000)` is a parameter of the add methods. An
    object is its position and its width and height (the fields
    `paint_object` reads). The painted list starts out holding the
    `MapType.EMPTY` member itself and receives the integer `type.value`
    where objects are painted, so a cell is either of the two. List
    indexing follows Python: a negative index counts from the end, and an
    index outside the list raises IndexError. */
module PlayingMap {
  import opened Wrappers

  datatype MapType = EMPTY | WALL | OBJECT

  function Value(t: MapType): int
  {
    match t
    case EMPTY => 0
    case WALL => 1
    case OBJECT => 2
  }

  /** A list cell: the `MapType.EMPTY` member, or an `int`. */
  datatype Cell = EmptyMember | IntValue(v: int)

  datatype Pos2D = Pos2D(x: int, y: int)

  datatype MapObject = MapObject(pos: Pos2D, width: int, height: int)

  datatype Error = KeyError | IndexError

  const MaxId: int := 1000000

  /** Where `list[idx]` lands in a list of length n, if anywhere. */
  function Resolve(idx: int, n: nat): (r: Option<nat>)
    ensures r.Some? <==> -(n as int) <= idx < n
    ensures r.Some? ==> r.value < n && (r.value == idx || r.value == idx + n)
  {
    if 0 <= idx < n then Some(idx)
    else if -(n as int) <= idx < 0 then Some(idx + n)
    else None
  }

  /** The number of values in `range(a, a + w)`. */
  function Span(w: int): nat
  {
    if w < 0 then 0 else w
  }

  /** `__get_position_index` of the cell at column offset a, row offset b of
      an object at (x0, y0): `x * map_width + y`. */
  function TargetIndex(x0: int, a: int, y0: int, b: int, mapWidth: int): int
  {
    (x0 + a) * mapWidth + (y0 + b)
  }

  /** The index is inside the list, and different cells get different
      indices, when x is the row, below the map's height, and y the column,
      below its width: the convention under which `x * map_width + y` is the
      row-major index. `paint_object` lets x run over an object's width and
      y over its height; the lemma `WideMapObjectMisses` shows where that
      reading and this convention part on a map that is not square. */
  lemma PositionIndexInRange(x: int, y: int, mapWidth: int, mapHeight: int)
    requires 0 <= x < mapHeight && 0 <= y < mapWidth
    ensures 0 <= x * mapWidth + y < mapWidth * mapHeight
  {
    assert x * mapWidth <= (mapHeight - 1) * mapWidth;
    assert (mapHeight - 1) * mapWidth + mapWidth == mapWidth * mapHeight;
  }

  lemma PositionIndexInjective(x1: int, y1: int, x2: int, y2: int, mapWidth: int)
    requires 0 <= y1 < mapWidth && 0 <= y2 < mapWidth
    requires x1 * mapWidth + y1 == x2 * mapWidth + y2
    ensures x1 == x2 && y1 == y2
  {
    if x1 < x2 {
      MulAtLeast(x2 - x1, mapWidth);
      assert false;
    } else if x2 < x1 {
      MulAtLeast(x1 - x2, mapWidth);
      assert false;
    }
  }

  /** With x across the width and y down the height, an object inside a map
      3 wide and 2 high (6 cells) does not fit: the cell (2, 1) of a 1 by 2
      object at (2, 0) gets index 2 * 3 + 1 = 7. */
  lemma WideMapObjectMisses()
    ensures !Fits(MapObject(Pos2D(2, 0), 1, 2), 3, 6)
  {
    var o := MapObject(Pos2D(2, 0), 1, 2);
    assert Span(o.width) == 1 && Span(o.height) == 2;
    assert !RowFits(o.pos.x, 0, o.pos.y, Span(o.height), 3, 6) by {
      assert Resolve(TargetIndex(2, 0, 0, 1, 3), 6) == None;
    }
  }

  lemma MulAtLeast(d: int, w: int)
    requires d >= 1 && w >= 0
    ensures d * w >= w
  {
    assert (d - 1) * w >= 0;
    assert d * w == (d - 1) * w + w;
  }

  // ---- What painting does ---------------------------------------------------------

  /** The first `j` cells of row offset `a` painted with `v`, in order; the
      flag is false when an index fails, with the cells written before it
      kept. */
  function PaintRow(c: seq<Cell>, x0: int, a: int, y0: int, j: nat, mapWidth: int, v: int): (r: (seq<Cell>, bool))
    ensures |r.0| == |c|
  {
    if j == 0 then (c, true)
    else
      var (c1, ok) := PaintRow(c, x0, a, y0, j - 1, mapWidth, v);
      if !ok then (c1, false)
      else
        match Resolve(TargetIndex(x0, a, y0, j - 1, mapWidth), |c1|)
        case None => (c1, false)
        case Some(k) => (c1[k := IntValue(v)], true)
  }

  /** The first `i` rows of `h` cells painted in order, stopping at the first
      failing index. */
  function PaintRows(c: seq<Cell>, x0: int, i: nat, y0: int, h: nat, mapWidth: int, v: int): (r: (seq<Cell>, bool))
    ensures |r.0| == |c|
  {
    if i == 0 then (c, true)
    else
      var (c1, ok) := PaintRows(c, x0, i - 1, y0, h, mapWidth, v);
      if !ok then (c1, false) else PaintRow(c1, x0, i - 1, y0, h, mapWidth, v)
  }

  /** Some cell of the first `j` of row offset `a` lands on index k. */
  predicate RowCovers(x0: int, a: int, y0: int, j: nat, mapWidth: int, n: nat, k: nat)
  {
    exists b :: 0 <= b < j && Resolve(TargetIndex(x0, a, y0, b, mapWidth), n) == Some(k)
  }

  predicate RowFits(x0: int, a: int, y0: int, j: nat, mapWidth: int, n: nat)
  {
    forall b :: 0 <= b < j ==> Resolve(TargetIndex(x0, a, y0, b, mapWidth), n).Some?
  }

  /** Painting a row succeeds exactly when all its indices land in the list,
      and then writes `v` at exactly the cells they land on. */
  lemma {:induction false} PaintRowMeaning(c: seq<Cell>, x0: int, a: int, y0: int, j: nat, mapWidth: int, v: int)
    ensures PaintRow(c, x0, a, y0, j, mapWidth, v).1 <==> RowFits(x0, a, y0, j, mapWidth, |c|)
    ensures PaintRow(c, x0, a, y0, j, mapWidth, v).1 ==> forall k :: 0 <= k < |c| ==>
      PaintRow(c, x0, a, y0, j, mapWidth, v).0[k] == if RowCovers(x0, a, y0, j, mapWidth, |c|, k) then IntValue(v) else c[k]
  {
    if j > 0 {
      PaintRowMeaning(c, x0, a, y0, j - 1, mapWidth, v);
      var (c1, ok) := PaintRow(c, x0, a, y0, j - 1, mapWidth, v);
      var t := Resolve(TargetIndex(x0, a, y0, j - 1, mapWidth), |c|);
      if ok && t.Some? {
        forall k | 0 <= k < |c|
          ensures PaintRow(c, x0, a, y0, j, mapWidth, v).0[k] == if RowCovers(x0, a, y0, j, mapWidth, |c|, k) then IntValue(v) else c[k]
        {
          if k != t.value && RowCovers(x0, a, y0, j, mapWidth, |c|, k) {
            var b :| 0 <= b < j && Resolve(TargetIndex(x0, a, y0, b, mapWidth), |c|) == Some(k);
            assert b < j - 1;
          }
        }
      }
    }
  }

  /** Painting stays stopped once an index has failed. */
  lemma {:induction false} PaintRowStops(c: seq<Cell>, x0: int, a: int, y0: int, j: nat, h: nat, mapWidth: int, v: int)
    requires j <= h && !PaintRow(c, x0, a, y0, j, mapWidth, v).1
    ensures PaintRow(c, x0, a, y0, h, mapWidth, v) == PaintRow(c, x0, a, y0, j, mapWidth, v)
    decreases h - j
  {
    if j < h {
      PaintRowStops(c, x0, a, y0, j, h - 1, mapWidth, v);
    }
  }

  lemma {:induction false} PaintRowsStop(c: seq<Cell>, x0: int, i: nat, w: nat, y0: int, h: nat, mapWidth: int, v: int)
    requires i <= w && !PaintRows(c, x0, i, y0, h, mapWidth, v).1
    ensures PaintRows(c, x0, w, y0, h, mapWidth, v) == PaintRows(c, x0, i, y0, h, mapWidth, v)
    decreases w - i
  {
    if i < w {
      PaintRowsStop(c, x0, i, w - 1, y0, h, mapWidth, v);
    }
  }

  /** Some cell of the object lands on index k of a list of length n. */
  predicate Covers(o: MapObject, mapWidth: int, n: nat, k: nat)
  {
    exists a :: 0 <= a < Span(o.width) && RowCovers(o.pos.x, a, o.pos.y, Span(o.height), mapWidth, n, k)
  }

  /** Every cell of the object lands in a list of length n. */
  predicate Fits(o: MapObject, mapWidth: int, n: nat)
  {
    forall a :: 0 <= a < Span(o.width) ==> RowFits(o.pos.x, a, o.pos.y, Span(o.height), mapWidth, n)
  }

  /** Painting the first i rows succeeds exactly when their indices all land
      in the list, and then writes `v` at exactly the cells they land on. */
  lemma {:induction false} PaintRowsMeaning(c: seq<Cell>, x0: int, i: nat, y0: int, h: nat, mapWidth: int, v: int)
    ensures PaintRows(c, x0, i, y0, h, mapWidth, v).1 <==>
      forall a :: 0 <= a < i ==> RowFits(x0, a, y0, h, mapWidth, |c|)
    ensures PaintRows(c, x0, i, y0, h, mapWidth, v).1 ==> forall k :: 0 <= k < |c| ==>
      PaintRows(c, x0, i, y0, h, mapWidth, v).0[k]
        == if exists a :: 0 <= a < i && RowCovers(x0, a, y0, h, mapWidth, |c|, k) then IntValue(v) else c[k]
  {
    if i > 0 {
      PaintRowsMeaning(c, x0, i - 1, y0, h, mapWidth, v);
      var (c1, ok) := PaintRows(c, x0, i - 1, y0, h, mapWidth, v);
      if ok {
        PaintRowMeaning(c1, x0, i - 1, y0, h, mapWidth, v);
      }
    }
  }

  /** What `paint_object` does to a list, by object. */
  lemma PaintObjectMeaning(c: seq<Cell>, o: MapObject, mapWidth: int, v: int)
    ensures PaintRows(c, o.pos.x, Span(o.width), o.pos.y, Span(o.height), mapWidth, v).1 <==> Fits(o, mapWidth, |c|)
    ensures Fits(o, mapWidth, |c|) ==> forall k :: 0 <= k < |c| ==>
      PaintRows(c, o.pos.x, Span(o.width), o.pos.y, Span(o.height), mapWidth, v).0[k]
        == if Covers(o, mapWidth, |c|, k) then IntValue(v) else c[k]
  {
    PaintRowsMeaning(c, o.pos.x, Span(o.width), o.pos.y, Span(o.height), mapWidth, v);
  }

  /** The cell a full painting leaves at index k: OBJECT where a dynamic
      object lands, else WALL where a static one does, else the EMPTY
      member. */
  function PaintedCell(statics: set<MapObject>, dynamics: set<MapObject>, mapWidth: int, n: nat, k: nat): Cell
  {
    if exists o :: o in dynamics && Covers(o, mapWidth, n, k) then IntValue(Value(OBJECT))
    else if exists o :: o in statics && Covers(o, mapWidth, n, k) then IntValue(Value(WALL))
    else EmptyMember
  }

  class PlayingMap {
    var staticObjects: map<int, MapObject>
    var dynamicObjects: map<int, MapObject>
    const mapWidth: int
    const mapHeight: int

    constructor(width: int, height: int)
      ensures staticObjects == map[] && dynamicObjects == map[]
      ensures mapWidth == width && mapHeight == height
    {
      staticObjects := map[];
      dynamicObjects := map[];
      mapWidth := width;
      mapHeight := height;
    }

    /** `add_static_object` with the id `randint` drew: stored under it
        (replacing an object already there) and returned. */
    method AddStaticObject(obj: MapObject, id: int) returns (r: int)
      requires 0 <= id <= MaxId
      modifies this
      ensures r == id && 0 <= r <= MaxId
      ensures staticObjects == old(staticObjects)[id := obj] && dynamicObjects == old(dynamicObjects)
    {
      staticObjects := staticObjects[id := obj];
      r := id;
    }

    method AddDynamicObject(obj: MapObject, id: int) returns (r: int)
      requires 0 <= id <= MaxId
      modifies this
      ensures r == id && 0 <= r <= MaxId
      ensures dynamicObjects == old(dynamicObjects)[id := obj] && staticObjects == old(staticObjects)
    {
      dynamicObjects := dynamicObjects[id := obj];
      r := id;
    }

    /** `remove_dynamic_object`: `dict.pop` raises KeyError for an absent id. */
    method RemoveDynamicObject(id: int) returns (r: Result<(), Error>)
      modifies this
      ensures r.Err? <==> id !in old(dynamicObjects)
      ensures r.Err? ==> r.error == KeyError
      ensures dynamicObjects == old(dynamicObjects) - {id} && staticObjects == old(staticObjects)
    {
      if id !in dynamicObjects {
        return Err(KeyError);
      }
      dynamicObjects := dynamicObjects - {id};
      r := Ok(());
    }

    method UpdateDynamicObject(id: int, obj: MapObject)
      modifies this
      ensures dynamicObjects == old(dynamicObjects)[id := obj] && staticObjects == old(staticObjects)
    {
      dynamicObjects := dynamicObjects[id := obj];
    }

    method UpdateStaticObject(id: int, obj: MapObject)
      modifies this
      ensures staticObjects == old(staticObjects)[id := obj] && dynamicObjects == old(dynamicObjects)
    {
      staticObjects := staticObjects[id := obj];
    }

    /** `paint_object`: for x over the object's columns and y over its rows,
        write `type.value` at `x * map_width + y`; an index outside the list
        raises IndexError with the earlier writes done. */
    method PaintObject(cells: array<Cell>, obj: MapObject, t: MapType) returns (r: Result<(), Error>)
      modifies cells
      ensures (cells[..], r.Ok?) == PaintRows(old(cells[..]), obj.pos.x, Span(obj.width), obj.pos.y, Span(obj.height), mapWidth, Value(t))
      ensures r.Err? ==> r.error == IndexError
    {
      var x0, y0 := obj.pos.x, obj.pos.y;
      var w, h := Span(obj.width), Span(obj.height);
      var v := Value(t);
      for a := 0 to w
        invariant (cells[..], true) == PaintRows(old(cells[..]), x0, a, y0, h, mapWidth, v)
      {
        ghost var rowStart := cells[..];
        for b := 0 to h
          invariant (cells[..], true) == PaintRow(rowStart, x0, a, y0, b, mapWidth, v)
        {
          var k := Resolve(TargetIndex(x0, a, y0, b, mapWidth), cells.Length);
          if k.None? {
            PaintRowStops(rowStart, x0, a, y0, b + 1, h, mapWidth, v);
            PaintRowsStop(old(cells[..]), x0, a + 1, w, y0, h, mapWidth, v);
            return Err(IndexError);
          }
          cells[k.value] := IntValue(v);
        }
      }
      r := Ok(());
    }

    /** One `for obj in objects.values()` loop of `paint_map`: every object
        painted with `t`, in whatever order the dictionary yields them (an
        object stored twice is painted twice, to the same effect). It
        stops at the first object with a cell outside the list; when none
        has, exactly the cells some object lands on hold `t`'s value. */
    method PaintEach(cells: array<Cell>, objects: set<MapObject>, t: MapType) returns (ok: bool)
      modifies cells
      ensures ok <==> forall o :: o in objects ==> Fits(o, mapWidth, cells.Length)
      ensures ok ==> forall k :: 0 <= k < cells.Length ==>
        cells[k] == if exists o :: o in objects && Covers(o, mapWidth, cells.Length, k) then IntValue(Value(t)) else old(cells[k])
    {
      var todo := objects;
      while todo != {}
        invariant todo <= objects
        invariant forall o :: o in objects - todo ==> Fits(o, mapWidth, cells.Length)
        invariant forall k :: 0 <= k < cells.Length ==>
          cells[k] == if exists o :: o in objects - todo && Covers(o, mapWidth, cells.Length, k) then IntValue(Value(t)) else old(cells[k])
        decreases todo
      {
        var o :| o in todo;
        ghost var before := cells[..];
        var p := PaintObject(cells, o, t);
        PaintObjectMeaning(before, o, mapWidth, Value(t));
        if p.Err? {
          return false;
        }
        todo := todo - {o};
      }
      ok := true;
    }

    /** `paint_map`: a list of `map_width * map_height` EMPTY members, then
        every static object painted WALL and every dynamic object painted
        OBJECT. It fails (IndexError) exactly when some object has a cell
        outside the list; otherwise each cell is what `PaintedCell` says. */
    method PaintMap() returns (r: Result<seq<Cell>, Error>)
      ensures r.Ok? <==> forall o :: (o in staticObjects.Values || o in dynamicObjects.Values) ==>
                           Fits(o, mapWidth, Span(mapWidth * mapHeight))
      ensures r.Err? ==> r.error == IndexError
      ensures r.Ok? ==> (|r.value| == Span(mapWidth * mapHeight)
        && forall k :: 0 <= k < |r.value| ==>
             r.value[k] == PaintedCell(staticObjects.Values, dynamicObjects.Values, mapWidth, |r.value|, k))
    {
      var n := Span(mapWidth * mapHeight);
      var cells := new Cell[n](_ => EmptyMember);
      var ok := PaintEach(cells, staticObjects.Values, WALL);
      if !ok {
        return Err(IndexError);
      }
      ok := PaintEach(cells, dynamicObjects.Values, OBJECT);
      if !ok {
        return Err(IndexError);
      }
      r := Ok(cells[..]);
    }
  }
}
