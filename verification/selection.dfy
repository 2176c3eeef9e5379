/**
 The place-group selection of a world panel.

 A selection is a set of places (the group) plus an optional box given by
 two corners. The box is built with shift+cursor moves or shift+clicks and
 is flushed into the group, scanning every cell of the inclusive rectangle
 between the corners and keeping the occupied ones. Ctrl+click toggles a
 single place; the group is meant to stay on one layer.
 */
module PlaceGroup {
  import opened Options
  import opened WorldModel

  datatype Selection = Selection(boxStart: Option<Coord>, boxEnd: Option<Coord>, group: set<PlaceId>)

  /** Both box corners are set. */
  predicate BoxSet(sel: Selection)
  {
    sel.boxStart.Some? && sel.boxEnd.Some?
  }

  /** An inclusive rectangle of cells. */
  datatype Rect = Rect(xMin: int, xMax: int, yMin: int, yMax: int)

  predicate InRect(r: Rect, c: Cell)
  {
    r.xMin <= c.x <= r.xMax && r.yMin <= c.y <= r.yMax
  }

  /** `v` lies between `u` and `w`, whichever of the two is smaller. */
  predicate Between(u: int, v: int, w: int)
  {
    u <= v <= w || w <= v <= u
  }

  function Min(a: int, b: int): int { if a < b then a else b }
  function Max(a: int, b: int): int { if a < b then b else a }

  /** The rectangle spanned by two corners, normalised to its minimum and maximum coordinates. */
  function Normalise(a: Cell, b: Cell): (r: Rect)
    ensures r.xMin <= r.xMax && r.yMin <= r.yMax
    ensures forall c :: InRect(r, c) <==> Between(a.x, c.x, b.x) && Between(a.y, c.y, b.y)
  {
    Rect(Min(a.x, b.x), Max(a.x, b.x), Min(a.y, b.y), Max(a.y, b.y))
  }

  /** The places occupying cells of `r` on `layer`. */
  function PlacesInRect(layer: Layer, r: Rect): set<PlaceId>
  {
    set c | c in layer && InRect(r, c) :: layer[c]
  }

  /** Two rectangles with the same cells hold the same places, and so do unions of cells. */
  lemma PlacesInRectUnion(layer: Layer, r: Rect, r1: Rect, r2: Rect)
    requires forall c :: InRect(r, c) <==> InRect(r1, c) || InRect(r2, c)
    ensures PlacesInRect(layer, r) == PlacesInRect(layer, r1) + PlacesInRect(layer, r2)
  {
    var a, b, b2 := PlacesInRect(layer, r), PlacesInRect(layer, r1), PlacesInRect(layer, r2);
    forall p | p in a ensures p in b + b2 {
      var c :| c in layer && InRect(r, c) && layer[c] == p;
    }
    forall p | p in b + b2 ensures p in a {
      if p in b {
        var c :| c in layer && InRect(r1, c) && layer[c] == p;
      } else {
        var c :| c in layer && InRect(r2, c) && layer[c] == p;
      }
    }
  }

  /** The places of a rectangle of one cell. */
  lemma PlacesInCell(layer: Layer, x: int, y: int)
    ensures PlacesInRect(layer, Rect(x, x, y, y)) == if Cell(x, y) in layer then {layer[Cell(x, y)]} else {}
  {
    var s := PlacesInRect(layer, Rect(x, x, y, y));
    forall p | p in s ensures Cell(x, y) in layer && p == layer[Cell(x, y)] {
      var c :| c in layer && InRect(Rect(x, x, y, y), c) && layer[c] == p;
      assert c == Cell(x, y);
    }
  }

  /**
   The scan of placeGroupBoxSelectionToList: normalises the corners `a`
   and `b`, visits every cell of the inclusive rectangle column by column
   and adds each place found to `group`.
   */
  method ScanBox(layer: Layer, a: Cell, b: Cell, group: set<PlaceId>) returns (g: set<PlaceId>)
    ensures g == group + PlacesInRect(layer, Normalise(a, b))
    ensures forall p :: p in g <==>
              p in group || exists c :: c in layer && Between(a.x, c.x, b.x) && Between(a.y, c.y, b.y) && layer[c] == p
  {
    var xMin, xMax := Min(a.x, b.x), Max(a.x, b.x);
    var yMin, yMax := Min(a.y, b.y), Max(a.y, b.y);
    g := group;
    var x := xMin;
    while x <= xMax
      invariant xMin <= x <= xMax + 1
      invariant g == group + PlacesInRect(layer, Rect(xMin, x - 1, yMin, yMax))
    {
      var y := yMin;
      while y <= yMax
        invariant yMin <= y <= yMax + 1
        invariant g == group + PlacesInRect(layer, Rect(xMin, x - 1, yMin, yMax)) + PlacesInRect(layer, Rect(x, x, yMin, y - 1))
      {
        PlacesInRectUnion(layer, Rect(x, x, yMin, y), Rect(x, x, yMin, y - 1), Rect(x, x, y, y));
        PlacesInCell(layer, x, y);
        var c := Cell(x, y);
        if c in layer {
          g := g + {layer[c]};
        }
        y := y + 1;
      }
      PlacesInRectUnion(layer, Rect(xMin, x, yMin, yMax), Rect(xMin, x - 1, yMin, yMax), Rect(x, x, yMin, yMax));
      x := x + 1;
    }
  }

  /**
   Moves the box selection into the group (placeGroupBoxSelectionToList):
   when both corners are set, every place in the rectangle between their
   rounded cells on the end corner's layer joins the group; the corners are
   cleared either way.
   */
  function FlushBox(sel: Selection, world: World): (r: Selection)
    requires BoxSet(sel) ==> sel.boxEnd.value.layer in world
    ensures r.boxStart == None && r.boxEnd == None
    ensures sel.group <= r.group
    ensures !BoxSet(sel) ==> r.group == sel.group
    ensures BoxSet(sel) ==>
              var a, b, layer := sel.boxStart.value.RoundedCell(), sel.boxEnd.value.RoundedCell(), world[sel.boxEnd.value.layer];
              forall p :: p in r.group <==>
                p in sel.group || exists c :: c in layer && Between(a.x, c.x, b.x) && Between(a.y, c.y, b.y) && layer[c] == p
  {
    if BoxSet(sel) then
      var a, b := sel.boxStart.value, sel.boxEnd.value;
      Selection(None, None, sel.group + PlacesInRect(world[b.layer], Normalise(b.RoundedCell(), a.RoundedCell())))
    else
      Selection(None, None, sel.group)
  }

  /** Which corner is the start does not matter to the flushed group. */
  lemma FlushBoxCornerSymmetric(group: set<PlaceId>, a: Coord, b: Coord, world: World)
    requires a.layer == b.layer && a.layer in world
    ensures FlushBox(Selection(Some(a), Some(b), group), world) == FlushBox(Selection(Some(b), Some(a), group), world)
  {
    assert Normalise(a.RoundedCell(), b.RoundedCell()) == Normalise(b.RoundedCell(), a.RoundedCell());
  }

  /**
   Moves the box's end corner to (x, y) on `layer`, the current position's
   layer (placeGroupBoxModifySelection). The group is emptied; the start
   corner is kept if it is on the same layer and otherwise becomes the end.
   */
  function ModifyBox(sel: Selection, layer: LayerId, x: int, y: int): (r: Selection)
    ensures r.group == {}
    ensures r.boxEnd == Some(CellCoord(layer, x, y))
    ensures BoxSet(r) && r.boxStart.value.layer == layer
    ensures sel.boxStart.Some? && sel.boxStart.value.layer == layer ==> r.boxStart == sel.boxStart
    ensures !(sel.boxStart.Some? && sel.boxStart.value.layer == layer) ==> r.boxStart == r.boxEnd
  {
    var end := CellCoord(layer, x, y);
    var start := if sel.boxStart.Some? && sel.boxStart.value.layer != end.layer then None else sel.boxStart;
    Selection(if start.None? then Some(end) else start, Some(end), {})
  }

  /** Dragging a box on one layer keeps its first corner as the anchor. */
  lemma ModifyBoxKeepsAnchor(sel: Selection, layer: LayerId, x1: int, y1: int, x2: int, y2: int)
    requires sel.boxStart.None?
    ensures ModifyBox(ModifyBox(sel, layer, x1, y1), layer, x2, y2).boxStart == Some(CellCoord(layer, x1, y1))
  {
  }

  /** All places of `s` lie on layer `l`. */
  ghost predicate AllOn(s: set<PlaceId>, l: LayerId, layerOf: PlaceId -> LayerId)
  {
    forall p :: p in s ==> layerOf(p) == l
  }

  /** All places of `s` lie on one layer. */
  ghost predicate SingleLayer(s: set<PlaceId>, layerOf: PlaceId -> LayerId)
  {
    forall p, q :: p in s && q in s ==> layerOf(p) == layerOf(q)
  }

  /**
   The selection invariant: the corners are set together and share a
   layer, a pending box lies on the group's layer, and the group is on a
   single layer.
   */
  ghost predicate Valid(sel: Selection, layerOf: PlaceId -> LayerId)
  {
    && (sel.boxStart.Some? <==> sel.boxEnd.Some?)
    && (BoxSet(sel) ==> sel.boxStart.value.layer == sel.boxEnd.value.layer
                        && AllOn(sel.group, sel.boxEnd.value.layer, layerOf))
    && SingleLayer(sel.group, layerOf)
  }

  /**
   The toggle step of placeGroupAdd. `first` is the element the group's
   iterator yields first; the group is cleared when that element lies on
   another layer than `pl`, then `pl` is added if absent and removed if present.
   */
  function Toggle(group: set<PlaceId>, pl: PlaceId, first: PlaceId, layerOf: PlaceId -> LayerId): (r: set<PlaceId>)
    requires group != {} ==> first in group
    ensures forall q :: q in r && q != pl ==> q in group
    ensures SingleLayer(group, layerOf) ==> AllOn(r, layerOf(pl), layerOf)
    ensures SingleLayer(group, layerOf) ==>
              r == if AllOn(group, layerOf(pl), layerOf)
                   then (if pl in group then group - {pl} else group + {pl})
                   else {pl}
  {
    var kept := if group != {} && layerOf(first) != layerOf(pl) then {} else group;
    if pl in kept then kept - {pl} else kept + {pl}
  }

  /** Adds or removes one place, after flushing a pending box (placeGroupAdd). */
  function Add(sel: Selection, world: World, layerOf: PlaceId -> LayerId, pl: PlaceId, first: PlaceId): (r: Selection)
    requires BoxSet(sel) ==> sel.boxEnd.value.layer in world
    requires FlushBox(sel, world).group != {} ==> first in FlushBox(sel, world).group
    ensures r.boxStart == None && r.boxEnd == None
    ensures pl in r.group <==> pl !in FlushBox(sel, world).group || layerOf(first) != layerOf(pl)
    ensures forall q :: q in r.group && q != pl ==> q in FlushBox(sel, world).group
    ensures FlushBox(sel, world).group == {} || layerOf(first) == layerOf(pl) ==>
              forall q :: q != pl ==> (q in r.group <==> q in FlushBox(sel, world).group)
    ensures FlushBox(sel, world).group != {} && layerOf(first) != layerOf(pl) ==> r.group == {pl}
  {
    var flushed := FlushBox(sel, world);
    Selection(None, None, Toggle(flushed.group, pl, first, layerOf))
  }

  /** Flushing the box keeps the selection valid in a consistent world. */
  lemma FlushBoxValid(sel: Selection, world: World, layerOf: PlaceId -> LayerId)
    requires Consistent(world, layerOf)
    requires Valid(sel, layerOf)
    requires BoxSet(sel) ==> sel.boxEnd.value.layer in world
    ensures Valid(FlushBox(sel, world), layerOf)
    ensures BoxSet(sel) ==> AllOn(FlushBox(sel, world).group, sel.boxEnd.value.layer, layerOf)
  {
    if BoxSet(sel) {
      var b := sel.boxEnd.value;
      var layer := world[b.layer];
      var r := FlushBox(sel, world);
      forall p | p in r.group ensures layerOf(p) == b.layer {
        if p !in sel.group {
          var c :| c in layer && InRect(Normalise(b.RoundedCell(), sel.boxStart.value.RoundedCell()), c) && layer[c] == p;
        }
      }
    }
  }

  /** Toggling a place keeps the selection valid and puts the whole group on that place's layer. */
  lemma AddValid(sel: Selection, world: World, layerOf: PlaceId -> LayerId, pl: PlaceId, first: PlaceId)
    requires Consistent(world, layerOf)
    requires Valid(sel, layerOf)
    requires BoxSet(sel) ==> sel.boxEnd.value.layer in world
    requires FlushBox(sel, world).group != {} ==> first in FlushBox(sel, world).group
    ensures Valid(Add(sel, world, layerOf, pl, first), layerOf)
    ensures AllOn(Add(sel, world, layerOf, pl, first).group, layerOf(pl), layerOf)
  {
    FlushBoxValid(sel, world, layerOf);
  }

  /** For a group on one layer, the place the iterator yields first does not matter. */
  lemma AddIndependentOfFirst(sel: Selection, world: World, layerOf: PlaceId -> LayerId, pl: PlaceId, first1: PlaceId, first2: PlaceId)
    requires Consistent(world, layerOf)
    requires Valid(sel, layerOf)
    requires BoxSet(sel) ==> sel.boxEnd.value.layer in world
    requires FlushBox(sel, world).group != {} ==> first1 in FlushBox(sel, world).group && first2 in FlushBox(sel, world).group
    ensures Add(sel, world, layerOf, pl, first1) == Add(sel, world, layerOf, pl, first2)
  {
    FlushBoxValid(sel, world, layerOf);
  }

  /** Moving the box and resetting the selection always give a valid selection. */
  lemma ModifyBoxResetValid(sel: Selection, layerOf: PlaceId -> LayerId, layer: LayerId, x: int, y: int)
    ensures Valid(ModifyBox(sel, layer, x, y), layerOf)
    ensures Valid(Reset(sel), layerOf)
  {
  }

  /** Replaces the group, leaving the box alone (placeGroupSet). */
  function SetGroup(sel: Selection, s: set<PlaceId>): Selection
  {
    sel.(group := s)
  }

  /** Replacing the group keeps the selection valid only when the new group fits any pending box's layer. */
  lemma SetGroupValid(sel: Selection, s: set<PlaceId>, layerOf: PlaceId -> LayerId)
    requires Valid(sel, layerOf)
    requires SingleLayer(s, layerOf)
    requires BoxSet(sel) ==> AllOn(s, sel.boxEnd.value.layer, layerOf)
    ensures Valid(SetGroup(sel, s), layerOf)
  {
  }

  /**
   Replacing the group while a box on another layer is pending (as ctrl+A
   does) leaves the invariant: a box on layer 1 with place 2 on layer 2.
   */
  lemma SetGroupCanBreakValid()
    ensures var sel := SetGroup(ModifyBox(Selection(None, None, {}), 1, 0, 0), {2});
            !Valid(sel, (p: PlaceId) => p as int)
  {
    var sel := SetGroup(ModifyBox(Selection(None, None, {}), 1, 0, 0), {2});
    assert BoxSet(sel) && 2 in sel.group && sel.boxEnd.value.layer == 1;
  }

  /** Clears the group and the box (placeGroupReset). */
  function Reset(sel: Selection): (r: Selection)
    ensures r.boxStart.None? && r.boxEnd.None? && r.group == {}
    ensures !HasSelection(r)
  {
    Selection(None, None, {})
  }

  /** True when a box is spanned or the group is non-empty (placeGroupHasSelection). */
  predicate HasSelection(sel: Selection)
  {
    BoxSet(sel) || sel.group != {}
  }

  /**
   For a valid selection the start corner alone tells whether a box is
   spanned; a freshly modified box always counts as a selection, and
   without one there is nothing to get.
   */
  lemma HasSelectionCases(sel: Selection, world: World, layerOf: PlaceId -> LayerId, layer: LayerId, x: int, y: int)
    requires Valid(sel, layerOf)
    requires BoxSet(sel) ==> sel.boxEnd.value.layer in world
    ensures HasSelection(sel) <==> sel.boxStart.Some? || sel.group != {}
    ensures HasSelection(ModifyBox(sel, layer, x, y))
    ensures !HasSelection(sel) ==> GetSelection(sel, world) == (sel, {})
  {
  }

  /**
   The selected places (placeGroupGetSelection): a pending box is flushed
   into the group first, and the resulting group is returned with the new state.
   */
  function GetSelection(sel: Selection, world: World): (r: (Selection, set<PlaceId>))
    requires sel.boxStart.Some? && sel.boxEnd.Some? ==> sel.boxEnd.value.layer in world
    ensures r.1 == r.0.group
    ensures sel.group <= r.1
    ensures r.0.boxStart.None?
    ensures sel.boxStart.Some? ==> r.0 == FlushBox(sel, world)
    ensures sel.boxStart.None? ==> r.0 == sel
    ensures HasSelection(r.0) <==> r.1 != {}
  {
    var s := if sel.boxStart.Some? then FlushBox(sel, world) else sel;
    (s, s.group)
  }

  /** Getting the selection keeps it valid and leaves every selected place on one layer. */
  lemma GetSelectionValid(sel: Selection, world: World, layerOf: PlaceId -> LayerId)
    requires Consistent(world, layerOf)
    requires Valid(sel, layerOf)
    requires BoxSet(sel) ==> sel.boxEnd.value.layer in world
    ensures Valid(GetSelection(sel, world).0, layerOf)
    ensures SingleLayer(GetSelection(sel, world).1, layerOf)
  {
    FlushBoxValid(sel, world, layerOf);
  }

  /**
   A selection reports places only if it claims to have a selection; the
   converse fails for a box over empty cells, which has a selection but no
   places.
   */
  lemma GetSelectionImpliesHasSelection(sel: Selection, world: World, layerOf: PlaceId -> LayerId)
    requires Valid(sel, layerOf)
    requires BoxSet(sel) ==> sel.boxEnd.value.layer in world
    ensures GetSelection(sel, world).1 != {} ==> HasSelection(sel)
  {
  }

  /** A box over cells that hold no place is a selection without places. */
  lemma EmptyBoxSelectsNothing(a: Coord, world: World)
    requires a.layer in world && a.RoundedCell() !in world[a.layer]
    ensures HasSelection(Selection(Some(a), Some(a), {}))
    ensures GetSelection(Selection(Some(a), Some(a), {}), world).1 == {}
  {
    var layer := world[a.layer];
    PlacesInCell(layer, a.RoundedCell().x, a.RoundedCell().y);
  }

}
