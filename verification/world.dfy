/**
 The parts of the backend that the world panel reads: world coordinates,
 layers as sparse grids of places, and the layer each place lives on.
 Layer, Place and World themselves are not part of this model; they are
 reduced here to the lookups the panel performs on them.
 */
module WorldModel {

  /** Identifier of a map layer (WorldCoordinate.getLayer). */
  type LayerId = int

  /** Identity of a place object. */
  type PlaceId = nat

  /** An integer grid cell of a layer. */
  datatype Cell = Cell(x: int, y: int)

  /** Java's `(int)` cast of a double: rounds toward zero. */
  function Truncate(v: real): (r: int)
    ensures v >= 0.0 ==> r as real <= v < r as real + 1.0
    ensures v < 0.0 ==> r as real - 1.0 < v <= r as real
  {
    if v >= 0.0 then v.Floor else -((-v).Floor)
  }

  /** Java's `Math.round` of a double: rounds to the nearest integer, halves upwards. */
  function Round(v: real): (r: int)
    ensures r as real - 0.5 <= v < r as real + 0.5
  {
    (v + 0.5).Floor
  }

  /** A position in the world (WorldCoordinate): a layer and a point on it, in cell units. */
  datatype Coord = Coord(layer: LayerId, x: real, y: real)
  {
    /** The cell `setCursor((int) x, (int) y)` selects. */
    function TruncatedCell(): Cell {
      Cell(Truncate(x), Truncate(y))
    }

    /** The cell `setCursor(Math.round(x), Math.round(y))` selects. */
    function RoundedCell(): Cell {
      Cell(Round(x), Round(y))
    }
  }

  /** The position of a grid cell on a layer. */
  function CellCoord(layer: LayerId, x: int, y: int): (c: Coord)
    ensures c.TruncatedCell() == Cell(x, y) && c.RoundedCell() == Cell(x, y)
  {
    Coord(layer, x as real, y as real)
  }

  /** The two casts differ on a negative position: (int) -0.6 is 0, Math.round(-0.6) is -1. */
  lemma TruncateDiffersFromRound()
    ensures Truncate(-0.6) == 0 && Round(-0.6) == -1
  {
  }

  /** A layer as seen through Layer.get(x, y): occupied cells map to their place. */
  type Layer = map<Cell, PlaceId>

  /** The layers of a world, as seen through World.getLayer(id). */
  type World = map<LayerId, Layer>

  /** Every place indexed by a layer reports that layer as its own. */
  ghost predicate Consistent(world: World, layerOf: PlaceId -> LayerId)
  {
    forall l, c :: l in world && c in world[l] ==> layerOf(world[l][c]) == l
  }

}
