/**
 Connecting a place to a neighbouring place by a path, as the world
 panel offers it: by ctrl+numpad (or ctrl+arrow) from the cursor, and by
 the "Connect" entries of the place's context menu. A path is created only
 when the exit on the place and the opposite exit on the neighbour are
 both free.
 */
module NeighbourConnect {
  import opened Options
  import opened WorldModel
  import opened Directions

  /**
   The exits of each place, as Place.getExit reports them: exit label to
   the place at the far end. A place without an entry has no exits.
   */
  type Exits = map<PlaceId, map<string, PlaceId>>

  function ExitsOf(exits: Exits, p: PlaceId): map<string, PlaceId>
  {
    if p in exits then exits[p] else map[]
  }

  /** No path occupies exit `dir` of `p`. */
  predicate ExitFree(exits: Exits, p: PlaceId, dir: string)
  {
    dir !in ExitsOf(exits, p)
  }

  /** Some path of `p` leads to `q` (Place.getPaths(q) is non-empty). */
  predicate Linked(exits: Exits, p: PlaceId, q: PlaceId)
  {
    q in ExitsOf(exits, p).Values
  }

  /** A new path from `from` through exit `fromExit` to `to`, entering it by exit `toExit`. */
  datatype PathLink = PathLink(from: PlaceId, fromExit: string, to: PlaceId, toExit: string)

  function Shift(c: Cell, dx: int, dy: int): Cell
  {
    Cell(c.x + dx, c.y + dy)
  }

  /** The eight cells around `c`, as Layer.getNeighbors(x, y, 1) scans them. */
  predicate IsNeighbour(c: Cell, n: Cell)
  {
    n != c && -1 <= n.x - c.x <= 1 && -1 <= n.y - c.y <= 1
  }

  /** A path from the place at `c` in direction `d` to the place there, with both exits free. */
  predicate Connectable(layer: Layer, c: Cell, d: Direction, exits: Exits)
    requires IsCompass(d)
  {
    var n := Shift(c, Step(d).0, Step(d).1);
    && c in layer && n in layer
    && ExitFree(exits, layer[c], Label(d))
    && ExitFree(exits, layer[n], Label(Opposite(d)))
  }

  /** The path `Connectable` describes. */
  function LinkTowards(layer: Layer, c: Cell, d: Direction, exits: Exits): PathLink
    requires IsCompass(d) && Connectable(layer, c, d, exits)
  {
    PathLink(layer[c], Label(d), layer[Shift(c, Step(d).0, Step(d).1)], Label(Opposite(d)))
  }

  /**
   The ctrl+key connect handler: the place under the cursor is connected to
   the place at the key's offset when both exist and both exits are free.
   The result is the path created, if any.
   */
  function CtrlConnect(layer: Layer, cursor: Cell, k: Key, exits: Exits): (r: Option<PathLink>)
    ensures CtrlConnectCase(k).None? ==> r.None?
    ensures CtrlConnectCase(k).Some? ==>
              var d := CompassOf(CtrlConnectCase(k).value.dx, CtrlConnectCase(k).value.dy).value;
              && IsCompass(d)
              && (r.Some? <==> Connectable(layer, cursor, d, exits))
              && (r.Some? ==> r.value == LinkTowards(layer, cursor, d, exits))
  {
    CtrlTableAgreesWithMenu(k);
    match CtrlConnectCase(k)
    case None => None
    case Some(cc) =>
      var other := Shift(cursor, cc.dx, cc.dy);
      if cursor in layer && other in layer then
        var place, neighbour := layer[cursor], layer[other];
        if ExitFree(exits, place, cc.dir1) && ExitFree(exits, neighbour, cc.dir2) then
          Some(PathLink(place, cc.dir1, neighbour, cc.dir2))
        else None
      else None
  }

  /**
   The context menu's connect entry for the neighbour at `n` of the place at
   `c`: none when the two are already linked or an exit is taken, otherwise
   the path the entry creates, with the labels derived from the offset.
   */
  function MenuOffer(layer: Layer, c: Cell, n: Cell, exits: Exits): Option<PathLink>
    requires c in layer && n in layer
  {
    var place, neighbour := layer[c], layer[n];
    if Linked(exits, place, neighbour) then None
    else
      var (dir1, dir2) := NeighbourLabels(n.x - c.x, n.y - c.y);
      if ExitFree(exits, place, dir1) && ExitFree(exits, neighbour, dir2) then
        Some(PathLink(place, dir1, neighbour, dir2))
      else None
  }

  /** All connect entries of the context menu of the place at `c`. */
  function ConnectMenu(layer: Layer, c: Cell, exits: Exits): set<PathLink>
    requires c in layer
  {
    set n | n in layer && IsNeighbour(c, n) && MenuOffer(layer, c, n, exits).Some? :: MenuOffer(layer, c, n, exits).value
  }

  /** The neighbour at direction `d` gets the menu entry `Connectable` describes, unless already linked. */
  lemma MenuOfferTowards(layer: Layer, c: Cell, d: Direction, exits: Exits)
    requires IsCompass(d)
    requires c in layer && Shift(c, Step(d).0, Step(d).1) in layer
    ensures var n := Shift(c, Step(d).0, Step(d).1);
            && IsNeighbour(c, n)
            && (MenuOffer(layer, c, n, exits).Some? <==>
                  Connectable(layer, c, d, exits) && !Linked(exits, layer[c], layer[n]))
            && (MenuOffer(layer, c, n, exits).Some? ==> MenuOffer(layer, c, n, exits).value == LinkTowards(layer, c, d, exits))
  {
    var n := Shift(c, Step(d).0, Step(d).1);
    assert n.x - c.x == Step(d).0 && n.y - c.y == Step(d).1;
    StepCompassRoundTrip(d);
    NeighbourLabelsAreCompass(Step(d).0, Step(d).1);
  }

  /**
   Every menu entry connects the place to a neighbour it is not yet linked
   to, through a free compass exit and the free opposite exit there.
   */
  lemma ConnectMenuSound(layer: Layer, c: Cell, exits: Exits, link: PathLink)
    requires c in layer
    requires link in ConnectMenu(layer, c, exits)
    ensures exists d :: IsCompass(d) && Connectable(layer, c, d, exits) && link == LinkTowards(layer, c, d, exits)
    ensures !Linked(exits, link.from, link.to)
  {
    var n :| n in layer && IsNeighbour(c, n) && MenuOffer(layer, c, n, exits).Some? && MenuOffer(layer, c, n, exits).value == link;
    var d := CompassOf(n.x - c.x, n.y - c.y).value;
    assert Shift(c, Step(d).0, Step(d).1) == n;
    MenuOfferTowards(layer, c, d, exits);
  }

  /** Every connectable neighbour not yet linked to the place has its entry in the menu. */
  lemma ConnectMenuComplete(layer: Layer, c: Cell, d: Direction, exits: Exits)
    requires IsCompass(d)
    requires Connectable(layer, c, d, exits)
    requires !Linked(exits, layer[c], layer[Shift(c, Step(d).0, Step(d).1)])
    ensures LinkTowards(layer, c, d, exits) in ConnectMenu(layer, c, exits)
  {
    MenuOfferTowards(layer, c, d, exits);
  }

  /**
   The keyboard and the menu connect the same way: for a neighbour not yet
   linked, ctrl+key creates exactly the path of the menu entry for the
   neighbour at the key's offset.
   */
  lemma CtrlConnectMatchesMenu(layer: Layer, cursor: Cell, k: Key, exits: Exits)
    requires CtrlConnectCase(k).Some?
    requires var cc := CtrlConnectCase(k).value;
             cursor in layer && Shift(cursor, cc.dx, cc.dy) in layer
             && !Linked(exits, layer[cursor], layer[Shift(cursor, cc.dx, cc.dy)])
    ensures var cc := CtrlConnectCase(k).value;
            CtrlConnect(layer, cursor, k, exits) == MenuOffer(layer, cursor, Shift(cursor, cc.dx, cc.dy), exits)
  {
    var cc := CtrlConnectCase(k).value;
    CtrlTableAgreesWithMenu(k);
    var d := CompassOf(cc.dx, cc.dy).value;
    MenuOfferTowards(layer, cursor, d, exits);
  }

}
