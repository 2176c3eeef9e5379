/**
 Exit direction labels and how the world panel derives them from the
 relative position of two neighbouring places. Grid y grows to the north.
 */
module Directions {
  import opened Options

  /** The ten exit slots of a place. */
  datatype Direction = N | NE | E | SE | S | SW | W | NW | Up | Down

  /** The label under which a place stores the exit. */
  function Label(d: Direction): string
  {
    match d
    case N => "n"
    case NE => "ne"
    case E => "e"
    case SE => "se"
    case S => "s"
    case SW => "sw"
    case W => "w"
    case NW => "nw"
    case Up => "up"
    case Down => "down"
  }

  /** The direction that leads back. */
  function Opposite(d: Direction): Direction
  {
    match d
    case N => S
    case NE => SW
    case E => W
    case SE => NW
    case S => N
    case SW => NE
    case W => E
    case NW => SE
    case Up => Down
    case Down => Up
  }

  /** A compass direction, one that points to a neighbouring cell on the same layer. */
  predicate IsCompass(d: Direction)
  {
    d != Up && d != Down
  }

  function Sign(v: int): int
  {
    if v > 0 then 1 else if v < 0 then -1 else 0
  }

  /** The compass direction pointing towards offset (dx, dy), if any. */
  function CompassOf(dx: int, dy: int): (r: Option<Direction>)
    ensures r.None? <==> dx == 0 && dy == 0
    ensures r.Some? ==> IsCompass(r.value) && Step(r.value) == (Sign(dx), Sign(dy))
  {
    match (Sign(dx), Sign(dy))
    case (0, 1) => Some(N)
    case (1, 1) => Some(NE)
    case (1, 0) => Some(E)
    case (1, -1) => Some(SE)
    case (0, -1) => Some(S)
    case (-1, -1) => Some(SW)
    case (-1, 0) => Some(W)
    case (-1, 1) => Some(NW)
    case _ => None
  }

  /** The cell offset a compass direction points to. */
  function Step(d: Direction): (r: (int, int))
    requires IsCompass(d)
  {
    match d
    case N => (0, 1)
    case NE => (1, 1)
    case E => (1, 0)
    case SE => (1, -1)
    case S => (0, -1)
    case SW => (-1, -1)
    case W => (-1, 0)
    case NW => (-1, 1)
  }

  /**
   The label pair of the context menu's connect entries: the exit on the
   place and the exit on the neighbour at offset (dx, dy). The north/south
   part comes from the sign of dy, then the east/west part from the sign of dx.
   */
  function NeighbourLabels(dx: int, dy: int): (string, string)
  {
    var (ns1, ns2) := if dy > 0 then ("n", "s") else if dy < 0 then ("s", "n") else ("", "");
    var (ew1, ew2) := if dx > 0 then ("e", "w") else if dx < 0 then ("w", "e") else ("", "");
    (ns1 + ew1, ns2 + ew2)
  }

  /** Opposite is its own inverse and keeps compass directions compass directions. */
  lemma OppositeInvolution(d: Direction)
    ensures Opposite(Opposite(d)) == d
    ensures IsCompass(d) <==> IsCompass(Opposite(d))
    ensures IsCompass(d) ==> Step(Opposite(d)) == (-Step(d).0, -Step(d).1)
  {
  }

  /** A compass direction's step leads back to it. */
  lemma StepCompassRoundTrip(d: Direction)
    requires IsCompass(d)
    ensures CompassOf(Step(d).0, Step(d).1) == Some(d)
  {
  }

  /**
   For every offset other than (0, 0) the context menu labels the exit on
   the place with the compass direction of the offset and the exit on the
   neighbour with its opposite; the zero offset gets two empty labels.
   */
  lemma NeighbourLabelsAreCompass(dx: int, dy: int)
    ensures CompassOf(dx, dy).Some? ==>
              NeighbourLabels(dx, dy) == (Label(CompassOf(dx, dy).value), Label(Opposite(CompassOf(dx, dy).value)))
    ensures CompassOf(dx, dy).None? ==> NeighbourLabels(dx, dy) == ("", "")
  {
    assert "n" + "" == "n" && "s" + "" == "s" && "" + "e" == "e" && "" + "w" == "w" && "" + "" == "";
    assert "n" + "e" == "ne" && "s" + "w" == "sw" && "s" + "e" == "se" && "n" + "w" == "nw";
  }

  /** The keys the ctrl handler reacts to: numpad digits and the arrow keys. */
  datatype Key = Numpad(digit: int) | ArrowUp | ArrowDown | ArrowLeft | ArrowRight | OtherKey

  /** One connect case of the ctrl handler: neighbour offset and the two exit labels. */
  datatype ConnectCase = ConnectCase(dx: int, dy: int, dir1: string, dir2: string)

  /** The ctrl+key connect table of the keyboard handler; ctrl+numpad 5 opens a dialog and connects nothing. */
  function CtrlConnectCase(k: Key): Option<ConnectCase>
  {
    match k
    case Numpad(8) => Some(ConnectCase(0, 1, "n", "s"))
    case ArrowUp => Some(ConnectCase(0, 1, "n", "s"))
    case Numpad(9) => Some(ConnectCase(1, 1, "ne", "sw"))
    case Numpad(6) => Some(ConnectCase(1, 0, "e", "w"))
    case ArrowRight => Some(ConnectCase(1, 0, "e", "w"))
    case Numpad(3) => Some(ConnectCase(1, -1, "se", "nw"))
    case Numpad(2) => Some(ConnectCase(0, -1, "s", "n"))
    case ArrowDown => Some(ConnectCase(0, -1, "s", "n"))
    case Numpad(1) => Some(ConnectCase(-1, -1, "sw", "ne"))
    case Numpad(4) => Some(ConnectCase(-1, 0, "w", "e"))
    case ArrowLeft => Some(ConnectCase(-1, 0, "w", "e"))
    case Numpad(7) => Some(ConnectCase(-1, 1, "nw", "se"))
    case _ => None
  }

  /** The numpad key whose position on the keypad matches a compass direction. */
  function NumpadKey(d: Direction): Key
    requires IsCompass(d)
  {
    match d
    case N => Numpad(8)
    case NE => Numpad(9)
    case E => Numpad(6)
    case SE => Numpad(3)
    case S => Numpad(2)
    case SW => Numpad(1)
    case W => Numpad(4)
    case NW => Numpad(7)
  }

  /**
   The ctrl handler and the context menu agree: each connect key targets
   a neighbouring cell and uses the labels the menu derives for it, and
   every compass direction has a numpad key.
   */
  lemma CtrlTableAgreesWithMenu(k: Key)
    ensures CtrlConnectCase(k).Some? ==>
              var cc := CtrlConnectCase(k).value;
              && CompassOf(cc.dx, cc.dy).Some?
              && Step(CompassOf(cc.dx, cc.dy).value) == (cc.dx, cc.dy)
              && NeighbourLabels(cc.dx, cc.dy) == (cc.dir1, cc.dir2)
  {
    if CtrlConnectCase(k).Some? {
      var cc := CtrlConnectCase(k).value;
      NeighbourLabelsAreCompass(cc.dx, cc.dy);
    }
  }

  /** Every compass direction is reachable by its numpad key, with the menu's labels. */
  lemma NumpadCoversCompass(d: Direction)
    requires IsCompass(d)
    ensures CtrlConnectCase(NumpadKey(d)) == Some(ConnectCase(Step(d).0, Step(d).1, Label(d), Label(Opposite(d))))
  {
  }

}
