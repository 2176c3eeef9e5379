# mudmap2 world panel: editor state

mudmap2 is a map editor for text-adventure worlds: places sit on the integer
grids of layers and are joined by paths through named exits. This project
models the editor state kept by the map panel (`WorldPanel`) once its Swing
calls are stripped away. It has three parts:

- **Position history** (`History`, file `history.dfy`): back/forward
  navigation over two stacks, `tail` (visited positions up to the current one)
  and `head` (positions ahead). Each is a `seq<Coord>` with its top at index 0.
  The world's home position is the fallback when the tail is empty. Every
  operation that moves to a position also moves the map cursor there. Going
  back, forward or to a new position truncates the position to a cell (an
  `(int)` cast). Resetting or replacing the history rounds it (`Math.round`). The
  central view is `Timeline`: all positions in visiting order. Going back or
  forward never changes it. Visiting a new position cuts off what lay ahead.
- **Place-group selection** (`PlaceGroup`, file `selection.dfy`): a box given
  by two corners, which is flushed into a set of selected places. The flush
  scans the inclusive rectangle between the corners and keeps the occupied
  cells. Ctrl+click toggles a single place; from a single-layer group the
  result is on that place's layer. `Valid` is the invariant the selection
  operations keep: the corners are set together and share a layer, a pending
  box lies on the group's layer, and the group is on one layer. Two callers
  outside these operations can leave it (see "## Left out").
- **Neighbour connection** (`Directions`, `NeighbourConnect`, files
  `directions.dfy`, `connect.dfy`): the context menu turns a neighbour's
  offset into two labels, the exit on this place and the opposite exit on the
  neighbour. The ctrl+numpad handler uses a literal table of the same labels.
  A path is created only when both exits are free.

Shared modules: `WorldModel` (`world.dfy`) holds coordinates, layers and
worlds. A world coordinate's x and y are reals, as the source's doubles are;
grid cells are integers. `Options` (`options.dfy`) stands for nullable references.

Layer, Place, Path and World are not part of this model. A layer is a map
from grid cells to place identities (`Layer.get`). A world is a map from
layer ids to layers (`World.getLayer`). A place's layer is a function
parameter `layerOf` (`Place.getLayer`). A place's exits are a map from exit
label to far place (`Place.getExit`, `Place.getPathTo`, `Place.getPaths(other)`).
The ctrl handler asks `getExit(dir)` and the context menu asks
`getPathTo(dir)`. Both are read as the same exit table, so
`CtrlConnectMatchesMenu` assumes these two lookups agree.

## Model

| member | source | states |
|---|---|---|
| `WorldModel.Truncate` | src/main/java/mudmap2/frontend/GUIElement/WorldPanel/WorldPanel.java:332 | The `(int)` cast of a position rounds toward zero: the result is at most the value for a non-negative value and at least it for a negative one, within one unit. |
| `WorldModel.Round` | src/main/java/mudmap2/frontend/GUIElement/WorldPanel/WorldPanel.java:372 | `Math.round` of a position gives the nearest integer, with halves rounding upwards. |
| `WorldModel.TruncateDiffersFromRound` | src/main/java/mudmap2/frontend/GUIElement/WorldPanel/WorldPanel.java:332-372 | The two casts differ on a negative position: at x = -0.6 the history moves truncate to 0, while reset rounds to -1. |
| `History.Position` | src/main/java/mudmap2/frontend/GUIElement/WorldPanel/WorldPanel.java:376-388 | The current position is the world's home when the tail is empty. Otherwise it is the timeline entry at index \|tail\|-1, i.e. the latest position visited that has not been gone back from. |
| `History.GetHistory` | src/main/java/mudmap2/frontend/GUIElement/WorldPanel/WorldPanel.java:390-396 | The saved history lists the visited positions up to the current one, newest first. |
| `History.PushPosition` | src/main/java/mudmap2/frontend/GUIElement/WorldPanel/WorldPanel.java:321-333 | Visiting a position keeps the timeline up to the current position, drops everything ahead, and appends the new position. The new position is then current whatever the home is. The cursor moves to its cell, truncated toward zero. |
| `History.PopPosition` | src/main/java/mudmap2/frontend/GUIElement/WorldPanel/WorldPanel.java:335-347 | Going back leaves the timeline and the total number of entries unchanged. It shortens the tail by one only when the tail has more than one entry, so a non-empty tail is never emptied. The cursor moves to the resulting current position's truncated cell. |
| `History.RestorePosition` | src/main/java/mudmap2/frontend/GUIElement/WorldPanel/WorldPanel.java:349-361 | Going forward with nothing ahead changes nothing, not even the cursor. Otherwise the timeline is unchanged, the tail grows by one, and the current position becomes the next timeline entry. The cursor moves to its truncated cell. |
| `History.ResetHistory` | src/main/java/mudmap2/frontend/GUIElement/WorldPanel/WorldPanel.java:363-374 | After a reset, the timeline is just the given position, which is current whatever the home is. The cursor moves to its rounded cell. |
| `History.SetHistory` | src/main/java/mudmap2/frontend/GUIElement/WorldPanel/WorldPanel.java:398-410 | A replaced history has the list, reversed, as its timeline and an empty head. The current position is the list's first entry, or the home for an empty list. The cursor moves to that position's rounded cell. |
| `History.SetThenGetHistory` | src/main/java/mudmap2/frontend/GUIElement/WorldPanel/WorldPanel.java:394-405 | Setting a history and reading it back returns the same list. |
| `History.GetThenSetHistory` | src/main/java/mudmap2/frontend/GUIElement/WorldPanel/WorldPanel.java:394-405 | Setting the history to its own saved copy keeps the tail and discards only the positions ahead. |
| `History.PopThenRestore` | src/main/java/mudmap2/frontend/GUIElement/WorldPanel/WorldPanel.java:339-361 | When the tail has more than one entry, going back and then forward restores both stacks exactly. |
| `History.RestoreThenPop` | src/main/java/mudmap2/frontend/GUIElement/WorldPanel/WorldPanel.java:339-361 | When something is ahead and the tail is non-empty, going forward and then back restores both stacks exactly. |
| `History.PopManyReachesOldest` | src/main/java/mudmap2/frontend/GUIElement/WorldPanel/WorldPanel.java:335-347 | Going back at least \|tail\|-1 times leaves exactly one entry in the tail. The current position is then the oldest visited one, and the timeline is intact. |
| `PlaceGroup.Normalise` | src/main/java/mudmap2/frontend/GUIElement/WorldPanel/WorldPanel.java:555-563 | The normalised rectangle is non-empty. A cell is in it exactly when each of its coordinates lies between the two corners' coordinates, in either order. |
| `PlaceGroup.ScanBox` | src/main/java/mudmap2/frontend/GUIElement/WorldPanel/WorldPanel.java:555-574 | The nested scan adds to the group exactly the places that occupy cells in the inclusive rectangle between the corners. It keeps every place already in the group. |
| `PlaceGroup.FlushBox` | src/main/java/mudmap2/frontend/GUIElement/WorldPanel/WorldPanel.java:550-577 | Flushing clears both corners and keeps every existing group member. With both corners set, a place ends up in the group exactly when it was there already or occupies a cell between the corners' rounded cells on the end corner's layer. Otherwise the group is unchanged. |
| `PlaceGroup.FlushBoxCornerSymmetric` | src/main/java/mudmap2/frontend/GUIElement/WorldPanel/WorldPanel.java:553-577 | For two corners on one layer, swapping start and end gives the same flushed selection. |
| `PlaceGroup.ModifyBox` | src/main/java/mudmap2/frontend/GUIElement/WorldPanel/WorldPanel.java:532-548 | Moving the box empties the group and sets the end corner on the current layer. The start corner is kept when it is on that layer and otherwise becomes the end. Afterwards both corners are set and share a layer. |
| `PlaceGroup.ModifyBoxKeepsAnchor` | src/main/java/mudmap2/frontend/GUIElement/WorldPanel/WorldPanel.java:537-548 | Dragging a fresh box twice on one layer keeps the first corner as the anchor. |
| `PlaceGroup.ModifyBoxResetValid` | src/main/java/mudmap2/frontend/GUIElement/WorldPanel/WorldPanel.java:532-548 | Moving the box and resetting the selection each leave a valid selection, whatever the state before. |
| `PlaceGroup.Toggle` | src/main/java/mudmap2/frontend/GUIElement/WorldPanel/WorldPanel.java:585-595 | The toggle adds no place other than `pl`. For a single-layer group the result lies on `pl`'s layer. If the group is on `pl`'s layer, `pl`'s membership is flipped; otherwise the group becomes just `pl`. This holds whichever element the iterator yields first. |
| `PlaceGroup.Add` | src/main/java/mudmap2/frontend/GUIElement/WorldPanel/WorldPanel.java:579-596 | Adding clears the box. `pl` ends up selected unless it was already in the flushed group and the group's first element lies on `pl`'s layer. When the group is kept, every other flushed member stays and nothing else is added. When the first element lies on another layer, the group becomes just `pl`. |
| `PlaceGroup.FlushBoxValid` | src/main/java/mudmap2/frontend/GUIElement/WorldPanel/WorldPanel.java:550-577 | In a world whose layers index only their own places, flushing keeps the selection valid. A flushed box leaves the whole group on the box's layer. |
| `PlaceGroup.AddValid` | src/main/java/mudmap2/frontend/GUIElement/WorldPanel/WorldPanel.java:579-596 | Toggling a place keeps the selection valid and puts the whole group on that place's layer. |
| `PlaceGroup.AddIndependentOfFirst` | src/main/java/mudmap2/frontend/GUIElement/WorldPanel/WorldPanel.java:585-588 | For a valid selection, the element the group's iterator yields first does not affect the result of adding. |
| `PlaceGroup.SetGroupValid` | src/main/java/mudmap2/frontend/GUIElement/WorldPanel/WorldPanel.java:598-605 | Replacing the group keeps the selection valid when the new set is on one layer and fits any pending box's layer. |
| `PlaceGroup.SetGroupCanBreakValid` | src/main/java/mudmap2/frontend/GUIElement/WorldPanel/WorldPanel.java:1029 | Replacing the group while a box on another layer is pending leaves `Valid`: a box on layer 1 with a group holding a place on layer 2. |
| `PlaceGroup.SetGroup` | src/main/java/mudmap2/frontend/GUIElement/WorldPanel/WorldPanel.java:598-605 | No contract; characterised by `PlaceGroup.SetGroupValid`. It replaces the group and leaves the box alone. |
| `PlaceGroup.Reset` | src/main/java/mudmap2/frontend/GUIElement/WorldPanel/WorldPanel.java:607-613 | A reset clears both corners and the group, so `placeGroupHasSelection` is false. |
| `PlaceGroup.HasSelection` | src/main/java/mudmap2/frontend/GUIElement/WorldPanel/WorldPanel.java:615-621 | No contract; characterised by `PlaceGroup.HasSelectionCases`, `PlaceGroup.Reset` and `PlaceGroup.GetSelection`. |
| `PlaceGroup.HasSelectionCases` | src/main/java/mudmap2/frontend/GUIElement/WorldPanel/WorldPanel.java:615-621 | For a valid selection, there is a selection exactly when a start corner is set or the group is non-empty. A freshly moved box always counts. Without a selection, getting it returns nothing and changes nothing. |
| `PlaceGroup.GetSelection` | src/main/java/mudmap2/frontend/GUIElement/WorldPanel/WorldPanel.java:623-632 | With a start corner set, the new state is the flushed selection. Without one, the state is untouched. The returned places are the new group, which keeps every old member. Afterwards `placeGroupHasSelection` holds exactly when places are returned. |
| `PlaceGroup.GetSelectionValid` | src/main/java/mudmap2/frontend/GUIElement/WorldPanel/WorldPanel.java:623-632 | In a consistent world, getting the selection keeps it valid, and the returned places lie on one layer. |
| `PlaceGroup.GetSelectionImpliesHasSelection` | src/main/java/mudmap2/frontend/GUIElement/WorldPanel/WorldPanel.java:615-632 | A valid selection that yields places reports that it has a selection. |
| `PlaceGroup.EmptyBoxSelectsNothing` | src/main/java/mudmap2/frontend/GUIElement/WorldPanel/WorldPanel.java:615-632 | A one-cell box over an empty cell counts as a selection but yields no places. |
| `Directions.CompassOf` | src/main/java/mudmap2/frontend/GUIElement/WorldPanel/WorldPanel.java:1482-1495 | Every non-zero offset has a compass direction, and only the zero offset lacks one. The direction's unit step equals the signs of the offset. |
| `Directions.OppositeInvolution` | src/main/java/mudmap2/frontend/GUIElement/WorldPanel/WorldPanel.java:1482-1495 | The opposite of the opposite is the direction itself. Opposites of compass directions are compass directions whose step is negated. |
| `Directions.StepCompassRoundTrip` | src/main/java/mudmap2/frontend/GUIElement/WorldPanel/WorldPanel.java:1482-1495 | A compass direction's step maps back to that direction. |
| `Directions.NeighbourLabels` | src/main/java/mudmap2/frontend/GUIElement/WorldPanel/WorldPanel.java:1480-1495 | No contract; characterised by `Directions.NeighbourLabelsAreCompass`. |
| `Directions.NeighbourLabelsAreCompass` | src/main/java/mudmap2/frontend/GUIElement/WorldPanel/WorldPanel.java:1480-1495 | For a non-zero offset, the first menu label is the compass label of the offset (n/s from dy with +y north, then e/w from dx). The second is the label of the opposite direction. The zero offset gets two empty labels. |
| `Directions.CtrlTableAgreesWithMenu` | src/main/java/mudmap2/frontend/GUIElement/WorldPanel/WorldPanel.java:1078-1157 | Each ctrl connect key targets a neighbouring cell whose step matches its compass direction. The key uses exactly the labels the context menu derives for that offset. |
| `Directions.CtrlConnectCase` | src/main/java/mudmap2/frontend/GUIElement/WorldPanel/WorldPanel.java:1078-1157 | No contract; characterised by `Directions.CtrlTableAgreesWithMenu` and `Directions.NumpadCoversCompass`. |
| `Directions.NumpadCoversCompass` | src/main/java/mudmap2/frontend/GUIElement/WorldPanel/WorldPanel.java:1078-1157 | Each compass direction has the numpad key at the matching keypad position, with that direction's step and label pair. |
| `NeighbourConnect.CtrlConnect` | src/main/java/mudmap2/frontend/GUIElement/WorldPanel/WorldPanel.java:1078-1157 | A ctrl key outside the table creates nothing. A table key creates a path exactly when the cursor cell and the target cell are occupied, the exit on the place is free and the opposite exit on the neighbour is free. The path joins the place to the neighbour through those two exits. |
| `NeighbourConnect.MenuOffer` | src/main/java/mudmap2/frontend/GUIElement/WorldPanel/WorldPanel.java:1477-1506 | No contract; characterised by `NeighbourConnect.MenuOfferTowards`. |
| `NeighbourConnect.ConnectMenu` | src/main/java/mudmap2/frontend/GUIElement/WorldPanel/WorldPanel.java:1473-1506 | No contract; characterised by `NeighbourConnect.ConnectMenuSound` and `NeighbourConnect.ConnectMenuComplete`. |
| `NeighbourConnect.MenuOfferTowards` | src/main/java/mudmap2/frontend/GUIElement/WorldPanel/WorldPanel.java:1477-1506 | The neighbour in direction d gets a connect entry exactly when it is not yet linked and both exits are free. The entry's path uses d's label and the opposite label. |
| `NeighbourConnect.ConnectMenuSound` | src/main/java/mudmap2/frontend/GUIElement/WorldPanel/WorldPanel.java:1473-1506 | Every connect entry of the context menu links the place to an unlinked neighbour in some compass direction, through two free exits. |
| `NeighbourConnect.ConnectMenuComplete` | src/main/java/mudmap2/frontend/GUIElement/WorldPanel/WorldPanel.java:1473-1506 | Every neighbour that is not yet linked and has both exits free appears in the context menu with its path. |
| `NeighbourConnect.CtrlConnectMatchesMenu` | src/main/java/mudmap2/frontend/GUIElement/WorldPanel/WorldPanel.java:1078-1157 | For a neighbour not yet linked, a ctrl connect key creates exactly the path of the context-menu entry for the neighbour at the key's offset. |

## Left out

- Swing plumbing: painting, menus and dialogs, focus handling, and the
  listener registries and their callbacks (`callLayerChangeListeners`,
  `callCursorListeners`). None of them holds state of the model.
- Keyboard and mouse event decoding (WorldPanel.java:797-1415) is out too.
  Only the state changes it triggers are modelled. The ctrl-key connect table
  is the exception: it is modelled as `CtrlConnectCase` and `CtrlConnect`.
- Screen and world coordinate maths, zoom and scrolling are floating-point
  only: `getPlacePosX/Y`, `getScreenPosX/Y`, `remint`, tile size, mouse-wheel
  zoom, `moveScreenToCursor` and drag panning.
- Panning moves the current position in place through `getPosition().move`.
  That aliasing of the tail's top is therefore not modelled.
- The group is a value here, but in the source it is one live `HashSet`.
  `placeGroupGetSelection` returns the panel's own set, not a copy
  (WorldPanel.java:631). `placeGroupBoxModifySelection`, `placeGroupSet` and
  `placeGroupReset` clear that object in place (538, 603, 611). Ctrl+X and
  ctrl+C pass it to `CopyPaste` and then reset it (1033-1035, 1047-1049). The
  context menu hands it to `PlaceRemoveDialog` (1447-1452). In the model, a
  caller's copy of `GetSelection`'s result survives a later `Reset`; in the
  source it is emptied. Whether that matters depends on whether the unseen
  `CopyPaste` and dialog keep the reference.
- Two callers leave `Valid`, and they are not modelled as operations:
  - The shortest-path action resets the group and then adds the whole
    predecessor chain of the breadth-first search to it (WorldPanel.java:1675-1686).
    A chain that takes an up/down path spans layers.
  - Ctrl+A calls `placeGroupSet` with the current layer's places while a box
    from another layer may be pending (1029). `PlaceGroup.SetGroupCanBreakValid`
    exhibits such a state.

  From such a state, `GetSelection` can return places on two layers, and
  `Add`'s result can depend on the iterator's first element.
- PlaceGroup.Toggle: its single-layer clauses hold only for a group on one layer.
- PlaceGroup.AddIndependentOfFirst: holds only from a `Valid` selection; outside it, the first element can decide the result.
- Positions are reals, not IEEE doubles, so floating-point rounding error is
  not modelled. Non-integral positions do occur: drag panning moves the
  current position by fractions (WorldPanel.java:876-879), and `setHome` and
  `gotoHome` carry such a position into the home and the history. The box
  corners are always built from integer cells.
- Java's 32-bit `int` is not modelled. The box scan at WorldPanel.java:567-574
  would not stop for a rectangle reaching `Integer.MAX_VALUE`.
- The ctrl connect cases call `getWorld().getLayer(...).get(...)` without a
  null check (e.g. WorldPanel.java:1082). For an absent layer the source
  throws, while `CtrlConnect`, which is given the layer, returns `None`. Either
  way no path is created.
- `World.getLayer` for an unknown layer id returns `null`, and the flush would
  then throw. `FlushBox`, `Add` and `GetSelection` instead require the end
  corner's layer to exist.
- `placeGroupAdd` calls `pl.getLayer()` before checking `pl` for null
  (WorldPanel.java:586-589). Place identities here cannot be null, so that
  crash is not modelled.
- `PlaceGroup.Toggle` and `PlaceGroup.Add` take the element that
  `HashSet.iterator().next()` yields as a parameter `first`, because Java's
  iteration order is not modelled.
- `mudmap2.CopyPaste`, `World.breadthSearch`, `World.putPlaceholder`, the
  predecessor walk at WorldPanel.java:1676-1689, and the internals of `Layer`,
  `Place` and `Path` are not part of this model. `Place.connectPath` is
  represented only by the `PathLink` the panel would pass to it.
- `Layer.getNeighbors` is modelled as the eight surrounding cells. The order
  of the menu entries, and the numpad accelerators from `Path.getDirNum`
  (WorldPanel.java:1502-1505), are not modelled. The menu is a set of entries.
- `src/main/java/mudmap2/backend/Area.java` holds only a name, a colour and
  accessors, so nothing in it needs a model.
