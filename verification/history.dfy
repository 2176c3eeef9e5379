/**
 The back/forward position history of a world panel.

 The history is two stacks of world coordinates whose top is at index 0:
 `tail` holds every visited position up to and including the current one,
 `head` holds the positions ahead of the current one (those left by going
 back). Going back moves the top of `tail` onto `head` but always keeps at
 least one position in `tail`; going forward moves it back. Every operation
 that changes the current position also moves the map cursor there:
 going back, forward or to a new position truncates the position to a cell
 (an `(int)` cast), resetting or replacing the history rounds it.
 */
module History {
  import opened WorldModel

  /** The two history stacks, tops at index 0. */
  datatype Stacks = Stacks(tail: seq<Coord>, head: seq<Coord>)

  /** The navigation state of a panel: its history and its map cursor. */
  datatype Navigation = Navigation(history: Stacks, cursor: Cell)

  /** The elements of `s` in reverse order. */
  function Reverse<T>(s: seq<T>): (r: seq<T>)
    ensures |r| == |s|
    ensures forall i :: 0 <= i < |s| ==> r[i] == s[|s| - 1 - i]
  {
    if s == [] then [] else Reverse(s[1..]) + [s[0]]
  }

  /**
   All positions of the history in visiting order, oldest first: the tail
   read from the bottom up, followed by the head read from the top down.
   The current position, when there is one, sits at index |tail| - 1.
   */
  function Timeline(h: Stacks): seq<Coord>
  {
    Reverse(h.tail) + h.head
  }

  /** The current position (getPosition): the top of the tail, or the world's home when the tail is empty. */
  function Position(h: Stacks, home: Coord): (c: Coord)
    ensures h.tail == [] ==> c == home
    ensures h.tail != [] ==> c == Timeline(h)[|h.tail| - 1]
  {
    if h.tail == [] then home else h.tail[0]
  }

  /** A copy of the tail (getHistory). */
  function GetHistory(n: Navigation): (r: seq<Coord>)
    ensures |r| == |n.history.tail|
    ensures forall i :: 0 <= i < |r| ==> r[i] == Timeline(n.history)[|r| - 1 - i]
  {
    n.history.tail
  }

  /** Visits a new position (pushPosition): it becomes current, everything ahead is discarded. */
  function PushPosition(n: Navigation, c: Coord): (r: Navigation)
    ensures Timeline(r.history) == Timeline(n.history)[..|n.history.tail|] + [c]
    ensures r.history.head == []
    ensures forall home :: Position(r.history, home) == c
    ensures r.cursor == c.TruncatedCell()
  {
    var h := Stacks([c] + n.history.tail, []);
    assert ([c] + n.history.tail)[1..] == n.history.tail;
    Navigation(h, c.TruncatedCell())
  }

  /**
   Goes back one position (popPosition) unless the current position is the
   only one in the tail; the cursor moves to the resulting current position
   in either case.
   */
  function PopPosition(n: Navigation, home: Coord): (r: Navigation)
    ensures Timeline(r.history) == Timeline(n.history)
    ensures |r.history.tail| + |r.history.head| == |n.history.tail| + |n.history.head|
    ensures |r.history.tail| == if |n.history.tail| > 1 then |n.history.tail| - 1 else |n.history.tail|
    ensures n.history.tail != [] ==> r.history.tail != []
    ensures r.cursor == Position(r.history, home).TruncatedCell()
  {
    var h := n.history;
    var h' := if |h.tail| > 1 then Stacks(h.tail[1..], [h.tail[0]] + h.head) else h;
    assert |h.tail| > 1 ==> h.tail == [h.tail[0]] + h.tail[1..];
    Navigation(h', Position(h', home).TruncatedCell())
  }

  /**
   Goes forward one position (restorePosition); does nothing at all, not
   even move the cursor, when nothing is ahead.
   */
  function RestorePosition(n: Navigation, home: Coord): (r: Navigation)
    ensures Timeline(r.history) == Timeline(n.history)
    ensures n.history.head == [] ==> r == n
    ensures n.history.head != [] ==>
              && |r.history.tail| == |n.history.tail| + 1
              && Position(r.history, home) == Timeline(n.history)[|n.history.tail|]
              && r.cursor == Position(r.history, home).TruncatedCell()
  {
    var h := n.history;
    if h.head == [] then n
    else
      var h' := Stacks([h.head[0]] + h.tail, h.head[1..]);
      assert ([h.head[0]] + h.tail)[1..] == h.tail;
      assert h.head == [h.head[0]] + h.head[1..];
      Navigation(h', Position(h', home).TruncatedCell())
  }

  /** Clears the history so that `pos` is the only, current position (resetHistory). */
  function ResetHistory(n: Navigation, pos: Coord): (r: Navigation)
    ensures Timeline(r.history) == [pos]
    ensures forall home :: Position(r.history, home) == pos
    ensures r.cursor == pos.RoundedCell()
  {
    Navigation(Stacks([pos], []), pos.RoundedCell())
  }

  /**
   Replaces the history by a saved one (setHistory): the list becomes the
   tail in its own order, nothing is ahead, and the cursor moves to the
   resulting current position, which is the home when the list is empty.
   */
  function SetHistory(n: Navigation, list: seq<Coord>, home: Coord): (r: Navigation)
    ensures Timeline(r.history) == Reverse(list)
    ensures r.history.head == []
    ensures list == [] ==> Position(r.history, home) == home
    ensures list != [] ==> Position(r.history, home) == list[0]
    ensures r.cursor == Position(r.history, home).RoundedCell()
  {
    var h := Stacks(list, []);
    Navigation(h, Position(h, home).RoundedCell())
  }

  /** Saving the history and setting it again yields the saved list. */
  lemma SetThenGetHistory(n: Navigation, list: seq<Coord>, home: Coord)
    ensures GetHistory(SetHistory(n, list, home)) == list
  {
    var r := SetHistory(n, list, home);
    assert r.history.tail == list;
  }

  /** Setting the history to its own saved copy keeps the tail and discards only what is ahead. */
  lemma GetThenSetHistory(n: Navigation, home: Coord)
    ensures SetHistory(n, GetHistory(n), home).history == Stacks(n.history.tail, [])
  {
  }

  /** Going back and then forward restores both stacks. */
  lemma PopThenRestore(n: Navigation, home: Coord)
    requires |n.history.tail| > 1
    ensures RestorePosition(PopPosition(n, home), home).history == n.history
  {
    var t := n.history.tail;
    assert [t[0]] + t[1..] == t;
  }

  /** Going forward and then back restores both stacks. */
  lemma RestoreThenPop(n: Navigation, home: Coord)
    requires n.history.tail != [] && n.history.head != []
    ensures PopPosition(RestorePosition(n, home), home).history == n.history
  {
    var h := n.history.head;
    assert [h[0]] + h[1..] == h;
  }

  /** Going back `k` times. */
  function PopMany(n: Navigation, home: Coord, k: nat): Navigation
    decreases k
  {
    if k == 0 then n else PopMany(PopPosition(n, home), home, k - 1)
  }

  /**
   Going back repeatedly never leaves the visited positions: after at least
   |tail| - 1 steps the current position is the oldest one visited, and the
   timeline is intact.
   */
  lemma {:induction false} PopManyReachesOldest(n: Navigation, home: Coord, k: nat)
    requires n.history.tail != []
    requires k >= |n.history.tail| - 1
    ensures Timeline(PopMany(n, home, k).history) == Timeline(n.history)
    ensures |PopMany(n, home, k).history.tail| == 1
    ensures Position(PopMany(n, home, k).history, home) == Timeline(n.history)[0]
    decreases k
  {
    if k == 0 {
      assert |n.history.tail| == 1;
    } else {
      var n' := PopPosition(n, home);
      PopManyReachesOldest(n', home, k - 1);
    }
  }

}
