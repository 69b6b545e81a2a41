/** The rotator's drag input source (rotator.js, `RT.addDragEvents`): it
    turns pointer-down, pointer-move and pointer-up into `dragstart`, `drag`
    and `dragend` notifications, each `drag` carrying the move relative to the
    previously reported position.  Positions are given integers: reading them
    from a DOM event is outside the model. */
module DragInput {

  /** A notification the source fires on its node. */
  datatype DragEvent = DragStart | Drag(x: int, y: int) | DragEnd

  /** Sum of a sequence of deltas, peeled from the end. */
  function Sum(s: seq<int>): int {
    if s == [] then 0 else Sum(s[..|s| - 1]) + s[|s| - 1]
  }

  /** The deltas reported for successive pointer positions after a drag
      started at `start`: each position minus the one before it. */
  function Deltas(start: int, positions: seq<int>): (d: seq<int>)
    ensures |d| == |positions|
    decreases |positions|
  {
    if positions == [] then []
    else Deltas(start, positions[..|positions| - 1]) +
         [positions[|positions| - 1] - Last(start, positions[..|positions| - 1])]
  }

  /** The most recent position: the last move, or the start if none. */
  function Last(start: int, positions: seq<int>): int {
    if positions == [] then start else positions[|positions| - 1]
  }

  /** The deltas telescope: together they add up to the distance from the
      start position to the latest one. */
  lemma {:induction false} DeltasTelescope(start: int, positions: seq<int>)
    ensures Sum(Deltas(start, positions)) == Last(start, positions) - start
    decreases |positions|
  {
    if positions != [] {
      var init := positions[..|positions| - 1];
      DeltasTelescope(start, init);
      var d := Deltas(start, positions);
      assert d[..|d| - 1] == Deltas(start, init);
    }
  }

  /** Each reported delta is the step from the previous position. */
  lemma {:induction false} DeltasAt(start: int, positions: seq<int>, k: nat)
    requires k < |positions|
    ensures Deltas(start, positions)[k] ==
            positions[k] - (if k == 0 then start else positions[k - 1])
    decreases |positions|
  {
    var n := |positions|;
    var init := positions[..n - 1];
    if k < n - 1 {
      DeltasAt(start, init, k);
    }
  }

  /** `reported` are the deltas of `positions` after a start at `start`, and
      `pos` is the latest position. */
  ghost predicate Tracks(start: int, positions: seq<int>, reported: seq<int>, pos: int) {
    && reported == Deltas(start, positions)
    && pos == Last(start, positions)
  }

  /** One more position appends its step from the latest one to the
      deltas. */
  lemma TracksExtend(start: int, positions: seq<int>, reported: seq<int>, pos: int, p: int)
    requires Tracks(start, positions, reported, pos)
    ensures Tracks(start, positions + [p], reported + [p - pos], p)
  {
    assert (positions + [p])[..|positions|] == positions;
  }

  /** The bookkeeping object of `addDragEvents`: the last reported position,
      the last delta, and whether the document-wide move/up listeners are
      attached.  The ghost fields record the current interaction: where it
      started, every position reported since and every delta reported. */
  class DragSource {
    var posX: int
    var posY: int
    var deltaX: int
    var deltaY: int
    var listening: bool
    ghost var startX: int
    ghost var startY: int
    ghost var positionsX: seq<int>
    ghost var positionsY: seq<int>
    ghost var reportedX: seq<int>
    ghost var reportedY: seq<int>

    /** On each axis the reported deltas are `Deltas` of the reported
        positions and the stored position is the latest of them; by
        `DeltasTelescope` the deltas then add up to the pointer's
        displacement since it went down (`Move` states it). */
    ghost predicate Valid()
      reads this
    {
      && Tracks(startX, positionsX, reportedX, posX)
      && Tracks(startY, positionsY, reportedY, posY)
      && |positionsX| == |positionsY|
    }

    /** Fresh state: position and delta zero, no listeners attached. */
    constructor ()
      ensures Valid()
      ensures posX == 0 && posY == 0 && deltaX == 0 && deltaY == 0
      ensures !listening
    {
      posX, posY, deltaX, deltaY := 0, 0, 0, 0;
      listening := false;
      startX, startY := 0, 0;
      positionsX, positionsY := [], [];
      reportedX, reportedY := [], [];
    }

    /** `drag(e)`: report the move from the previous position and store the
        new one. */
    method Move(x: int, y: int) returns (e: DragEvent)
      requires Valid()
      modifies this
      ensures Valid()
      ensures deltaX == x - old(posX) && deltaY == y - old(posY)
      ensures posX == x && posY == y
      ensures e == Drag(deltaX, deltaY)
      ensures listening == old(listening)
      ensures startX == old(startX) && startY == old(startY)
      ensures positionsX == old(positionsX) + [x] && positionsY == old(positionsY) + [y]
      ensures reportedX == old(reportedX) + [deltaX]
      ensures reportedY == old(reportedY) + [deltaY]
      ensures Sum(reportedX) == posX - startX && Sum(reportedY) == posY - startY
    {
      TracksExtend(startX, positionsX, reportedX, posX, x);
      TracksExtend(startY, positionsY, reportedY, posY, y);
      deltaX := x - posX;
      deltaY := y - posY;
      posX := x;
      posY := y;
      positionsX, positionsY := positionsX + [x], positionsY + [y];
      reportedX := reportedX + [deltaX];
      reportedY := reportedY + [deltaY];
      DeltasTelescope(startX, positionsX);
      DeltasTelescope(startY, positionsY);
      e := Drag(deltaX, deltaY);
    }

    /** `startDrag(e)`: record the position, report a zero drag at once,
        attach the document-wide listeners, then fire `dragstart` — so the
        first notification of every interaction is `drag(0, 0)`. */
    method StartDrag(x: int, y: int) returns (events: seq<DragEvent>)
      requires Valid()
      modifies this
      ensures Valid()
      ensures events == [Drag(0, 0), DragStart]
      ensures posX == x && posY == y && deltaX == 0 && deltaY == 0
      ensures listening
      ensures startX == x && startY == y
      ensures positionsX == [x] && positionsY == [y]
      ensures reportedX == [0] && reportedY == [0]
    {
      posX := x;
      posY := y;
      startX, startY := x, y;
      positionsX, positionsY := [], [];
      reportedX, reportedY := [], [];
      var first := Move(x, y);
      listening := true;
      events := [first, DragStart];
    }

    /** A pointer move anywhere in the document: reported as a drag only while
        the listeners that `startDrag` attached are in place. */
    method PointerMove(x: int, y: int) returns (events: seq<DragEvent>)
      requires Valid()
      modifies this
      ensures Valid()
      ensures old(listening) ==> events == [Drag(x - old(posX), y - old(posY))] && posX == x && posY == y
      ensures !old(listening) ==> events == [] && unchanged(this)
      ensures old(listening) ==> startX == old(startX) && startY == old(startY)
      ensures old(listening) ==> positionsX == old(positionsX) + [x] && positionsY == old(positionsY) + [y]
      ensures old(listening) ==> reportedX == old(reportedX) + [x - old(posX)] && reportedY == old(reportedY) + [y - old(posY)]
      ensures listening == old(listening)
    {
      if listening {
        var e := Move(x, y);
        events := [e];
      } else {
        events := [];
      }
    }

    /** `endDrag(e)`: detach the document-wide listeners and fire `dragend`.
        A release with no drag in progress reaches no listener. */
    method PointerUp() returns (events: seq<DragEvent>)
      requires Valid()
      modifies this
      ensures Valid()
      ensures events == if old(listening) then [DragEnd] else []
      ensures !listening
      ensures posX == old(posX) && posY == old(posY)
      ensures deltaX == old(deltaX) && deltaY == old(deltaY)
    {
      events := if listening then [DragEnd] else [];
      listening := false;
    }
  }
}
