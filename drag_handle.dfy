/** aFrame's draggable element (`AF.drag`): while enabled, pressing on the
    node and moving the pointer moves the node with it, keeping the point
    where it was grabbed under the pointer.  Pointer positions and the node's
    layout offsets are given integers; `left`/`top` are the pixel numbers
    written into the node's style. */
module DragHandles {
  import opened ClassNames

  class DragHandle {
    const node: Node
    var enabled: bool
    var dragOffsetX: int
    var dragOffsetY: int
    var left: int
    var top: int
    var listening: bool

    /** `AF.drag(node)`: enabled, zero offsets, not dragging.  The node's
        classes are left alone until `setEnabled` is called. */
    constructor (node: Node, left: int, top: int)
      ensures this.node == node && enabled && !listening
      ensures dragOffsetX == 0 && dragOffsetY == 0
      ensures this.left == left && this.top == top
    {
      this.node := node;
      enabled := true;
      dragOffsetX, dragOffsetY := 0, 0;
      this.left, this.top := left, top;
      listening := false;
    }

    /** `drag(e)`: place the node so that the grab offset stays under the
        pointer. */
    method Drag(x: int, y: int)
      modifies this
      ensures left == x - dragOffsetX && top == y - dragOffsetY
      ensures dragOffsetX == old(dragOffsetX) && dragOffsetY == old(dragOffsetY)
      ensures enabled == old(enabled) && listening == old(listening)
    {
      left := x - dragOffsetX;
      top := y - dragOffsetY;
    }

    /** `startDrag(e)`: a disabled handle ignores the press entirely;
        otherwise the grab offset is recorded, the node is placed where its
        layout already has it, and the document-wide listeners go on. */
    method StartDrag(x: int, y: int, offsetLeft: int, offsetTop: int)
      modifies this
      ensures !old(enabled) ==> unchanged(this)
      ensures old(enabled) ==> && dragOffsetX == x - offsetLeft && dragOffsetY == y - offsetTop
                               && left == offsetLeft && top == offsetTop
                               && listening && enabled
    {
      if !enabled {
        return;
      }
      dragOffsetX := x - offsetLeft;
      dragOffsetY := y - offsetTop;
      Drag(x, y);
      listening := true;
    }

    /** A pointer move in the document: it moves the node only while the
        listeners that `startDrag` attached are in place. */
    method PointerMove(x: int, y: int)
      modifies this
      ensures old(listening) ==> left == x - dragOffsetX && top == y - dragOffsetY
      ensures !old(listening) ==> unchanged(this)
      ensures dragOffsetX == old(dragOffsetX) && dragOffsetY == old(dragOffsetY)
      ensures listening == old(listening) && enabled == old(enabled)
    {
      if listening {
        Drag(x, y);
      }
    }

    /** `endDrag(e)`: the document-wide listeners come off. */
    method EndDrag()
      modifies this
      ensures !listening
      ensures left == old(left) && top == old(top) && enabled == old(enabled)
      ensures dragOffsetX == old(dragOffsetX) && dragOffsetY == old(dragOffsetY)
    {
      listening := false;
    }

    /** `setEnabled(bool)`: the flag follows the argument and the node gains
        or loses the `draggable` class accordingly. */
    method SetEnabled(b: bool)
      modifies this, node
      ensures enabled == b
      ensures b ==> node.className == Added(old(node.className), "draggable")
      ensures !b ==> node.className == RemoveFirst(old(node.className), "draggable")
      ensures b ==> HasClass(node.className, "draggable")
      ensures left == old(left) && top == old(top) && listening == old(listening)
      ensures dragOffsetX == old(dragOffsetX) && dragOffsetY == old(dragOffsetY)
    {
      if b {
        enabled := true;
        AddClass(node, "draggable");
      } else {
        enabled := false;
        RemoveClass(node, "draggable");
      }
    }
  }
}
