/** components/NodeTypeMenu.tsx: the node types the add-node menu offers,
    and how the menu is kept inside the viewport. */
module NodeTypeMenu {
  import opened Wrappers
  import opened WorkflowTypes

  /** A menu entry; `title` is the source's `label` field, a Dafny keyword. */
  datatype NodeMenuItem = NodeMenuItem(id: string, title: string, icon: string, description: string)

  /** `nodeItems` (NodeTypeMenu.tsx:12-49). */
  const NodeItems: seq<NodeMenuItem> := [
    NodeMenuItem("task", "Task", "\U{1F4CB}", "A basic task node"),
    NodeMenuItem("condition", "Condition", "⚡", "A conditional branch"),
    NodeMenuItem("loop", "Loop", "\U{1F504}", "A loop operation"),
    NodeMenuItem("api", "API Call", "\U{1F310}", "External API request"),
    NodeMenuItem("transform", "Transform", "\U{1F504}", "Data transformation"),
    NodeMenuItem("end", "End", "\U{1F3C1}", "Workflow endpoint")]

  /** The ids of the offered types. */
  function ItemIds(items: seq<NodeMenuItem>): (ids: seq<string>)
    ensures |ids| == |items|
    ensures forall i :: 0 <= i < |items| ==> ids[i] == items[i].id
  {
    if items == [] then [] else [items[0].id] + ItemIds(items[1..])
  }

  /** Six types with distinct ids, "task" first and "end" last. */
  lemma NodeItemsTable()
    ensures |NodeItems| == 6
    ensures ItemIds(NodeItems) == ["task", "condition", "loop", "api", "transform", "end"]
    ensures forall i, j :: 0 <= i < j < |NodeItems| ==> NodeItems[i].id != NodeItems[j].id
    ensures "task" in ItemIds(NodeItems) && "end" in ItemIds(NodeItems)
  {
  }

  /** The clamping of one coordinate: `v` is where the menu starts, `size`
      its extent along the axis and `extent` the viewport's. A menu that runs
      past the far edge is moved to end 10px before it, and a start before
      the near edge becomes 10. */
  function Clamp(v: real, size: real, extent: real): (r: real)
    ensures r >= 0.0
    ensures 0.0 <= v && v + size <= extent ==> r == v
    ensures v < 0.0 && v + size <= extent ==> r == 10.0
    ensures v + size > extent ==> r == if extent - size - 10.0 < 0.0 then 10.0 else extent - size - 10.0
    // A menu with room for the margin ends inside the viewport.
    ensures 0.0 <= size && size + 10.0 <= extent ==> r + size <= extent
    // Without that room it is pinned at 10 unless it already fit where it was.
    ensures size + 10.0 > extent ==> r == 10.0 || (0.0 <= v && v + size <= extent && r == v)
  {
    var moved := if v + size > extent then extent - size - 10.0 else v;
    if moved < 0.0 then 10.0 else moved
  }

  /** A fitting start closer than 10px to the near edge is kept, so a menu
      wider than the viewport less the margin does not always end at 10. */
  lemma NarrowMarginKeepsStart()
    ensures Clamp(5.0, 100.0, 105.0) == 5.0
  {
  }

  /** Width and height of a box. */
  datatype Size = Size(width: real, height: real)

  /** `updatePosition`'s arithmetic (NodeTypeMenu.tsx:138-155): each axis
      on its own. */
  method Adjust(position: Position, rect: Size, viewport: Size) returns (p: Position)
    ensures p.x == Clamp(position.x, rect.width, viewport.width)
    ensures p.y == Clamp(position.y, rect.height, viewport.height)
    ensures p.x >= 0.0 && p.y >= 0.0
  {
    var x := position.x;
    var y := position.y;
    if x + rect.width > viewport.width {
      x := viewport.width - rect.width - 10.0;
    }
    if x < 0.0 {
      x := 10.0;
    }
    if y + rect.height > viewport.height {
      y := viewport.height - rect.height - 10.0;
    }
    if y < 0.0 {
      y := 10.0;
    }
    p := Position(x, y);
  }

  /** The state of `useMenuPosition`: the adjusted position, which starts
      as the requested one. */
  class MenuPosition {
    var adjusted: Position

    constructor (position: Position)
      ensures adjusted == position
    {
      adjusted := position;
    }

    /** `updatePosition`: `rect` is the menu's bounding box, absent while the
        menu is not mounted, in which case nothing changes. */
    method UpdatePosition(position: Position, rect: Option<Size>, viewport: Size)
      modifies this
      ensures rect.None? ==> adjusted == old(adjusted)
      ensures rect.Some? ==> adjusted == Position(
        Clamp(position.x, rect.value.width, viewport.width),
        Clamp(position.y, rect.value.height, viewport.height))
    {
      if rect.None? {
        return;
      }
      adjusted := Adjust(position, rect.value, viewport);
    }
  }
}
