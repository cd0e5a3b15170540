/** components/workflow-builder.tsx: the seed workflow, the records built for
    a new child node, and the add-node menu's state machine. Ids from
    `crypto.randomUUID`, the flow coordinates from `screenToFlowPosition` and
    the cursor coordinates of the DOM event are parameters. */
module WorkflowBuilder {
  import opened Wrappers
  import opened WorkflowTypes
  import WorkflowStore

  // ---------------------------------------------------------------------
  // Seed data (components/workflow-builder.tsx:47-100)
  // ---------------------------------------------------------------------

  const StartSeed := WorkflowNode("start-node", "start", Position(100.0, 100.0),
    map["label" := Text("Start")], None, None, None)

  const DepartmentSeed := WorkflowNode("department-node", "department", Position(300.0, 100.0),
    map[
      "label" := Text("Department"), "task" := Text("Initial task"),
      "departments" := TextList([]), "assignee" := Text(""), "dueDate" := Text(""),
      "priority" := Text("medium"), "status" := Text("todo"), "comments" := Text(""),
      "attachments" := Text(""), "tags" := TextList([])],
    Some("start-node"), Some(1), None)

  const EndSeed := WorkflowNode("end-node", "end", Position(500.0, 100.0),
    map["label" := Text("End")], Some("department-node"), Some(2), None)

  const InitialWorkflow: seq<WorkflowNode> := [StartSeed, DepartmentSeed, EndSeed]

  const InitialEdges: seq<WorkflowEdge> := [
    WorkflowEdge("start-to-department", "start-node", "department-node", "workflow"),
    WorkflowEdge("department-to-end", "department-node", "end-node", "workflow")]

  // ---------------------------------------------------------------------
  // Node lookup and new child records
  // ---------------------------------------------------------------------

  /** `nodes.find(n => n.id === id)`: the first node with that id, if any. */
  function FindNode(nodes: seq<WorkflowNode>, id: string): (r: Option<WorkflowNode>)
    ensures r.None? <==> id !in NodeIds(nodes)
    ensures r.Some? ==> exists i :: 0 <= i < |nodes| && nodes[i] == r.value && id !in NodeIds(nodes[..i])
    ensures r.Some? ==> r.value.id == id
  {
    if nodes == [] then None
    else if nodes[0].id == id then
      assert NodeIds(nodes[..0]) == [];
      Some(nodes[0])
    else
      var r := FindNode(nodes[1..], id);
      assert NodeIds(nodes) == [nodes[0].id] + NodeIds(nodes[1..]);
      assert r.Some? ==> exists i :: 0 <= i < |nodes| && nodes[i] == r.value && id !in NodeIds(nodes[..i]) by {
        if r.Some? {
          var i :| 0 <= i < |nodes[1..]| && nodes[1..][i] == r.value && id !in NodeIds(nodes[1..][..i]);
          assert NodeIds(nodes[..i + 1]) == [nodes[0].id] + NodeIds(nodes[1..][..i]);
          assert nodes[i + 1] == r.value;
        }
      }
      r
  }

  /** `(parent.depth || 0) + 1`: one deeper than the parent, a parent
      without a depth counting as depth 0. */
  function ChildDepth(parent: WorkflowNode): (d: int)
    ensures parent.depth.Some? ==> d == parent.depth.value + 1
    ensures parent.depth.None? ==> d == 1
  {
    parent.depth.GetOr(0) + 1
  }

  /** A coordinate returned by `screenToFlowPosition`: a finite number, or
      NaN or an infinity. */
  datatype Coordinate = Finite(value: real) | NonFinite

  /** `Number.isFinite(c) ? c : 0`. */
  function Sanitize(c: Coordinate): (r: real)
    ensures c.Finite? ==> r == c.value
    ensures c.NonFinite? ==> r == 0.0
  {
    if c.Finite? then c.value else 0.0
  }

  /** The record both add paths build: a child of `parent` (found under
      `parentId`), one level deeper, with a single-field `data` holding its
      label. */
  function ChildNode(parentId: string, parent: WorkflowNode, id: string, kind: string,
                     position: Position, caption: string): (r: WorkflowNode)
    ensures r.id == id && r.kind == kind && r.position == position
    ensures r.parentId == Some(parentId)
    ensures r.depth == Some(ChildDepth(parent))
    ensures Label(r) == Some(caption) && r.data.Keys == {"label"}
    ensures r.children.None?
  {
    WorkflowNode(id, kind, position, map["label" := Text(caption)], Some(parentId), Some(ChildDepth(parent)), None)
  }

  /** The node `handleAddNode` inserts (components/workflow-builder.tsx:131-140):
      a "task" at the origin labelled "New Task". */
  function GhostChild(parentId: string, parent: WorkflowNode, id: string): (r: WorkflowNode)
    ensures r.kind == "task" && r.position == Position(0.0, 0.0) && Label(r) == Some("New Task")
    ensures r.parentId == Some(parentId) && r.depth == Some(ChildDepth(parent)) && r.id == id
  {
    ChildNode(parentId, parent, id, "task", Position(0.0, 0.0), "New Task")
  }

  /** The node `onSelectNodeType` inserts (components/workflow-builder.tsx:222-241):
      of the chosen type, labelled "New <type>", at the flow position with
      each non-finite coordinate replaced by 0 on its own. */
  function MenuChild(parentId: string, parent: WorkflowNode, id: string, kind: string,
                     x: Coordinate, y: Coordinate): (r: WorkflowNode)
    ensures r.kind == kind && Label(r) == Some("New " + kind)
    ensures r.position.x == (if x.Finite? then x.value else 0.0)
    ensures r.position.y == (if y.Finite? then y.value else 0.0)
    ensures r.parentId == Some(parentId) && r.depth == Some(ChildDepth(parent)) && r.id == id
  {
    ChildNode(parentId, parent, id, kind, Position(Sanitize(x), Sanitize(y)), "New " + kind)
  }

  /** In the seed, every node with a parent is one level deeper than that
      parent (the start node has no depth and counts as 0), and every seed
      edge runs from its target's parent to the target. */
  lemma SeedIsConsistent()
    ensures forall n :: n in InitialWorkflow && n.parentId.Some? ==>
      var parent := FindNode(InitialWorkflow, n.parentId.value);
      parent.Some? && n.depth == Some(ChildDepth(parent.value))
    ensures forall e :: e in InitialEdges ==>
      var target := FindNode(InitialWorkflow, e.target);
      target.Some? && target.value.parentId == Some(e.source)
  {
  }

  // ---------------------------------------------------------------------
  // The builder component's state: the add-node menu and the store
  // ---------------------------------------------------------------------

  /** `MenuState` (components/workflow-builder.tsx:31-36). */
  datatype MenuState = MenuState(show: bool, position: Position, sourceNode: Option<string>, sourceHandle: Option<string>)

  /** `value || undefined` on an optional string: the empty string is
      falsy and becomes absent. */
  function Truthy(o: Option<string>): (r: Option<string>)
    ensures r.Some? <==> o.Some? && o.value != ""
    ensures r.Some? ==> r == o
  {
    if o.Some? && o.value != "" then o else None
  }

  /** The event `onConnectEnd` receives: a mouse event with its client
      point, or a touch event with the client points of the fingers still
      down (`touches`) and of those that changed (`changedTouches`). */
  datatype ConnectEndEvent =
    | MouseEnd(client: Position)
    | TouchEnd(touches: seq<Position>, changedTouches: seq<Position>)

  /** The point components/workflow-builder.tsx:195-198 reads: the mouse's
      client point, or the first finger still down. Absent when there is no
      such finger, where `event.touches[0].clientX` throws. */
  function ClientPoint(event: ConnectEndEvent): (r: Option<Position>)
    ensures event.MouseEnd? ==> r == Some(event.client)
    ensures event.TouchEnd? ==> (r.None? <==> event.touches == [])
    ensures event.TouchEnd? && r.Some? ==> r.value == event.touches[0]
  {
    match event
    case MouseEnd(client) => Some(client)
    case TouchEnd(touches, _) => if touches == [] then None else Some(touches[0])
  }

  /** The point evidently meant: where the gesture ended, which for a touch
      end is the lifted finger, the first of `changedTouches`. */
  function EndPoint(event: ConnectEndEvent): (r: Option<Position>)
    ensures event.MouseEnd? ==> r == Some(event.client)
    ensures event.TouchEnd? ==> (r.None? <==> event.changedTouches == [])
    ensures event.TouchEnd? && r.Some? ==> r.value == event.changedTouches[0]
  {
    match event
    case MouseEnd(client) => Some(client)
    case TouchEnd(_, changed) => if changed == [] then None else Some(changed[0])
  }

  /** A one-finger drag ends with no finger down: the code as written finds
      no point (the handler throws and the menu never opens), while the
      lifted finger is there to be read; with a second finger still down the
      menu would open under that finger instead. The two readings agree on
      every mouse event. */
  lemma TouchEndLosesLiftedFinger(lifted: Position, other: Position)
    requires lifted != other
    ensures ClientPoint(TouchEnd([], [lifted])) == None
    ensures EndPoint(TouchEnd([], [lifted])) == Some(lifted)
    ensures ClientPoint(TouchEnd([other], [lifted])) != EndPoint(TouchEnd([other], [lifted]))
    ensures forall c :: ClientPoint(MouseEnd(c)) == EndPoint(MouseEnd(c))
  {
  }

  class Builder {
    /** The workflow store the component reads and commands. */
    const store: WorkflowStore.Store
    var menu: MenuState

    constructor (store: WorkflowStore.Store)
      ensures this.store == store
      ensures menu == MenuState(false, Position(0.0, 0.0), None, None)
    {
      this.store := store;
      menu := MenuState(false, Position(0.0, 0.0), None, None);
    }

    /** `handleAddNode` (components/workflow-builder.tsx:124-145): nothing
        when no current node has the requested id; otherwise the store adds
        a "New Task" child of it. */
    method HandleAddNode(parentId: string, newId: string)
      modifies store
      ensures var parent := FindNode(old(store.nodes), parentId);
        store.State() ==
          if parent.None? then old(store.State())
          else store.WorkflowNodeAdded(old(store.State()), parentId, GhostChild(parentId, parent.value, newId))
    {
      var parent := FindNode(store.nodes, parentId);
      if parent.None? {
        return;
      }
      store.AddWorkflowNode(parentId, GhostChild(parentId, parent.value, newId));
    }

    /** `onConnectStart` (components/workflow-builder.tsx:172-183): records
        the source node and handle and hides the menu. */
    method OnConnectStart(nodeId: Option<string>, handleId: Option<string>)
      modifies this
      ensures menu == old(menu).(sourceNode := Truthy(nodeId), sourceHandle := Truthy(handleId), show := false)
    {
      menu := menu.(sourceNode := Truthy(nodeId), sourceHandle := Truthy(handleId), show := false);
    }

    /** `onConnectEnd` (components/workflow-builder.tsx:185-210): with a
        source recorded and an invalid connection, shows the menu where the
        event's point is read. A touch end whose `touches` list is empty makes
        that read throw before the menu state is set, so nothing changes. */
    method OnConnectEnd(isValid: bool, event: ConnectEndEvent)
      modifies this
      ensures if Truthy(old(menu.sourceNode)).None? || isValid || ClientPoint(event).None? then menu == old(menu)
              else menu == old(menu).(show := true, position := ClientPoint(event).value)
    {
      if Truthy(menu.sourceNode).None? {
        return;
      }
      if isValid {
        return;
      }
      var point := ClientPoint(event);
      if point.None? {
        return;
      }
      menu := menu.(show := true, position := point.value);
    }

    /** `onSelectNodeType` (components/workflow-builder.tsx:212-247):
        `x`, `y` are what `screenToFlowPosition` returns for the menu
        position. Nothing happens without a recorded source, or when the
        source is not among the current nodes (the menu then stays as it
        is); otherwise the store adds the new child and the menu hides. */
    method OnSelectNodeType(kind: string, x: Coordinate, y: Coordinate, newId: string)
      modifies this, store
      ensures var source := Truthy(old(menu.sourceNode));
        var parent := if source.Some? then FindNode(old(store.nodes), source.value) else None;
        if parent.None? then
          menu == old(menu) && store.State() == old(store.State())
        else
          && menu == old(menu).(show := false)
          && store.State() == store.WorkflowNodeAdded(old(store.State()), source.value,
               MenuChild(source.value, parent.value, newId, kind, x, y))
    {
      var source := Truthy(menu.sourceNode);
      if source.None? {
        return;
      }
      var parent := FindNode(store.nodes, source.value);
      if parent.None? {
        return;
      }
      store.AddWorkflowNode(source.value, MenuChild(source.value, parent.value, newId, kind, x, y));
      menu := menu.(show := false);
    }

    /** `handleCloseMenu` (components/workflow-builder.tsx:249-251). */
    method HandleCloseMenu()
      modifies this
      ensures menu == old(menu).(show := false)
    {
      menu := menu.(show := false);
    }

    /** The window key handler (components/workflow-builder.tsx:253-262):
        Escape hides a shown menu; every other key, or Escape with the menu
        hidden, changes nothing. */
    method HandleKeyDown(key: string)
      modifies this
      ensures menu == if key == "Escape" && old(menu.show) then old(menu).(show := false) else old(menu)
      ensures !menu.show <== key == "Escape"
    {
      if key == "Escape" && menu.show {
        menu := menu.(show := false);
      }
    }
  }
}
