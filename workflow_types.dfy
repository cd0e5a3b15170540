/** The entity shapes of types/workflow.ts: a workflow node, a workflow edge and
    the layout direction. */
module WorkflowTypes {
  import opened Wrappers

  /** `LayoutDirection` (types/workflow.ts:5). */
  datatype LayoutDirection = Horizontal | Vertical | Radial

  /** A canvas coordinate. Pixel values are modelled as reals; positions stored
      in a node are always finite. */
  datatype Position = Position(x: real, y: real)

  /** A value held in a node's `data` record: a string field (label, status,
      priority, ...), a string-list field (departments, tags), or a key
      explicitly set to `undefined`, which a spread copies like any value. */
  datatype DataValue = Text(text: string) | TextList(items: seq<string>) | Undefined

  /** The open `data` record of a node, keyed by field name. */
  type NodeData = map<string, DataValue>

  /** `WorkflowNode` (types/workflow.ts:7-17). The node type is kept as text:
      callers cast arbitrary strings ("department", "loop", "api", ...) to
      `NodeType`, so at run time the field holds any string. */
  datatype WorkflowNode = WorkflowNode(
    id: string,
    kind: string,
    position: Position,
    data: NodeData,
    parentId: Option<string>,
    depth: Option<int>,
    children: Option<seq<WorkflowNode>>)

  /** `WorkflowEdge` (types/workflow.ts:19-21); `kind` is the edge's `type`. */
  datatype WorkflowEdge = WorkflowEdge(id: string, source: string, target: string, kind: string)

  /** The `{ nodes, edges }` pair a layout computation returns. */
  datatype Projection = Projection(nodes: seq<WorkflowNode>, edges: seq<WorkflowEdge>)

  /** A node's `data.label`, when it is a string. */
  function Label(n: WorkflowNode): Option<string>
  {
    if "label" in n.data && n.data["label"].Text? then Some(n.data["label"].text) else None
  }

  /** The ids of a node list, in order. */
  function NodeIds(nodes: seq<WorkflowNode>): (ids: seq<string>)
    ensures |ids| == |nodes|
    ensures forall i :: 0 <= i < |nodes| ==> ids[i] == nodes[i].id
  {
    seq(|nodes|, i requires 0 <= i < |nodes| => nodes[i].id)
  }
}
