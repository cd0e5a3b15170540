/** stores/workflow-store.ts: the state container holding the workflow tree,
    its flat projection, the layout direction and the ghost-node flag. The
    layout computation (`generateWorkflowLayout` with options) and the tree
    insertion (`addNodeToWorkflow`) it imports are not defined by the layout
    file it names, so the store takes both as function parameters. */
module WorkflowStore {
  import opened Wrappers
  import opened WorkflowTypes

  /** The options object the store passes to the layout function. The
      spacing is always `DEFAULT_SPACING` and is left implicit;
      `withNodeDimensions` records whether `DEFAULT_NODE_DIMENSIONS` was
      passed as `nodeWidth`/`nodeHeight`, and `showGhostNodes` whether the
      flag was passed. */
  datatype LayoutOptions = LayoutOptions(
    direction: LayoutDirection,
    withNodeDimensions: bool,
    showGhostNodes: Option<bool>)

  /** The data fields of the store, as one value. */
  datatype StoreState = StoreState(
    workflow: Option<WorkflowNode>,
    nodes: seq<WorkflowNode>,
    edges: seq<WorkflowEdge>,
    layout: LayoutDirection,
    showGhostNodes: bool)

  /** The options `initialize` and `addWorkflowNode` pass. */
  function BasicOptions(direction: LayoutDirection): LayoutOptions
  {
    LayoutOptions(direction, false, None)
  }

  /** The options `updateLayout` passes. */
  function FullOptions(direction: LayoutDirection, showGhostNodes: bool): LayoutOptions
  {
    LayoutOptions(direction, true, Some(showGhostNodes))
  }

  class Store {
    var workflow: Option<WorkflowNode>
    var nodes: seq<WorkflowNode>
    var edges: seq<WorkflowEdge>
    var layout: LayoutDirection
    var showGhostNodes: bool

    /** The imported layout computation. */
    const generateLayout: (WorkflowNode, LayoutOptions) -> Projection
    /** The imported tree insertion. */
    const addNodeToWorkflow: (WorkflowNode, string, WorkflowNode) -> WorkflowNode

    function State(): StoreState
      reads this
    {
      StoreState(workflow, nodes, edges, layout, showGhostNodes)
    }

    // The effect of each command on the store's data, as a function of the
    // state before it.

    /** `initialize(w)`: installs `w` and its projection under the current
        direction; the direction and the ghost flag stay. */
    function Initialized(s: StoreState, w: WorkflowNode): (r: StoreState)
      ensures r.workflow == Some(w)
      ensures Projection(r.nodes, r.edges) == generateLayout(w, BasicOptions(s.layout))
      ensures r.layout == s.layout && r.showGhostNodes == s.showGhostNodes
    {
      var p := generateLayout(w, BasicOptions(s.layout));
      s.(workflow := Some(w), nodes := p.nodes, edges := p.edges)
    }

    /** `setLayout(d)`: only the direction changes; nodes and edges are not
        recomputed. */
    static function LayoutSet(s: StoreState, direction: LayoutDirection): (r: StoreState)
      ensures r.layout == direction
      ensures r.(layout := s.layout) == s
    {
      s.(layout := direction)
    }

    /** `setEdges(es)` (array form): only the edges change. */
    static function EdgesSet(s: StoreState, es: seq<WorkflowEdge>): (r: StoreState)
      ensures r.edges == es
      ensures r.(edges := s.edges) == s
    {
      s.(edges := es)
    }

    /** `addWorkflowNode(parentId, n)`: nothing at all without a workflow;
        otherwise the workflow becomes the insertion's result and nodes and
        edges its projection, with direction and flag unchanged. */
    function WorkflowNodeAdded(s: StoreState, parentId: string, n: WorkflowNode): (r: StoreState)
      ensures s.workflow.None? ==> r == s
      ensures s.workflow.Some? ==>
        && r.workflow == Some(addNodeToWorkflow(s.workflow.value, parentId, n))
        && Projection(r.nodes, r.edges) == generateLayout(r.workflow.value, BasicOptions(s.layout))
        && r.layout == s.layout && r.showGhostNodes == s.showGhostNodes
    {
      match s.workflow
      case None => s
      case Some(w) =>
        var updated := addNodeToWorkflow(w, parentId, n);
        var p := generateLayout(updated, BasicOptions(s.layout));
        s.(workflow := Some(updated), nodes := p.nodes, edges := p.edges)
    }

    /** `toggleGhostNodes()`: the flag flips and nothing else changes. */
    static function GhostNodesToggled(s: StoreState): (r: StoreState)
      ensures r.showGhostNodes != s.showGhostNodes
      ensures r.(showGhostNodes := s.showGhostNodes) == s
    {
      s.(showGhostNodes := !s.showGhostNodes)
    }

    /** `updateLayout()`: nothing without a workflow; otherwise only nodes and
        edges change, to the projection under the current direction with
        node dimensions and the current ghost flag. */
    function Relaid(s: StoreState): (r: StoreState)
      ensures s.workflow.None? ==> r == s
      ensures s.workflow.Some? ==>
        && Projection(r.nodes, r.edges) == generateLayout(s.workflow.value, FullOptions(s.layout, s.showGhostNodes))
        && r.(nodes := s.nodes, edges := s.edges) == s
    {
      match s.workflow
      case None => s
      case Some(w) =>
        var p := generateLayout(w, FullOptions(s.layout, s.showGhostNodes));
        s.(nodes := p.nodes, edges := p.edges)
    }

    /** The store as created (stores/workflow-store.ts:40-44). */
    constructor (generateLayout: (WorkflowNode, LayoutOptions) -> Projection,
                 addNodeToWorkflow: (WorkflowNode, string, WorkflowNode) -> WorkflowNode)
      ensures State() == StoreState(None, [], [], Horizontal, false)
      ensures this.generateLayout == generateLayout && this.addNodeToWorkflow == addNodeToWorkflow
    {
      this.generateLayout := generateLayout;
      this.addNodeToWorkflow := addNodeToWorkflow;
      workflow := None;
      nodes := [];
      edges := [];
      layout := Horizontal;
      showGhostNodes := false;
    }

    method Initialize(initialWorkflow: WorkflowNode)
      modifies this
      ensures State() == Initialized(old(State()), initialWorkflow)
    {
      workflow := Some(initialWorkflow);
      var p := generateLayout(initialWorkflow, BasicOptions(layout));
      nodes, edges := p.nodes, p.edges;
    }

    method SetLayout(direction: LayoutDirection)
      modifies this
      ensures State() == LayoutSet(old(State()), direction)
    {
      layout := direction;
    }

    method SetEdges(es: seq<WorkflowEdge>)
      modifies this
      ensures State() == EdgesSet(old(State()), es)
    {
      edges := es;
    }

    method AddWorkflowNode(parentId: string, newNode: WorkflowNode)
      modifies this
      ensures State() == WorkflowNodeAdded(old(State()), parentId, newNode)
    {
      if workflow.None? {
        return;
      }
      var updated := addNodeToWorkflow(workflow.value, parentId, newNode);
      workflow := Some(updated);
      var p := generateLayout(updated, BasicOptions(layout));
      nodes, edges := p.nodes, p.edges;
    }

    method ToggleGhostNodes()
      modifies this
      ensures State() == GhostNodesToggled(old(State()))
    {
      showGhostNodes := !showGhostNodes;
    }

    method UpdateLayout()
      modifies this
      ensures State() == Relaid(old(State()))
    {
      if workflow.None? {
        return;
      }
      var p := generateLayout(workflow.value, FullOptions(layout, showGhostNodes));
      nodes, edges := p.nodes, p.edges;
    }
  }

  /** Two toggles restore every field of the store. */
  lemma ToggleTwiceRestores(s: StoreState)
    ensures Store.GhostNodesToggled(Store.GhostNodesToggled(s)) == s
  {
  }

  /** Changing the direction alone leaves the projection stale: nodes and
      edges only follow the new direction after `updateLayout`. */
  lemma SetLayoutThenUpdate(store: Store, s: StoreState, direction: LayoutDirection)
    requires s.workflow.Some?
    ensures var t := store.Relaid(Store.LayoutSet(s, direction));
      && t.nodes == store.generateLayout(s.workflow.value, FullOptions(direction, s.showGhostNodes)).nodes
      && t.edges == store.generateLayout(s.workflow.value, FullOptions(direction, s.showGhostNodes)).edges
      && Store.LayoutSet(s, direction).nodes == s.nodes
  {
  }
}
