/** lib/workflow-layout.ts: the workflow hierarchy, the insertion of a node
    under a parent (`addNodeToHierarchy`) and the projection of the hierarchy
    to a flat list of nodes and edges (`generateWorkflowLayout`). */
module WorkflowLayout {
  import opened Wrappers
  import opened WorkflowTypes
  import Strings

  /** `HierarchyNode` (lib/workflow-layout.ts:5-9). An absent `children`
      field and an empty list are different values: insertion creates the
      list only at the node it appends to. */
  datatype HierarchyNode = HierarchyNode(id: string, kind: string, children: Children)

  datatype Children = Absent | Present(list: seq<HierarchyNode>)

  /** The children of `h`, an absent list read as empty. */
  function Kids(h: HierarchyNode): (cs: seq<HierarchyNode>)
    ensures forall c :: c in cs ==> (h decreases to c)
  {
    if h.children.Present? then h.children.list else []
  }

  /** Number of nodes in the tree. */
  function Size(h: HierarchyNode): nat
  {
    1 + (if h.children.Present? then SizeAll(h.children.list) else 0)
  }

  function SizeAll(cs: seq<HierarchyNode>): nat
  {
    if cs == [] then 0 else Size(cs[0]) + SizeAll(cs[1..])
  }

  /** The ids of the tree in pre-order. */
  function Ids(h: HierarchyNode): seq<string>
  {
    [h.id] + (if h.children.Present? then IdsAll(h.children.list) else [])
  }

  function IdsAll(cs: seq<HierarchyNode>): seq<string>
  {
    if cs == [] then [] else Ids(cs[0]) + IdsAll(cs[1..])
  }

  predicate NoDuplicates(s: seq<string>)
  {
    forall i, j :: 0 <= i < j < |s| ==> s[i] != s[j]
  }

  /** The number of nodes with id `p` that `addNodeToHierarchy` appends to:
      a matching node counts once and its subtree is not searched. */
  function Matches(h: HierarchyNode, p: string): nat
  {
    if h.id == p then 1
    else if h.children.Present? then MatchesAll(h.children.list, p)
    else 0
  }

  function MatchesAll(cs: seq<HierarchyNode>, p: string): nat
  {
    if cs == [] then 0 else Matches(cs[0], p) + MatchesAll(cs[1..], p)
  }

  // ---------------------------------------------------------------------
  // addNodeToHierarchy (lib/workflow-layout.ts:69-87)
  // ---------------------------------------------------------------------

  /** `addNodeToHierarchy(h, parentId, newNode)`. At a node whose id is
      `parentId` the new node becomes the last child (an absent list becomes
      a one-element list) and the search stops; elsewhere every child is
      searched. The tree grows by one copy of `newNode` per matching node
      reached, and is unchanged when no node has id `parentId`. */
  function AddNode(h: HierarchyNode, parentId: string, newNode: HierarchyNode): (r: HierarchyNode)
    ensures r.id == h.id && r.kind == h.kind
    ensures h.id == parentId ==> r.children == Present(Kids(h) + [newNode])
    ensures parentId !in Ids(h) ==> r == h
    ensures Size(r) == Size(h) + Matches(h, parentId) * Size(newNode)
  {
    if h.id == parentId then
      SizeAllAppend(Kids(h), [newNode]);
      h.(children := Present(Kids(h) + [newNode]))
    else if h.children.Present? then
      h.(children := Present(AddNodeAll(h.children.list, parentId, newNode)))
    else
      h
  }

  /** The `children.map(...)` step of `addNodeToHierarchy`: every child is
      searched, in order, and keeps its position and id. */
  function AddNodeAll(cs: seq<HierarchyNode>, parentId: string, newNode: HierarchyNode): (r: seq<HierarchyNode>)
    ensures |r| == |cs|
    ensures forall i :: 0 <= i < |cs| ==> r[i].id == cs[i].id
    ensures parentId !in IdsAll(cs) ==> r == cs
    ensures SizeAll(r) == SizeAll(cs) + MatchesAll(cs, parentId) * Size(newNode)
  {
    if cs == [] then []
    else
      var head := AddNode(cs[0], parentId, newNode);
      var tail := AddNodeAll(cs[1..], parentId, newNode);
      var r := [head] + tail;
      assert r[0] == head && r[1..] == tail;
      var m, k := Matches(cs[0], parentId), MatchesAll(cs[1..], parentId);
      assert SizeAll(r) == Size(head) + SizeAll(tail);
      assert (m + k) * Size(newNode) == m * Size(newNode) + k * Size(newNode);
      assert parentId !in IdsAll(cs) ==> head == cs[0] && tail == cs[1..] by {
        assert IdsAll(cs) == Ids(cs[0]) + IdsAll(cs[1..]);
      }
      assert cs == [cs[0]] + cs[1..];
      r
  }

  lemma {:induction false} SizeAllAppend(a: seq<HierarchyNode>, b: seq<HierarchyNode>)
    ensures SizeAll(a + b) == SizeAll(a) + SizeAll(b)
  {
    if a != [] {
      assert (a + b)[0] == a[0] && (a + b)[1..] == a[1..] + b;
      SizeAllAppend(a[1..], b);
    } else {
      assert a + b == b;
    }
  }

  /** Some node is appended to exactly when some node has id `p`. */
  lemma {:induction false} MatchesIffPresent(h: HierarchyNode, p: string)
    ensures Matches(h, p) > 0 <==> p in Ids(h)
  {
    if h.id != p && h.children.Present? {
      MatchesAllIffPresent(h.children.list, p);
    }
  }

  lemma {:induction false} MatchesAllIffPresent(cs: seq<HierarchyNode>, p: string)
    ensures MatchesAll(cs, p) > 0 <==> p in IdsAll(cs)
  {
    if cs != [] {
      MatchesIffPresent(cs[0], p);
      MatchesAllIffPresent(cs[1..], p);
    }
  }

  /** No more nodes are appended to than there are nodes with id `p`. */
  lemma {:induction false} MatchesAtMostOccurrences(h: HierarchyNode, p: string)
    ensures Matches(h, p) <= multiset(Ids(h))[p]
  {
    if h.id != p && h.children.Present? {
      MatchesAllAtMostOccurrences(h.children.list, p);
    }
  }

  lemma {:induction false} MatchesAllAtMostOccurrences(cs: seq<HierarchyNode>, p: string)
    ensures MatchesAll(cs, p) <= multiset(IdsAll(cs))[p]
  {
    if cs != [] {
      MatchesAtMostOccurrences(cs[0], p);
      MatchesAllAtMostOccurrences(cs[1..], p);
    }
  }

  lemma {:induction false} NoDuplicatesOccurrence(s: seq<string>, p: string)
    requires NoDuplicates(s)
    ensures multiset(s)[p] <= 1
  {
    if s != [] {
      assert s == [s[0]] + s[1..];
      NoDuplicatesOccurrence(s[1..], p);
      if s[0] == p {
        assert p !in s[1..];
      }
    }
  }

  /** With unique ids and `parentId` present, exactly one node gains
      `newNode` as its last child: the tree grows by the size of `newNode`,
      by one node when `newNode` has no children. */
  lemma AddNodeUniqueParent(h: HierarchyNode, parentId: string, newNode: HierarchyNode)
    requires NoDuplicates(Ids(h)) && parentId in Ids(h)
    ensures Size(AddNode(h, parentId, newNode)) == Size(h) + Size(newNode)
    ensures Kids(newNode) == [] ==> Size(AddNode(h, parentId, newNode)) == Size(h) + 1
  {
    MatchesIffPresent(h, parentId);
    MatchesAtMostOccurrences(h, parentId);
    NoDuplicatesOccurrence(Ids(h), parentId);
    var m := Matches(h, parentId);
    assert m == 1;
    assert Size(AddNode(h, parentId, newNode)) == Size(h) + m * Size(newNode);
    if Kids(newNode) == [] {
      assert Size(newNode) == 1 by {
        if newNode.children.Present? { assert newNode.children.list == []; }
      }
    }
  }

  // ---------------------------------------------------------------------
  // Looking a node up by id, to state what insertion leaves alone
  // ---------------------------------------------------------------------

  /** The first node with id `q` in pre-order. */
  function Find(h: HierarchyNode, q: string): (r: Option<HierarchyNode>)
    ensures r.Some? <==> q in Ids(h)
    ensures r.Some? ==> r.value.id == q
  {
    if h.id == q then Some(h)
    else if h.children.Present? then FindAll(h.children.list, q)
    else None
  }

  function FindAll(cs: seq<HierarchyNode>, q: string): (r: Option<HierarchyNode>)
    ensures r.Some? <==> q in IdsAll(cs)
    ensures r.Some? ==> r.value.id == q
  {
    if cs == [] then None
    else
      var f := Find(cs[0], q);
      if f.Some? then f else FindAll(cs[1..], q)
  }

  lemma {:induction false} FindAllAppend(a: seq<HierarchyNode>, b: seq<HierarchyNode>, q: string)
    ensures FindAll(a + b, q) == if FindAll(a, q).Some? then FindAll(a, q) else FindAll(b, q)
  {
    if a != [] {
      assert (a + b)[0] == a[0] && (a + b)[1..] == a[1..] + b;
      FindAllAppend(a[1..], b, q);
    } else {
      assert a + b == b;
    }
  }

  /** What insertion may change about one node: its id, its type and the
      ids of its children (absent when it has no `children` list). */
  datatype Summary = Summary(id: string, kind: string, childIds: Option<seq<string>>)

  function ChildIds(cs: seq<HierarchyNode>): seq<string>
  {
    seq(|cs|, i requires 0 <= i < |cs| => cs[i].id)
  }

  function Summarize(o: Option<HierarchyNode>): Option<Summary>
  {
    match o
    case None => None
    case Some(h) =>
      Some(Summary(h.id, h.kind, if h.children.Present? then Some(ChildIds(h.children.list)) else None))
  }

  /** For any id `q` other than `parentId` and not occurring in `newNode`,
      the first node with id `q` keeps its type and its list of children,
      child for child (absent lists stay absent). With unique ids this is
      every node other than the parent. */
  lemma {:induction false} AddNodeKeepsOtherNodes(h: HierarchyNode, parentId: string, newNode: HierarchyNode, q: string)
    requires q != parentId && q !in Ids(newNode)
    ensures Summarize(Find(AddNode(h, parentId, newNode), q)) == Summarize(Find(h, q))
  {
    if h.id == parentId {
      FindAllAppend(Kids(h), [newNode], q);
      assert FindAll([newNode], q) == Find(newNode, q);
    } else if h.children.Present? {
      var cs := h.children.list;
      var added := AddNodeAll(cs, parentId, newNode);
      if h.id == q {
        assert ChildIds(added) == ChildIds(cs);
      } else {
        AddNodeAllKeepsOtherNodes(cs, parentId, newNode, q);
      }
    }
  }

  lemma {:induction false} AddNodeAllKeepsOtherNodes(cs: seq<HierarchyNode>, parentId: string, newNode: HierarchyNode, q: string)
    requires q != parentId && q !in Ids(newNode)
    ensures Summarize(FindAll(AddNodeAll(cs, parentId, newNode), q)) == Summarize(FindAll(cs, q))
  {
    if cs != [] {
      var added := AddNodeAll(cs, parentId, newNode);
      assert added[0] == AddNode(cs[0], parentId, newNode);
      assert added[1..] == AddNodeAll(cs[1..], parentId, newNode);
      AddNodeKeepsOtherNodes(cs[0], parentId, newNode, q);
      AddNodeAllKeepsOtherNodes(cs[1..], parentId, newNode, q);
    }
  }

  /** The first node with id `parentId` keeps its type and gains `newNode`
      as its last child, after its existing children in their order. */
  lemma {:induction false} AddNodeExtendsParent(h: HierarchyNode, parentId: string, newNode: HierarchyNode)
    requires parentId in Ids(h)
    ensures var before, after := Find(h, parentId), Find(AddNode(h, parentId, newNode), parentId);
      && before.Some? && after.Some?
      && after.value.kind == before.value.kind
      && after.value.children == Present(Kids(before.value) + [newNode])
  {
    if h.id != parentId {
      AddNodeAllExtendsParent(h.children.list, parentId, newNode);
    }
  }

  lemma {:induction false} AddNodeAllExtendsParent(cs: seq<HierarchyNode>, parentId: string, newNode: HierarchyNode)
    requires parentId in IdsAll(cs)
    ensures var before, after := FindAll(cs, parentId), FindAll(AddNodeAll(cs, parentId, newNode), parentId);
      && before.Some? && after.Some?
      && after.value.kind == before.value.kind
      && after.value.children == Present(Kids(before.value) + [newNode])
  {
    var added := AddNodeAll(cs, parentId, newNode);
    assert added[0] == AddNode(cs[0], parentId, newNode);
    assert added[1..] == AddNodeAll(cs[1..], parentId, newNode);
    if parentId in Ids(cs[0]) {
      AddNodeExtendsParent(cs[0], parentId, newNode);
    } else {
      AddNodeAllExtendsParent(cs[1..], parentId, newNode);
    }
  }

  // ---------------------------------------------------------------------
  // generateWorkflowLayout (lib/workflow-layout.ts:38-67)
  // ---------------------------------------------------------------------

  /** A parent-to-child link, as d3's `links()` reports it. */
  datatype Link = Link(source: HierarchyNode, target: HierarchyNode)

  /** `h` or one of its descendants is `u`. */
  ghost predicate InTree(h: HierarchyNode, u: HierarchyNode)
    decreases h
  {
    u == h || exists i :: 0 <= i < |Kids(h)| && InTree(Kids(h)[i], u)
  }

  /** `u` is in one of the trees of `queue`. */
  ghost predicate InForest(queue: seq<HierarchyNode>, u: HierarchyNode)
  {
    exists j :: 0 <= j < |queue| && InTree(queue[j], u)
  }

  /** The nodes of the trees in `queue`, breadth first: d3's `descendants()`
      lists a tree this way, the root first. */
  function Bfs(queue: seq<HierarchyNode>): seq<HierarchyNode>
    decreases SizeAll(queue)
  {
    if queue == [] then []
    else
      QueueStep(queue);
      [queue[0]] + Bfs(queue[1..] + Kids(queue[0]))
  }

  /** The links from each node to its children, in the same breadth-first
      order: d3's `links()`, one link per node except the roots, ordered by
      target. */
  function BfsLinks(queue: seq<HierarchyNode>): seq<Link>
    decreases SizeAll(queue)
  {
    if queue == [] then []
    else
      QueueStep(queue);
      ChildLinks(queue[0]) + BfsLinks(queue[1..] + Kids(queue[0]))
  }

  function ChildLinks(u: HierarchyNode): (r: seq<Link>)
    ensures |r| == |Kids(u)|
    ensures forall i :: 0 <= i < |r| ==> r[i] == Link(u, Kids(u)[i])
  {
    seq(|Kids(u)|, i requires 0 <= i < |Kids(u)| => Link(u, Kids(u)[i]))
  }

  /** Visiting the head of the queue and enqueueing its children removes
      exactly one node from the work left. */
  lemma QueueStep(queue: seq<HierarchyNode>)
    requires queue != []
    ensures SizeAll(queue[1..] + Kids(queue[0])) == SizeAll(queue) - 1
  {
    SizeAllAppend(queue[1..], Kids(queue[0]));
  }

  /** Every node of the forest is listed once per occurrence: the traversal
      has as many entries as the forest has nodes. */
  lemma {:induction false} BfsLength(queue: seq<HierarchyNode>)
    ensures |Bfs(queue)| == SizeAll(queue)
    decreases SizeAll(queue)
  {
    if queue != [] {
      QueueStep(queue);
      BfsLength(queue[1..] + Kids(queue[0]));
    }
  }

  /** One link per node that is not a root of the forest. */
  lemma {:induction false} BfsLinksLength(queue: seq<HierarchyNode>)
    ensures |BfsLinks(queue)| + |queue| == SizeAll(queue)
    decreases SizeAll(queue)
  {
    if queue != [] {
      QueueStep(queue);
      BfsLinksLength(queue[1..] + Kids(queue[0]));
    }
  }

  /** Moving from `queue` to the next queue keeps the same forest, less the
      visited head. */
  lemma {:induction false} ForestStep(queue: seq<HierarchyNode>, u: HierarchyNode)
    requires queue != []
    ensures InForest(queue, u) <==> u == queue[0] || InForest(queue[1..] + Kids(queue[0]), u)
  {
    var next := queue[1..] + Kids(queue[0]);
    if InForest(queue, u) && u != queue[0] {
      var j :| 0 <= j < |queue| && InTree(queue[j], u);
      if j == 0 {
        var k :| 0 <= k < |Kids(queue[0])| && InTree(Kids(queue[0])[k], u);
        assert next[|queue| - 1 + k] == Kids(queue[0])[k];
      } else {
        assert next[j - 1] == queue[j];
      }
    }
    if InForest(next, u) {
      var j :| 0 <= j < |next| && InTree(next[j], u);
      if j < |queue| - 1 {
        assert next[j] == queue[j + 1];
      } else {
        assert next[j] == Kids(queue[0])[j - |queue| + 1];
        assert InTree(queue[0], u);
      }
    }
    if u == queue[0] {
      assert InTree(queue[0], u);
    }
  }

  /** The traversal lists exactly the nodes of the forest. */
  lemma {:induction false} BfsNodes(queue: seq<HierarchyNode>, u: HierarchyNode)
    ensures u in Bfs(queue) <==> InForest(queue, u)
    decreases SizeAll(queue)
  {
    if queue != [] {
      QueueStep(queue);
      ForestStep(queue, u);
      BfsNodes(queue[1..] + Kids(queue[0]), u);
    }
  }

  /** The links are exactly the parent-to-child pairs of the forest. */
  lemma {:induction false} BfsLinksArePairs(queue: seq<HierarchyNode>, l: Link)
    ensures l in BfsLinks(queue) <==> InForest(queue, l.source) && l.target in Kids(l.source)
    decreases SizeAll(queue)
  {
    if queue != [] {
      QueueStep(queue);
      ForestStep(queue, l.source);
      BfsLinksArePairs(queue[1..] + Kids(queue[0]), l);
      var here := ChildLinks(queue[0]);
      if l.source == queue[0] && l.target in Kids(l.source) {
        var i :| 0 <= i < |Kids(queue[0])| && Kids(queue[0])[i] == l.target;
        assert here[i] == l;
      }
    }
  }

  lemma InForestSingle(h: HierarchyNode, u: HierarchyNode)
    ensures InForest([h], u) <==> InTree(h, u)
  {
    if InTree(h, u) { assert [h][0] == h; }
  }

  /** `type.charAt(0).toUpperCase() + type.slice(1)`: the first character
      upper-cased, the rest unchanged. */
  function Capitalize(s: string): (r: string)
    ensures |r| == |s|
    ensures |s| > 0 ==> r[0] == Strings.UpperChar(s[0]) && r[1..] == s[1..]
  {
    if s == [] then [] else [Strings.UpperChar(s[0])] + s[1..]
  }

  /** Capitalising is idempotent. */
  lemma CapitalizeIdempotent(s: string)
    ensures Capitalize(Capitalize(s)) == Capitalize(s)
  {
  }

  /** The flat node for a tree node placed at `position`
      (lib/workflow-layout.ts:49-56): its id, its type, and its capitalised
      type as label. */
  function LayoutNode(u: HierarchyNode, position: Position): (n: WorkflowNode)
    ensures n.id == u.id && n.kind == u.kind && n.position == position
    ensures Label(n) == Some(Capitalize(u.kind))
  {
    WorkflowNode(u.id, u.kind, position, map["label" := Text(Capitalize(u.kind))], None, None, None)
  }

  /** The flat edge for a link (lib/workflow-layout.ts:59-64). */
  function LayoutEdge(l: Link): WorkflowEdge
  {
    WorkflowEdge(l.source.id + "-" + l.target.id, l.source.id, l.target.id, "smoothstep")
  }

  /** The node and edge projection of `generateWorkflowLayout`, for any
      tree, the `i`-th node in breadth-first order placed at `coords(i)`:
      one node per tree node, labelled with its capitalised type, and one
      edge per parent-to-child link, whose id joins the two ids with a dash;
      so there is one edge fewer than there are nodes. */
  function Project(h: HierarchyNode, coords: nat -> Position): (r: Projection)
    ensures |r.nodes| == Size(h)
    ensures |r.edges| == |r.nodes| - 1
    ensures forall i :: 0 <= i < |r.nodes| ==> Label(r.nodes[i]) == Some(Capitalize(r.nodes[i].kind))
    ensures forall e :: e in r.edges ==> e.id == e.source + "-" + e.target
  {
    var order, links := Bfs([h]), BfsLinks([h]);
    BfsLength([h]);
    BfsLinksLength([h]);
    assert SizeAll([h]) == Size(h) by { assert [h][1..] == []; }
    var nodes := seq(|order|, i requires 0 <= i < |order| => LayoutNode(order[i], coords(i)));
    assert forall i :: 0 <= i < |nodes| ==> Label(nodes[i]) == Some(Capitalize(nodes[i].kind)) by {
      forall i | 0 <= i < |nodes|
        ensures Label(nodes[i]) == Some(Capitalize(nodes[i].kind))
      {
        var n := LayoutNode(order[i], coords(i));
        assert nodes[i] == n;
      }
    }
    Projection(nodes, seq(|links|, i requires 0 <= i < |links| => LayoutEdge(links[i])))
  }

  /** The projected nodes are the tree's nodes, breadth first, and every
      node of the tree is projected. */
  lemma ProjectNodes(h: HierarchyNode, coords: nat -> Position, u: HierarchyNode)
    ensures var r, order := Project(h, coords), Bfs([h]);
      forall i :: 0 <= i < |r.nodes| ==> InTree(h, order[i]) && r.nodes[i] == LayoutNode(order[i], coords(i))
    ensures InTree(h, u) ==> exists i :: 0 <= i < |Project(h, coords).nodes| && Project(h, coords).nodes[i] == LayoutNode(u, coords(i))
  {
    var r, order := Project(h, coords), Bfs([h]);
    forall i | 0 <= i < |r.nodes| ensures InTree(h, order[i]) {
      BfsNodes([h], order[i]);
      InForestSingle(h, order[i]);
    }
    if InTree(h, u) {
      BfsNodes([h], u);
      InForestSingle(h, u);
      var i :| 0 <= i < |order| && order[i] == u;
      assert r.nodes[i] == LayoutNode(u, coords(i));
    }
  }

  /** Every projected edge runs from a tree node to one of its direct
      children, and every parent-to-child pair of the tree is projected. */
  lemma ProjectEdges(h: HierarchyNode, coords: nat -> Position, u: HierarchyNode, c: HierarchyNode)
    ensures var r, links := Project(h, coords), BfsLinks([h]);
      forall i :: 0 <= i < |r.edges| ==>
        && InTree(h, links[i].source) && links[i].target in Kids(links[i].source)
        && r.edges[i] == LayoutEdge(links[i])
    ensures InTree(h, u) && c in Kids(u) ==> LayoutEdge(Link(u, c)) in Project(h, coords).edges
  {
    var r, links := Project(h, coords), BfsLinks([h]);
    forall i | 0 <= i < |r.edges|
      ensures InTree(h, links[i].source) && links[i].target in Kids(links[i].source)
    {
      BfsLinksArePairs([h], links[i]);
      InForestSingle(h, links[i].source);
    }
    if InTree(h, u) && c in Kids(u) {
      BfsLinksArePairs([h], Link(u, c));
      InForestSingle(h, u);
      var i :| 0 <= i < |links| && links[i] == Link(u, c);
      assert r.edges[i] == LayoutEdge(Link(u, c));
    }
  }

  /** The sample workflow of lib/workflow-layout.ts:15-36:
      start -> task-1 -> task-2 -> end; `end` has no `children` field. */
  const EndNode := HierarchyNode("end", "end", Absent)
  const Task2 := HierarchyNode("task-2", "task", Present([EndNode]))
  const Task1 := HierarchyNode("task-1", "task", Present([Task2]))
  const InitialHierarchy := HierarchyNode("start", "start", Present([Task1]))

  /** The breadth-first traversal of the sample chain. */
  lemma InitialHierarchyTraversal()
    ensures Bfs([InitialHierarchy]) == [InitialHierarchy, Task1, Task2, EndNode]
    ensures BfsLinks([InitialHierarchy]) == [Link(InitialHierarchy, Task1), Link(Task1, Task2), Link(Task2, EndNode)]
  {
    assert [InitialHierarchy][1..] + Kids(InitialHierarchy) == [Task1];
    assert [Task1][1..] + Kids(Task1) == [Task2];
    assert [Task2][1..] + Kids(Task2) == [EndNode];
    assert [EndNode][1..] + Kids(EndNode) == [];
    assert Bfs([EndNode]) == [EndNode] + Bfs([]);
    assert Bfs([Task2]) == [Task2] + Bfs([EndNode]);
    assert Bfs([Task1]) == [Task1] + Bfs([Task2]);
    assert Bfs([InitialHierarchy]) == [InitialHierarchy] + Bfs([Task1]);
    assert ChildLinks(EndNode) == [];
    assert ChildLinks(Task2) == [Link(Task2, EndNode)];
    assert ChildLinks(Task1) == [Link(Task1, Task2)];
    assert ChildLinks(InitialHierarchy) == [Link(InitialHierarchy, Task1)];
    assert BfsLinks([EndNode]) == ChildLinks(EndNode) + BfsLinks([]);
    assert BfsLinks([Task2]) == ChildLinks(Task2) + BfsLinks([EndNode]);
    assert BfsLinks([Task1]) == ChildLinks(Task1) + BfsLinks([Task2]);
    assert BfsLinks([InitialHierarchy]) == ChildLinks(InitialHierarchy) + BfsLinks([Task1]);
  }

  lemma SampleLabelsAndEdgeIds()
    ensures Capitalize("start") == "Start" && Capitalize("task") == "Task" && Capitalize("end") == "End"
    ensures "start" + "-" + "task-1" == "start-task-1"
    ensures "task-1" + "-" + "task-2" == "task-1-task-2"
    ensures "task-2" + "-" + "end" == "task-2-end"
  {
  }

  /** The projection of the sample chain, node by node and edge by edge. */
  lemma SampleProjection(coords: nat -> Position)
    ensures Project(InitialHierarchy, coords).nodes
         == [LayoutNode(InitialHierarchy, coords(0)), LayoutNode(Task1, coords(1)),
             LayoutNode(Task2, coords(2)), LayoutNode(EndNode, coords(3))]
    ensures Project(InitialHierarchy, coords).edges
         == [LayoutEdge(Link(InitialHierarchy, Task1)), LayoutEdge(Link(Task1, Task2)),
             LayoutEdge(Link(Task2, EndNode))]
  {
    InitialHierarchyTraversal();
  }

  /** `generateWorkflowLayout()`: it takes no workflow and always lays out
      the sample chain, so its nodes and edges are fixed; `coords(i)` stands
      for the position d3's tree layout gives the `i`-th node of the
      breadth-first order. */
  function GenerateWorkflowLayout(coords: nat -> Position): (r: Projection)
    ensures |r.nodes| == 4 && |r.edges| == 3
    ensures NodeIds(r.nodes) == ["start", "task-1", "task-2", "end"]
    ensures [r.nodes[0].kind, r.nodes[1].kind, r.nodes[2].kind, r.nodes[3].kind] == ["start", "task", "task", "end"]
    ensures [Label(r.nodes[0]), Label(r.nodes[1]), Label(r.nodes[2]), Label(r.nodes[3])]
         == [Some("Start"), Some("Task"), Some("Task"), Some("End")]
    ensures forall i :: 0 <= i < 4 ==> r.nodes[i].position == coords(i)
    ensures r.edges == [
      WorkflowEdge("start-task-1", "start", "task-1", "smoothstep"),
      WorkflowEdge("task-1-task-2", "task-1", "task-2", "smoothstep"),
      WorkflowEdge("task-2-end", "task-2", "end", "smoothstep")]
  {
    SampleProjection(coords);
    SampleLabelsAndEdgeIds();
    var r := Project(InitialHierarchy, coords);
    var n0, n1, n2, n3 := r.nodes[0], r.nodes[1], r.nodes[2], r.nodes[3];
    assert n0.id == "start" && n0.kind == "start" && Label(n0) == Some("Start") && n0.position == coords(0);
    assert n1.id == "task-1" && n1.kind == "task" && Label(n1) == Some("Task") && n1.position == coords(1);
    assert n2.id == "task-2" && n2.kind == "task" && Label(n2) == Some("Task") && n2.position == coords(2);
    assert n3.id == "end" && n3.kind == "end" && Label(n3) == Some("End") && n3.position == coords(3);
    assert NodeIds(r.nodes) == [n0.id, n1.id, n2.id, n3.id];
    r
  }
}
