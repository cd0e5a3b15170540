/** nodes/department-node/index.tsx: the status cycle behind the "mark"
    button, the merge of a partial update into one node's data, and the
    class names the node picks for its priority, status and button. */
module DepartmentNode {
  import opened Wrappers
  import opened WorkflowTypes
  import opened Strings

  // ---------------------------------------------------------------------
  // Merging updates into a node's data (index.tsx:42-60)
  // ---------------------------------------------------------------------

  /** `{ ...data, ...updates }`: every key of either map, the update's value
      winning where both have one. */
  function MergeData(data: NodeData, updates: NodeData): (r: NodeData)
    ensures r.Keys == data.Keys + updates.Keys
    ensures forall k :: k in updates ==> r[k] == updates[k]
    ensures forall k :: k in data && k !in updates ==> r[k] == data[k]
  {
    data + updates
  }

  /** Applying the same update twice is applying it once. */
  lemma MergeIdempotent(data: NodeData, updates: NodeData)
    ensures MergeData(MergeData(data, updates), updates) == MergeData(data, updates)
  {
  }

  /** Two updates in a row are one update with the later values winning. */
  lemma MergeCompose(data: NodeData, u1: NodeData, u2: NodeData)
    ensures MergeData(MergeData(data, u1), u2) == MergeData(data, MergeData(u1, u2))
  {
  }

  /** `prevNodes.map(...)` of `handleUpdate`: every node with the given id
      gets the update merged into its data; all other nodes, and every other
      field, are left as they are. */
  function UpdateNodeData(nodes: seq<WorkflowNode>, id: string, updates: NodeData): (r: seq<WorkflowNode>)
    ensures |r| == |nodes| && NodeIds(r) == NodeIds(nodes)
    ensures forall i :: 0 <= i < |nodes| && nodes[i].id == id ==>
      r[i] == nodes[i].(data := MergeData(nodes[i].data, updates))
    ensures forall i :: 0 <= i < |nodes| && nodes[i].id != id ==> r[i] == nodes[i]
  {
    seq(|nodes|, i requires 0 <= i < |nodes| =>
      if nodes[i].id == id then nodes[i].(data := MergeData(nodes[i].data, updates)) else nodes[i])
  }

  /** An update addressed to an id no node has changes nothing. */
  lemma UpdateAbsentId(nodes: seq<WorkflowNode>, id: string, updates: NodeData)
    requires id !in NodeIds(nodes)
    ensures UpdateNodeData(nodes, id, updates) == nodes
  {
    var r := UpdateNodeData(nodes, id, updates);
    forall i | 0 <= i < |nodes|
      ensures r[i] == nodes[i]
    {
      assert NodeIds(nodes)[i] == nodes[i].id;
    }
  }

  /** Re-sending an update is harmless, and two updates of the same node
      amount to one carrying both, the later values winning. */
  lemma UpdateTwice(nodes: seq<WorkflowNode>, id: string, u1: NodeData, u2: NodeData)
    ensures UpdateNodeData(UpdateNodeData(nodes, id, u1), id, u2) == UpdateNodeData(nodes, id, MergeData(u1, u2))
    ensures UpdateNodeData(UpdateNodeData(nodes, id, u1), id, u1) == UpdateNodeData(nodes, id, u1)
  {
    var once := UpdateNodeData(nodes, id, u1);
    forall i | 0 <= i < |nodes| && nodes[i].id == id
      ensures MergeData(once[i].data, u2) == MergeData(nodes[i].data, MergeData(u1, u2))
      ensures MergeData(once[i].data, u1) == once[i].data
    {
      MergeCompose(nodes[i].data, u1, u2);
      MergeIdempotent(nodes[i].data, u1);
    }
  }

  // ---------------------------------------------------------------------
  // The status cycle (index.tsx:100-108, 182-186)
  // ---------------------------------------------------------------------

  /** `data.status` when it holds a string; absent otherwise. */
  function Status(data: NodeData): (r: Option<string>)
    ensures r.Some? <==> "status" in data && data["status"].Text?
    ensures r.Some? ==> data["status"] == Text(r.value)
  {
    if "status" in data && data["status"].Text? then Some(data["status"].text) else None
  }

  /** The status `handleMark` sets: "todo" moves to "in-progress",
      "in-progress" to "done", and anything else, "done", an unknown or
      differently cased value and a missing status alike, back to "todo". The
      comparison is exact. */
  function NextStatus(status: Option<string>): (r: string)
    ensures r == "in-progress" <==> status == Some("todo")
    ensures r == "done" <==> status == Some("in-progress")
    ensures r == "todo" <==> status != Some("todo") && status != Some("in-progress")
  {
    if status == Some("todo") then "in-progress"
    else if status == Some("in-progress") then "done"
    else "todo"
  }

  /** Starting from any of the three statuses, three marks come back to it,
      and no fewer do: the button cycles todo, in-progress, done. */
  lemma MarkCycles(s: string)
    requires s in ["todo", "in-progress", "done"]
    ensures NextStatus(Some(NextStatus(Some(NextStatus(Some(s)))))) == s
    ensures NextStatus(Some(s)) != s
    ensures NextStatus(Some(NextStatus(Some(s)))) != s
  {
  }

  /** `handleMark`: the node's update with its next status. `data` is the
      data the node was rendered with. */
  function HandleMark(nodes: seq<WorkflowNode>, id: string, data: NodeData): (r: seq<WorkflowNode>)
    ensures |r| == |nodes| && NodeIds(r) == NodeIds(nodes)
    ensures forall i :: 0 <= i < |nodes| && nodes[i].id == id ==>
      && Status(r[i].data) == Some(NextStatus(Status(data)))
      && r[i].data.Keys == nodes[i].data.Keys + {"status"}
      && forall k :: k in nodes[i].data && k != "status" ==> r[i].data[k] == nodes[i].data[k]
    ensures forall i :: 0 <= i < |nodes| && nodes[i].id != id ==> r[i] == nodes[i]
  {
    UpdateNodeData(nodes, id, map["status" := Text(NextStatus(Status(data)))])
  }

  /** A node shown with its current data cycles through the three statuses
      under repeated marks, everything else in it staying put. */
  lemma MarkThrice(nodes: seq<WorkflowNode>, i: nat)
    requires i < |nodes| && Status(nodes[i].data) == Some("todo")
    ensures var id := nodes[i].id;
      var m1 := HandleMark(nodes, id, nodes[i].data);
      var m2 := HandleMark(m1, id, m1[i].data);
      var m3 := HandleMark(m2, id, m2[i].data);
      && Status(m1[i].data) == Some("in-progress")
      && Status(m2[i].data) == Some("done")
      && m3[i] == nodes[i]
  {
  }

  /** The button's caption (index.tsx:182-186), by the same exact
      comparisons as `handleMark`: it names the status a click sets. */
  function MarkButtonLabel(status: Option<string>): (r: string)
    ensures r == "Mark as In-Progress" <==> NextStatus(status) == "in-progress"
    ensures r == "Mark as Complete" <==> NextStatus(status) == "done"
    ensures r == "Redact Completion" <==> NextStatus(status) == "todo"
  {
    if status == Some("todo") then "Mark as In-Progress"
    else if status == Some("in-progress") then "Mark as Complete"
    else "Redact Completion"
  }

  // ---------------------------------------------------------------------
  // Class names (index.tsx:62-98)
  // ---------------------------------------------------------------------

  const Red := "bg-red-100 text-red-800"
  const Yellow := "bg-yellow-100 text-yellow-800"
  const Green := "bg-green-100 text-green-800"
  const Blue := "bg-blue-100 text-blue-800"
  const Gray := "bg-gray-100 text-gray-800"

  /** `value?.toLowerCase()` equals `key`. */
  predicate Is(value: Option<string>, key: string)
  {
    value.Some? && ToLower(value.value) == key
  }

  /** `getPriorityColor`: case-insensitive; a missing or unknown priority is gray. */
  function PriorityColor(priority: Option<string>): (r: string)
    ensures r == Red <==> Is(priority, "high")
    ensures r == Yellow <==> Is(priority, "medium")
    ensures r == Green <==> Is(priority, "low")
    ensures r == Gray <==> !Is(priority, "high") && !Is(priority, "medium") && !Is(priority, "low")
  {
    if Is(priority, "high") then Red
    else if Is(priority, "medium") then Yellow
    else if Is(priority, "low") then Green
    else Gray
  }

  /** `getStatusColor`: case-insensitive; a missing or unknown status is gray. */
  function StatusColor(status: Option<string>): (r: string)
    ensures r == Green <==> Is(status, "done")
    ensures r == Yellow <==> Is(status, "in-progress")
    ensures r == Blue <==> Is(status, "todo")
    ensures r == Gray <==> !Is(status, "done") && !Is(status, "in-progress") && !Is(status, "todo")
    ensures r != Red
  {
    if Is(status, "done") then Green
    else if Is(status, "in-progress") then Yellow
    else if Is(status, "todo") then Blue
    else Gray
  }

  /** `getMarkColor`: case-insensitive; a missing or unknown status is gray. */
  function MarkColor(status: Option<string>): (r: string)
    ensures r == Red <==> Is(status, "done")
    ensures r == Green <==> Is(status, "in-progress")
    ensures r == Yellow <==> Is(status, "todo")
    ensures r == Gray <==> !Is(status, "done") && !Is(status, "in-progress") && !Is(status, "todo")
    ensures r != Blue
  {
    if Is(status, "done") then Red
    else if Is(status, "in-progress") then Green
    else if Is(status, "todo") then Yellow
    else Gray
  }

  /** For "todo" and "in-progress" the button wears the badge colour of the
      status it moves to; for "done" it is red while the badge it leads to is
      blue. */
  lemma ButtonPreviewsNextBadge(s: string)
    requires s in ["todo", "in-progress", "done"]
    ensures s != "done" <==> MarkColor(Some(s)) == StatusColor(Some(NextStatus(Some(s))))
  {
    assert ToLower("todo") == "todo";
    assert ToLower("in-progress") == "in-progress";
    assert ToLower("done") == "done";
    if s == "todo" {
      assert MarkColor(Some(s)) == Yellow && StatusColor(Some("in-progress")) == Yellow;
    } else if s == "in-progress" {
      assert MarkColor(Some(s)) == Green && StatusColor(Some("done")) == Green;
    } else {
      assert MarkColor(Some(s)) == Red && StatusColor(Some("todo")) == Blue;
    }
  }

  /** The colours ignore case while the cycle does not: a status written
      "TODO" gets the "todo" badge and button colours, yet the button reads
      "Redact Completion" and a click resets it to "todo". */
  lemma CaseOnlyMattersToTheCycle()
    ensures StatusColor(Some("TODO")) == StatusColor(Some("todo")) == Blue
    ensures MarkColor(Some("TODO")) == Yellow
    ensures NextStatus(Some("TODO")) == "todo"
    ensures MarkButtonLabel(Some("TODO")) == "Redact Completion"
  {
  }
}
