# Workflow builder core, modelled in Dafny

This project models the logic at the core of a React workflow editor. The editor holds a
tree of workflow steps (start, tasks, departments, end) and shows it as a flat graph of
nodes and edges. The model covers six parts:

- **Hierarchy layout** (`workflow_layout.dfy`, lib/workflow-layout.ts):
  - inserting a node under a parent (`addNodeToHierarchy`);
  - projecting a tree to nodes and edges the way `generateWorkflowLayout` does, in d3's
    breadth-first `descendants()`/`links()` order;
  - the fixed sample chain start → task-1 → task-2 → end that `generateWorkflowLayout`
    always lays out.
- **Workflow store** (`workflow_store.dfy`, stores/workflow-store.ts): a class with the
  store's five fields and its six commands. Each command is proved against a pure function
  that gives the new state from the old one. The imported layout and insertion functions
  are parameters of the store.
- **Builder component** (`workflow_builder.dfy`, components/workflow-builder.tsx):
  - the seed workflow;
  - the child records that both add paths build (ghost "+" and the type menu);
  - the add-node menu's state machine: connect start, connect end, type selection,
    closing, Escape.
- **Department node** (`department_node.dfy`, nodes/department-node/index.tsx):
  - the todo → in-progress → done status cycle and the button caption;
  - merging a partial update into one node's data;
  - the badge and button class names.
- **Tag editor** (`tags_input.dfy`, components/misc/tags-input.tsx): committing a trimmed,
  new tag on Enter or ",", popping the last tag on Backspace, and removing a tag.
- **Node type menu** (`node_type_menu.dfy`, components/NodeTypeMenu.tsx): the table of
  offered types, and the clamping that keeps the menu inside the viewport.

Supporting modules:

- `wrappers.dfy`: `Option`.
- `workflow_types.dfy`: types/workflow.ts.
- `strings.dfy`: the JavaScript `toUpperCase`/`toLowerCase` (ASCII) and `trim` semantics
  the core relies on.

Modelling conventions:

- An optional field (`children?`, `depth?`, `parentId?`) becomes an `Option`. JavaScript
  truthiness is written out where the code depends on it (`nodeId || undefined`,
  `!menuState.sourceNode`, `parent.depth || 0`). A `data` key explicitly set to `undefined`
  is a value of its own (`Undefined`), since a spread copies it over an earlier value.
- Ids from `crypto.randomUUID`, positions from `screenToFlowPosition`, cursor
  coordinates, the menu's bounding box and the viewport size are parameters.
- `Number.isFinite` is modelled by a `Coordinate` that is either a finite real or
  non-finite.

## Model

| member | source | states |
|---|---|---|
| WorkflowLayout.AddNode | lib/workflow-layout.ts:69-87 | keeps the root's id and type; at a root whose id is `parentId`, the children become the old children (an absent list read as empty) followed by `newNode`; when no node has id `parentId` the tree is unchanged; the tree grows by one copy of `newNode` per matching node the search reaches |
| WorkflowLayout.AddNodeAll | lib/workflow-layout.ts:80-84 | the `children.map` step keeps the number, order and ids of the children; it is a no-op when `parentId` occurs in none of them; it adds one copy of `newNode` per match reached |
| WorkflowLayout.MatchesIffPresent | lib/workflow-layout.ts:74-86 | some node gains a child exactly when some node has id `parentId` |
| WorkflowLayout.MatchesAtMostOccurrences | lib/workflow-layout.ts:74-86 | the search stops at a match, so no more nodes gain a child than there are nodes with id `parentId` |
| WorkflowLayout.AddNodeUniqueParent | lib/workflow-layout.ts:74-86 | with unique ids and `parentId` present, the tree grows by exactly the size of `newNode`, and by exactly one node when `newNode` is childless |
| WorkflowLayout.AddNodeKeepsOtherNodes | lib/workflow-layout.ts:80-86 | for any id other than `parentId` and not in `newNode`, the first node with that id keeps its type and its children, id for id, and an absent `children` list stays absent; with unique ids this covers every node other than the parent |
| WorkflowLayout.AddNodeExtendsParent | lib/workflow-layout.ts:74-77 | the first node with id `parentId` keeps its type, and its children become its old children in order, followed by `newNode` |
| WorkflowLayout.BfsNodes | lib/workflow-layout.ts:46-49 | the breadth-first traversal (d3 `descendants()`) lists exactly the nodes of the tree |
| WorkflowLayout.BfsLength | lib/workflow-layout.ts:46-49 | the traversal has one entry per tree node |
| WorkflowLayout.BfsLinksArePairs | lib/workflow-layout.ts:59 | the links (d3 `links()`) are exactly the parent-to-direct-child pairs of the tree |
| WorkflowLayout.BfsLinksLength | lib/workflow-layout.ts:59 | there is one link per node that is not the root |
| WorkflowLayout.Capitalize | lib/workflow-layout.ts:54 | the first character is upper-cased, the rest and the length are unchanged |
| WorkflowLayout.CapitalizeIdempotent | lib/workflow-layout.ts:54 | capitalising twice equals capitalising once |
| WorkflowLayout.LayoutNode | lib/workflow-layout.ts:49-56 | a flat node keeps the tree node's id and type, sits at the given position, and is labelled with its capitalised type |
| WorkflowLayout.Project | lib/workflow-layout.ts:46-66 | one node per tree node (`LayoutNode`, the `i`-th in breadth-first order at position `coords(i)`), labelled with its capitalised type; one edge per link (`LayoutEdge`), one fewer than nodes; every edge id is source id, "-", target id |
| WorkflowLayout.ProjectNodes | lib/workflow-layout.ts:49-56 | the projected nodes are the tree's nodes in breadth-first order, and every tree node is projected |
| WorkflowLayout.ProjectEdges | lib/workflow-layout.ts:59-64 | every edge runs from a tree node to one of its direct children, and every parent-child pair yields an edge |
| WorkflowLayout.InitialHierarchyTraversal | lib/workflow-layout.ts:15-36 | the sample chain's traversal is start, task-1, task-2, end, and its links are the three consecutive pairs |
| WorkflowLayout.GenerateWorkflowLayout | lib/workflow-layout.ts:38-67 | whatever the store holds, the result is 4 nodes with ids start, task-1, task-2, end, types start, task, task, end, labels Start, Task, Task, End, each at the layout's position for its breadth-first index, and exactly the 3 "smoothstep" edges start-task-1, task-1-task-2, task-2-end |
| WorkflowStore.Store.constructor | stores/workflow-store.ts:40-44 | the store starts with no workflow, no nodes, no edges, the horizontal layout and ghost nodes hidden |
| WorkflowStore.Store.Initialized | stores/workflow-store.ts:46-53 | `initialize(w)` installs `w` and sets nodes and edges to the layout of `w` under the current direction; the direction and the ghost flag are unchanged |
| WorkflowStore.Store.Initialize | stores/workflow-store.ts:46-53 | the command's new state is `Initialized` of the old one |
| WorkflowStore.Store.LayoutSet | stores/workflow-store.ts:55-57 | `setLayout` changes the direction and no other field; nodes and edges are not recomputed |
| WorkflowStore.Store.SetLayout | stores/workflow-store.ts:55-57 | the command's new state is `LayoutSet` of the old one |
| WorkflowStore.Store.EdgesSet | stores/workflow-store.ts:59-61 | `setEdges` replaces the edges and no other field |
| WorkflowStore.Store.SetEdges | stores/workflow-store.ts:59-61 | the command's new state is `EdgesSet` of the old one |
| WorkflowStore.Store.WorkflowNodeAdded | stores/workflow-store.ts:75-87 | without a workflow nothing changes; otherwise the workflow becomes the insertion's result and nodes and edges become its layout; the direction and flag are unchanged |
| WorkflowStore.Store.AddWorkflowNode | stores/workflow-store.ts:75-87 | the command's new state is `WorkflowNodeAdded` of the old one |
| WorkflowStore.Store.GhostNodesToggled | stores/workflow-store.ts:89-92 | `toggleGhostNodes` flips the flag and nothing else |
| WorkflowStore.Store.ToggleGhostNodes | stores/workflow-store.ts:89-92 | the command's new state is `GhostNodesToggled` of the old one |
| WorkflowStore.ToggleTwiceRestores | stores/workflow-store.ts:89-92 | two toggles restore the whole state |
| WorkflowStore.Store.Relaid | stores/workflow-store.ts:94-107 | without a workflow nothing changes; otherwise only nodes and edges change, to the layout with node dimensions and the current ghost flag |
| WorkflowStore.Store.UpdateLayout | stores/workflow-store.ts:94-107 | the command's new state is `Relaid` of the old one |
| WorkflowStore.SetLayoutThenUpdate | stores/workflow-store.ts:55-57 | after `setLayout` the projection is stale; it follows the new direction only after `updateLayout` |
| WorkflowBuilder.SeedIsConsistent | components/workflow-builder.tsx:47-100 | in the seed, each node with a parent is one level deeper than that parent (the start node counts as 0), and each seed edge runs from its target's parent to the target |
| WorkflowBuilder.FindNode | components/workflow-builder.tsx:127 | `nodes.find` by id: absent exactly when no node has the id; otherwise the first node with that id |
| WorkflowBuilder.ChildDepth | components/workflow-builder.tsx:137 | a child is one deeper than its parent, and depth 1 under a parent without a depth |
| WorkflowBuilder.ChildNode | components/workflow-builder.tsx:131-140 | a new child carries the requested id, type and position, the parent's id, the child depth, and data holding only its label |
| WorkflowBuilder.GhostChild | components/workflow-builder.tsx:131-140 | the ghost-added node is a "task" at (0,0) labelled "New Task", under the requested parent, one level deeper |
| WorkflowBuilder.Sanitize | components/workflow-builder.tsx:222-225 | a finite coordinate passes through and a non-finite one becomes 0 |
| WorkflowBuilder.MenuChild | components/workflow-builder.tsx:222-241 | the menu-added node has the chosen type, label "New " + type, each coordinate sanitised on its own, the source as parent, one level deeper |
| WorkflowBuilder.Truthy | components/workflow-builder.tsx:177-178 | `value \|\| undefined`: present exactly when the value is a non-empty string |
| WorkflowBuilder.Builder.constructor | components/workflow-builder.tsx:115-118 | the menu starts hidden at (0,0) with no source |
| WorkflowBuilder.Builder.HandleAddNode | components/workflow-builder.tsx:124-145 | nothing changes when no current node has the parent id; otherwise the store adds the ghost child |
| WorkflowBuilder.Builder.OnConnectStart | components/workflow-builder.tsx:172-183 | records the source node and handle (empty strings dropped) and hides the menu; the position is kept |
| WorkflowBuilder.ClientPoint | components/workflow-builder.tsx:195-198 | the point read from the event: a mouse's client point, or the first finger still down; absent (the read throws) exactly for a touch end with no finger down |
| WorkflowBuilder.EndPoint | components/workflow-builder.tsx:195-198 | the point where the gesture ended: a mouse's client point, or the lifted finger; absent only for a touch event that changed no finger |
| WorkflowBuilder.TouchEndLosesLiftedFinger | components/workflow-builder.tsx:195-198 | a one-finger touch end yields no point as written but the lifted finger as intended; with another finger down the two differ; on mouse events they agree |
| WorkflowBuilder.Builder.OnConnectEnd | components/workflow-builder.tsx:185-210 | shows the menu at the event's point exactly when a source is recorded, the connection is invalid and the point can be read; otherwise nothing changes |
| WorkflowBuilder.Builder.OnSelectNodeType | components/workflow-builder.tsx:212-247 | nothing changes without a recorded source or when the source is not a current node (the menu stays as it was); otherwise the store adds the menu child and the menu is hidden |
| WorkflowBuilder.Builder.HandleCloseMenu | components/workflow-builder.tsx:249-251 | hides the menu and keeps the rest of its state |
| WorkflowBuilder.Builder.HandleKeyDown | components/workflow-builder.tsx:253-262 | Escape hides a shown menu; any other key changes nothing; after Escape the menu is hidden |
| DepartmentNode.MergeData | nodes/department-node/index.tsx:49-52 | the merged data has the keys of both; update values win, an explicit `undefined` included, and untouched keys keep their values |
| DepartmentNode.MergeIdempotent | nodes/department-node/index.tsx:49-52 | applying the same update twice equals applying it once |
| DepartmentNode.MergeCompose | nodes/department-node/index.tsx:49-52 | two updates in a row equal one merged update, the later values winning |
| DepartmentNode.UpdateNodeData | nodes/department-node/index.tsx:42-60 | list length, order and ids are kept; the nodes with the id get the update merged into their data, all other fields untouched; every other node is identical |
| DepartmentNode.UpdateAbsentId | nodes/department-node/index.tsx:44-57 | an update for an id no node has leaves the list unchanged |
| DepartmentNode.UpdateTwice | nodes/department-node/index.tsx:42-60 | re-sending an update is harmless, and two updates of a node equal one carrying both |
| DepartmentNode.Status | nodes/department-node/index.tsx:101 | `data.status`, present exactly when the data holds a string status |
| DepartmentNode.NextStatus | nodes/department-node/index.tsx:100-108 | the next status is "in-progress" exactly from "todo", "done" exactly from "in-progress", and "todo" from anything else (case-sensitive, absent included) |
| DepartmentNode.MarkCycles | nodes/department-node/index.tsx:100-108 | from any of the three statuses, three marks return to it and one or two do not |
| DepartmentNode.HandleMark | nodes/department-node/index.tsx:100-108 | the marked node's status becomes the next status and its other data is kept; other nodes, ids and order are unchanged |
| DepartmentNode.MarkThrice | nodes/department-node/index.tsx:100-108 | a "todo" node marked three times passes through in-progress and done and comes back identical |
| DepartmentNode.MarkButtonLabel | nodes/department-node/index.tsx:182-186 | the caption is "Mark as In-Progress", "Mark as Complete" or "Redact Completion" exactly when a click sets in-progress, done or todo |
| DepartmentNode.PriorityColor | nodes/department-node/index.tsx:62-73 | red, yellow or green exactly for high, medium or low (any case); gray exactly otherwise, absent included |
| DepartmentNode.StatusColor | nodes/department-node/index.tsx:75-86 | green, yellow or blue exactly for done, in-progress or todo (any case); gray exactly otherwise; never red |
| DepartmentNode.MarkColor | nodes/department-node/index.tsx:87-98 | red, green or yellow exactly for done, in-progress or todo (any case); gray exactly otherwise; never blue |
| DepartmentNode.ButtonPreviewsNextBadge | nodes/department-node/index.tsx:75-108 | for todo and in-progress the button has the badge colour of the status it sets; for done it does not |
| DepartmentNode.CaseOnlyMattersToTheCycle | nodes/department-node/index.tsx:62-108 | "TODO" gets the todo colours, yet its caption is "Redact Completion" and a click sets "todo" |
| Strings.ToLower | nodes/department-node/index.tsx:63 | `toLowerCase` keeps the length and lowers each character |
| Strings.Trim | components/misc/tags-input.tsx:35 | `trim` gives a slice of the input with no whitespace at either end and only whitespace around it; it is empty exactly when the input is blank |
| Strings.TrimOfTrimmed | components/misc/tags-input.tsx:35 | trimming a trimmed string changes nothing |
| TagsInput.KeyDown | components/misc/tags-input.tsx:31-56 | disabled, or any other key, changes nothing. Enter or "," with non-blank input clears the input, emitting tags + [trimmed] exactly when the trimmed text is not yet a tag. Backspace on an empty input with tags emits all but the last tag |
| TagsInput.KeyDownKeepsNoDuplicates | components/misc/tags-input.tsx:40-52 | from duplicate-free tags, trimmed or not, every emitted list is duplicate-free |
| TagsInput.KeyDownKeepsTrimmed | components/misc/tags-input.tsx:35-52 | from non-empty tags without surrounding whitespace, every emitted list holds only such tags |
| TagsInput.BackspaceUndoesCommit | components/misc/tags-input.tsx:35-52 | committing a tag, then Backspace on the cleared input, emits the original list |
| TagsInput.Without | components/misc/tags-input.tsx:61 | `filter` removes every occurrence of the tag and keeps exactly the other tags; it changes nothing when the tag is absent |
| TagsInput.WithoutAppend | components/misc/tags-input.tsx:61 | filtering distributes over concatenation, so the kept tags stay in order |
| TagsInput.RemoveTag | components/misc/tags-input.tsx:58-65 | emits nothing exactly when disabled; otherwise the filtered list |
| TagsInput.RemoveUndoesCommit | components/misc/tags-input.tsx:35-65 | removing a just-committed tag restores the list it was added to |
| TagsInput.Editor.constructor | components/misc/tags-input.tsx:22 | the input starts empty |
| TagsInput.Editor.HandleInputChange | components/misc/tags-input.tsx:24-29 | the input becomes the typed value |
| TagsInput.Editor.HandleKeyDown | components/misc/tags-input.tsx:31-56 | the new input and the emitted list are those of `KeyDown` on the old input |
| NodeTypeMenu.NodeItemsTable | components/NodeTypeMenu.tsx:12-49 | six types, ids task, condition, loop, api, transform, end, pairwise distinct |
| NodeTypeMenu.Clamp | components/NodeTypeMenu.tsx:142-155 | the clamping of x against the width and of y against the height: the result is never negative. A menu that fits from a non-negative start keeps it. A negative start that fits becomes 10. An overflow moves the menu to end 10 before the edge, or to 10 when that is negative. A menu with room for the margin ends inside the viewport. Without that room it is at 10 unless it already fit |
| NodeTypeMenu.NarrowMarginKeepsStart | components/NodeTypeMenu.tsx:142-147 | a fitting start closer than 10 to the edge is kept even when the menu is wider than the viewport less the margin |
| NodeTypeMenu.Adjust | components/NodeTypeMenu.tsx:138-155 | x is clamped against the width alone and y against the height alone, and both are non-negative |
| NodeTypeMenu.MenuPosition.constructor | components/NodeTypeMenu.tsx:128 | the adjusted position starts as the requested one |
| NodeTypeMenu.MenuPosition.UpdatePosition | components/NodeTypeMenu.tsx:130-158 | nothing changes while the menu is not mounted; otherwise the position is clamped per axis |

## Left out

- d3's tree coordinates (lib/workflow-layout.ts:42-46, 52): the `nodeSize` layout is a foreign library, so node positions are a parameter `coords` of the projection, giving the position of the `i`-th node in breadth-first order; their values are not modelled.
- WorkflowLayout.AddNode: `addNodeToHierarchy` mutates the tree in place and returns the same root object. The model is a function on tree values, so aliasing (other references to the same nodes seeing the change) is not modelled.
- WorkflowStore.Store: the store imports `generateWorkflowLayout` with an options argument and `addNodeToWorkflow`, `DEFAULT_SPACING` and `DEFAULT_NODE_DIMENSIONS`, which lib/workflow-layout.ts does not define in that form. Both functions are opaque parameters; the spacing is implicit, and the dimensions appear only as a flag in the options.
- `onNodesChange`/`onEdgesChange` (stores/workflow-store.ts:63-73) apply xyflow change lists (`applyNodeChanges`/`applyEdgeChanges`), and `onConnect` uses xyflow's `addEdge`. These are library calls and are not modelled; neither is the `devtools` middleware or the `console.log` in `toggleGhostNodes`.
- WorkflowStore.Store.SetEdges: only the array form is modelled. The builder passes an updater function (components/workflow-builder.tsx:155), which the store would store as the edge list.
- The builder calls `initialize(initialWorkflow, initialEdges)` with a node array and an edge list, while the store's `initialize` takes one tree. The seed is modelled as data with its consistency lemma; that call is not modelled.
- DepartmentNode.UpdateNodeData: `handleUpdate` calls `state.setNodes`, which the store does not define. The model gives the node list the updater would compute; writing it back into a store is not modelled.
- Strings.ToLower: only ASCII letters change case; full Unicode case mapping is not modelled.
- WorkflowLayout.Capitalize: upper-cases only ASCII letters, so its length-preserving contract does not cover JavaScript `toUpperCase` on characters whose upper case is longer ("ß" becomes "SS") or non-ASCII letters.
- `sourcePosition`/`targetPosition` handle sides and `preventDefault` carry no logic the core depends on, and are dropped. Of the DOM events only what the handlers read is kept: the key, the validity flag, and the mouse point or the touch lists of `onConnectEnd`.
- `crypto.randomUUID`, `screenToFlowPosition`, `getBoundingClientRect`, `window.innerWidth`/`innerHeight` and cursor coordinates are parameters. The window listeners (`addNode`, `keydown`, `resize`) are modelled as direct method calls.
- React's stale-closure behaviour (a handler reading the `nodes` or `menuState` of an earlier render) is not modelled: every handler sees the current state.
- The department node's `isConfigOpen` flag, its configuration sheet, and rendering in general are left out.
- TagsInput.KeyDown: the browser's own editing of the text field is not modelled. `onChange` being absent is not modelled either; the emitted list is what would be passed to it.
- WorkflowBuilder.Coordinate: IEEE numbers are not modelled. A coordinate is a finite real or non-finite, and the menu arithmetic is on reals.
- Subtree removal, vertical and radial layouts, ghost-node synthesis and snapshot persistence have no implementation in the modelled files. hooks/useWorkflowLayout.ts, components/workflow-toolbar.tsx and the rendering-only node and edge components are not part of this model.

## Findings

| source | as written | input that shows it | evidently intended | confidence | as-written member | corrected member |
|---|---|---|---|---|---|---|
| components/workflow-builder.tsx:195-198 | on a touch event the point is read from `event.touches[0]`, which on `touchend` no longer holds the lifted finger | a one-finger drag to empty space: `touches` is empty, the read throws and the menu never opens; with a second finger down the menu opens under that finger | read the lifted finger from `changedTouches[0]` | medium, not executed | WorkflowBuilder.ClientPoint (with WorkflowBuilder.TouchEndLosesLiftedFinger) | WorkflowBuilder.EndPoint |

`WorkflowBuilder.Builder.OnConnectEnd` models the handler as written, through `ClientPoint`.
