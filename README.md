# weavy-clone workflow engine — a Dafny model

This project models the core of weavy-clone, a node-based editor where a user wires text,
image, video, crop, frame-extraction and LLM nodes into a graph. A background orchestrator
then executes the graph.

**Execution.** The orchestrator:

- plans the graph into execution layers with a layered variant of Kahn's algorithm;
- executes the layers in order. In each layer:
  - passive nodes (text, image, video) write their content into the run's context;
  - every other node gets an execution record;
  - LLM, crop and extract nodes trigger a task, whose job is built from the context;
  - each task is polled and its output is written back;
  - every task is polled a second time. The run's properties are proved with the corrected second loop (see Findings). The loop as written is modelled alongside it and compared layer by layer;
- flags the run on any failure. A flagged run stops after the current layer and ends FAILED; otherwise it ends COMPLETED.

**Editing.** The editor side covers:

- the connection check, which enforces port compatibility and rejects any connection that would close a cycle;
- the workflow store and its undo history;
- the single-LLM-node run, which gathers the node's inputs from its neighbours and truncates the prompts to a token budget;
- the LLM node's removable image ports and its height.

**Modules.** One Dafny module per concern:

| file | module | what it holds |
|---|---|---|
| `graph.dfy` | `Graph` | Nodes, edges, the links the planner keeps, paths, reachability, acyclicity, `find`/`filter`. |
| `js.dfy` | `Js` | The JavaScript values and operators the code relies on: truthiness, `||`, optional chaining, `String(v)`, `parseInt`. |
| `layer_spec.dfy` | `LayerSpec` | The layer plan as a specification: sources, the layer after a layer, and the plan's prefixes. |
| `layer_planner.dfy` | `LayerPlanner` | `getExecutionLayers` as the loops it is, proved against `LayerSpec`. |
| `layer_props.dfy` | `LayerProps` | What a plan guarantees: layers are frontiers, each id appears at most once, every edge goes forward, nodes on or after a cycle are dropped, an acyclic graph is planned completely, and the plan is unique. |
| `topo_tests.dfy` | `TopoTests` | The three graphs of the topological test script and the layers the planner gives them. |
| `dispatch.dfy` | `Dispatch` | The orchestrator's context, passive writes, LLM input aggregation, crop/extract input selection and the task payloads. |
| `demo.dfy` | `Demo` | The workflow-id classifiers and the demo workflow graph. |
| `orchestrator.dfy` | `Orchestrator` | The run: loading, the layer loop, the trigger and poll phases, and the final status. |
| `validator.dfy` | `Validator` | The editor's connection check and its depth-first cycle search. |
| `store.dfy` | `Store` | The workflow store (a class over sequences) and its undo/redo history. |
| `llm_node.dfy` | `LlmNode` | The LLM node's own run, its prompt truncation, image-port removal and height. |

## Model

| member | source | states |
|---|---|---|
| Graph.Find | src/components/workflow/FlowEditor.tsx:107-110 | `nodes.find` returns a node exactly when the id is listed, and the node it returns carries that id. |
| Graph.FindFirst | src/trigger/orchestrator.ts:67 | The node `find` returns is the first match: no earlier node carries the id. |
| Graph.Filter | src/store/workflowStore.ts:170-173 | `Array.filter` keeps exactly the elements that pass the test and never lengthens the list. |
| Graph.LinksOf | src/trigger/orchestrator.ts:47-52 | The links the planner counts are exactly the edges whose two ends are both known nodes, in edge order. |
| Graph.RankedAcyclic | src/trigger/orchestrator.ts:62-82 | A graph whose links all climb a rank has no cycle. |
| LayerPlanner.InitMaps | src/trigger/orchestrator.ts:40-44 | The in-degree and adjacency maps start with every distinct node id, each at in-degree 0 with no neighbours. |
| LayerPlanner.BuildMaps | src/trigger/orchestrator.ts:47-52 | After the edge loop, each in-degree counts a node's links from known nodes, and each adjacency list holds the targets in edge order. |
| LayerPlanner.CountEdge | src/trigger/orchestrator.ts:48-51 | An edge is counted only when both ends are known; otherwise the maps are unchanged. |
| LayerPlanner.StartLayer | src/trigger/orchestrator.ts:57-60 | The first queue is the ids of in-degree 0, in node order. |
| LayerPlanner.WalkNeighbours | src/trigger/orchestrator.ts:74-80 | Walking one node's neighbours lowers each neighbour's in-degree by one. A neighbour joins the queue exactly when its count reaches zero. |
| LayerPlanner.WalkLayer | src/trigger/orchestrator.ts:73-81 | After a layer is walked, the queue is exactly the next layer of the specification: the ids whose last pending predecessor was in this layer. |
| LayerPlanner.EmitLayers | src/trigger/orchestrator.ts:62-82 | The while loop emits the complete plan: it stops once a layer frees no node. Every emitted node is the first node listed under its id. |
| LayerPlanner.ExecutionLayers | src/trigger/orchestrator.ts:36-85 | The result is the specified layer plan of the graph's known links, and each layer holds the nodes `find` returns for its ids. |
| LayerPlanner.LayerIds | src/trigger/orchestrator.ts:66-70 | A layer's ids are the ids of its nodes, position by position. |
| LayerProps.ArenaOf | src/trigger/orchestrator.ts:40-52 | The planner's ids have no repeats, and every kept link joins two of them. |
| LayerProps.PlanLayered | src/trigger/orchestrator.ts:62-82 | Every layer is non-empty, and is a frontier: every node in it has all its predecessors in earlier layers, and a predecessor in the layer just before it, unless it is in the first layer. |
| LayerProps.AtMostOnce | src/trigger/orchestrator.ts:73-80 | No id is emitted in two layers. |
| LayerProps.LayerNoDup | src/trigger/orchestrator.ts:63-70 | No layer lists an id twice. |
| LayerProps.EdgesForward | src/trigger/orchestrator.ts:73-80 | For every link between two planned nodes, the source's layer comes strictly before the target's. |
| LayerProps.CycleDropped | src/trigger/orchestrator.ts:62-82 | A node on a cycle is never planned. |
| LayerProps.DescendantDropped | src/trigger/orchestrator.ts:62-82 | A node reachable from a cycle is never planned. |
| LayerProps.SourceEmitted | src/trigger/orchestrator.ts:57-60 | Every known node without a predecessor is in the first layer. |
| LayerProps.CoveredEmitted | src/trigger/orchestrator.ts:73-81 | A known node whose predecessors are all planned is planned as well. |
| LayerProps.DagComplete | src/trigger/orchestrator.ts:36-85 | On an acyclic graph, the plan covers every known node id. |
| LayerProps.DagPermutation | src/trigger/orchestrator.ts:36-85 | On an acyclic graph, the layers, flattened, are a permutation of the distinct node ids. |
| LayerProps.LayerBound | src/trigger/orchestrator.ts:62-82 | There are never more layers than distinct node ids, so the loop ends. |
| LayerProps.PlannedUnique | src/trigger/orchestrator.ts:36-85 | The plan is determined by the node order and the links: two complete plans of the same graph are equal. |
| TopoTests.LinearLayers | test-topological.ts:59-63 | A → B → C is planned as `[["A"],["B"],["C"]]`. |
| TopoTests.DiamondLayers | test-topological.ts:65-72 | The diamond A → B, A → C, B → D, C → D is planned as `[["A"],["B","C"],["D"]]`. |
| TopoTests.ForkLayers | test-topological.ts:74-79 | Two independent starts into C are planned as `[["A","B"],["C"]]`. |
| Js.Or | src/trigger/orchestrator.ts:249-252 | `a \|\| b` is `a` when `a` is truthy and `b` otherwise. |
| Js.Prop | src/trigger/orchestrator.ts:317-319 | Reading a field throws exactly on `undefined` or `null`, and otherwise yields the field or `undefined`. |
| Js.Text | src/trigger/orchestrator.ts:216-218 | Template interpolation writes a string as itself and an object as `[object Object]`. |
| Js.ParseIntText | src/lib/demoWorkflows.ts:16 | `parseInt` reads back the decimal text of every integer. |
| Demo.IsDemoWorkflowId | src/lib/demoWorkflows.ts:8-11 | An id is a demo slug exactly when it is present and starts with `demo-`. The empty-id test and the list lookup add nothing, since every listed id starts with the prefix. |
| Demo.IsNumericWorkflowId | src/lib/demoWorkflows.ts:14-18 | A string is a database id exactly when `parseInt` gives a positive number; the empty-string test adds nothing. Only strings and numbers can be ids. |
| Js.ParseInt | src/lib/demoWorkflows.ts:16 | `parseInt` gives a number exactly when, after leading white space, a digit follows, possibly after a sign. A negative result comes only from a leading `-`. |
| Demo.LetterNotNumber | src/lib/demoWorkflows.ts:16 | `parseInt` of a string that starts with a letter is `NaN`. |
| Demo.ClassifierEdgeCases | src/lib/demoWorkflows.ts:8-18 | Absent and empty ids are neither a demo slug nor a database id. `demo-…` ids and the demo's own id are demo slugs; `demo` and `42` are not. `0`, `NaN` and absent numbers are not database ids; `3` is. |
| Demo.ZeroNotId | src/lib/demoWorkflows.ts:14-18 | `"0"` parses to 0 and is not a database id. |
| Demo.NegativeNotId | src/lib/demoWorkflows.ts:14-18 | `"-5"` parses to a negative number and is not a database id. |
| Demo.TrailingLettersId | src/lib/demoWorkflows.ts:14-18 | `"12abc"` parses to 12 and counts as a database id. |
| Demo.LeadingSpaceId | src/lib/demoWorkflows.ts:14-18 | `" 7"` parses to 7 and counts as a database id. |
| Demo.PositiveIntegersAreIds | src/lib/demoWorkflows.ts:14-18 | The decimal text of every positive integer is a database id. |
| Demo.DemoNotNumeric | src/lib/demoWorkflows.ts:8-18 | No id is both a demo slug and a database id. |
| Demo.FindDemo | src/lib/demoWorkflows.ts:20-22 | The demo lookup succeeds exactly for the demo's id and returns that demo. |
| Demo.DemoIdsDistinct | src/lib/demoWorkflows.ts:30-170 | The demo graph lists nine nodes with pairwise distinct ids. |
| Demo.DemoEdgesKnown | src/lib/demoWorkflows.ts:30-256 | Every demo edge joins two nodes of the demo graph. |
| Demo.DemoAcyclic | src/lib/demoWorkflows.ts:29-259 | The demo wiring has no cycle, whichever of its nodes are known. |
| Dispatch.ImageUrl | src/trigger/orchestrator.ts:179 | An image node's URL is the uploaded file's URL when truthy, and the `image` field otherwise. |
| Dispatch.PassiveWrite | src/trigger/orchestrator.ts:174-187 | A text node writes `{ text }`. An image node with a URL writes `{ imageUrls: [url] }`. A video node with a URL writes `{ videoUrl }`. Nothing else is written, and every other entry is unchanged. |
| Dispatch.Incoming | src/trigger/orchestrator.ts:207 | The incoming edges are exactly the edges into the node. |
| Dispatch.Gather | src/trigger/orchestrator.ts:207-222 | The aggregation loop computes the specified text and images. |
| Dispatch.Aggregated | src/trigger/orchestrator.ts:207-222 | Defines the aggregated system prompt edge by edge. A source with text into the system-prompt port puts its block in front; one into another port appends its line. |
| Dispatch.AggregatedForm | src/trigger/orchestrator.ts:214-220 | The aggregated text is every system block followed by every context line. |
| Dispatch.AggregateOrder | src/trigger/orchestrator.ts:211-222 | For edges `a + b`: system blocks come out in reverse edge order (`b`'s first), while context lines and images keep edge order. |
| Dispatch.OneEdge | src/trigger/orchestrator.ts:212-220 | One edge contributes its source's `[System Context]` block, its `[Context]` line, or nothing when the source left no text. |
| Dispatch.LastSystemLeads | src/trigger/orchestrator.ts:215-216 | The text opens with the block of the last system-prompt edge whose source has text. |
| Dispatch.NoSystem | src/trigger/orchestrator.ts:215-216 | Without system-prompt text there are no system blocks. |
| Dispatch.FirstPick | src/trigger/orchestrator.ts:236-245 | The crop (or extract) input is the first source's truthy `imageUrls[0]` (or `videoUrl`), or else the node's own field. |
| Dispatch.FirstInput | src/trigger/orchestrator.ts:237-244 | The input loop, which breaks at the first hit, computes the specified input. |
| Dispatch.JobDefaults | src/trigger/orchestrator.ts:224-273 | Payload defaults: the LLM prompt defaults to "Analyze this." and the model always has a value; a 0 crop width becomes 100; a missing x or timestamp becomes 0. |
| Orchestrator.Passives | src/trigger/orchestrator.ts:170-187 | A layer's passive writes touch only its passive nodes' entries. |
| Orchestrator.PassivePhase | src/trigger/orchestrator.ts:170-187 | The passive loop computes the specified context. |
| Orchestrator.LaunchOf | src/trigger/orchestrator.ts:190-289 | Triggering fails exactly for an LLM, crop or extract node whose trigger throws, or (crop and extract only) whose input is falsy; its record is FAILED. Otherwise such a node's task is the one built from the context, and its record stays RUNNING. Other node kinds stay RUNNING with no task. |
| Orchestrator.Launches | src/trigger/orchestrator.ts:170-301 | A layer's trigger phase fails exactly when some node's trigger fails. Records are only for the layer's nodes. Tasks are only for its active nodes, and every active node has one when nothing failed. |
| Orchestrator.TriggerNode | src/trigger/orchestrator.ts:205-276 | The per-kind trigger code computes the specified launch. |
| Orchestrator.TriggerPhase | src/trigger/orchestrator.ts:170-301 | The trigger loop computes the specified batch. |
| Orchestrator.PollEffect | src/trigger/orchestrator.ts:306-341 | A poll fails exactly when the status is not COMPLETED or the output is `undefined`/`null`; the record is then FAILED and nothing is written. Otherwise the record is SUCCESS with the output: an LLM writes `{ text: output.text }`, crop and extract write `{ imageUrls: [output.url] }`. |
| Orchestrator.Polls | src/trigger/orchestrator.ts:306-342 | Polling records every task's node and writes only their entries. It fails exactly when some poll fails, and otherwise leaves every task's node with an entry and a SUCCESS record. |
| Orchestrator.PolledStep | src/trigger/orchestrator.ts:306-342 | Polling one more task applies that task's effect. |
| Orchestrator.EffectBranches | src/trigger/orchestrator.ts:314-333 | The three branches of the poll code give the specified effects. |
| Orchestrator.PollPhase | src/trigger/orchestrator.ts:306-342 | The poll loop computes the specified state. |
| Orchestrator.PolledIdempotent | src/trigger/orchestrator.ts:345-377 | A second poll pass that writes what the first one writes changes nothing. |
| Orchestrator.ExecuteLayer | src/trigger/orchestrator.ts:153-377 | One iteration of the layer loop computes the specified layer step. |
| Orchestrator.ExecuteLayers | src/trigger/orchestrator.ts:139-380 | The layer loop, which breaks once the run is flagged, computes the specified run. |
| Orchestrator.LayerFrame | src/trigger/orchestrator.ts:170-377 | A layer changes only the entries and records of its own nodes. |
| Orchestrator.LayerSucceeds | src/trigger/orchestrator.ts:306-379 | A layer that leaves the run unflagged leaves each of its active nodes with a SUCCESS record and an entry. |
| Orchestrator.RunFlagged | src/trigger/orchestrator.ts:143-147 | A flagged run executes no further layer. |
| Orchestrator.LayerStep | src/trigger/orchestrator.ts:153-379 | Defines one layer: passive writes, then records and triggers for the active nodes, then a poll pass over the tasks, then the corrected second pass. |
| Orchestrator.Run | src/trigger/orchestrator.ts:142-380 | Defines the run: layer steps in order, stopping once the flag is set. |
| Orchestrator.RunAppend | src/trigger/orchestrator.ts:142-380 | Running two lists of layers one after the other is running their concatenation. |
| Orchestrator.RunStops | src/trigger/orchestrator.ts:379 | Once a prefix of the layers flags the run, the remaining layers change nothing. |
| Orchestrator.RunFrame | src/trigger/orchestrator.ts:143-380 | The run changes only the entries and records of its layers' nodes. |
| Orchestrator.RunSucceeds | src/trigger/orchestrator.ts:143-397 | A run over disjoint layers that ends unflagged has a SUCCESS record and an entry for every active node of every layer. |
| Orchestrator.LaunchFailureFailsRun | src/trigger/orchestrator.ts:277-289 | A trigger failure in the first layer fails the whole run. |
| Orchestrator.NodeIdsOf | src/trigger/orchestrator.ts:66-70 | A layer's id set is the set of ids it lists. |
| Orchestrator.PlannedDisjoint | src/trigger/orchestrator.ts:62-82 | The planned layers have pairwise disjoint ids. |
| Orchestrator.CompletedCoversGraph | src/trigger/orchestrator.ts:125-397 | On an acyclic graph, success of every planned active node means success of every active node of the graph. |
| Orchestrator.PlacedIn | src/trigger/orchestrator.ts:62-82 | On an acyclic graph every node id appears in some layer. |
| Orchestrator.LoadGraph | src/trigger/orchestrator.ts:100-122 | A `Demo Workflow - <id>` name loads the demo graph with that id, or an empty graph when there is none. Any other name loads the stored nodes and edges, each empty when missing. |
| Orchestrator.Orchestrate | src/trigger/orchestrator.ts:92-397 | The run plans the loaded graph and executes the plan. It ends COMPLETED exactly when not flagged, and FAILED exactly when flagged. A COMPLETED run has a SUCCESS record and an entry for every planned active node, and, on an acyclic graph, for every active node. |
| Orchestrator.SecondPollEffectAsWritten | src/trigger/orchestrator.ts:351-356 | In the second loop, a completed LLM task writes its whole output as the text and never fails; every other case is handled as in the first loop. |
| Orchestrator.RePolled | src/trigger/orchestrator.ts:344-374 | Defines the second poll loop as written, task by task. |
| Orchestrator.SecondPollPhase | src/trigger/orchestrator.ts:344-374 | The second poll loop as written computes the specified re-poll. |
| Orchestrator.LayerStepAsWritten | src/trigger/orchestrator.ts:153-379 | Defines one layer with the second poll loop as written. |
| Orchestrator.ExecuteLayerAsWritten | src/trigger/orchestrator.ts:153-379 | One iteration of the layer loop, with the second poll loop as written, computes the as-written layer step. |
| Orchestrator.RunAsWritten | src/trigger/orchestrator.ts:142-380 | Defines the run with the as-written layer step, stopping once the flag is set. |
| Orchestrator.ExecuteLayersAsWritten | src/trigger/orchestrator.ts:142-380 | The layer loop with the as-written second loop computes the as-written run. |
| Orchestrator.RePolledFlag | src/trigger/orchestrator.ts:344-374 | The second loop as written leaves the run flagged exactly when it was flagged already or some task's second poll fails. |
| Orchestrator.RePolledAt | src/trigger/orchestrator.ts:344-357 | The second loop as written does what the first loop does at every node that is not one of its LLM tasks. |
| Orchestrator.AsWrittenLayerAgrees | src/trigger/orchestrator.ts:300-379 | A layer with the second loop as written sets the flag exactly when the corrected layer does. It leaves the same entry and record as the corrected layer for every node except that layer's LLM tasks. |
| Orchestrator.ForwardedText | src/trigger/orchestrator.ts:218 | A prompt edge forwards `"\n[Context]: " + String(text)`. |
| Orchestrator.SecondPassLeaksObject | src/trigger/orchestrator.ts:353 | For the answer `{ text: "Hi" }`, the first loop forwards "Hi" downstream; the second loop as written forwards "[object Object]". |
| Orchestrator.SecondPassHidesFailure | src/trigger/orchestrator.ts:353 | A completed LLM task with no output is FAILED by the first loop, but written and recorded as SUCCESS by the second loop as written. |
| Validator.Outgoers | src/components/workflow/FlowEditor.tsx:140 | The outgoers are exactly the listed nodes that some edge from the node enters. |
| Validator.OutgoerLink | src/components/workflow/FlowEditor.tsx:140 | A known node is an outgoer exactly when the planner's links join the two nodes. |
| Validator.HasCycle | src/components/workflow/FlowEditor.tsx:137-143 | The search, with its shared visited set: finding the goal means the goal is reachable. Not finding it means every node it newly visited has all its links inside the visited set and none to the goal. |
| Validator.SearchOutgoers | src/components/workflow/FlowEditor.tsx:141-142 | Searching the outgoers in turn keeps those guarantees across the calls. |
| Validator.ClosedNoReach | src/components/workflow/FlowEditor.tsx:137-143 | A visited set closed under links and avoiding the goal rules out every path to the goal. |
| Validator.SearchFrom | src/components/workflow/FlowEditor.tsx:137-145 | `hasCycle(target)` is true exactly when the source is reachable from the target. |
| Validator.Accepts | src/components/workflow/FlowEditor.tsx:103-148 | Defines the connections the check accepts: no self-loop, both ends known, the port rules, and no cycle on ports other than `image_url`/`video_url`. |
| Validator.AcceptsIntended | src/components/workflow/FlowEditor.tsx:103-148 | Defines the corrected check: the same rules with the cycle search on every port. |
| Validator.IsValidConnection | src/components/workflow/FlowEditor.tsx:103-148 | The check accepts exactly the specified connections. A self-loop or an unknown end is rejected; an accepted connection on any port but `image_url`/`video_url` cannot close a cycle. |
| Validator.NewLinkCycle | src/components/workflow/FlowEditor.tsx:136-145 | A cycle that uses a new link s → t means t already reached s (or s is t). |
| Validator.UsesNewLink | src/components/workflow/FlowEditor.tsx:136-145 | On an acyclic graph, every cycle after adding a link uses that link. |
| Validator.LinksAdd | src/components/workflow/FlowEditor.tsx:103-110 | Adding an edge between two known nodes adds exactly its link. |
| Validator.IntendedKeepsAcyclic | src/components/workflow/FlowEditor.tsx:136-145 | A connection accepted by the corrected check keeps an acyclic graph acyclic. |
| Validator.IsSafeConnection | src/components/workflow/FlowEditor.tsx:103-148 | The corrected check, with the cycle search on every port: it accepts exactly the intended connections, and an accepted connection keeps an acyclic graph acyclic. |
| Validator.IntendedAgrees | src/components/workflow/FlowEditor.tsx:112-147 | The corrected check only rejects more, and agrees with the check as written on every port but `image_url` and `video_url`. |
| Validator.ImageUrlCycleAccepted | src/components/workflow/FlowEditor.tsx:113-116 | Two crop nodes with a → b on `image_url`: the check accepts b → a on `image_url`, and the graph then has a cycle. |
| Store.MergeData | src/store/workflowStore.ts:154-161 | Updating a node's data keeps every node's id, type and position. It merges `d` over the data of the nodes with that id and leaves all other nodes unchanged. |
| Store.MergeDataTwice | src/store/workflowStore.ts:154-161 | Applying the same data update twice is the same as once. |
| Store.MergeDataLinks | src/store/workflowStore.ts:154-161 | A data update changes neither the known ids nor the graph's links. |
| Store.WithoutKnown | src/store/workflowStore.ts:168-170 | Deleting a node removes exactly its id from the known ids. |
| Store.DeleteKeepsAcyclic | src/store/workflowStore.ts:168-174 | After a delete, every remaining link was a link before and avoids the deleted id, and an acyclic graph stays acyclic. |
| Store.StripAll | src/store/workflowStore.ts:231-237 | The comparison drops each node's position, selected, dragging and measured fields, node by node. |
| Store.SameForUndoMeans | src/store/workflowStore.ts:230-243 | Two states compare equal for undo exactly when their edges are equal and their nodes differ only in position, selection, dragging and measurement. Equal nodes and edges always compare equal. |
| Store.Record | src/store/workflowStore.ts:227-243 | A change that compares equal only replaces the present. Any other change pushes the old present and clears the redo stack, dropping the oldest entry at the 100-entry limit. The history stays bounded. |
| Store.Undo | src/store/workflowStore.ts:227-228 | Undo moves the last past state to the present and the present to the redo stack; with no past it does nothing. |
| Store.Redo | src/store/workflowStore.ts:227-228 | Redo moves the last future state to the present and the present to the past; with no future it does nothing. |
| Store.UndoRedoInverse | src/store/workflowStore.ts:227-228 | Redo undoes an undo, and undo undoes a redo. |
| Store.UndoAfterRecord | src/store/workflowStore.ts:227-243 | After a recorded change, undo restores the old state and redo brings the change back. |
| Store.QuietChanges | src/store/workflowStore.ts:230-243 | A change that keeps nodes and edges (name, id, timestamps) adds no undo step. |
| Store.WorkflowStore.constructor | src/store/workflowStore.ts:97-105 | The store starts with nobody signed in, no nodes or edges, no workflow id, the name "Untitled Workflow", no last run and an empty history. |
| Store.WorkflowStore.Set | src/store/workflowStore.ts:97 | Every `set` is recorded in the history as specified. |
| Store.WorkflowStore.SetUserId | src/store/workflowStore.ts:109-123 | A different user clears nodes, edges, workflow id and name. The same user leaves the state and history unchanged. |
| Store.WorkflowStore.UpdateNodeData | src/store/workflowStore.ts:154-161 | The new nodes are the merged nodes, recorded. |
| Store.WorkflowStore.AddNode | src/store/workflowStore.ts:163-166 | The node is appended, recorded. |
| Store.WorkflowStore.DeleteNode | src/store/workflowStore.ts:168-174 | The node and every edge touching it are removed, recorded. |
| Store.WorkflowStore.ResetWorkflow | src/store/workflowStore.ts:178-184 | Nodes, edges, id and name go back to empty and "Untitled Workflow", recorded; the user is kept. |
| Store.WorkflowStore.ClearUserData | src/store/workflowStore.ts:195-202 | As reset, and the user is signed out. |
| Store.WorkflowStore.SetWorkflowId | src/store/workflowStore.ts:186 | Only the workflow id changes. |
| Store.WorkflowStore.SetWorkflowName | src/store/workflowStore.ts:188-189 | Only the name changes. |
| Store.WorkflowStore.SetNodes | src/store/workflowStore.ts:191 | Only the nodes change. |
| Store.WorkflowStore.SetEdges | src/store/workflowStore.ts:193 | Only the edges change. |
| Store.WorkflowStore.SetLastRunTimestamp | src/store/workflowStore.ts:204-205 | Only the last-run timestamp changes. |
| Store.WorkflowStore.UndoStep | src/store/workflowStore.ts:227-228 | The history takes one undo step. |
| Store.WorkflowStore.RedoStep | src/store/workflowStore.ts:227-228 | The history takes one redo step. |
| LlmNode.Prefix | src/components/workflow/nodes/LLMNode.tsx:203 | `substring(0, n)` is the first n characters, with n clamped to the string. |
| LlmNode.Truncate | src/components/workflow/nodes/LLMNode.tsx:197-204 | Text within 4 × maxTokens characters is kept. Longer text becomes its first 4 × maxTokens − 100 characters followed by the truncation notice. |
| LlmNode.TruncateIdempotent | src/components/workflow/nodes/LLMNode.tsx:197-204 | From 25 tokens up the result fits the budget, and truncating twice is truncating once. |
| LlmNode.Gathered | src/components/workflow/nodes/LLMNode.tsx:133-194 | Defines the inputs gathered from the incoming edges, in edge order. |
| LlmNode.GatherInputs | src/components/workflow/nodes/LLMNode.tsx:133-194 | The input loop over the incoming edges computes the specified inputs. |
| LlmNode.FinalPrompts | src/components/workflow/nodes/LLMNode.tsx:206-207 | The system prompt is system + context truncated at 4000 tokens. The user prompt (or "Process this request." when empty) is truncated at 1000 tokens; it is never empty and fits 4000 characters. |
| LlmNode.StepFacts | src/components/workflow/nodes/LLMNode.tsx:141-185 | One edge: a text source on the system-prompt port sets the system prompt. A text source, or an LLM with output, on the prompt port sets the user prompt. An LLM on the system-prompt port appends a context block. An image, crop or extract source on an image port appends its URL. |
| LlmNode.NoSystem | src/components/workflow/nodes/LLMNode.tsx:146-147 | Without a system-prompt text source the system prompt stays empty. |
| LlmNode.SystemLastWins | src/components/workflow/nodes/LLMNode.tsx:146-147 | The system prompt is the text of the last system-prompt text source. |
| LlmNode.NoUser | src/components/workflow/nodes/LLMNode.tsx:148-160 | Without a prompt source the user prompt stays empty. |
| LlmNode.UserLastWins | src/components/workflow/nodes/LLMNode.tsx:148-160 | The user prompt is that of the last prompt source. |
| LlmNode.ContextInOrder | src/components/workflow/nodes/LLMNode.tsx:157-158 | Context blocks accumulate in edge order. |
| LlmNode.ImagesInOrder | src/components/workflow/nodes/LLMNode.tsx:165-185 | Image URLs accumulate in edge order. |
| LlmNode.OneEdge | src/components/workflow/nodes/LLMNode.tsx:153-185 | One edge on its own gives exactly its context block and image URLs. |
| LlmNode.ImagesPresent | src/components/workflow/nodes/LLMNode.tsx:165-185 | Every collected URL is truthy, and there is at most one per edge. |
| LlmNode.UnknownStep | src/components/workflow/nodes/LLMNode.tsx:141-142 | An edge from an unknown node changes nothing. |
| LlmNode.UnknownSourcesIgnored | src/components/workflow/nodes/LLMNode.tsx:140-142 | Dropping the edges from unknown nodes gives the same inputs. |
| LlmNode.IndexOf | src/components/workflow/nodes/LLMNode.tsx:114 | The first position of a character, or none when absent. |
| LlmNode.ImageHandleIndex | src/components/workflow/nodes/LLMNode.tsx:114 | The handle `image-k` parses back to k. |
| LlmNode.RemoveImageInput | src/components/workflow/nodes/LLMNode.tsx:107-121 | With at most one port nothing changes. Otherwise the count drops by one, and exactly the edges into this node's image ports whose index is not below count − 1 are removed. |
| LlmNode.RemoveImageInputFits | src/components/workflow/nodes/LLMNode.tsx:111-116 | After removal, every edge into `image-k` has k below the new count, and edges into the remaining ports are kept. |
| LlmNode.RequiredHeight | src/components/workflow/nodes/LLMNode.tsx:63-69 | The height is at least 400 and at least 270 + 40 × count + 60, and is one of the two. |
| LlmNode.HeightGrows | src/components/workflow/nodes/LLMNode.tsx:63-69 | More image ports never shrink the node; one port or fewer gives 400. |

## Left out

- Database writes (`prisma`), run and node-execution records as rows: the model keeps each node's record status in a map and the run's final status as a string.
- Trigger.dev itself. Tasks are triggered in layer order and then polled in order; `Promise.all` concurrency and timing are not modelled. Whether a trigger call throws is a parameter (`rejected`), and each task's poll outcome is a parameter (`poll`). The same task polled twice reports the same outcome.
- Logging, the outer `try/catch` of the run (which only catches database errors), and the `if (workflowFailed) break` after the trigger loop. That break fires only when the database client throws synchronously while a trigger is set up, and the database client is not modelled.
- Orchestrator.LayerStep, Orchestrator.Run, Orchestrator.ExecuteLayer, Orchestrator.ExecuteLayers, Orchestrator.Orchestrate: the run applies the corrected second poll loop, not the loop as written. The loop as written is modelled (`LayerStepAsWritten`, `RunAsWritten`), and `AsWrittenLayerAgrees` proves that one layer of it sets the same flag and leaves the same entries and records, except at that layer's LLM tasks. The effect of the whole output object reaching later layers as LLM text is not carried through the whole run.
- `Orchestrator.LoadGraph`: a missing run (`Run not found`) and a stored graph that is not an object are not modelled. A missing `nodes` or `edges` field is.
- Node kinds other than the six named ones get a RUNNING record that is never closed; the model keeps them RUNNING.
- The tasks themselves (Gemini, FFmpeg, Transloadit) and media processing; only their reported status and output are modelled.
- The library code behind the editor: React Flow's `getOutgoers` (modelled from its documented behaviour), `applyNodeChanges`, `applyEdgeChanges`, `addEdge` and `onConnect`, and the React components and their rendering.
- Undo/redo comes from a history library. It is modelled as past/present/future stacks with a 100-entry limit and the store's equality function. `JSON.stringify` equality is modelled as value equality, so key order and dropped `undefined` fields are not modelled.
- `localStorage` persistence (`userAwareStorage`, `partialize`) and the persisted version.
- LlmNode.Prefix, LlmNode.Truncate: lengths and cuts count Unicode code points. JavaScript's `length` and `substring` count UTF-16 code units, so text outside the Basic Multilingual Plane is measured and cut differently.
- Js.NumberText: a number is written with up to 20 fraction digits and no exponent. That is not JavaScript's shortest round-trip form, so numbers that need an exponent or more than 20 fraction digits read differently.
- LlmNode.RemoveImageInput, LlmNode.RequiredHeight: the image port count is a parameter. The `imageHandleCount ?? 1` default at src/components/workflow/nodes/LLMNode.tsx:63 is left to the caller.
- The LLM node's signed-in check, status updates, its server action and fallbacks, and its logging of truncation.
- Numbers are exact reals with no `NaN` in node data; timestamps and `imageHandleCount` are integers.
- A non-string value in a field the LLM node reads as a string is read as the empty string.
- The demo graph's long description strings are written as concatenations of shorter literals (the same values).
- Marketing pages, the workflows list, authentication middleware and the debug routes.

## Findings

| source | as written | input that shows it | evidently intended | confidence | as-written member | corrected member |
|---|---|---|---|---|---|---|
| src/trigger/orchestrator.ts:353 | The second poll loop writes `{ text: result.output }` for an LLM task, i.e. the task's whole output object. | An LLM task that completes with `{ success: true, text: "Hi" }` (the shape returned at src/trigger/workflow-nodes.ts:75-78): a downstream prompt then receives `[object Object]` instead of `Hi`. A task completing with no output, which the first loop marks FAILED, is marked SUCCESS. | `{ text: result.output.text }`, as in the first loop at line 317, so the second pass changes nothing. | not executed | Orchestrator.SecondPollEffectAsWritten, Orchestrator.SecondPassLeaksObject, Orchestrator.SecondPassHidesFailure | Orchestrator.PollEffect, Orchestrator.PolledIdempotent |
| src/components/workflow/FlowEditor.tsx:113-122 | Connections into `image_url` and `video_url` return early, before the cycle check. | Crop nodes a and b with an edge a → b on `image_url`: the connection b → a on `image_url` is accepted and closes a cycle. | Run the cycle check on every accepted connection, so an acyclic graph stays acyclic. | not executed | Validator.IsValidConnection, Validator.ImageUrlCycleAccepted | Validator.IsSafeConnection, Validator.IntendedKeepsAcyclic |
