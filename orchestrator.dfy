/**
 * The workflow orchestrator's run: load the graph (a demo graph or the stored one), plan its
 * layers, then execute the layers in order. In each layer the passive nodes write their content
 * into the run's context, every other node gets an execution record and, for the LLM, crop and
 * frame-extraction nodes, a task triggered with a job built from the context; the tasks are then
 * polled and their outputs written back. A failure anywhere flags the run, which stops after the
 * layer in progress and ends FAILED; otherwise it ends COMPLETED.
 */
module Orchestrator {
  import opened Graph
  import opened Js
  import opened Dispatch
  import opened Demo
  import opened LayerSpec
  import opened LayerPlanner
  import opened LayerProps

  /** The status of a node execution record: RUNNING, SUCCESS (with the task's output) or FAILED. */
  datatype Record = Running | Success(output: Value) | Failure

  datatype TaskKind = LlmTask | CropTask | ExtractTask

  /** A triggered task: the node it runs for, its kind, and the job it was triggered with. */
  datatype Task = Task(node: string, kind: TaskKind, job: Job)

  /** The status a finished task run is reported with. */
  datatype PollStatus = Completed | Failed | Crashed | TimedOut | Unexpected(name: string)

  /** What polling a task returns: its status and its output (`undefined` when it has none). */
  datatype Outcome = Outcome(status: PollStatus, output: Value)

  /**
   * What the run depends on besides the graph's nodes: its edges, the nodes whose task cannot be
   * triggered (the trigger call throws), and the outcome each triggered task is polled with.
   */
  datatype Env = Env(edges: seq<Edge>, rejected: set<string>, poll: Task -> Outcome)

  /** The run's state: the context, the execution record of each node, and the failure flag. */
  datatype State = State(ctx: Context, records: map<string, Record>, failed: bool)

  function Initial(): State
  {
    State(map[], map[], false)
  }

  /** The node kinds that run as tasks. */
  predicate IsActive(k: Kind)
  {
    k == LlmNode || k == CropImageNode || k == ExtractFrameNode
  }

  /** The ids of the nodes of a layer. */
  function NodeIds(layer: seq<Node>): set<string>
  {
    set n | n in layer :: n.id
  }

  // ---------------------------------------------------------------------------------------------
  // Passive phase

  /** The ids of a layer's passive nodes. */
  function PassiveIds(layer: seq<Node>): set<string>
  {
    set n | n in layer && IsPassive(n.kind) :: n.id
  }

  /** The context after the passive nodes of a layer have written theirs, in layer order. */
  function Passives(ctx: Context, layer: seq<Node>): (r: Context)
    ensures forall k :: k !in PassiveIds(layer) ==> (k in r <==> k in ctx) && (k in ctx ==> r[k] == ctx[k])
  {
    if layer == [] then ctx
    else
      var front := layer[..|layer| - 1];
      var n := layer[|layer| - 1];
      PassiveIdsSnoc(layer);
      PassiveWrite(Passives(ctx, front), n)
  }

  lemma PassiveIdsSnoc(layer: seq<Node>)
    requires layer != []
    ensures PassiveIds(layer) == PassiveIds(layer[..|layer| - 1]) + (if IsPassive(layer[|layer| - 1].kind) then {layer[|layer| - 1].id} else {})
  {
    assert forall m :: m in layer <==> m in layer[..|layer| - 1] || m == layer[|layer| - 1];
  }

  /** The passive writes of a layer, one node at a time. */
  method PassivePhase(ctx: Context, layer: seq<Node>) returns (r: Context)
    ensures r == Passives(ctx, layer)
  {
    r := ctx;
    for i := 0 to |layer|
      invariant r == Passives(ctx, layer[..i])
    {
      var n := layer[i];
      assert layer[..i + 1][..i] == layer[..i];
      match n.kind {
        case TextNode =>
          r := r[n.id := TextEntry(Field(n.data, "text"))];
        case ImageNode =>
          var url := ImageUrl(n.data);
          if Truthy(url) {
            r := r[n.id := ImagesEntry([url])];
          }
        case VideoNode =>
          var url := VideoUrl(n.data);
          if Truthy(url) {
            r := r[n.id := VideoEntry(url)];
          }
        case _ =>
      }
    }
    assert layer[..|layer|] == layer;
  }

  // ---------------------------------------------------------------------------------------------
  // Trigger phase

  /** The input of a crop or extract node: the first source's image or video, else the node's own field. */
  function InputOf(ctx: Context, edges: seq<Edge>, n: Node): Value
  {
    if n.kind == ExtractFrameNode then FirstPick(ctx, Incoming(edges, n.id), VideoPort, Field(n.data, "videoUrl"))
    else FirstPick(ctx, Incoming(edges, n.id), ImagePort, Field(n.data, "imageUrl"))
  }

  /** The task an active node is triggered with, given the context. */
  function TaskOf(ctx: Context, edges: seq<Edge>, n: Node): Task
  {
    var es := Incoming(edges, n.id);
    if n.kind == LlmNode then Task(n.id, LlmTask, LlmJobOf(n.data, Aggregated(ctx, es), Images(ctx, es)))
    else if n.kind == CropImageNode then Task(n.id, CropTask, CropJobOf(n.data, InputOf(ctx, edges, n)))
    else Task(n.id, ExtractTask, ExtractJobOf(n.data, InputOf(ctx, edges, n)))
  }

  /** What triggering one non-passive node leaves: its record, its task if one was started, and whether the run fails. */
  datatype Launch = Launch(record: Record, task: Option<Task>, fails: bool)

  /**
   * Triggering a non-passive node: its record is created RUNNING; an LLM node is triggered with
   * its aggregated inputs, a crop or extract node with its input, which must be truthy; a node
   * whose trigger throws (no input, or a rejected trigger) gets a FAILED record and flags the run;
   * any other kind keeps its RUNNING record and starts no task.
   */
  function LaunchOf(ctx: Context, env: Env, n: Node): (l: Launch)
    ensures l.fails <==> l.record == Failure
    ensures l.fails <==> IsActive(n.kind) && (n.id in env.rejected || (n.kind != LlmNode && !Truthy(InputOf(ctx, env.edges, n))))
    ensures l.task.Some? <==> IsActive(n.kind) && !l.fails
    ensures l.task.Some? ==> l.task.value == TaskOf(ctx, env.edges, n) && l.task.value.node == n.id && l.record == Running
    ensures !IsActive(n.kind) ==> l.record == Running
  {
    if !IsActive(n.kind) then Launch(Running, None, false)
    else if n.kind != LlmNode && !Truthy(InputOf(ctx, env.edges, n)) then Launch(Failure, None, true)
    else if n.id in env.rejected then Launch(Failure, None, true)
    else Launch(Running, Some(TaskOf(ctx, env.edges, n)), false)
  }

  /** The records, the started tasks (in layer order) and the failure of a layer's trigger phase. */
  datatype Batch = Batch(records: map<string, Record>, tasks: seq<Task>, fails: bool)

  /** The ids of a layer's active nodes. */
  function ActiveIds(layer: seq<Node>): set<string>
  {
    set n | n in layer && IsActive(n.kind) :: n.id
  }

  /** The ids of the nodes a list of tasks runs for. */
  function TaskIds(ts: seq<Task>): set<string>
  {
    set t | t in ts :: t.node
  }

  /** The trigger phase of a layer, every non-passive node against the same context. */
  function Launches(ctx: Context, env: Env, layer: seq<Node>): (b: Batch)
    ensures forall k :: k in b.records ==> k in NodeIds(layer)
    ensures TaskIds(b.tasks) <= ActiveIds(layer)
    ensures b.fails <==> exists n :: n in layer && LaunchOf(ctx, env, n).fails
    ensures !b.fails ==> forall n :: n in layer && IsActive(n.kind) ==> n.id in TaskIds(b.tasks)
  {
    if layer == [] then Batch(map[], [], false)
    else
      var front := layer[..|layer| - 1];
      var n := layer[|layer| - 1];
      var b := Launches(ctx, env, front);
      assert forall m :: m in layer <==> m in front || m == n;
      if IsPassive(n.kind) then b
      else
        var l := LaunchOf(ctx, env, n);
        var tasks := b.tasks + (if l.task.Some? then [l.task.value] else []);
        assert TaskIds(tasks) == TaskIds(b.tasks) + (if l.task.Some? then {n.id} else {});
        Batch(b.records[n.id := l.record], tasks, b.fails || l.fails)
  }

  /** Triggering one node, with the engine's own input-gathering loops. */
  method TriggerNode(ctx: Context, env: Env, n: Node) returns (l: Launch)
    ensures l == LaunchOf(ctx, env, n)
  {
    var es := Incoming(env.edges, n.id);
    if n.kind == LlmNode {
      var text, images := Gather(ctx, es);
      if n.id in env.rejected {
        l := Launch(Failure, None, true);
      } else {
        l := Launch(Running, Some(Task(n.id, LlmTask, LlmJobOf(n.data, text, images))), false);
      }
    } else if n.kind == CropImageNode || n.kind == ExtractFrameNode {
      var url;
      if n.kind == CropImageNode {
        url := FirstInput(ctx, es, ImagePort, Field(n.data, "imageUrl"));
      } else {
        url := FirstInput(ctx, es, VideoPort, Field(n.data, "videoUrl"));
      }
      if !Truthy(url) || n.id in env.rejected {
        l := Launch(Failure, None, true);
      } else if n.kind == CropImageNode {
        l := Launch(Running, Some(Task(n.id, CropTask, CropJobOf(n.data, url))), false);
      } else {
        l := Launch(Running, Some(Task(n.id, ExtractTask, ExtractJobOf(n.data, url))), false);
      }
    } else {
      l := Launch(Running, None, false);
    }
  }

  /** The trigger phase: every non-passive node of the layer in turn, collecting the started tasks. */
  method TriggerPhase(ctx: Context, env: Env, layer: seq<Node>) returns (b: Batch)
    ensures b == Launches(ctx, env, layer)
  {
    b := Batch(map[], [], false);
    for i := 0 to |layer|
      invariant b == Launches(ctx, env, layer[..i])
    {
      var n := layer[i];
      assert layer[..i + 1][..i] == layer[..i];
      if !IsPassive(n.kind) {
        var l := TriggerNode(ctx, env, n);
        var tasks := b.tasks;
        if l.task.Some? {
          tasks := tasks + [l.task.value];
        }
        b := Batch(b.records[n.id := l.record], tasks, b.fails || l.fails);
      }
    }
    assert layer[..|layer|] == layer;
  }

  // ---------------------------------------------------------------------------------------------
  // Poll phase

  /** What polling one task does: the context write (if any), the record, and whether the run fails. */
  datatype Effect = Effect(write: Option<Entry>, record: Record, fails: bool)

  /**
   * One poll: a COMPLETED task writes `{ text: output.text }` (LLM) or `{ imageUrls: [output.url] }`
   * (crop, extract) and gets a SUCCESS record; any other status, or an output that is `undefined`
   * or `null` (reading its field throws), gets a FAILED record and flags the run.
   */
  function PollEffect(t: Task, o: Outcome): (e: Effect)
    ensures e.fails <==> e.write.None?
    ensures e.fails <==> e.record == Failure
    ensures e.fails <==> o.status != Completed || o.output == Undefined || o.output == Null
    ensures !e.fails ==> e.record == Success(o.output)
    ensures !e.fails && t.kind == LlmTask ==> e.write == Some(TextEntry(OptProp(o.output, "text")))
    ensures !e.fails && t.kind != LlmTask ==> e.write == Some(ImagesEntry([OptProp(o.output, "url")]))
  {
    if o.status != Completed then Effect(None, Failure, true)
    else
      match Prop(o.output, if t.kind == LlmTask then "text" else "url")
      case None => Effect(None, Failure, true)
      case Some(v) => Effect(Some(if t.kind == LlmTask then TextEntry(v) else ImagesEntry([v])), Success(o.output), false)
  }

  /** The context writes, the records and the failure of polling a list of tasks in order. */
  datatype Writes = Writes(ctx: Context, records: map<string, Record>, fails: bool)

  function Polls(ts: seq<Task>, poll: Task -> Outcome): (w: Writes)
    ensures forall k :: k in w.records <==> k in TaskIds(ts)
    ensures forall k :: k in w.ctx ==> k in TaskIds(ts)
    ensures w.fails <==> exists t :: t in ts && PollEffect(t, poll(t)).fails
    ensures !w.fails ==> forall t :: t in ts ==> t.node in w.ctx && w.records[t.node].Success?
  {
    if ts == [] then Writes(map[], map[], false)
    else
      var front := ts[..|ts| - 1];
      var t := ts[|ts| - 1];
      var w := Polls(front, poll);
      var e := PollEffect(t, poll(t));
      assert forall u :: u in ts <==> u in front || u == t;
      assert TaskIds(ts) == TaskIds(front) + {t.node};
      Writes(if e.write.Some? then w.ctx[t.node := e.write.value] else w.ctx, w.records[t.node := e.record], w.fails || e.fails)
  }

  /** The state after polling a list of tasks. */
  function Polled(s: State, ts: seq<Task>, poll: Task -> Outcome): State
  {
    var w := Polls(ts, poll);
    State(s.ctx + w.ctx, s.records + w.records, s.failed || w.fails)
  }

  /** The state after one poll's effect. */
  function Apply(s: State, t: Task, e: Effect): State
  {
    State(if e.write.Some? then s.ctx[t.node := e.write.value] else s.ctx, s.records[t.node := e.record], s.failed || e.fails)
  }

  /** Polling one more task applies its effect to the state. */
  lemma PolledStep(s: State, ts: seq<Task>, poll: Task -> Outcome, i: nat)
    requires i < |ts|
    ensures Polled(s, ts[..i + 1], poll) == Apply(Polled(s, ts[..i], poll), ts[i], PollEffect(ts[i], poll(ts[i])))
  {
    var front := ts[..i + 1];
    assert front[..i] == ts[..i] && front[i] == ts[i];
    var w := Polls(ts[..i], poll);
    var e := PollEffect(ts[i], poll(ts[i]));
    assert Polls(front, poll) ==
      Writes(if e.write.Some? then w.ctx[ts[i].node := e.write.value] else w.ctx, w.records[ts[i].node := e.record], w.fails || e.fails);
    if e.write.Some? {
      MergeUpdate(s.ctx, w.ctx, ts[i].node, e.write.value);
    }
    MergeUpdate(s.records, w.records, ts[i].node, e.record);
  }

  lemma MergeUpdate<K, V>(m: map<K, V>, w: map<K, V>, k: K, v: V)
    ensures (m + w)[k := v] == m + w[k := v]
  {
  }

  /** The effect the poll loop's branches compute. */
  lemma EffectBranches(t: Task, o: Outcome)
    ensures o.status == Completed && o.output != Undefined && o.output != Null && t.kind == LlmTask ==>
      PollEffect(t, o) == Effect(Some(TextEntry(OptProp(o.output, "text"))), Success(o.output), false)
    ensures o.status == Completed && o.output != Undefined && o.output != Null && t.kind != LlmTask ==>
      PollEffect(t, o) == Effect(Some(ImagesEntry([OptProp(o.output, "url")])), Success(o.output), false)
    ensures !(o.status == Completed && o.output != Undefined && o.output != Null) ==> PollEffect(t, o) == Effect(None, Failure, true)
  {
  }

  /** The poll loop: each task in turn, its write and record applied at once. */
  method PollPhase(s: State, ts: seq<Task>, poll: Task -> Outcome) returns (r: State)
    ensures r == Polled(s, ts, poll)
  {
    r := s;
    for i := 0 to |ts|
      invariant r == Polled(s, ts[..i], poll)
    {
      var t := ts[i];
      var o := poll(t);
      PolledStep(s, ts, poll, i);
      EffectBranches(t, o);
      if o.status == Completed && o.output != Undefined && o.output != Null {
        if t.kind == LlmTask {
          r := r.(ctx := r.ctx[t.node := TextEntry(OptProp(o.output, "text"))]);
        } else {
          r := r.(ctx := r.ctx[t.node := ImagesEntry([OptProp(o.output, "url")])]);
        }
        r := r.(records := r.records[t.node := Success(o.output)]);
      } else {
        r := r.(records := r.records[t.node := Failure], failed := true);
      }
    }
    assert ts[..|ts|] == ts;
  }

  // ---------------------------------------------------------------------------------------------
  // Layers and the run

  /**
   * One layer: passive writes, the trigger phase against the resulting context, then the tasks
   * polled twice (the second pass as intended, writing what the first one writes).
   */
  function LayerStep(s: State, env: Env, layer: seq<Node>): State
  {
    var ctx := Passives(s.ctx, layer);
    var b := Launches(ctx, env, layer);
    var s1 := State(ctx, s.records + b.records, s.failed || b.fails);
    Polled(Polled(s1, b.tasks, env.poll), b.tasks, env.poll)
  }

  /** The layers in order, stopping before the first layer met with the run already flagged. */
  function Run(s: State, env: Env, layers: seq<seq<Node>>): State
    decreases |layers|
  {
    if layers == [] || s.failed then s else Run(LayerStep(s, env, layers[0]), env, layers[1..])
  }

  /** One layer, step by step. */
  method ExecuteLayer(s: State, env: Env, layer: seq<Node>) returns (r: State)
    ensures r == LayerStep(s, env, layer)
  {
    var ctx := PassivePhase(s.ctx, layer);
    var b := TriggerPhase(ctx, env, layer);
    r := State(ctx, s.records + b.records, s.failed || b.fails);
    r := PollPhase(r, b.tasks, env.poll);
    r := PollPhase(r, b.tasks, env.poll);
  }

  /** The layer loop, which breaks once the run is flagged. */
  method ExecuteLayers(env: Env, layers: seq<seq<Node>>) returns (s: State)
    ensures s == Run(Initial(), env, layers)
  {
    s := Initial();
    var i := 0;
    while i < |layers|
      invariant i <= |layers|
      invariant Run(Initial(), env, layers) == Run(s, env, layers[i..])
    {
      if s.failed {
        break;
      }
      assert layers[i..][1..] == layers[i + 1..];
      s := ExecuteLayer(s, env, layers[i]);
      i := i + 1;
    }
    if i == |layers| {
      assert layers[i..] == [];
    }
  }

  // ---------------------------------------------------------------------------------------------
  // What a run guarantees

  /** Node `k` has a SUCCESS record and a context entry. */
  predicate Succeeded(s: State, k: string)
  {
    k in s.ctx && k in s.records && s.records[k].Success?
  }

  /** Node `k`'s context entry and record are the same in both states. */
  predicate SameAt(s: State, r: State, k: string)
  {
    && (k in r.ctx <==> k in s.ctx) && (k in s.ctx ==> r.ctx[k] == s.ctx[k])
    && (k in r.records <==> k in s.records) && (k in s.records ==> r.records[k] == s.records[k])
  }

  /** Polling the same tasks a second time, with the same outcomes, changes nothing. */
  lemma PolledIdempotent(s: State, ts: seq<Task>, poll: Task -> Outcome)
    ensures Polled(Polled(s, ts, poll), ts, poll) == Polled(s, ts, poll)
  {
    var w := Polls(ts, poll);
    assert (s.ctx + w.ctx) + w.ctx == s.ctx + w.ctx;
    assert (s.records + w.records) + w.records == s.records + w.records;
  }

  /** A layer touches only the context entries and records of its own nodes. */
  lemma LayerFrame(s: State, env: Env, layer: seq<Node>, k: string)
    requires k !in NodeIds(layer)
    ensures SameAt(s, LayerStep(s, env, layer), k)
  {
    var ctx := Passives(s.ctx, layer);
    var b := Launches(ctx, env, layer);
    var w := Polls(b.tasks, env.poll);
    assert PassiveIds(layer) <= NodeIds(layer);
    assert ActiveIds(layer) <= NodeIds(layer);
    assert k !in TaskIds(b.tasks);
    assert k !in w.ctx && k !in w.records && k !in b.records;
  }

  /** A layer ends with the run not flagged only if each of its active nodes succeeded. */
  lemma LayerSucceeds(s: State, env: Env, layer: seq<Node>)
    ensures !LayerStep(s, env, layer).failed ==>
      forall n :: n in layer && IsActive(n.kind) ==> Succeeded(LayerStep(s, env, layer), n.id)
  {
    var ctx := Passives(s.ctx, layer);
    var b := Launches(ctx, env, layer);
    var w := Polls(b.tasks, env.poll);
    var r := LayerStep(s, env, layer);
    if !r.failed {
      forall n | n in layer && IsActive(n.kind)
        ensures Succeeded(r, n.id)
      {
        assert n.id in TaskIds(b.tasks);
        var t :| t in b.tasks && t.node == n.id;
        assert n.id in w.ctx && w.records[n.id].Success?;
      }
    }
  }

  /** A flagged run executes no further layer. */
  lemma RunFlagged(s: State, env: Env, layers: seq<seq<Node>>)
    requires s.failed
    ensures Run(s, env, layers) == s
  {
  }

  /** Running two lists of layers one after the other is running their concatenation. */
  lemma {:induction false} RunAppend(s: State, env: Env, xs: seq<seq<Node>>, ys: seq<seq<Node>>)
    ensures Run(s, env, xs + ys) == Run(Run(s, env, xs), env, ys)
    decreases |xs|
  {
    if xs == [] {
      assert xs + ys == ys;
    } else if !s.failed {
      assert (xs + ys)[0] == xs[0] && (xs + ys)[1..] == xs[1..] + ys;
      RunAppend(LayerStep(s, env, xs[0]), env, xs[1..], ys);
    }
  }

  /** Once some prefix of the layers leaves the run flagged, the remaining layers change nothing. */
  lemma RunStops(s: State, env: Env, layers: seq<seq<Node>>, k: nat)
    requires k <= |layers| && Run(s, env, layers[..k]).failed
    ensures Run(s, env, layers) == Run(s, env, layers[..k])
  {
    assert layers == layers[..k] + layers[k..];
    RunAppend(s, env, layers[..k], layers[k..]);
    RunFlagged(Run(s, env, layers[..k]), env, layers[k..]);
  }

  /** The run touches only the context entries and records of the nodes of its layers. */
  lemma {:induction false} RunFrame(s: State, env: Env, layers: seq<seq<Node>>, k: string)
    requires forall i :: 0 <= i < |layers| ==> k !in NodeIds(layers[i])
    ensures SameAt(s, Run(s, env, layers), k)
    decreases |layers|
  {
    if layers != [] && !s.failed {
      LayerFrame(s, env, layers[0], k);
      RunFrame(LayerStep(s, env, layers[0]), env, layers[1..], k);
    }
  }

  /** Layers whose node ids are pairwise disjoint. */
  predicate DisjointLayers(layers: seq<seq<Node>>)
  {
    forall i, j :: 0 <= i < j < |layers| ==> NodeIds(layers[i]) !! NodeIds(layers[j])
  }

  /**
   * A run over layers with distinct ids that ends without the failure flag has a SUCCESS record and
   * a context entry for every LLM, crop and extract node of every layer.
   */
  lemma {:induction false} RunSucceeds(s: State, env: Env, layers: seq<seq<Node>>)
    requires DisjointLayers(layers)
    ensures !Run(s, env, layers).failed ==>
      forall i, n :: 0 <= i < |layers| && n in layers[i] && IsActive(n.kind) ==> Succeeded(Run(s, env, layers), n.id)
    decreases |layers|
  {
    var r := Run(s, env, layers);
    if layers != [] && !s.failed && !r.failed {
      var s1 := LayerStep(s, env, layers[0]);
      var rest := layers[1..];
      assert r == Run(s1, env, rest);
      if s1.failed {
        RunFlagged(s1, env, rest);
      }
      assert DisjointLayers(rest) by {
        forall i, j | 0 <= i < j < |rest|
          ensures NodeIds(rest[i]) !! NodeIds(rest[j])
        {
          assert rest[i] == layers[i + 1] && rest[j] == layers[j + 1];
        }
      }
      RunSucceeds(s1, env, rest);
      LayerSucceeds(s, env, layers[0]);
      forall i, n | 0 <= i < |layers| && n in layers[i] && IsActive(n.kind)
        ensures Succeeded(r, n.id)
      {
        if i == 0 {
          assert n.id in NodeIds(layers[0]);
          forall j | 0 <= j < |rest|
            ensures n.id !in NodeIds(rest[j])
          {
            assert rest[j] == layers[j + 1];
          }
          RunFrame(s1, env, rest, n.id);
        } else {
          assert n in rest[i - 1];
        }
      }
    }
  }

  /** A node whose trigger throws in the first layer run unflagged fails the whole run. */
  lemma LaunchFailureFailsRun(s: State, env: Env, layers: seq<seq<Node>>, n: Node)
    requires !s.failed && layers != [] && n in layers[0]
    requires LaunchOf(Passives(s.ctx, layers[0]), env, n).fails
    ensures Run(s, env, layers).failed
  {
    var s1 := LayerStep(s, env, layers[0]);
    assert s1.failed;
    RunFlagged(s1, env, layers[1..]);
  }

  /** The ids of a layer are the ids it lists. */
  lemma NodeIdsOf(layer: seq<Node>)
    ensures forall x :: x in NodeIds(layer) <==> x in IdsOf(layer)
  {
    forall x | x in IdsOf(layer)
      ensures x in NodeIds(layer)
    {
      var j :| 0 <= j < |layer| && IdsOf(layer)[j] == x;
      assert layer[j] in layer;
    }
  }

  /** The planner's layers have pairwise disjoint ids. */
  lemma PlannedDisjoint(nodes: seq<Node>, edges: seq<Edge>, layers: seq<seq<Node>>)
    requires Planned(Links(nodes, edges), Ids(nodes), LayerIds(layers))
    ensures DisjointLayers(layers)
  {
    var links, order, plan := Links(nodes, edges), Ids(nodes), LayerIds(layers);
    ArenaOf(nodes, edges);
    PlanLayered(links, order, plan);
    forall i, j | 0 <= i < j < |layers|
      ensures NodeIds(layers[i]) !! NodeIds(layers[j])
    {
      NodeIdsOf(layers[i]);
      NodeIdsOf(layers[j]);
      forall v | v in NodeIds(layers[i])
        ensures v !in NodeIds(layers[j])
      {
        AtMostOnce(links, order, plan, i, j, v);
      }
    }
  }

  /**
   * On an acyclic graph, if every active node of every layer succeeded, then so did every LLM,
   * crop and extract node of the graph (the first node listed under each id).
   */
  lemma CompletedCoversGraph(nodes: seq<Node>, edges: seq<Edge>, layers: seq<seq<Node>>, s: State)
    requires Planned(Links(nodes, edges), Ids(nodes), LayerIds(layers))
    requires forall k, n :: 0 <= k < |layers| && n in layers[k] ==> Find(nodes, n.id) == Some(n)
    requires Acyclic(Links(nodes, edges))
    requires forall i, n :: 0 <= i < |layers| && n in layers[i] && IsActive(n.kind) ==> Succeeded(s, n.id)
    ensures forall n :: n in nodes && Find(nodes, n.id) == Some(n) && IsActive(n.kind) ==> Succeeded(s, n.id)
  {
    forall n | n in nodes && Find(nodes, n.id) == Some(n) && IsActive(n.kind)
      ensures Succeeded(s, n.id)
    {
      assert n.id in Known(nodes);
      var m, j := PlacedIn(nodes, edges, layers, n.id);
      var x := layers[m][j];
      assert x in layers[m];
      assert Find(nodes, x.id) == Some(x);
      assert x == n;
    }
  }

  /** On an acyclic graph every node id is placed in some layer. */
  lemma PlacedIn(nodes: seq<Node>, edges: seq<Edge>, layers: seq<seq<Node>>, v: string) returns (m: nat, j: nat)
    requires Planned(Links(nodes, edges), Ids(nodes), LayerIds(layers))
    requires Acyclic(Links(nodes, edges))
    requires v in Known(nodes)
    ensures m < |layers| && j < |layers[m]| && layers[m][j].id == v
  {
    var links, order, plan := Links(nodes, edges), Ids(nodes), LayerIds(layers);
    ArenaOf(nodes, edges);
    DagComplete(links, order, plan);
    IdsFacts(nodes);
    assert v in Elems(order);
    BeforeMember(plan, |plan|, v);
    m :| 0 <= m < |plan| && v in plan[m];
    j :| 0 <= j < |layers[m]| && IdsOf(layers[m])[j] == v;
  }

  // ---------------------------------------------------------------------------------------------
  // Loading the graph and the whole run

  /** The graph data stored with a workflow: its `nodes` and `edges`, `None` when missing. */
  datatype Stored = Stored(nodes: Option<seq<Node>>, edges: Option<seq<Edge>>)

  /** The graph a run executes. */
  datatype Loaded = Loaded(nodes: seq<Node>, edges: seq<Edge>)

  /** The name prefix of a demo workflow; the rest of the name is the demo's id. */
  const DemoNamePrefix := "Demo Workflow - "

  /**
   * The graph of a run: for a workflow named `Demo Workflow - <id>`, the demo graph with that id
   * (an empty graph when there is none); for any other workflow, its stored nodes and edges, each
   * empty when missing.
   */
  function LoadGraph(name: string, stored: Stored): (g: Loaded)
    ensures StartsWith(name, DemoNamePrefix) && name[|DemoNamePrefix|..] == DemoWorkflowId ==> g == Loaded(DemoNodes(), DemoEdges())
    ensures StartsWith(name, DemoNamePrefix) && name[|DemoNamePrefix|..] != DemoWorkflowId ==> g == Loaded([], [])
    ensures !StartsWith(name, DemoNamePrefix) ==>
      g.nodes == (if stored.nodes.Some? then stored.nodes.value else []) &&
      g.edges == (if stored.edges.Some? then stored.edges.value else [])
  {
    if StartsWith(name, DemoNamePrefix) then
      match FindDemo(name[|DemoNamePrefix|..])
      case Some(d) => Loaded(d.nodes, d.edges)
      case None => Loaded([], [])
    else
      Loaded(if stored.nodes.Some? then stored.nodes.value else [], if stored.edges.Some? then stored.edges.value else [])
  }

  /**
   * A whole run: load the graph, plan its layers, execute them, and end FAILED when the run was
   * flagged and COMPLETED otherwise. A COMPLETED run has a SUCCESS record and a context entry for
   * every LLM, crop and extract node it planned, and, on an acyclic graph, for every such node.
   */
  method Orchestrate(name: string, stored: Stored, rejected: set<string>, poll: Task -> Outcome)
    returns (layers: seq<seq<Node>>, s: State, status: string)
    ensures Planned(Links(LoadGraph(name, stored).nodes, LoadGraph(name, stored).edges), Ids(LoadGraph(name, stored).nodes), LayerIds(layers))
    ensures s == Run(Initial(), Env(LoadGraph(name, stored).edges, rejected, poll), layers)
    ensures status == "COMPLETED" <==> !s.failed
    ensures status == "FAILED" <==> s.failed
    ensures status == "COMPLETED" ==>
      forall i, n :: 0 <= i < |layers| && n in layers[i] && IsActive(n.kind) ==> Succeeded(s, n.id)
    ensures status == "COMPLETED" && Acyclic(Links(LoadGraph(name, stored).nodes, LoadGraph(name, stored).edges)) ==>
      forall n :: n in LoadGraph(name, stored).nodes && Find(LoadGraph(name, stored).nodes, n.id) == Some(n) && IsActive(n.kind) ==> Succeeded(s, n.id)
  {
    var g := LoadGraph(name, stored);
    layers := ExecutionLayers(g.nodes, g.edges);
    var env := Env(g.edges, rejected, poll);
    s := ExecuteLayers(env, layers);
    if s.failed {
      status := "FAILED";
    } else {
      status := "COMPLETED";
      PlannedDisjoint(g.nodes, g.edges, layers);
      RunSucceeds(Initial(), env, layers);
      if Acyclic(Links(g.nodes, g.edges)) {
        CompletedCoversGraph(g.nodes, g.edges, layers, s);
      }
    }
  }

  // ---------------------------------------------------------------------------------------------
  // The second poll loop as written

  /**
   * The second poll loop as it stands: a completed LLM task's whole output becomes the context text
   * (`{ text: result.output }`), so the write reads no field and cannot throw; every other case
   * is the first loop's.
   */
  function SecondPollEffectAsWritten(t: Task, o: Outcome): (e: Effect)
    ensures t.kind == LlmTask && o.status == Completed ==> !e.fails && e.write == Some(TextEntry(o.output))
    ensures !(t.kind == LlmTask && o.status == Completed) ==> e == PollEffect(t, o)
  {
    if t.kind == LlmTask && o.status == Completed then Effect(Some(TextEntry(o.output)), Success(o.output), false)
    else PollEffect(t, o)
  }

  /** A prompt edge from a node whose context text is `v` (truthy) gives the LLM input `"\n[Context]: " + String(v)`. */
  lemma ForwardedText(src: string, v: Value, e: Edge)
    requires Truthy(v) && e.source == src && !IsSystem(e)
    ensures Aggregated(map[src := TextEntry(v)], [e]) == "\n[Context]: " + Text(v)
  {
    var ctx := map[src := TextEntry(v)];
    OneEdge(ctx, e);
    AggregatedForm(ctx, [e]);
  }

  /**
   * An LLM answer `{ text: "Hi" }`: the first loop hands `"Hi"` to a downstream prompt, the second
   * loop as written hands it `"[object Object]"`.
   */
  lemma SecondPassLeaksObject()
    ensures var t := Task("llm-1", LlmTask, LlmJob(Str("Analyze this."), "", [], Str("gemini-1.5-flash"), Undefined));
            var o := Outcome(Completed, Object(map["text" := Str("Hi")]));
            var e := Edge("llm-1", "llm-2", Some("prompt"));
            && PollEffect(t, o).write == Some(TextEntry(Str("Hi")))
            && Aggregated(map["llm-1" := PollEffect(t, o).write.value], [e]) == "\n[Context]: " + "Hi"
            && SecondPollEffectAsWritten(t, o).write == Some(TextEntry(o.output))
            && Aggregated(map["llm-1" := SecondPollEffectAsWritten(t, o).write.value], [e]) == "\n[Context]: " + "[object Object]"
  {
    var o := Object(map["text" := Str("Hi")]);
    var e := Edge("llm-1", "llm-2", Some("prompt"));
    ForwardedText("llm-1", Str("Hi"), e);
    ForwardedText("llm-1", o, e);
  }

  /** A completed LLM task without output is FAILED by the first loop and SUCCESS after the second loop as written. */
  lemma SecondPassHidesFailure(t: Task)
    requires t.kind == LlmTask
    ensures PollEffect(t, Outcome(Completed, Undefined)) == Effect(None, Failure, true)
    ensures SecondPollEffectAsWritten(t, Outcome(Completed, Undefined)) == Effect(Some(TextEntry(Undefined)), Success(Undefined), false)
  {
  }

  // ---------------------------------------------------------------------------------------------
  // The layer as written, with its second poll loop

  /** The second poll loop as written: each task's as-written effect applied in turn. */
  function RePolled(s: State, ts: seq<Task>, poll: Task -> Outcome): State
    decreases |ts|
  {
    if ts == [] then s
    else
      var t := ts[|ts| - 1];
      Apply(RePolled(s, ts[..|ts| - 1], poll), t, SecondPollEffectAsWritten(t, poll(t)))
  }

  /** The second poll loop, task by task, with `{ text: result.output }` for a completed LLM task. */
  method SecondPollPhase(s: State, ts: seq<Task>, poll: Task -> Outcome) returns (r: State)
    ensures r == RePolled(s, ts, poll)
  {
    r := s;
    for i := 0 to |ts|
      invariant r == RePolled(s, ts[..i], poll)
    {
      var t := ts[i];
      var o := poll(t);
      assert ts[..i + 1][..i] == ts[..i];
      EffectBranches(t, o);
      if o.status == Completed && t.kind == LlmTask {
        r := r.(ctx := r.ctx[t.node := TextEntry(o.output)], records := r.records[t.node := Success(o.output)]);
      } else if o.status == Completed && o.output != Undefined && o.output != Null {
        r := r.(ctx := r.ctx[t.node := ImagesEntry([OptProp(o.output, "url")])], records := r.records[t.node := Success(o.output)]);
      } else {
        r := r.(records := r.records[t.node := Failure], failed := true);
      }
    }
    assert ts[..|ts|] == ts;
  }

  /** One layer as written: passive writes, the trigger phase, the first poll loop, then the second one as it stands. */
  function LayerStepAsWritten(s: State, env: Env, layer: seq<Node>): State
  {
    var ctx := Passives(s.ctx, layer);
    var b := Launches(ctx, env, layer);
    var s1 := State(ctx, s.records + b.records, s.failed || b.fails);
    RePolled(Polled(s1, b.tasks, env.poll), b.tasks, env.poll)
  }

  /** One iteration of the layer loop as written. */
  method ExecuteLayerAsWritten(s: State, env: Env, layer: seq<Node>) returns (r: State)
    ensures r == LayerStepAsWritten(s, env, layer)
  {
    var ctx := PassivePhase(s.ctx, layer);
    var b := TriggerPhase(ctx, env, layer);
    r := State(ctx, s.records + b.records, s.failed || b.fails);
    r := PollPhase(r, b.tasks, env.poll);
    r := SecondPollPhase(r, b.tasks, env.poll);
  }

  /** The layers in order as written, stopping before the first layer met with the run already flagged. */
  function RunAsWritten(s: State, env: Env, layers: seq<seq<Node>>): State
    decreases |layers|
  {
    if layers == [] || s.failed then s else RunAsWritten(LayerStepAsWritten(s, env, layers[0]), env, layers[1..])
  }

  /** The layer loop as written, which breaks once the run is flagged. */
  method ExecuteLayersAsWritten(env: Env, layers: seq<seq<Node>>) returns (s: State)
    ensures s == RunAsWritten(Initial(), env, layers)
  {
    s := Initial();
    var i := 0;
    while i < |layers|
      invariant i <= |layers|
      invariant RunAsWritten(Initial(), env, layers) == RunAsWritten(s, env, layers[i..])
    {
      if s.failed {
        break;
      }
      assert layers[i..][1..] == layers[i + 1..];
      s := ExecuteLayerAsWritten(s, env, layers[i]);
      i := i + 1;
    }
    if i == |layers| {
      assert layers[i..] == [];
    }
  }

  /** The nodes of the LLM tasks of a list. */
  function LlmNodes(ts: seq<Task>): set<string>
  {
    set t | t in ts && t.kind == LlmTask :: t.node
  }

  /** The second loop as written flags the run exactly when the state was flagged or some task's as-written poll fails. */
  lemma {:induction false} RePolledFlag(s: State, ts: seq<Task>, poll: Task -> Outcome)
    ensures RePolled(s, ts, poll).failed <==> s.failed || exists t :: t in ts && SecondPollEffectAsWritten(t, poll(t)).fails
    decreases |ts|
  {
    if ts != [] {
      var front, t := ts[..|ts| - 1], ts[|ts| - 1];
      RePolledFlag(s, front, poll);
      assert forall u :: u in ts <==> u in front || u == t;
    }
  }

  /** Away from the LLM tasks' nodes, the second loop as written does what the first loop does. */
  lemma {:induction false} RePolledAt(s: State, ts: seq<Task>, poll: Task -> Outcome, k: string)
    requires k !in LlmNodes(ts)
    ensures SameAt(Polled(s, ts, poll), RePolled(s, ts, poll), k)
    decreases |ts|
  {
    if ts == [] {
      assert Polls(ts, poll).records == map[] && Polls(ts, poll).ctx == map[];
      assert Polled(s, ts, poll).ctx == s.ctx && Polled(s, ts, poll).records == s.records;
    } else {
      var n := |ts| - 1;
      var front, t := ts[..n], ts[n];
      assert LlmNodes(front) <= LlmNodes(ts);
      RePolledAt(s, front, poll, k);
      PolledStep(s, ts, poll, n);
      assert ts[..n + 1] == ts;
      if t.node == k {
        assert t.kind != LlmTask;
        assert SecondPollEffectAsWritten(t, poll(t)) == PollEffect(t, poll(t));
      }
    }
  }

  /**
   * The layer as written ends with the same failure flag as the modelled layer, and leaves the
   * same context entry and record for every node that is not an LLM task's.
   */
  lemma AsWrittenLayerAgrees(s: State, env: Env, layer: seq<Node>, k: string)
    ensures LayerStepAsWritten(s, env, layer).failed == LayerStep(s, env, layer).failed
    ensures k !in LlmNodes(Launches(Passives(s.ctx, layer), env, layer).tasks) ==>
      SameAt(LayerStep(s, env, layer), LayerStepAsWritten(s, env, layer), k)
  {
    var ctx := Passives(s.ctx, layer);
    var b := Launches(ctx, env, layer);
    var s1 := State(ctx, s.records + b.records, s.failed || b.fails);
    var x := Polled(s1, b.tasks, env.poll);
    PolledIdempotent(s1, b.tasks, env.poll);
    RePolledFlag(x, b.tasks, env.poll);
    if exists t :: t in b.tasks && SecondPollEffectAsWritten(t, env.poll(t)).fails {
      var t :| t in b.tasks && SecondPollEffectAsWritten(t, env.poll(t)).fails;
      assert PollEffect(t, env.poll(t)).fails;
    }
    if k !in LlmNodes(b.tasks) {
      RePolledAt(x, b.tasks, env.poll, k);
    }
  }
}
