/**
 * The orchestrator's execution-layer planner: Kahn's topological sort emitting one layer of
 * mutually independent nodes at a time. The in-degree and adjacency maps are JavaScript `Map`s;
 * their key order (insertion order) is kept as `order`.
 */
module LayerPlanner {
  import opened Graph
  import opened LayerSpec

  /** `ids.map(id => nodes.find(n => n.id === id)).filter(n => !!n)`. */
  function NodesOf(nodes: seq<Node>, ids: seq<string>): seq<Node>
  {
    if ids == [] then []
    else
      var front := NodesOf(nodes, ids[..|ids| - 1]);
      match Find(nodes, ids[|ids| - 1])
      case Some(n) => front + [n]
      case None => front
  }

  /** Looking up known ids gives one node per id, each the first node carrying it. */
  lemma {:induction false} NodesOfFacts(nodes: seq<Node>, ids: seq<string>)
    ensures Elems(ids) <= Known(nodes) ==> IdsOf(NodesOf(nodes, ids)) == ids
    ensures forall n :: n in NodesOf(nodes, ids) ==> n in nodes && Find(nodes, n.id) == Some(n)
  {
    if ids != [] {
      var front := ids[..|ids| - 1];
      NodesOfFacts(nodes, front);
      assert Elems(ids) == Elems(front) + {ids[|ids| - 1]} by {
        assert ids == front + [ids[|ids| - 1]];
      }
    }
  }

  /** The ids of each layer. */
  function LayerIds(layers: seq<seq<Node>>): (r: seq<seq<string>>)
    ensures |r| == |layers| && forall k :: 0 <= k < |layers| ==> r[k] == IdsOf(layers[k])
  {
    seq(|layers|, k requires 0 <= k < |layers| => IdsOf(layers[k]))
  }

  /**
   * Init: every node id gets in-degree 0 and an empty adjacency list; `order` is the maps' key
   * order (a repeated id keeps the position of its first insertion).
   */
  method InitMaps(nodes: seq<Node>) returns (order: seq<string>, deg: map<string, int>, adj: map<string, seq<string>>)
    ensures order == Ids(nodes)
    ensures deg.Keys == Elems(order) && adj.Keys == Elems(order)
    ensures forall v :: v in deg ==> deg[v] == 0 && adj[v] == []
  {
    order, deg, adj := [], map[], map[];
    var i := 0;
    while i < |nodes|
      invariant 0 <= i <= |nodes|
      invariant order == Ids(nodes[..i])
      invariant deg.Keys == Elems(order) && adj.Keys == Elems(order)
      invariant forall v :: v in deg ==> deg[v] == 0 && adj[v] == []
    {
      IdsStep(nodes, i);
      if nodes[i].id !in deg {
        ElemsAppend(order, nodes[i].id);
        order := order + [nodes[i].id];
      }
      deg := deg[nodes[i].id := 0];
      adj := adj[nodes[i].id := []];
      i := i + 1;
    }
    assert nodes[..|nodes|] == nodes;
  }

  /**
   * The in-degree map: for every known node, the occurrences of it still to be consumed in `rest`
   * plus its links from nodes outside `walked`, counted one link and one occurrence at a time as the
   * planner does.
   */
  ghost function Degrees(links: seq<Link>, known: set<string>, walked: set<string>, rest: seq<string>): (r: map<string, int>)
    ensures r.Keys == known
    decreases |rest|, |links|
  {
    if rest != [] then
      var d := Degrees(links, known, walked, rest[1..]);
      if rest[0] in d then d[rest[0] := d[rest[0]] + 1] else d
    else if links == [] then map v | v in known :: 0
    else
      var d := Degrees(links[..|links| - 1], known, walked, []);
      var l := links[|links| - 1];
      if l.1 in d && l.0 !in walked then d[l.1 := d[l.1] + 1] else d
  }

  /** Each known node's entry counts its remaining occurrences and its pending links. */
  lemma {:induction false} DegreesAt(links: seq<Link>, known: set<string>, walked: set<string>, rest: seq<string>, v: string)
    requires forall w :: w in rest ==> w in known
    ensures v in known ==> Degrees(links, known, walked, rest)[v] == multiset(rest)[v] + Pending(links, walked, v)
    decreases |rest|, |links|
  {
    if rest != [] {
      DegreesAt(links, known, walked, rest[1..], v);
      assert rest == [rest[0]] + rest[1..];
    } else if links != [] {
      DegreesAt(links[..|links| - 1], known, walked, [], v);
    }
  }

  /** The adjacency map, built one link at a time. */
  ghost function Adjacency(links: seq<Link>, known: set<string>): (r: map<string, seq<string>>)
    ensures r.Keys == known
  {
    if links == [] then map u | u in known :: []
    else
      var a := Adjacency(links[..|links| - 1], known);
      var l := links[|links| - 1];
      if l.0 in a then a[l.0 := a[l.0] + [l.1]] else a
  }

  /** The adjacency map holds the adjacency list of every known node. */
  lemma {:induction false} AdjacencyAt(links: seq<Link>, known: set<string>, u: string)
    ensures u in known ==> Adjacency(links, known)[u] == Targets(links, u)
  {
    if links != [] {
      AdjacencyAt(links[..|links| - 1], known, u);
    }
  }

  /** Counting one more link raises its target's in-degree by one. */
  lemma DegreesAppend(links: seq<Link>, known: set<string>, l: Link, d: map<string, int>)
    requires l.1 in known && d == Degrees(links, known, {}, [])
    ensures d[l.1 := d[l.1] + 1] == Degrees(links + [l], known, {}, [])
  {
    assert (links + [l])[..|links|] == links;
  }

  /** Counting one more link appends its target to its source's adjacency list. */
  lemma AdjacencyAppend(links: seq<Link>, known: set<string>, l: Link, a: map<string, seq<string>>)
    requires l.0 in known && a == Adjacency(links, known)
    ensures a[l.0 := a[l.0] + [l.1]] == Adjacency(links + [l], known)
  {
    assert (links + [l])[..|links|] == links;
  }

  /** Starting the walk of `u`: its adjacency list becomes what remains to be consumed. */
  lemma DegreesWalk(links: seq<Link>, known: set<string>, walked: set<string>, u: string)
    requires u !in walked
    requires forall l :: l in links ==> l.1 in known
    ensures Degrees(links, known, walked, []) == Degrees(links, known, walked + {u}, Targets(links, u))
  {
    var ts := Targets(links, u);
    forall v | v in ts
      ensures v in known
    {
      TargetsMember(links, u, v);
    }
    var before := Degrees(links, known, walked, []);
    var after := Degrees(links, known, walked + {u}, ts);
    forall v | v in known
      ensures before[v] == after[v]
    {
      DegreesAt(links, known, walked, [], v);
      DegreesAt(links, known, walked + {u}, ts, v);
      PendingStep(links, walked, u, v);
    }
    DegreesAt(links, known, walked, [], u);
    DegreesAt(links, known, walked + {u}, ts, u);
  }

  /**
   * Consuming one occurrence of `nb` lowers its count by one; the count reaches 0 exactly at its
   * last occurrence when all its predecessors are walked, which is where `Keep` emits it.
   */
  lemma DegreesConsume(links: seq<Link>, known: set<string>, walked: set<string>, ts: seq<string>, j: nat,
                       d: map<string, int>)
    requires j < |ts| && forall w :: w in ts ==> w in known
    requires d == Degrees(links, known, walked, ts[j..])
    ensures d[ts[j] := d[ts[j]] - 1] == Degrees(links, known, walked, ts[j + 1..])
    ensures Keep(links, walked, ts, j + 1) ==
            Keep(links, walked, ts, j) + (if d[ts[j]] - 1 == 0 then [ts[j]] else [])
  {
    var nb := ts[j];
    var rest := ts[j + 1..];
    assert ts[j..][1..] == rest;
    DegreesAt(links, known, walked, rest, nb);
    var m := Degrees(links, known, walked, rest);
    assert d == m[nb := m[nb] + 1];
    assert d[nb := d[nb] - 1] == m;
    assert nb !in rest <==> multiset(rest)[nb] == 0;
    PendingZero(links, walked, nb);
  }

  /**
   * Build: each edge whose two ends are known appends its target to its source's adjacency list
   * and adds one to its target's in-degree; other edges are ignored.
   */
  method BuildMaps(ghost known: set<string>, edges: seq<Edge>, deg0: map<string, int>, adj0: map<string, seq<string>>)
    returns (deg: map<string, int>, adj: map<string, seq<string>>)
    requires deg0 == Degrees([], known, {}, []) && adj0 == Adjacency([], known)
    ensures deg == Degrees(LinksOf(known, edges), known, {}, []) && adj == Adjacency(LinksOf(known, edges), known)
  {
    deg, adj := deg0, adj0;
    ghost var links: seq<Link> := [];
    var e := 0;
    while e < |edges|
      invariant 0 <= e <= |edges|
      invariant links == LinksOf(known, edges[..e])
      invariant deg == Degrees(links, known, {}, []) && adj == Adjacency(links, known)
    {
      LinksOfStep(known, edges, e);
      deg, adj, links := CountEdge(known, links, edges[e], deg, adj);
      e := e + 1;
    }
    assert edges[..|edges|] == edges;
  }

  /**
   * One edge of the build: an edge whose two ends are known appends its target to its source's
   * adjacency list and adds one to its target's in-degree; any other edge is ignored.
   */
  method CountEdge(ghost known: set<string>, ghost links: seq<Link>, edge: Edge, deg0: map<string, int>, adj0: map<string, seq<string>>)
    returns (deg: map<string, int>, adj: map<string, seq<string>>, ghost links': seq<Link>)
    requires deg0 == Degrees(links, known, {}, []) && adj0 == Adjacency(links, known)
    ensures links' == links + (if edge.source in known && edge.target in known then [(edge.source, edge.target)] else [])
    ensures deg == Degrees(links', known, {}, []) && adj == Adjacency(links', known)
  {
    deg, adj, links' := deg0, adj0, links;
    if edge.source in adj && edge.target in adj {
      DegreesAppend(links, known, (edge.source, edge.target), deg);
      AdjacencyAppend(links, known, (edge.source, edge.target), adj);
      adj := adj[edge.source := adj[edge.source] + [edge.target]];
      deg := deg[edge.target := deg[edge.target] + 1];
      links' := links + [(edge.source, edge.target)];
    } else {
      assert links + [] == links;
    }
  }

  lemma LinksOfStep(known: set<string>, edges: seq<Edge>, e: nat)
    requires e < |edges|
    ensures LinksOf(known, edges[..e + 1]) == LinksOf(known, edges[..e]) +
              (if edges[e].source in known && edges[e].target in known then [(edges[e].source, edges[e].target)] else [])
  {
    assert edges[..e + 1][..e] == edges[..e];
  }

  /** Layer 0: the ids whose in-degree is 0, in key order. */
  method StartLayer(ghost links: seq<Link>, ghost known: set<string>, order: seq<string>, deg: map<string, int>)
    returns (queue: seq<string>)
    requires forall v :: v in order ==> v in known
    requires deg == Degrees(links, known, {}, [])
    ensures queue == Sources(links, order)
  {
    queue := [];
    var i := 0;
    while i < |order|
      invariant 0 <= i <= |order|
      invariant queue == Sources(links, order[..i])
    {
      assert order[..i + 1] == order[..i] + [order[i]];
      PendingZero(links, {}, order[i]);
      DegreesAt(links, known, {}, [], order[i]);
      if deg[order[i]] == 0 {
        queue := queue + [order[i]];
      }
      i := i + 1;
    }
    assert order[..|order|] == order;
  }

  /**
   * Walks the adjacency list `ts` of one node: each neighbour's in-degree drops by one and the
   * neighbour is queued when it reaches 0, which happens at its last occurrence in `ts` exactly
   * when all its predecessors have been walked.
   */
  method WalkNeighbours(ghost links: seq<Link>, ghost known: set<string>, ghost walked: set<string>, ts: seq<string>,
                        deg0: map<string, int>, queue0: seq<string>)
    returns (deg: map<string, int>, queue: seq<string>)
    requires forall v :: v in ts ==> v in known
    requires deg0 == Degrees(links, known, walked, ts)
    ensures deg == Degrees(links, known, walked, [])
    ensures queue == queue0 + Keep(links, walked, ts, |ts|)
  {
    deg, queue := deg0, queue0;
    var j := 0;
    ghost var kept: seq<string> := [];
    assert ts[0..] == ts;
    while j < |ts|
      invariant 0 <= j <= |ts|
      invariant deg == Degrees(links, known, walked, ts[j..])
      invariant kept == Keep(links, walked, ts, j) && queue == queue0 + kept
    {
      var nb := ts[j];
      DegreesConsume(links, known, walked, ts, j, deg);
      deg := deg[nb := deg[nb] - 1];
      if deg[nb] == 0 {
        assert queue0 + kept + [nb] == queue0 + (kept + [nb]);
        queue := queue + [nb];
        kept := kept + [nb];
      } else {
        assert kept + [] == kept;
      }
      j := j + 1;
    }
    assert ts[|ts|..] == [];
  }

  /** Walking the node at position `c` of the current layer, in the terms `WalkNeighbours` expects. */
  lemma WalkLayerStep(links: seq<Link>, known: set<string>, done: set<string>, current: seq<string>, c: nat)
    requires forall l :: l in links ==> l.1 in known
    requires c < |current| && NoDup(current) && current[c] !in done
    ensures Degrees(links, known, done + Elems(current[..c]), []) ==
            Degrees(links, known, done + Elems(current[..c + 1]), Targets(links, current[c]))
    ensures forall v :: v in Targets(links, current[c]) ==> v in known
    ensures Next(links, done, current, c + 1) ==
            Next(links, done, current, c) + Keep(links, done + Elems(current[..c + 1]), Targets(links, current[c]), |Targets(links, current[c])|)
  {
    var id := current[c];
    assert done + Elems(current[..c + 1]) == done + Elems(current[..c]) + {id} by {
      assert current[..c + 1] == current[..c] + [id];
    }
    NotInPrefix(current, c);
    DegreesWalk(links, known, done + Elems(current[..c]), id);
    forall v | v in Targets(links, id)
      ensures v in known
    {
      TargetsMember(links, id, v);
    }
  }

  /** Walks every node of the current layer in order, collecting the next layer. */
  method WalkLayer(ghost links: seq<Link>, ghost known: set<string>, adj: map<string, seq<string>>,
                   ghost done: set<string>, current: seq<string>, deg0: map<string, int>)
    returns (deg: map<string, int>, queue: seq<string>)
    requires forall l :: l in links ==> l.1 in known
    requires adj == Adjacency(links, known)
    requires deg0 == Degrees(links, known, done, [])
    requires NoDup(current) && forall v :: v in current ==> v in known && v !in done
    ensures deg == Degrees(links, known, done + Elems(current), [])
    ensures queue == NextLayer(links, done, current)
  {
    deg, queue := deg0, [];
    var c := 0;
    ghost var walked := done;
    assert current[..0] == [];
    while c < |current|
      invariant 0 <= c <= |current|
      invariant walked == done + Elems(current[..c])
      invariant deg == Degrees(links, known, walked, [])
      invariant queue == Next(links, done, current, c)
    {
      var id := current[c];
      var ts := adj[id];
      AdjacencyAt(links, known, id);
      WalkLayerStep(links, known, done, current, c);
      walked := done + Elems(current[..c + 1]);
      deg, queue := WalkNeighbours(links, known, walked, ts, deg, queue);
      c := c + 1;
    }
    assert current[..|current|] == current;
  }

  /**
   * The state of the main loop: `plan` holds the layers emitted so far, `done` their ids, and
   * `queue` the layer to emit next (`PlanState`), made of known nodes outside `done`, every node in
   * `done` or in `queue` having all its predecessors in `done` (`Frontier`).
   */
  ghost predicate Walking(links: seq<Link>, known: set<string>, order: seq<string>,
                          plan: seq<seq<string>>, done: set<string>, queue: seq<string>)
  {
    PlanState(links, order, plan, done, queue) && Frontier(links, known, done, queue)
  }

  ghost predicate PlanState(links: seq<Link>, order: seq<string>, plan: seq<seq<string>>, done: set<string>, queue: seq<string>)
  {
    && PlanPrefix(links, order, plan)
    && done == Before(plan, |plan|)
    && (plan == [] ==> queue == Sources(links, order))
    && (plan != [] ==> queue == NextLayer(links, Before(plan, |plan| - 1), plan[|plan| - 1]))
  }

  ghost predicate Frontier(links: seq<Link>, known: set<string>, done: set<string>, queue: seq<string>)
  {
    && done <= known
    && NoDup(queue)
    && (forall v :: v in queue ==> v in known && v !in done)
    && (forall w :: w in done + Elems(queue) ==> PredsIn(links, done, w))
  }

  lemma WalkingStart(links: seq<Link>, known: set<string>, order: seq<string>)
    requires NoDup(order) && Elems(order) <= known
    ensures Walking(links, known, order, [], {}, Sources(links, order))
  {
    SourcesFacts(links, order);
  }

  /** Emitting the queued layer and walking it keeps the loop state. */
  lemma WalkingStep(links: seq<Link>, known: set<string>, order: seq<string>,
                    plan: seq<seq<string>>, done: set<string>, queue: seq<string>)
    requires forall l :: l in links ==> l.1 in known
    requires Walking(links, known, order, plan, done, queue) && queue != []
    ensures Walking(links, known, order, plan + [queue], done + Elems(queue), NextLayer(links, done, queue))
    ensures done < done + Elems(queue) <= known
  {
    PlanStateStep(links, order, plan, done, queue);
    FrontierStep(links, known, done, queue);
  }

  lemma PlanStateStep(links: seq<Link>, order: seq<string>, plan: seq<seq<string>>, done: set<string>, queue: seq<string>)
    requires PlanState(links, order, plan, done, queue) && queue != []
    ensures PlanState(links, order, plan + [queue], done + Elems(queue), NextLayer(links, done, queue))
  {
    PlanPrefixExtend(links, order, plan, queue);
  }

  lemma FrontierStep(links: seq<Link>, known: set<string>, done: set<string>, queue: seq<string>)
    requires forall l :: l in links ==> l.1 in known
    requires Frontier(links, known, done, queue) && queue != []
    ensures Frontier(links, known, done + Elems(queue), NextLayer(links, done, queue))
    ensures done < done + Elems(queue) <= known
  {
    var done' := done + Elems(queue);
    var next := NextLayer(links, done, queue);
    NextLayerFacts(links, known, done, queue);
    assert queue[0] in Elems(queue) - done;
    forall w | w in done' + Elems(next)
      ensures PredsIn(links, done', w)
    {
      if w in done' {
        PredsInMono(links, done, done', w);
      }
    }
  }

  lemma WalkingDone(links: seq<Link>, known: set<string>, order: seq<string>, plan: seq<seq<string>>, done: set<string>)
    requires Walking(links, known, order, plan, done, [])
    ensures Planned(links, order, plan)
  {
  }

  /** Each emitted layer holds known ids, so looking its nodes up gives back exactly those ids. */
  lemma LayerNodes(nodes: seq<Node>, plan: seq<seq<string>>, layers: seq<seq<Node>>)
    requires Before(plan, |plan|) <= Known(nodes)
    requires |layers| == |plan| && forall k :: 0 <= k < |plan| ==> layers[k] == NodesOf(nodes, plan[k])
    ensures LayerIds(layers) == plan
    ensures forall k, n :: 0 <= k < |layers| && n in layers[k] ==> Find(nodes, n.id) == Some(n)
  {
    forall k | 0 <= k < |plan|
      ensures IdsOf(layers[k]) == plan[k]
      ensures forall n :: n in layers[k] ==> Find(nodes, n.id) == Some(n)
    {
      BeforeMono(plan, k + 1, |plan|);
      NodesOfFacts(nodes, plan[k]);
    }
  }

  /** Emitting the nodes of one more layer keeps the emitted layers in step with the id layers. */
  lemma LayersStep(nodes: seq<Node>, plan: seq<seq<string>>, layers: seq<seq<Node>>, current: seq<string>)
    requires |layers| == |plan| && forall k :: 0 <= k < |plan| ==> layers[k] == NodesOf(nodes, plan[k])
    ensures var plan', layers' := plan + [current], layers + [NodesOf(nodes, current)];
      |layers'| == |plan'| && forall k :: 0 <= k < |plan'| ==> layers'[k] == NodesOf(nodes, plan'[k])
  {
  }

  /**
   * The main loop: emit the queued layer, then walk it to collect the next one, until a walk
   * collects nothing.
   */
  method EmitLayers(nodes: seq<Node>, ghost links: seq<Link>, ghost order: seq<string>,
                    adj: map<string, seq<string>>, deg0: map<string, int>, queue0: seq<string>)
    returns (layers: seq<seq<Node>>)
    requires forall l :: l in links ==> l.1 in Known(nodes)
    requires adj == Adjacency(links, Known(nodes))
    requires deg0 == Degrees(links, Known(nodes), {}, [])
    requires Walking(links, Known(nodes), order, [], {}, queue0)
    ensures Planned(links, order, LayerIds(layers))
    ensures forall k, n :: 0 <= k < |layers| && n in layers[k] ==> Find(nodes, n.id) == Some(n)
  {
    ghost var known := Known(nodes);
    var deg, queue := deg0, queue0;
    layers := [];
    ghost var plan: seq<seq<string>> := [];
    ghost var done: set<string> := {};
    while |queue| > 0
      invariant deg == Degrees(links, known, done, [])
      invariant Walking(links, known, order, plan, done, queue)
      invariant |layers| == |plan|
      invariant forall k :: 0 <= k < |plan| ==> layers[k] == NodesOf(nodes, plan[k])
      decreases known - done
    {
      var current := queue;
      LayersStep(nodes, plan, layers, current);
      layers := layers + [NodesOf(nodes, current)];
      deg, queue := WalkLayer(links, known, adj, done, current, deg);
      WalkingStep(links, known, order, plan, done, current);
      plan := plan + [current];
      done := done + Elems(current);
    }
    WalkingDone(links, known, order, plan, done);
    LayerNodes(nodes, plan, layers);
  }

  /**
   * The layers of the workflow: the ids of each layer are exactly what the layered Kahn walk
   * specified by `Planned` emits, and each node is the first node carrying its id.
   */
  method ExecutionLayers(nodes: seq<Node>, edges: seq<Edge>) returns (layers: seq<seq<Node>>)
    ensures Planned(Links(nodes, edges), Ids(nodes), LayerIds(layers))
    ensures forall k, n :: 0 <= k < |layers| && n in layers[k] ==> Find(nodes, n.id) == Some(n)
  {
    ghost var known := Known(nodes);
    ghost var links := Links(nodes, edges);
    LinksOfKnown(known, edges);
    var order, deg, adj := InitMaps(nodes);
    IdsFacts(nodes);
    assert deg == Degrees([], known, {}, []) && adj == Adjacency([], known);
    deg, adj := BuildMaps(known, edges, deg, adj);
    var queue := StartLayer(links, known, order, deg);
    WalkingStart(links, known, order);
    layers := EmitLayers(nodes, links, order, adj, deg, queue);
  }
}
