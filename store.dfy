/**
 * The editor's workflow store: the canvas nodes and edges, the workflow id and name, the signed-in
 * user and the last run time, updated in place by the store's actions, together with the undo
 * history that records a state only when its graph changed in more than node placement.
 */
module Store {
  import opened Graph

  /** The name of a workflow that has not been named. */
  const DefaultName := "Untitled Workflow"

  /** The most states the undo history keeps. */
  const UndoLimit := 100

  /** Node fields the undo comparison ignores: where a node sits and how it is being handled. */
  const Transient: set<string> := {"position", "selected", "dragging", "measured"}

  /** The store's data fields at one moment. */
  datatype Snapshot = Snapshot(
    userId: Option<string>,
    nodes: seq<Node>,
    edges: seq<Edge>,
    workflowId: Option<string>,
    workflowName: string,
    lastRunTimestamp: Option<int>)

  // ---------------------------------------------------------------------------------------------
  // List updates

  /** `nodes.map(n => n.id === id ? { ...n, data: { ...n.data, ...d } } : n)`. */
  function MergeData(nodes: seq<Node>, id: string, d: Data): (r: seq<Node>)
    ensures |r| == |nodes|
    ensures forall i :: 0 <= i < |nodes| ==>
      r[i].id == nodes[i].id && r[i].kind == nodes[i].kind && r[i].layout == nodes[i].layout
    ensures forall i :: 0 <= i < |nodes| && nodes[i].id != id ==> r[i] == nodes[i]
    ensures forall i :: 0 <= i < |nodes| && nodes[i].id == id ==> r[i].data == nodes[i].data + d
  {
    if nodes == [] then []
    else
      var n := nodes[|nodes| - 1];
      MergeData(nodes[..|nodes| - 1], id, d) + [if n.id == id then n.(data := n.data + d) else n]
  }

  /** Merging the same data twice is merging it once. */
  lemma MergeDataTwice(nodes: seq<Node>, id: string, d: Data)
    ensures MergeData(MergeData(nodes, id, d), id, d) == MergeData(nodes, id, d)
  {
    var once := MergeData(nodes, id, d);
    var twice := MergeData(once, id, d);
    forall i | 0 <= i < |nodes|
      ensures twice[i] == once[i]
    {
      if nodes[i].id == id {
        assert twice[i].data == once[i].data;
      }
    }
  }

  /** Merging data keeps the set of known ids, so the links between nodes stay the same. */
  lemma MergeDataLinks(nodes: seq<Node>, edges: seq<Edge>, id: string, d: Data)
    ensures Known(MergeData(nodes, id, d)) == Known(nodes)
    ensures Links(MergeData(nodes, id, d), edges) == Links(nodes, edges)
  {
    var r := MergeData(nodes, id, d);
    IdsOfKnown(nodes);
    IdsOfKnown(r);
    assert IdsOf(r) == IdsOf(nodes) by {
      forall i | 0 <= i < |nodes|
        ensures IdsOf(r)[i] == IdsOf(nodes)[i]
      {
        assert r[i].id == nodes[i].id;
      }
    }
    assert Known(r) == Known(nodes);
  }

  /** The nodes other than `id`, in their order. */
  function Without(nodes: seq<Node>, id: string): seq<Node>
  {
    Filter(nodes, (n: Node) => n.id != id)
  }

  /** The edges that neither start nor end at `id`, in their order. */
  function Detached(edges: seq<Edge>, id: string): seq<Edge>
  {
    Filter(edges, (e: Edge) => e.source != id && e.target != id)
  }

  /** A known id is the id of some listed node. */
  lemma KnownHas(ns: seq<Node>, x: string)
    ensures x in Known(ns) <==> exists n :: n in ns && n.id == x
  {
    if x in Known(ns) {
      assert Find(ns, x).value in ns;
    }
    if exists n :: n in ns && n.id == x {
      var n :| n in ns && n.id == x;
      KnownMember(ns, n);
    }
  }

  /** Deleting a node removes exactly its id. */
  lemma WithoutKnown(nodes: seq<Node>, id: string)
    ensures Known(Without(nodes, id)) == Known(nodes) - {id}
  {
    var r := Without(nodes, id);
    forall x
      ensures x in Known(r) <==> x in Known(nodes) - {id}
    {
      KnownHas(r, x);
      KnownHas(nodes, x);
    }
  }

  /**
   * Deleting a node and its edges leaves no link at that node, and every remaining link was a
   * link before; so a graph without cycles stays without cycles.
   */
  lemma DeleteKeepsAcyclic(nodes: seq<Node>, edges: seq<Edge>, id: string)
    ensures forall l :: l in Links(Without(nodes, id), Detached(edges, id)) ==>
      l in Links(nodes, edges) && l.0 != id && l.1 != id
    ensures Acyclic(Links(nodes, edges)) ==> Acyclic(Links(Without(nodes, id), Detached(edges, id)))
  {
    var before := Links(nodes, edges);
    var after := Links(Without(nodes, id), Detached(edges, id));
    WithoutKnown(nodes, id);
    forall l | l in after
      ensures l in before && l.0 != id && l.1 != id
    {
      LinksOfMember(Known(Without(nodes, id)), Detached(edges, id), l.0, l.1);
      LinksOfMember(Known(nodes), edges, l.0, l.1);
    }
    if Acyclic(before) {
      forall p | IsPath(after, p) && |p| >= 2
        ensures p[0] != p[|p| - 1]
      {
        PathMono(after, before, p);
      }
    }
  }

  // ---------------------------------------------------------------------------------------------
  // Undo history

  /** A node as the undo comparison sees it: without its transient fields. */
  function Strip(n: Node): Node
  {
    n.(layout := map k | k in n.layout && k !in Transient :: n.layout[k])
  }

  function StripAll(nodes: seq<Node>): (r: seq<Node>)
    ensures |r| == |nodes| && forall i :: 0 <= i < |nodes| ==> r[i] == Strip(nodes[i])
  {
    seq(|nodes|, i requires 0 <= i < |nodes| => Strip(nodes[i]))
  }

  /** The undo comparison: same edges, and the same nodes once their transient fields are dropped. */
  predicate SameForUndo(a: Snapshot, b: Snapshot)
  {
    a.edges == b.edges && StripAll(a.nodes) == StripAll(b.nodes)
  }

  /** `b` differs from `a` at most in the transient fields of its nodes (a move, a selection). */
  ghost predicate MovedOnly(a: seq<Node>, b: seq<Node>)
  {
    && |a| == |b|
    && forall i :: 0 <= i < |a| ==> SameBut(a[i], b[i])
  }

  /** Two nodes that agree in everything except possibly their transient fields. */
  ghost predicate SameBut(x: Node, y: Node)
  {
    && x.id == y.id && x.kind == y.kind && x.data == y.data
    && (forall k :: k !in Transient ==> (k in x.layout <==> k in y.layout))
    && (forall k :: k !in Transient && k in x.layout ==> x.layout[k] == y.layout[k])
  }

  /**
   * Two states count as the same for undo exactly when their edges are equal and their nodes differ
   * only in transient fields; in particular, changing only the user, the workflow id or name, or the
   * run time records nothing.
   */
  lemma SameForUndoMeans(a: Snapshot, b: Snapshot)
    ensures SameForUndo(a, b) <==> a.edges == b.edges && MovedOnly(a.nodes, b.nodes)
    ensures a.nodes == b.nodes && a.edges == b.edges ==> SameForUndo(a, b)
  {
    if a.edges == b.edges && MovedOnly(a.nodes, b.nodes) {
      forall i | 0 <= i < |a.nodes|
        ensures Strip(a.nodes[i]) == Strip(b.nodes[i])
      {
        var x, y := a.nodes[i], b.nodes[i];
        assert Strip(x).layout == Strip(y).layout;
      }
      assert StripAll(a.nodes) == StripAll(b.nodes);
    }
    if SameForUndo(a, b) {
      forall i | 0 <= i < |a.nodes|
        ensures SameBut(a.nodes[i], b.nodes[i])
      {
        assert StripAll(a.nodes)[i] == StripAll(b.nodes)[i];
        var sa, sb := Strip(a.nodes[i]).layout, Strip(b.nodes[i]).layout;
        forall k | k !in Transient
          ensures k in a.nodes[i].layout <==> k in b.nodes[i].layout
          ensures k in a.nodes[i].layout ==> a.nodes[i].layout[k] == b.nodes[i].layout[k]
        {
          assert k in a.nodes[i].layout <==> k in sa;
          assert k in b.nodes[i].layout <==> k in sb;
        }
      }
    }
  }

  /** The undo history around the present state: older states last-in, and states undone. */
  datatype History = History(past: seq<Snapshot>, present: Snapshot, future: seq<Snapshot>)

  /** The history stays within the undo limit. */
  predicate Bounded(h: History)
  {
    |h.past| + |h.future| <= UndoLimit
  }

  /**
   * A state change: unless the new state is the same for undo, the old present joins the past
   * (dropping the oldest entry at the limit) and the undone states are forgotten.
   */
  function Record(h: History, next: Snapshot): (r: History)
    ensures r.present == next
    ensures SameForUndo(h.present, next) ==> r.past == h.past && r.future == h.future
    ensures !SameForUndo(h.present, next) ==> r.future == [] && r.past != [] && r.past[|r.past| - 1] == h.present
    ensures !SameForUndo(h.present, next) && |h.past| < UndoLimit ==> r.past == h.past + [h.present]
    ensures Bounded(h) ==> Bounded(r)
  {
    if SameForUndo(h.present, next) then h.(present := next)
    else
      var kept := if |h.past| >= UndoLimit then h.past[|h.past| - UndoLimit + 1..] else h.past;
      History(kept + [h.present], next, [])
  }

  /** Undo: the newest past state becomes the present, and the present is kept for redo. */
  function Undo(h: History): (r: History)
    ensures h.past == [] ==> r == h
    ensures h.past != [] ==> r.present == h.past[|h.past| - 1] && r.future == h.future + [h.present] && r.past + [r.present] == h.past
    ensures Bounded(h) ==> Bounded(r)
  {
    if h.past == [] then h
    else History(h.past[..|h.past| - 1], h.past[|h.past| - 1], h.future + [h.present])
  }

  /** Redo: the most recently undone state becomes the present again. */
  function Redo(h: History): (r: History)
    ensures h.future == [] ==> r == h
    ensures h.future != [] ==> r.present == h.future[|h.future| - 1] && r.past == h.past + [h.present] && r.future + [r.present] == h.future
    ensures Bounded(h) ==> Bounded(r)
  {
    if h.future == [] then h
    else History(h.past + [h.present], h.future[|h.future| - 1], h.future[..|h.future| - 1])
  }

  /** Redo undoes an undo, and undo undoes a redo. */
  lemma UndoRedoInverse(h: History)
    ensures h.past != [] ==> Redo(Undo(h)) == h
    ensures h.future != [] ==> Undo(Redo(h)) == h
  {
    if h.past != [] {
      assert Redo(Undo(h)).past == h.past[..|h.past| - 1] + [h.past[|h.past| - 1]];
    }
    if h.future != [] {
      assert Undo(Redo(h)).future == h.future[..|h.future| - 1] + [h.future[|h.future| - 1]];
    }
  }

  /** Undo right after a recorded change brings back the state before it, and redo brings the change back. */
  lemma UndoAfterRecord(h: History, next: Snapshot)
    requires !SameForUndo(h.present, next)
    ensures Undo(Record(h, next)).present == h.present
    ensures Redo(Undo(Record(h, next))).present == next
  {
  }

  /** A change the undo comparison cannot see leaves the history as it was, however often it happens. */
  lemma QuietChanges(h: History, next: Snapshot)
    requires next.nodes == h.present.nodes && next.edges == h.present.edges
    ensures Record(h, next).past == h.past && Record(h, next).future == h.future
  {
    SameForUndoMeans(h.present, next);
  }

  // ---------------------------------------------------------------------------------------------
  // The store

  class WorkflowStore {
    var userId: Option<string>
    var nodes: seq<Node>
    var edges: seq<Edge>
    var workflowId: Option<string>
    var workflowName: string
    var lastRunTimestamp: Option<int>
    var past: seq<Snapshot>
    var future: seq<Snapshot>

    function State(): Snapshot
      reads this
    {
      Snapshot(userId, nodes, edges, workflowId, workflowName, lastRunTimestamp)
    }

    function Timeline(): History
      reads this
    {
      History(past, State(), future)
    }

    ghost predicate Valid()
      reads this
    {
      Bounded(Timeline())
    }

    /** The store as first created: nobody signed in, an empty untitled workflow, no history. */
    constructor ()
      ensures Valid()
      ensures State() == Snapshot(None, [], [], None, DefaultName, None)
      ensures past == [] && future == []
    {
      userId, nodes, edges := None, [], [];
      workflowId, workflowName, lastRunTimestamp := None, DefaultName, None;
      past, future := [], [];
    }

    /** Replace the state with `s` without touching the history. */
    method Load(s: Snapshot)
      modifies this
      ensures State() == s && past == old(past) && future == old(future)
    {
      userId, nodes, edges := s.userId, s.nodes, s.edges;
      workflowId, workflowName, lastRunTimestamp := s.workflowId, s.workflowName, s.lastRunTimestamp;
    }

    /** `set(...)`: write the next state and let the undo history record the change. */
    method Set(next: Snapshot)
      requires Valid()
      modifies this
      ensures Valid()
      ensures Timeline() == Record(old(Timeline()), next)
    {
      var h := Record(Timeline(), next);
      Load(next);
      past, future := h.past, h.future;
    }

    /** Another user clears the workflow; the same user leaves the state as it is. */
    method SetUserId(id: Option<string>)
      requires Valid()
      modifies this
      ensures Valid()
      ensures old(userId) != id ==>
        Timeline() == Record(old(Timeline()), Snapshot(id, [], [], None, DefaultName, old(lastRunTimestamp)))
      ensures old(userId) == id ==> Timeline() == old(Timeline())
    {
      if userId != id {
        Set(Snapshot(id, [], [], None, DefaultName, lastRunTimestamp));
      } else {
        SameForUndoMeans(State(), State());
        Set(State());
      }
    }

    /** Merge `d` into the data of the nodes with id `id`. */
    method UpdateNodeData(id: string, d: Data)
      requires Valid()
      modifies this
      ensures Valid()
      ensures Timeline() == Record(old(Timeline()), old(State()).(nodes := MergeData(old(nodes), id, d)))
    {
      Set(State().(nodes := MergeData(nodes, id, d)));
    }

    /** Append a node at the end of the list. */
    method AddNode(n: Node)
      requires Valid()
      modifies this
      ensures Valid()
      ensures Timeline() == Record(old(Timeline()), old(State()).(nodes := old(nodes) + [n]))
    {
      Set(State().(nodes := nodes + [n]));
    }

    /** Remove the node with id `id` and every edge that starts or ends there. */
    method DeleteNode(id: string)
      requires Valid()
      modifies this
      ensures Valid()
      ensures Timeline() == Record(old(Timeline()), old(State()).(nodes := Without(old(nodes), id), edges := Detached(old(edges), id)))
    {
      Set(State().(nodes := Without(nodes, id), edges := Detached(edges, id)));
    }

    /** An empty untitled workflow for the same user. */
    method ResetWorkflow()
      requires Valid()
      modifies this
      ensures Valid()
      ensures Timeline() == Record(old(Timeline()), old(State()).(nodes := [], edges := [], workflowId := None, workflowName := DefaultName))
    {
      Set(State().(nodes := [], edges := [], workflowId := None, workflowName := DefaultName));
    }

    /** Sign-out: no user and an empty untitled workflow. */
    method ClearUserData()
      requires Valid()
      modifies this
      ensures Valid()
      ensures Timeline() == Record(old(Timeline()),
        old(State()).(userId := None, nodes := [], edges := [], workflowId := None, workflowName := DefaultName))
    {
      Set(State().(userId := None, nodes := [], edges := [], workflowId := None, workflowName := DefaultName));
    }

    method SetWorkflowId(id: Option<string>)
      requires Valid()
      modifies this
      ensures Valid()
      ensures Timeline() == Record(old(Timeline()), old(State()).(workflowId := id))
    {
      Set(State().(workflowId := id));
    }

    method SetWorkflowName(name: string)
      requires Valid()
      modifies this
      ensures Valid()
      ensures Timeline() == Record(old(Timeline()), old(State()).(workflowName := name))
    {
      Set(State().(workflowName := name));
    }

    method SetNodes(ns: seq<Node>)
      requires Valid()
      modifies this
      ensures Valid()
      ensures Timeline() == Record(old(Timeline()), old(State()).(nodes := ns))
    {
      Set(State().(nodes := ns));
    }

    method SetEdges(es: seq<Edge>)
      requires Valid()
      modifies this
      ensures Valid()
      ensures Timeline() == Record(old(Timeline()), old(State()).(edges := es))
    {
      Set(State().(edges := es));
    }

    method SetLastRunTimestamp(t: int)
      requires Valid()
      modifies this
      ensures Valid()
      ensures Timeline() == Record(old(Timeline()), old(State()).(lastRunTimestamp := Some(t)))
    {
      Set(State().(lastRunTimestamp := Some(t)));
    }

    /** Step back to the newest past state, if any. */
    method UndoStep()
      requires Valid()
      modifies this
      ensures Valid()
      ensures Timeline() == Undo(old(Timeline()))
    {
      var h := Undo(Timeline());
      Load(h.present);
      past, future := h.past, h.future;
    }

    /** Step forward to the most recently undone state, if any. */
    method RedoStep()
      requires Valid()
      modifies this
      ensures Valid()
      ensures Timeline() == Redo(old(Timeline()))
    {
      var h := Redo(Timeline());
      Load(h.present);
      past, future := h.past, h.future;
    }
  }
}
