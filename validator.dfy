/**
 * The editor's connection check: which source node kinds may feed which target port, no
 * self-loops, both ends on the canvas, and no connection that closes a cycle, decided by a
 * depth-first search from the target that shares one visited set across all its branches.
 */
module Validator {
  import opened Graph
  import opened Js

  /** Node kinds that produce an image: upload, crop and extracted frame. */
  predicate IsImageProducer(k: Kind)
  {
    k == ImageNode || k == CropImageNode || k == ExtractFrameNode
  }

  /** Node kinds that produce text: text and LLM nodes. */
  predicate IsTextProducer(k: Kind)
  {
    k == TextNode || k == LlmNode
  }

  /**
   * The port rules for a connection into a port other than `image_url` and `video_url`: the
   * `prompt` and `system-prompt` ports take only text producers, and a port whose name starts
   * with `image` only image producers.
   */
  predicate PortAllows(source: Kind, handle: Option<string>)
  {
    && (handle == Some("prompt") || handle == Some("system-prompt") ==> IsTextProducer(source))
    && (handle.Some? && StartsWith(handle.value, "image") ==> IsImageProducer(source))
  }

  /**
   * The connections the editor accepts, as written: not a self-loop, both ends on the canvas; into
   * `image_url` any image producer and into `video_url` a video node, both without the cycle check;
   * into any other port what the port rules allow, provided the source is not reachable from the
   * target.
   */
  ghost predicate Accepts(nodes: seq<Node>, edges: seq<Edge>, c: Edge)
  {
    && c.source != c.target
    && c.source in Known(nodes) && c.target in Known(nodes)
    && var source := Find(nodes, c.source).value;
       if c.targetHandle == Some("image_url") then IsImageProducer(source.kind)
       else if c.targetHandle == Some("video_url") then source.kind == VideoNode
       else PortAllows(source.kind, c.targetHandle) && !Reaches(Links(nodes, edges), c.target, c.source)
  }

  // ---------------------------------------------------------------------------------------------
  // Outgoers and the search

  /** Some edge leads from `u` to `v`. */
  predicate EdgeTo(edges: seq<Edge>, u: string, v: string)
  {
    exists e :: e in edges && e.source == u && e.target == v
  }

  /** `getOutgoers(node, nodes, edges)`: the nodes, in list order, whose id is the target of an edge leaving `u`. */
  function Outgoers(nodes: seq<Node>, edges: seq<Edge>, u: string): (r: seq<Node>)
    ensures forall o :: o in r <==> o in nodes && EdgeTo(edges, u, o.id)
  {
    if nodes == [] then []
    else
      var front := nodes[..|nodes| - 1];
      var n := nodes[|nodes| - 1];
      assert nodes == front + [n];
      Outgoers(front, edges, u) + (if EdgeTo(edges, u, n.id) then [n] else [])
  }

  /** From a known node, the outgoers are exactly the nodes its links lead to. */
  lemma OutgoerLink(nodes: seq<Node>, edges: seq<Edge>, u: string, v: string)
    requires u in Known(nodes)
    ensures (u, v) in Links(nodes, edges) <==> exists o :: o in Outgoers(nodes, edges, u) && o.id == v
  {
    LinksOfMember(Known(nodes), edges, u, v);
    assert (u, v) in Links(nodes, edges) <==> v in Known(nodes) && EdgeTo(edges, u, v);
    if (u, v) in Links(nodes, edges) {
      var o := Find(nodes, v).value;
      assert o in Outgoers(nodes, edges, u);
    }
    if exists o :: o in Outgoers(nodes, edges, u) && o.id == v {
      var o :| o in Outgoers(nodes, edges, u) && o.id == v;
      KnownMember(nodes, o);
    }
  }

  /** Every link leaving `w` ends in `seen` and not at `goal`. */
  ghost predicate Closed(links: seq<Link>, w: string, seen: set<string>, goal: string)
  {
    forall v :: (w, v) in links ==> v in seen && v != goal
  }

  /** An outgoer of a known node is linked from it. */
  lemma OutgoerIsLink(nodes: seq<Node>, edges: seq<Edge>, u: string, o: Node)
    requires u in Known(nodes) && o in Outgoers(nodes, edges, u)
    ensures (u, o.id) in Links(nodes, edges)
  {
    OutgoerLink(nodes, edges, u, o.id);
  }

  /** One link is a path. */
  lemma LinkReaches(links: seq<Link>, a: string, b: string)
    requires (a, b) in links
    ensures Reaches(links, a, b)
  {
    assert IsPath(links, [a, b]);
  }

  /** One link followed by a path. */
  lemma ReachesVia(links: seq<Link>, a: string, b: string, c: string)
    requires (a, b) in links && Reaches(links, b, c)
    ensures Reaches(links, a, c)
  {
    assert IsPath(links, [a, b]);
    ReachesTrans(links, a, b, c);
  }

  lemma SubsetNotLarger(a: set<string>, b: set<string>)
    requires a <= b
    ensures |a| <= |b|
  {
    var rest := b - a;
    assert b == a + rest && a * rest == {};
  }

  lemma SubsetSmaller(a: set<string>, b: set<string>, x: string)
    requires a <= b && x in b && x !in a
    ensures |a| < |b|
  {
    var rest := b - a;
    assert b == a + rest && a * rest == {};
    assert x in rest;
  }

  /**
   * `hasCycle(node, visited)`: whether `goal` can be reached from `u`, searching depth-first and
   * skipping nodes already visited; `visited` is the set shared by the whole search, returned
   * updated. When nothing is found, every node the call visited has all its successors visited
   * and none of them is `goal`.
   */
  method HasCycle(nodes: seq<Node>, edges: seq<Edge>, u: Node, goal: string, visited: set<string>)
    returns (found: bool, seen: set<string>)
    requires u in nodes
    requires visited <= Known(nodes)
    ensures visited <= seen <= Known(nodes) && u.id in seen
    ensures found ==> Reaches(Links(nodes, edges), u.id, goal)
    ensures !found ==> forall w :: w in seen - visited ==> Closed(Links(nodes, edges), w, seen, goal)
    decreases |Known(nodes) - visited|, 1
  {
    KnownMember(nodes, u);
    if u.id in visited {
      return false, visited;
    }
    var outgoers := Outgoers(nodes, edges, u.id);
    for i := 0 to |outgoers|
      invariant forall k :: 0 <= k < i ==> outgoers[k].id != goal
    {
      if outgoers[i].id == goal {
        OutgoerIsLink(nodes, edges, u.id, outgoers[i]);
        LinkReaches(Links(nodes, edges), u.id, goal);
        return true, visited + {u.id};
      }
    }
    SubsetSmaller(Known(nodes) - (visited + {u.id}), Known(nodes) - visited, u.id);
    found, seen := SearchOutgoers(nodes, edges, u.id, outgoers, goal, visited + {u.id});
  }

  /**
   * `outgoers.some(o => hasCycle(o, visited))`: search from each outgoer of `u` in turn with the
   * shared visited set, stopping at the first that finds `goal`.
   */
  method SearchOutgoers(nodes: seq<Node>, edges: seq<Edge>, u: string, outgoers: seq<Node>, goal: string, base: set<string>)
    returns (found: bool, seen: set<string>)
    requires u in base && base <= Known(nodes)
    requires outgoers == Outgoers(nodes, edges, u)
    requires forall k :: 0 <= k < |outgoers| ==> outgoers[k].id != goal
    ensures base <= seen <= Known(nodes)
    ensures found ==> Reaches(Links(nodes, edges), u, goal)
    ensures !found ==> forall w :: w in seen - base ==> Closed(Links(nodes, edges), w, seen, goal)
    ensures !found ==> Closed(Links(nodes, edges), u, seen, goal)
    decreases |Known(nodes) - base| + 1, 0
  {
    ghost var links := Links(nodes, edges);
    seen := base;
    for i := 0 to |outgoers|
      invariant base <= seen <= Known(nodes)
      invariant forall k :: 0 <= k < i ==> outgoers[k].id in seen
      invariant forall w :: w in seen - base ==> Closed(links, w, seen, goal)
    {
      SubsetNotLarger(Known(nodes) - seen, Known(nodes) - base);
      var f;
      ghost var before := seen;
      f, seen := HasCycle(nodes, edges, outgoers[i], goal, seen);
      if f {
        OutgoerIsLink(nodes, edges, u, outgoers[i]);
        ReachesVia(links, u, outgoers[i].id, goal);
        return true, seen;
      }
      MergeClosed(links, base, before, seen, goal);
    }
    OutgoersClosed(nodes, edges, u, outgoers, seen, goal);
    return false, seen;
  }

  /** Closed nodes stay closed as the visited set grows. */
  lemma MergeClosed(links: seq<Link>, base: set<string>, before: set<string>, seen: set<string>, goal: string)
    requires before <= seen
    requires forall w :: w in before - base ==> Closed(links, w, before, goal)
    requires forall w :: w in seen - before ==> Closed(links, w, seen, goal)
    ensures forall w :: w in seen - base ==> Closed(links, w, seen, goal)
  {
    forall w | w in seen - base
      ensures Closed(links, w, seen, goal)
    {
      if w in before {
        assert Closed(links, w, before, goal);
      }
    }
  }

  /** A node whose outgoers are all visited and none of them the goal is closed. */
  lemma OutgoersClosed(nodes: seq<Node>, edges: seq<Edge>, u: string, outgoers: seq<Node>, seen: set<string>, goal: string)
    requires u in Known(nodes) && outgoers == Outgoers(nodes, edges, u)
    requires forall k :: 0 <= k < |outgoers| ==> outgoers[k].id in seen && outgoers[k].id != goal
    ensures Closed(Links(nodes, edges), u, seen, goal)
  {
    forall v | (u, v) in Links(nodes, edges)
      ensures v in seen && v != goal
    {
      OutgoerLink(nodes, edges, u, v);
      var o :| o in outgoers && o.id == v;
      var k :| 0 <= k < |outgoers| && outgoers[k] == o;
    }
  }

  /** A set that holds `a`, whose members lead only into it and never to `b`, does not let `a` reach `b`. */
  lemma ClosedNoReach(links: seq<Link>, seen: set<string>, a: string, b: string)
    requires a in seen && forall w :: w in seen ==> Closed(links, w, seen, b)
    ensures !Reaches(links, a, b)
  {
    if Reaches(links, a, b) {
      var p :| IsPath(links, p) && |p| >= 2 && p[0] == a && p[|p| - 1] == b;
      var k := 0;
      while k < |p| - 1
        invariant k <= |p| - 1 && p[k] in seen && (k > 0 ==> p[k] != b)
      {
        assert Closed(links, p[k], seen, b);
        assert (p[k], p[k + 1]) in links;
        k := k + 1;
      }
    }
  }

  /** The search from a known node started with nothing visited finds `goal` exactly when the node reaches it. */
  method SearchFrom(nodes: seq<Node>, edges: seq<Edge>, start: Node, goal: string) returns (found: bool)
    requires start in nodes
    ensures found <==> Reaches(Links(nodes, edges), start.id, goal)
  {
    var seen;
    found, seen := HasCycle(nodes, edges, start, goal, {});
    if !found {
      ClosedNoReach(Links(nodes, edges), seen, start.id, goal);
    }
  }

  /** `isValidConnection`: the port rules, then the cycle check, in the order the editor applies them. */
  method IsValidConnection(nodes: seq<Node>, edges: seq<Edge>, c: Edge) returns (ok: bool)
    ensures ok <==> Accepts(nodes, edges, c)
    ensures c.source == c.target ==> !ok
    ensures c.source !in Known(nodes) || c.target !in Known(nodes) ==> !ok
    ensures ok && c.targetHandle != Some("image_url") && c.targetHandle != Some("video_url") ==>
      !Reaches(Links(nodes, edges), c.target, c.source)
  {
    if c.source == c.target {
      return false;
    }
    var source := Find(nodes, c.source);
    var target := Find(nodes, c.target);
    if source.None? || target.None? {
      return false;
    }
    var kind := source.value.kind;
    if c.targetHandle == Some("image_url") {
      return IsImageProducer(kind);
    }
    if c.targetHandle == Some("video_url") {
      return kind == VideoNode;
    }
    if c.targetHandle == Some("prompt") || c.targetHandle == Some("system-prompt") {
      if !IsTextProducer(kind) {
        return false;
      }
    }
    if c.targetHandle.Some? && StartsWith(c.targetHandle.value, "image") {
      if !IsImageProducer(kind) {
        return false;
      }
    }
    var cycle := SearchFrom(nodes, edges, target.value, c.source);
    return !cycle;
  }

  // ---------------------------------------------------------------------------------------------
  // Cycles

  /** A cycle through a new link `(s, t)` means `t` already reached `s`, or the link is a self-loop. */
  lemma NewLinkCycle(links: seq<Link>, s: string, t: string, p: seq<string>)
    requires IsPath(links + [(s, t)], p) && |p| >= 2 && p[0] == p[|p| - 1]
    requires exists k :: 0 <= k < |p| - 1 && (p[k], p[k + 1]) == (s, t)
    ensures s == t || Reaches(links, t, s)
  {
    var i := FirstUse(p, s, t);
    var j := LastUse(p, s, t);
    var q1 := Avoiding(links, s, t, p, 0, i);
    var q2 := Avoiding(links, s, t, p, j + 1, |p| - 1);
    PathJoin(links, q2, q1);
    var r := q2 + q1[1..];
    if |r| >= 2 {
      assert IsPath(links, r) && r[0] == t && r[|r| - 1] == s;
    }
  }

  /** A cycle that appears once the link `(s, t)` is added takes that link. */
  lemma UsesNewLink(links: seq<Link>, s: string, t: string, p: seq<string>)
    requires Acyclic(links)
    requires IsPath(links + [(s, t)], p) && |p| >= 2 && p[0] == p[|p| - 1]
    ensures exists k :: 0 <= k < |p| - 1 && (p[k], p[k + 1]) == (s, t)
  {
    if forall k :: 0 <= k < |p| - 1 ==> (p[k], p[k + 1]) != (s, t) {
      var whole := Avoiding(links, s, t, p, 0, |p| - 1);
    }
  }

  /** A stretch of a path that never takes the new link `(s, t)` is a path without it. */
  lemma Avoiding(links: seq<Link>, s: string, t: string, p: seq<string>, lo: nat, hi: nat) returns (q: seq<string>)
    requires IsPath(links + [(s, t)], p) && lo <= hi < |p|
    requires forall k :: lo <= k < hi ==> (p[k], p[k + 1]) != (s, t)
    ensures q == p[lo..hi + 1] && IsPath(links, q)
    ensures |q| == hi - lo + 1 && q[0] == p[lo] && q[|q| - 1] == p[hi]
    ensures lo == 0 && hi == |p| - 1 ==> IsPath(links, p)
  {
    assert p[0..|p|] == p;
    q := p[lo..hi + 1];
    forall k | 0 <= k < |q| - 1
      ensures (q[k], q[k + 1]) in links
    {
      assert (p[lo + k], p[lo + k + 1]) in links + [(s, t)];
    }
  }

  /** The first position where a path takes the link `(s, t)`. */
  lemma FirstUse(p: seq<string>, s: string, t: string) returns (i: nat)
    requires exists k :: 0 <= k < |p| - 1 && (p[k], p[k + 1]) == (s, t)
    ensures i < |p| - 1 && p[i] == s && p[i + 1] == t
    ensures forall k :: 0 <= k < i ==> (p[k], p[k + 1]) != (s, t)
  {
    i := 0;
    while (p[i], p[i + 1]) != (s, t)
      invariant i < |p| - 1
      invariant forall k :: 0 <= k < i ==> (p[k], p[k + 1]) != (s, t)
      invariant exists k :: i <= k < |p| - 1 && (p[k], p[k + 1]) == (s, t)
      decreases |p| - i
    {
      i := i + 1;
    }
  }

  /** The last position where a path takes the link `(s, t)`. */
  lemma LastUse(p: seq<string>, s: string, t: string) returns (j: nat)
    requires exists k :: 0 <= k < |p| - 1 && (p[k], p[k + 1]) == (s, t)
    ensures j < |p| - 1 && p[j] == s && p[j + 1] == t
    ensures forall k :: j < k < |p| - 1 ==> (p[k], p[k + 1]) != (s, t)
  {
    j := |p| - 2;
    while (p[j], p[j + 1]) != (s, t)
      invariant 0 <= j < |p| - 1
      invariant forall k :: j < k < |p| - 1 ==> (p[k], p[k + 1]) != (s, t)
      invariant exists k :: 0 <= k <= j && (p[k], p[k + 1]) == (s, t)
      decreases j
    {
      j := j - 1;
    }
  }

  /** The links once a connection between two known nodes is added. */
  lemma LinksAdd(nodes: seq<Node>, edges: seq<Edge>, c: Edge)
    requires c.source in Known(nodes) && c.target in Known(nodes)
    ensures Links(nodes, edges + [c]) == Links(nodes, edges) + [(c.source, c.target)]
  {
    assert (edges + [c])[..|edges|] == edges;
  }

  /** The check the editor evidently intends: the port rules, and the cycle check on every port. */
  ghost predicate AcceptsIntended(nodes: seq<Node>, edges: seq<Edge>, c: Edge)
  {
    && c.source != c.target
    && c.source in Known(nodes) && c.target in Known(nodes)
    && (var source := Find(nodes, c.source).value;
        if c.targetHandle == Some("image_url") then IsImageProducer(source.kind)
        else if c.targetHandle == Some("video_url") then source.kind == VideoNode
        else PortAllows(source.kind, c.targetHandle))
    && !Reaches(Links(nodes, edges), c.target, c.source)
  }

  /** With the cycle check on every port, an accepted connection keeps an acyclic graph acyclic. */
  lemma IntendedKeepsAcyclic(nodes: seq<Node>, edges: seq<Edge>, c: Edge)
    requires Acyclic(Links(nodes, edges)) && AcceptsIntended(nodes, edges, c)
    ensures Acyclic(Links(nodes, edges + [c]))
  {
    var links := Links(nodes, edges);
    LinksAdd(nodes, edges, c);
    forall p | IsPath(links + [(c.source, c.target)], p) && |p| >= 2
      ensures p[0] != p[|p| - 1]
    {
      if p[0] == p[|p| - 1] {
        UsesNewLink(links, c.source, c.target, p);
        NewLinkCycle(links, c.source, c.target, p);
      }
    }
  }

  /** The connection check with the cycle search on every port: what it accepts keeps the graph acyclic. */
  method IsSafeConnection(nodes: seq<Node>, edges: seq<Edge>, c: Edge) returns (ok: bool)
    ensures ok <==> AcceptsIntended(nodes, edges, c)
    ensures ok && Acyclic(Links(nodes, edges)) ==> Acyclic(Links(nodes, edges + [c]))
  {
    if c.source == c.target {
      return false;
    }
    var source := Find(nodes, c.source);
    var target := Find(nodes, c.target);
    if source.None? || target.None? {
      return false;
    }
    var kind := source.value.kind;
    var portOk;
    if c.targetHandle == Some("image_url") {
      portOk := IsImageProducer(kind);
    } else if c.targetHandle == Some("video_url") {
      portOk := kind == VideoNode;
    } else {
      portOk := PortAllows(kind, c.targetHandle);
    }
    if !portOk {
      return false;
    }
    var cycle := SearchFrom(nodes, edges, target.value, c.source);
    ok := !cycle;
    if ok && Acyclic(Links(nodes, edges)) {
      IntendedKeepsAcyclic(nodes, edges, c);
    }
  }

  /** The intended check differs from the written one only on the `image_url` and `video_url` ports. */
  lemma IntendedAgrees(nodes: seq<Node>, edges: seq<Edge>, c: Edge)
    ensures AcceptsIntended(nodes, edges, c) ==> Accepts(nodes, edges, c)
    ensures c.targetHandle != Some("image_url") && c.targetHandle != Some("video_url") ==>
      (Accepts(nodes, edges, c) <==> AcceptsIntended(nodes, edges, c))
  {
  }

  /**
   * As written, with crop `a` feeding crop `b`, connecting `b` back into `a`'s `image_url` port is
   * accepted and closes the cycle a -> b -> a.
   */
  lemma ImageUrlCycleAccepted()
    ensures var nodes := [Node("a", CropImageNode, map[], map[]), Node("b", CropImageNode, map[], map[])];
            var edges := [Edge("a", "b", Some("image_url"))];
            var c := Edge("b", "a", Some("image_url"));
            && Acyclic(Links(nodes, edges))
            && Accepts(nodes, edges, c)
            && !AcceptsIntended(nodes, edges, c)
            && !Acyclic(Links(nodes, edges + [c]))
  {
    var nodes := [Node("a", CropImageNode, map[], map[]), Node("b", CropImageNode, map[], map[])];
    var edges := [Edge("a", "b", Some("image_url"))];
    var c := Edge("b", "a", Some("image_url"));
    assert Known(nodes) == {"a", "b"} by {
      assert nodes[..1] == [nodes[0]];
    }
    assert Links(nodes, edges) == [("a", "b")] by {
      assert edges[..0] == [];
    }
    RankedAcyclic(Links(nodes, edges), map["a" := 0, "b" := 1]);
    assert IsPath(Links(nodes, edges), ["a", "b"]);
    LinksAdd(nodes, edges, c);
    assert IsPath(Links(nodes, edges + [c]), ["a", "b", "a"]);
  }
}
