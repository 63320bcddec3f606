/**
 * Shared vocabulary of the workflow editor and of the execution engine: node kinds, node data,
 * edges, and the graph-level notions (links between known nodes, paths, cycles) that the layer
 * planner and the connection validator reason about.
 */
module Graph {

  datatype Option<+T> = None | Some(value: T)

  /** A JSON-like value as held in a node's `data` object; numbers are exact reals (no NaN, no infinities). */
  datatype Value =
    | Undefined
    | Null
    | Bool(b: bool)
    | Num(x: real)
    | Str(s: string)
    | List(items: seq<Value>)
    | Object(fields: map<string, Value>)

  /** A node's `data` object: field name to value. */
  type Data = map<string, Value>

  /** The node `type` strings the editor registers; any other string (or none) is `OtherKind`. */
  datatype Kind =
    | TextNode
    | ImageNode
    | VideoNode
    | LlmNode
    | CropImageNode
    | ExtractFrameNode
    | OtherKind

  /**
   * A canvas node: its id, its kind, its `data` object, and the remaining top-level fields that
   * the canvas library keeps on it (`position`, `selected`, `dragging`, `measured`, `width`, ...).
   */
  datatype Node = Node(id: string, kind: Kind, data: Data, layout: map<string, Value>)

  /** An edge: source node id, target node id and the target port (handle) id, if any. */
  datatype Edge = Edge(source: string, target: string, targetHandle: Option<string>)

  /** A directed link between two known node ids. */
  type Link = (string, string)

  /** No element occurs twice in `s`. */
  predicate NoDup<T(==)>(s: seq<T>)
  {
    s == [] || (NoDup(s[..|s| - 1]) && s[|s| - 1] !in s[..|s| - 1])
  }

  /** Under `NoDup`, an element does not occur before its own position. */
  lemma {:induction false} NotInPrefix<T>(s: seq<T>, n: nat)
    requires n < |s| && NoDup(s)
    ensures s[n] !in s[..n]
  {
    if n < |s| - 1 {
      var front := s[..|s| - 1];
      NotInPrefix(front, n);
      assert front[..n] == s[..n];
    }
  }

  /** Under `NoDup`, distinct positions hold distinct elements. */
  lemma NoDupDistinct<T>(s: seq<T>, i: nat, j: nat)
    requires NoDup(s) && i < j < |s|
    ensures s[i] != s[j]
  {
    NotInPrefix(s, j);
    assert s[i] == s[..j][i];
  }

  /** Elements that differ pairwise have no duplicate. */
  lemma {:induction false} DistinctNoDup<T>(s: seq<T>)
    requires forall i, j :: 0 <= i < j < |s| ==> s[i] != s[j]
    ensures NoDup(s)
  {
    if s != [] {
      var front := s[..|s| - 1];
      DistinctNoDup(front);
    }
  }

  /** The elements of a sequence, as a set. */
  function Elems<T>(s: seq<T>): set<T>
  {
    set x | x in s
  }

  // ---------------------------------------------------------------------------------------------
  // Node ids and lookup

  /** The set of ids carried by the nodes. */
  function Known(nodes: seq<Node>): set<string>
  {
    if nodes == [] then {} else Known(nodes[..|nodes| - 1]) + {nodes[|nodes| - 1].id}
  }

  lemma {:induction false} KnownCons(nodes: seq<Node>)
    requires nodes != []
    ensures Known(nodes) == {nodes[0].id} + Known(nodes[1..])
  {
    if |nodes| > 1 {
      var front := nodes[..|nodes| - 1];
      KnownCons(front);
      assert front[1..] == nodes[1..][..|nodes[1..]| - 1];
    }
  }

  /**
   * The distinct node ids in order of first occurrence: the key order of a JavaScript `Map`
   * filled by `set(n.id, ...)` for each node in turn (re-setting a key keeps its position).
   */
  function Ids(nodes: seq<Node>): seq<string>
  {
    if nodes == [] then []
    else
      var p := Ids(nodes[..|nodes| - 1]);
      var id := nodes[|nodes| - 1].id;
      if id in p then p else p + [id]
  }

  /** The key order lists every node id exactly once. */
  lemma {:induction false} IdsFacts(nodes: seq<Node>)
    ensures NoDup(Ids(nodes))
    ensures Elems(Ids(nodes)) == Known(nodes)
    ensures |Ids(nodes)| <= |nodes|
  {
    if nodes != [] {
      var front := nodes[..|nodes| - 1];
      var id := nodes[|nodes| - 1].id;
      IdsFacts(front);
      if id !in Ids(front) {
        assert (Ids(front) + [id])[..|Ids(front)|] == Ids(front);
        ElemsAppend(Ids(front), id);
      }
    }
  }

  lemma {:induction false} NoDupConcat<T>(a: seq<T>, b: seq<T>)
    requires NoDup(a) && NoDup(b)
    requires forall x :: x in a ==> x !in b
    ensures NoDup(a + b)
  {
    if b != [] {
      var front := b[..|b| - 1];
      var x := b[|b| - 1];
      assert b == front + [x];
      NoDupConcat(a, front);
      assert x in b && x !in front;
      assert x !in a + front;
      var ab := (a + front) + [x];
      assert a + b == ab;
      assert ab[..|ab| - 1] == a + front;
      assert ab[|ab| - 1] == x;
    } else {
      assert a + b == a;
    }
  }

  lemma ElemsAppend<T>(s: seq<T>, x: T)
    ensures Elems(s + [x]) == Elems(s) + {x}
  {
  }

  /** Adding a node adds its id at the end unless it was seen already. */
  lemma IdsStep(nodes: seq<Node>, i: nat)
    requires i < |nodes|
    ensures Ids(nodes[..i + 1]) == Ids(nodes[..i]) + (if nodes[i].id in Ids(nodes[..i]) then [] else [nodes[i].id])
  {
    assert nodes[..i + 1][..i] == nodes[..i];
  }

  /** `nodes.find(n => n.id === id)`: the first node carrying that id. */
  function Find(nodes: seq<Node>, id: string): (r: Option<Node>)
    ensures r.Some? <==> id in Known(nodes)
    ensures r.Some? ==> r.value in nodes && r.value.id == id
  {
    if nodes == [] then None
    else
      KnownCons(nodes);
      if nodes[0].id == id then Some(nodes[0]) else Find(nodes[1..], id)
  }

  /** The node `Find` returns is the first one carrying the id: no earlier node carries it. */
  lemma {:induction false} FindFirst(nodes: seq<Node>, id: string)
    ensures Find(nodes, id).Some? ==>
      exists i :: 0 <= i < |nodes| && nodes[i] == Find(nodes, id).value && forall j :: 0 <= j < i ==> nodes[j].id != id
  {
    if nodes != [] && nodes[0].id != id && Find(nodes, id).Some? {
      var r := Find(nodes[1..], id);
      FindFirst(nodes[1..], id);
      var i :| 0 <= i < |nodes[1..]| && nodes[1..][i] == r.value && forall j :: 0 <= j < i ==> nodes[1..][j].id != id;
      assert nodes[i + 1] == r.value && forall j :: 0 <= j < i + 1 ==> nodes[j].id != id;
    }
  }

  /** The ids of a list of nodes, in order. */
  function IdsOf(ns: seq<Node>): (r: seq<string>)
    ensures |r| == |ns| && forall i :: 0 <= i < |ns| ==> r[i] == ns[i].id
  {
    seq(|ns|, i requires 0 <= i < |ns| => ns[i].id)
  }

  /** The known ids are exactly the ids listed in order. */
  lemma {:induction false} IdsOfKnown(ns: seq<Node>)
    ensures forall x :: x in Known(ns) <==> x in IdsOf(ns)
  {
    if ns != [] {
      var front := ns[..|ns| - 1];
      IdsOfKnown(front);
      assert IdsOf(ns) == IdsOf(front) + [ns[|ns| - 1].id];
    }
  }

  /** `list.filter(keep)`. */
  function Filter<T(!new)>(s: seq<T>, keep: T -> bool): (r: seq<T>)
    ensures forall x :: x in r <==> x in s && keep(x)
    ensures |r| <= |s|
  {
    if s == [] then []
    else
      var front := s[..|s| - 1];
      var x := s[|s| - 1];
      assert s == front + [x];
      Filter(front, keep) + (if keep(x) then [x] else [])
  }

  /** Filtering keeps the order: it distributes over concatenation. */
  lemma {:induction false} FilterConcat<T(!new)>(a: seq<T>, b: seq<T>, keep: T -> bool)
    ensures Filter(a + b, keep) == Filter(a, keep) + Filter(b, keep)
  {
    if b != [] {
      var front, x := b[..|b| - 1], b[|b| - 1];
      assert (a + b)[..|a + b| - 1] == a + front && (a + b)[|a + b| - 1] == x;
      FilterConcat(a, front, keep);
    } else {
      assert a + b == a;
    }
  }

  /** A filter that keeps every element changes nothing. */
  lemma {:induction false} FilterAll<T(!new)>(s: seq<T>, keep: T -> bool)
    requires forall x :: x in s ==> keep(x)
    ensures Filter(s, keep) == s
  {
    if s != [] {
      var front := s[..|s| - 1];
      assert s == front + [s[|s| - 1]];
      FilterAll(front, keep);
    }
  }

  /** The id of every listed node is known. */
  lemma KnownMember(ns: seq<Node>, n: Node)
    requires n in ns
    ensures n.id in Known(ns)
  {
    IdsOfKnown(ns);
    var i :| 0 <= i < |ns| && ns[i] == n;
    assert IdsOf(ns)[i] == n.id;
  }

  // ---------------------------------------------------------------------------------------------
  // Links between known nodes, paths and cycles

  /**
   * The edges whose source and target both name a known node, as (source, target) pairs in edge
   * order; every other edge is ignored.
   */
  function LinksOf(known: set<string>, edges: seq<Edge>): (links: seq<Link>)
    ensures |links| <= |edges|
  {
    if edges == [] then []
    else
      var e := edges[|edges| - 1];
      LinksOf(known, edges[..|edges| - 1])
        + (if e.source in known && e.target in known then [(e.source, e.target)] else [])
  }

  function Links(nodes: seq<Node>, edges: seq<Edge>): seq<Link>
  {
    LinksOf(Known(nodes), edges)
  }

  /** Both ends of every link are known. */
  lemma {:induction false} LinksOfKnown(known: set<string>, edges: seq<Edge>)
    ensures forall l :: l in LinksOf(known, edges) ==> l.0 in known && l.1 in known
  {
    if edges != [] {
      LinksOfKnown(known, edges[..|edges| - 1]);
    }
  }

  lemma {:induction false} LinksOfMember(known: set<string>, edges: seq<Edge>, a: string, b: string)
    ensures (a, b) in LinksOf(known, edges) <==>
            a in known && b in known && exists e :: e in edges && e.source == a && e.target == b
  {
    if edges != [] {
      var front := edges[..|edges| - 1];
      var e := edges[|edges| - 1];
      assert edges == front + [e];
      LinksOfMember(known, front, a, b);
      if a in known && b in known && (exists e' :: e' in edges && e'.source == a && e'.target == b) {
        var e' :| e' in edges && e'.source == a && e'.target == b;
        if e' != e {
          assert e' in front;
        }
      }
    }
  }

  /** `p` follows links from its first to its last element. */
  ghost predicate IsPath(links: seq<Link>, p: seq<string>)
  {
    |p| >= 1 && forall i :: 0 <= i < |p| - 1 ==> (p[i], p[i + 1]) in links
  }

  /** `b` can be reached from `a` in one or more steps. */
  ghost predicate Reaches(links: seq<Link>, a: string, b: string)
  {
    exists p :: IsPath(links, p) && |p| >= 2 && p[0] == a && p[|p| - 1] == b
  }

  /** No node reaches itself. */
  ghost predicate Acyclic(links: seq<Link>)
  {
    forall p :: IsPath(links, p) && |p| >= 2 ==> p[0] != p[|p| - 1]
  }

  /** Joining two paths that meet at a node gives a path. */
  lemma PathJoin(links: seq<Link>, p: seq<string>, q: seq<string>)
    requires IsPath(links, p) && IsPath(links, q) && p[|p| - 1] == q[0]
    ensures IsPath(links, p + q[1..])
    ensures (p + q[1..])[0] == p[0] && (p + q[1..])[|p + q[1..]| - 1] == q[|q| - 1]
    ensures |p + q[1..]| == |p| + |q| - 1
  {
    var r := p + q[1..];
    forall i | 0 <= i < |r| - 1
      ensures (r[i], r[i + 1]) in links
    {
      if i < |p| - 1 {
        assert r[i] == p[i] && r[i + 1] == p[i + 1];
      } else {
        assert r[i] == q[i - |p| + 1] && r[i + 1] == q[i - |p| + 2];
      }
    }
  }

  /** A path extended by one link is a path. */
  lemma PathSnoc(links: seq<Link>, p: seq<string>, v: string)
    requires IsPath(links, p) && (p[|p| - 1], v) in links
    ensures IsPath(links, p + [v])
  {
    var q := p + [v];
    forall i | 0 <= i < |q| - 1
      ensures (q[i], q[i + 1]) in links
    {
      if i < |p| - 1 {
        assert q[i] == p[i] && q[i + 1] == p[i + 1];
      }
    }
  }

  /** Any stretch of a path is a path. */
  lemma SubPath(links: seq<Link>, p: seq<string>, i: nat, j: nat)
    requires IsPath(links, p) && i <= j < |p|
    ensures IsPath(links, p[i..j + 1])
  {
    var q := p[i..j + 1];
    forall k | 0 <= k < |q| - 1
      ensures (q[k], q[k + 1]) in links
    {
      assert q[k] == p[i + k] && q[k + 1] == p[i + k + 1];
    }
  }

  /** Reachability is transitive. */
  lemma ReachesTrans(links: seq<Link>, a: string, b: string, c: string)
    requires Reaches(links, a, b) && Reaches(links, b, c)
    ensures Reaches(links, a, c)
  {
    var p :| IsPath(links, p) && |p| >= 2 && p[0] == a && p[|p| - 1] == b;
    var q :| IsPath(links, q) && |q| >= 2 && q[0] == b && q[|q| - 1] == c;
    PathJoin(links, p, q);
  }

  /** Adding a link to the links of a graph keeps every path a path. */
  lemma PathMono(links: seq<Link>, more: seq<Link>, p: seq<string>)
    requires IsPath(links, p)
    requires forall l :: l in links ==> l in more
    ensures IsPath(more, p)
  {
  }

  /** Along a path whose links all climb in rank, the rank of every later node is higher. */
  lemma {:induction false} PathClimbs(links: seq<Link>, rank: map<string, int>, p: seq<string>, k: nat)
    requires forall l :: l in links ==> l.0 in rank && l.1 in rank && rank[l.0] < rank[l.1]
    requires IsPath(links, p) && 1 <= k < |p|
    ensures p[0] in rank && p[k] in rank && rank[p[0]] < rank[p[k]]
  {
    assert (p[k - 1], p[k]) in links;
    if k > 1 {
      PathClimbs(links, rank, p, k - 1);
    }
  }

  /** Links that all climb in some rank form no cycle. */
  lemma RankedAcyclic(links: seq<Link>, rank: map<string, int>)
    requires forall l :: l in links ==> l.0 in rank && l.1 in rank && rank[l.0] < rank[l.1]
    ensures Acyclic(links)
  {
    forall p | IsPath(links, p) && |p| >= 2
      ensures p[0] != p[|p| - 1]
    {
      PathClimbs(links, rank, p, |p| - 1);
    }
  }
}
