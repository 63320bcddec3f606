/**
 * What the layer plan guarantees. On any graph: no id is emitted twice, every link between two
 * emitted nodes goes from an earlier layer to a later one, nodes on a cycle and every node reachable
 * from one are dropped, there are at most as many layers as ids, and the plan is unique. On an
 * acyclic graph every id is emitted, so the concatenated layers are a permutation of the key order.
 */
module LayerProps {
  import opened Graph
  import opened LayerSpec
  import opened LayerPlanner

  /** The planner's input: a key order without repeats, and links whose ends are both in it. */
  ghost predicate Arena(links: seq<Link>, order: seq<string>)
  {
    NoDup(order) && forall l :: l in links ==> l.0 in Elems(order) && l.1 in Elems(order)
  }

  /** The ids and links the planner builds from a node list and an edge list form an arena. */
  lemma ArenaOf(nodes: seq<Node>, edges: seq<Edge>)
    ensures Arena(Links(nodes, edges), Ids(nodes))
  {
    IdsFacts(nodes);
    LinksOfKnown(Known(nodes), edges);
  }

  /** The ids of the first `k` layers, concatenated in order. */
  ghost function Flat(plan: seq<seq<string>>, k: nat): seq<string>
    requires k <= |plan|
  {
    if k == 0 then [] else Flat(plan, k - 1) + plan[k - 1]
  }

  /** Every layer of a plan prefix is a frontier: fresh ids, no repeats, all predecessors earlier. */
  lemma {:induction false} PlanFrontier(links: seq<Link>, order: seq<string>, plan: seq<seq<string>>, k: nat)
    requires Arena(links, order) && PlanPrefix(links, order, plan) && k < |plan|
    ensures Frontier(links, Elems(order), Before(plan, k), plan[k])
  {
    PlanLayer(links, order, plan, k);
    if k == 0 {
      WalkingStart(links, Elems(order), order);
    } else {
      PlanFrontier(links, order, plan, k - 1);
      PlanLayer(links, order, plan, k - 1);
      FrontierStep(links, Elems(order), Before(plan, k - 1), plan[k - 1]);
    }
  }

  /** The layers of a plan, each non-empty and each a frontier over the layers before it. */
  ghost predicate Layered(links: seq<Link>, order: seq<string>, plan: seq<seq<string>>)
  {
    forall k :: 0 <= k < |plan| ==> plan[k] != [] && Frontier(links, Elems(order), Before(plan, k), plan[k])
  }

  /** Every prefix of the planner's output is layered. */
  lemma PlanLayered(links: seq<Link>, order: seq<string>, plan: seq<seq<string>>)
    requires Arena(links, order) && PlanPrefix(links, order, plan)
    ensures Layered(links, order, plan)
  {
    forall k | 0 <= k < |plan|
      ensures plan[k] != [] && Frontier(links, Elems(order), Before(plan, k), plan[k])
    {
      PlanLayer(links, order, plan, k);
      PlanFrontier(links, order, plan, k);
    }
  }

  /** An id of layer `k` is new there, and all its predecessors are in earlier layers. */
  lemma LayerEntry(links: seq<Link>, order: seq<string>, plan: seq<seq<string>>, k: nat, v: string)
    requires Layered(links, order, plan) && k < |plan| && v in plan[k]
    ensures v !in Before(plan, k) && PredsIn(links, Before(plan, k), v) && v in Elems(order)
  {
    assert Frontier(links, Elems(order), Before(plan, k), plan[k]);
    assert v in Before(plan, k) + Elems(plan[k]);
  }

  /** Each id is emitted in at most one layer. */
  lemma AtMostOnce(links: seq<Link>, order: seq<string>, plan: seq<seq<string>>, i: nat, j: nat, v: string)
    requires Layered(links, order, plan)
    requires i < j < |plan| && v in plan[i]
    ensures v !in plan[j]
  {
    if v in plan[j] {
      LayerEntry(links, order, plan, j, v);
      BeforeMember(plan, j, v);
    }
  }

  /** No layer lists an id twice. */
  lemma LayerNoDup(links: seq<Link>, order: seq<string>, plan: seq<seq<string>>, k: nat)
    requires Layered(links, order, plan) && k < |plan|
    ensures NoDup(plan[k])
  {
    assert Frontier(links, Elems(order), Before(plan, k), plan[k]);
  }

  /** The predecessor of an emitted node was emitted in an earlier layer. */
  lemma PredEarlier(links: seq<Link>, order: seq<string>, plan: seq<seq<string>>, u: string, v: string, j: nat)
    returns (i: nat)
    requires Layered(links, order, plan)
    requires (u, v) in links && j < |plan| && v in plan[j]
    ensures i < j && u in plan[i]
  {
    LayerEntry(links, order, plan, j, v);
    BeforeMember(plan, j, u);
    i :| 0 <= i < j && u in plan[i];
  }

  /** Every link between two emitted nodes points from an earlier layer to a later one. */
  lemma EdgesForward(links: seq<Link>, order: seq<string>, plan: seq<seq<string>>, u: string, v: string, i: nat, j: nat)
    requires Layered(links, order, plan)
    requires (u, v) in links && i < |plan| && j < |plan| && u in plan[i] && v in plan[j]
    ensures i < j
  {
    var m := PredEarlier(links, order, plan, u, v, j);
    if m < i {
      AtMostOnce(links, order, plan, m, i, u);
    } else if i < m {
      AtMostOnce(links, order, plan, i, m, u);
    }
  }

  /** Walking a path backwards from an emitted node goes down at least one layer per link. */
  lemma {:induction false} PathBack(links: seq<Link>, order: seq<string>, plan: seq<seq<string>>, p: seq<string>, j: nat)
    returns (i: nat)
    requires Layered(links, order, plan)
    requires IsPath(links, p) && j < |plan| && p[|p| - 1] in plan[j]
    ensures i + |p| - 1 <= j && p[0] in plan[i]
    decreases |p|
  {
    if |p| == 1 {
      i := j;
    } else {
      var q := p[..|p| - 1];
      SubPath(links, p, 0, |p| - 2);
      assert p[0..|p| - 1] == q;
      var j' := PredEarlier(links, order, plan, p[|p| - 2], p[|p| - 1], j);
      i := PathBack(links, order, plan, q, j');
    }
  }

  /** A node on a cycle is in no layer. */
  lemma CycleDropped(links: seq<Link>, order: seq<string>, plan: seq<seq<string>>, v: string)
    requires Layered(links, order, plan)
    requires Reaches(links, v, v)
    ensures v !in Before(plan, |plan|)
  {
    if v in Before(plan, |plan|) {
      BeforeMember(plan, |plan|, v);
      var j :| 0 <= j < |plan| && v in plan[j];
      var p :| IsPath(links, p) && |p| >= 2 && p[0] == v && p[|p| - 1] == v;
      var i := PathBack(links, order, plan, p, j);
      AtMostOnce(links, order, plan, i, j, v);
    }
  }

  /** A node reachable from a cycle is in no layer either. */
  lemma DescendantDropped(links: seq<Link>, order: seq<string>, plan: seq<seq<string>>, c: string, v: string)
    requires Layered(links, order, plan)
    requires Reaches(links, c, c) && Reaches(links, c, v)
    ensures v !in Before(plan, |plan|)
  {
    CycleDropped(links, order, plan, c);
    if v in Before(plan, |plan|) {
      BeforeMember(plan, |plan|, v);
      var j :| 0 <= j < |plan| && v in plan[j];
      var p :| IsPath(links, p) && |p| >= 2 && p[0] == c && p[|p| - 1] == v;
      var i := PathBack(links, order, plan, p, j);
      BeforeMember(plan, |plan|, c);
    }
  }

  /** Every emitted id is a key. */
  lemma {:induction false} EmittedKnown(links: seq<Link>, order: seq<string>, plan: seq<seq<string>>, k: nat)
    requires Layered(links, order, plan) && k <= |plan|
    ensures Before(plan, k) <= Elems(order)
    decreases k
  {
    if k > 0 {
      EmittedKnown(links, order, plan, k - 1);
      assert Frontier(links, Elems(order), Before(plan, k - 1), plan[k - 1]);
    }
  }

  // ---------------------------------------------------------------------------------------------
  // Completeness on acyclic graphs

  /** What a complete plan says about the walk: the first layer is the sources, the successor of each layer the next one, and nothing follows the last. */
  ghost predicate Chained(links: seq<Link>, order: seq<string>, plan: seq<seq<string>>)
  {
    && Sources(links, order) == (if plan == [] then [] else plan[0])
    && forall k :: 0 <= k < |plan| ==>
         NextLayer(links, Before(plan, k), plan[k]) == (if k + 1 < |plan| then plan[k + 1] else [])
  }

  /** The planner's complete output is chained. */
  lemma PlannedChained(links: seq<Link>, order: seq<string>, plan: seq<seq<string>>)
    requires Planned(links, order, plan)
    ensures Chained(links, order, plan)
  {
    if plan != [] {
      PlanLayer(links, order, plan, 0);
    }
    forall k | 0 <= k < |plan|
      ensures NextLayer(links, Before(plan, k), plan[k]) == (if k + 1 < |plan| then plan[k + 1] else [])
    {
      if k + 1 < |plan| {
        PlanLayer(links, order, plan, k + 1);
      }
    }
  }

  /** Conversely, chained non-empty layers are the planner's complete output. */
  lemma ChainedPlanned(links: seq<Link>, order: seq<string>, plan: seq<seq<string>>)
    requires Chained(links, order, plan) && forall k :: 0 <= k < |plan| ==> plan[k] != []
    ensures Planned(links, order, plan)
  {
    ChainedPrefix(links, order, plan, |plan|);
    assert plan[..|plan|] == plan;
    if plan != [] {
      ChainedAt(links, order, plan, |plan| - 1);
    }
  }

  lemma {:induction false} ChainedPrefix(links: seq<Link>, order: seq<string>, plan: seq<seq<string>>, n: nat)
    requires Chained(links, order, plan) && forall k :: 0 <= k < |plan| ==> plan[k] != []
    requires n <= |plan|
    ensures PlanPrefix(links, order, plan[..n])
  {
    if n > 0 {
      ChainedPrefix(links, order, plan, n - 1);
      if n > 1 {
        ChainedAt(links, order, plan, n - 2);
      }
      PrefixStep(links, order, plan, n);
    }
  }

  /** One more chained layer extends a plan prefix. */
  lemma PrefixStep(links: seq<Link>, order: seq<string>, plan: seq<seq<string>>, n: nat)
    requires 0 < n <= |plan| && PlanPrefix(links, order, plan[..n - 1]) && plan[n - 1] != []
    requires n == 1 ==> plan[0] == Sources(links, order)
    requires n > 1 ==> plan[n - 1] == NextLayer(links, Before(plan, n - 2), plan[n - 2])
    ensures PlanPrefix(links, order, plan[..n])
  {
    var front := plan[..n - 1];
    if n > 1 {
      FrontAgrees(plan, n - 1);
    }
    PlanPrefixExtend(links, order, front, plan[n - 1]);
    assert front + [plan[n - 1]] == plan[..n];
  }

  /** The first `m` layers of a plan, taken alone, agree with the plan before position `m`. */
  lemma FrontAgrees(plan: seq<seq<string>>, m: nat)
    requires 0 < m <= |plan|
    ensures Before(plan[..m], m - 1) == Before(plan, m - 1) && plan[..m][m - 1] == plan[m - 1]
  {
    BeforePrefix(plan[..m], plan[m..], m - 1);
    assert plan == plan[..m] + plan[m..];
  }

  /** A set of ids that holds every key all of whose predecessors it holds. */
  ghost predicate Closed(links: seq<Link>, order: seq<string>, done: set<string>)
  {
    forall v :: v in Elems(order) && PredsIn(links, done, v) ==> v in done
  }

  /** The first `m <= k` such that the first `m` layers hold every predecessor of `v`. */
  lemma {:induction false} FirstCover(links: seq<Link>, plan: seq<seq<string>>, v: string, k: nat) returns (m: nat)
    requires k <= |plan| && PredsIn(links, Before(plan, k), v) && !PredsIn(links, {}, v)
    ensures 0 < m <= k && PredsIn(links, Before(plan, m), v) && !PredsIn(links, Before(plan, m - 1), v)
  {
    if PredsIn(links, Before(plan, k - 1), v) {
      m := FirstCover(links, plan, v, k - 1);
    } else {
      m := k;
    }
  }

  lemma {:induction false} LinkedFromIntro(links: seq<Link>, cur: seq<string>, n: nat, i: nat, v: string)
    requires i < n <= |cur| && (cur[i], v) in links
    ensures LinkedFrom(links, cur, n, v)
  {
    if i < n - 1 {
      LinkedFromIntro(links, cur, n - 1, i, v);
    }
  }

  /** A key without predecessors is in the first layer. */
  lemma SourceEmitted(links: seq<Link>, order: seq<string>, plan: seq<seq<string>>, v: string)
    requires Arena(links, order) && Chained(links, order, plan)
    requires v in Elems(order) && PredsIn(links, {}, v)
    ensures plan != [] && v in plan[0]
  {
    SourcesFacts(links, order);
  }

  /** A node whose predecessors all came before layer `k + 1`, some of them in layer `k`, is in the layer after `k`. */
  lemma LinkedEmitted(links: seq<Link>, order: seq<string>, plan: seq<seq<string>>, k: nat, v: string)
    requires k < |plan| && NextLayer(links, Before(plan, k), plan[k]) == (if k + 1 < |plan| then plan[k + 1] else [])
    requires PredsIn(links, Before(plan, k + 1), v) && !PredsIn(links, Before(plan, k), v)
    ensures k + 1 < |plan| && v in plan[k + 1]
  {
    var l :| l in links && l.1 == v && l.0 !in Before(plan, k);
    var i :| 0 <= i < |plan[k]| && plan[k][i] == l.0;
    LinkedFromIntro(links, plan[k], |plan[k]|, i, v);
    assert plan[k][..|plan[k]|] == plan[k];
    NextMember(links, Before(plan, k), plan[k], |plan[k]|, v);
    assert v in NextLayer(links, Before(plan, k), plan[k]);
  }

  /** A key all of whose predecessors a complete plan emits is emitted itself. */
  lemma CoveredEmitted(links: seq<Link>, order: seq<string>, plan: seq<seq<string>>, v: string)
    requires Arena(links, order) && Chained(links, order, plan)
    requires v in Elems(order) && PredsIn(links, Before(plan, |plan|), v)
    ensures v in Before(plan, |plan|)
  {
    BeforeMember(plan, |plan|, v);
    if PredsIn(links, {}, v) {
      SourceEmitted(links, order, plan, v);
    } else {
      var m := FirstCover(links, plan, v, |plan|);
      ChainedAt(links, order, plan, m - 1);
      LinkedEmitted(links, order, plan, m - 1, v);
    }
  }

  lemma ChainedAt(links: seq<Link>, order: seq<string>, plan: seq<seq<string>>, k: nat)
    requires Chained(links, order, plan) && k < |plan|
    ensures NextLayer(links, Before(plan, k), plan[k]) == (if k + 1 < |plan| then plan[k + 1] else [])
  {
  }

  /** The ids a complete plan emits are closed: a key all of whose predecessors were emitted is emitted. */
  lemma ChainedClosed(links: seq<Link>, order: seq<string>, plan: seq<seq<string>>)
    requires Arena(links, order) && Chained(links, order, plan)
    ensures Closed(links, order, Before(plan, |plan|))
  {
    forall v | v in Elems(order) && PredsIn(links, Before(plan, |plan|), v)
      ensures v in Before(plan, |plan|)
    {
      CoveredEmitted(links, order, plan, v);
    }
  }

  /** A key left out of a closed set has a predecessor left out of it. */
  lemma Stuck(links: seq<Link>, order: seq<string>, done: set<string>, v: string) returns (u: string)
    requires Arena(links, order) && Closed(links, order, done)
    requires v in Elems(order) && v !in done
    ensures (u, v) in links && u in Elems(order) && u !in done
  {
    var l :| l in links && l.1 == v && l.0 !in done;
    u := l.0;
  }

  /** A path of `n` links, made of keys left out of a closed set, ending at `v`. */
  lemma {:induction false} BackChain(links: seq<Link>, order: seq<string>, done: set<string>, v: string, n: nat)
    returns (p: seq<string>)
    requires Arena(links, order) && Closed(links, order, done)
    requires v in Elems(order) && v !in done
    ensures |p| == n + 1 && IsPath(links, p) && p[n] == v
    ensures forall x :: x in p ==> x in Elems(order)
    decreases n
  {
    if n == 0 {
      p := [v];
    } else {
      var u := Stuck(links, order, done, v);
      var q := BackChain(links, order, done, u, n - 1);
      p := q + [v];
      PathSnoc(links, q, v);
    }
  }

  /** A path that visits some node twice makes the graph cyclic. */
  lemma RepeatCycle(links: seq<Link>, p: seq<string>, i: nat, j: nat)
    requires IsPath(links, p) && i < j < |p| && p[i] == p[j]
    ensures !Acyclic(links)
  {
    SubPath(links, p, i, j);
    var c := p[i..j + 1];
    assert |c| >= 2 && c[0] == c[|c| - 1];
  }

  /**
   * On an acyclic graph a closed set holds every key: a key left out would start a backward chain
   * of left-out keys longer than the number of keys, which must repeat a key and so contain a cycle.
   */
  lemma ClosedComplete(links: seq<Link>, order: seq<string>, done: set<string>, v: string)
    requires Arena(links, order) && Closed(links, order, done) && Acyclic(links)
    requires v in Elems(order)
    ensures v in done
  {
    if v !in done {
      var p := BackChain(links, order, done, v, |order|);
      NoDupCard(order);
      var i, j := Repeat(p, Elems(order));
      RepeatCycle(links, p, i, j);
      assert false;
    }
  }

  /** On an acyclic graph every key is emitted. */
  lemma DagComplete(links: seq<Link>, order: seq<string>, plan: seq<seq<string>>)
    requires Arena(links, order) && Planned(links, order, plan) && Acyclic(links)
    ensures Before(plan, |plan|) == Elems(order)
  {
    PlanLayered(links, order, plan);
    EmittedKnown(links, order, plan, |plan|);
    PlannedChained(links, order, plan);
    ChainedClosed(links, order, plan);
    forall v | v in Elems(order)
      ensures v in Before(plan, |plan|)
    {
      ClosedComplete(links, order, Before(plan, |plan|), v);
    }
  }

  // ---------------------------------------------------------------------------------------------
  // Counting

  /** A sequence without repeats has as many elements as positions. */
  lemma {:induction false} NoDupCard<T>(s: seq<T>)
    requires NoDup(s)
    ensures |Elems(s)| == |s|
  {
    if s != [] {
      var front := s[..|s| - 1];
      NoDupCard(front);
      assert s == front + [s[|s| - 1]];
      ElemsAppend(front, s[|s| - 1]);
    }
  }

  /** More positions than possible values forces a repeat. */
  lemma Repeat<T>(s: seq<T>, values: set<T>) returns (i: nat, j: nat)
    requires |s| > |values| && forall x :: x in s ==> x in values
    ensures i < j < |s| && s[i] == s[j]
  {
    if NoDup(s) {
      NoDupCard(s);
      assert Elems(s) <= values;
      SubsetCard(Elems(s), values);
      assert false;
    }
    i, j := RepeatOf(s);
  }

  lemma SubsetCard<T>(a: set<T>, b: set<T>)
    requires a <= b
    ensures |a| <= |b|
  {
    assert b == a + (b - a);
  }

  /** A sequence that is not free of repeats has a repeat. */
  lemma {:induction false} RepeatOf<T>(s: seq<T>) returns (i: nat, j: nat)
    requires !NoDup(s)
    ensures i < j < |s| && s[i] == s[j]
  {
    var front := s[..|s| - 1];
    if NoDup(front) {
      var x := s[|s| - 1];
      assert x in front;
      i :| 0 <= i < |front| && front[i] == x;
      j := |s| - 1;
    } else {
      i, j := RepeatOf(front);
    }
  }

  /** Without repeats, each element occurs once. */
  lemma {:induction false} NoDupCount<T>(s: seq<T>, x: T)
    requires NoDup(s)
    ensures multiset(s)[x] == if x in s then 1 else 0
  {
    if s != [] {
      var front := s[..|s| - 1];
      NoDupCount(front, x);
      assert s == front + [s[|s| - 1]];
    }
  }

  /** Appending a layer of fresh ids keeps the concatenation free of repeats and adds the layer's ids. */
  lemma FlatStep(f: seq<string>, b: set<string>, layer: seq<string>)
    requires NoDup(f) && Elems(f) == b && NoDup(layer) && layer != [] && Elems(layer) !! b
    ensures NoDup(f + layer) && Elems(f + layer) == b + Elems(layer) && |f + layer| >= |f| + 1
  {
    forall x | x in f
      ensures x !in layer
    {
      assert x in Elems(f);
      assert x !in Elems(layer);
    }
    NoDupConcat(f, layer);
  }

  /** Each layer is non-empty, without repeats, and made of ids not emitted before it. */
  ghost predicate FreshLayers(plan: seq<seq<string>>)
  {
    forall k :: 0 <= k < |plan| ==> plan[k] != [] && NoDup(plan[k]) && Elems(plan[k]) !! Before(plan, k)
  }

  /** The layers of a layered plan are fresh. */
  lemma LayeredFresh(links: seq<Link>, order: seq<string>, plan: seq<seq<string>>)
    requires Layered(links, order, plan)
    ensures FreshLayers(plan)
  {
    forall k | 0 <= k < |plan|
      ensures plan[k] != [] && NoDup(plan[k]) && Elems(plan[k]) !! Before(plan, k)
    {
      assert Frontier(links, Elems(order), Before(plan, k), plan[k]);
    }
  }

  /** The concatenated layers hold exactly the emitted ids, once each, and at least one id per layer. */
  lemma {:induction false} FlatFacts(plan: seq<seq<string>>, k: nat)
    requires FreshLayers(plan) && k <= |plan|
    ensures NoDup(Flat(plan, k)) && Elems(Flat(plan, k)) == Before(plan, k) && |Flat(plan, k)| >= k
  {
    if k > 0 {
      FlatFacts(plan, k - 1);
      assert plan[k - 1] != [] && NoDup(plan[k - 1]) && Elems(plan[k - 1]) !! Before(plan, k - 1);
      FlatStep(Flat(plan, k - 1), Before(plan, k - 1), plan[k - 1]);
      assert Flat(plan, k) == Flat(plan, k - 1) + plan[k - 1];
      assert Before(plan, k) == Before(plan, k - 1) + Elems(plan[k - 1]);
    }
  }

  /** There are at most as many layers as keys, whatever the graph. */
  lemma LayerBound(links: seq<Link>, order: seq<string>, plan: seq<seq<string>>)
    requires Arena(links, order) && Layered(links, order, plan)
    ensures |plan| <= |order|
  {
    LayeredFresh(links, order, plan);
    FlatFacts(plan, |plan|);
    NoDupCard(Flat(plan, |plan|));
    EmittedKnown(links, order, plan, |plan|);
    SubsetCard(Before(plan, |plan|), Elems(order));
    NoDupCard(order);
  }

  /** Two sequences without repeats that hold the same elements are permutations of each other. */
  lemma SameElems<T>(a: seq<T>, b: seq<T>)
    requires NoDup(a) && NoDup(b) && Elems(a) == Elems(b)
    ensures multiset(a) == multiset(b)
  {
    forall x
      ensures multiset(a)[x] == multiset(b)[x]
    {
      NoDupCount(a, x);
      NoDupCount(b, x);
      assert x in a <==> x in Elems(a);
      assert x in b <==> x in Elems(b);
    }
  }

  /** On an acyclic graph the concatenated layers are a permutation of the key order. */
  lemma DagPermutation(links: seq<Link>, order: seq<string>, plan: seq<seq<string>>)
    requires Arena(links, order) && Planned(links, order, plan) && Acyclic(links)
    ensures multiset(Flat(plan, |plan|)) == multiset(order)
  {
    DagComplete(links, order, plan);
    PlanLayered(links, order, plan);
    LayeredFresh(links, order, plan);
    FlatFacts(plan, |plan|);
    SameElems(Flat(plan, |plan|), order);
  }

  // ---------------------------------------------------------------------------------------------
  // Uniqueness

  /** Two plans that agree on their first `k` layers have emitted the same ids by then. */
  lemma {:induction false} BeforeAgree(p1: seq<seq<string>>, p2: seq<seq<string>>, k: nat)
    requires k <= |p1| && k <= |p2| && p1[..k] == p2[..k]
    ensures Before(p1, k) == Before(p2, k)
  {
    if k > 0 {
      assert p1[..k - 1] == p1[..k][..k - 1];
      assert p2[..k - 1] == p2[..k][..k - 1];
      BeforeAgree(p1, p2, k - 1);
      assert p1[k - 1] == p1[..k][k - 1];
      assert p2[k - 1] == p2[..k][k - 1];
    }
  }

  /** Two plans that agree on their first `k` layers have the same successor there. */
  lemma SuccessorAgree(links: seq<Link>, order: seq<string>, p1: seq<seq<string>>, p2: seq<seq<string>>, k: nat)
    requires k <= |p1| && k <= |p2| && p1[..k] == p2[..k]
    ensures Successor(links, order, p1, k) == Successor(links, order, p2, k)
  {
    if k > 0 {
      assert p1[..k - 1] == p1[..k][..k - 1] == p2[..k][..k - 1] == p2[..k - 1];
      BeforeAgree(p1, p2, k - 1);
      assert p1[k - 1] == p1[..k][k - 1] == p2[..k][k - 1] == p2[k - 1];
    }
  }

  /** Two plan prefixes that agree on their first `k` layers agree on layer `k` too. */
  lemma LayerAgree(links: seq<Link>, order: seq<string>, p1: seq<seq<string>>, p2: seq<seq<string>>, k: nat)
    requires PlanPrefix(links, order, p1) && PlanPrefix(links, order, p2)
    requires k < |p1| && k < |p2| && p1[..k] == p2[..k]
    ensures p1[k] == p2[k]
  {
    SuccessorAgree(links, order, p1, p2, k);
    PlanLayer(links, order, p1, k);
    PlanLayer(links, order, p2, k);
  }

  lemma {:induction false} PrefixAgree(links: seq<Link>, order: seq<string>, p1: seq<seq<string>>, p2: seq<seq<string>>, k: nat)
    requires PlanPrefix(links, order, p1) && PlanPrefix(links, order, p2)
    requires k <= |p1| && k <= |p2|
    ensures p1[..k] == p2[..k]
  {
    if k > 0 {
      PrefixAgree(links, order, p1, p2, k - 1);
      LayerAgree(links, order, p1, p2, k - 1);
      assert p1[..k] == p1[..k - 1] + [p1[k - 1]];
      assert p2[..k] == p2[..k - 1] + [p2[k - 1]];
    }
  }

  /** The plan is determined by the links and the key order. */
  lemma PlannedUnique(links: seq<Link>, order: seq<string>, p1: seq<seq<string>>, p2: seq<seq<string>>)
    requires Planned(links, order, p1) && Planned(links, order, p2)
    ensures p1 == p2
  {
    NotPrefix(links, order, p1, p2);
    NotPrefix(links, order, p2, p1);
    SameLength(links, order, p1, p2);
  }

  /** Two plan prefixes of the same length are equal. */
  lemma SameLength(links: seq<Link>, order: seq<string>, p1: seq<seq<string>>, p2: seq<seq<string>>)
    requires PlanPrefix(links, order, p1) && PlanPrefix(links, order, p2) && |p1| == |p2|
    ensures p1 == p2
  {
    PrefixAgree(links, order, p1, p2, |p1|);
    assert p1 == p1[..|p1|];
    assert p2 == p2[..|p2|];
  }

  /** A complete plan is not a proper prefix of another plan: the planner stops where it stops. */
  lemma NotPrefix(links: seq<Link>, order: seq<string>, p1: seq<seq<string>>, p2: seq<seq<string>>)
    requires Planned(links, order, p1) && PlanPrefix(links, order, p2)
    ensures |p2| <= |p1|
  {
    var n := |p1|;
    if n < |p2| {
      PlanLayer(links, order, p2, n);
      PrefixAgree(links, order, p1, p2, n);
      assert p1[..n] == p1;
      SuccessorAgree(links, order, p1, p2, n);
      assert false;
    }
  }
}
