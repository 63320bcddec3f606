/**
 * The three graphs of the layer planner's test script (a chain, a diamond, two independent
 * starts), with the layers the planner produces on each.
 */
module TopoTests {
  import opened Graph
  import opened LayerSpec
  import opened LayerPlanner
  import opened LayerProps

  function Plain(id: string): Node
  {
    Node(id, OtherKind, map[], map[])
  }

  function Wire(source: string, target: string): Edge
  {
    Edge(source, target, None)
  }

  lemma KnownSnoc(ns: seq<Node>, n: Node)
    ensures Known(ns + [n]) == Known(ns) + {n.id}
  {
    assert (ns + [n])[..|ns|] == ns;
  }

  lemma IdsSnoc(ns: seq<Node>, n: Node)
    ensures Ids(ns + [n]) == if n.id in Ids(ns) then Ids(ns) else Ids(ns) + [n.id]
  {
    assert (ns + [n])[..|ns|] == ns;
  }

  lemma LinksOfSnoc(known: set<string>, es: seq<Edge>, e: Edge)
    ensures LinksOf(known, es + [e]) ==
      LinksOf(known, es) + if e.source in known && e.target in known then [(e.source, e.target)] else []
  {
    assert (es + [e])[..|es|] == es;
  }

  lemma SourcesSnoc(links: seq<Link>, order: seq<string>, v: string)
    ensures Sources(links, order + [v]) == Sources(links, order) + if PredsIn(links, {}, v) then [v] else []
  {
    assert (order + [v])[..|order|] == order;
  }

  lemma TargetsSnoc(links: seq<Link>, l: Link, u: string)
    ensures Targets(links + [l], u) == Targets(links, u) + if l.0 == u then [l.1] else []
  {
    assert (links + [l])[..|links|] == links;
  }

  lemma NextOne(links: seq<Link>, done: set<string>, u: string)
    ensures NextLayer(links, done, [u]) == Keep(links, done + {u}, Targets(links, u), |Targets(links, u)|)
  {
    assert [u][..1] == [u];
    assert Elems([u]) == {u};
    assert Next(links, done, [u], 0) == [];
    assert NextLayer(links, done, [u]) == Next(links, done, [u], 1);
  }

  lemma NextTwo(links: seq<Link>, done: set<string>, u: string, w: string)
    ensures NextLayer(links, done, [u, w]) ==
      Keep(links, done + {u}, Targets(links, u), |Targets(links, u)|)
        + Keep(links, done + {u, w}, Targets(links, w), |Targets(links, w)|)
  {
    assert [u, w][..1] == [u];
    assert [u, w][..2] == [u, w];
    assert Elems([u]) == {u};
    assert Elems([u, w]) == {u, w};
    assert Next(links, done, [u, w], 0) == [];
    assert NextLayer(links, done, [u, w]) == Next(links, done, [u, w], 2);
  }

  /** Walking a lone node `u` whose only target is `t` emits `t` exactly when `t` has no other pending predecessor. */
  lemma WalkOne(links: seq<Link>, done: set<string>, u: string, t: string)
    requires Targets(links, u) == [t]
    ensures NextLayer(links, done, [u]) == if PredsIn(links, done + {u}, t) then [t] else []
  {
    NextOne(links, done, u);
    KeepOne(links, done + {u}, t);
  }

  lemma KeepTwo(links: seq<Link>, walked: set<string>, t1: string, t2: string)
    ensures Keep(links, walked, [t1, t2], 2) ==
      (if t1 != t2 && PredsIn(links, walked, t1) then [t1] else []) + (if PredsIn(links, walked, t2) then [t2] else [])
  {
    assert [t1, t2][1..] == [t2];
    assert [t1, t2][2..] == [];
    assert t1 in [t2] <==> t1 == t2;
    assert Keep(links, walked, [t1, t2], 0) == [];
  }

  lemma KeepOne(links: seq<Link>, walked: set<string>, t: string)
    ensures Keep(links, walked, [t], 1) == if PredsIn(links, walked, t) then [t] else []
  {
  }

  /** Three layers, each the successor of the one before and the last with no successor, are a complete plan. */
  lemma ThreeLayers(links: seq<Link>, order: seq<string>, l0: seq<string>, l1: seq<string>, l2: seq<string>)
    requires l0 != [] && l1 != [] && l2 != [] && Sources(links, order) == l0
    requires NextLayer(links, {}, l0) == l1
    requires NextLayer(links, Elems(l0), l1) == l2
    requires NextLayer(links, Elems(l0) + Elems(l1), l2) == []
    ensures Planned(links, order, [l0, l1, l2])
  {
    var plan := [l0, l1, l2];
    assert Before(plan, 1) == Elems(l0);
    assert Before(plan, 2) == Elems(l0) + Elems(l1);
    ChainedPlanned(links, order, plan);
  }

  /** Two layers, the second the successor of the first and without successor itself, are a complete plan. */
  lemma TwoLayers(links: seq<Link>, order: seq<string>, l0: seq<string>, l1: seq<string>)
    requires l0 != [] && l1 != [] && Sources(links, order) == l0
    requires NextLayer(links, {}, l0) == l1
    requires NextLayer(links, Elems(l0), l1) == []
    ensures Planned(links, order, [l0, l1])
  {
    var plan := [l0, l1];
    assert Before(plan, 1) == Elems(l0);
    ChainedPlanned(links, order, plan);
  }

  // A -> B -> C

  function LinearNodes(): seq<Node> { [Plain("A"), Plain("B"), Plain("C")] }
  function LinearEdges(): seq<Edge> { [Wire("A", "B"), Wire("B", "C")] }

  lemma LinearGraph()
    ensures Links(LinearNodes(), LinearEdges()) == [("A", "B"), ("B", "C")]
    ensures Ids(LinearNodes()) == ["A", "B", "C"]
  {
    var a, b, c := Plain("A"), Plain("B"), Plain("C");
    KnownSnoc([], a);
    KnownSnoc([a], b);
    assert [a] + [b] == [a, b];
    KnownSnoc([a, b], c);
    assert [a, b] + [c] == LinearNodes();
    var known := Known(LinearNodes());
    assert known == {"A", "B", "C"};
    IdsSnoc([], a);
    IdsSnoc([a], b);
    IdsSnoc([a, b], c);
    LinksOfSnoc(known, [], Wire("A", "B"));
    LinksOfSnoc(known, [Wire("A", "B")], Wire("B", "C"));
    assert [Wire("A", "B")] + [Wire("B", "C")] == LinearEdges();
  }

  function LinearLinks(): seq<Link> { [("A", "B"), ("B", "C")] }

  lemma LinearSources()
    ensures Sources(LinearLinks(), ["A", "B", "C"]) == ["A"]
  {
    var links := LinearLinks();
    SourcesSnoc(links, [], "A");
    SourcesSnoc(links, ["A"], "B");
    SourcesSnoc(links, ["A", "B"], "C");
    assert !PredsIn(links, {}, "B") by { assert links[0] in links; }
    assert !PredsIn(links, {}, "C") by { assert links[1] in links; }
  }

  lemma LinearTargets()
    ensures Targets(LinearLinks(), "A") == ["B"]
    ensures Targets(LinearLinks(), "B") == ["C"]
    ensures Targets(LinearLinks(), "C") == []
  {
    var l0, l1 := ("A", "B"), ("B", "C");
    assert [l0] + [l1] == LinearLinks();
    TargetsSnoc([], l0, "A");
    TargetsSnoc([l0], l1, "A");
    TargetsSnoc([], l0, "B");
    TargetsSnoc([l0], l1, "B");
    TargetsSnoc([], l0, "C");
    TargetsSnoc([l0], l1, "C");
  }

  lemma LinearPreds()
    ensures PredsIn(LinearLinks(), {"A"}, "B") && PredsIn(LinearLinks(), {"A", "B"}, "C")
  {
  }

  lemma LinearNext()
    ensures NextLayer(LinearLinks(), {}, ["A"]) == ["B"]
    ensures NextLayer(LinearLinks(), {"A"}, ["B"]) == ["C"]
    ensures NextLayer(LinearLinks(), {"A", "B"}, ["C"]) == []
  {
    LinearTargets();
    LinearPreds();
    LinearFirst();
    LinearSecond();
    NextOne(LinearLinks(), {"A", "B"}, "C");
  }

  lemma LinearFirst()
    requires Targets(LinearLinks(), "A") == ["B"] && PredsIn(LinearLinks(), {"A"}, "B")
    ensures NextLayer(LinearLinks(), {}, ["A"]) == ["B"]
  {
    WalkOne(LinearLinks(), {}, "A", "B");
    assert {} + {"A"} == {"A"};
  }

  lemma LinearSecond()
    requires Targets(LinearLinks(), "B") == ["C"] && PredsIn(LinearLinks(), {"A", "B"}, "C")
    ensures NextLayer(LinearLinks(), {"A"}, ["B"]) == ["C"]
  {
    WalkOne(LinearLinks(), {"A"}, "B", "C");
    assert {"A"} + {"B"} == {"A", "B"};
  }

  lemma LinearWalk()
    ensures Planned(LinearLinks(), ["A", "B", "C"], [["A"], ["B"], ["C"]])
  {
    LinearSources();
    LinearNext();
    assert Elems(["A"]) == {"A"} && Elems(["A"]) + Elems(["B"]) == {"A", "B"};
    ThreeLayers(LinearLinks(), ["A", "B", "C"], ["A"], ["B"], ["C"]);
  }

  /** Running the planner on the chain gives one layer per node, in chain order. */
  method LinearLayers() returns (ids: seq<seq<string>>)
    ensures ids == [["A"], ["B"], ["C"]]
  {
    var layers := ExecutionLayers(LinearNodes(), LinearEdges());
    ids := LayerIds(layers);
    LinearGraph();
    LinearWalk();
    PlannedUnique(LinearLinks(), ["A", "B", "C"], ids, [["A"], ["B"], ["C"]]);
  }

  // A -> B, A -> C, B -> D, C -> D

  function DiamondNodes(): seq<Node> { [Plain("A"), Plain("B"), Plain("C"), Plain("D")] }
  function DiamondEdges(): seq<Edge> { [Wire("A", "B"), Wire("A", "C"), Wire("B", "D"), Wire("C", "D")] }
  function DiamondLinks(): seq<Link> { [("A", "B"), ("A", "C"), ("B", "D"), ("C", "D")] }

  lemma DiamondKnown()
    ensures Known(DiamondNodes()) == {"A", "B", "C", "D"}
  {
    var a, b, c, d := Plain("A"), Plain("B"), Plain("C"), Plain("D");
    KnownSnoc([], a);
    KnownSnoc([a], b);
    KnownSnoc([a, b], c);
    KnownSnoc([a, b, c], d);
    assert [a] + [b] == [a, b];
    assert [a, b] + [c] == [a, b, c];
    assert [a, b, c] + [d] == DiamondNodes();
  }

  lemma DiamondIds()
    ensures Ids(DiamondNodes()) == ["A", "B", "C", "D"]
  {
    var a, b, c, d := Plain("A"), Plain("B"), Plain("C"), Plain("D");
    LinearGraph();
    assert [a, b, c] == LinearNodes();
    IdsSnoc([a, b, c], d);
    assert "D" !in ["A", "B", "C"];
    assert [a, b, c] + [d] == DiamondNodes();
  }

  lemma DiamondGraph()
    ensures Links(DiamondNodes(), DiamondEdges()) == DiamondLinks()
    ensures Ids(DiamondNodes()) == ["A", "B", "C", "D"]
  {
    DiamondKnown();
    DiamondIds();
    var known := {"A", "B", "C", "D"};
    var e0, e1, e2, e3 := Wire("A", "B"), Wire("A", "C"), Wire("B", "D"), Wire("C", "D");
    LinksOfSnoc(known, [], e0);
    LinksOfSnoc(known, [e0], e1);
    LinksOfSnoc(known, [e0, e1], e2);
    LinksOfSnoc(known, [e0, e1, e2], e3);
    assert [e0] + [e1] == [e0, e1];
    assert [e0, e1] + [e2] == [e0, e1, e2];
    assert [e0, e1, e2] + [e3] == DiamondEdges();
  }

  lemma DiamondRoots()
    ensures PredsIn(DiamondLinks(), {}, "A")
    ensures !PredsIn(DiamondLinks(), {}, "B") && !PredsIn(DiamondLinks(), {}, "C") && !PredsIn(DiamondLinks(), {}, "D")
  {
    var links := DiamondLinks();
    assert links[0] in links && links[1] in links && links[2] in links;
  }

  lemma DiamondSources()
    ensures Sources(DiamondLinks(), ["A", "B", "C", "D"]) == ["A"]
  {
    var links := DiamondLinks();
    DiamondRoots();
    DiamondSourcesABC();
    SourcesSnoc(links, ["A", "B", "C"], "D");
    assert ["A", "B", "C"] + ["D"] == ["A", "B", "C", "D"];
  }

  lemma DiamondSourcesABC()
    requires PredsIn(DiamondLinks(), {}, "A")
    requires !PredsIn(DiamondLinks(), {}, "B") && !PredsIn(DiamondLinks(), {}, "C")
    ensures Sources(DiamondLinks(), ["A", "B", "C"]) == ["A"]
  {
    var links := DiamondLinks();
    SourcesSnoc(links, [], "A");
    assert [] + ["A"] == ["A"];
    SourcesSnoc(links, ["A"], "B");
    assert ["A"] + ["B"] == ["A", "B"];
    SourcesSnoc(links, ["A", "B"], "C");
    assert ["A", "B"] + ["C"] == ["A", "B", "C"];
  }

  lemma DiamondTargets()
    ensures Targets(DiamondLinks(), "A") == ["B", "C"]
    ensures Targets(DiamondLinks(), "B") == ["D"]
    ensures Targets(DiamondLinks(), "C") == ["D"]
    ensures Targets(DiamondLinks(), "D") == []
  {
    var l0, l1, l2, l3 := ("A", "B"), ("A", "C"), ("B", "D"), ("C", "D");
    assert [l0] + [l1] == [l0, l1];
    assert [l0, l1] + [l2] == [l0, l1, l2];
    assert [l0, l1, l2] + [l3] == DiamondLinks();
    forall u | u in {"A", "B", "C", "D"}
      ensures Targets(DiamondLinks(), u) ==
        (if u == "A" then [l0.1] else []) + (if u == "A" then [l1.1] else [])
          + (if u == "B" then [l2.1] else []) + (if u == "C" then [l3.1] else [])
    {
      TargetsSnoc([], l0, u);
      TargetsSnoc([l0], l1, u);
      TargetsSnoc([l0, l1], l2, u);
      TargetsSnoc([l0, l1, l2], l3, u);
    }
  }

  lemma DiamondNext()
    ensures NextLayer(DiamondLinks(), {}, ["A"]) == ["B", "C"]
    ensures NextLayer(DiamondLinks(), {"A"}, ["B", "C"]) == ["D"]
    ensures NextLayer(DiamondLinks(), {"A", "B", "C"}, ["D"]) == []
  {
    DiamondTargets();
    DiamondFirst();
    DiamondSecond();
    NextOne(DiamondLinks(), {"A", "B", "C"}, "D");
  }

  lemma DiamondFirst()
    requires Targets(DiamondLinks(), "A") == ["B", "C"]
    ensures NextLayer(DiamondLinks(), {}, ["A"]) == ["B", "C"]
  {
    var links := DiamondLinks();
    NextOne(links, {}, "A");
    assert {} + {"A"} == {"A"};
    KeepTwo(links, {"A"}, "B", "C");
    assert PredsIn(links, {"A"}, "B") && PredsIn(links, {"A"}, "C");
  }

  lemma DiamondSecond()
    requires Targets(DiamondLinks(), "B") == ["D"] && Targets(DiamondLinks(), "C") == ["D"]
    ensures NextLayer(DiamondLinks(), {"A"}, ["B", "C"]) == ["D"]
  {
    var links := DiamondLinks();
    NextTwo(links, {"A"}, "B", "C");
    assert {"A"} + {"B"} == {"A", "B"};
    assert {"A"} + {"B", "C"} == {"A", "B", "C"};
    KeepOne(links, {"A", "B"}, "D");
    assert !PredsIn(links, {"A", "B"}, "D") by { assert links[3] in links; }
    KeepOne(links, {"A", "B", "C"}, "D");
  }

  lemma DiamondWalk()
    ensures Planned(DiamondLinks(), ["A", "B", "C", "D"], [["A"], ["B", "C"], ["D"]])
  {
    DiamondSources();
    DiamondNext();
    assert Elems(["A"]) == {"A"} && Elems(["A"]) + Elems(["B", "C"]) == {"A", "B", "C"};
    ThreeLayers(DiamondLinks(), ["A", "B", "C", "D"], ["A"], ["B", "C"], ["D"]);
  }

  /** Running the planner on the diamond puts the two branches side by side in the middle layer. */
  method DiamondLayers() returns (ids: seq<seq<string>>)
    ensures ids == [["A"], ["B", "C"], ["D"]]
  {
    var layers := ExecutionLayers(DiamondNodes(), DiamondEdges());
    ids := LayerIds(layers);
    DiamondGraph();
    DiamondWalk();
    PlannedUnique(DiamondLinks(), ["A", "B", "C", "D"], ids, [["A"], ["B", "C"], ["D"]]);
  }

  // A -> C, B -> C

  function ForkNodes(): seq<Node> { [Plain("A"), Plain("B"), Plain("C")] }
  function ForkEdges(): seq<Edge> { [Wire("A", "C"), Wire("B", "C")] }
  function ForkLinks(): seq<Link> { [("A", "C"), ("B", "C")] }

  lemma ForkGraph()
    ensures Links(ForkNodes(), ForkEdges()) == ForkLinks()
    ensures Ids(ForkNodes()) == ["A", "B", "C"]
  {
    LinearGraph();
    assert ForkNodes() == LinearNodes();
    var known := {"A", "B", "C"};
    assert Known(ForkNodes()) == known by {
      var a, b, c := Plain("A"), Plain("B"), Plain("C");
      KnownSnoc([], a);
      KnownSnoc([a], b);
      KnownSnoc([a, b], c);
      assert [a] + [b] == [a, b];
      assert [a, b] + [c] == ForkNodes();
    }
    LinksOfSnoc(known, [], Wire("A", "C"));
    LinksOfSnoc(known, [Wire("A", "C")], Wire("B", "C"));
    assert [Wire("A", "C")] + [Wire("B", "C")] == ForkEdges();
  }

  lemma ForkSources()
    ensures Sources(ForkLinks(), ["A", "B", "C"]) == ["A", "B"]
  {
    var links := ForkLinks();
    SourcesSnoc(links, [], "A");
    SourcesSnoc(links, ["A"], "B");
    SourcesSnoc(links, ["A", "B"], "C");
    assert !PredsIn(links, {}, "C") by { assert links[0] in links; }
  }

  lemma ForkTargets()
    ensures Targets(ForkLinks(), "A") == ["C"]
    ensures Targets(ForkLinks(), "B") == ["C"]
    ensures Targets(ForkLinks(), "C") == []
  {
    var l0, l1 := ("A", "C"), ("B", "C");
    assert [l0] + [l1] == ForkLinks();
    TargetsSnoc([], l0, "A");
    TargetsSnoc([l0], l1, "A");
    TargetsSnoc([], l0, "B");
    TargetsSnoc([l0], l1, "B");
    TargetsSnoc([], l0, "C");
    TargetsSnoc([l0], l1, "C");
  }

  lemma ForkNext()
    ensures NextLayer(ForkLinks(), {}, ["A", "B"]) == ["C"]
    ensures NextLayer(ForkLinks(), {"A", "B"}, ["C"]) == []
  {
    var links := ForkLinks();
    ForkTargets();
    NextTwo(links, {}, "A", "B");
    assert {} + {"A"} == {"A"};
    assert {} + {"A", "B"} == {"A", "B"};
    KeepOne(links, {"A"}, "C");
    assert !PredsIn(links, {"A"}, "C") by { assert links[1] in links; }
    KeepOne(links, {"A", "B"}, "C");
    NextOne(links, {"A", "B"}, "C");
  }

  lemma ForkWalk()
    ensures Planned(ForkLinks(), ["A", "B", "C"], [["A", "B"], ["C"]])
  {
    ForkSources();
    ForkNext();
    assert Elems(["A", "B"]) == {"A", "B"};
    TwoLayers(ForkLinks(), ["A", "B", "C"], ["A", "B"], ["C"]);
  }

  /** Running the planner on two independent starts puts both in the first layer. */
  method ForkLayers() returns (ids: seq<seq<string>>)
    ensures ids == [["A", "B"], ["C"]]
  {
    var layers := ExecutionLayers(ForkNodes(), ForkEdges());
    ids := LayerIds(layers);
    ForkGraph();
    ForkWalk();
    PlannedUnique(ForkLinks(), ["A", "B", "C"], ids, [["A", "B"], ["C"]]);
  }
}
