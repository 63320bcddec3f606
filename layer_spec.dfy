/**
 * Specification of the execution-layer planner (Kahn's algorithm, one layer at a time).
 *
 * The planner counts, for every node, the links into it whose source has not been walked yet
 * (`Pending`). A node enters the first layer when it has no incoming link at all (`Sources`), and
 * enters the next layer at the moment the walk of the current layer consumes its last pending
 * link (`Next`): that is, at the last occurrence of the node in the adjacency list of the last of
 * its predecessors to be walked. `Planned` says that a list of id layers is exactly what the
 * planner emits.
 */
module LayerSpec {
  import opened Graph

  /** The adjacency list of `u`: the targets of the links leaving `u`, in link order. */
  ghost function Targets(links: seq<Link>, u: string): seq<string>
  {
    if links == [] then []
    else
      var l := links[|links| - 1];
      Targets(links[..|links| - 1], u) + (if l.0 == u then [l.1] else [])
  }

  /** The adjacency list of `u` holds exactly the targets of the links leaving `u`. */
  lemma {:induction false} TargetsMember(links: seq<Link>, u: string, v: string)
    ensures v in Targets(links, u) <==> (u, v) in links
  {
    if links != [] {
      var front := links[..|links| - 1];
      assert links == front + [links[|links| - 1]];
      TargetsMember(front, u, v);
    }
  }

  /** The number of links into `v` whose source is not in `walked`. */
  ghost function Pending(links: seq<Link>, walked: set<string>, v: string): nat
  {
    if links == [] then 0
    else
      var l := links[|links| - 1];
      Pending(links[..|links| - 1], walked, v) + (if l.1 == v && l.0 !in walked then 1 else 0)
  }

  /** Every link into `v` comes from a node in `walked`. */
  ghost predicate PredsIn(links: seq<Link>, walked: set<string>, v: string)
  {
    forall l :: l in links && l.1 == v ==> l.0 in walked
  }

  /** The ids of `order` that have no incoming link, in order: the first layer. */
  ghost function Sources(links: seq<Link>, order: seq<string>): seq<string>
  {
    if order == [] then []
    else
      var v := order[|order| - 1];
      Sources(links, order[..|order| - 1]) + (if PredsIn(links, {}, v) then [v] else [])
  }

  /**
   * Among the first `n` positions of the adjacency list `ts`, those holding the last occurrence
   * of a target all of whose predecessors are in `walked`: where the walk emits that target.
   */
  ghost function Keep(links: seq<Link>, walked: set<string>, ts: seq<string>, n: nat): seq<string>
    requires n <= |ts|
  {
    if n == 0 then []
    else
      Keep(links, walked, ts, n - 1)
        + (if ts[n - 1] !in ts[n..] && PredsIn(links, walked, ts[n - 1]) then [ts[n - 1]] else [])
  }

  /**
   * The nodes emitted while walking the first `n` nodes of the current layer `cur`, in the order
   * they are emitted, when `done` holds the nodes of the earlier layers.
   */
  ghost function Next(links: seq<Link>, done: set<string>, cur: seq<string>, n: nat): seq<string>
    requires n <= |cur|
  {
    if n == 0 then []
    else
      var ts := Targets(links, cur[n - 1]);
      Next(links, done, cur, n - 1) + Keep(links, done + Elems(cur[..n]), ts, |ts|)
  }

  /** The layer that follows `cur`. */
  ghost function NextLayer(links: seq<Link>, done: set<string>, cur: seq<string>): seq<string>
  {
    Next(links, done, cur, |cur|)
  }

  /** The ids in the first `k` layers. */
  ghost function Before(plan: seq<seq<string>>, k: nat): set<string>
    requires k <= |plan|
  {
    if k == 0 then {} else Before(plan, k - 1) + Elems(plan[k - 1])
  }

  /** The layer the walk emits at position `k` of `plan`, given the layers before it. */
  ghost function Successor(links: seq<Link>, order: seq<string>, plan: seq<seq<string>>, k: nat): seq<string>
    requires k <= |plan|
  {
    if k == 0 then Sources(links, order) else NextLayer(links, Before(plan, k - 1), plan[k - 1])
  }

  /** The layers emitted so far: each non-empty, the first one the sources, each the successor of the previous. */
  ghost predicate PlanPrefix(links: seq<Link>, order: seq<string>, plan: seq<seq<string>>)
  {
    plan == [] ||
      (&& PlanPrefix(links, order, plan[..|plan| - 1])
       && plan[|plan| - 1] != []
       && plan[|plan| - 1] == Successor(links, order, plan, |plan| - 1))
  }

  /** `plan` is the complete output of the planner: the walk stops once a layer emits nothing. */
  ghost predicate Planned(links: seq<Link>, order: seq<string>, plan: seq<seq<string>>)
  {
    && PlanPrefix(links, order, plan)
    && (plan == [] ==> Sources(links, order) == [])
    && (plan != [] ==> NextLayer(links, Before(plan, |plan| - 1), plan[|plan| - 1]) == [])
  }

  // ---------------------------------------------------------------------------------------------
  // Counting lemmas used by the planner's loop invariants

  /** No pending link into `v` means every predecessor of `v` has been walked. */
  lemma {:induction false} PendingZero(links: seq<Link>, walked: set<string>, v: string)
    ensures Pending(links, walked, v) == 0 <==> PredsIn(links, walked, v)
  {
    if links != [] {
      var front := links[..|links| - 1];
      var l := links[|links| - 1];
      assert links == front + [l];
      PendingZero(front, walked, v);
    }
  }

  /** Walking `u` consumes exactly the links from `u` to `v`, once per occurrence of `v` in its adjacency list. */
  lemma {:induction false} PendingStep(links: seq<Link>, walked: set<string>, u: string, v: string)
    requires u !in walked
    ensures Pending(links, walked, v) == multiset(Targets(links, u))[v] + Pending(links, walked + {u}, v)
  {
    if links != [] {
      var front := links[..|links| - 1];
      PendingStep(front, walked, u, v);
    }
  }

  lemma BeforeMono(plan: seq<seq<string>>, j: nat, k: nat)
    requires j <= k <= |plan|
    ensures Before(plan, j) <= Before(plan, k)
    decreases k - j
  {
    if j < k {
      BeforeMono(plan, j, k - 1);
    }
  }

  /** `Before` only looks at the layers it covers. */
  lemma {:induction false} BeforePrefix(plan: seq<seq<string>>, more: seq<seq<string>>, k: nat)
    requires k <= |plan|
    ensures Before(plan + more, k) == Before(plan, k)
  {
    if k > 0 {
      BeforePrefix(plan, more, k - 1);
      assert (plan + more)[k - 1] == plan[k - 1];
    }
  }

  lemma {:induction false} BeforeMember(plan: seq<seq<string>>, k: nat, v: string)
    requires k <= |plan|
    ensures v in Before(plan, k) <==> exists m :: 0 <= m < k && v in plan[m]
  {
    if k > 0 {
      BeforeMember(plan, k - 1, v);
    }
  }

  // ---------------------------------------------------------------------------------------------
  // What the walk of one layer emits

  lemma {:induction false} LastOccurrence(ts: seq<string>, v: string) returns (j: nat)
    requires v in ts
    ensures j < |ts| && ts[j] == v && v !in ts[j + 1..]
  {
    var n := |ts| - 1;
    if ts[n] == v {
      j := n;
    } else {
      assert ts == ts[..n] + [ts[n]];
      j := LastOccurrence(ts[..n], v);
      assert ts[j + 1..] == ts[..n][j + 1..] + [ts[n]];
    }
  }

  lemma {:induction false} KeepMemberUpTo(links: seq<Link>, walked: set<string>, ts: seq<string>, n: nat, v: string)
    requires n <= |ts|
    ensures v in Keep(links, walked, ts, n) <==>
            PredsIn(links, walked, v) && exists j :: 0 <= j < n && ts[j] == v && v !in ts[j + 1..]
  {
    if n > 0 {
      KeepMemberUpTo(links, walked, ts, n - 1, v);
    }
  }

  /** The walk of an adjacency list emits exactly its targets whose predecessors have all been walked. */
  lemma KeepMember(links: seq<Link>, walked: set<string>, ts: seq<string>, v: string)
    ensures v in Keep(links, walked, ts, |ts|) <==> v in ts && PredsIn(links, walked, v)
  {
    KeepMemberUpTo(links, walked, ts, |ts|, v);
    if v in ts {
      var j := LastOccurrence(ts, v);
    }
  }

  lemma {:induction false} KeepNoDup(links: seq<Link>, walked: set<string>, ts: seq<string>, n: nat)
    requires n <= |ts|
    ensures NoDup(Keep(links, walked, ts, n))
  {
    if n > 0 {
      KeepNoDup(links, walked, ts, n - 1);
      var v := ts[n - 1];
      if v !in ts[n..] && PredsIn(links, walked, v) {
        KeepMemberUpTo(links, walked, ts, n - 1, v);
        assert v !in Keep(links, walked, ts, n - 1);
        NoDupConcat(Keep(links, walked, ts, n - 1), [v]);
      } else {
        assert Keep(links, walked, ts, n) == Keep(links, walked, ts, n - 1);
      }
    }
  }

  /** Some node among the first `n` of `cur` links to `v`. */
  ghost predicate LinkedFrom(links: seq<Link>, cur: seq<string>, n: nat, v: string)
    requires n <= |cur|
  {
    n > 0 && (LinkedFrom(links, cur, n - 1, v) || (cur[n - 1], v) in links)
  }

  lemma {:induction false} LinkedFromWitness(links: seq<Link>, cur: seq<string>, n: nat, v: string) returns (i: nat)
    requires n <= |cur| && LinkedFrom(links, cur, n, v)
    ensures i < n && (cur[i], v) in links
  {
    if (cur[n - 1], v) in links {
      i := n - 1;
    } else {
      i := LinkedFromWitness(links, cur, n - 1, v);
    }
  }

  /**
   * A node is emitted while walking the first `n` nodes of `cur` exactly when one of them links to
   * it and all its predecessors are in the earlier layers or among those `n` nodes.
   */
  lemma {:induction false} NextMember(links: seq<Link>, done: set<string>, cur: seq<string>, n: nat, v: string)
    requires n <= |cur|
    ensures v in Next(links, done, cur, n) <==>
            LinkedFrom(links, cur, n, v) && PredsIn(links, done + Elems(cur[..n]), v)
  {
    if n > 0 {
      NextMember(links, done, cur, n - 1, v);
      NextMemberStep(links, done, cur, n, v);
    }
  }

  /** The inductive step of `NextMember`: walking one more node of the current layer. */
  lemma NextMemberStep(links: seq<Link>, done: set<string>, cur: seq<string>, n: nat, v: string)
    requires 0 < n <= |cur|
    requires v in Next(links, done, cur, n - 1) <==>
             LinkedFrom(links, cur, n - 1, v) && PredsIn(links, done + Elems(cur[..n - 1]), v)
    ensures v in Next(links, done, cur, n) <==>
            LinkedFrom(links, cur, n, v) && PredsIn(links, done + Elems(cur[..n]), v)
  {
    var u := cur[n - 1];
    var walked := done + Elems(cur[..n]);
    var walked' := done + Elems(cur[..n - 1]);
    var ts := Targets(links, u);
    ElemsSnoc(cur, n);
    KeepMember(links, walked, ts, v);
    TargetsMember(links, u, v);
    if v in Next(links, done, cur, n - 1) {
      PredsInMono(links, walked', walked, v);
    } else if (u, v) !in links && PredsIn(links, walked, v) {
      PredsInDrop(links, walked', u, v);
    }
  }

  lemma ElemsSnoc<T>(s: seq<T>, n: nat)
    requires 0 < n <= |s|
    ensures Elems(s[..n]) == Elems(s[..n - 1]) + {s[n - 1]}
  {
    assert s[..n] == s[..n - 1] + [s[n - 1]];
  }

  lemma PredsInMono(links: seq<Link>, walked: set<string>, more: set<string>, v: string)
    requires walked <= more && PredsIn(links, walked, v)
    ensures PredsIn(links, more, v)
  {
  }

  /** A node that does not link to `v` is not needed among the walked nodes for `v`. */
  lemma PredsInDrop(links: seq<Link>, walked: set<string>, u: string, v: string)
    requires PredsIn(links, walked + {u}, v) && (u, v) !in links
    ensures PredsIn(links, walked, v)
  {
    forall l | l in links && l.1 == v
      ensures l.0 in walked
    {
      assert l == (l.0, v);
    }
  }

  /**
   * When the current layer has no repeated id and shares none with the earlier layers, the next
   * layer has no repeated id either.
   */
  lemma {:induction false} NextNoDup(links: seq<Link>, done: set<string>, cur: seq<string>, n: nat)
    requires n <= |cur|
    requires NoDup(cur)
    requires forall x :: x in cur ==> x !in done
    ensures NoDup(Next(links, done, cur, n))
  {
    if n > 0 {
      NextNoDup(links, done, cur, n - 1);
      var u := cur[n - 1];
      var ts := Targets(links, u);
      var walked := done + Elems(cur[..n]);
      KeepNoDup(links, walked, ts, |ts|);
      NotInPrefix(cur, n - 1);
      assert u !in Elems(cur[..n - 1]);
      forall x | x in Next(links, done, cur, n - 1)
        ensures x !in Keep(links, walked, ts, |ts|)
      {
        NextMember(links, done, cur, n - 1, x);
        NotEmittedTwice(links, done + Elems(cur[..n - 1]), u, walked, x);
      }
      NoDupConcat(Next(links, done, cur, n - 1), Keep(links, walked, ts, |ts|));
    }
  }

  /** A node whose predecessors were all walked before `u` is not emitted by the walk of `u`. */
  lemma NotEmittedTwice(links: seq<Link>, before: set<string>, u: string, walked: set<string>, x: string)
    requires u !in before && PredsIn(links, before, x)
    ensures x !in Keep(links, walked, Targets(links, u), |Targets(links, u)|)
  {
    assert (u, x) !in links;
    TargetsMember(links, u, x);
    KeepMember(links, walked, Targets(links, u), x);
  }

  /** The first layer holds, in order and once each, the ids of `order` that no link enters. */
  lemma {:induction false} SourcesFacts(links: seq<Link>, order: seq<string>)
    requires NoDup(order)
    ensures NoDup(Sources(links, order))
    ensures forall v :: v in Sources(links, order) <==> v in order && PredsIn(links, {}, v)
  {
    if order != [] {
      var front := order[..|order| - 1];
      var v := order[|order| - 1];
      assert order == front + [v];
      SourcesFacts(links, front);
      NoDupConcat(Sources(links, front), if PredsIn(links, {}, v) then [v] else []);
    }
  }

  /**
   * The layer after `cur` is made of known nodes outside the earlier layers and `cur`, each with all
   * its predecessors in them, provided every node of the earlier layers and of `cur` already had
   * all its predecessors in the earlier layers.
   */
  lemma NextLayerFacts(links: seq<Link>, known: set<string>, done: set<string>, cur: seq<string>)
    requires forall l :: l in links ==> l.1 in known
    requires NoDup(cur)
    requires forall x :: x in cur ==> x !in done
    requires forall w :: w in done + Elems(cur) ==> PredsIn(links, done, w)
    ensures NoDup(NextLayer(links, done, cur))
    ensures forall v :: v in NextLayer(links, done, cur) ==>
              v in known && v !in done + Elems(cur) && PredsIn(links, done + Elems(cur), v)
  {
    NextNoDup(links, done, cur, |cur|);
    assert cur[..|cur|] == cur;
    forall v | v in NextLayer(links, done, cur)
      ensures v in known && v !in done + Elems(cur) && PredsIn(links, done + Elems(cur), v)
    {
      NextMember(links, done, cur, |cur|, v);
      var i := LinkedFromWitness(links, cur, |cur|, v);
    }
  }

  /** Appending a link adds to the count of its target when its source has not been walked. */
  lemma PendingAppend(links: seq<Link>, l: Link, walked: set<string>, v: string)
    ensures Pending(links + [l], walked, v) == Pending(links, walked, v) + (if l.1 == v && l.0 !in walked then 1 else 0)
  {
    assert (links + [l])[..|links|] == links;
  }

  /** Appending a link appends its target to the adjacency list of its source. */
  lemma TargetsAppend(links: seq<Link>, l: Link, u: string)
    ensures Targets(links + [l], u) == Targets(links, u) + (if l.0 == u then [l.1] else [])
  {
    assert (links + [l])[..|links|] == links;
  }

  /** Appending the layer the walk emits next keeps a plan prefix a plan prefix. */
  lemma PlanPrefixExtend(links: seq<Link>, order: seq<string>, plan: seq<seq<string>>, cur: seq<string>)
    requires PlanPrefix(links, order, plan) && cur != []
    requires plan == [] ==> cur == Sources(links, order)
    requires plan != [] ==> cur == NextLayer(links, Before(plan, |plan| - 1), plan[|plan| - 1])
    ensures PlanPrefix(links, order, plan + [cur])
    ensures Before(plan + [cur], |plan|) == Before(plan, |plan|)
    ensures Before(plan + [cur], |plan| + 1) == Before(plan, |plan|) + Elems(cur)
  {
    var p := plan + [cur];
    assert p[..|plan|] == plan;
    if plan != [] {
      BeforePrefix(plan, [cur], |plan| - 1);
      assert p[|plan| - 1] == plan[|plan| - 1];
    }
    BeforePrefix(plan, [cur], |plan|);
  }

  /** Each layer of a plan prefix is non-empty and is the successor of the layers before it. */
  lemma {:induction false} PlanLayer(links: seq<Link>, order: seq<string>, plan: seq<seq<string>>, k: nat)
    requires PlanPrefix(links, order, plan) && k < |plan|
    ensures plan[k] != [] && plan[k] == Successor(links, order, plan, k)
  {
    if k < |plan| - 1 {
      var front := plan[..|plan| - 1];
      PlanLayer(links, order, front, k);
      if k > 0 {
        assert plan == front + [plan[|plan| - 1]];
        BeforePrefix(front, [plan[|plan| - 1]], k - 1);
      }
    }
  }
}
