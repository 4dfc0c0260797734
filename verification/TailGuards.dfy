/** The tail guard as control flow. */
module TailGuards {
  import opened Graphs
  import opened Options
  import opened Kernel
  import opened Structure
  import opened Planner
  import opened PlanProperties

  /** The guarded function's graph: the guard branches to the body's entry or to its merge block, which returns. */
  ghost function GuardedGraph(body: Body): (g: Graph)
    requires Structured(body)
    ensures |g| == |Nodes(body)| + 2
  {
    Emitted(body) + [[body.entry, |Nodes(body)| + 1], []]
  }

  lemma GuardedEdge(body: Body, u: nat, v: nat)
    requires Structured(body)
    ensures Edge(GuardedGraph(body), u, v) <==>
      Edge(Emitted(body), u, v) || (u == |Nodes(body)| && (v == body.entry || v == |Nodes(body)| + 1))
  {
    EmittedIsValid(body);
    var n := |Nodes(body)|;
    assert GuardedGraph(body)[n] == [body.entry, n + 1] && GuardedGraph(body)[n + 1] == [];
    if u < n { assert GuardedGraph(body)[u] == Emitted(body)[u]; }
  }

  /** A walk from the guard is the guard's block alone, the merge block after it, or a walk of the body's own graph. */
  lemma {:induction false} GuardedWalk(body: Body, w: seq<nat>, v: nat)
    requires Structured(body) && WalkBetween(GuardedGraph(body), w, |Nodes(body)|, v)
    ensures v == |Nodes(body)| ==> w == [v]
    ensures v == |Nodes(body)| + 1 ==> w == [|Nodes(body)|, v]
    ensures v < |Nodes(body)| ==> 1 < |w| && w[0] == |Nodes(body)| && WalkBetween(Emitted(body), w[1..], body.entry, v)
    decreases |w|
  {
    var n := |Nodes(body)|;
    if |w| > 1 {
      LastStep(GuardedGraph(body), w, n, v);
      var u := w[|w| - 2];
      GuardedEdge(body, u, v);
      GuardedWalk(body, w[..|w| - 1], u);
      if u < n {
        assert w[1..] == w[..|w| - 1][1..] + [v];
        StepWalk(Emitted(body), w[..|w| - 1][1..], body.entry, u, v);
      } else if v == body.entry {
        assert w[..|w| - 1] == [n] && w[1..] == [v];
        TrivialWalk(Emitted(body), v);
      } else {
        assert w == w[..|w| - 1] + [v];
      }
    }
  }

  /**
  The guard's block strictly dominates its merge block, which only it branches to, which no header of the
  body merges at, and which branches nowhere.
   */
  lemma GuardDominatesItsMerge(body: Body)
    requires Structured(body)
    ensures var n := |Nodes(body)|;
      && Dominates(GuardedGraph(body), n, n, n + 1)
      && (forall u: nat :: u < |GuardedGraph(body)| ==> (n + 1 in GuardedGraph(body)[u] <==> u == n))
      && GuardedGraph(body)[n + 1] == []
      && (forall h: nat :: h < |body.blocks| && Merge(body, h).Some? ==> Merge(body, h).value < n)
  {
    var n := |Nodes(body)|;
    EmittedIsValid(body);
    EntryDominates(GuardedGraph(body), n, n + 1);
    forall u: nat | u < |GuardedGraph(body)|
      ensures n + 1 in GuardedGraph(body)[u] <==> u == n
    {
      GuardedEdge(body, u, n + 1);
    }
    forall h: nat | h < |body.blocks| && Merge(body, h).Some? ensures Merge(body, h).value < n {
      if IsHeader(body, h) { HeaderHasItsMerge(body, h); } else if NeedsPass(body, h) { PassHasItsNode(body, h); }
    }
  }

  /** The guard changes nothing of what dominates what in the body. */
  lemma GuardKeepsDominance(body: Body, d: nat, v: nat)
    requires Structured(body) && d < |Nodes(body)| && v < |Nodes(body)|
    ensures Dominates(GuardedGraph(body), |Nodes(body)|, d, v) <==> Dominates(Emitted(body), body.entry, d, v)
  {
    var n := |Nodes(body)|;
    if Dominates(Emitted(body), body.entry, d, v) {
      forall w | WalkBetween(GuardedGraph(body), w, n, v) ensures d in w {
        GuardedWalk(body, w, v);
        assert d in w[1..];
      }
    }
    if Dominates(GuardedGraph(body), n, d, v) {
      forall w | WalkBetween(Emitted(body), w, body.entry, v) ensures d in w {
        GuardLeads(body, w, v);
        assert d in [n] + w;
      }
    }
  }

  lemma GuardLeads(body: Body, w: seq<nat>, v: nat)
    requires Structured(body) && WalkBetween(Emitted(body), w, body.entry, v)
    ensures WalkBetween(GuardedGraph(body), [|Nodes(body)|] + w, |Nodes(body)|, v)
  {
    var g, n := GuardedGraph(body), |Nodes(body)|;
    forall i | 0 < i < |w| ensures Edge(g, w[i - 1], w[i]) { GuardedEdge(body, w[i - 1], w[i]); }
    GuardedEdge(body, n, body.entry);
    TrivialWalk(g, n);
    StepWalk(g, [n], n, n, body.entry);
    JoinWalks(g, [n] + [body.entry], w, n, body.entry, v);
    assert [n] + [body.entry] + w[1..] == [n] + w;
  }
}
