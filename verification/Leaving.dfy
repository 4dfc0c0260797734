/** Every body whose loop headers each have a way out can always reach a return. */
module Leaving {
  import opened Graphs
  import opened PostDominators
  import LoopHeaders

  /** Some edge out of `h` can never come back to it. */
  ghost predicate HasExit(g: Graph, h: nat) {
    exists e :: Edge(g, h, e) && !Reaches(g, e, h)
  }

  ghost predicate LoopsExit(g: Graph, entry: nat) {
    && ValidGraph(g) && entry < |g|
    && (forall v: nat :: v < |g| ==> Reaches(g, entry, v))
    && (forall h :: h in LoopHeaders.FullSearch(g, entry).headers ==> HasExit(g, h))
  }

  ghost function ReachSet(g: Graph, b: nat): set<nat> {
    set v: nat | v < |g| && Reaches(g, b, v)
  }

  /** A member of least finish rank. */
  lemma {:induction false} LeastRank(g: Graph, entry: nat, s: set<nat>) returns (u: nat)
    requires ValidGraph(g) && entry < |g| && s != {}
    ensures u in s && forall v :: v in s ==> LoopHeaders.Rank(g, entry, u) <= LoopHeaders.Rank(g, entry, v)
    decreases s
  {
    var x :| x in s;
    if s == {x} {
      u := x;
    } else {
      u := LeastRank(g, entry, s - {x});
      if LoopHeaders.Rank(g, entry, x) < LoopHeaders.Rank(g, entry, u) {
        u := x;
      }
    }
  }

  /** From `b` one can reach a return, or a header, whose way out never sees that header again. */
  lemma {:induction false} CanAlwaysLeave(g: Graph, entry: nat, b: nat)
    requires LoopsExit(g, entry) && b < |g|
    ensures CanLeave(g, b)
    decreases ReachSet(g, b)
  {
    TrivialWalk(g, b);
    assert b in ReachSet(g, b);
    var u := LeastRank(g, entry, ReachSet(g, b));
    if g[u] == [] {
      var w :| WalkBetween(g, w, b, u);
      assert Departure(g, w, b);
    } else {
      var h := g[u][0];
      assert Edge(g, u, h);
      ReachesStep(g, b, u, h);
      assert h in ReachSet(g, b);
      LoopHeaders.HeadersBreakCycles(g, entry);
      var e :| Edge(g, h, e) && !Reaches(g, e, h);
      forall v | v in ReachSet(g, e) ensures v in ReachSet(g, b) {
        EdgeReaches(g, h, e);
        ReachesTransitive(g, b, h, e);
        ReachesTransitive(g, b, e, v);
      }
      assert h !in ReachSet(g, e);
      CanAlwaysLeave(g, entry, e);
      ReachesStep(g, b, h, e);
      LeaveThrough(g, b, e);
    }
  }

  lemma LeaveThrough(g: Graph, b: nat, e: nat)
    requires Reaches(g, b, e) && CanLeave(g, e)
    ensures CanLeave(g, b)
  {
    var v :| WalkBetween(g, v, b, e);
    var w :| Departure(g, w, e);
    JoinWalks(g, v, w, b, e, w[|w| - 1]);
    assert Departure(g, v + w[1..], b);
  }
}
