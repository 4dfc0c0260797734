/**
Directed graphs as successor lists, walks through them, and dominance.

A control-flow graph is a list of successor lists, in the order each terminator
names its targets. A walk is the list of nodes a run visits. "d dominates n" is
stated as the compiler means it: no walk from the entry to n avoids d.
 */
module Graphs {

  type Graph = seq<seq<nat>>

  ghost predicate ValidGraph(g: Graph) {
    forall u, k :: 0 <= u < |g| && 0 <= k < |g[u]| ==> g[u][k] < |g|
  }

  ghost predicate Edge(g: Graph, u: nat, v: nat) {
    u < |g| && v < |g| && v in g[u]
  }

  ghost predicate IsWalk(g: Graph, w: seq<nat>) {
    && 0 < |w|
    && (forall i :: 0 <= i < |w| ==> w[i] < |g|)
    && (forall i :: 0 < i < |w| ==> Edge(g, w[i - 1], w[i]))
  }

  ghost predicate WalkBetween(g: Graph, w: seq<nat>, a: nat, b: nat) {
    IsWalk(g, w) && w[0] == a && w[|w| - 1] == b
  }

  ghost predicate Reaches(g: Graph, a: nat, b: nat) {
    exists w :: WalkBetween(g, w, a, b)
  }

  /** Some walk from `a` to `b` meets `x` nowhere, its two ends included. */
  ghost predicate ReachesAvoiding(g: Graph, a: nat, b: nat, x: nat) {
    exists w :: WalkBetween(g, w, a, b) && x !in w
  }

  /** Every walk from `entry` to `n` contains `d`; vacuously so when there is none. */
  ghost predicate Dominates(g: Graph, entry: nat, d: nat, n: nat) {
    forall w :: WalkBetween(g, w, entry, n) ==> d in w
  }

  /** A node on a cycle: some non-empty walk leaves it and comes back. */
  ghost predicate OnCycle(g: Graph, v: nat) {
    exists u :: Edge(g, u, v) && Reaches(g, v, u)
  }

  // ---- walks ----

  lemma TrivialWalk(g: Graph, a: nat)
    requires a < |g|
    ensures WalkBetween(g, [a], a, a)
    ensures Reaches(g, a, a)
    ensures forall x :: x != a ==> ReachesAvoiding(g, a, a, x)
  {
    assert WalkBetween(g, [a], a, a);
    forall x | x != a ensures ReachesAvoiding(g, a, a, x) {
      assert WalkBetween(g, [a], a, a) && x !in [a];
    }
  }

  lemma JoinWalks(g: Graph, v: seq<nat>, w: seq<nat>, a: nat, b: nat, c: nat)
    requires WalkBetween(g, v, a, b) && WalkBetween(g, w, b, c)
    ensures WalkBetween(g, v + w[1..], a, c)
    ensures forall x :: x in v + w[1..] <==> x in v || x in w
  {
    var u := v + w[1..];
    forall i | 0 < i < |u| ensures Edge(g, u[i - 1], u[i]) {
      if i >= |v| {
        assert u[i] == w[i - |v| + 1];
        assert u[i - 1] == w[i - |v|];
      }
    }
    assert w == [b] + w[1..];
  }

  /** A walk from `w`'s start to each of its nodes, and from each of its nodes to its end. */
  lemma CutWalk(g: Graph, w: seq<nat>, k: nat)
    requires IsWalk(g, w) && k < |w|
    ensures WalkBetween(g, w[..k + 1], w[0], w[k])
    ensures WalkBetween(g, w[k..], w[k], w[|w| - 1])
  {
  }

  lemma StepWalk(g: Graph, w: seq<nat>, a: nat, b: nat, c: nat)
    requires WalkBetween(g, w, a, b) && Edge(g, b, c)
    ensures WalkBetween(g, w + [c], a, c)
  {
  }

  lemma ReachesStep(g: Graph, a: nat, b: nat, c: nat)
    requires Reaches(g, a, b) && Edge(g, b, c)
    ensures Reaches(g, a, c)
  {
    var w :| WalkBetween(g, w, a, b);
    StepWalk(g, w, a, b, c);
  }

  lemma ReachesTransitive(g: Graph, a: nat, b: nat, c: nat)
    requires Reaches(g, a, b) && Reaches(g, b, c)
    ensures Reaches(g, a, c)
  {
    var v :| WalkBetween(g, v, a, b);
    var w :| WalkBetween(g, w, b, c);
    JoinWalks(g, v, w, a, b, c);
  }

  lemma EdgeReaches(g: Graph, a: nat, b: nat)
    requires Edge(g, a, b)
    ensures Reaches(g, a, b)
  {
    TrivialWalk(g, a);
    ReachesStep(g, a, a, b);
  }

  lemma AvoidingStep(g: Graph, a: nat, b: nat, c: nat, x: nat)
    requires ReachesAvoiding(g, a, b, x) && Edge(g, b, c) && c != x
    ensures ReachesAvoiding(g, a, c, x)
  {
    var w :| WalkBetween(g, w, a, b) && x !in w;
    StepWalk(g, w, a, b, c);
  }

  lemma AvoidingTransitive(g: Graph, a: nat, b: nat, c: nat, x: nat)
    requires ReachesAvoiding(g, a, b, x) && ReachesAvoiding(g, b, c, x)
    ensures ReachesAvoiding(g, a, c, x)
  {
    var v :| WalkBetween(g, v, a, b) && x !in v;
    var w :| WalkBetween(g, w, b, c) && x !in w;
    JoinWalks(g, v, w, a, b, c);
  }

  lemma AvoidingEnds(g: Graph, a: nat, b: nat, x: nat)
    requires ReachesAvoiding(g, a, b, x)
    ensures a != x && b != x && a < |g| && b < |g| && Reaches(g, a, b)
  {
    var w :| WalkBetween(g, w, a, b) && x !in w;
    assert w[0] in w && w[|w| - 1] in w;
  }

  /** A set closed under edges holds everything reachable from inside it. */
  lemma ClosedUnderReach(g: Graph, inside: iset<nat>, a: nat, b: nat)
    requires a in inside && Reaches(g, a, b)
    requires forall u, v :: u in inside && Edge(g, u, v) ==> v in inside
    ensures b in inside
  {
    var w :| WalkBetween(g, w, a, b);
    var i := 0;
    while i < |w| - 1
      invariant 0 <= i < |w| && w[i] in inside
    {
      assert Edge(g, w[i], w[i + 1]) by { assert Edge(g, w[i + 1 - 1], w[i + 1]); }
      i := i + 1;
    }
  }

  /** The same for walks that avoid `x`: the set need not be closed through `x`. */
  lemma ClosedUnderAvoiding(g: Graph, inside: iset<nat>, a: nat, b: nat, x: nat)
    requires a in inside && ReachesAvoiding(g, a, b, x)
    requires forall u, v :: u in inside && u != x && v != x && Edge(g, u, v) ==> v in inside
    ensures b in inside
  {
    var w :| WalkBetween(g, w, a, b) && x !in w;
    var i := 0;
    while i < |w| - 1
      invariant 0 <= i < |w| && w[i] in inside
    {
      assert Edge(g, w[i], w[i + 1]) by { assert Edge(g, w[i + 1 - 1], w[i + 1]); }
      i := i + 1;
    }
  }

  /** A walk to a node other than its start steps onto it from some predecessor. */
  lemma LastStep(g: Graph, w: seq<nat>, a: nat, b: nat)
    requires WalkBetween(g, w, a, b) && 1 < |w|
    ensures var p := w[|w| - 2]; WalkBetween(g, w[..|w| - 1], a, p) && Edge(g, p, b)
  {
    assert Edge(g, w[|w| - 1 - 1], w[|w| - 1]);
  }

  // ---- dominance ----

  lemma DominatesSelf(g: Graph, entry: nat, n: nat)
    ensures Dominates(g, entry, n, n)
  {
  }

  lemma EntryDominates(g: Graph, entry: nat, n: nat)
    ensures Dominates(g, entry, entry, n)
  {
  }

  lemma DominatesTransitive(g: Graph, entry: nat, a: nat, b: nat, c: nat)
    requires Dominates(g, entry, a, b) && Dominates(g, entry, b, c)
    ensures Dominates(g, entry, a, c)
  {
    forall w | WalkBetween(g, w, entry, c) ensures a in w {
      var k :| 0 <= k < |w| && w[k] == b;
      CutWalk(g, w, k);
      assert a in w[..k + 1];
    }
  }

  lemma FirstVisit(w: seq<nat>, x: nat) returns (k: nat)
    requires x in w
    ensures k < |w| && w[k] == x && forall i :: 0 <= i < k ==> w[i] != x
  {
    if w[0] == x {
      k := 0;
    } else {
      assert w == [w[0]] + w[1..];
      k := FirstVisit(w[1..], x);
      k := k + 1;
    }
  }

  lemma LastVisit(w: seq<nat>, x: nat) returns (k: nat)
    requires x in w
    ensures k < |w| && w[k] == x && x !in w[k + 1..]
    ensures forall j: nat :: k < j < |w| ==> w[j] != x
  {
    if w[|w| - 1] == x {
      k := |w| - 1;
    } else {
      assert w == w[..|w| - 1] + [w[|w| - 1]];
      k := LastVisit(w[..|w| - 1], x);
      assert w[k + 1..] == w[..|w| - 1][k + 1..] + [w[|w| - 1]];
    }
  }

  lemma DominatesAntisymmetric(g: Graph, entry: nat, a: nat, b: nat)
    requires Dominates(g, entry, a, b) && Dominates(g, entry, b, a)
    requires Reaches(g, entry, a)
    ensures a == b
  {
    var w :| WalkBetween(g, w, entry, a);
    var k := FirstVisit(w, a);
    CutWalk(g, w, k);
    var v := w[..k + 1];
    var m :| 0 <= m < |v| && v[m] == b;
    CutWalk(g, v, m);
    assert v[..m + 1] == w[..m + 1];
    var n :| 0 <= n < m + 1 && w[n] == a;
  }

  /** The dominators of a reachable node form a chain. */
  lemma DominatorsAreAChain(g: Graph, entry: nat, a: nat, b: nat, n: nat)
    requires Dominates(g, entry, a, n) && Dominates(g, entry, b, n)
    requires Reaches(g, entry, n)
    ensures Dominates(g, entry, a, b) || Dominates(g, entry, b, a)
  {
    var w :| WalkBetween(g, w, entry, n);
    var i := LastVisit(w, a);
    var j := LastVisit(w, b);
    if i <= j {
      EarlierDominates(g, entry, a, b, n, w, i, j);
    } else {
      EarlierDominates(g, entry, b, a, n, w, j, i);
    }
  }

  lemma EarlierDominates(g: Graph, entry: nat, a: nat, b: nat, n: nat, w: seq<nat>, i: nat, j: nat)
    requires Dominates(g, entry, a, n) && WalkBetween(g, w, entry, n)
    requires i <= j < |w| && w[i] == a && w[j] == b && a !in w[i + 1..]
    ensures Dominates(g, entry, a, b)
  {
    CutWalk(g, w, j);
    forall v | WalkBetween(g, v, entry, b) ensures a in v {
      JoinWalks(g, v, w[j..], entry, b, n);
      assert w[j..][1..] == w[i + 1..][j - i..];
    }
  }

  lemma DominatorReaches(g: Graph, entry: nat, d: nat, n: nat)
    requires Dominates(g, entry, d, n) && Reaches(g, entry, n)
    ensures Reaches(g, entry, d) && Reaches(g, d, n)
  {
    var w :| WalkBetween(g, w, entry, n);
    var k :| 0 <= k < |w| && w[k] == d;
    CutWalk(g, w, k);
  }
}
