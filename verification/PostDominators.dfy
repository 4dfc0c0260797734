/** Immediate post-dominators: dominance on the reversed graph with one virtual exit. */
module PostDominators {
  import opened Graphs
  import opened Options
  import Dominators

  ghost predicate Returns(g: Graph, n: nat) {
    n < |g| && g[n] == []
  }

  /** A run of the rest of the function: from `n` to a block that returns. */
  ghost predicate Departure(g: Graph, w: seq<nat>, n: nat) {
    IsWalk(g, w) && w[0] == n && Returns(g, w[|w| - 1])
  }

  ghost predicate CanLeave(g: Graph, n: nat) {
    exists w :: Departure(g, w, n)
  }

  /** Every run from `n` to a return goes through `d`. */
  ghost predicate PostDominates(g: Graph, d: nat, n: nat) {
    forall w :: Departure(g, w, n) ==> d in w
  }

  /** The nearest strict post-dominator: every other one also post-dominates it. */
  ghost predicate Nearest(g: Graph, n: nat, d: nat) {
    && d != n && PostDominates(g, d, n)
    && forall e: nat :: e < |g| && e != n && PostDominates(g, e, n) ==> PostDominates(g, e, d)
  }

  ghost predicate ReverseOf(g: Graph, r: Graph) {
    && |r| == |g| + 1
    && forall u: nat, v: nat {:trigger u in r[v]} :: v <= |g| ==>
      (u in r[v] <==> u < |g| && (if v == |g| then Returns(g, u) else Edge(g, u, v)))
  }

  method Reverse(count: nat, successors: Graph) returns (reversed: Graph)
    requires ValidGraph(successors) && count == |successors|
    ensures ReverseOf(successors, reversed) && ValidGraph(reversed)
  {
    reversed := seq(count + 1, _ => []);
    for node := 0 to count
      invariant |reversed| == count + 1
      invariant forall u: nat, v: nat {:trigger u in reversed[v]} :: v <= count ==>
        (u in reversed[v] <==> u < node && (if v == count then Returns(successors, u) else Edge(successors, u, v)))
    {
      if successors[node] == [] {
        reversed := reversed[count := reversed[count] + [node]];
      } else {
        ghost var before := reversed;
        for k := 0 to |successors[node]|
          invariant |reversed| == count + 1
          invariant forall u: nat, v: nat {:trigger u in reversed[v]} :: v <= count ==>
            (u in reversed[v] <==> u in before[v] || (u == node && v in successors[node][..k]))
        {
          var target := successors[node][k];
          assert successors[node][..k + 1] == successors[node][..k] + [target];
          reversed := reversed[target := reversed[target] + [node]];
        }
        assert successors[node][..|successors[node]|] == successors[node];
      }
    }
    forall u: nat, v: nat | v <= count
      ensures u in reversed[v] <==>
        u < count && (if v == count then Returns(successors, u) else Edge(successors, u, v)) {}
    ReverseIsValid(successors, reversed);
  }

  lemma ReverseIsValid(g: Graph, r: Graph)
    requires ReverseOf(g, r)
    ensures ValidGraph(r)
  {
    forall u: nat, k: nat | u < |r| && k < |r[u]| ensures r[u][k] < |r| {
      assert r[u][k] in r[u];
    }
  }

  ghost function Backwards(w: seq<nat>): (r: seq<nat>)
    ensures |r| == |w| && forall x :: x in r <==> x in w
  {
    var r := seq(|w|, i requires 0 <= i < |w| => w[|w| - 1 - i]);
    assert forall i :: 0 <= i < |w| ==> r[|w| - 1 - i] == w[i];
    r
  }

  lemma BackwardsOfDeparture(g: Graph, r: Graph, w: seq<nat>, n: nat)
    requires ValidGraph(g) && ReverseOf(g, r) && Departure(g, w, n)
    ensures WalkBetween(r, [|g|] + Backwards(w), |g|, n)
  {
    var v := [|g|] + Backwards(w);
    forall i | 0 < i < |v| ensures Edge(r, v[i - 1], v[i]) {
      if i > 1 {
        assert Edge(g, w[|w| - i], w[|w| - i + 1]) by { assert Edge(g, w[|w| - i + 1 - 1], w[|w| - i + 1]); }
      }
    }
  }

  lemma DepartureFromBackwards(g: Graph, r: Graph, w: seq<nat>, n: nat)
    requires ValidGraph(g) && ReverseOf(g, r) && WalkBetween(r, w, |g|, n) && n < |g|
    ensures Departure(g, Backwards(w[1..]), n)
  {
    var v := Backwards(w[1..]);
    forall i | 0 < i < |w| ensures w[i] < |g| && w[i] in r[w[i - 1]] {
      assert Edge(r, w[i - 1], w[i]);
    }
    forall i | 0 < i < |v| ensures Edge(g, v[i - 1], v[i]) {
      assert v[i - 1] == w[|w| - i] && v[i] == w[|w| - i - 1];
      assert w[|w| - i] in r[w[|w| - i - 1]];
    }
  }

  /** Post-dominance is dominance backwards; leaving is being reached from the virtual exit. */
  lemma PostDominanceIsReverseDominance(g: Graph, r: Graph, d: nat, n: nat)
    requires ValidGraph(g) && ReverseOf(g, r) && n < |g| && d < |g|
    ensures Dominates(r, |g|, d, n) <==> PostDominates(g, d, n)
    ensures Reaches(r, |g|, n) <==> CanLeave(g, n)
  {
    forall w | Departure(g, w, n) ensures Reaches(r, |g|, n) && (Dominates(r, |g|, d, n) ==> d in w) {
      BackwardsOfDeparture(g, r, w, n);
    }
    forall w | WalkBetween(r, w, |g|, n) ensures CanLeave(g, n) && (PostDominates(g, d, n) ==> d in w) {
      DepartureFromBackwards(g, r, w, n);
    }
  }

  lemma PostDominatesAntisymmetric(g: Graph, a: nat, b: nat)
    requires PostDominates(g, a, b) && PostDominates(g, b, a) && CanLeave(g, a)
    ensures a == b
  {
    var w :| Departure(g, w, a);
    var i := LastVisit(w, a);
    CutWalk(g, w, i);
    var v := w[i..];
    assert Departure(g, v, a);
    var k :| 0 <= k < |v| && v[k] == b;
    CutWalk(g, v, k);
    assert Departure(g, v[k..], b);
    var m :| 0 <= m < |v[k..]| && v[k..][m] == a;
    assert w[i + k + m] == a;
  }

  /** There is at most one nearest strict post-dominator. */
  lemma NearestIsUnique(g: Graph, n: nat, d: nat, e: nat)
    requires Nearest(g, n, d) && Nearest(g, n, e) && CanLeave(g, n) && d < |g| && e < |g|
    ensures d == e
  {
    PostDominatorLeaves(g, d, n);
    PostDominatesAntisymmetric(g, d, e);
  }

  lemma PostDominatorLeaves(g: Graph, d: nat, n: nat)
    requires PostDominates(g, d, n) && CanLeave(g, n)
    ensures CanLeave(g, d)
  {
    var w :| Departure(g, w, n);
    var k :| 0 <= k < |w| && w[k] == d;
    CutWalk(g, w, k);
    assert Departure(g, w[k..], d);
  }

  // ---- choosing the nearest by counting ----

  ghost predicate IsPostMatrix(r: Graph, exit: nat, post: seq<seq<bool>>) {
    && |post| == |r| && exit < |r| && ValidGraph(r)
    && (forall n: nat :: n < |r| ==> |post[n]| == |r|)
    && (forall n: nat, d: nat :: n < |r| && d < |r| ==> (post[n][d] <==> Dominates(r, exit, d, n)))
  }

  /** Of two dominators of one reachable node, the one with as many dominators is dominated by the other. */
  lemma MostIsNearest(r: Graph, exit: nat, post: seq<seq<bool>>, n: nat, c: nat, e: nat)
    requires IsPostMatrix(r, exit, post) && n < |r| && c < |r| && e < |r|
    requires Reaches(r, exit, n) && post[n][c] && post[n][e]
    requires Dominators.Bits(post[e]) <= Dominators.Bits(post[c])
    ensures Dominates(r, exit, e, c)
  {
    DominatorsAreAChain(r, exit, c, e, n);
    if Dominates(r, exit, c, e) && c != e {
      forall d: nat | d < |r| && post[c][d] ensures post[e][d] {
        DominatesTransitive(r, exit, d, c, e);
      }
      Dominators.FewerBits(post[c], post[e]);
      assert post[c] == post[e];
      DominatesSelf(r, exit, e);
      DominatorReaches(r, exit, c, n);
      DominatesAntisymmetric(r, exit, c, e);
    } else if c == e {
      DominatesSelf(r, exit, c);
    }
  }

  /** The candidate with the most post-dominators of its own, the last of equals. */
  method MaxCandidate(count: nat, post: seq<seq<bool>>, node: nat) returns (best: Option<nat>)
    requires |post| == count + 1 && node < count
    requires forall n: nat :: n < |post| ==> |post[n]| == |post|
    ensures best.None? ==> forall e: nat :: e < count && e != node ==> !post[node][e]
    ensures best.Some? ==> best.value < count && best.value != node && post[node][best.value]
    ensures best.Some? ==> forall e: nat :: e < count && e != node && post[node][e] ==>
      Dominators.Bits(post[e]) <= Dominators.Bits(post[best.value])
  {
    best := None;
    for candidate := 0 to count
      invariant best.None? ==> forall e: nat :: e < candidate && e != node ==> !post[node][e]
      invariant best.Some? ==> best.value < candidate && best.value != node && post[node][best.value]
      invariant best.Some? ==> forall e: nat :: e < candidate && e != node && post[node][e] ==>
        Dominators.Bits(post[e]) <= Dominators.Bits(post[best.value])
    {
      if candidate != node && post[node][candidate] {
        if best.None? || Dominators.Bits(post[best.value]) <= Dominators.Bits(post[candidate]) {
          best := Some(candidate);
        }
      }
    }
  }

  /**
  `immediate_post_dominators`: for every node that can leave, the nearest strict
  post-dominator, or the virtual exit `count` when no real node is one.
   */
  method Immediate(count: nat, successors: Graph) returns (after: seq<Option<nat>>)
    requires ValidGraph(successors) && count == |successors|
    ensures |after| == count
    ensures forall n: nat :: n < count ==> after[n].Some? && after[n].value <= count && after[n].value != n
    ensures forall n: nat :: n < count && CanLeave(successors, n) && after[n].value < count ==>
      Nearest(successors, n, after[n].value)
    ensures forall n: nat :: n < count && CanLeave(successors, n) && after[n].value == count ==>
      forall d: nat :: d < count && d != n ==> !PostDominates(successors, d, n)
  {
    var exit := count;
    var reversed := Reverse(count, successors);
    var post := Dominators.Compute(count + 1, reversed, exit);
    after := [];
    for node := 0 to count
      invariant |after| == node
      invariant forall n: nat :: n < node ==> after[n].Some? && after[n].value <= count && after[n].value != n
      invariant forall n: nat :: n < node && CanLeave(successors, n) && after[n].value < count ==>
        Nearest(successors, n, after[n].value)
      invariant forall n: nat :: n < node && CanLeave(successors, n) && after[n].value == count ==>
        forall d: nat :: d < count && d != n ==> !PostDominates(successors, d, n)
    {
      var best := MaxCandidate(count, post, node);
      EntryDominates(reversed, exit, node);
      CandidateIsNearest(successors, reversed, post, node, best);
      after := after + [if best.Some? then best else if post[node][exit] then Some(exit) else None];
    }
  }

  lemma CandidateIsNearest(g: Graph, r: Graph, post: seq<seq<bool>>, n: nat, best: Option<nat>)
    requires ValidGraph(g) && ReverseOf(g, r) && IsPostMatrix(r, |g|, post) && n < |g|
    requires best.None? ==> forall e: nat :: e < |g| && e != n ==> !post[n][e]
    requires best.Some? ==> best.value < |g| && best.value != n && post[n][best.value]
    requires best.Some? ==> forall e: nat :: e < |g| && e != n && post[n][e] ==>
      Dominators.Bits(post[e]) <= Dominators.Bits(post[best.value])
    ensures best.None? ==> forall d: nat :: d < |g| && d != n ==> !PostDominates(g, d, n)
    ensures best.Some? && CanLeave(g, n) ==> Nearest(g, n, best.value)
  {
    forall d: nat | d < |g| ensures PostDominates(g, d, n) <==> post[n][d] {
      PostDominanceIsReverseDominance(g, r, d, n);
    }
    if best.Some? && CanLeave(g, n) {
      var c := best.value;
      PostDominanceIsReverseDominance(g, r, c, n);
      forall e: nat | e < |g| && e != n && PostDominates(g, e, n) ensures PostDominates(g, e, c) {
        MostIsNearest(r, |g|, post, n, c, e);
        PostDominanceIsReverseDominance(g, r, e, c);
      }
    }
  }
}
