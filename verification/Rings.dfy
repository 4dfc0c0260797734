/** When every branch arrives, and the rings of pass-throughs that keep one from arriving. */
module Rings {
  import opened Graphs
  import opened Options
  import opened Kernel
  import opened Reachability
  import opened PostDominators
  import opened Structure
  import opened Planner
  import opened PlanProperties

  // A pass-through hands on to the outermost selection around its header that has the same
  // join. Two breaks out of one loop to one join can hand on to each other for ever, and
  // that is the only way an edge fails to arrive.

  // ---- what the redirection chooses ----

  ghost function FirstCandidate(g: Graph, passes: seq<Pass>, from: nat, declared: nat, origin: nat): Option<Pass> {
    if passes == [] then None
    else
      var first := FirstCandidate(g, passes[..|passes| - 1], from, declared, origin);
      var p := passes[|passes| - 1];
      if first.Some? then first else if Candidate(g, p, from, declared, origin) then Some(p) else None
  }

  /** `c` dominates the first candidate and is dominated by no other candidate that does. */
  ghost predicate Outermost(g: Graph, entry: nat, passes: seq<Pass>, from: nat, declared: nat, origin: nat, first: Pass,
      c: Pass)
  {
    && c in passes && Candidate(g, c, from, declared, origin)
    && Dominates(g, entry, c.header, first.header)
    && forall p ::
         p in passes && Candidate(g, p, from, declared, origin) && Dominates(g, entry, p.header, first.header) ==>
        Dominates(g, entry, c.header, p.header)
  }

  /** The redirection keeps the outermost of the selections that dominate the first candidate. */
  lemma {:induction false} ChosenIsOutermost(g: Graph, entry: nat, passes: seq<Pass>, from: nat, declared: nat,
      origin: nat)
    requires forall p :: p in passes ==> Reaches(g, entry, p.header)
    ensures var c, first :=
      Chosen(g, entry, passes, from, declared, origin), FirstCandidate(g, passes, from, declared, origin);
      (c.Some? <==> first.Some?) &&
        (c.Some? ==> first.value in passes && Outermost(g, entry, passes, from, declared, origin, first.value, c.value))
  {
    if passes == [] { return; }
    var rest, p := passes[..|passes| - 1], passes[|passes| - 1];
    assert passes == rest + [p];
    ChosenIsOutermost(g, entry, rest, from, declared, origin);
    ChosenIsCandidate(g, entry, rest, from, declared, origin);
    var best, first := Chosen(g, entry, rest, from, declared, origin), FirstCandidate(g, rest, from, declared, origin);
    if !Candidate(g, p, from, declared, origin) { return; }
    DominatesSelf(g, entry, p.header);
    if best.Some? {
      OneMoreCandidate(g, entry, rest, from, declared, origin, first.value, best.value, p);
    } else {
      forall q | q in passes && Candidate(g, q, from, declared, origin) ensures q == p {}
    }
  }

  lemma OneMoreCandidate(g: Graph, entry: nat, rest: seq<Pass>, from: nat, declared: nat, origin: nat, first: Pass,
      best: Pass, p: Pass)
    requires Reaches(g, entry, first.header)
    requires Outermost(g, entry, rest, from, declared, origin, first, best)
    requires Candidate(g, p, from, declared, origin)
    ensures Outermost(g, entry, rest + [p], from, declared, origin, first,
      if Dominates(g, entry, p.header, best.header) then p else best)
  {
    var c := if Dominates(g, entry, p.header, best.header) then p else best;
    if Dominates(g, entry, p.header, best.header) {
      DominatesTransitive(g, entry, p.header, best.header, first.header);
    }
    DominatesSelf(g, entry, p.header);
    forall q | q in rest + [p] && Candidate(g, q, from, declared, origin) && Dominates(g, entry, q.header, first.header)
      ensures Dominates(g, entry, c.header, q.header)
    {
      if q in rest {
        if c == p && Dominates(g, entry, p.header, best.header) {
          DominatesTransitive(g, entry, p.header, best.header, q.header);
        }
      } else if c == best && q == p {
        DominatorsAreAChain(g, entry, best.header, p.header, first.header);
      }
    }
  }

  // ---- handing on ----

  /** The pass-through `p` hands on to, or `None` when it goes to its join. */
  ghost function Onward(body: Body, p: Pass): Option<Pass>
    requires Structured(body)
  {
    Chosen(Flow(body), body.entry, AllPasses(body), p.node, p.join, p.header)
  }

  /** `q` is around `p`: both lead to one join and `q`'s header reaches `p`'s without meeting it. */
  ghost predicate Around(body: Body, q: Pass, p: Pass) {
    q.join == p.join && Inside(Flow(body), q.header, p.join, p.header)
  }

  lemma OnwardIsAround(body: Body, p: Pass)
    requires Structured(body) && p in AllPasses(body)
    ensures var q := Onward(body, p);
      if q.None? then forall r :: r in AllPasses(body) && r != p ==> !Around(body, r, p)
      else q.value in AllPasses(body) && q.value != p && Around(body, q.value, p)
  {
    ChosenIsCandidate(Flow(body), body.entry, AllPasses(body), p.node, p.join, p.header);
    forall r | r in AllPasses(body) && r != p ensures r.node != p.node { PassIsItsNode(body, p, r); }
  }

  /** One pass-through per node and per header. */
  lemma PassIsItsNode(body: Body, p: Pass, q: Pass)
    requires Structured(body) && p in AllPasses(body) && q in AllPasses(body)
    ensures p.node == q.node || p.header == q.header ==> p == q
    ensures p.header < |body.blocks| && p.header != p.join && NeedsPass(body, p.header) &&
      p.join == Join(body, p.header)
    ensures FirstPass(body) <= p.node < |Nodes(body)| && Nodes(body)[p.node] == PassThrough(p.header, p.join)
  {
    PassesAreSelections(body, |body.blocks|);
    PassHasItsNode(body, p.header);
  }

  /** Two or three pass-throughs handing on in a circle. */
  ghost predicate Ring(body: Body, p: Pass)
    requires Structured(body)
  {
    var q := Onward(body, p);
    q.Some? &&
    var r := Onward(body, q.value);
    r.Some? && (r.value == p || Onward(body, r.value) == Some(p))
  }

  ghost predicate NoRings(body: Body)
    requires Structured(body)
  {
    forall p :: p in AllPasses(body) ==> !Ring(body, p)
  }

  /** The pass-through reached after handing on `k` times. */
  ghost function Chain(body: Body, p: Pass, k: nat): Option<Pass>
    requires Structured(body)
    decreases k
  {
    if k == 0 then Some(p)
    else
      var q := Onward(body, p);
      if q.None? then None else Chain(body, q.value, k - 1)
  }

  ghost predicate Settles(body: Body, p: Pass)
    requires Structured(body)
  {
    exists k: nat :: Chain(body, p, k) == None
  }

  lemma SettlesStep(body: Body, p: Pass)
    requires Structured(body)
    ensures Onward(body, p).None? ==> Settles(body, p)
    ensures Onward(body, p).Some? ==> (Settles(body, p) <==> Settles(body, Onward(body, p).value))
  {
    var q := Onward(body, p);
    assert Chain(body, p, 1) == if q.None? then None else Chain(body, q.value, 0);
    if q.Some? {
      if Settles(body, q.value) {
        var k: nat :| Chain(body, q.value, k) == None;
        assert Chain(body, p, k + 1) == None;
      }
      if Settles(body, p) {
        var k: nat :| Chain(body, p, k) == None;
        assert Chain(body, q.value, k - 1) == None;
      }
    }
  }

  // ---- the pass-throughs around one another ----

  lemma AroundTransitive(body: Body, a: Pass, b: Pass, c: Pass)
    requires Around(body, a, b) && Around(body, b, c)
    ensures Around(body, a, c)
  {
    AvoidingTransitive(Flow(body), a.header, b.header, c.header, c.join);
  }

  ghost predicate Mutual(body: Body, a: Pass, b: Pass) {
    Around(body, a, b) && Around(body, b, a)
  }

  lemma AroundSelf(body: Body, p: Pass)
    requires Structured(body) && p in AllPasses(body)
    ensures Around(body, p, p)
  {
    PassIsItsNode(body, p, p);
    TrivialWalk(Flow(body), p.header);
  }

  /** The candidates an edge from nowhere in particular, sitting at `p`, would have: all around `p`. */
  ghost function Top(body: Body, p: Pass): Option<Pass>
    requires Structured(body)
  {
    Chosen(Flow(body), body.entry, AllPasses(body), 0, p.join, p.header)
  }

  ghost function Low(body: Body, p: Pass): Option<Pass>
    requires Structured(body)
  {
    FirstCandidate(Flow(body), AllPasses(body), 0, p.join, p.header)
  }

  lemma {:induction false} SameFirst(g: Graph, passes: seq<Pass>, i: Pass, join: nat, a: nat, b: nat)
    requires FirstCandidate(g, passes, 0, join, a).Some? ==> FirstCandidate(g, passes, 0, join, a).value != i
    requires forall p :: p in passes ==> p.node != 0 && (p.node == i.node ==> p == i)
    requires forall p :: p in passes && p.join == join ==>
      (Inside(g, p.header, join, a) <==> Inside(g, p.header, join, b))
    ensures FirstCandidate(g, passes, i.node, join, b) == FirstCandidate(g, passes, 0, join, a)
  {
    if passes != [] {
      var rest, last := passes[..|passes| - 1], passes[|passes| - 1];
      assert passes == rest + [last];
      SameFirst(g, rest, i, join, a, b);
    }
  }

  /** Inside one circle everyone but the lowest and the outermost hands on to the outermost. */
  lemma OthersHandToTop(body: Body, p: Pass, i: Pass)
    requires Structured(body) && p in AllPasses(body) && i in AllPasses(body) && Mutual(body, p, i)
    requires Some(i) != Low(body, p) && Some(i) != Top(body, p)
    ensures Top(body, p).Some? && Onward(body, i) == Top(body, p)
  {
    var g, entry, passes, j := Flow(body), body.entry, AllPasses(body), p.join;
    forall q | q in passes ensures Reaches(g, entry, q.header) && q.node != 0 && (q.node == i.node ==> q == i) {
      PassIsItsNode(body, q, i);
    }
    forall q | q in passes && q.join == j
      ensures Inside(g, q.header, j, p.header) <==> Inside(g, q.header, j, i.header)
    {
      if Around(body, q, p) { AroundTransitive(body, q, p, i); }
      if Around(body, q, i) { AroundTransitive(body, q, i, p); }
    }
    AroundSelf(body, p);
    ChosenIsCandidate(g, entry, passes, 0, j, p.header);
    ChosenIsOutermost(g, entry, passes, 0, j, p.header);
    ChosenIsOutermost(g, entry, passes, i.node, j, i.header);
    SameFirst(g, passes, i, j, p.header, i.header);
    var t, o, m := Top(body, p).value, Onward(body, i).value, Low(body, p).value;
    assert Candidate(g, t, i.node, j, i.header) && Candidate(g, o, 0, j, p.header);
    DominatesAntisymmetric(g, entry, t.header, o.header);
    PassIsItsNode(body, t, o);
  }

  // ---- settling ----

  ghost function AllAround(body: Body, p: Pass): set<Pass>
    requires Structured(body)
  {
    set q | q in AllPasses(body) && Around(body, q, p)
  }

  lemma FewerAround(body: Body, p: Pass, q: Pass)
    requires Structured(body) && p in AllPasses(body) && q in AllPasses(body) && Around(body, q, p)
    ensures AllAround(body, q) <= AllAround(body, p)
    ensures !Mutual(body, p, q) ==> AllAround(body, q) < AllAround(body, p)
  {
    forall r | r in AllAround(body, q) ensures r in AllAround(body, p) {
      AroundTransitive(body, r, q, p);
    }
    AroundSelf(body, p);
    if !Mutual(body, p, q) {
      assert p in AllAround(body, p) && p !in AllAround(body, q);
    }
  }

  /** Handing on from `p` stays in `p`'s circle for `k` steps. */
  ghost predicate StaysMutual(body: Body, p: Pass, k: nat)
    requires Structured(body)
  {
    forall i: nat :: i <= k ==> Chain(body, p, i).Some? && Mutual(body, p, Chain(body, p, i).value)
  }

  lemma {:induction false} ChainStep(body: Body, p: Pass, k: nat)
    requires Structured(body) && p in AllPasses(body) && Chain(body, p, k).Some?
    ensures Chain(body, p, k).value in AllPasses(body)
    ensures Chain(body, p, k + 1) == Onward(body, Chain(body, p, k).value)
    decreases k
  {
    if k > 0 {
      OnwardIsAround(body, p);
      ChainStep(body, Onward(body, p).value, k - 1);
    } else {
      var q := Onward(body, p);
      if q.Some? { assert Chain(body, q.value, 0) == q; }
    }
  }

  /** Five pass-throughs of one circle in a row hold a ring of two or three. */
  lemma LongStayHoldsARing(body: Body, p: Pass)
    requires Structured(body) && p in AllPasses(body) && StaysMutual(body, p, 4)
    ensures exists r :: r in AllPasses(body) && Ring(body, r)
  {
    var x0, x1, x2, x3, x4 :=
      p, Chain(body, p, 1).value, Chain(body, p, 2).value, Chain(body, p, 3).value, Chain(body, p, 4).value;
    forall k: nat | k <= 3
      ensures Chain(body, p, k).value in AllPasses(body) &&
        Onward(body, Chain(body, p, k).value) == Chain(body, p, k + 1)
    {
      ChainStep(body, p, k);
    }
    assert x0 == Chain(body, p, 0).value;
    assert Onward(body, x0) == Some(x1) && Onward(body, x1) == Some(x2) && Onward(body, x2) == Some(x3) &&
      Onward(body, x3) == Some(x4);
    OnwardIsAround(body, x0);
    OnwardIsAround(body, x1);
    OnwardIsAround(body, x2);
    OnwardIsAround(body, x3);
    var m, t := Low(body, p), Top(body, p);
    forall x | x in [x0, x1, x2, x3] && Some(x) != m && Some(x) != t ensures Onward(body, x) == t {
      OthersHandToTop(body, p, x);
    }
    // The outermost is one of the first three; from it the circle closes in two or three steps.
    if Some(x0) == t {
      assert x2 == x0 || x3 == x0;
      assert Ring(body, x0);
    } else if Some(x1) == t {
      assert Some(x3) == t || Some(x4) == t;
      assert Ring(body, x1);
    } else {
      assert Some(x0) == m && Some(x2) == t;
      CircleThroughLow(body, p, x0, x1, x2, x3);
    }
  }

  lemma CircleThroughLow(body: Body, p: Pass, x0: Pass, x1: Pass, x2: Pass, x3: Pass)
    requires Structured(body) && {p, x0, x1, x2, x3} <= set q | q in AllPasses(body)
    requires Onward(body, x0) == Some(x1) && Onward(body, x1) == Some(x2) && Onward(body, x2) == Some(x3)
    requires Some(x0) == Low(body, p) && Some(x2) == Top(body, p) && x3 != x2
    requires Mutual(body, p, x3)
    ensures Ring(body, x2)
  {
    if x3 != x0 {
      OthersHandToTop(body, p, x3);
    }
  }

  /** Without rings every pass-through reaches its join. */
  lemma {:induction false} SettlesWithoutRings(body: Body, p: Pass)
    requires Structured(body) && p in AllPasses(body) && NoRings(body)
    ensures Settles(body, p)
    decreases AllAround(body, p)
  {
    if StaysMutual(body, p, 4) {
      LongStayHoldsARing(body, p);
    } else {
      var i: nat :| i <= 4 && !(Chain(body, p, i).Some? && Mutual(body, p, Chain(body, p, i).value));
      var k := i;
      AroundSelf(body, p);
      SettlesFrom(body, p, k);
    }
  }

  /** If the chain ends, or leaves `p`'s circle, within `k` steps, it settles. */
  lemma {:induction false} SettlesFrom(body: Body, p: Pass, k: nat)
    requires Structured(body) && p in AllPasses(body) && NoRings(body)
    requires Chain(body, p, k).None? || !Mutual(body, p, Chain(body, p, k).value)
    ensures Settles(body, p)
    decreases AllAround(body, p), 0
  {
    if Chain(body, p, k).Some? {
      var q := Chain(body, p, k).value;
      ChainIsAround(body, p, k);
      FewerAround(body, p, q);
      SettlesWithoutRings(body, q);
      ChainSettles(body, p, k);
    }
  }

  lemma {:induction false} ChainIsAround(body: Body, p: Pass, k: nat)
    requires Structured(body) && p in AllPasses(body) && Chain(body, p, k).Some?
    ensures Chain(body, p, k).value in AllPasses(body) && Around(body, Chain(body, p, k).value, p)
    decreases k
  {
    AroundSelf(body, p);
    if k > 0 {
      OnwardIsAround(body, p);
      var q := Onward(body, p).value;
      ChainIsAround(body, q, k - 1);
      AroundTransitive(body, Chain(body, p, k).value, q, p);
    }
  }

  lemma {:induction false} ChainSettles(body: Body, p: Pass, k: nat)
    requires Structured(body) && Chain(body, p, k).Some? && Settles(body, Chain(body, p, k).value)
    ensures Settles(body, p)
    decreases k
  {
    if k > 0 {
      ChainSettles(body, Onward(body, p).value, k - 1);
      SettlesStep(body, p);
    }
  }

  lemma {:induction false} RingNeverSettles(body: Body, p: Pass, k: nat)
    requires Structured(body) && Ring(body, p)
    ensures Chain(body, p, k) != None
    decreases k
  {
    var q := Onward(body, p).value;
    var r := Onward(body, q).value;
    if k > 2 {
      if r == p {
        RingNeverSettles(body, p, k - 2);
      } else {
        RingNeverSettles(body, p, k - 3);
        assert Chain(body, r, k - 2) == Chain(body, p, k - 3);
      }
      assert Chain(body, q, k - 1) == Chain(body, r, k - 2);
    } else if k == 2 {
      assert Chain(body, q, 1) == Chain(body, r, 0);
    } else if k == 1 {
      assert Chain(body, q, 0) == Some(q);
    }
  }

  /** Exactly when: every pass-through reaches its join if and only if there is no ring. */
  lemma AllSettleExactlyWithoutRings(body: Body)
    requires Structured(body)
    ensures (forall p :: p in AllPasses(body) ==> Settles(body, p)) <==> NoRings(body)
  {
    if NoRings(body) {
      forall p | p in AllPasses(body) ensures Settles(body, p) {
        SettlesWithoutRings(body, p);
      }
    } else {
      var p :| p in AllPasses(body) && Ring(body, p);
      forall k: nat ensures Chain(body, p, k) != None { RingNeverSettles(body, p, k); }
    }
  }

  /** A cycle of the body through `h` that does not meet `join`. */
  ghost predicate CycleAvoiding(g: Graph, h: nat, join: nat) {
    exists x :: Edge(g, h, x) && ReachesAvoiding(g, x, h, join)
  }

  /** A ring needs a loop that holds the selection and leaves out its join. */
  lemma RingNeedsALoop(body: Body, p: Pass)
    requires Structured(body) && p in AllPasses(body) && Ring(body, p)
    ensures CycleAvoiding(Flow(body), p.header, p.join)
  {
    var q := Onward(body, p).value;
    OnwardIsAround(body, p);
    OnwardIsAround(body, q);
    var r := Onward(body, q).value;
    if r != p {
      OnwardIsAround(body, r);
      AroundTransitive(body, p, r, q);
    }
    PassIsItsNode(body, p, q);
    var g, j := Flow(body), p.join;
    var v :| WalkBetween(g, v, p.header, q.header) && j !in v;
    CutWalk(g, v, 1);
    assert Edge(g, v[1 - 1], v[1]);
    assert ReachesAvoiding(g, v[1], q.header, j);
    AvoidingTransitive(g, v[1], q.header, p.header, j);
  }

  // ---- every branch arrives ----

  /** Follow the first targets of added blocks from node `i` for at most `k` steps. */
  function Follow(targets: Graph, count: nat, i: nat, k: nat): nat
    decreases k
  {
    if k == 0 || i < count || i >= |targets| || targets[i] == [] then i
    else Follow(targets, count, targets[i][0], k - 1)
  }

  ghost predicate GetsReal(targets: Graph, count: nat, i: nat) {
    exists k: nat :: Follow(targets, count, i, k) < count
  }

  /** The edge into node `i` gets to a real block. */
  ghost predicate Arrives(body: Body, i: nat)
    requires Structured(body)
  {
    GetsReal(Emitted(body), |body.blocks|, i)
  }

  lemma ArrivesStep(body: Body, i: nat)
    requires Structured(body) && |body.blocks| <= i < |Nodes(body)|
    ensures |Targets(body, i)| == 1 && Targets(body, i)[0] < |Nodes(body)|
    ensures Arrives(body, i) <==> Arrives(body, Targets(body, i)[0])
  {
    AddedEdge(body, i);
    var v := Targets(body, i)[0];
    if Arrives(body, v) {
      var k: nat :| Follow(Emitted(body), |body.blocks|, v, k) < |body.blocks|;
      assert Follow(Emitted(body), |body.blocks|, i, k + 1) < |body.blocks|;
    }
    if Arrives(body, i) {
      var k: nat :| Follow(Emitted(body), |body.blocks|, i, k) < |body.blocks|;
      assert Follow(Emitted(body), |body.blocks|, v, k - 1) < |body.blocks|;
    }
  }

  lemma {:induction false} FollowKeepsDestination(body: Body, i: nat, k: nat)
    requires Structured(body) && i < |Nodes(body)|
    ensures Follow(Emitted(body), |body.blocks|, i, k) < |Nodes(body)|
    ensures Destination(Nodes(body)[Follow(Emitted(body), |body.blocks|, i, k)]) == Destination(Nodes(body)[i])
    decreases k
  {
    if k > 0 && i >= |body.blocks| {
      AddedEdge(body, i);
      FollowKeepsDestination(body, Targets(body, i)[0], k - 1);
    }
  }

  lemma PassHandsOn(body: Body, p: Pass)
    requires Structured(body) && p in AllPasses(body)
    ensures |body.blocks| <= p.node < |Nodes(body)|
    ensures Targets(body, p.node) == [if Onward(body, p).None? then p.join else Onward(body, p).value.node]
  {
    PassIsItsNode(body, p, p);
  }

  lemma {:induction false} SettlesArrives(body: Body, p: Pass, k: nat)
    requires Structured(body) && p in AllPasses(body) && Chain(body, p, k).None?
    ensures p.node < |Nodes(body)| && Arrives(body, p.node)
    decreases k
  {
    PassHandsOn(body, p);
    ArrivesStep(body, p.node);
    OnwardIsAround(body, p);
    PassIsItsNode(body, p, p);
    if Onward(body, p).Some? {
      SettlesArrives(body, Onward(body, p).value, k - 1);
    } else {
      assert Follow(Emitted(body), |body.blocks|, p.join, 0) < |body.blocks|;
    }
  }

  lemma {:induction false} ArrivesSettles(body: Body, p: Pass, k: nat)
    requires Structured(body) && p in AllPasses(body) && p.node < |Nodes(body)| &&
      Follow(Emitted(body), |body.blocks|, p.node, k) < |body.blocks|
    ensures Settles(body, p)
    decreases k
  {
    PassHandsOn(body, p);
    OnwardIsAround(body, p);
    SettlesStep(body, p);
    if Onward(body, p).Some? {
      PassHandsOn(body, Onward(body, p).value);
      ArrivesSettles(body, Onward(body, p).value, k - 1);
    }
  }

  /** Every branch of every block is carried to a real block. */
  ghost predicate EveryBranchArrives(body: Body)
    requires Structured(body)
  {
    EmittedIsValid(body);
    forall u: nat, v: nat :: u < |body.blocks| && Edge(Emitted(body), u, v) ==> Arrives(body, v)
  }

  lemma {:induction false} ReachedNodesArrive(body: Body, w: seq<nat>, v: nat)
    requires Structured(body) && EveryBranchArrives(body)
    requires WalkBetween(Emitted(body), w, body.entry, v)
    ensures v < |Nodes(body)| && Arrives(body, v)
    decreases |w|
  {
    if |w| == 1 {
      assert Follow(Emitted(body), |body.blocks|, v, 0) < |body.blocks|;
    } else {
      LastStep(Emitted(body), w, body.entry, v);
      var u := w[|w| - 2];
      ReachedNodesArrive(body, w[..|w| - 1], u);
      EmittedEdge(body, u, v);
      if u >= |body.blocks| { ArrivesStep(body, u); }
    }
  }

  lemma NodesArriveWithoutRings(body: Body, i: nat)
    requires Structured(body) && NoRings(body) && i < |Nodes(body)|
    ensures Arrives(body, i)
    decreases |Nodes(body)| - i
  {
    NodeShape(body, i);
    if i < |body.blocks| {
      assert Follow(Emitted(body), |body.blocks|, i, 0) < |body.blocks|;
    } else if i >= FirstPass(body) {
      var p := AllPasses(body)[i - FirstPass(body)];
      assert p in AllPasses(body);
      SettlesWithoutRings(body, p);
      var k: nat :| Chain(body, p, k) == None;
      SettlesArrives(body, p, k);
    } else {
      ArrivesStep(body, i);
      AddedEdge(body, i);
      var v := Targets(body, i)[0];
      NodeShape(body, v);
      if v < |body.blocks| {
        assert Follow(Emitted(body), |body.blocks|, v, 0) < |body.blocks|;
      } else {
        NodesArriveWithoutRings(body, v);
      }
    }
  }

  /**
  Exactly when an accepted plan carries every branch to its target: when no two or
  three of its pass-throughs hand on to one another in a circle.
   */
  lemma BranchesArriveExactlyWithoutRings(body: Body)
    requires Plannable(body)
    ensures EveryBranchArrives(body) <==> NoRings(body)
  {
    EmittedIsValid(body);
    if NoRings(body) {
      forall u: nat, v: nat | u < |body.blocks| && Edge(Emitted(body), u, v) ensures Arrives(body, v) {
        NodesArriveWithoutRings(body, v);
      }
    }
    if EveryBranchArrives(body) {
      forall p | p in AllPasses(body) ensures Settles(body, p) {
        PassIsItsNode(body, p, p);
        assert Reaches(Emitted(body), body.entry, p.node);
        var w :| WalkBetween(Emitted(body), w, body.entry, p.node);
        ReachedNodesArrive(body, w, p.node);
        var k: nat :| Follow(Emitted(body), |body.blocks|, p.node, k) < |body.blocks|;
        ArrivesSettles(body, p, k);
      }
      AllSettleExactlyWithoutRings(body);
    }
  }

  /** In particular when no loop holds a selection with a pass-through and leaves out its join. */
  lemma BranchesArriveWithoutLoops(body: Body)
    requires Plannable(body)
    requires forall h: nat :: h < |body.blocks| && NeedsPass(body, h) ==> !CycleAvoiding(Flow(body), h, Join(body, h))
    ensures EveryBranchArrives(body)
  {
    forall p | p in AllPasses(body) ensures !Ring(body, p) {
      PassIsItsNode(body, p, p);
      if Ring(body, p) { RingNeedsALoop(body, p); }
    }
    BranchesArriveExactlyWithoutRings(body);
  }
}
