/**
An accepted body whose selection does not dominate its merge block: its inside has a
second entry. Block 2 is inside the selection that block 1 heads, and block 0 branches
straight to it.
 */
module SideEntry {
  import opened Graphs
  import opened Options
  import opened Kernel
  import opened Reachability
  import opened PostDominators
  import opened Structure
  import opened PlanProperties
  import opened Rings
  import opened RingExample
  import LoopHeaders

  function Jumped(): Body {
    Body(
      [Block([0, 1], [], Test(0, 1, 2)), Block([], [], Test(1, 2, 3)),
       Block([], [], Br(Branch(3, []))), Block([], [], Return([0]))],
      map[], 0, Bare())
  }

  ghost function Paths(): Graph {
    [[1, 2], [2, 3], [3], []]
  }

  lemma JumpedEdge(u: nat, v: nat)
    ensures Edge(Paths(), u, v) <==> (u < 3 && v == u + 1) || (u < 2 && v == u + 2)
  {
    assert v in [1, 2] <==> v == 1 || v == 2;
    assert v in [2, 3] <==> v == 2 || v == 3;
    assert v in [3] <==> v == 3;
  }

  lemma JumpedFlow()
    ensures ValidBody(Jumped()) && Flow(Jumped()) == Paths() && ValidGraph(Paths())
    ensures forall u: nat, v: nat :: Edge(Paths(), u, v) <==> (u < 3 && v == u + 1) || (u < 2 && v == u + 2)
  {
    var b := Jumped();
    forall i, br | 0 <= i < |b.blocks| && br in Branches(b.blocks[i].terminator) ensures BranchFits(b, br) {
      assert br == Branches(b.blocks[i].terminator)[0] || br == Branches(b.blocks[i].terminator)[1];
    }
    assert Flow(b)[0] == [1, 2] && Flow(b)[1] == [2, 3] && Flow(b)[2] == [3] && Flow(b)[3] == [];
    FlowIsValid(b);
    forall u: nat, v: nat ensures Edge(Paths(), u, v) <==> (u < 3 && v == u + 1) || (u < 2 && v == u + 2) {
      JumpedEdge(u, v);
    }
  }

  lemma JumpedReach()
    ensures forall v: nat :: v < 4 ==> Reaches(Paths(), 0, v)
    ensures !Dominates(Paths(), 0, 1, 2) && !Dominates(Paths(), 0, 1, 3)
  {
    JumpedFlow();
    var g := Paths();
    TrivialWalk(g, 0);
    EdgeReaches(g, 0, 1);
    Along(g, [0], 0, 0, 2, 1);
    Along(g, [0] + [2], 0, 2, 3, 1);
  }

  lemma NoHeaders()
    ensures ValidGraph(Paths()) && LoopHeaders.FullSearch(Paths(), 0).headers == {}
  {
    JumpedFlow();
    var g := Paths();
    var s3 := LoopHeaders.Search({0, 1, 2, 3}, {}, [3]);
    assert LoopHeaders.Explore(g, 3, 0, {0, 1, 2, 3}, LoopHeaders.Search({0, 1, 2, 3}, {}, [])) == s3;
    var s2 := s3.(finished := [3, 2]);
    assert LoopHeaders.Explore(g, 2, 1, {0, 1, 2}, s3) == s2;
    assert LoopHeaders.Explore(g, 2, 0, {0, 1, 2}, LoopHeaders.Search({0, 1, 2}, {}, [])) == s2 by {
      assert {0, 1, 2} + {3} == {0, 1, 2, 3};
    }
    var s1 := s3.(finished := [3, 2, 1]);
    assert LoopHeaders.Explore(g, 1, 2, {0, 1}, s2) == s1;
    assert LoopHeaders.Explore(g, 1, 1, {0, 1}, s2) == s1;
    assert LoopHeaders.Explore(g, 1, 0, {0, 1}, LoopHeaders.Search({0, 1}, {}, [])) == s1 by {
      assert {0, 1} + {2} == {0, 1, 2};
    }
    assert LoopHeaders.Explore(g, 0, 2, {0}, s1).headers == {};
    assert LoopHeaders.Explore(g, 0, 1, {0}, s1).headers == {};
    assert {0} + {1} == {0, 1};
  }

  /** Block 3 is the join of both selections. */
  lemma JumpedJoins(h: nat)
    requires h < 2
    ensures HasJoin(Jumped(), h) && Join(Jumped(), h) == 3
  {
    JumpedFlow();
    var g := Paths();
    assert forall n: nat :: Returns(g, n) <==> n == 3;
    assert IsWalk(g, [0, 2, 3]) && IsWalk(g, [1, 3]) && IsWalk(g, [0, 1, 3]);
    assert Departure(g, [0, 2, 3], 0) && Departure(g, [0, 1, 3], 0) && Departure(g, [1, 3], 1);
    forall w, n | Departure(g, w, n) ensures 3 in w { assert w[|w| - 1] == 3; }
    assert PostDominates(g, 3, h) && PostDominates(g, 3, 3);
    forall e: nat | e != h && PostDominates(g, e, h) ensures e == 3 {
      if h == 0 { assert e in [0, 2, 3] && e in [0, 1, 3]; } else { assert e in [1, 3]; }
    }
    assert Nearest(g, h, 3);
  }

  lemma JumpedIsStructured()
    ensures Structured(Jumped())
    ensures forall h: nat :: !IsHeader(Jumped(), h)
    ensures forall h: nat :: IsSelection(Jumped(), h) <==> h < 2
    ensures forall h: nat :: NeedsPass(Jumped(), h) <==> h == 1
  {
    JumpedFlow();
    JumpedReach();
    NoHeaders();
    JumpedJoins(0);
    JumpedJoins(1);
    EntryDominates(Paths(), 0, 3);
  }

  lemma NoLoopNodes(k: nat)
    requires ValidBody(Jumped()) && k <= 4 && LoopsFit(Jumped(), k) && forall h: nat :: !IsHeader(Jumped(), h)
    ensures LoopNodes(Jumped(), k) == []
  {
    if k > 0 { NoLoopNodes(k - 1); }
  }

  lemma JumpedPasses()
    ensures Structured(Jumped()) && LoopNodes(Jumped(), 4) == [] && FirstPass(Jumped()) == 4
    ensures Passes(Jumped(), 1) == [] && AllPasses(Jumped()) == [Pass(1, 3, 4)]
  {
    JumpedIsStructured();
    JumpedJoins(1);
    NoLoopNodes(4);
    var b := Jumped();
    assert Passes(b, 1) == Passes(b, 0) == [];
    assert Passes(b, 2) == [Pass(1, 3, 4)];
    assert Passes(b, 4) == Passes(b, 3) == Passes(b, 2);
  }

  lemma JumpedNodes()
    ensures Structured(Jumped()) && AllPasses(Jumped()) == [Pass(1, 3, 4)]
    ensures Nodes(Jumped()) == [Real(0), Real(1), Real(2), Real(3), PassThrough(1, 3)]
  {
    JumpedPasses();
    FourRealNodes();
    OnePassNode();
  }

  lemma JumpedMerge()
    ensures Structured(Jumped()) && NeedsPass(Jumped(), 1) && Merge(Jumped(), 1) == Some(4)
  {
    JumpedIsStructured();
    JumpedPasses();
  }

  lemma FourRealNodes()
    ensures RealNodes(4) == [Real(0), Real(1), Real(2), Real(3)]
  {
  }

  lemma OnePassNode()
    ensures PassNodes([Pass(1, 3, 4)]) == [PassThrough(1, 3)]
  {
  }

  /** Where the redirection sends each edge. */
  lemma JumpedRedirects(from: nat, declared: nat)
    requires from < 5
    ensures Structured(Jumped()) && |Nodes(Jumped())| == 5
    ensures Redirect(Jumped(), from, declared) ==
      if declared == 3 && (from == 1 || from == 2) then 4 else declared
  {
    JumpedNodes();
    JumpedFlow();
    JumpedInsides();
    var g, one := Paths(), Pass(1, 3, 4);
    var origin := Origin(Nodes(Jumped())[from]);
    assert [one][..0] == [];
    assert Chosen(g, 0, [], from, declared, origin) == None;
    assert Chosen(g, 0, [one], from, declared, origin) ==
      if Candidate(g, one, from, declared, origin) then Some(one) else None;
  }

  lemma JumpedInsides()
    ensures Inside(Paths(), 1, 3, 1) && Inside(Paths(), 1, 3, 2)
    ensures !Inside(Paths(), 1, 3, 0) && !Inside(Paths(), 1, 3, 3)
  {
    JumpedFlow();
    var g := Paths();
    TrivialWalk(g, 1);
    AvoidingStep(g, 1, 1, 2, 3);
    if Inside(g, 1, 3, 0) { ClosedUnderAvoiding(g, iset{1, 2}, 1, 0, 3); }
    if Inside(g, 1, 3, 3) { AvoidingEnds(g, 1, 3, 3); }
  }

  lemma JumpedTargets(i: nat)
    requires i < 5
    ensures Structured(Jumped()) && |Nodes(Jumped())| == 5
    ensures Targets(Jumped(), i) == [[1, 2], [2, 4], [4], [], [3]][i]
  {
    JumpedIsStructured();
    if i == 0 {
      JumpedRedirects(0, 1);
      JumpedRedirects(0, 2);
    } else if i == 1 {
      JumpedRedirects(1, 2);
      JumpedRedirects(1, 3);
    } else if i == 2 {
      JumpedRedirects(2, 3);
    } else {
      JumpedNodes();
      JumpedRedirects(i, 3);
    }
  }

  lemma JumpedEmitted()
    ensures Structured(Jumped()) && Emitted(Jumped()) == [[1, 2], [2, 4], [4], [], [3]]
  {
    JumpedTargets(0);
    forall i: nat | i < 5 ensures Targets(Jumped(), i) == [[1, 2], [2, 4], [4], [], [3]][i] { JumpedTargets(i); }
  }

  lemma ItsWalks(e: Graph)
    requires e == [[1, 2], [2, 4], [4], [], [3]]
    ensures forall i: nat :: i < 5 ==> Reaches(e, 0, i)
    ensures !Dominates(e, 0, 1, 4)
  {
    assert Edge(e, 0, 1) && Edge(e, 0, 2) && Edge(e, 2, 4) && Edge(e, 4, 3);
    TrivialWalk(e, 0);
    ReachesStep(e, 0, 0, 1);
    Along(e, [0], 0, 0, 2, 1);
    Along(e, [0] + [2], 0, 2, 4, 1);
    ReachesStep(e, 0, 4, 3);
  }

  lemma JumpedHasNoRing()
    ensures Structured(Jumped()) && NoRings(Jumped())
  {
    JumpedNodes();
    var b, one := Jumped(), Pass(1, 3, 4);
    forall p | p in AllPasses(b) ensures p == one {}
    if !NoRings(b) {
      OnwardIsAround(b, one);
      PassIsItsNode(b, one, one);
    }
  }

  /**
  The body is accepted and has no ring, yet the emitted graph gets from block 0 through
  block 2 to the pass-through, the merge block of block 1, without meeting block 1.
   */
  lemma AcceptedYetNotDominated()
    ensures Plannable(Jumped()) && NoRings(Jumped()) && NeedsPass(Jumped(), 1)
    ensures !Dominates(Emitted(Jumped()), 0, 1, Merge(Jumped(), 1).value)
  {
    JumpedEmitted();
    ItsWalks(Emitted(Jumped()));
    JumpedHasNoRing();
    JumpedMerge();
  }
}
