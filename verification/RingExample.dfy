/**
An accepted body whose plan never arrives, and whose loop comes back to its header by two
edges: block 2 continues, block 3 continues or breaks, and the join, block 4, is also
reached past the loop. Each selection's pass-through takes the other for the one around it.
 */
module RingExample {
  import opened Graphs
  import opened Options
  import opened Kernel
  import opened Reachability
  import opened PostDominators
  import opened Structure
  import opened PlanProperties
  import opened Rings
  import LoopHeaders

  function Test(cond: nat, one: nat, zero: nat): Terminator {
    CondBr(cond, Branch(one, []), Branch(zero, []))
  }

  function BreakAndContinue(): Body {
    Body(
      [Block([0, 1], [], Test(0, 1, 4)), Block([], [], Test(1, 2, 4)), Block([], [], Test(1, 3, 1)),
       Block([], [], Test(1, 1, 4)), Block([], [], Return([0]))],
      map[], 0, Bare())
  }

  ghost function G(): Graph {
    [[1, 4], [2, 4], [3, 1], [1, 4], []]
  }

  lemma ItsEdge(u: nat, v: nat)
    ensures Edge(G(), u, v) <==> (u < 3 && v == u + 1) || (2 <= u < 4 && v == 1) || (u < 4 && u != 2 && v == 4)
  {
    assert v in [1, 4] <==> v == 1 || v == 4;
    assert v in [2, 4] <==> v == 2 || v == 4;
    assert v in [3, 1] <==> v == 3 || v == 1;
  }

  lemma ItsFlow()
    ensures ValidBody(BreakAndContinue()) && Flow(BreakAndContinue()) == G() && ValidGraph(G())
    ensures forall u: nat, v: nat :: Edge(G(), u, v) <==>
      (u < 3 && v == u + 1) || (2 <= u < 4 && v == 1) || (u < 4 && u != 2 && v == 4)
  {
    var b := BreakAndContinue();
    forall i, br | 0 <= i < |b.blocks| && br in Branches(b.blocks[i].terminator) ensures BranchFits(b, br) {
      assert br == Branches(b.blocks[i].terminator)[0] || br == Branches(b.blocks[i].terminator)[1];
    }
    assert Flow(b)[0] == [1, 4] && Flow(b)[1] == [2, 4] && Flow(b)[2] == [3, 1] && Flow(b)[3] == [1, 4] &&
      Flow(b)[4] == [];
    FlowIsValid(b);
    forall u: nat, v: nat
      ensures Edge(G(), u, v) <==> (u < 3 && v == u + 1) || (2 <= u < 4 && v == 1) || (u < 4 && u != 2 && v == 4)
    {
      ItsEdge(u, v);
    }
  }

  /** Two more steps on a walk that avoids `x`. */
  lemma Along(g: Graph, w: seq<nat>, a: nat, b: nat, c: nat, x: nat)
    requires WalkBetween(g, w, a, b) && Edge(g, b, c) && x !in w && x != c
    ensures WalkBetween(g, w + [c], a, c) && x !in w + [c]
    ensures Reaches(g, a, c) && ReachesAvoiding(g, a, c, x)
  {
    StepWalk(g, w, a, b, c);
  }

  lemma ItsReach()
    ensures forall v: nat :: v < 5 ==> Reaches(G(), 0, v)
    ensures Reaches(G(), 2, 1) && !Reaches(G(), 4, 1)
    ensures !Dominates(G(), 0, 2, 4) && !Dominates(G(), 0, 3, 4) && !Dominates(G(), 0, 3, 2)
    ensures Dominates(G(), 0, 1, 2)
  {
    ItsFlow();
    var g := G();
    TrivialWalk(g, 0);
    Along(g, [0], 0, 0, 1, 3);
    Along(g, [0] + [1], 0, 1, 2, 3);
    Along(g, [0], 0, 0, 4, 3);
    Along(g, [0], 0, 0, 4, 2);
    ReachesStep(g, 0, 2, 3);
    EdgeReaches(g, 2, 3);
    ReachesStep(g, 2, 3, 1);
    if Reaches(g, 4, 1) { ClosedUnderReach(g, iset{4}, 4, 1); }
    forall w | WalkBetween(g, w, 0, 2) ensures 1 in w {
      LastStep(g, w, 0, 2);
      assert w[|w| - 2] == 1;
    }
  }

  lemma ItsHeaders()
    ensures ValidGraph(G()) && LoopHeaders.FullSearch(G(), 0).headers == {1}
  {
    ItsFlow();
    var g := G();
    var h := {1};
    var f1 := LoopHeaders.Search({0, 1, 2, 3, 4}, h, [4]);
    assert LoopHeaders.Explore(g, 4, 0, {0, 1, 2, 3, 4}, LoopHeaders.Search({0, 1, 2, 3, 4}, h, [])) == f1;
    var f2 := f1.(finished := [4, 3]);
    assert LoopHeaders.Explore(g, 3, 2, {0, 1, 2, 3}, f1) == f2;
    assert LoopHeaders.Explore(g, 3, 1, {0, 1, 2, 3}, LoopHeaders.Search({0, 1, 2, 3}, h, [])) == f2 by {
      assert {0, 1, 2, 3} + {4} == {0, 1, 2, 3, 4};
    }
    assert LoopHeaders.Explore(g, 3, 0, {0, 1, 2, 3}, LoopHeaders.Search({0, 1, 2, 3}, {}, [])) == f2 by {
      assert {} + {1} == h;
    }
    var f3 := f1.(finished := [4, 3, 2]);
    assert LoopHeaders.Explore(g, 2, 2, {0, 1, 2}, f2) == f3;
    assert LoopHeaders.Explore(g, 2, 1, {0, 1, 2}, f2) == f3;
    assert LoopHeaders.Explore(g, 2, 0, {0, 1, 2}, LoopHeaders.Search({0, 1, 2}, {}, [])) == f3 by {
      assert {0, 1, 2} + {3} == {0, 1, 2, 3};
    }
    var f4 := f1.(finished := [4, 3, 2, 1]);
    assert LoopHeaders.Explore(g, 1, 2, {0, 1}, f3) == f4;
    assert LoopHeaders.Explore(g, 1, 1, {0, 1}, f3) == f4;
    assert LoopHeaders.Explore(g, 1, 0, {0, 1}, LoopHeaders.Search({0, 1}, {}, [])) == f4 by {
      assert {0, 1} + {2} == {0, 1, 2};
    }
    assert LoopHeaders.Explore(g, 0, 2, {0}, f4).headers == h;
    assert LoopHeaders.Explore(g, 0, 1, {0}, f4).headers == h;
    assert {0} + {1} == {0, 1};
  }

  /** Block 4 is the join of all three selections. */
  lemma ItsJoins(h: nat)
    requires h == 0 || h == 2 || h == 3
    ensures HasJoin(BreakAndContinue(), h) && Join(BreakAndContinue(), h) == 4
  {
    ItsFlow();
    var g := G();
    assert forall n: nat :: Returns(g, n) <==> n == 4;
    assert IsWalk(g, [2, 1, 4]) && IsWalk(g, [2, 3, 4]) && IsWalk(g, [0, 4]) && IsWalk(g, [3, 4]);
    assert if h == 2 then Departure(g, [2, 1, 4], 2) && Departure(g, [2, 3, 4], 2) else Departure(g, [h, 4], h);
    forall w, n | Departure(g, w, n) ensures 4 in w { assert w[|w| - 1] == 4; }
    assert PostDominates(g, 4, h) && PostDominates(g, 4, 4);
    forall e: nat | e != h && PostDominates(g, e, h) ensures e == 4 {
      if h == 2 { assert e in [2, 1, 4] && e in [2, 3, 4]; } else { assert e in [h, 4]; }
    }
    assert Nearest(g, h, 4);
  }

  lemma ItIsStructured()
    ensures Structured(BreakAndContinue())
    ensures forall h: nat :: IsHeader(BreakAndContinue(), h) <==> h == 1
    ensures forall h: nat :: IsSelection(BreakAndContinue(), h) <==> h == 0 || h == 2 || h == 3
    ensures forall h: nat :: NeedsPass(BreakAndContinue(), h) <==> h == 2 || h == 3
  {
    ItsFlow();
    ItsReach();
    ItsHeaders();
    ItsJoins(0);
    ItsJoins(2);
    ItsJoins(3);
    var b := BreakAndContinue();
    assert LoopBody(b, 1) == 2 && LoopExit(b, 1) == 4 && LoopFits(b, 1);
    EntryDominates(G(), 0, 4);
    assert !Dominates(G(), 0, 2, 4) && !Dominates(G(), 0, 3, 4);
  }

  lemma ItsPasses()
    ensures Structured(BreakAndContinue()) && FirstPass(BreakAndContinue()) == 6 &&
      Merge(BreakAndContinue(), 1) == Some(5)
    ensures LoopNodes(BreakAndContinue(), 5) == [LoopMerge(1, 4)]
    ensures AllPasses(BreakAndContinue()) == [Pass(2, 4, 6), Pass(3, 4, 7)]
  {
    ItIsStructured();
    ItsReach();
    ItsJoins(2);
    ItsJoins(3);
    var b := BreakAndContinue();
    ItsFlow();
    assert LoopNodes(b, 1) == LoopNodes(b, 0) == [];
    assert LoopNodes(b, 2) == [LoopMerge(1, 4)];
    assert LoopNodes(b, 5) == LoopNodes(b, 4) == LoopNodes(b, 3) == [LoopMerge(1, 4)];
    assert FirstPass(b) == 6;
    assert Passes(b, 2) == Passes(b, 1) == Passes(b, 0) == [];
    assert Passes(b, 3) == [Pass(2, 4, 6)];
    assert Passes(b, 4) == [Pass(2, 4, 6), Pass(3, 4, 7)];
    assert Passes(b, 5) == Passes(b, 4);
  }

  lemma ItsNodes()
    ensures Structured(BreakAndContinue())
    ensures Nodes(BreakAndContinue()) ==
      [Real(0), Real(1), Real(2), Real(3), Real(4), LoopMerge(1, 4), PassThrough(2, 4), PassThrough(3, 4)]
  {
    ItsPasses();
    FiveRealNodes();
    TwoPassNodes();
  }

  lemma FiveRealNodes()
    ensures RealNodes(5) == [Real(0), Real(1), Real(2), Real(3), Real(4)]
  {
  }

  lemma TwoPassNodes()
    ensures PassNodes([Pass(2, 4, 6), Pass(3, 4, 7)]) == [PassThrough(2, 4), PassThrough(3, 4)]
  {
  }

  /** Inside either selection are the loop's own blocks, and never the entry or the join. */
  lemma ItsInsides(h: nat)
    requires h == 2 || h == 3
    ensures Inside(G(), h, 4, 1) && Inside(G(), h, 4, 2) && Inside(G(), h, 4, 3)
    ensures !Inside(G(), h, 4, 0) && !Inside(G(), h, 4, 4)
  {
    ItsFlow();
    var g := G();
    TrivialWalk(g, h);
    if h == 2 { AvoidingStep(g, 2, 2, 3, 4); }
    AvoidingStep(g, h, 3, 1, 4);
    AvoidingStep(g, h, 1, 2, 4);
    if Inside(g, h, 4, 0) { ClosedUnderAvoiding(g, iset{1, 2, 3}, h, 0, 4); }
    if Inside(g, h, 4, 4) { AvoidingEnds(g, h, 4, 4); }
  }

  /** What the redirection chooses between the two pass-throughs. */
  lemma ItsChoice(from: nat, declared: nat, origin: nat)
    requires origin < 5
    ensures Chosen(G(), 0, [Pass(2, 4, 6), Pass(3, 4, 7)], from, declared, origin) ==
      if declared != 4 || origin == 0 || origin == 4 then None
      else if from == 6 then Some(Pass(3, 4, 7)) else Some(Pass(2, 4, 6))
  {
    ItsInsides(2);
    ItsInsides(3);
    ItsReach();
    var g, two, three := G(), Pass(2, 4, 6), Pass(3, 4, 7);
    assert [two, three][..1] == [two] && [two][..0] == [];
    assert Chosen(g, 0, [], from, declared, origin) == None;
    assert Chosen(g, 0, [two], from, declared, origin) ==
      if Candidate(g, two, from, declared, origin) then Some(two) else None;
  }

  /** Where the redirection sends each edge. */
  lemma ItsRedirects(from: nat, declared: nat)
    requires from < 8
    ensures Structured(BreakAndContinue()) && |Nodes(BreakAndContinue())| == 8
    ensures Redirect(BreakAndContinue(), from, declared) ==
      if declared != 4 || from == 0 || from == 4 then declared else if from == 6 then 7 else 6
  {
    ItsNodes();
    ItsPasses();
    ItsFlow();
    ItsChoice(from, declared, Origin(Nodes(BreakAndContinue())[from]));
  }

  lemma ItsAddedEdges()
    ensures Structured(BreakAndContinue()) && |Nodes(BreakAndContinue())| == 8
    ensures Targets(BreakAndContinue(), 5) == [6] && Targets(BreakAndContinue(), 6) == [7] &&
      Targets(BreakAndContinue(), 7) == [6]
  {
    ItsNodes();
    ItsRedirects(5, 4);
    ItsRedirects(6, 4);
    ItsRedirects(7, 4);
  }

  lemma ItsRealEdges()
    ensures Structured(BreakAndContinue()) && |Nodes(BreakAndContinue())| == 8
    ensures Targets(BreakAndContinue(), 0) == [1, 4] && Targets(BreakAndContinue(), 1) == [2, 5]
    ensures Targets(BreakAndContinue(), 2) == [3, 1] && Targets(BreakAndContinue(), 3) == [1, 6]
  {
    ItIsStructured();
    ItsPasses();
    ItsFlow();
    ItsReach();
    assert LoopBody(BreakAndContinue(), 1) == 2;
    ItsRedirects(0, 1);
    ItsRedirects(0, 4);
    ItsRedirects(1, 2);
    ItsRedirects(2, 3);
    ItsRedirects(2, 1);
    ItsRedirects(3, 1);
    ItsRedirects(3, 4);
  }

  /** Every emitted node is reached: the join past the loop, the pass-throughs from the loop merge. */
  lemma AllReached(e: Graph)
    requires |e| == 8 && e[0] == [1, 4] && e[1] == [2, 5] && e[2] == [3, 1] && e[5] == [6] && e[6] == [7]
    ensures forall i: nat :: i < 8 ==> Reaches(e, 0, i)
  {
    TrivialWalk(e, 0);
    EmittedStep(e, 0, 0, 0);
    EmittedStep(e, 0, 0, 1);
    EmittedStep(e, 0, 1, 0);
    EmittedStep(e, 0, 1, 1);
    EmittedStep(e, 0, 2, 0);
    EmittedStep(e, 0, 5, 0);
    EmittedStep(e, 0, 6, 0);
  }

  lemma ItIsPlannable()
    ensures Plannable(BreakAndContinue())
  {
    ItsAddedEdges();
    ItsRealEdges();
    AllReached(Emitted(BreakAndContinue()));
  }

  lemma EmittedStep(e: Graph, entry: nat, u: nat, k: nat)
    requires u < |e| && k < |e[u]| && e[u][k] < |e| && Reaches(e, entry, u)
    ensures Reaches(e, entry, e[u][k])
  {
    assert Edge(e, u, e[u][k]);
    ReachesStep(e, entry, u, e[u][k]);
  }

  /**
  The body is accepted, and its two pass-throughs hand on to each other: the branches
  of blocks 1 and 3 to block 4 never arrive.
   */
  lemma AcceptedYetNeverArrives()
    ensures Plannable(BreakAndContinue()) && Ring(BreakAndContinue(), Pass(2, 4, 6))
    ensures !EveryBranchArrives(BreakAndContinue())
  {
    var b := BreakAndContinue();
    ItIsPlannable();
    ItsPasses();
    ItsFlow();
    ItsChoice(6, 4, 2);
    ItsChoice(7, 4, 3);
    var two, three := Pass(2, 4, 6), Pass(3, 4, 7);
    assert Onward(b, two) == Some(three) && Onward(b, three) == Some(two);
    assert two in AllPasses(b);
    BranchesArriveExactlyWithoutRings(b);
  }
}
