/** What SPIR-V asks of a loop. */
module LoopRules {
  import opened Graphs
  import opened Options
  import opened Kernel
  import opened Structure
  import opened PlanProperties
  import opened Rings
  import opened Relays
  import opened Lifting
  import opened RingExample
  import LoopHeaders

  // Section 2.11 of the SPIR-V specification: a loop's continue target, the edges back to its
  // header, and that a cycle has one.

  /** The continue target is the loop's first block: a loop header strictly dominates it in the emitted graph. */
  lemma ContinueIsDominated(body: Body, h: nat)
    requires Structured(body) && h < |body.blocks| && IsHeader(body, h)
    ensures LoopEntry(body, h) == Some(LoopBody(body, h)) && LoopBody(body, h) != h
    ensures Dominates(Emitted(body), body.entry, h, LoopBody(body, h))
  {
    assert LoopFits(body, h);
    FlowIsValid(body);
    AcceptedBodiesLeave(body);
    var t := body.blocks[h].terminator;
    assert t.ifTrue in Branches(t) && t.ifFalse in Branches(t);
    DominanceSurvives(body, h, LoopBody(body, h));
  }

  // ---- back edges ----

  /** An emitted edge into block `h` from a node that `h` gets to. */
  ghost predicate ComesBack(body: Body, h: nat, v: nat)
    requires Structured(body)
  {
    Edge(Emitted(body), v, h) && Reaches(Emitted(body), h, v)
  }

  /**
  How a block is entered: by a branch that is offered no pass-through, or from the pass-through of a selection that
  hands on to none.
   */
  datatype Way = Straight(block: nat) | Last(header: nat)

  /** A way into block `h`, in the body's own terms, that comes from where `h` leads along delivered branches. */
  ghost predicate WayBack(body: Body, h: nat, w: Way)
    requires Structured(body)
  {
    match w
    case Straight(u) => Edge(Flow(body), u, h) && (forall c: nat :: !Offers(body, h, u, None, c)) &&
      Reaches(Carried(body), h, u)
    case Last(a) => Final(body, a) && Join(body, a) == h && exists u: nat ::
      Carries(body, u, a) && Reaches(Carried(body), h, u)
  }

  /** The node a way enters from: a loop header's exit enters from the loop's merge. */
  ghost function NodeOf(body: Body, h: nat, w: Way): nat
    requires Structured(body) && WayBack(body, h, w)
  {
    match w
    case Straight(u) => if IsHeader(body, u) && LoopExit(body, u) == h then Merge(body, u).value else u
    case Last(a) => PassOf(body, a).node
  }

  lemma ReachesAlong(body: Body, a: nat, b: nat)
    requires Structured(body) && a < |body.blocks| && b < |body.blocks|
    ensures Reaches(Emitted(body), a, b) <==> Reaches(Carried(body), a, b)
  {
    if Reaches(Carried(body), a, b) {
      var p :| WalkBetween(Carried(body), p, a, b);
      var w := LiftWalk(body, p, a, b);
    }
    if Reaches(Emitted(body), a, b) {
      var w :| WalkBetween(Emitted(body), w, a, b);
      var p, last := ProjectCarried(body, w, a, b);
    }
  }

  /** A pass-through is reached from a block exactly when a block it carries a branch of is. */
  lemma ReachesPass(body: Body, h: nat, a: nat)
    requires Structured(body) && h < |body.blocks| && NeedsPass(body, a)
    ensures Reaches(Emitted(body), h, PassOf(body, a).node) <==>
      exists u: nat :: Carries(body, u, a) && Reaches(Carried(body), h, u)
  {
    var m := PassOf(body, a).node;
    PassHasItsNode(body, a);
    if Reaches(Emitted(body), h, m) {
      var w :| WalkBetween(Emitted(body), w, h, m);
      var p, u := ProjectCarried(body, w, h, m);
      FeedsExactly(body, u, a);
    }
    if exists u: nat :: Carries(body, u, a) && Reaches(Carried(body), h, u) {
      var u: nat :| Carries(body, u, a) && Reaches(Carried(body), h, u);
      FeedsExactly(body, u, a);
      var f :| Handing(body, f, u, m);
      ReachesAlong(body, h, u);
      assert Reaches(Emitted(body), u, m);
      ReachesTransitive(Emitted(body), h, u, m);
    }
  }

  /** A loop merge is reached from a block exactly when its header is. */
  lemma ReachesMerge(body: Body, h: nat, u: nat)
    requires Structured(body) && h < |body.blocks| && u < |body.blocks| && IsHeader(body, u)
    ensures Reaches(Emitted(body), h, Merge(body, u).value) <==> Reaches(Emitted(body), h, u)
  {
    HeaderHasItsMerge(body, u);
    var m := Merge(body, u).value;
    assert LoopFits(body, u);
    assert Emitted(body)[u] == Targets(body, u) && Targets(body, u)[1] == m;
    assert Edge(Emitted(body), u, m);
    if Reaches(Emitted(body), h, u) { ReachesStep(Emitted(body), h, u, m); }
    if Reaches(Emitted(body), h, m) {
      var w :| WalkBetween(Emitted(body), w, h, m);
      LastStep(Emitted(body), w, h, m);
      OnlyItsHeaderEnters(body, w[|w| - 2], m);
    }
  }

  // ---- an emitted edge back is a way back ----

  lemma RealComesBack(body: Body, h: nat, v: nat)
    requires Structured(body) && h < |body.blocks| && v < |body.blocks| && ComesBack(body, h, v)
    ensures WayBack(body, h, Straight(v)) && NodeOf(body, h, Straight(v)) == v
  {
    var k :| 0 <= k < |Targets(body, v)| && Targets(body, v)[k] == h;
    RealEdge(body, v, k);
    DeclaredIsBranch(body, v, k);
    EdgeStarts(body, v, k);
    NodeShape(body, h);
    NotOffered(body, v, h);
    ReachesAlong(body, h, v);
    if IsHeader(body, v) {
      assert LoopFits(body, v);
      HeaderHasItsMerge(body, v);
      assert k == 0;
    }
  }

  /** A branch starts at its target exactly when it is offered no pass-through. */
  lemma NotOffered(body: Body, u: nat, join: nat)
    requires Structured(body) && u < |body.blocks| && join < |body.blocks|
    ensures StartOf(body, u, join) == join <==> forall c: nat :: !Offers(body, join, u, None, c)
  {
    ChosenExactly(body, u, join, u, None);
    var c := Chosen(Flow(body), body.entry, AllPasses(body), u, join, u);
    if c.Some? { PassHasItsNode(body, c.value.header); }
  }

  lemma MergeComesBack(body: Body, h: nat, v: nat)
    requires Structured(body) && h < |body.blocks| && |body.blocks| <= v < FirstPass(body) && ComesBack(body, h, v)
    ensures v < |Nodes(body)| && Nodes(body)[v].LoopMerge?
    ensures var u := Nodes(body)[v].header; WayBack(body, h, Straight(u)) && NodeOf(body, h, Straight(u)) == v
  {
    NodeShape(body, v);
    var u := Nodes(body)[v].header;
    AddedEdge(body, v);
    NodeShape(body, h);
    MergeStarts(body, u);
    NotOffered(body, u, h);
    ReachesMerge(body, h, u);
    ReachesAlong(body, h, u);
  }

  /** A loop's merge goes where its header's exit starts. */
  lemma MergeStarts(body: Body, u: nat)
    requires Structured(body) && u < |body.blocks| && IsHeader(body, u)
    ensures Edge(Flow(body), u, LoopExit(body, u)) && Merge(body, u).Some? && Merge(body, u).value < |Nodes(body)|
    ensures Targets(body, Merge(body, u).value) == [StartOf(body, u, LoopExit(body, u))]
  {
    assert LoopFits(body, u);
    HeaderHasItsMerge(body, u);
    DeclaredIsBranch(body, u, 1);
    EdgeStarts(body, u, 1);
    FlowIsValid(body);
    StartShape(body, u, LoopExit(body, u));
  }

  lemma PassComesBack(body: Body, h: nat, v: nat)
    requires Structured(body) && h < |body.blocks| && FirstPass(body) <= v && ComesBack(body, h, v)
    ensures v < |Nodes(body)| && Nodes(body)[v].PassThrough?
    ensures var a := Nodes(body)[v].header; WayBack(body, h, Last(a)) && NodeOf(body, h, Last(a)) == v
  {
    PassOfItsNode(body, v);
    var a := Nodes(body)[v].header;
    PassIsListed(body, a);
    PassHandsOn(body, PassOf(body, a));
    HandsOrEnds(body, a);
    if Onward(body, PassOf(body, a)).Some? { PassHasItsNode(body, Onward(body, PassOf(body, a)).value.header); }
    ReachesPass(body, h, a);
  }

  // ---- and a way back an emitted edge ----

  lemma StraightIsEdge(body: Body, h: nat, u: nat)
    requires Structured(body) && h < |body.blocks| && WayBack(body, h, Straight(u))
    ensures ComesBack(body, h, NodeOf(body, h, Straight(u)))
  {
    NotOffered(body, u, h);
    ReachesAlong(body, h, u);
    if IsHeader(body, u) && LoopExit(body, u) == h {
      MergeStarts(body, u);
      ReachesMerge(body, h, u);
      assert Emitted(body)[Merge(body, u).value] == Targets(body, Merge(body, u).value);
    } else {
      var k := BranchIsDeclared(body, u, h);
      EdgeStarts(body, u, k);
      RealEdge(body, u, k);
      NotTheExit(body, u, h, k);
      assert Targets(body, u)[k] in Emitted(body)[u];
    }
  }

  lemma NotTheExit(body: Body, u: nat, h: nat, k: nat)
    requires Structured(body) && u < |body.blocks| && k < |Targets(body, u)| && Declared(body, u, k) == h
    requires !(IsHeader(body, u) && LoopExit(body, u) == h) && StartOf(body, u, h) == h
    ensures Targets(body, u)[k] == h
  {
    if IsHeader(body, u) { assert LoopFits(body, u); }
  }

  lemma LastIsEdge(body: Body, h: nat, a: nat)
    requires Structured(body) && h < |body.blocks| && WayBack(body, h, Last(a))
    ensures ComesBack(body, h, PassOf(body, a).node)
  {
    PassIsListed(body, a);
    PassHandsOn(body, PassOf(body, a));
    OnwardExactly(body, a);
    ReachesPass(body, h, a);
    assert Emitted(body)[PassOf(body, a).node] == Targets(body, PassOf(body, a).node);
  }

  lemma WayIsEdge(body: Body, h: nat, w: Way)
    requires Structured(body) && h < |body.blocks| && WayBack(body, h, w)
    ensures ComesBack(body, h, NodeOf(body, h, w))
  {
    if w.Straight? { StraightIsEdge(body, h, w.block); } else { LastIsEdge(body, h, w.header); }
  }

  lemma EdgeIsWay(body: Body, h: nat, v: nat) returns (w: Way)
    requires Structured(body) && h < |body.blocks| && ComesBack(body, h, v)
    ensures WayBack(body, h, w) && NodeOf(body, h, w) == v
  {
    if v < |body.blocks| {
      RealComesBack(body, h, v);
      w := Straight(v);
    } else if v < FirstPass(body) {
      MergeComesBack(body, h, v);
      w := Straight(Nodes(body)[v].header);
    } else {
      PassComesBack(body, h, v);
      w := Last(Nodes(body)[v].header);
    }
  }

  lemma NodeTellsWay(body: Body, h: nat, w: Way, x: Way)
    requires Structured(body) && h < |body.blocks| && WayBack(body, h, w) && WayBack(body, h, x) &&
      NodeOf(body, h, w) == NodeOf(body, h, x)
    ensures w == x
  {
    NodeKind(body, h, w);
    NodeKind(body, h, x);
  }

  lemma NodeKind(body: Body, h: nat, w: Way)
    requires Structured(body) && h < |body.blocks| && WayBack(body, h, w)
    ensures var v := NodeOf(body, h, w);
      v < |Nodes(body)| && w ==
        if Nodes(body)[v].PassThrough? then Last(Nodes(body)[v].header) else Straight(Origin(Nodes(body)[v]))
  {
    if w.Last? {
      PassHasItsNode(body, w.header);
    } else {
      NodeShape(body, w.block);
      if IsHeader(body, w.block) { HeaderHasItsMerge(body, w.block); }
    }
  }

  ghost predicate SomeEdgeBack(body: Body, h: nat)
    requires Structured(body)
  {
    exists v: nat :: ComesBack(body, h, v)
  }

  ghost predicate AtMostOneEdgeBack(body: Body, h: nat)
    requires Structured(body)
  {
    forall v: nat, x: nat :: ComesBack(body, h, v) && ComesBack(body, h, x) ==> v == x
  }

  ghost predicate SomeWayBack(body: Body, h: nat)
    requires Structured(body)
  {
    exists w: Way :: WayBack(body, h, w)
  }

  ghost predicate AtMostOneWayBack(body: Body, h: nat)
    requires Structured(body)
  {
    forall w: Way, y: Way :: WayBack(body, h, w) && WayBack(body, h, y) ==> w == y
  }

  /**
  One back edge: some emitted edge comes back to a block, and no two do, exactly when the body has some way back to it
  and no two, however many of its branches come back: those inside a selection that joins there are carried by one
  pass-through.
   */
  lemma OneBackEdgeExactly(body: Body, h: nat)
    requires Structured(body) && h < |body.blocks|
    ensures SomeEdgeBack(body, h) <==> SomeWayBack(body, h)
    ensures AtMostOneEdgeBack(body, h) <==> AtMostOneWayBack(body, h)
  {
    if SomeEdgeBack(body, h) {
      var v: nat :| ComesBack(body, h, v);
      var w := EdgeIsWay(body, h, v);
    }
    if SomeWayBack(body, h) {
      var w: Way :| WayBack(body, h, w);
      WayIsEdge(body, h, w);
    }
    if AtMostOneWayBack(body, h) {
      forall v: nat, x: nat | ComesBack(body, h, v) && ComesBack(body, h, x) ensures v == x {
        var w := EdgeIsWay(body, h, v);
        var y := EdgeIsWay(body, h, x);
      }
    }
    if AtMostOneEdgeBack(body, h) {
      forall w: Way, y: Way | WayBack(body, h, w) && WayBack(body, h, y) ensures w == y {
        WayIsEdge(body, h, w);
        WayIsEdge(body, h, y);
        NodeTellsWay(body, h, w, y);
      }
    }
  }

  /** Without rings every loop header has an edge back. */
  lemma HeadersHaveAnEdgeBack(body: Body, h: nat)
    requires Structured(body) && NoRings(body) && h < |body.blocks| && IsHeader(body, h)
    ensures SomeEdgeBack(body, h)
  {
    var u := HeaderOnCycle(body, h);
    CarriedIsTheFlow(body);
    SameWalks(Carried(body), Flow(body), h, u);
    BranchComesBack(body, h, u);
  }

  lemma HeaderOnCycle(body: Body, h: nat) returns (u: nat)
    requires Structured(body) && IsHeader(body, h)
    ensures Edge(Flow(body), u, h) && Reaches(Flow(body), h, u)
  {
    FlowIsValid(body);
    LoopHeaders.HeadersBreakCycles(Flow(body), body.entry);
    assert OnCycle(Flow(body), h);
    u :| Edge(Flow(body), u, h) && Reaches(Flow(body), h, u);
  }

  /** A delivered branch to a block that gets to it ends in an emitted edge back. */
  lemma BranchComesBack(body: Body, h: nat, u: nat)
    requires Structured(body) && Edge(Carried(body), u, h) && Reaches(Carried(body), h, u)
    ensures SomeEdgeBack(body, h)
  {
    var f := LiftEdge(body, u, h);
    LastStep(Emitted(body), f, u, h);
    ReachesAlong(body, h, u);
    ReachesTransitive(Emitted(body), h, u, f[|f| - 2]);
    assert ComesBack(body, h, f[|f| - 2]);
  }

  // ---- cycles ----

  /** A closed walk that leaves its node. */
  ghost predicate Cycle(g: Graph, c: seq<nat>) {
    IsWalk(g, c) && 1 < |c| && c[0] == c[|c| - 1]
  }

  ghost predicate HoldsAHeader(body: Body, c: seq<nat>)
    requires Structured(body)
  {
    exists i: nat :: i < |c| && c[i] < |body.blocks| && IsHeader(body, c[i])
  }

  /** A cycle through a real block is, less its added blocks, a cycle of the body. */
  lemma CycleThroughReal(body: Body, c: seq<nat>, k: nat)
    requires Structured(body) && Cycle(Emitted(body), c) && k < |c| && c[k] < |body.blocks|
    ensures HoldsAHeader(body, c)
  {
    var e, r := Emitted(body), c[k];
    CutWalk(e, c, k);
    JoinWalks(e, c[k..], c[..k + 1], r, c[0], r);
    var w := c[k..] + c[..k + 1][1..];
    var p, last := ProjectCarried(body, w, r, r);
    forall i | 0 < i < |p| ensures Edge(Flow(body), p[i - 1], p[i]) {
      assert Edge(Carried(body), p[i - 1], p[i]);
      CarriedEdge(body, p[i - 1], p[i]);
    }
    FlowIsValid(body);
    LoopHeaders.CycleHoldsAHeader(Flow(body), body.entry, p);
    var i :| 0 <= i < |p| && IsHeader(body, p[i]);
    assert p[i] in w;
    var j: nat :| j < |c| && c[j] == p[i];
  }

  /** A cycle of added blocks only is followed for ever, so there is a ring. */
  lemma CycleOfAdded(body: Body, c: seq<nat>)
    requires Structured(body) && Cycle(Emitted(body), c) && forall i: nat :: i < |c| ==> c[i] >= |body.blocks|
    ensures !NoRings(body)
  {
    forall k: nat ensures Follow(Emitted(body), |body.blocks|, c[0], k) >= |body.blocks| {
      var i := FollowsRound(body, c, 0, k);
    }
    if NoRings(body) { NodesArriveWithoutRings(body, c[0]); }
  }

  lemma {:induction false} FollowsRound(body: Body, c: seq<nat>, i: nat, k: nat) returns (j: nat)
    requires Structured(body) && Cycle(Emitted(body), c) && forall x: nat :: x < |c| ==> c[x] >= |body.blocks|
    requires i < |c|
    ensures j < |c| && Follow(Emitted(body), |body.blocks|, c[i], k) == c[j]
    decreases k
  {
    var at := if i == |c| - 1 then 0 else i;
    assert Edge(Emitted(body), c[at + 1 - 1], c[at + 1]);
    AddedEdge(body, c[at]);
    if k == 0 { j := i; } else { j := FollowsRound(body, c, at + 1, k - 1); }
  }

  /** The pass-throughs of a ring are a cycle, and none of them is a loop header. */
  lemma RingIsACycle(body: Body, p: Pass) returns (c: seq<nat>)
    requires Structured(body) && p in AllPasses(body) && Ring(body, p)
    ensures Cycle(Emitted(body), c) && !HoldsAHeader(body, c)
  {
    var q := Onward(body, p).value;
    OnwardIsAround(body, p);
    OnwardIsAround(body, q);
    var r := Onward(body, q).value;
    OnwardEdge(body, p, q);
    OnwardEdge(body, q, r);
    if r == p {
      c := [p.node, q.node, p.node];
    } else {
      OnwardEdge(body, r, p);
      c := [p.node, q.node, r.node, p.node];
    }
  }

  lemma OnwardEdge(body: Body, p: Pass, q: Pass)
    requires Structured(body) && p in AllPasses(body) && q in AllPasses(body) && Onward(body, p) == Some(q)
    ensures Edge(Emitted(body), p.node, q.node) && p.node >= |body.blocks| && q.node >= |body.blocks|
  {
    PassHandsOn(body, p);
    PassHandsOn(body, q);
    assert Emitted(body)[p.node] == Targets(body, p.node);
  }

  /** Every cycle of the emitted graph holds a loop header exactly when there is no ring of pass-throughs. */
  lemma CyclesHoldHeadersExactlyWithoutRings(body: Body)
    requires Structured(body)
    ensures (forall c: seq<nat> :: Cycle(Emitted(body), c) ==> HoldsAHeader(body, c)) <==> NoRings(body)
  {
    if NoRings(body) {
      forall c: seq<nat> | Cycle(Emitted(body), c) ensures HoldsAHeader(body, c) {
        if k: nat :| k < |c| && c[k] < |body.blocks| {
          CycleThroughReal(body, c, k);
        } else {
          CycleOfAdded(body, c);
        }
      }
    } else {
      var p :| p in AllPasses(body) && Ring(body, p);
      var c := RingIsACycle(body, p);
    }
  }

  /**
  An accepted body has a loop header with two edges back: from the block that continues, and from the one after it.
   */
  lemma AcceptedWithTwoBackEdges()
    ensures Plannable(BreakAndContinue()) && IsHeader(BreakAndContinue(), 1)
    ensures ComesBack(BreakAndContinue(), 1, 2) && ComesBack(BreakAndContinue(), 1, 3)
  {
    ItIsPlannable();
    ItIsStructured();
    ItsRealEdges();
    var e := Emitted(BreakAndContinue());
    assert e[1] == [2, 5] && e[2] == [3, 1] && e[3] == [1, 6];
    assert Edge(e, 1, e[1][0]) && Edge(e, 2, e[2][0]) && Edge(e, 2, e[2][1]) && Edge(e, 3, e[3][0]);
    EdgeReaches(e, 1, 2);
    ReachesStep(e, 1, 2, 3);
  }
}
