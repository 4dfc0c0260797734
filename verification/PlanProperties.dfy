/** What every accepted plan keeps: ways out, projection onto the body, order, and merge blocks. */
module PlanProperties {
  import opened Graphs
  import opened Options
  import opened Kernel
  import opened Reachability
  import opened PostDominators
  import opened Structure
  import opened Planner
  import LoopHeaders
  import DepthFirst

  // ---- every accepted body can always leave ----

  /**
  In an accepted body every block can reach a return, nothing branches to the entry,
  and of a loop header's two branches exactly one can come back to it.
   */
  lemma AcceptedBodiesLeave(body: Body)
    requires Structured(body)
    ensures forall v: nat :: v < |body.blocks| ==> CanLeave(Flow(body), v)
    ensures forall v: nat :: !Edge(Flow(body), v, body.entry)
    ensures forall h: nat :: h < |body.blocks| && IsHeader(body, h) ==>
      var t := body.blocks[h].terminator;
      t.CondBr? && (Reaches(Flow(body), t.ifTrue.target, h) <==> !Reaches(Flow(body), t.ifFalse.target, h))
  {
    LoopsFitCanLeave(body);
    FlowIsValid(body);
    forall v: nat | Edge(Flow(body), v, body.entry) ensures false {
      LoopHeaders.EdgeToEntryMarksIt(Flow(body), body.entry, v);
    }
    forall h: nat | h < |body.blocks| && IsHeader(body, h) ensures LoopFits(body, h) {}
  }

  // ---- emitted edges stand for the body's own ----

  /** The declared target of the `k`-th emitted edge of a real block: headers list the body first. */
  ghost function Declared(body: Body, u: nat, k: nat): nat
    requires Structured(body) && u < |body.blocks| && k < |Targets(body, u)|
  {
    match body.blocks[u].terminator
    case Return(_) => 0
    case Br(to) => to.target
    case CondBr(_, ifTrue, ifFalse) =>
      if IsHeader(body, u) then (if k == 0 then LoopBody(body, u) else LoopExit(body, u))
      else if k == 0 then ifTrue.target else ifFalse.target
  }

  lemma DeclaredIsBranch(body: Body, u: nat, k: nat)
    requires Structured(body) && u < |body.blocks| && k < |Targets(body, u)|
    ensures Edge(Flow(body), u, Declared(body, u, k))
  {
    FlowIsValid(body);
    var t := body.blocks[u].terminator;
    if t.CondBr? {
      assert t.ifTrue in Branches(t) && t.ifFalse in Branches(t);
    } else if t.Br? {
      assert t.to in Branches(t);
    }
  }

  /** A real block's emitted edge lands on a node that stands for the branch's target. */
  lemma RealEdge(body: Body, u: nat, k: nat)
    requires Structured(body) && u < |body.blocks| && k < |Targets(body, u)|
    ensures var v := Targets(body, u)[k];
      v < |Nodes(body)| && Destination(Nodes(body)[v]) == Declared(body, u, k)
  {
    FlowIsValid(body);
    DeclaredIsBranch(body, u, k);
    NodeShape(body, u);
    RedirectStays(body, u, Declared(body, u, k));
    var t := body.blocks[u].terminator;
    if t.CondBr? && IsHeader(body, u) { HeaderHasItsMerge(body, u); }
  }

  /** An added block hands on to a node with the same destination. */
  lemma AddedEdge(body: Body, u: nat)
    requires Structured(body) && |body.blocks| <= u < |Nodes(body)|
    ensures |Targets(body, u)| == 1
    ensures var v := Targets(body, u)[0];
      && v < |Nodes(body)|
      && Destination(Nodes(body)[v]) == Destination(Nodes(body)[u])
      && (v < |body.blocks| || FirstPass(body) <= v)
  {
    OriginAndDestination(body, u);
    RedirectStays(body, u, Destination(Nodes(body)[u]));
  }

  lemma EmittedEdge(body: Body, u: nat, v: nat)
    requires Structured(body) && Edge(Emitted(body), u, v)
    ensures v < |Nodes(body)|
    ensures u < |body.blocks| ==> Edge(Flow(body), u, Destination(Nodes(body)[v]))
    ensures u >= |body.blocks| ==> Destination(Nodes(body)[v]) == Destination(Nodes(body)[u])
  {
    var k :| 0 <= k < |Targets(body, u)| && Targets(body, u)[k] == v;
    if u < |body.blocks| {
      RealEdge(body, u, k);
      DeclaredIsBranch(body, u, k);
    } else {
      AddedEdge(body, u);
    }
  }

  /**
  An emitted walk from the entry, with its added blocks left out, is a walk of the body:
  it ends in the last real block, which is the walk's end or branches to what its end stands for.
   */
  lemma {:induction false} ProjectWalk(body: Body, w: seq<nat>, v: nat) returns (p: seq<nat>, last: nat)
    requires Structured(body) && WalkBetween(Emitted(body), w, body.entry, v)
    ensures WalkBetween(Flow(body), p, body.entry, last)
    ensures forall x :: x in p ==> x in w && x < |body.blocks|
    ensures v < |body.blocks| ==> last == v
    ensures v >= |body.blocks| ==> Edge(Flow(body), last, Destination(Nodes(body)[v]))
    decreases |w|
  {
    if |w| == 1 {
      p, last := [v], v;
      NodeShape(body, v);
      return;
    }
    LastStep(Emitted(body), w, body.entry, v);
    var u := w[|w| - 2];
    EmittedEdge(body, u, v);
    NodeShape(body, v);
    NodeShape(body, u);
    p, last := ProjectWalk(body, w[..|w| - 1], u);
    if v < |body.blocks| {
      StepWalk(Flow(body), p, body.entry, last, v);
      p, last := p + [v], v;
    }
  }

  // ---- following emitted edges ----

  /** A stretch of the emitted graph between two real blocks: added blocks only in between. */
  ghost predicate Passage(body: Body, w: seq<nat>)
    requires Structured(body)
  {
    && IsWalk(Emitted(body), w) && 2 <= |w|
    && w[0] < |body.blocks| && w[|w| - 1] < |body.blocks|
    && forall i :: 0 < i < |w| - 1 ==> w[i] >= |body.blocks|
  }

  lemma {:induction false} AddedKeepDestination(body: Body, w: seq<nat>, i: nat)
    requires Structured(body) && IsWalk(Emitted(body), w) && 0 < i < |w|
    requires forall j :: 0 < j < i ==> w[j] >= |body.blocks|
    ensures w[1] < |Nodes(body)| && w[i] < |Nodes(body)|
    ensures Destination(Nodes(body)[w[i]]) == Destination(Nodes(body)[w[1]])
  {
    if i > 1 {
      AddedKeepDestination(body, w, i - 1);
      assert Edge(Emitted(body), w[i - 1], w[i]);
      EmittedEdge(body, w[i - 1], w[i]);
    }
  }

  /**
  Following the `k`-th edge out of a real block, the first real block met is the one the
  branch declared, however many added blocks are in between.
   */
  lemma OnlyTheDeclaredTarget(body: Body, w: seq<nat>, k: nat)
    requires Structured(body) && Passage(body, w)
    requires k < |Targets(body, w[0])| && Targets(body, w[0])[k] == w[1]
    ensures w[|w| - 1] == Declared(body, w[0], k)
  {
    RealEdge(body, w[0], k);
    AddedKeepDestination(body, w, |w| - 1);
    NodeShape(body, w[|w| - 1]);
  }

  // ---- definitions precede uses ----

  /**
  If block `d` dominates block `n` in the body, it is written before `n`, although the
  order is taken over the graph with the added blocks.
   */
  lemma DefinitionsPrecedeUses(body: Body, order: seq<nat>, i: nat, d: nat)
    requires Plannable(body) && DepthFirst.WritingOrder(Emitted(body), body.entry, order)
    requires i < |order| && order[i] < |body.blocks|
    requires Dominates(Flow(body), body.entry, d, order[i]) && d != order[i]
    ensures d in order[..i]
  {
    var w := DepthFirst.WalkThroughOrder(Emitted(body), body.entry, order, i);
    var p, last := ProjectWalk(body, w, order[i]);
    assert d in p;
  }

  // ---- merge blocks ----

  /** A dominator of a reachable block in the body dominates it in the emitted graph. */
  lemma DominanceSurvives(body: Body, d: nat, n: nat)
    requires Structured(body) && n < |body.blocks|
    requires Dominates(Flow(body), body.entry, d, n)
    ensures Dominates(Emitted(body), body.entry, d, n)
  {
    forall w | WalkBetween(Emitted(body), w, body.entry, n) ensures d in w {
      var p, last := ProjectWalk(body, w, n);
      assert d in p;
    }
  }

  /** A loop merge is entered only from its header. */
  lemma OnlyItsHeaderEnters(body: Body, u: nat, m: nat)
    requires Structured(body) && |body.blocks| <= m < FirstPass(body) && m < |Nodes(body)|
    requires Edge(Emitted(body), u, m)
    ensures u == Nodes(body)[m].header
  {
    NodeShape(body, m);
    var k :| 0 <= k < |Targets(body, u)| && Targets(body, u)[k] == m;
    if u >= |body.blocks| {
      AddedEdge(body, u);
    } else {
      DeclaredIsBranch(body, u, k);
      RedirectStays(body, u, Declared(body, u, k));
      assert IsHeader(body, u) && k == 1;
      HeaderHasItsMerge(body, u);
    }
  }

  /** A loop header strictly dominates its loop merge in the emitted graph. */
  lemma HeaderDominatesItsMerge(body: Body, h: nat)
    requires Structured(body) && h < |body.blocks| && IsHeader(body, h)
    ensures Dominates(Emitted(body), body.entry, h, Merge(body, h).value) && Merge(body, h).value != h
  {
    HeaderHasItsMerge(body, h);
    var m := Merge(body, h).value;
    forall w | WalkBetween(Emitted(body), w, body.entry, m) ensures h in w {
      LastStep(Emitted(body), w, body.entry, m);
      OnlyItsHeaderEnters(body, w[|w| - 2], m);
    }
  }

  /** So does a selection whose join needs no pass-through. */
  lemma SelectionDominatesItsJoin(body: Body, h: nat)
    requires Structured(body) && IsSelection(body, h) && !NeedsPass(body, h)
    ensures Dominates(Emitted(body), body.entry, h, Merge(body, h).value) && Merge(body, h).value != h
  {
    DominanceSurvives(body, h, Join(body, h));
  }

  /** Every block inside the selection can only be reached through its header. */
  ghost predicate EnteredThroughHeader(body: Body, h: nat)
    requires Structured(body) && IsSelection(body, h)
  {
    forall b: nat :: Inside(Flow(body), h, Join(body, h), b) ==> Dominates(Flow(body), body.entry, h, b)
  }

  /** And so does a selection with a pass-through, when nothing enters its inside past the header. */
  lemma SelectionDominatesItsPass(body: Body, h: nat)
    requires Structured(body) && NeedsPass(body, h) && EnteredThroughHeader(body, h)
    ensures Dominates(Emitted(body), body.entry, h, Merge(body, h).value) && Merge(body, h).value != h
  {
    PassHasItsNode(body, h);
    var m := Merge(body, h).value;
    forall w | WalkBetween(Emitted(body), w, body.entry, m) ensures h in w {
      FlowIsValid(body);
      TrivialWalk(Flow(body), h);
      assert Inside(Flow(body), h, Join(body, h), h);
      InsideIsEnteredThroughHeader(body, h, w, m);
    }
  }

  /** A walk to a node that sits inside the selection has gone through the selection's header. */
  lemma {:induction false} InsideIsEnteredThroughHeader(body: Body, h: nat, w: seq<nat>, v: nat)
    requires Structured(body) && NeedsPass(body, h) && EnteredThroughHeader(body, h)
    requires WalkBetween(Emitted(body), w, body.entry, v)
    requires Inside(Flow(body), h, Join(body, h), Origin(Nodes(body)[v]))
    requires FirstPass(body) <= v ==> Destination(Nodes(body)[v]) == Join(body, h)
    ensures h in w
    decreases |w|
  {
    NodeShape(body, v);
    if v < |body.blocks| {
      DominanceSurvives(body, h, v);
      return;
    }
    LastStep(Emitted(body), w, body.entry, v);
    var u := w[|w| - 2];
    NodeShape(body, u);
    if v < FirstPass(body) {
      OnlyItsHeaderEnters(body, u, v);
      InsideIsEnteredThroughHeader(body, h, w[..|w| - 1], u);
    } else {
      PassEnteredFromInside(body, u, v);
      AvoidingTransitive(Flow(body), h, Nodes(body)[v].header, Origin(Nodes(body)[u]), Join(body, h));
      InsideIsEnteredThroughHeader(body, h, w[..|w| - 1], u);
    }
  }

  /** A pass-through is entered only from inside its selection. */
  lemma PassEnteredFromInside(body: Body, u: nat, v: nat)
    requires Structured(body) && FirstPass(body) <= v < |Nodes(body)| && Edge(Emitted(body), u, v)
    ensures u < |Nodes(body)| && Nodes(body)[v].PassThrough?
    ensures Inside(Flow(body), Nodes(body)[v].header, Nodes(body)[v].join, Origin(Nodes(body)[u]))
    ensures FirstPass(body) <= u ==> Destination(Nodes(body)[u]) == Destination(Nodes(body)[v])
  {
    NodeShape(body, v);
    var k :| 0 <= k < |Targets(body, u)| && Targets(body, u)[k] == v;
    if u >= |body.blocks| {
      AddedEdge(body, u);
      OriginAndDestination(body, u);
      RedirectStays(body, u, Destination(Nodes(body)[u]));
    } else {
      NodeShape(body, u);
      DeclaredIsBranch(body, u, k);
      RedirectStays(body, u, Declared(body, u, k));
      if IsHeader(body, u) { HeaderHasItsMerge(body, u); }
    }
  }

  /** Two selections that dominate their joins do not share one. */
  lemma JoinsAreDistinct(body: Body, a: nat, b: nat)
    requires Structured(body) && a != b
    requires IsSelection(body, a) && IsSelection(body, b) && !NeedsPass(body, a) && !NeedsPass(body, b)
    requires Dominates(Flow(body), body.entry, a, b)
    ensures Join(body, a) != Join(body, b)
  {
    AcceptedBodiesLeave(body);
    var g, entry, j := Flow(body), body.entry, Join(body, a);
    if j == Join(body, b) {
      // Every run from `a` to a return meets the join, and `b` on the way to it.
      forall w | Departure(g, w, a) ensures b in w {
        InnerOnTheWay(body, a, b, w);
      }
      assert PostDominates(g, b, a);
      PostDominatesAntisymmetric(g, b, j);
    }
  }

  lemma InnerOnTheWay(body: Body, a: nat, b: nat, w: seq<nat>)
    requires Structured(body) && a != b && a < |body.blocks|
    requires IsSelection(body, a) && IsSelection(body, b) && !NeedsPass(body, b)
    requires Dominates(Flow(body), body.entry, a, b) && Join(body, a) == Join(body, b)
    requires Departure(Flow(body), w, a)
    ensures b in w
  {
    var g, entry, j := Flow(body), body.entry, Join(body, b);
    var k :| 0 <= k < |w| && w[k] == j;
    CutWalk(g, w, k);
    assert Reaches(g, entry, a);
    var v := WalkAvoiding(g, entry, a, b);
    JoinWalks(g, v, w[..k + 1], entry, a, j);
    assert b in v + w[..k + 1][1..];
  }

  /** A strict dominator is reached without its dominated node. */
  lemma WalkAvoiding(g: Graph, entry: nat, a: nat, b: nat) returns (v: seq<nat>)
    requires Dominates(g, entry, a, b) && a != b && Reaches(g, entry, a)
    ensures WalkBetween(g, v, entry, a) && b !in v
  {
    var w :| WalkBetween(g, w, entry, a);
    if Dominates(g, entry, b, a) {
      DominatesAntisymmetric(g, entry, a, b);
    }
    v :| WalkBetween(g, v, entry, a) && b !in v;
  }

  /** No two two-way blocks share a merge block. */
  lemma MergeBlocksAreDistinct(body: Body, a: nat, b: nat)
    requires Structured(body) && a < |body.blocks| && b < |body.blocks| && a != b
    requires Merge(body, a).Some? && Merge(body, b).Some?
    ensures Merge(body, a) != Merge(body, b)
  {
    if IsHeader(body, a) { HeaderHasItsMerge(body, a); } else if NeedsPass(body, a) { PassHasItsNode(body, a); }
    if IsHeader(body, b) { HeaderHasItsMerge(body, b); } else if NeedsPass(body, b) { PassHasItsNode(body, b); }
    if Merge(body, a) == Merge(body, b) && !IsHeader(body, a) && !IsHeader(body, b) && !NeedsPass(body, a) &&
      !NeedsPass(body, b)
    {
      DominatorsAreAChain(Flow(body), body.entry, a, b, Join(body, a));
      if Dominates(Flow(body), body.entry, a, b) {
        JoinsAreDistinct(body, a, b);
      } else {
        JoinsAreDistinct(body, b, a);
      }
    }
  }
}
