/**
Well-formed SSA bodies, and the facts of a plan that emission rests on: labels and targets
without repeats, arities that match, nothing into the entry, and every dominator of a
block written before the block itself. Definitions dominate uses, and parameters count as
defined by their block.
 */
module Ssa {
  import opened Graphs
  import opened Kernel
  import opened Structure
  import opened Planner
  import opened PlanProperties
  import opened Emission
  import opened Distinctness
  import opened Options
  import DepthFirst

  ghost predicate Defines(body: Body, b: nat, v: nat) {
    b < |body.blocks| && (v in body.blocks[b].params || v in body.blocks[b].instrs)
  }

  /** Defined in another block that every way to `b` goes through. */
  ghost predicate FromAbove(body: Body, b: nat, v: nat) {
    exists d: nat :: d != b && Defines(body, d, v) && Dominates(Flow(body), body.entry, d, b)
  }

  /** What dominates a block's successor, other than the successor itself, dominates the block. */
  lemma DominatesBefore(g: Graph, entry: nat, d: nat, b: nat, c: nat)
    requires Dominates(g, entry, d, c) && d != c && Edge(g, b, c)
    ensures Dominates(g, entry, d, b)
  {
    forall w | WalkBetween(g, w, entry, b) ensures d in w {
      StepWalk(g, w, entry, b, c);
      assert d in w + [c];
    }
  }

  lemma AboveTheNext(body: Body, b: nat, c: nat, v: nat)
    requires Edge(Flow(body), b, c) && FromAbove(body, c, v)
    ensures Defines(body, b, v) || FromAbove(body, b, v)
  {
    var d: nat :| d != c && Defines(body, d, v) && Dominates(Flow(body), body.entry, d, c);
    if d != b { DominatesBefore(Flow(body), body.entry, d, b, c); }
  }

  /** Defined by the time block `b` has run its first `j` instructions. */
  ghost predicate Available(body: Body, b: nat, j: nat, v: nat)
    requires b < |body.blocks| && j <= |body.blocks[b].instrs|
  {
    v in body.blocks[b].params || v in body.blocks[b].instrs[..j] || FromAbove(body, b, v)
  }

  /** A value some id holds: a parameter, or the result of an instruction that leaves one. */
  ghost predicate Yielding(body: Body, v: nat) {
    v in body.lowering.forms && body.lowering.forms[v].Computed? ==>
      var form := body.lowering.forms[v]; form.result.Some? && form.result.value < form.own
  }

  ghost predicate AllAvailable(body: Body, b: nat, j: nat, values: seq<nat>)
    requires b < |body.blocks| && j <= |body.blocks[b].instrs|
  {
    forall i :: 0 <= i < |values| ==> Available(body, b, j, values[i]) && Yielding(body, values[i])
  }

  /** Every instruction has its lowering and its operands, and a parameter has none. */
  ghost predicate Lowered(body: Body) {
    && (forall b: nat, v :: b < |body.blocks| && v in body.blocks[b].instrs ==>
        v in body.lowering.forms && v in body.operands && (body.lowering.forms[v].Same? ==> body.operands[v] != []))
    && (forall b: nat, v :: b < |body.blocks| && v in body.blocks[b].params ==> v !in body.lowering.forms)
  }

  /** The values a terminator hands over or tests. */
  function Uses(t: Terminator): seq<nat> {
    match t
    case Return(values) => values
    case Br(to) => to.args
    case CondBr(cond, ifTrue, ifFalse) => [cond] + ifTrue.args + ifFalse.args
  }

  /** Every value is defined once, and every use is below its definition. */
  ghost predicate ValidSsa(body: Body) {
    && ValidBody(body) && Lowered(body)
    && (forall b: nat :: b < |body.blocks| ==> Distinct(body.blocks[b].params + body.blocks[b].instrs))
    && (forall a: nat, b: nat, v: nat :: Defines(body, a, v) && Defines(body, b, v) ==> a == b)
    && (forall b: nat, j: nat :: b < |body.blocks| && j < |body.blocks[b].instrs| ==>
        body.blocks[b].instrs[j] in body.operands &&
        AllAvailable(body, b, j, body.operands[body.blocks[b].instrs[j]]))
    && (forall b: nat :: b < |body.blocks| ==>
         AllAvailable(body, b, |body.blocks[b].instrs|, Uses(body.blocks[b].terminator)))
  }

  /** What emission asks of the terminators: one returned value, and one list for one target. */
  ghost predicate TerminatorFits(t: Terminator) {
    && (t.Return? ==> |t.values| == 1)
    && (t.CondBr? && t.ifTrue.target == t.ifFalse.target ==> t.ifTrue.args == t.ifFalse.args)
  }

  ghost predicate TerminatorsFit(body: Body) {
    forall b: nat :: b < |body.blocks| ==> TerminatorFits(body.blocks[b].terminator)
  }

  /** What a refusal to emit a block rests on: a return of other than one value, or two lists for one target. */
  ghost predicate Misfit(body: Body, u: nat, e: EmitRefusal) {
    u < |body.blocks| &&
      var t := body.blocks[u].terminator;
      match e
      case ResultArity(left) => t.Return? && left == |t.values| != 1
      case OneTargetTwoLists(b) =>
        b == u && t.CondBr? && t.ifTrue.target == t.ifFalse.target && t.ifTrue.args != t.ifFalse.args
      case _ => false
  }

  ghost predicate IsMisfit(body: Body, e: EmitRefusal) {
    exists u: nat :: Misfit(body, u, e)
  }

  predicate TwoTargets(t: Terminator) {
    t.CondBr? && t.ifTrue.target != t.ifFalse.target
  }

  /** How the plan's labels, targets and arities fit together. */
  ghost predicate PlanLinks(body: Body, p: Plan) {
    && PlanIndexes(body, p)
    && p.entry == body.entry < |body.blocks|
    && (forall i: nat, j: nat :: i < |p.nodes| && j < |p.nodes| && p.labels[i] == p.labels[j] ==> i == j)
    && (forall u: nat :: u < |p.nodes| && |p.targets[u]| == 2 ==> p.targets[u][0] != p.targets[u][1])
    && (forall u: nat :: u < |body.blocks| && p.loopBodies[u].Some? ==> TwoTargets(body.blocks[u].terminator))
    && (forall u: nat, k: nat :: u < |body.blocks| && k < |p.targets[u]| ==>
        |BranchOf(body, p, u, k).args| == p.arities[p.targets[u][k]])
    && (forall u: nat :: |body.blocks| <= u < |p.nodes| ==> p.arities[u] == p.arities[p.targets[u][0]])
    && (forall m: nat :: m < |body.blocks| ==> p.arities[m] == |body.blocks[m].params|)
    && PlanStands(body, p)
    && (forall u: nat, k: nat :: u < |p.nodes| && k < |p.targets[u]| ==> p.targets[u][k] != p.entry)
  }

  /** What each node of the plan stands for, and that every edge keeps it. */
  ghost predicate PlanStands(body: Body, p: Plan)
    requires PlanIndexes(body, p)
  {
    && (forall i: nat :: i < |p.nodes| ==> Destination(p.nodes[i]) < |body.blocks|)
    && (forall i: nat :: i < |body.blocks| ==> p.nodes[i] == Real(i))
    && (forall u: nat, k: nat :: u < |body.blocks| && k < |p.targets[u]| ==>
        Destination(p.nodes[p.targets[u][k]]) == BranchOf(body, p, u, k).target &&
          Edge(Flow(body), u, BranchOf(body, p, u, k).target))
    && (forall u: nat :: |body.blocks| <= u < |p.nodes| ==>
         Destination(p.nodes[p.targets[u][0]]) == Destination(p.nodes[u]))
  }

  lemma PlanStandsFor(body: Body, p: Plan, entryLabel: nat, firstLabel: nat)
    requires PlanOf(body, entryLabel, firstLabel, p) && PlanIndexes(body, p)
    ensures PlanStands(body, p)
  {
    FlowIsValid(body);
    forall i: nat | i < |p.nodes|
      ensures Destination(p.nodes[i]) < |body.blocks| && (i < |body.blocks| ==> p.nodes[i] == Real(i))
    {
      NodeShape(body, i);
      OriginAndDestination(body, i);
    }
    forall u: nat, k: nat | u < |body.blocks| && k < |p.targets[u]|
      ensures Destination(p.nodes[p.targets[u][k]]) == BranchOf(body, p, u, k).target &&
        Edge(Flow(body), u, BranchOf(body, p, u, k).target)
    {
      RealEdge(body, u, k);
      BranchIsDeclared(body, p, u, k);
    }
    forall u: nat | |body.blocks| <= u < |p.nodes|
      ensures Destination(p.nodes[p.targets[u][0]]) == Destination(p.nodes[u])
    {
      AddedEdge(body, u);
    }
  }

  /** The order blocks are written in: after a predecessor, and after every dominator. */
  ghost predicate PlanOrder(body: Body, p: Plan) {
    && DepthFirst.WritingOrder(p.targets, p.entry, p.order)
    && (forall i: nat, d: nat ::
          (i < |p.order| && p.order[i] < |body.blocks| && d != p.order[i] &&
            Dominates(Flow(body), body.entry, d, p.order[i]))
          ==> d in p.order[..i])
  }

  lemma LabelsAreDistinct(entry: nat, entryLabel: nat, firstLabel: nat, i: nat, j: nat)
    requires entryLabel < firstLabel
    requires Label(entry, entryLabel, firstLabel, i) == Label(entry, entryLabel, firstLabel, j)
    ensures i == j
  {
  }

  /** The branch a target stands for is the declared one. */
  lemma BranchIsDeclared(body: Body, p: Plan, u: nat, k: nat)
    requires Structured(body) && PlanIndexes(body, p) && u < |body.blocks|
    requires forall h: nat :: h < |body.blocks| ==> p.loopBodies[h] == LoopEntry(body, h)
    requires p.targets == Emitted(body) && k < |p.targets[u]|
    ensures BranchOf(body, p, u, k).target == Declared(body, u, k)
    ensures BranchOf(body, p, u, k) in Branches(body.blocks[u].terminator)
  {
    if IsHeader(body, u) { assert LoopFits(body, u); }
  }

  lemma TargetCounts(body: Body, p: Plan, u: nat)
    requires Structured(body) && u < |Nodes(body)| && |p.loopBodies| == |body.blocks|
    requires forall h: nat :: h < |body.blocks| ==> p.loopBodies[h] == LoopEntry(body, h)
    ensures |Targets(body, u)| == TargetCount(body, p, u)
    ensures u < |body.blocks| && TargetCount(body, p, u) == 2 ==>
      Merge(body, u).Some? && Merge(body, u).value < |Nodes(body)|
  {
    NodeShape(body, u);
    if u < |body.blocks| {
      if IsHeader(body, u) {
        HeaderHasItsMerge(body, u);
        assert LoopFits(body, u);
      } else if IsSelection(body, u) && NeedsPass(body, u) {
        PassHasItsNode(body, u);
      }
    }
  }

  /** The loop header's own branch never goes to the loop merge, nor two arms to one node. */
  lemma TargetsDiffer(body: Body, u: nat)
    requires Structured(body) && u < |Nodes(body)| && |Targets(body, u)| == 2
    ensures Targets(body, u)[0] != Targets(body, u)[1]
  {
    RealEdge(body, u, 0);
    RealEdge(body, u, 1);
    if IsHeader(body, u) {
      HeaderHasItsMerge(body, u);
      OriginAndDestination(body, u);
      DeclaredIsBranch(body, u, 0);
      RedirectStays(body, u, LoopBody(body, u));
    }
  }

  lemma NothingTargetsTheEntry(body: Body, u: nat, k: nat)
    requires Plannable(body) && u < |Nodes(body)| && k < |Targets(body, u)|
    ensures Targets(body, u)[k] != body.entry
  {
    AcceptedBodiesLeave(body);
    var v := Targets(body, u)[k];
    TargetInRange(body, u, k);
    assert Edge(Emitted(body), u, v);
    EmittedEdge(body, u, v);
    NodeShape(body, v);
    if u >= |body.blocks| {
      assert Reaches(Emitted(body), body.entry, u);
      var w :| WalkBetween(Emitted(body), w, body.entry, u);
      var p, last := ProjectWalk(body, w, u);
      assert !Edge(Flow(body), last, body.entry);
    } else {
      assert !Edge(Flow(body), u, body.entry);
    }
  }

  lemma ArityFollows(body: Body, p: Plan, entryLabel: nat, firstLabel: nat, u: nat, k: nat)
    requires PlanOf(body, entryLabel, firstLabel, p) && PlanIndexes(body, p) && u < |p.nodes| && k < |p.targets[u]|
    ensures u < |body.blocks| ==> |BranchOf(body, p, u, k).args| == p.arities[p.targets[u][k]]
    ensures u >= |body.blocks| ==> p.arities[u] == p.arities[p.targets[u][k]]
    ensures u < |body.blocks| ==> p.arities[u] == |body.blocks[u].params|
  {
    assert ArityFits(body, p, u) && ArityFits(body, p, p.targets[u][k]);
    if u < |body.blocks| {
      NodeShape(body, u);
      RealArity(body, p, u, k);
    } else {
      AddedEdge(body, u);
    }
  }

  lemma RealArity(body: Body, p: Plan, u: nat, k: nat)
    requires Structured(body) && PlanIndexes(body, p) && u < |body.blocks|
    requires forall h: nat :: h < |body.blocks| ==> p.loopBodies[h] == LoopEntry(body, h)
    requires p.targets == Emitted(body) && k < |p.targets[u]|
    ensures var v := p.targets[u][k];
      v < |Nodes(body)| && var d := Destination(Nodes(body)[v]);
      d < |body.blocks| && |BranchOf(body, p, u, k).args| == |body.blocks[d].params|
  {
    RealEdge(body, u, k);
    BranchIsDeclared(body, p, u, k);
    assert BranchFits(body, BranchOf(body, p, u, k));
  }

  lemma PlanIndexesHold(body: Body, p: Plan, entryLabel: nat, firstLabel: nat)
    requires PlanOf(body, entryLabel, firstLabel, p)
    ensures PlanIndexes(body, p)
  {
    EmittedIsValid(body);
    forall i: nat | i < |p.nodes|
      ensures |p.targets[i]| == TargetCount(body, p, i) && |Received(body, i)| <= p.arities[i]
    {
      TargetCounts(body, p, i);
      NodeShape(body, i);
      assert ArityFits(body, p, i);
    }
    forall i: nat | i < |body.blocks| && p.loopBodies[i].Some?
      ensures p.loopBodies[i].value < |p.nodes| && body.blocks[i].terminator.CondBr?
    {
      assert LoopFits(body, i);
      var t := body.blocks[i].terminator;
      assert t.ifTrue in Branches(t) && t.ifFalse in Branches(t);
      assert BranchFits(body, t.ifTrue) && BranchFits(body, t.ifFalse);
    }
    forall i: nat | i < |body.blocks| && TargetCount(body, p, i) == 2
      ensures p.merges[i].Some? && p.merges[i].value < |p.nodes|
    {
      TargetCounts(body, p, i);
    }
  }

  lemma PlanFactsHold(body: Body, p: Plan, entryLabel: nat, firstLabel: nat)
    requires PlanOf(body, entryLabel, firstLabel, p) && entryLabel < firstLabel
    ensures PlanLinks(body, p) && PlanOrder(body, p)
  {
    EmittedIsValid(body);
    PlanIndexesHold(body, p, entryLabel, firstLabel);
    PlanStandsFor(body, p, entryLabel, firstLabel);
    forall i: nat, j: nat | i < |p.nodes| && j < |p.nodes| && p.labels[i] == p.labels[j] ensures i == j {
      LabelsAreDistinct(body.entry, entryLabel, firstLabel, i, j);
    }
    forall u: nat | u < |p.nodes| && |p.targets[u]| == 2 ensures p.targets[u][0] != p.targets[u][1] {
      TargetsDiffer(body, u);
    }
    forall u: nat | u < |body.blocks| && p.loopBodies[u].Some? ensures TwoTargets(body.blocks[u].terminator) {
      assert LoopFits(body, u);
    }
    forall u: nat, k: nat | u < |p.nodes| && k < |p.targets[u]|
      ensures p.targets[u][k] != p.entry
      ensures u < |body.blocks| ==> |BranchOf(body, p, u, k).args| == p.arities[p.targets[u][k]]
      ensures u >= |body.blocks| ==> p.arities[u] == p.arities[p.targets[u][k]]
    {
      NothingTargetsTheEntry(body, u, k);
      ArityFollows(body, p, entryLabel, firstLabel, u, k);
    }
    forall m: nat | m < |body.blocks| ensures p.arities[m] == |body.blocks[m].params| {
      NodeShape(body, m);
      assert ArityFits(body, p, m);
    }
    forall i: nat, d: nat | i < |p.order| && p.order[i] < |body.blocks| && d != p.order[i] &&
        Dominates(Flow(body), body.entry, d, p.order[i])
      ensures d in p.order[..i]
    {
      DefinitionsPrecedeUses(body, p.order, i, d);
    }
  }
}
