/**
Emission over the whole writing order. Each block is written when everything it reads has
an id, because its dominators were written before it; at the end every block is closed,
every edge is filed once and every block's parameters are placed.
 */
module EmissionRun {
  import opened Graphs
  import opened Options
  import opened Kernel
  import opened Literals
  import opened Structure
  import opened Planner
  import opened Emission
  import opened Ssa
  import opened Distinctness
  import opened EmissionInvariant
  import opened EmissionProof
  import DepthFirst

  /** Emit the nodes of a list, in order. */
  function EmitOrder(body: Body, p: Plan, w: Work, order: seq<nat>): (r: Result<Work, EmitRefusal>)
    requires PlanIndexes(body, p) && |w.blocks| == |p.nodes|
    requires forall i :: 0 <= i < |order| ==> order[i] < |p.nodes|
    ensures r.Success? ==> |r.value.blocks| == |w.blocks|
  {
    if order == [] then Success(w)
    else
      match EmitOrder(body, p, w, order[..|order| - 1])
      case Failure(e) => Failure(e)
      case Success(before) => EmitNode(body, p, before, order[|order| - 1])
  }

  /** The instructions a node holds: none in an added block. */
  ghost function NodeInstrs(body: Body, u: nat): seq<nat> {
    if u < |body.blocks| then body.blocks[u].instrs else []
  }

  ghost predicate NodesOf(p: Plan, done: seq<nat>) {
    forall i :: 0 <= i < |done| ==> done[i] < |p.targets|
  }

  /** The edges filed, the nodes fixed and the instruction values placed by the nodes of `done`. */
  ghost function RecordedBy(p: Plan, done: seq<nat>): set<(nat, nat)>
    requires NodesOf(p, done)
  {
    if done == [] then {} else RecordedBy(p, done[..|done| - 1]) + NodeEdges(p, done[|done| - 1])
  }

  ghost function FixedBy(p: Plan, done: seq<nat>): set<nat>
    requires NodesOf(p, done)
  {
    if done == [] then {} else FixedBy(p, done[..|done| - 1]) + NodeTargets(p, done[|done| - 1])
  }

  ghost function ComputedBy(body: Body, done: seq<nat>): set<nat> {
    if done == [] then {} else ComputedBy(body, done[..|done| - 1]) + Members(NodeInstrs(body, done[|done| - 1]))
  }

  lemma {:induction false} RecordedHas(p: Plan, done: seq<nat>, u: nat, k: nat)
    requires NodesOf(p, done) && u in done && k < |p.targets[u]| <= 2
    ensures (u, k) in RecordedBy(p, done)
  {
    if done[|done| - 1] != u {
      assert done == done[..|done| - 1] + [done[|done| - 1]];
      RecordedHas(p, done[..|done| - 1], u, k);
    }
  }

  lemma {:induction false} RecordedFrom(p: Plan, done: seq<nat>, u: nat, k: nat)
    requires NodesOf(p, done) && (u, k) in RecordedBy(p, done)
    ensures u in done
  {
    if (u, k) !in NodeEdges(p, done[|done| - 1]) {
      RecordedFrom(p, done[..|done| - 1], u, k);
      assert done == done[..|done| - 1] + [done[|done| - 1]];
    }
  }

  lemma {:induction false} FixedHas(p: Plan, done: seq<nat>, u: nat, k: nat)
    requires NodesOf(p, done) && u in done && k < |p.targets[u]| <= 2
    ensures p.targets[u][k] in FixedBy(p, done)
  {
    if done[|done| - 1] != u {
      assert done == done[..|done| - 1] + [done[|done| - 1]];
      FixedHas(p, done[..|done| - 1], u, k);
    }
  }

  lemma {:induction false} ComputedHas(body: Body, done: seq<nat>, u: nat, v: nat)
    requires u in done && u < |body.blocks| && v in body.blocks[u].instrs
    ensures v in ComputedBy(body, done)
  {
    if done[|done| - 1] != u {
      assert done == done[..|done| - 1] + [done[|done| - 1]];
      ComputedHas(body, done[..|done| - 1], u, v);
    }
  }

  lemma {:induction false} ComputedFrom(body: Body, done: seq<nat>, v: nat) returns (u: nat)
    requires v in ComputedBy(body, done)
    ensures u in done && u < |body.blocks| && v in body.blocks[u].instrs
  {
    u := done[|done| - 1];
    if v !in Members(NodeInstrs(body, u)) {
      assert done == done[..|done| - 1] + [u];
      u := ComputedFrom(body, done[..|done| - 1], v);
    }
  }

  ghost predicate NodeFits(body: Body, u: nat) {
    u < |body.blocks| ==> TerminatorFits(body.blocks[u].terminator)
  }

  ghost predicate AllFit(body: Body, done: seq<nat>) {
    forall u :: u in done ==> NodeFits(body, u)
  }

  /** The state once the nodes of `done` have been emitted. */
  ghost predicate RunInv(body: Body, p: Plan, w: Work, done: seq<nat>)
    requires PlanIndexes(body, p) && NodesOf(p, done)
  {
    Inv(body, p, w, FixedBy(p, done), RecordedBy(p, done), ComputedBy(body, done)) && Written(body, p, w, done)
  }

  /** The nodes of `done` are closed, and no other has any code. */
  ghost predicate Written(body: Body, p: Plan, w: Work, done: seq<nat>)
    requires PlanIndexes(body, p)
  {
    && (forall u :: u in done ==> ClosedAs(body, p, w, u))
    && (forall u: nat :: u < |w.blocks| && u !in done ==> w.blocks[u].code == [])
  }

  /** A node with a predecessor among the written ones has been targeted. */
  lemma NodeIsFixed(p: Plan, done: seq<nat>, u: nat)
    requires NodesOf(p, done) && DepthFirst.HasParent(p.targets, done, u)
    requires AtMostTwo(p)
    ensures u in FixedBy(p, done)
  {
    var q :| q in done && Edge(p.targets, q, u);
    var k :| 0 <= k < |p.targets[q]| && p.targets[q][k] == u;
    FixedHas(p, done, q, k);
  }

  ghost predicate AtMostTwo(p: Plan) {
    forall q: nat :: q < |p.targets| ==> |p.targets[q]| <= 2
  }

  lemma AtMostTwoTargets(body: Body, p: Plan)
    requires PlanIndexes(body, p)
    ensures AtMostTwo(p)
  {
    forall q: nat | q < |p.targets| ensures |p.targets[q]| <= 2 {
      assert |p.targets[q]| == TargetCount(body, p, q);
    }
  }

  lemma {:induction false} FixedByGrows(p: Plan, done: seq<nat>, j: nat)
    requires j <= |done| && NodesOf(p, done)
    ensures FixedBy(p, done[..j]) <= FixedBy(p, done)
    decreases |done|
  {
    if j < |done| {
      FixedByGrows(p, done[..|done| - 1], j);
      assert done[..|done| - 1][..j] == done[..j];
    } else {
      assert done[..j] == done;
    }
  }

  lemma OrderFacts(body: Body, p: Plan, i: nat)
    requires PlanLinks(body, p) && DepthFirst.WritingOrder(p.targets, p.entry, p.order) && i < |p.order|
    ensures NodesOf(p, p.order)
    ensures p.order[i] !in p.order[..i]
    ensures p.order[i] == p.entry <==> i == 0
  {
    DistinctPlaces(p.order);
    forall j | 0 <= j < |p.order| ensures p.order[j] < |p.targets| {
      assert p.order[j] in p.order;
    }
  }

  /** Every written node, and the next, is the entry or has been targeted. */
  ghost predicate Entered(body: Body, p: Plan, done: seq<nat>, u: nat)
    requires NodesOf(p, done)
  {
    u == body.entry || u in FixedBy(p, done)
  }

  lemma ParentIsWritten(p: Plan, j: nat)
    requires DepthFirst.WritingOrder(p.targets, p.entry, p.order) && 0 < j < |p.order|
    ensures DepthFirst.HasParent(p.targets, p.order[..j], p.order[j])
  {
  }

  lemma EnteredLater(body: Body, p: Plan, order: seq<nat>, i: nat, j: nat)
    requires NodesOf(p, order) && j < |order| && j <= i <= |order| && Entered(body, p, order[..j], order[j])
    ensures Entered(body, p, order[..i], order[j])
  {
    assert order[..i][..j] == order[..j];
    FixedByGrows(p, order[..i], j);
  }

  lemma NextIsEntered(body: Body, p: Plan, j: nat)
    requires PlanIndexes(body, p) && p.entry == body.entry && DepthFirst.WritingOrder(p.targets, p.entry, p.order)
    requires j < |p.order| && NodesOf(p, p.order)
    ensures Entered(body, p, p.order[..j], p.order[j])
  {
    if j > 0 {
      AtMostTwoTargets(body, p);
      ParentIsWritten(p, j);
      NodeIsFixed(p, p.order[..j], p.order[j]);
    }
  }

  lemma WrittenIsEntered(body: Body, p: Plan, i: nat, j: nat)
    requires PlanIndexes(body, p) && p.entry == body.entry && DepthFirst.WritingOrder(p.targets, p.entry, p.order)
    requires j < |p.order| && j <= i <= |p.order| && NodesOf(p, p.order)
    ensures Entered(body, p, p.order[..i], p.order[j])
  {
    NextIsEntered(body, p, j);
    EnteredLater(body, p, p.order, i, j);
  }

  /** The parameters of an entered block, and the instructions of a written one, have slots. */
  lemma ValuesArePlaced(body: Body, p: Plan, w: Work, done: seq<nat>, d: nat, v: nat)
    requires NodesOf(p, done) && SlotsKnown(body, w, FixedBy(p, done), ComputedBy(body, done))
    requires d < |body.blocks| && Entered(body, p, done, d)
    requires v in body.blocks[d].params || (d in done && v in body.blocks[d].instrs)
    requires Yielding(body, v)
    ensures v in w.slots
  {
    if v in body.blocks[d].params {
      assert Known(body, FixedBy(p, done), ComputedBy(body, done), v);
    } else {
      ComputedHas(body, done, d, v);
    }
  }

  /** Every dominator of `u` is written. */
  ghost predicate AboveWritten(body: Body, p: Plan, done: seq<nat>, u: nat)
    requires NodesOf(p, done)
  {
    forall d: nat :: d != u && Dominates(Flow(body), body.entry, d, u) ==> d in done && Entered(body, p, done, d)
  }

  lemma OneAboveIsWritten(body: Body, p: Plan, i: nat, d: nat)
    requires PlanIndexes(body, p) && p.entry == body.entry && PlanOrder(body, p) && i < |p.order| &&
      p.order[i] < |body.blocks| && NodesOf(p, p.order)
    requires d != p.order[i] && Dominates(Flow(body), body.entry, d, p.order[i])
    ensures d in p.order[..i] && Entered(body, p, p.order[..i], d)
  {
    var j: nat :| j < |p.order[..i]| && p.order[..i][j] == d;
    WrittenIsEntered(body, p, i, j);
  }

  lemma AboveAreWritten(body: Body, p: Plan, i: nat, done: seq<nat>, u: nat)
    requires PlanIndexes(body, p) && p.entry == body.entry && PlanOrder(body, p) && i < |p.order| && NodesOf(p, p.order)
    requires done == p.order[..i] && u == p.order[i] && u < |body.blocks|
    ensures AboveWritten(body, p, done, u)
  {
    forall d: nat {:trigger Entered(body, p, done, d)} | d != u && Dominates(Flow(body), body.entry, d, u)
      ensures d in done && Entered(body, p, done, d)
    {
      OneAboveIsWritten(body, p, i, d);
    }
  }

  /** With every block above written, everything a block may read has a slot. */
  lemma EverythingIsReady(body: Body, p: Plan, w: Work, done: seq<nat>, u: nat)
    requires NodesOf(p, done) && u < |body.blocks| && Entered(body, p, done, u) && AboveWritten(body, p, done, u)
    requires SlotsKnown(body, w, FixedBy(p, done), ComputedBy(body, done))
    ensures ReadyFor(body, w, u)
  {
    forall v | v in body.blocks[u].params && Yielding(body, v) ensures v in w.slots {
      ValuesArePlaced(body, p, w, done, u, v);
    }
    forall v | FromAbove(body, u, v) && Yielding(body, v) ensures v in w.slots {
      var d: nat :| d != u && Defines(body, d, v) && Dominates(Flow(body), body.entry, d, u);
      ValuesArePlaced(body, p, w, done, d, v);
    }
  }

  lemma NothingOfItEmitted(body: Body, done: seq<nat>, u: nat)
    requires ValidSsa(body) && u < |body.blocks| && u !in done
    ensures Untouched(body, ComputedBy(body, done), u)
  {
    forall v | v in body.blocks[u].instrs ensures v !in ComputedBy(body, done) {
      assert Defines(body, u, v);
      if v in ComputedBy(body, done) {
        var q := ComputedFrom(body, done, v);
        assert Defines(body, q, v);
      }
    }
  }

  lemma DoneSnoc(body: Body, p: Plan, done: seq<nat>, u: nat)
    requires NodesOf(p, done) && u < |p.targets|
    ensures FixedBy(p, done + [u]) == FixedBy(p, done) + NodeTargets(p, u)
    ensures RecordedBy(p, done + [u]) == RecordedBy(p, done) + NodeEdges(p, u)
    ensures ComputedBy(body, done + [u]) == ComputedBy(body, done) + Members(NodeInstrs(body, u))
    ensures u >= |body.blocks| ==> ComputedBy(body, done + [u]) == ComputedBy(body, done)
    ensures |p.targets[u]| == 1 ==> NodeTargets(p, u) == {p.targets[u][0]} && NodeEdges(p, u) == {(u, 0)}
  {
    assert (done + [u])[..|done|] == done;
    if u >= |body.blocks| { assert NodeInstrs(body, u) == [] && Members([]) == {}; }
  }

  lemma WrittenAdvances(body: Body, p: Plan, w: Work, w': Work, done: seq<nat>, u: nat)
    requires PlanIndexes(body, p) && NodeClosed(body, p, w, u, w') && Written(body, p, w, done) && u !in done
    ensures Written(body, p, w', done + [u])
  {
    forall m | m in done + [u] ensures ClosedAs(body, p, w', m) {
      if m != u { ClosedStays(body, p, w, w', m); }
    }
  }

  /** The state after one more node. */
  lemma NodeAdvances(body: Body, p: Plan, w: Work, w': Work, done: seq<nat>, u: nat)
    requires PlanIndexes(body, p) && u < |p.targets| && NodesOf(p, done) && u !in done
    requires Written(body, p, w, done)
    requires NodeDone(body, p, w, FixedBy(p, done + [u]), RecordedBy(p, done + [u]), ComputedBy(body, done + [u]), u,
      w')
    ensures RunInv(body, p, w', done + [u])
  {
    WrittenAdvances(body, p, w, w', done, u);
  }

  lemma RealTurn(body: Body, p: Plan, w: Work, done: seq<nat>, u: nat)
    requires ValidSsa(body) && PlanLinks(body, p) && NodesOf(p, done) && u !in done
    requires u < |body.blocks| && RunInv(body, p, w, done) && ReadyFor(body, w, u)
    ensures EmitNode(body, p, w, u).Success? <==> TerminatorFits(body.blocks[u].terminator)
    ensures EmitNode(body, p, w, u).Failure? ==> IsMisfit(body, EmitNode(body, p, w, u).error)
    ensures EmitNode(body, p, w, u).Success? ==>
      RunInv(body, p, EmitNode(body, p, w, u).value, done + [u]) && Extends(w, EmitNode(body, p, w, u).value)
  {
    DoneSnoc(body, p, done, u);
    ComputedAreInstructions(body, done);
    NotRecorded(p, done, u);
    NothingOfItEmitted(body, done, u);
    RealNodeKeeps(body, p, w, FixedBy(p, done), RecordedBy(p, done), ComputedBy(body, done), u);
    if TerminatorFits(body.blocks[u].terminator) {
      NodeAdvances(body, p, w, EmitNode(body, p, w, u).value, done, u);
    }
  }

  lemma AddedTurn(body: Body, p: Plan, w: Work, done: seq<nat>, u: nat)
    requires ValidSsa(body) && PlanLinks(body, p) && NodesOf(p, done) && u !in done
    requires |body.blocks| <= u < |p.nodes| && u in FixedBy(p, done) && RunInv(body, p, w, done)
    ensures EmitNode(body, p, w, u).Success?
    ensures RunInv(body, p, EmitNode(body, p, w, u).value, done + [u]) && Extends(w, EmitNode(body, p, w, u).value)
  {
    DoneSnoc(body, p, done, u);
    ComputedAreInstructions(body, done);
    NotRecorded(p, done, u);
    AddedNodeKeeps(body, p, w, FixedBy(p, done), RecordedBy(p, done), ComputedBy(body, done), u);
    NodeAdvances(body, p, w, EmitNode(body, p, w, u).value, done, u);
  }

  /** A node whose turn it is: new, entered, with everything above it written. */
  ghost predicate NextUp(body: Body, p: Plan, done: seq<nat>, u: nat)
    requires NodesOf(p, done)
  {
    && u < |p.nodes| && u !in done
    && Entered(body, p, done, u)
    && (u < |body.blocks| ==> AboveWritten(body, p, done, u))
  }

  lemma NodeIsNext(body: Body, p: Plan, i: nat)
    requires PlanLinks(body, p) && PlanOrder(body, p) && i < |p.order| && NodesOf(p, p.order)
    ensures NextUp(body, p, p.order[..i], p.order[i])
  {
    OrderFacts(body, p, i);
    NextIsEntered(body, p, i);
    if p.order[i] < |body.blocks| { AboveAreWritten(body, p, i, p.order[..i], p.order[i]); }
  }

  /** A node's turn succeeds exactly when its terminator fits, and then it is written. */
  ghost predicate Turned(body: Body, p: Plan, w: Work, done: seq<nat>, u: nat, r: Result<Work, EmitRefusal>)
    requires PlanIndexes(body, p) && NodesOf(p, done) && u < |p.targets|
  {
    && (r.Success? <==> NodeFits(body, u)) && (r.Failure? ==> IsMisfit(body, r.error))
    && (r.Success? ==> RunInv(body, p, r.value, done + [u]) && Extends(w, r.value))
  }

  /** One turn of the loop. */
  lemma TurnKeeps(body: Body, p: Plan, w: Work, done: seq<nat>, u: nat)
    requires ValidSsa(body) && PlanLinks(body, p) && NodesOf(p, done) && NextUp(body, p, done, u)
    requires RunInv(body, p, w, done)
    ensures Turned(body, p, w, done, u, EmitNode(body, p, w, u))
  {
    if u < |body.blocks| {
      EverythingIsReady(body, p, w, done, u);
      RealTurn(body, p, w, done, u);
    } else {
      AddedTurn(body, p, w, done, u);
    }
  }

  lemma NotRecorded(p: Plan, done: seq<nat>, u: nat)
    requires NodesOf(p, done) && u !in done
    ensures forall k :: (u, k) !in RecordedBy(p, done)
  {
    forall k ensures (u, k) !in RecordedBy(p, done) {
      if (u, k) in RecordedBy(p, done) { RecordedFrom(p, done, u, k); }
    }
  }

  lemma ComputedAreInstructions(body: Body, done: seq<nat>)
    ensures AreInstructions(body, ComputedBy(body, done))
  {
    forall v | v in ComputedBy(body, done) ensures exists b: nat :: b < |body.blocks| && v in body.blocks[b].instrs {
      var u := ComputedFrom(body, done, v);
    }
  }

  lemma EmitOrderSnoc(body: Body, p: Plan, w: Work, done: seq<nat>, u: nat)
    requires PlanIndexes(body, p) && |w.blocks| == |p.nodes| && u < |p.nodes|
    requires forall i :: 0 <= i < |done| ==> done[i] < |p.nodes|
    ensures var r := EmitOrder(body, p, w, done);
      EmitOrder(body, p, w, done + [u]) == if r.Failure? then r else EmitNode(body, p, r.value, u)
    ensures AllFit(body, done + [u]) <==> AllFit(body, done) && NodeFits(body, u)
  {
    assert (done + [u])[..|done|] == done;
    assert u in done + [u];
  }

  /** The nodes of `done` are emitted exactly when their terminators fit, and then the state is as it should be. */
  ghost predicate RunKept(body: Body, p: Plan, w: Work, done: seq<nat>, r: Result<Work, EmitRefusal>)
    requires PlanIndexes(body, p) && NodesOf(p, done)
  {
    && (r.Success? <==> AllFit(body, done)) && (r.Failure? ==> IsMisfit(body, r.error))
    && (r.Success? ==> RunInv(body, p, r.value, done) && Extends(w, r.value))
  }

  lemma TurnExtends(body: Body, p: Plan, w: Work, mid: Work, done: seq<nat>, u: nat)
    requires ValidSsa(body) && PlanLinks(body, p) && NodesOf(p, done) && NextUp(body, p, done, u)
    requires RunInv(body, p, mid, done) && Extends(w, mid) && AllFit(body, done)
    ensures RunKept(body, p, w, done + [u], EmitNode(body, p, mid, u))
  {
    TurnKeeps(body, p, mid, done, u);
    KeptBySnoc(body, p, w, mid, done, u, EmitNode(body, p, mid, u));
  }

  lemma KeptBySnoc(body: Body, p: Plan, w: Work, mid: Work, done: seq<nat>, u: nat, r: Result<Work, EmitRefusal>)
    requires PlanIndexes(body, p) && NodesOf(p, done) && u < |p.targets| && Extends(w, mid) && AllFit(body, done)
    requires Turned(body, p, mid, done, u, r)
    ensures RunKept(body, p, w, done + [u], r)
  {
    assert AllFit(body, done + [u]) <==> NodeFits(body, u) by { assert u in done + [u]; }
    if r.Success? { ExtendsTransitive(w, mid, r.value); }
  }

  /** Every node of the order has its turn when the ones before it are written. */
  ghost predicate InTurn(body: Body, p: Plan, order: seq<nat>)
    requires NodesOf(p, order)
  {
    forall i: nat :: i < |order| ==> NextUp(body, p, order[..i], order[i])
  }

  lemma OrderIsInTurn(body: Body, p: Plan)
    requires PlanLinks(body, p) && PlanOrder(body, p) && NodesOf(p, p.order)
    ensures InTurn(body, p, p.order)
  {
    forall i: nat | i < |p.order| ensures NextUp(body, p, p.order[..i], p.order[i]) {
      NodeIsNext(body, p, i);
    }
  }

  lemma {:induction false} RunKeeps(body: Body, p: Plan, w: Work, order: seq<nat>)
    requires ValidSsa(body) && PlanLinks(body, p) && NodesOf(p, order) && InTurn(body, p, order)
    requires RunInv(body, p, w, [])
    ensures RunKept(body, p, w, order, EmitOrder(body, p, w, order))
  {
    if order != [] {
      var last := |order| - 1;
      InTurnBefore(body, p, order, last);
      RunKeeps(body, p, w, order[..last]);
      SnocSlice(order, last);
      assert order[..last + 1] == order;
      RunSnoc(body, p, w, order[..last], order[last]);
    }
  }

  lemma InTurnBefore(body: Body, p: Plan, order: seq<nat>, k: nat)
    requires NodesOf(p, order) && k < |order| && InTurn(body, p, order)
    ensures InTurn(body, p, order[..k]) && NextUp(body, p, order[..k], order[k])
  {
    forall i: nat | i < k ensures NextUp(body, p, order[..k][..i], order[..k][i]) {
      assert order[..k][..i] == order[..i];
    }
  }

  lemma RunSnoc(body: Body, p: Plan, w: Work, done: seq<nat>, u: nat)
    requires ValidSsa(body) && PlanLinks(body, p) && |w.blocks| == |p.nodes| && NodesOf(p, done) &&
      NextUp(body, p, done, u)
    requires RunKept(body, p, w, done, EmitOrder(body, p, w, done))
    ensures RunKept(body, p, w, done + [u], EmitOrder(body, p, w, done + [u]))
  {
    EmitOrderSnoc(body, p, w, done, u);
    if AllFit(body, done) { TurnExtends(body, p, w, EmitOrder(body, p, w, done).value, done, u); }
  }

  // ---- the start ----

  function EmptyBlock(): EmittedBlock {
    EmittedBlock([], [], [], NoMerge, Open)
  }

  /** The function's parameters on ids of their own, nothing emitted. */
  function StartWork(body: Body, count: nat, ids: seq<nat>, at: Cursor): Work
    requires body.entry < |body.blocks| && |ids| == |body.blocks[body.entry].params|
  {
    Work(Assign(map[], body.blocks[body.entry].params, ids), seq(count, _ => EmptyBlock()), at, 0)
  }

  lemma StartHolds(body: Body, p: Plan, ids: seq<nat>, at: Cursor)
    requires ValidSsa(body) && PlanLinks(body, p) && |ids| == |body.blocks[body.entry].params|
    requires PoolBelow(at) && forall i :: 0 <= i < |ids| ==> ids[i] < at.next
    ensures RunInv(body, p, StartWork(body, |p.nodes|, ids, at), [])
  {
    var params := body.blocks[body.entry].params;
    var w := StartWork(body, |p.nodes|, ids, at);
    assert Distinct(params + body.blocks[body.entry].instrs);
    DistinctParts(params, body.blocks[body.entry].instrs);
    AssignFacts(map[], params, ids);
    forall v | v in w.slots ensures w.slots[v] < at.next {
      var i :| 0 <= i < |params| && params[i] == v;
    }
    assert forall m: nat :: m < |w.blocks| ==>
      w.blocks[m].params == [] && w.blocks[m].edges == [] && w.blocks[m].code == [];
    assert FixedBy(p, []) == {} && RecordedBy(p, []) == {} && ComputedBy(body, []) == {};
  }

  // ---- the finished function ----

  /** Some node with this label branches to node `m`. */
  ghost predicate IsPredecessor(p: Plan, m: nat, from: nat) {
    exists u: nat :: u < |p.targets| && u < |p.labels| && m in p.targets[u] && p.labels[u] == from
  }

  /** No phi entry comes from a block that is not a predecessor. */
  ghost predicate OnlyPredecessors(p: Plan, w: Work) {
    forall m: nat, e :: m < |w.blocks| && e in w.blocks[m].edges ==> IsPredecessor(p, m, e.from)
  }

  lemma SourcedArePredecessors(body: Body, p: Plan, w: Work, recorded: set<(nat, nat)>)
    requires PlanIndexes(body, p) && AllSourced(body, p, w, recorded)
    ensures OnlyPredecessors(p, w)
  {
    forall m: nat, e | m < |w.blocks| && e in w.blocks[m].edges ensures IsPredecessor(p, m, e.from) {
      assert FiledFrom(body, p, recorded, m, e);
    }
  }

  /** A finished emission: every block closed, every edge filed and no other, every parameter placed. */
  ghost predicate Finished(body: Body, p: Plan, w: Work)
    requires PlanIndexes(body, p) && body.entry < |body.blocks|
  {
    && |w.blocks| == |p.nodes|
    && (forall u: nat :: u < |p.nodes| ==> ClosedAs(body, p, w, u))
    && (forall u: nat, k: nat :: u < |p.nodes| && k < |p.targets[u]| ==> Filed(body, p, w, u, k))
    && (forall m: nat :: m < |p.nodes| ==> DistinctSources(w.blocks[m].edges))
    && OnlyPredecessors(p, w)
    && (forall m: nat :: m < |p.nodes| && m != body.entry ==> FinishedParams(body, p, w, m))
    && w.blocks[body.entry].params == []
    && AllIn(w.slots, body.blocks[body.entry].params)
  }

  ghost predicate FinishedParams(body: Body, p: Plan, w: Work, m: nat)
    requires m < |w.blocks| && m < |p.arities| && m < |p.nodes|
  {
    && |w.blocks[m].params| == p.arities[m] && Distinct(w.blocks[m].params)
    && (m < |body.blocks| ==>
         AllIn(w.slots, body.blocks[m].params) && w.blocks[m].params == Ids(w.slots, body.blocks[m].params))
    && AboveShielded(body, w, Destination(p.nodes[m]), w.blocks[m].params)
  }

  lemma EveryNodeIsEntered(body: Body, p: Plan, m: nat)
    requires PlanIndexes(body, p) && p.entry == body.entry && DepthFirst.WritingOrder(p.targets, p.entry, p.order) &&
      NodesOf(p, p.order)
    requires m < |p.nodes|
    ensures m in p.order && Entered(body, p, p.order, m)
  {
    assert m in p.order;
    var i :| 0 <= i < |p.order| && p.order[i] == m;
    WrittenIsEntered(body, p, |p.order|, i);
    assert p.order[..|p.order|] == p.order;
  }

  lemma NodeFinishes(body: Body, p: Plan, w: Work, done: seq<nat>, m: nat)
    requires PlanLinks(body, p) && NodesOf(p, done) && RunInv(body, p, w, done)
    requires m < |p.nodes| && m in done && Entered(body, p, done, m)
    ensures ClosedAs(body, p, w, m)
    ensures m != p.entry ==> FinishedParams(body, p, w, m)
    ensures m == p.entry ==> w.blocks[m].params == []
    ensures forall k: nat :: k < |p.targets[m]| ==> Filed(body, p, w, m, k)
  {
    assert NodeParams(body, p, w, FixedBy(p, done), m);
    AtMostTwoTargets(body, p);
    forall k: nat | k < |p.targets[m]| ensures Filed(body, p, w, m, k) {
      RecordedHas(p, done, m, k);
    }
  }

  lemma NodesFinish(body: Body, p: Plan, w: Work)
    requires PlanLinks(body, p) && PlanOrder(body, p) && NodesOf(p, p.order) && RunInv(body, p, w, p.order)
    ensures forall m: nat :: m < |p.nodes| ==>
      ClosedAs(body, p, w, m) && (m != body.entry ==> FinishedParams(body, p, w, m))
    ensures forall m: nat, k: nat :: m < |p.nodes| && k < |p.targets[m]| ==> Filed(body, p, w, m, k)
    ensures w.blocks[body.entry].params == []
  {
    forall m: nat | m < |p.nodes|
      ensures ClosedAs(body, p, w, m)
      ensures m != body.entry ==> FinishedParams(body, p, w, m)
      ensures m == body.entry ==> w.blocks[m].params == []
      ensures forall k: nat :: k < |p.targets[m]| ==> Filed(body, p, w, m, k)
    {
      EveryNodeIsEntered(body, p, m);
      NodeFinishes(body, p, w, p.order, m);
    }
  }

  lemma InputsHaveSlots(body: Body, p: Plan, w: Work, fixed: set<nat>, computed: set<nat>)
    requires body.entry < |body.blocks| && SlotsKnown(body, w, fixed, computed)
    ensures AllIn(w.slots, body.blocks[body.entry].params)
  {
    forall v | v in body.blocks[body.entry].params ensures v in w.slots {
      assert Known(body, fixed, computed, v);
    }
  }

  lemma RunFinishes(body: Body, p: Plan, w: Work)
    requires PlanLinks(body, p) && PlanOrder(body, p) && NodesOf(p, p.order) && RunInv(body, p, w, p.order)
    ensures Finished(body, p, w)
  {
    NodesFinish(body, p, w);
    SourcedArePredecessors(body, p, w, RecordedBy(p, p.order));
    InputsHaveSlots(body, p, w, FixedBy(p, p.order), ComputedBy(body, p.order));
  }

  /** The phi entries of a finished block are exactly its predecessors: one for each, and none for any other. */
  lemma PhisAreThePredecessors(body: Body, p: Plan, w: Work, m: nat, from: nat)
    requires PlanIndexes(body, p) && body.entry < |body.blocks| && Finished(body, p, w) && m < |p.nodes|
    ensures (exists i: nat :: EntryFrom(w.blocks[m].edges, i, from)) <==> IsPredecessor(p, m, from)
    ensures forall i: nat, j: nat :: EntryFrom(w.blocks[m].edges, i, from) && EntryFrom(w.blocks[m].edges, j, from) ==>
      i == j
  {
    var edges := w.blocks[m].edges;
    if IsPredecessor(p, m, from) {
      var u: nat :| u < |p.targets| && u < |p.labels| && m in p.targets[u] && p.labels[u] == from;
      var k :| 0 <= k < |p.targets[u]| && p.targets[u][k] == m;
      assert Filed(body, p, w, u, k);
      var e := Incoming(p.labels[u], PassArgs(body, w.blocks[u].code, u, k));
      var i: nat :| i < |edges| && edges[i] == e;
      assert EntryFrom(edges, i, from);
    }
    if exists i: nat :: EntryFrom(edges, i, from) {
      var i: nat :| EntryFrom(edges, i, from);
      assert edges[i] in edges;
    }
  }

  ghost predicate EntryFrom(edges: seq<Incoming>, i: nat, from: nat) {
    i < |edges| && edges[i].from == from
  }
}
