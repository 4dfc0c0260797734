/**
The emitter: one function's blocks, slots and id cursor, updated as the writing order is
walked. Each method leaves the state that the specification of its step gives, or answers
its refusal; `EmitFunction` plans a body and then emits it.
 */
module Emitters {
  import opened Options
  import opened Graphs
  import opened Kernel
  import opened Scalars
  import opened Literals
  import opened Structure
  import opened PostDominators
  import opened Planner
  import opened PlanProperties
  import opened Emission
  import opened Ssa
  import opened Distinctness
  import opened EmissionInvariant
  import opened EmissionRun
  import opened EmissionIds
  import opened FunctionIds
  import DepthFirst

  class Emitter {
    const body: Body
    const plan: Plan
    /** The module's pool, which every function's emission goes on with. */
    const literals: Pool
    var blocks: seq<EmittedBlock>
    var slots: map<nat, nat>
    var next: nat
    var left: nat

    ghost function Now(): Work
      reads this, literals
    {
      Work(slots, blocks, literals.Now(next), left)
    }

    ghost predicate Valid()
      reads this
    {
      PlanIndexes(body, plan) && |blocks| == |plan.nodes|
    }

    /** The function's own parameters are already on ids of their own. */
    constructor (body: Body, plan: Plan, literals: Pool, slots: map<nat, nat>, next: nat)
      requires PlanIndexes(body, plan)
      ensures Valid() && this.body == body && this.plan == plan && this.literals == literals
      ensures Now() == Work(slots, seq(|plan.nodes|, _ => EmptyBlock()), literals.Now(next), 0)
    {
      this.body, this.plan, this.literals, this.slots, this.next := body, plan, literals, slots, next;
      this.blocks := seq(|plan.nodes|, _ => EmptyBlock());
      this.left := 0;
    }

    /** Bring an operand to the form its position wants. */
    method PlaceOne(o: Operand, d: Demand) returns (p: Placement)
      modifies this`next, literals
      ensures (p, literals.Now(next)) == Place(old(literals.Now(next)), o, d)
    {
      match d {
        case AsIs => return Placement(o.id, []);
        case InClass(kind, steps) =>
          var from := o.id;
          if o.literal.Some? { from, next := literals.Get(kind, o.literal.value, next); }
          p := Placement(from, FreshIds(next, steps));
          next := next + steps;
      }
    }

    method PlaceEach(os: seq<Operand>, demands: seq<Demand>) returns (ps: seq<Placement>)
      modifies this`next, literals
      ensures (ps, literals.Now(next)) == PlaceAll(old(literals.Now(next)), os, demands)
    {
      ps := [];
      var i := 0;
      while i < |os|
        invariant 0 <= i <= |os|
        invariant (ps, literals.Now(next)) == PlaceAll(old(literals.Now(next)), os[..i], demands)
      {
        assert os[..i + 1][..i] == os[..i];
        var p := PlaceOne(os[i], DemandAt(demands, i));
        ps := ps + [p];
        i := i + 1;
      }
      assert os[..i] == os;
    }

    /** Give each received value the id of its parameter. */
    method Bind(values: seq<nat>, ids: seq<nat>)
      requires |values| <= |ids|
      modifies this`slots
      ensures slots == Assign(old(slots), values, ids[..|values|])
    {
      var i := 0;
      assert values[..0] == [] && ids[..0] == [];
      while i < |values|
        invariant 0 <= i <= |values|
        invariant slots == Assign(old(slots), values[..i], ids[..i])
      {
        slots := slots[values[i] := ids[i]];
        assert values[..i + 1][..i] == values[..i] && ids[..i + 1][..i] == ids[..i];
        i := i + 1;
      }
      assert values[..|values|] == values;
    }

    method Write(u: nat, g: Group)
      requires u < |blocks|
      modifies this`blocks
      ensures Now() == Append(old(Now()), u, g)
    {
      blocks := blocks[u := blocks[u].(code := blocks[u].code + [g])];
    }

    /** The `k`-th edge out of node `u`: the first one fixes its target's parameters, a later one is brought to them. */
    method Record(u: nat, k: nat, os: seq<Operand>) returns (r: Result<(), EmitRefusal>)
      requires Valid() && u < |blocks| && k < |plan.targets[u]|
      modifies this, literals
      ensures var spec := Emission.Record(body, plan, old(Now()), u, k, os);
        if spec.Success? then r.Success? && Now() == spec.value else r == Failure(spec.error)
    {
      var to := plan.targets[u][k];
      var arity := plan.arities[to];
      if |os| != arity { return Failure(ArityDiffers(to)); }
      var wanted := Wanted(body, u, k);
      if arity > 0 && blocks[to].params == [] {
        var params := FreshIds(next, arity);
        next := next + arity;
        Bind(Received(body, to), params);
        blocks := blocks[to := blocks[to].(params := params)];
        wanted := [];
      }
      assert Now() == FixParams(body, old(Now()), to, arity);
      var ps := PlaceEach(os, wanted);
      Write(u, Group(ps, [], Still));
      match FindEdge(blocks[to].edges, plan.labels[u]) {
        case Some(seen) =>
          if seen.args != Yields(ps) { return Failure(TwoValueLists(to)); }
        case None =>
          blocks := blocks[to := blocks[to].(edges := blocks[to].edges + [Incoming(plan.labels[u], Yields(ps))])];
      }
      return Success(());
    }

    /** The edge to the `k`-th target, with the values its branch passes. */
    method RecordBranch(u: nat, k: nat) returns (r: Result<(), EmitRefusal>)
      requires Valid() && u < |body.blocks| && k < TargetCount(body, plan, u)
      modifies this, literals
      ensures var spec := Emission.RecordBranch(body, plan, old(Now()), u, k);
        if spec.Success? then r.Success? && Now() == spec.value else r == Failure(spec.error)
    {
      var values := BranchOf(body, plan, u, k).args;
      if !AllIn(slots, values) { return Failure(NoSlot); }
      r := Record(u, k, Operands(body, slots, values));
    }

    /** A loop header's two edges: the branch that stays, then the one that leaves. */
    method RecordLoop(u: nat) returns (r: Result<(), EmitRefusal>)
      requires Valid() && u < |body.blocks| && TargetCount(body, plan, u) == 2
      modifies this, literals
      ensures var spec := Emission.RecordLoop(body, plan, old(Now()), u);
        if spec.Success? then r.Success? && Now() == spec.value else r == Failure(spec.error)
    {
      var stay, leave := BranchOf(body, plan, u, 0).args, BranchOf(body, plan, u, 1).args;
      if !AllIn(slots, stay) || !AllIn(slots, leave) { return Failure(NoSlot); }
      var left := Operands(body, slots, leave);
      r := Record(u, 0, Operands(body, slots, stay));
      if r.Success? {
        r := Record(u, 1, left);
      }
    }

    /** The value a block's end tests or returns, in the form it is wanted in. */
    method Test(u: nat, v: nat)
      requires u < |blocks| && v in slots
      modifies this`next, this`blocks, literals
      ensures Now() == Emission.Test(body, old(Now()), u, v)
    {
      var placed := PlaceOne(Operand(slots[v], Constant(body, v)), Tested(body, u));
      Write(u, Group([placed], [], Still));
    }

    /** What the branch reads, then the edges out of a real block. */
    method Terminate(u: nat) returns (r: Result<(), EmitRefusal>)
      requires Valid() && u < |body.blocks|
      modifies this, literals
      ensures var spec := Emission.Terminate(body, plan, old(Now()), u);
        if spec.Success? then r.Success? && Now() == spec.value else r == Failure(spec.error)
    {
      match body.blocks[u].terminator {
        case Return(values) =>
          if |values| != 1 || values[0] !in slots { return Failure(ResultArity(|values|)); }
          left := left + 1;
          if !body.lowering.launched { Test(u, values[0]); }
          return Success(());
        case Br(_) =>
          r := RecordBranch(u, 0);
        case CondBr(cond, ifTrue, ifFalse) =>
          if cond !in slots { return Failure(NoSlot); }
          Test(u, cond);
          if TargetCount(body, plan, u) == 1 {
            if ifTrue.args != ifFalse.args { return Failure(OneTargetTwoLists(u)); }
            r := RecordBranch(u, 0);
          } else if plan.loopBodies[u].Some? {
            r := RecordLoop(u);
          } else {
            r := RecordBranch(u, 0);
            if r.Success? { r := RecordBranch(u, 1); }
          }
      }
    }

    /** One instruction: a literal's id, its operand's, or ids of its own. */
    method Lower(u: nat, v: nat) returns (r: Result<(), EmitRefusal>)
      requires u < |blocks|
      modifies this, literals
      ensures var spec := Instruction(body, old(Now()), u, v);
        if spec.Success? then r.Success? && Now() == spec.value else r == Failure(spec.error)
    {
      if v !in body.lowering.forms || v !in body.operands || !AllIn(slots, body.operands[v]) { return Failure(NoSlot); }
      var os := Operands(body, slots, body.operands[v]);
      match body.lowering.forms[v] {
        case Literal(kind, value) =>
          var id;
          id, next := literals.Get(kind, value, next);
          slots := slots[v := id];
          Write(u, Group([], [], Still));
        case Same(demand) =>
          if os == [] { return Failure(NoSlot); }
          var placed := PlaceOne(os[0], demand);
          slots := slots[v := Yield(placed)];
          Write(u, Group([placed], [], Still));
        case Computed(demands, count, result) =>
          var ps := PlaceEach(os, demands);
          var own := FreshIds(next, count);
          next := next + count;
          if result.Some? && result.value < count { slots := slots[v := own[result.value]]; }
          Write(u, Group(ps, own, Act(v, result)));
      }
      return Success(());
    }

    /** The instructions of a block, in order. */
    method Compute(u: nat, instrs: seq<nat>) returns (r: Result<(), EmitRefusal>)
      requires u < |blocks|
      modifies this, literals
      ensures var spec := Instructions(body, old(Now()), u, instrs);
        if spec.Success? then r.Success? && Now() == spec.value else r == Failure(spec.error)
    {
      ghost var start := Now();
      var i := 0;
      while i < |instrs|
        invariant 0 <= i <= |instrs| && u < |blocks|
        invariant Instructions(body, start, u, instrs[..i]) == Success(Now())
      {
        assert instrs[..i + 1][..i] == instrs[..i];
        var one := Lower(u, instrs[i]);
        if one.Failure? {
          FailureStays(body, start, u, instrs, i + 1);
          return one;
        }
        i := i + 1;
      }
      assert instrs[..i] == instrs;
      return Success(());
    }

    method Emit(u: nat) returns (r: Result<(), EmitRefusal>)
      requires Valid() && u < |plan.nodes|
      modifies this, literals
      ensures var spec := EmitNode(body, plan, old(Now()), u);
        if spec.Success? then r.Success? && Now() == spec.value else r == Failure(spec.error)
    {
      if u < |body.blocks| {
        r := Compute(u, body.blocks[u].instrs);
        if r.Failure? { return; }
        r := Terminate(u);
      } else {
        r := Record(u, 0, Plainly(blocks[u].params));
      }
      if r.Success? {
        blocks := blocks[u := blocks[u].(merge := MergeOf(body, plan, u),
          exit := ExitOf(body, plan, blocks[u].code, u))];
      }
    }

    /** The writing order, one node after the other. */
    method EmitAll() returns (r: Result<(), EmitRefusal>)
      requires Valid() && forall i :: 0 <= i < |plan.order| ==> plan.order[i] < |plan.nodes|
      modifies this, literals
      ensures var spec := EmitOrder(body, plan, old(Now()), plan.order);
        if spec.Success? then r.Success? && Now() == spec.value else r == Failure(spec.error)
    {
      var order := plan.order;
      ghost var start := Now();
      var i := 0;
      while i < |order|
        invariant 0 <= i <= |order| && Valid()
        invariant EmitOrder(body, plan, start, order[..i]) == Success(Now())
      {
        SnocOrder(body, plan, start, order, i);
        var one := Emit(order[i]);
        if one.Failure? {
          OrderFailureStays(body, plan, start, order, i + 1);
          return one;
        }
        i := i + 1;
      }
      assert order[..i] == order;
      return Success(());
    }
  }

  lemma {:induction false} FailureStays(body: Body, w: Work, u: nat, instrs: seq<nat>, i: nat)
    requires u < |w.blocks| && i <= |instrs| && Instructions(body, w, u, instrs[..i]).Failure?
    ensures Instructions(body, w, u, instrs) == Instructions(body, w, u, instrs[..i])
    decreases |instrs|
  {
    if i < |instrs| {
      assert instrs[..|instrs| - 1][..i] == instrs[..i];
      FailureStays(body, w, u, instrs[..|instrs| - 1], i);
    } else {
      assert instrs[..i] == instrs;
    }
  }

  lemma SnocOrder(body: Body, p: Plan, w: Work, order: seq<nat>, i: nat)
    requires PlanIndexes(body, p) && |w.blocks| == |p.nodes| && i < |order|
    requires forall j :: 0 <= j < |order| ==> order[j] < |p.nodes|
    ensures var r := EmitOrder(body, p, w, order[..i]);
      EmitOrder(body, p, w, order[..i + 1]) == if r.Failure? then r else EmitNode(body, p, r.value, order[i])
  {
    assert order[..i + 1] == order[..i] + [order[i]];
    EmitOrderSnoc(body, p, w, order[..i], order[i]);
  }

  lemma {:induction false} OrderFailureStays(body: Body, p: Plan, w: Work, order: seq<nat>, i: nat)
    requires PlanIndexes(body, p) && |w.blocks| == |p.nodes| && i <= |order|
    requires forall j :: 0 <= j < |order| ==> order[j] < |p.nodes|
    requires EmitOrder(body, p, w, order[..i]).Failure?
    ensures EmitOrder(body, p, w, order) == EmitOrder(body, p, w, order[..i])
    decreases |order|
  {
    if i < |order| {
      assert order[..|order| - 1][..i] == order[..i];
      OrderFailureStays(body, p, w, order[..|order| - 1], i);
    } else {
      assert order[..i] == order;
    }
  }

  // ---- a whole function ----

  datatype FunctionRefusal =
    | UnboundParameter(k: nat)
    | CannotPlan(why: Refusal)
    | CannotEmit(what: EmitRefusal)
    | NothingToGuard

  /**
  A function can be emitted: every parameter has its leaf, the body plans, the terminators fit, and a guard has what
  it compares.
   */
  ghost predicate Accepted(body: Body, s: Signature) {
    && ParamCount(body) <= |s.leaves| && Plannable(body) && TerminatorsFit(body)
    && (Guarded(body, s) ==> |s.leaves| <= ParamCount(body))
  }

  /** What emission promises of a function whose first id is the cursor's. */
  ghost predicate Emits(body: Body, s: Signature, start: Cursor, f: Function) {
    && ValidBody(body) && PlanOf(body, start.next, FirstLabel(body, s, start.next), f.plan)
    && PlanIndexes(body, f.plan)
    && Accepted(body, s)
    && Finished(body, f.plan, f.work)
    && LaidOut(body, s, start, f)
    && ParametersOnIds(body, f)
    && f.guard == TailGuard(body, s, f.work)
  }

  /** Each parameter's slot is the last of its ids. */
  ghost predicate ParametersOnIds(body: Body, f: Function)
    requires body.entry < |body.blocks|
  {
    var params := body.blocks[body.entry].params;
    && |f.inputs| == |params| && (forall i :: 0 <= i < |f.inputs| ==> f.inputs[i] != [])
    && AllIn(f.work.slots, params) && Ids(f.work.slots, params) == Lasts(f.inputs)
  }

  /** Some block returns, because every accepted body can leave. */
  lemma SomeBlockReturns(body: Body, p: Plan) returns (u: nat)
    requires Structured(body) && |body.blocks| <= |p.targets| && DepthFirst.WritingOrder(p.targets, p.entry, p.order)
    ensures u in p.order && EndsHere(body, u)
  {
    AcceptedBodiesLeave(body);
    assert CanLeave(Flow(body), body.entry);
    var w :| Departure(Flow(body), w, body.entry);
    u := w[|w| - 1];
  }

  lemma OrderIsNodes(p: Plan)
    requires DepthFirst.WritingOrder(p.targets, p.entry, p.order)
    ensures NodesOf(p, p.order)
  {
    forall j | 0 <= j < |p.order| ensures p.order[j] < |p.targets| {
      assert p.order[j] in p.order;
    }
  }

  lemma FitsEverywhere(body: Body, p: Plan)
    requires PlanIndexes(body, p) && DepthFirst.WritingOrder(p.targets, p.entry, p.order)
    ensures AllFit(body, p.order) <==> TerminatorsFit(body)
  {
    if AllFit(body, p.order) {
      forall b: nat | b < |body.blocks| ensures TerminatorFits(body.blocks[b].terminator) {
        assert b in p.order && NodeFits(body, b);
      }
    }
  }

  /** The inputs sit below the cursor the emission starts from. */
  lemma InputsBelow(body: Body, s: Signature, start: nat)
    ensures var inputs := FunctionInputs(body, s, start);
      forall i :: 0 <= i < |inputs| ==> start < Lasts(inputs)[i] < FirstLabel(body, s, start)
  {
    var inputs := FunctionInputs(body, s, start);
    forall i | 0 <= i < |inputs| ensures start < Lasts(inputs)[i] < FirstLabel(body, s, start) {
      InputSits(body, s, start, inputs, i, |inputs[i]| - 1);
    }
  }

  lemma FunctionRuns(body: Body, s: Signature, p: Plan, start: Cursor)
    requires ValidSsa(body) && PlanOf(body, start.next, FirstLabel(body, s, start.next), p) && PoolBelow(start)
    ensures PlanIndexes(body, p) && forall i :: 0 <= i < |p.order| ==> p.order[i] < |p.nodes|
    ensures var r := EmitOrder(body, p, StartOf(body, s, start, |p.nodes|), p.order);
      (r.Success? <==> TerminatorsFit(body)) && (r.Failure? ==> IsMisfit(body, r.error)) &&
      (r.Success? ==> Finished(body, p, r.value) && Extends(StartOf(body, s, start, |p.nodes|), r.value))
  {
    PlanLinked(body, s, p, start.next);
    StartBelow(body, s, start, |p.nodes|);
    StartedRuns(body, p, Lasts(FunctionInputs(body, s, start.next)),
      start.(next := FirstOwn(body, s, start.next, |p.nodes|)));
  }

  lemma LabelsAboveTheEntrys(body: Body, s: Signature, start: nat)
    ensures start < FirstLabel(body, s, start)
  {
    InputsRise(body.lowering.launched, s, start + 1, ParamCount(body));
  }

  lemma PlanIsLabelled(body: Body, s: Signature, p: Plan, start: nat)
    requires PlanOf(body, start, FirstLabel(body, s, start), p)
    ensures |p.nodes| > 0 && |p.labels| == |p.nodes| && PlanLabels(body, s, p, start)
  {
  }

  lemma PlanLinked(body: Body, s: Signature, p: Plan, start: nat)
    requires PlanOf(body, start, FirstLabel(body, s, start), p)
    ensures PlanLinks(body, p) && PlanOrder(body, p) && |p.nodes| > 0 && PlanLabels(body, s, p, start)
  {
    LabelsAboveTheEntrys(body, s, start);
    PlanIsLabelled(body, s, p, start);
    PlanFactsHold(body, p, start, FirstLabel(body, s, start));
  }

  lemma StartBelow(body: Body, s: Signature, start: Cursor, nodes: nat)
    requires nodes > 0 && PoolBelow(start)
    ensures var at := start.(next := FirstOwn(body, s, start.next, nodes));
      var inputs := FunctionInputs(body, s, start.next);
      PoolBelow(at) && forall i :: 0 <= i < |inputs| ==> Lasts(inputs)[i] < at.next
  {
    InputsRise(body.lowering.launched, s, start.next + 1, ParamCount(body));
    InputsBelow(body, s, start.next);
  }

  lemma StartedRuns(body: Body, p: Plan, ids: seq<nat>, at: Cursor)
    requires ValidSsa(body) && PlanLinks(body, p) && PlanOrder(body, p) && |ids| == |body.blocks[body.entry].params|
    requires PoolBelow(at) && forall i :: 0 <= i < |ids| ==> ids[i] < at.next
    ensures forall i :: 0 <= i < |p.order| ==> p.order[i] < |p.nodes|
    ensures var r := EmitOrder(body, p, StartWork(body, |p.nodes|, ids, at), p.order);
      (r.Success? <==> TerminatorsFit(body)) && (r.Failure? ==> IsMisfit(body, r.error)) &&
      (r.Success? ==> Finished(body, p, r.value) && Extends(StartWork(body, |p.nodes|, ids, at), r.value))
  {
    var w := StartWork(body, |p.nodes|, ids, at);
    OrderIsNodes(p);
    StartHolds(body, p, ids, at);
    OrderIsInTurn(body, p);
    RunKeeps(body, p, w, p.order);
    FitsEverywhere(body, p);
    var r := EmitOrder(body, p, w, p.order);
    if r.Success? { RunFinishes(body, p, r.value); }
  }

  /** The parameters keep the ids they started with. */
  lemma ParametersStay(body: Body, s: Signature, start: Cursor, nodes: nat, w: Work)
    requires ValidSsa(body) && nodes > 0 && Extends(StartOf(body, s, start, nodes), w)
    ensures var params := body.blocks[body.entry].params;
      AllIn(w.slots, params) && Ids(w.slots, params) == Lasts(FunctionInputs(body, s, start.next))
  {
    var params := body.blocks[body.entry].params;
    var ids := Lasts(FunctionInputs(body, s, start.next));
    assert Distinct(params + body.blocks[body.entry].instrs);
    DistinctParts(params, body.blocks[body.entry].instrs);
    AssignFacts(map[], params, ids);
    forall k | 0 <= k < |params| ensures params[k] in w.slots && w.slots[params[k]] == ids[k] {
      assert params[k] in params;
    }
  }

  /** Nothing is defined at the start but the literals of earlier functions. */
  lemma StartIsUnique(body: Body, s: Signature, start: Cursor, nodes: nat)
    requires body.entry < |body.blocks| && nodes > 0 && Sound(start)
    ensures Unique(StartOf(body, s, start, nodes)) && Sound(StartOf(body, s, start, nodes).at)
  {
    var w := StartOf(body, s, start, nodes);
    InputsRise(body.lowering.launched, s, start.next + 1, ParamCount(body));
    SoundLater(start, w.at.next);
    forall d | IsDefined(w, d)
      ensures d.ConstantOf? && d.key in start.pool.ids && DefinedId(w, d) == start.pool.ids[d.key] < start.next
    {
      DeclaredBelow(start, d.key);
    }
  }

  lemma FunctionFills(body: Body, s: Signature, p: Plan, start: Cursor)
    requires Structured(body) && PlanIndexes(body, p) && body.entry < |p.nodes| && Sound(start)
    requires DepthFirst.WritingOrder(p.targets, p.entry, p.order) && forall i :: 0 <= i < |p.order| ==>
      p.order[i] < |p.nodes|
    ensures var w := StartOf(body, s, start, |p.nodes|); var r := EmitOrder(body, p, w, p.order);
      r.Success? ==> 0 < r.value.left && Fresh(w, r.value) && Unique(r.value) && Sound(r.value.at)
  {
    var w := StartOf(body, s, start, |p.nodes|);
    StartIsUnique(body, s, start, |p.nodes|);
    OrderFresh(body, p, w, p.order);
    var r := EmitOrder(body, p, w, p.order);
    if r.Success? {
      FreshKeepsUnique(w, r.value);
      var u := SomeBlockReturns(body, p);
      OrderCounts(body, p, w, p.order, u);
    }
  }

  lemma WithinStart(body: Body, s: Signature, start: Cursor, nodes: nat, w: Work)
    requires body.entry < |body.blocks| && nodes > 0 && Extends(StartOf(body, s, start, nodes), w)
    ensures Within(start, w.at)
  {
    InputsRise(body.lowering.launched, s, start.next + 1, ParamCount(body));
  }

  /** The function an emission leaves. */
  ghost function FunctionOf(body: Body, s: Signature, p: Plan, start: Cursor, w: Work): Function
    requires body.entry < |body.blocks| &&
      (Guarded(body, s) ==> |s.leaves| <= ParamCount(body) && AllIn(w.slots, body.blocks[body.entry].params))
  {
    Function(p, FunctionInputs(body, s, start.next), w, TailGuard(body, s, w), AfterGuard(body, s, w.at))
  }

  /** The whole emission: it succeeds exactly when the terminators fit, and leaves the promised function. */
  lemma FunctionFacts(body: Body, s: Signature, p: Plan, start: Cursor)
    requires ValidSsa(body) && PlanOf(body, start.next, FirstLabel(body, s, start.next), p) && Sound(start)
    requires ParamCount(body) <= |s.leaves| && (Guarded(body, s) ==> |s.leaves| <= ParamCount(body))
    ensures PlanIndexes(body, p) && forall i :: 0 <= i < |p.order| ==> p.order[i] < |p.nodes|
    ensures var r := EmitOrder(body, p, StartOf(body, s, start, |p.nodes|), p.order);
      (r.Success? <==> TerminatorsFit(body)) && (r.Failure? ==> IsMisfit(body, r.error)) &&
      (r.Success? ==> 0 < r.value.left && AllIn(r.value.slots, body.blocks[body.entry].params)) &&
      (r.Success? ==> Emits(body, s, start, FunctionOf(body, s, p, start, r.value)))
  {
    forall key | key in start.pool.ids ensures start.pool.ids[key] < start.next { DeclaredBelow(start, key); }
    FunctionRuns(body, s, p, start);
    var w := StartOf(body, s, start, |p.nodes|);
    var r := EmitOrder(body, p, w, p.order);
    if r.Success? {
      FunctionFills(body, s, p, start);
      WithinStart(body, s, start, |p.nodes|, r.value);
      ParametersStay(body, s, start, |p.nodes|, r.value);
      FunctionEmits(body, s, p, start, r.value);
    }
  }

  lemma FunctionEmits(body: Body, s: Signature, p: Plan, start: Cursor, w: Work)
    requires ValidBody(body) && PlanOf(body, start.next, FirstLabel(body, s, start.next), p) && PlanIndexes(body, p)
    requires Accepted(body, s) && Finished(body, p, w) && Sound(start) && Within(start, w.at) && Sound(w.at)
    requires body.entry < |p.nodes| && Fresh(StartOf(body, s, start, |p.nodes|), w) && Unique(w)
    requires Ids(w.slots, body.blocks[body.entry].params) == Lasts(FunctionInputs(body, s, start.next))
    ensures Emits(body, s, start, FunctionOf(body, s, p, start, w))
  {
    PlanLinked(body, s, p, start.next);
    FunctionIsLaidOut(body, s, p, start, w);
  }

  lemma FunctionIsLaidOut(body: Body, s: Signature, p: Plan, start: Cursor, w: Work)
    requires body.entry < |body.blocks| && |p.labels| == |p.nodes| && body.entry < |p.nodes| &&
      PlanLabels(body, s, p, start.next)
    requires Guarded(body, s) ==> |s.leaves| <= ParamCount(body)
    requires AllIn(w.slots, body.blocks[body.entry].params) && Sound(start) && Within(start, w.at) && Sound(w.at)
    requires Fresh(StartOf(body, s, start, |p.nodes|), w) && Unique(w)
    ensures LaidOut(body, s, start, FunctionOf(body, s, p, start, w))
  {
  }

  /** The ids of the parameters, in order. */
  method TakeInputs(launched: bool, s: Signature, first: nat, count: nat) returns (inputs: seq<seq<nat>>, next: nat)
    ensures inputs == InputIds(launched, s, first, count) && next == InputsEnd(launched, s, first, count)
  {
    inputs, next := [], first;
    for k := 0 to count
      invariant inputs == InputIds(launched, s, first, k) && next == InputsEnd(launched, s, first, k)
    {
      inputs := inputs + [FreshIds(next, InputCount(launched, s, k))];
      next := next + InputCount(launched, s, k);
    }
  }

  /** What a refusal of a function rests on. */
  ghost predicate RefusedFor(body: Body, s: Signature, why: FunctionRefusal)
    requires ValidBody(body)
  {
    match why
    case UnboundParameter(k) => k == |s.leaves| < ParamCount(body)
    case CannotPlan(refusal) => Justified(body, refusal)
    case CannotEmit(refusal) => IsMisfit(body, refusal)
    case NothingToGuard => Guarded(body, s) && |s.leaves| > ParamCount(body)
  }

  /** `emit_function`: bind the parameters, plan the body, write its blocks, guard it; every id from the cursor on. */
  method EmitFunction(body: Body, s: Signature, literals: Pool, cursor: nat)
    returns (r: Result<Function, FunctionRefusal>)
    requires ValidSsa(body) && Sound(literals.Now(cursor))
    modifies literals
    ensures r.Success? <==> Accepted(body, s)
    ensures r.Failure? ==> RefusedFor(body, s, r.error)
    ensures r.Success? ==>
      Emits(body, s, old(literals.Now(cursor)), r.value) && literals.Now(r.value.after.next) == r.value.after
  {
    var params := body.blocks[body.entry].params;
    if |params| > |s.leaves| { return Failure(UnboundParameter(|s.leaves|)); }
    var inputs, firstLabel := TakeInputs(body.lowering.launched, s, cursor + 1, |params|);
    var planned := PlanBody(body, cursor, firstLabel);
    if planned.Failure? { return Failure(CannotPlan(planned.error)); }
    r := EmitPlanned(body, s, literals, cursor, planned.value, inputs);
  }

  /** The function of a body that is planned, its parameters' ids taken. */
  method EmitPlanned(body: Body, s: Signature, literals: Pool, cursor: nat, plan: Plan, inputs: seq<seq<nat>>)
    returns (r: Result<Function, FunctionRefusal>)
    requires ValidSsa(body) && Sound(literals.Now(cursor)) && ParamCount(body) <= |s.leaves|
    requires PlanOf(body, cursor, FirstLabel(body, s, cursor), plan) && inputs == FunctionInputs(body, s, cursor)
    modifies literals
    ensures r.Success? <==> Accepted(body, s)
    ensures r.Failure? ==> RefusedFor(body, s, r.error)
    ensures r.Success? ==>
      Emits(body, s, old(literals.Now(cursor)), r.value) && literals.Now(r.value.after.next) == r.value.after
  {
    ghost var start := literals.Now(cursor);
    var missing := Guarded(body, s) && |s.leaves| > ParamCount(body);
    OrderRuns(body, s, plan, start);
    if !missing { FunctionFacts(body, s, plan, start); }
    var emitted := EmitBlocks(body, s, literals, cursor, plan, inputs);
    if emitted.Failure? { return Failure(CannotEmit(emitted.error)); }
    var work := emitted.value;
    if missing { return Failure(NothingToGuard); }
    return Success(Function(plan, inputs, work, TailGuard(body, s, work), AfterGuard(body, s, work.at)));
  }

  /** Emission is refused for a terminator that does not fit, or returns somewhere and keeps the parameters' ids. */
  lemma OrderRuns(body: Body, s: Signature, p: Plan, start: Cursor)
    requires ValidSsa(body) && PlanOf(body, start.next, FirstLabel(body, s, start.next), p) && Sound(start)
    ensures PlanIndexes(body, p) && forall i :: 0 <= i < |p.order| ==> p.order[i] < |p.nodes|
    ensures var r := EmitOrder(body, p, StartOf(body, s, start, |p.nodes|), p.order);
      (r.Failure? ==> IsMisfit(body, r.error)) &&
      (r.Success? ==> 0 < r.value.left && AllIn(r.value.slots, body.blocks[body.entry].params))
  {
    forall key | key in start.pool.ids ensures start.pool.ids[key] < start.next { DeclaredBelow(start, key); }
    FunctionRuns(body, s, p, start);
    if EmitOrder(body, p, StartOf(body, s, start, |p.nodes|), p.order).Success? { FunctionFills(body, s, p, start); }
  }

  /** The emitter, run over the plan's order. */
  method EmitBlocks(body: Body, s: Signature, literals: Pool, cursor: nat, plan: Plan, inputs: seq<seq<nat>>)
    returns (r: Result<Work, EmitRefusal>)
    requires ValidBody(body) && PlanOf(body, cursor, FirstLabel(body, s, cursor), plan)
    requires PlanIndexes(body, plan) && forall i :: 0 <= i < |plan.order| ==> plan.order[i] < |plan.nodes|
    requires inputs == FunctionInputs(body, s, cursor)
    requires var spec := EmitOrder(body, plan, StartOf(body, s, literals.Now(cursor), |plan.nodes|), plan.order);
      spec.Success? ==> 0 < spec.value.left
    modifies literals
    ensures
      r == EmitOrder(body, plan, StartOf(body, s, old(literals.Now(cursor)), |plan.nodes|), plan.order)
    ensures r.Success? ==> literals.Now(r.value.at.next) == r.value.at
  {
    var params := body.blocks[body.entry].params;
    var emitter := new Emitter(body, plan, literals, Assign(map[], params, Lasts(inputs)),
      FirstLabel(body, s, cursor) + plan.freshLabels);
    assert emitter.Now() == StartOf(body, s, literals.Now(cursor), |plan.nodes|);
    var emitted := emitter.EmitAll();
    if emitted.Failure? { return Failure(emitted.error); }
    if emitter.left == 0 { return Failure(NoReturn); }
    return Success(Work(emitter.slots, emitter.blocks, literals.Now(emitter.next), emitter.left));
  }
}
