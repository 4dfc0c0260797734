/**
Emitting a planned body: ids for values, one phi entry per predecessor, and each
block's branch. `slots` says which id a value of the body has.
 */
module Emission {
  import opened Options
  import opened Kernel
  import opened Scalars
  import opened Literals
  import opened Structure
  import opened Planner

  // ---- what is emitted ----

  /** An id brought to the form a position wants: `steps` are the ids of the conversion's instructions. */
  datatype Placement = Placement(from: nat, steps: seq<nat>)

  /**
  What a group of instructions does beside its placements: nothing, or compute `value`, perhaps into its `result`-th
  own id.
   */
  datatype Role = Still | Act(value: nat, result: Option<nat>)

  /** Instructions written together: the placements of what they read, then their own ids. */
  datatype Group = Group(placements: seq<Placement>, own: seq<nat>, role: Role)

  datatype Exit = Open | End | Leave(result: nat) | Goto(to: nat) | Choose(cond: nat, onTrue: nat, onFalse: nat)

  datatype MergeInst = NoMerge | LoopMergeInst(merge: nat, continueTo: nat) | SelectionMergeInst(merge: nat)

  /** One phi entry: the predecessor's label and the ids its edge passes. */
  datatype Incoming = Incoming(from: nat, args: seq<nat>)

  datatype EmittedBlock = EmittedBlock(params: seq<nat>, edges: seq<Incoming>, code: seq<Group>, merge: MergeInst,
    exit: Exit)

  /**
  The state the emission threads through: value slots, blocks, the id cursor with the literals, and how many returns
  were met.
   */
  datatype Work = Work(slots: map<nat, nat>, blocks: seq<EmittedBlock>, at: Cursor, left: nat)

  datatype EmitRefusal =
    | NoSlot
    | ArityDiffers(to: nat)
    | TwoValueLists(to: nat)
    | OneTargetTwoLists(block: nat)
    | ResultArity(left: nat)
    | NoReturn

  // ---- ids ----

  predicate AllIn(slots: map<nat, nat>, values: seq<nat>) {
    forall i :: 0 <= i < |values| ==> values[i] in slots
  }

  /** The ids of a list of values. */
  function Ids(slots: map<nat, nat>, values: seq<nat>): (r: seq<nat>)
    requires AllIn(slots, values)
    ensures |r| == |values| && forall i :: 0 <= i < |r| ==> r[i] == slots[values[i]]
  {
    seq(|values|, i requires 0 <= i < |values| => slots[values[i]])
  }

  /** `count` consecutive ids from the cursor. */
  function FreshIds(next: nat, count: nat): (r: seq<nat>)
    ensures |r| == count && forall i :: 0 <= i < count ==> r[i] == next + i
  {
    seq(count, i requires 0 <= i < count => next + i)
  }

  /** Give each value of the list its id, in order. */
  function Assign(slots: map<nat, nat>, values: seq<nat>, ids: seq<nat>): map<nat, nat>
    requires |values| == |ids|
  {
    if values == [] then slots
    else Assign(slots, values[..|values| - 1], ids[..|ids| - 1])[values[|values| - 1] := ids[|ids| - 1]]
  }

  // ---- operands ----

  /** A value as an operand: its id, and the number it is when it is a constant. */
  datatype Operand = Operand(id: nat, literal: Option<int>)

  /** The number a value is, when its definition is a constant. */
  function Constant(body: Body, v: nat): Option<int> {
    if v in body.lowering.forms && body.lowering.forms[v].Literal? then Some(body.lowering.forms[v].value) else None
  }

  function Operands(body: Body, slots: map<nat, nat>, values: seq<nat>): (r: seq<Operand>)
    requires AllIn(slots, values)
    ensures |r| == |values| && forall i :: 0 <= i < |r| ==> r[i] == Operand(slots[values[i]], Constant(body, values[i]))
  {
    seq(|values|, i requires 0 <= i < |values| => Operand(slots[values[i]], Constant(body, values[i])))
  }

  /** Ids that are no constants: the parameters an added block hands on. */
  function Plainly(ids: seq<nat>): (r: seq<Operand>)
    ensures |r| == |ids| && forall i :: 0 <= i < |r| ==> r[i] == Operand(ids[i], None)
  {
    seq(|ids|, i requires 0 <= i < |ids| => Operand(ids[i], None))
  }

  /** The id a placement leaves its value on. */
  function Yield(p: Placement): nat {
    if p.steps == [] then p.from else p.steps[|p.steps| - 1]
  }

  function Yields(ps: seq<Placement>): (r: seq<nat>)
    ensures |r| == |ps| && forall i :: 0 <= i < |r| ==> r[i] == Yield(ps[i])
  {
    seq(|ps|, i requires 0 <= i < |ps| => Yield(ps[i]))
  }

  function DemandAt(demands: seq<Demand>, i: nat): Demand {
    if i < |demands| then demands[i] else AsIs
  }

  /** `as_class` and `as_condition`: a constant is asked for in the class wanted; then the conversion takes its ids. */
  function Place(c: Cursor, o: Operand, d: Demand): (Placement, Cursor) {
    match d
    case AsIs => (Placement(o.id, []), c)
    case InClass(kind, steps) =>
      var (from, asked) := if o.literal.Some? then Ask(c, (kind, o.literal.value)) else (o.id, c);
      (Placement(from, FreshIds(asked.next, steps)), asked.(next := asked.next + steps))
  }

  function PlaceAll(c: Cursor, os: seq<Operand>, demands: seq<Demand>): (r: (seq<Placement>, Cursor))
    ensures |r.0| == |os|
  {
    if os == [] then ([], c)
    else
      var last := |os| - 1;
      var (ps, mid) := PlaceAll(c, os[..last], demands);
      var (p, after) := Place(mid, os[last], DemandAt(demands, last));
      (ps + [p], after)
  }

  // ---- edges ----

  function FindEdge(edges: seq<Incoming>, from: nat): Option<Incoming> {
    if edges == [] then None
    else if edges[0].from == from then Some(edges[0])
    else FindEdge(edges[1..], from)
  }

  /** The values a node receives: a real block's parameters, none for an added block. */
  function Received(body: Body, node: nat): seq<nat> {
    if node < |body.blocks| then body.blocks[node].params else []
  }

  /** The first edge into a node fixes the ids of its parameters. */
  function FixParams(body: Body, w: Work, to: nat, arity: nat): (r: Work)
    requires to < |w.blocks| && |Received(body, to)| <= arity
    ensures |r.blocks| == |w.blocks|
  {
    if arity > 0 && w.blocks[to].params == [] then
      var ids := FreshIds(w.at.next, arity);
      w.(blocks := w.blocks[to := w.blocks[to].(params := ids)],
         slots := Assign(w.slots, Received(body, to), ids[..|Received(body, to)|]),
         at := w.at.(next := w.at.next + arity))
    else w
  }

  function Append(w: Work, u: nat, g: Group): (r: Work)
    requires u < |w.blocks|
    ensures |r.blocks| == |w.blocks|
  {
    w.(blocks := w.blocks[u := w.blocks[u].(code := w.blocks[u].code + [g])])
  }

  function PushEdge(w: Work, to: nat, e: Incoming): (r: Work)
    requires to < |w.blocks|
    ensures |r.blocks| == |w.blocks|
  {
    w.(blocks := w.blocks[to := w.blocks[to].(edges := w.blocks[to].edges + [e])])
  }

  /** What the edges already there want of the `k`-th edge out of node `u`. */
  function Wanted(body: Body, u: nat, k: nat): seq<Demand> {
    if (u, k) in body.lowering.passes then body.lowering.passes[(u, k)] else []
  }

  /** The first edge passes what it has; a later one brings it to the form the first one fixed. */
  function Passed(body: Body, w: Work, to: nat, arity: nat, u: nat, k: nat, os: seq<Operand>): (seq<Placement>, Cursor)
    requires to < |w.blocks| && |Received(body, to)| <= arity
  {
    if arity > 0 && w.blocks[to].params == [] then PlaceAll(FixParams(body, w, to, arity).at, os, [])
    else PlaceAll(w.at, os, Wanted(body, u, k))
  }

  /** `record`: the `k`-th edge out of node `u`, and what it passes. */
  function Record(body: Body, p: Plan, w: Work, u: nat, k: nat, os: seq<Operand>): (r: Result<Work, EmitRefusal>)
    requires PlanIndexes(body, p) && |w.blocks| == |p.nodes| && u < |p.nodes| && k < |p.targets[u]|
    ensures r.Success? ==> |r.value.blocks| == |w.blocks|
  {
    var to := p.targets[u][k];
    if |os| != p.arities[to] then Failure(ArityDiffers(to))
    else
      var (ps, after) := Passed(body, w, to, p.arities[to], u, k, os);
      var fixed := Append(FixParams(body, w, to, p.arities[to]).(at := after), u, Group(ps, [], Still));
      match FindEdge(fixed.blocks[to].edges, p.labels[u])
      case Some(seen) => if seen.args != Yields(ps) then Failure(TwoValueLists(to)) else Success(fixed)
      case None => Success(PushEdge(fixed, to, Incoming(p.labels[u], Yields(ps))))
  }

  /** What the plan must look like for the emission to index it: every list as long as the nodes. */
  predicate PlanIndexes(body: Body, p: Plan) {
    && |p.labels| == |p.arities| == |p.targets| == |p.nodes|
    && |body.blocks| <= |p.nodes|
    && |p.merges| == |p.loopBodies| == |body.blocks|
    && (forall i: nat :: i < |p.nodes| ==> |Received(body, i)| <= p.arities[i])
    && (forall i: nat, k: nat :: i < |p.nodes| && k < |p.targets[i]| ==> p.targets[i][k] < |p.nodes|)
    && (forall i: nat :: i < |p.nodes| ==> |p.targets[i]| == TargetCount(body, p, i))
    && (forall i: nat :: i < |body.blocks| && p.loopBodies[i].Some? ==>
         p.loopBodies[i].value < |p.nodes| && body.blocks[i].terminator.CondBr?)
    && (forall i: nat :: i < |body.blocks| && TargetCount(body, p, i) == 2 ==>
         p.merges[i].Some? && p.merges[i].value < |p.nodes|)
  }

  /** How many targets a node's terminator keeps: two arms to one block are one. */
  function TargetCount(body: Body, p: Plan, node: nat): nat
    requires |p.loopBodies| == |body.blocks|
  {
    if node >= |body.blocks| then 1
    else
      match body.blocks[node].terminator
      case Return(_) => 0
      case Br(_) => 1
      case CondBr(_, ifTrue, ifFalse) =>
        if p.loopBodies[node].None? && ifTrue.target == ifFalse.target then 1 else 2
  }

  /** The branch behind a real node's `k`-th target: a loop header lists the branch that stays first. */
  function BranchOf(body: Body, p: Plan, u: nat, k: nat): Branch
    requires PlanIndexes(body, p) && u < |body.blocks| && k < TargetCount(body, p, u)
  {
    match body.blocks[u].terminator
    case Return(_) => Branch(0, [])
    case Br(to) => to
    case CondBr(_, ifTrue, ifFalse) =>
      var staysFirst := p.loopBodies[u].None? || ifTrue.target == p.loopBodies[u].value;
      if (k == 0) == staysFirst then ifTrue else ifFalse
  }

  /** Record the edge to the `k`-th target of real block `u`. */
  function RecordBranch(body: Body, p: Plan, w: Work, u: nat, k: nat): (r: Result<Work, EmitRefusal>)
    requires PlanIndexes(body, p) && |w.blocks| == |p.nodes| && u < |body.blocks| && k < TargetCount(body, p, u)
    ensures r.Success? ==> |r.value.blocks| == |w.blocks|
  {
    var args := BranchOf(body, p, u, k).args;
    if !AllIn(w.slots, args) then Failure(NoSlot) else Record(body, p, w, u, k, Operands(body, w.slots, args))
  }

  /** A loop header reads both branches' arguments before it records either edge. */
  function RecordLoop(body: Body, p: Plan, w: Work, u: nat): (r: Result<Work, EmitRefusal>)
    requires PlanIndexes(body, p) && |w.blocks| == |p.nodes| && u < |body.blocks| && TargetCount(body, p, u) == 2
    ensures r.Success? ==> |r.value.blocks| == |w.blocks|
  {
    var stay, leave := BranchOf(body, p, u, 0).args, BranchOf(body, p, u, 1).args;
    if !AllIn(w.slots, stay) || !AllIn(w.slots, leave) then Failure(NoSlot)
    else
      match Record(body, p, w, u, 0, Operands(body, w.slots, stay))
      case Failure(e) => Failure(e)
      case Success(first) => Record(body, p, first, u, 1, Operands(body, w.slots, leave))
  }

  // ---- the branch ----

  /** The form a block's test, or the value it returns, is wanted in. */
  function Tested(body: Body, u: nat): Demand {
    if u in body.lowering.tests then body.lowering.tests[u] else AsIs
  }

  /** Bring one value to the form a block's end wants. */
  function Test(body: Body, w: Work, u: nat, v: nat): (r: Work)
    requires u < |w.blocks| && v in w.slots
    ensures |r.blocks| == |w.blocks|
  {
    var (placed, after) := Place(w.at, Operand(w.slots[v], Constant(body, v)), Tested(body, u));
    Append(w.(at := after), u, Group([placed], [], Still))
  }

  /** `terminator`: what the branch reads, then the edges. */
  function Terminate(body: Body, p: Plan, w: Work, u: nat): (r: Result<Work, EmitRefusal>)
    requires PlanIndexes(body, p) && |w.blocks| == |p.nodes| && u < |body.blocks|
    ensures r.Success? ==> |r.value.blocks| == |w.blocks|
  {
    match body.blocks[u].terminator
    case Return(values) =>
      if |values| != 1 || values[0] !in w.slots then Failure(ResultArity(|values|))
      else
        var counted := w.(left := w.left + 1);
        Success(if body.lowering.launched then counted else Test(body, counted, u, values[0]))
    case Br(_) => RecordBranch(body, p, w, u, 0)
    case CondBr(cond, ifTrue, ifFalse) =>
      if cond !in w.slots then Failure(NoSlot)
      else
        var tested := Test(body, w, u, cond);
        if TargetCount(body, p, u) == 1 then
          if ifTrue.args != ifFalse.args then Failure(OneTargetTwoLists(u))
          else RecordBranch(body, p, tested, u, 0)
        else if p.loopBodies[u].Some? then RecordLoop(body, p, tested, u)
        else
          match RecordBranch(body, p, tested, u, 0)
          case Failure(e) => Failure(e)
          case Success(first) => RecordBranch(body, p, first, u, 1)
  }

  /** The id a block's end reads: what its test group leaves, after the groups of its instructions. */
  function TestId(code: seq<Group>, at: nat): nat {
    if at < |code| && code[at].placements != [] then Yield(code[at].placements[0]) else 0
  }

  /** The branch instruction: which label each truth value goes to. */
  function ExitOf(body: Body, p: Plan, code: seq<Group>, u: nat): Exit
    requires PlanIndexes(body, p) && u < |p.nodes|
  {
    if u >= |body.blocks| then Goto(p.labels[p.targets[u][0]])
    else
      var tested := TestId(code, |body.blocks[u].instrs|);
      match body.blocks[u].terminator
      case Return(_) => if body.lowering.launched then End else Leave(tested)
      case Br(_) => Goto(p.labels[p.targets[u][0]])
      case CondBr(cond, ifTrue, _) =>
        if TargetCount(body, p, u) == 1 then Goto(p.labels[p.targets[u][0]])
        else if p.loopBodies[u].Some? && ifTrue.target != p.loopBodies[u].value then
          Choose(tested, p.labels[p.targets[u][1]], p.labels[p.targets[u][0]])
        else Choose(tested, p.labels[p.targets[u][0]], p.labels[p.targets[u][1]])
  }

  function MergeOf(body: Body, p: Plan, u: nat): MergeInst
    requires PlanIndexes(body, p) && u < |p.nodes|
  {
    if u >= |body.blocks| || TargetCount(body, p, u) != 2 then NoMerge
    else if p.loopBodies[u].Some? then LoopMergeInst(p.labels[p.targets[u][1]], p.labels[p.loopBodies[u].value])
    else SelectionMergeInst(p.labels[p.merges[u].value])
  }

  function Close(body: Body, p: Plan, w: Work, u: nat): (r: Work)
    requires PlanIndexes(body, p) && u < |p.nodes| == |w.blocks|
    ensures |r.blocks| == |w.blocks|
  {
    w.(blocks := w.blocks[u := w.blocks[u].(merge := MergeOf(body, p, u),
      exit := ExitOf(body, p, w.blocks[u].code, u))])
  }

  // ---- instructions ----

  /** The slots once an instruction's result is on an id. */
  function Result(w: Work, v: nat, own: seq<nat>, result: Option<nat>): map<nat, nat> {
    if result.Some? && result.value < |own| then w.slots[v := own[result.value]] else w.slots
  }

  /** One instruction, in the form its lowering gives it. */
  function Instruction(body: Body, w: Work, u: nat, v: nat): (r: Result<Work, EmitRefusal>)
    requires u < |w.blocks|
    ensures r.Success? ==> |r.value.blocks| == |w.blocks|
  {
    if v !in body.lowering.forms || v !in body.operands || !AllIn(w.slots, body.operands[v]) then Failure(NoSlot)
    else
      var os := Operands(body, w.slots, body.operands[v]);
      match body.lowering.forms[v]
      case Literal(kind, value) =>
        var (id, after) := Ask(w.at, (kind, value));
        Success(Append(w.(slots := w.slots[v := id], at := after), u, Group([], [], Still)))
      case Same(demand) =>
        if os == [] then Failure(NoSlot)
        else
          var (placed, after) := Place(w.at, os[0], demand);
          Success(Append(w.(slots := w.slots[v := Yield(placed)], at := after), u, Group([placed], [], Still)))
      case Computed(demands, count, result) =>
        var (ps, after) := PlaceAll(w.at, os, demands);
        var own := FreshIds(after.next, count);
        Success(Append(w.(slots := Result(w, v, own, result), at := after.(next := after.next + count)), u,
          Group(ps, own, Act(v, result))))
  }

  /** The instructions of a list, in order. */
  function Instructions(body: Body, w: Work, u: nat, instrs: seq<nat>): (r: Result<Work, EmitRefusal>)
    requires u < |w.blocks|
    ensures r.Success? ==> |r.value.blocks| == |w.blocks|
  {
    if instrs == [] then Success(w)
    else
      match Instructions(body, w, u, instrs[..|instrs| - 1])
      case Failure(e) => Failure(e)
      case Success(before) => Instruction(body, before, u, instrs[|instrs| - 1])
  }

  /** One node of the writing order. */
  function EmitNode(body: Body, p: Plan, w: Work, u: nat): (r: Result<Work, EmitRefusal>)
    requires PlanIndexes(body, p) && |w.blocks| == |p.nodes| && u < |p.nodes|
    ensures r.Success? ==> |r.value.blocks| == |w.blocks|
  {
    if u < |body.blocks| then
      match Instructions(body, w, u, body.blocks[u].instrs)
      case Failure(e) => Failure(e)
      case Success(computed) =>
        match Terminate(body, p, computed, u)
        case Failure(e) => Failure(e)
        case Success(ended) => Success(Close(body, p, ended, u))
    else
      match Record(body, p, w, u, 0, Plainly(w.blocks[u].params))
      case Failure(e) => Failure(e)
      case Success(ended) => Success(Close(body, p, ended, u))
  }
}
