/** Kernel bodies: SSA over named values, blocks that take arguments, and terminators. */
module Kernel {
  import opened Graphs
  import opened Options
  import opened Scalars

  /** A branch and the values it hands to its target's parameters. */
  datatype Branch = Branch(target: nat, args: seq<nat>)

  datatype Terminator =
    | Return(values: seq<nat>)
    | Br(to: Branch)
    | CondBr(cond: nat, ifTrue: Branch, ifFalse: Branch)

  /** The values a block receives, the values it computes, and where it goes. */
  datatype Block = Block(params: seq<nat>, instrs: seq<nat>, terminator: Terminator)

  /**
  What a position wants of the value it is given: nothing, or the value in a class. A constant
  becomes that class's constant; then come as many conversion instructions as the change needs.
   */
  datatype Demand = AsIs | InClass(kind: Class, steps: nat)

  /**
  How an instruction is lowered: a constant, its operand under another name, or instructions
  with ids of their own, one of which may hold the result.
   */
  datatype Form =
    | Literal(kind: Class, value: int)
    | Same(demand: Demand)
    | Computed(demands: seq<Demand>, own: nat, result: Option<nat>)

  /**
  Each instruction's form, what each block's test or returned value has to be, what each
  emitted edge has to pass, and whether the body is the entry point, which returns nothing.
   */
  datatype Lowering = Lowering(forms: map<nat, Form>, tests: map<nat, Demand>, passes: map<(nat, nat), seq<Demand>>,
    launched: bool)

  /** `operands` names, for every value an instruction defines, the values it reads. */
  datatype Body = Body(blocks: seq<Block>, operands: map<nat, seq<nat>>, entry: nat, lowering: Lowering)

  /** Nothing to lower: no instruction, and nothing to convert. */
  function Bare(): Lowering {
    Lowering(map[], map[], map[], false)
  }

  function Branches(t: Terminator): seq<Branch> {
    match t
    case Return(_) => []
    case Br(to) => [to]
    case CondBr(_, ifTrue, ifFalse) => [ifTrue, ifFalse]
  }

  function Successors(t: Terminator): seq<nat> {
    match t
    case Return(_) => []
    case Br(to) => [to.target]
    case CondBr(_, ifTrue, ifFalse) => [ifTrue.target, ifFalse.target]
  }

  /** The control-flow graph: each block's targets in the order its terminator names them. */
  function Flow(body: Body): (g: Graph)
    ensures |g| == |body.blocks|
  {
    seq(|body.blocks|, i requires 0 <= i < |body.blocks| => Successors(body.blocks[i].terminator))
  }

  ghost predicate BranchFits(body: Body, b: Branch) {
    b.target < |body.blocks| && |b.args| == |body.blocks[b.target].params|
  }

  /** What the body's own gate grants before a body is emitted: targets exist and arities match. */
  ghost predicate ValidBody(body: Body) {
    && body.entry < |body.blocks|
    && forall i, b :: 0 <= i < |body.blocks| && b in Branches(body.blocks[i].terminator) ==> BranchFits(body, b)
  }

  lemma FlowIsValid(body: Body)
    requires ValidBody(body)
    ensures ValidGraph(Flow(body))
    ensures forall i: nat, b :: i < |body.blocks| && b in Branches(body.blocks[i].terminator) ==>
      Edge(Flow(body), i, b.target)
  {
    var g := Flow(body);
    forall u, k | 0 <= u < |g| && 0 <= k < |g[u]| ensures g[u][k] < |g| {
      var t := body.blocks[u].terminator;
      assert Branches(t)[k] in Branches(body.blocks[u].terminator);
      assert BranchFits(body, Branches(t)[k]) && g[u][k] == Branches(t)[k].target;
    }
    forall i: nat, b | i < |body.blocks| && b in Branches(body.blocks[i].terminator) ensures Edge(g, i, b.target) {
      var t := body.blocks[i].terminator;
      var k :| 0 <= k < |Branches(t)| && Branches(t)[k] == b;
      assert g[i][k] == b.target;
    }
  }
}
