/** Which numeric class a value is computed in. */
module Classes {
  import opened Options
  import opened Kernel
  import opened Scalars

  // Parameters and selects take theirs from what reads them and what feeds them, and those
  // can feed each other in circles; the parameters under resolution bound the walk.

  /**
  What an instruction says: a constant its class, a select nothing, any other its result's class and its operands'.
   */
  datatype Op = Constant(kind: Class) | Select | Plain(own: Option<Class>, operands: seq<Option<Class>>)

  datatype Definition = Parameter(block: nat, index: nat) | Instruction(op: Op, args: seq<nat>)

  /** A body with the definition of each of its values. */
  datatype Program = Program(body: Body, defs: seq<Definition>)

  datatype ClassRefusal = ParameterDisagrees(parameter: nat, classes: seq<Class>) | ArmsDisagree(classes: seq<Class>)

  function Index(c: Class): nat {
    match c
    case IntClass => 0
    case FloatClass => 1
    case BFloat16Class => 2
  }

  /** Two different classes, in their order. */
  function InOrder(a: Class, b: Class): seq<Class> {
    if Index(a) < Index(b) then [a, b] else [b, a]
  }

  /** The class an instruction computes its operand at a position in, when it fixes one. */
  function OperandClass(op: Op, position: nat): Option<Class> {
    if op.Plain? && position < |op.operands| then op.operands[position] else None
  }

  /** One more opinion on a parameter's class. */
  function Merge(stated: Option<Class>, kind: Class, parameter: nat): Result<Option<Class>, ClassRefusal> {
    if stated.Some? && stated.value != kind then Failure(ParameterDisagrees(parameter, InOrder(stated.value, kind)))
    else Success(Some(kind))
  }

  /** The value lists of the edges into a block: one per block that branches to it. */
  function Carried(t: Terminator, block: nat): seq<seq<nat>> {
    match t
    case Return(_) => []
    case Br(to) => if to.target == block then [to.args] else []
    case CondBr(_, ifTrue, ifFalse) =>
      if ifTrue.target == block then [ifTrue.args] else if ifFalse.target == block then [ifFalse.args] else []
  }

  function IncomingUpTo(blocks: seq<Block>, block: nat, k: nat): seq<seq<nat>>
    requires k <= |blocks|
  {
    if k == 0 then [] else IncomingUpTo(blocks, block, k - 1) + Carried(blocks[k - 1].terminator, block)
  }

  function IncomingEdges(p: Program, block: nat): seq<seq<nat>> {
    IncomingUpTo(p.body.blocks, block, |p.body.blocks|)
  }

  // ---- what bounds the walk ----

  ghost function Parameters(p: Program): set<nat> {
    set v: nat | v < |p.defs| && p.defs[v].Parameter?
  }

  /** How many parameters are not under resolution. */
  ghost function Unvisited(p: Program, visiting: seq<nat>): nat {
    |Parameters(p) - set v | v in visiting|
  }

  lemma OneMoreVisited(p: Program, visiting: seq<nat>, v: nat)
    requires v in Parameters(p) && v !in visiting
    ensures Unvisited(p, visiting + [v]) == Unvisited(p, visiting) - 1
  {
    var before := Parameters(p) - set x | x in visiting;
    var after := Parameters(p) - set x | x in visiting + [v];
    assert after == before - {v};
  }

  /** Operands come before the instructions that read them, and parameters belong to blocks. */
  ghost predicate Ranked(p: Program, rank: seq<nat>) {
    && |rank| == |p.defs|
    && forall v: nat :: v < |p.defs| ==> DefinitionFits(p, rank, v)
  }

  ghost predicate DefinitionFits(p: Program, rank: seq<nat>, v: nat)
    requires |rank| == |p.defs| && v < |p.defs|
  {
    match p.defs[v]
    case Parameter(block, _) => block < |p.body.blocks|
    case Instruction(_, args) => forall a :: a in args ==> RankOf(p, rank, a) < RankOf(p, rank, v)
  }

  ghost function RankOf(p: Program, rank: seq<nat>, v: nat): nat
    requires |rank| == |p.defs|
  {
    if v < |p.defs| && p.defs[v].Instruction? then rank[v] + 1 else 0
  }

  // ---- the four questions ----

  /** The class a value is computed in. */
  ghost function ValueClass(p: Program, rank: seq<nat>, root: Class, v: nat,
      visiting: seq<nat>): Result<Class, ClassRefusal>
    requires Ranked(p, rank)
    decreases 2 * Unvisited(p, visiting), RankOf(p, rank, v), 1
  {
    if v >= |p.defs| then Success(root)
    else
      assert DefinitionFits(p, rank, v);
      match p.defs[v]
      case Instruction(Constant(kind), _) => Success(kind)
      case Instruction(Select, args) => SelectClass(p, rank, root, args, RankOf(p, rank, v), visiting)
      case Instruction(Plain(own, _), _) => Success(if own.Some? then own.value else root)
      case Parameter(block, index) =>
        match ReadClass(p, rank, root, block, v, visiting)
        case Failure(e) => Failure(e)
        case Success(Some(kind)) => Success(kind)
        case Success(None) =>
          if v in visiting then Success(root)
          else
            OneMoreVisited(p, visiting, v);
            match EdgeClass(p, rank, root, IncomingEdges(p, block), |IncomingEdges(p, block)|, index, v, visiting + [v])
            case Failure(e) => Failure(e)
            case Success(stated) => Success(if stated.Some? then stated.value else root)
  }

  /** The class the first `k` edges carry for a parameter. */
  ghost function EdgeClass(p: Program, rank: seq<nat>, root: Class, edges: seq<seq<nat>>, k: nat, index: nat,
      parameter: nat, visiting: seq<nat>): Result<Option<Class>, ClassRefusal>
    requires Ranked(p, rank) && k <= |edges|
    decreases 2 * Unvisited(p, visiting) + 1, k
  {
    if k == 0 then Success(None)
    else
      match EdgeClass(p, rank, root, edges, k - 1, index, parameter, visiting)
      case Failure(e) => Failure(e)
      case Success(stated) =>
        if index >= |edges[k - 1]| then Success(stated)
        else
          match ValueClass(p, rank, root, edges[k - 1][index], visiting)
          case Failure(e) => Failure(e)
          case Success(kind) => Merge(stated, kind, parameter)
  }

  /** The class the arms of a select are computed in; `above` is above both arms' ranks. */
  ghost function SelectClass(p: Program, rank: seq<nat>, root: Class, args: seq<nat>, above: nat,
      visiting: seq<nat>): Result<Class, ClassRefusal>
    requires Ranked(p, rank) && forall a :: a in args ==> RankOf(p, rank, a) < above
    decreases 2 * Unvisited(p, visiting), above, 0
  {
    if |args| < 2 then Success(root)
    else
      match ValueClass(p, rank, root, args[0], visiting)
      case Failure(e) => Failure(e)
      case Success(one) =>
        match ValueClass(p, rank, root, args[1], visiting)
        case Failure(e) => Failure(e)
        case Success(other) => if one != other then Failure(ArmsDisagree(InOrder(one, other))) else Success(one)
  }

  /** The class a block's own instructions read a parameter in. */
  ghost function ReadClass(p: Program, rank: seq<nat>, root: Class, block: nat, parameter: nat,
      visiting: seq<nat>): Result<Option<Class>, ClassRefusal>
    requires Ranked(p, rank) && block < |p.body.blocks| && parameter in Parameters(p)
    decreases 2 * Unvisited(p, visiting), 0, 0
  {
    if parameter in visiting then Success(None)
    else
      OneMoreVisited(p, visiting, parameter);
      StatedClass(p, rank, root, p.body.blocks[block].instrs, |p.body.blocks[block].instrs|, parameter,
        visiting + [parameter])
  }

  /** What the first `i` instructions say. */
  ghost function StatedClass(p: Program, rank: seq<nat>, root: Class, instrs: seq<nat>, i: nat, parameter: nat,
      visiting: seq<nat>): Result<Option<Class>, ClassRefusal>
    requires Ranked(p, rank) && i <= |instrs|
    decreases 2 * Unvisited(p, visiting) + 1, i, 0
  {
    if i == 0 then Success(None)
    else
      match StatedClass(p, rank, root, instrs, i - 1, parameter, visiting)
      case Failure(e) => Failure(e)
      case Success(stated) =>
        if instrs[i - 1] >= |p.defs| || !p.defs[instrs[i - 1]].Instruction? then Success(stated)
        else OperandsClass(p, rank, root, instrs[i - 1], i, |p.defs[instrs[i - 1]].args|, parameter, stated, visiting)
  }

  /** What the first `j` operands of one instruction add. */
  ghost function OperandsClass(p: Program, rank: seq<nat>, root: Class, d: nat, i: nat, j: nat, parameter: nat,
      before: Option<Class>, visiting: seq<nat>): Result<Option<Class>, ClassRefusal>
    requires Ranked(p, rank) && d < |p.defs| && p.defs[d].Instruction? && j <= |p.defs[d].args| && 0 < i
    decreases 2 * Unvisited(p, visiting) + 1, i - 1, j + 1
  {
    if j == 0 then Success(before)
    else
      var args := p.defs[d].args;
      match OperandsClass(p, rank, root, d, i, j - 1, parameter, before, visiting)
      case Failure(e) => Failure(e)
      case Success(stated) =>
        if args[j - 1] != parameter then Success(stated)
        else if OperandClass(p.defs[d].op, j - 1).Some? then
          Merge(stated, OperandClass(p.defs[d].op, j - 1).value, parameter)
        else if p.defs[d].op.Select? && j - 1 != 2 then
          assert DefinitionFits(p, rank, d);
          match SelectClass(p, rank, root, args, RankOf(p, rank, d), visiting)
          case Failure(e) => Failure(e)
          case Success(kind) => Merge(stated, kind, parameter)
        else Success(stated)
  }

  // ---- a refusal ends a walk ----

  lemma {:induction false} StatedRefused(p: Program, rank: seq<nat>, root: Class, instrs: seq<nat>, i: nat, n: nat,
      parameter: nat, visiting: seq<nat>)
    requires Ranked(p, rank) && i <= n <= |instrs| &&
      StatedClass(p, rank, root, instrs, i, parameter, visiting).Failure?
    ensures StatedClass(p, rank, root, instrs, n, parameter, visiting) ==
      StatedClass(p, rank, root, instrs, i, parameter, visiting)
    decreases n
  {
    if i < n { StatedRefused(p, rank, root, instrs, i, n - 1, parameter, visiting); }
  }

  lemma {:induction false} OperandsRefused(p: Program, rank: seq<nat>, root: Class, d: nat, i: nat, j: nat, n: nat,
      parameter: nat, before: Option<Class>, visiting: seq<nat>)
    requires Ranked(p, rank) && d < |p.defs| && p.defs[d].Instruction? && j <= n <= |p.defs[d].args| && 0 < i
    requires OperandsClass(p, rank, root, d, i, j, parameter, before, visiting).Failure?
    ensures OperandsClass(p, rank, root, d, i, n, parameter, before, visiting) ==
      OperandsClass(p, rank, root, d, i, j, parameter, before, visiting)
    decreases n
  {
    if j < n { OperandsRefused(p, rank, root, d, i, j, n - 1, parameter, before, visiting); }
  }

  lemma {:induction false} EdgesRefused(p: Program, rank: seq<nat>, root: Class, edges: seq<seq<nat>>, k: nat, n: nat,
      index: nat, parameter: nat, visiting: seq<nat>)
    requires Ranked(p, rank) && k <= n <= |edges| &&
      EdgeClass(p, rank, root, edges, k, index, parameter, visiting).Failure?
    ensures EdgeClass(p, rank, root, edges, n, index, parameter, visiting) ==
      EdgeClass(p, rank, root, edges, k, index, parameter, visiting)
    decreases n
  {
    if k < n { EdgesRefused(p, rank, root, edges, k, n - 1, index, parameter, visiting); }
  }

  // ---- the resolver ----

  /** The resolver, with the parameters it is in the middle of. */
  class Resolver {
    const program: Program
    const root: Class
    ghost const rank: seq<nat>
    var visiting: seq<nat>

    constructor (program: Program, root: Class, ghost rank: seq<nat>)
      ensures this.program == program && this.root == root && this.rank == rank && visiting == []
    {
      this.program, this.root, this.rank, this.visiting := program, root, rank, [];
    }

    method ValueOf(v: nat) returns (r: Result<Class, ClassRefusal>)
      requires Ranked(program, rank)
      modifies this
      ensures r == ValueClass(program, rank, root, v, old(visiting))
      ensures old(visiting) <= visiting && (r.Success? ==> visiting == old(visiting))
      decreases 2 * Unvisited(program, visiting), RankOf(program, rank, v), 1
    {
      if v >= |program.defs| { return Success(root); }
      assert DefinitionFits(program, rank, v);
      match program.defs[v] {
        case Instruction(Constant(kind), _) => return Success(kind);
        case Instruction(Select, args) => r := SelectOf(args, RankOf(program, rank, v));
        case Instruction(Plain(own, _), _) => return Success(if own.Some? then own.value else root);
        case Parameter(block, index) =>
          var read := ReadOf(block, v);
          if read.Failure? { return Failure(read.error); }
          if read.value.Some? { return Success(read.value.value); }
          if v in visiting { return Success(root); }
          OneMoreVisited(program, visiting, v);
          visiting := visiting + [v];
          var stated := EdgesOf(IncomingEdges(program, block), index, v);
          if stated.Failure? { return Failure(stated.error); }
          visiting := visiting[..|visiting| - 1];
          return Success(if stated.value.Some? then stated.value.value else root);
      }
    }

    method EdgesOf(edges: seq<seq<nat>>, index: nat, parameter: nat) returns (r: Result<Option<Class>, ClassRefusal>)
      requires Ranked(program, rank)
      modifies this
      ensures r == EdgeClass(program, rank, root, edges, |edges|, index, parameter, old(visiting))
      ensures old(visiting) <= visiting && (r.Success? ==> visiting == old(visiting))
      decreases 2 * Unvisited(program, visiting) + 1, 0
    {
      var stated := None;
      var k := 0;
      while k < |edges|
        invariant 0 <= k <= |edges| && visiting == old(visiting)
        invariant EdgeClass(program, rank, root, edges, k, index, parameter, visiting) == Success(stated)
      {
        k := k + 1;
        if index < |edges[k - 1]| {
          var kind := ValueOf(edges[k - 1][index]);
          var merged := if kind.Failure? then Failure(kind.error) else Merge(stated, kind.value, parameter);
          if merged.Failure? {
            EdgesRefused(program, rank, root, edges, k, |edges|, index, parameter, old(visiting));
            return Failure(merged.error);
          }
          stated := merged.value;
        }
      }
      return Success(stated);
    }

    method SelectOf(args: seq<nat>, ghost above: nat) returns (r: Result<Class, ClassRefusal>)
      requires Ranked(program, rank) && forall a :: a in args ==> RankOf(program, rank, a) < above
      modifies this
      ensures r == SelectClass(program, rank, root, args, above, old(visiting))
      ensures old(visiting) <= visiting && (r.Success? ==> visiting == old(visiting))
      decreases 2 * Unvisited(program, visiting), above, 0
    {
      if |args| < 2 { return Success(root); }
      var one := ValueOf(args[0]);
      if one.Failure? { return one; }
      var other := ValueOf(args[1]);
      if other.Failure? { return other; }
      if one.value != other.value { return Failure(ArmsDisagree(InOrder(one.value, other.value))); }
      return one;
    }

    method ReadOf(block: nat, parameter: nat) returns (r: Result<Option<Class>, ClassRefusal>)
      requires Ranked(program, rank) && block < |program.body.blocks| && parameter in Parameters(program)
      modifies this
      ensures r == ReadClass(program, rank, root, block, parameter, old(visiting))
      ensures old(visiting) <= visiting && (r.Success? ==> visiting == old(visiting))
      decreases 2 * Unvisited(program, visiting), 0, 0
    {
      if parameter in visiting { return Success(None); }
      OneMoreVisited(program, visiting, parameter);
      visiting := visiting + [parameter];
      r := StatedIn(program.body.blocks[block].instrs, parameter);
      visiting := visiting[..|visiting| - 1];
    }

    method StatedIn(instrs: seq<nat>, parameter: nat) returns (r: Result<Option<Class>, ClassRefusal>)
      requires Ranked(program, rank)
      modifies this
      ensures r == StatedClass(program, rank, root, instrs, |instrs|, parameter, old(visiting))
      ensures old(visiting) <= visiting && (r.Success? ==> visiting == old(visiting))
      decreases 2 * Unvisited(program, visiting) + 1, 1
    {
      var stated := None;
      var i := 0;
      while i < |instrs|
        invariant 0 <= i <= |instrs| && visiting == old(visiting)
        invariant StatedClass(program, rank, root, instrs, i, parameter, visiting) == Success(stated)
      {
        var d := instrs[i];
        i := i + 1;
        if d < |program.defs| && program.defs[d].Instruction? {
          var after := OperandsOf(d, i, parameter, stated);
          if after.Failure? {
            StatedRefused(program, rank, root, instrs, i, |instrs|, parameter, old(visiting));
            return after;
          }
          stated := after.value;
        }
      }
      return Success(stated);
    }

    method OperandsOf(d: nat, ghost i: nat, parameter: nat, before: Option<Class>)
      returns (r: Result<Option<Class>, ClassRefusal>)
      requires Ranked(program, rank) && d < |program.defs| && program.defs[d].Instruction? && 0 < i
      modifies this
      ensures r == OperandsClass(program, rank, root, d, i, |program.defs[d].args|, parameter, before, old(visiting))
      ensures old(visiting) <= visiting && (r.Success? ==> visiting == old(visiting))
      decreases 2 * Unvisited(program, visiting) + 1, 0
    {
      var args, op := program.defs[d].args, program.defs[d].op;
      assert DefinitionFits(program, rank, d);
      var stated := before;
      var j := 0;
      while j < |args|
        invariant 0 <= j <= |args| && visiting == old(visiting)
        invariant OperandsClass(program, rank, root, d, i, j, parameter, before, visiting) == Success(stated)
      {
        j := j + 1;
        if args[j - 1] == parameter {
          var fixed := OperandClass(op, j - 1);
          var merged := Success(stated);
          if fixed.Some? {
            merged := Merge(stated, fixed.value, parameter);
          } else if op.Select? && j - 1 != 2 {
            var kind := SelectOf(args, RankOf(program, rank, d));
            merged := if kind.Failure? then Failure(kind.error) else Merge(stated, kind.value, parameter);
          }
          if merged.Failure? {
            OperandsRefused(program, rank, root, d, i, j, |args|, parameter, before, old(visiting));
            return merged;
          }
          stated := merged.value;
        }
      }
      return Success(stated);
    }
  }

  // ---- what an answer means ----

  /** Instruction `d` reads `parameter` at position `j`, and computes it in `kind`. */
  ghost predicate Reads(p: Program, d: nat, j: nat, parameter: nat, kind: Class) {
    && d < |p.defs| && p.defs[d].Instruction? && j < |p.defs[d].args|
    && p.defs[d].args[j] == parameter
    && p.defs[d].op.Plain? && j < |p.defs[d].op.operands| && p.defs[d].op.operands[j] == Some(kind)
  }

  lemma {:induction false} OperandsAgree(p: Program, rank: seq<nat>, root: Class, d: nat, i: nat, n: nat,
      parameter: nat, before: Option<Class>, visiting: seq<nat>)
    requires Ranked(p, rank) && d < |p.defs| && p.defs[d].Instruction? && n <= |p.defs[d].args| && 0 < i
    requires OperandsClass(p, rank, root, d, i, n, parameter, before, visiting).Success?
    ensures var r := OperandsClass(p, rank, root, d, i, n, parameter, before, visiting).value;
      (before.Some? ==> r == before) && forall j: nat, kind :: j < n && Reads(p, d, j, parameter, kind) ==>
        r == Some(kind)
    decreases n
  {
    if n > 0 { OperandsAgree(p, rank, root, d, i, n - 1, parameter, before, visiting); }
  }

  lemma {:induction false} StatementsAgree(p: Program, rank: seq<nat>, root: Class, instrs: seq<nat>, n: nat,
      parameter: nat, visiting: seq<nat>)
    requires Ranked(p, rank) && n <= |instrs| && StatedClass(p, rank, root, instrs, n, parameter, visiting).Success?
    ensures forall i: nat, j: nat, kind :: i < n && Reads(p, instrs[i], j, parameter, kind) ==>
      StatedClass(p, rank, root, instrs, n, parameter, visiting).value == Some(kind)
    decreases n
  {
    if n > 0 {
      StatementsAgree(p, rank, root, instrs, n - 1, parameter, visiting);
      var d := instrs[n - 1];
      if d < |p.defs| && p.defs[d].Instruction? {
        var before := StatedClass(p, rank, root, instrs, n - 1, parameter, visiting).value;
        OperandsAgree(p, rank, root, d, n, |p.defs[d].args|, parameter, before, visiting);
      }
    }
  }

  /** A resolved parameter has the class of every read in its block that states one: a phi has one type. */
  lemma ClassMatchesEveryRead(p: Program, rank: seq<nat>, root: Class, v: nat, i: nat, j: nat, kind: Class)
    requires Ranked(p, rank) && v in Parameters(p) && p.defs[v].block < |p.body.blocks|
    requires ValueClass(p, rank, root, v, []).Success?
    requires i < |p.body.blocks[p.defs[v].block].instrs| &&
      Reads(p, p.body.blocks[p.defs[v].block].instrs[i], j, v, kind)
    ensures ValueClass(p, rank, root, v, []) == Success(kind)
  {
    var instrs := p.body.blocks[p.defs[v].block].instrs;
    OneMoreVisited(p, [], v);
    assert ReadClass(p, rank, root, p.defs[v].block, v, []) ==
      StatedClass(p, rank, root, instrs, |instrs|, v, [] + [v]);
    StatementsAgree(p, rank, root, instrs, |instrs|, v, [] + [v]);
  }

  lemma {:induction false} EdgesAgree(p: Program, rank: seq<nat>, root: Class, edges: seq<seq<nat>>, n: nat, index: nat,
      parameter: nat, visiting: seq<nat>)
    requires Ranked(p, rank) && n <= |edges| && EdgeClass(p, rank, root, edges, n, index, parameter, visiting).Success?
    ensures forall k: nat :: k < n && index < |edges[k]| ==>
      ValueClass(p, rank, root, edges[k][index], visiting).Success? &&
      EdgeClass(p, rank, root, edges, n, index, parameter, visiting).value ==
        Some(ValueClass(p, rank, root, edges[k][index], visiting).value)
    decreases n
  {
    if n > 0 { EdgesAgree(p, rank, root, edges, n - 1, index, parameter, visiting); }
  }

  // ---- unread parameters ----

  /** Instruction `d` reads the parameter as a select's arm at position `j`. */
  ghost predicate ReadsAsArm(p: Program, d: nat, j: nat, parameter: nat) {
    && d < |p.defs| && p.defs[d].Instruction? && j < |p.defs[d].args|
    && p.defs[d].args[j] == parameter && p.defs[d].op.Select? && j != 2
  }

  /** No instruction of the parameter's block reads it in a class of its own, or chooses it. */
  ghost predicate Unread(p: Program, v: nat)
    requires v in Parameters(p) && p.defs[v].block < |p.body.blocks|
  {
    forall d :: d in p.body.blocks[p.defs[v].block].instrs ==> SaysNothing(p, d, v)
  }

  ghost predicate SaysNothing(p: Program, d: nat, parameter: nat) {
    && (forall j: nat, kind: Class :: !Reads(p, d, j, parameter, kind))
    && (forall j: nat :: !ReadsAsArm(p, d, j, parameter))
  }

  lemma {:induction false} OperandsSayNothing(p: Program, rank: seq<nat>, root: Class, d: nat, i: nat, n: nat,
      parameter: nat, before: Option<Class>, visiting: seq<nat>)
    requires Ranked(p, rank) && d < |p.defs| && p.defs[d].Instruction? && n <= |p.defs[d].args| && 0 < i
    requires SaysNothing(p, d, parameter)
    ensures OperandsClass(p, rank, root, d, i, n, parameter, before, visiting) == Success(before)
    decreases n
  {
    if n > 0 {
      OperandsSayNothing(p, rank, root, d, i, n - 1, parameter, before, visiting);
      if p.defs[d].args[n - 1] == parameter && p.defs[d].op.Plain? && n - 1 < |p.defs[d].op.operands| {
        var stated := p.defs[d].op.operands[n - 1];
        assert stated.Some? ==> Reads(p, d, n - 1, parameter, stated.value);
      }
      assert !ReadsAsArm(p, d, n - 1, parameter);
    }
  }

  lemma {:induction false} BlockSaysNothing(p: Program, rank: seq<nat>, root: Class, instrs: seq<nat>, n: nat,
      parameter: nat, visiting: seq<nat>)
    requires Ranked(p, rank) && n <= |instrs|
    requires forall d :: d in instrs ==> SaysNothing(p, d, parameter)
    ensures StatedClass(p, rank, root, instrs, n, parameter, visiting) == Success(None)
    decreases n
  {
    if n > 0 {
      BlockSaysNothing(p, rank, root, instrs, n - 1, parameter, visiting);
      var d := instrs[n - 1];
      if d < |p.defs| && p.defs[d].Instruction? {
        OperandsSayNothing(p, rank, root, d, n, |p.defs[d].args|, parameter, None, visiting);
      }
    }
  }

  lemma UnreadSaysNothing(p: Program, rank: seq<nat>, root: Class, v: nat)
    requires Ranked(p, rank) && v in Parameters(p) && p.defs[v].block < |p.body.blocks| && Unread(p, v)
    ensures ReadClass(p, rank, root, p.defs[v].block, v, []) == Success(None)
  {
    var instrs := p.body.blocks[p.defs[v].block].instrs;
    OneMoreVisited(p, [], v);
    BlockSaysNothing(p, rank, root, instrs, |instrs|, v, [] + [v]);
  }

  // ---- what is carried ----

  /** A terminator hands these values to the block: by the first of its branches that goes there. */
  ghost predicate Hands(t: Terminator, block: nat, args: seq<nat>) {
    match t
    case Return(_) => false
    case Br(to) => to == Branch(block, args)
    case CondBr(_, ifTrue, ifFalse) =>
      ifTrue == Branch(block, args) || (ifTrue.target != block && ifFalse == Branch(block, args))
  }

  lemma {:induction false} IncomingExactly(blocks: seq<Block>, block: nat, n: nat, args: seq<nat>)
    requires n <= |blocks|
    ensures args in IncomingUpTo(blocks, block, n) <==>
      exists i: nat :: i < n && Hands(blocks[i].terminator, block, args)
    decreases n
  {
    if n > 0 {
      IncomingExactly(blocks, block, n - 1, args);
      assert args in Carried(blocks[n - 1].terminator, block) <==> Hands(blocks[n - 1].terminator, block, args);
    }
  }

  /** The definition of a value states this class: a constant its own, an instruction its result's. */
  ghost predicate States(p: Program, v: nat, kind: Class) {
    v < |p.defs| && p.defs[v].Instruction? &&
      match p.defs[v].op
      case Constant(own) => own == kind
      case Plain(own, _) => own == Some(kind)
      case Select => false
  }

  /** A value whose definition states a class has that class. */
  lemma ClassIsTheDefinitions(p: Program, rank: seq<nat>, root: Class, v: nat, kind: Class, visiting: seq<nat>)
    requires Ranked(p, rank) && States(p, v, kind)
    ensures ValueClass(p, rank, root, v, visiting) == Success(kind)
  {
  }

  /**
  An unread parameter has the class every edge carries for it: every branch to its block hands it a value of that
  class, and where the value's definition states a class it is that one.
   */
  lemma ClassMatchesEveryEdge(p: Program, rank: seq<nat>, root: Class, v: nat, i: nat, args: seq<nat>)
    requires Ranked(p, rank) && v in Parameters(p) && p.defs[v].block < |p.body.blocks| && Unread(p, v)
    requires ValueClass(p, rank, root, v, []).Success?
    requires i < |p.body.blocks| && Hands(p.body.blocks[i].terminator, p.defs[v].block, args) &&
      p.defs[v].index < |args|
    ensures ValueClass(p, rank, root, v, []) == ValueClass(p, rank, root, args[p.defs[v].index], [v])
    ensures forall kind :: States(p, args[p.defs[v].index], kind) ==> ValueClass(p, rank, root, v, []) == Success(kind)
  {
    UnreadSaysNothing(p, rank, root, v);
    OneMoreVisited(p, [], v);
    var edges := IncomingEdges(p, p.defs[v].block);
    IncomingExactly(p.body.blocks, p.defs[v].block, |p.body.blocks|, args);
    var k :| 0 <= k < |edges| && edges[k] == args;
    assert [] + [v] == [v];
    EdgesAgree(p, rank, root, edges, |edges|, p.defs[v].index, v, [v]);
  }

  /** A select has a class exactly when both its arms have it. */
  lemma SelectHasItsArmsClass(p: Program, rank: seq<nat>, root: Class, v: nat, kind: Class, visiting: seq<nat>)
    requires Ranked(p, rank) && v < |p.defs| && p.defs[v].Instruction? && p.defs[v].op.Select? && |p.defs[v].args| >= 2
    ensures ValueClass(p, rank, root, v, visiting) == Success(kind) <==>
      ValueClass(p, rank, root, p.defs[v].args[0], visiting) == Success(kind) ==
      ValueClass(p, rank, root, p.defs[v].args[1], visiting)
  {
    assert DefinitionFits(p, rank, v);
  }

  /**
  A parameter a select of its block chooses is resolved to the module's class or not at all: while the select asks for
  its arms' classes, the parameter is under resolution and answers with the module's.
   */
  lemma ChosenIsTheModules(p: Program, rank: seq<nat>, root: Class, v: nat, i: nat, j: nat)
    requires Ranked(p, rank) && v in Parameters(p) && p.defs[v].block < |p.body.blocks|
    requires i < |p.body.blocks[p.defs[v].block].instrs| && j < 2
    requires ReadsAsArm(p, p.body.blocks[p.defs[v].block].instrs[i], j, v)
    requires |p.defs[p.body.blocks[p.defs[v].block].instrs[i]].args| >= 2
    requires ValueClass(p, rank, root, v, []).Success?
    ensures ValueClass(p, rank, root, v, []) == Success(root)
  {
    var instrs := p.body.blocks[p.defs[v].block].instrs;
    OneMoreVisited(p, [], v);
    assert [] + [v] == [v];
    ArmsAgreeUpTo(p, rank, root, instrs, |instrs|, i, j, v, [v]);
  }

  lemma {:induction false} ArmsAgreeUpTo(p: Program, rank: seq<nat>, root: Class, instrs: seq<nat>, n: nat, i: nat,
      j: nat, parameter: nat, visiting: seq<nat>)
    requires Ranked(p, rank) && i < n <= |instrs| && parameter in visiting && parameter in Parameters(p)
    requires ReadsAsArm(p, instrs[i], j, parameter) && j < 2 && |p.defs[instrs[i]].args| >= 2
    requires StatedClass(p, rank, root, instrs, n, parameter, visiting).Success?
    ensures StatedClass(p, rank, root, instrs, n, parameter, visiting) == Success(Some(root))
    decreases n
  {
    var d := instrs[n - 1];
    if i < n - 1 {
      ArmsAgreeUpTo(p, rank, root, instrs, n - 1, i, j, parameter, visiting);
      if d < |p.defs| && p.defs[d].Instruction? {
        OperandsAgree(p, rank, root, d, n, |p.defs[d].args|, parameter, Some(root), visiting);
      }
    } else {
      var before := StatedClass(p, rank, root, instrs, n - 1, parameter, visiting).value;
      ArmAgrees(p, rank, root, d, n, |p.defs[d].args|, j, parameter, before, visiting);
    }
  }

  lemma {:induction false} ArmAgrees(p: Program, rank: seq<nat>, root: Class, d: nat, i: nat, n: nat, j: nat,
      parameter: nat, before: Option<Class>, visiting: seq<nat>)
    requires Ranked(p, rank) && d < |p.defs| && p.defs[d].Instruction? && j < n <= |p.defs[d].args| && 0 < i
    requires ReadsAsArm(p, d, j, parameter) && j < 2 && |p.defs[d].args| >= 2
    requires parameter in visiting && parameter in Parameters(p)
    requires OperandsClass(p, rank, root, d, i, n, parameter, before, visiting).Success?
    ensures OperandsClass(p, rank, root, d, i, n, parameter, before, visiting) == Success(Some(root))
    decreases n
  {
    assert DefinitionFits(p, rank, d);
    assert DefinitionFits(p, rank, parameter);
    assert ValueClass(p, rank, root, parameter, visiting) == Success(root);
    if j < n - 1 { ArmAgrees(p, rank, root, d, i, n - 1, j, parameter, before, visiting); }
  }
}
