/** Where a resolved class comes from, and what a refusal to resolve one rests on. */
module ClassOrigins {
  import opened Options
  import opened Kernel
  import opened Scalars
  import opened Classes

  // ---- every other class than the module's is stated somewhere ----

  /** A value takes its class from another: a select from an arm, a parameter from what it is handed or chosen with. */
  ghost predicate TakesFrom(p: Program, v: nat, u: nat) {
    v < |p.defs| &&
      match p.defs[v]
      case Instruction(op, args) => op.Select? && |args| >= 2 && u == args[0]
      case Parameter(block, index) =>
        (exists i: nat, args :: HandsAt(p, i, block, args) && index < |args| && u == args[index]) ||
        (exists d: nat, j: nat :: IsIn(p, d, block) && ReadsAsArm(p, d, j, v) && |p.defs[d].args| >= 2 &&
          u == p.defs[d].args[0])
  }

  ghost predicate HandsAt(p: Program, i: nat, block: nat, args: seq<nat>) {
    i < |p.body.blocks| && Hands(p.body.blocks[i].terminator, block, args)
  }

  ghost predicate IsIn(p: Program, d: nat, block: nat) {
    block < |p.body.blocks| && d in p.body.blocks[block].instrs
  }

  /** The value's definition states the class, or an instruction of its block reads it in it. */
  ghost predicate Speaks(p: Program, v: nat, kind: Class) {
    States(p, v, kind) ||
    (v in Parameters(p) && exists d: nat, j: nat :: IsIn(p, d, p.defs[v].block) && Reads(p, d, j, v, kind))
  }

  /** Each value of the chain takes its class from the next, and of the last the class is said. */
  ghost predicate Traced(p: Program, v: nat, chain: seq<nat>, kind: Class) {
    && chain != [] && chain[0] == v && Speaks(p, chain[|chain| - 1], kind)
    && forall i :: 0 <= i < |chain| - 1 ==> TakesFrom(p, chain[i], chain[i + 1])
  }

  lemma OneMoreTraced(p: Program, v: nat, u: nat, chain: seq<nat>, kind: Class) returns (longer: seq<nat>)
    requires Traced(p, u, chain, kind) && TakesFrom(p, v, u)
    ensures Traced(p, v, longer, kind)
  {
    longer := [v] + chain;
    forall i | 0 <= i < |longer| - 1 ensures TakesFrom(p, longer[i], longer[i + 1]) {
      if i > 0 { assert longer[i] == chain[i - 1] && longer[i + 1] == chain[i]; }
    }
  }

  /**
  A class other than the module's is traced, through the arms of selects and the values branches hand over, to a value
  whose definition states it or whose block reads it in it.
   */
  lemma ClassIsTraced(p: Program, rank: seq<nat>, root: Class, v: nat, visiting: seq<nat>, kind: Class)
      returns (chain: seq<nat>)
    requires Ranked(p, rank) && kind != root && ValueClass(p, rank, root, v, visiting) == Success(kind)
    ensures Traced(p, v, chain, kind)
    decreases 2 * Unvisited(p, visiting), RankOf(p, rank, v), 1
  {
    assert DefinitionFits(p, rank, v);
    chain := [v];
    match p.defs[v]
    case Instruction(op, args) =>
      if op.Select? {
        chain := ClassIsTraced(p, rank, root, args[0], visiting, kind);
        chain := OneMoreTraced(p, v, args[0], chain, kind);
      }
    case Parameter(block, index) =>
      OneMoreVisited(p, visiting, v);
      if ReadClass(p, rank, root, block, v, visiting).value.Some? {
        chain := ReadIsTraced(p, rank, root, |p.body.blocks[block].instrs|, v, visiting + [v], kind);
      } else {
        chain := EdgeIsTraced(p, rank, root, |IncomingEdges(p, block)|, v, visiting + [v], kind);
      }
  }

  lemma EdgeIsTraced(p: Program, rank: seq<nat>, root: Class, n: nat, v: nat, visiting: seq<nat>, kind: Class)
      returns (chain: seq<nat>)
    requires Ranked(p, rank) && v in Parameters(p) && n <= |IncomingEdges(p, p.defs[v].block)| && kind != root
    requires EdgeClass(p, rank, root, IncomingEdges(p, p.defs[v].block), n, p.defs[v].index, v, visiting) ==
      Success(Some(kind))
    ensures Traced(p, v, chain, kind)
    decreases 2 * Unvisited(p, visiting) + 1, n
  {
    var edges, index := IncomingEdges(p, p.defs[v].block), p.defs[v].index;
    if index < |edges[n - 1]| {
      chain := ClassIsTraced(p, rank, root, edges[n - 1][index], visiting, kind);
      EdgeIsHanded(p, v, n - 1);
      chain := OneMoreTraced(p, v, edges[n - 1][index], chain, kind);
    } else {
      chain := EdgeIsTraced(p, rank, root, n - 1, v, visiting, kind);
    }
  }

  lemma EdgeIsHanded(p: Program, v: nat, k: nat)
    requires v in Parameters(p) && k < |IncomingEdges(p, p.defs[v].block)|
    requires p.defs[v].index < |IncomingEdges(p, p.defs[v].block)[k]|
    ensures TakesFrom(p, v, IncomingEdges(p, p.defs[v].block)[k][p.defs[v].index])
  {
    var block, args := p.defs[v].block, IncomingEdges(p, p.defs[v].block)[k];
    IncomingExactly(p.body.blocks, block, |p.body.blocks|, args);
    var i: nat :| i < |p.body.blocks| && Hands(p.body.blocks[i].terminator, block, args);
    assert HandsAt(p, i, block, args);
  }

  lemma ReadIsTraced(p: Program, rank: seq<nat>, root: Class, n: nat, v: nat, visiting: seq<nat>, kind: Class)
      returns (chain: seq<nat>)
    requires Ranked(p, rank) && v in Parameters(p) && p.defs[v].block < |p.body.blocks| && kind != root
    requires n <= |p.body.blocks[p.defs[v].block].instrs|
    requires StatedClass(p, rank, root, p.body.blocks[p.defs[v].block].instrs, n, v, visiting) == Success(Some(kind))
    ensures Traced(p, v, chain, kind)
    decreases 2 * Unvisited(p, visiting) + 1, n, 0
  {
    var instrs := p.body.blocks[p.defs[v].block].instrs;
    var before := StatedClass(p, rank, root, instrs, n - 1, v, visiting).value;
    if before == Some(kind) {
      chain := ReadIsTraced(p, rank, root, n - 1, v, visiting, kind);
    } else {
      chain := OperandIsTraced(p, rank, root, n, |p.defs[instrs[n - 1]].args|, v, before, visiting, kind);
    }
  }

  lemma OperandIsTraced(p: Program, rank: seq<nat>, root: Class, i: nat, n: nat, v: nat, before: Option<Class>,
      visiting: seq<nat>, kind: Class)
      returns (chain: seq<nat>)
    requires Ranked(p, rank) && v in Parameters(p) && p.defs[v].block < |p.body.blocks| && kind != root
    requires 0 < i <= |p.body.blocks[p.defs[v].block].instrs|
    requires var d := p.body.blocks[p.defs[v].block].instrs[i - 1];
      d < |p.defs| && p.defs[d].Instruction? && n <= |p.defs[d].args| && before != Some(kind) &&
      OperandsClass(p, rank, root, d, i, n, v, before, visiting) == Success(Some(kind))
    ensures Traced(p, v, chain, kind)
    decreases 2 * Unvisited(p, visiting) + 1, i - 1, n + 1
  {
    var d := p.body.blocks[p.defs[v].block].instrs[i - 1];
    assert IsIn(p, d, p.defs[v].block) && DefinitionFits(p, rank, d);
    if OperandsClass(p, rank, root, d, i, n - 1, v, before, visiting).value == Some(kind) {
      chain := OperandIsTraced(p, rank, root, i, n - 1, v, before, visiting, kind);
    } else if p.defs[d].op.Select? {
      assert ReadsAsArm(p, d, n - 1, v);
      chain := ClassIsTraced(p, rank, root, p.defs[d].args[0], visiting, kind);
      chain := OneMoreTraced(p, v, p.defs[d].args[0], chain, kind);
    } else {
      assert Reads(p, d, n - 1, v, kind);
      chain := [v];
    }
  }

  // ---- a refusal is true ----

  ghost predicate Comes(p: Program, rank: seq<nat>, root: Class, v: nat, visiting: seq<nat>, kind: Class)
    requires Ranked(p, rank)
  {
    ValueClass(p, rank, root, v, visiting) == Success(kind)
  }

  /** A branch hands the parameter a value of the class. */
  ghost predicate EdgeSays(p: Program, rank: seq<nat>, root: Class, v: nat, kind: Class)
    requires Ranked(p, rank) && v in Parameters(p)
  {
    exists i: nat, args, visiting :: HandsAt(p, i, p.defs[v].block, args) && p.defs[v].index < |args| &&
      Comes(p, rank, root, args[p.defs[v].index], visiting, kind)
  }

  /** An instruction of the parameter's block reads it in the class, or chooses it and is of the class. */
  ghost predicate ReadSays(p: Program, rank: seq<nat>, root: Class, v: nat, kind: Class)
    requires Ranked(p, rank) && v in Parameters(p)
  {
    (exists d: nat, j: nat :: IsIn(p, d, p.defs[v].block) && Reads(p, d, j, v, kind)) ||
    (exists d: nat, j: nat, visiting :: IsIn(p, d, p.defs[v].block) && ReadsAsArm(p, d, j, v) &&
      Comes(p, rank, root, d, visiting, kind))
  }

  predicate Before(a: Class, b: Class) {
    (a == IntClass && b != IntClass) || (a == FloatClass && b == BFloat16Class)
  }

  /** Two different classes, the earlier first. */
  predicate Both(classes: seq<Class>, a: Class, b: Class) {
    a != b && |classes| == 2 && Before(classes[0], classes[1]) && a in classes && b in classes
  }

  /** What each refusal says is so: two readers of one parameter, two branches to it, or two arms differ in class. */
  ghost predicate IsTrue(p: Program, rank: seq<nat>, root: Class, e: ClassRefusal)
    requires Ranked(p, rank)
  {
    match e
    case ParameterDisagrees(v, classes) =>
      v in Parameters(p) && exists a, b :: Both(classes, a, b) && SaidTwice(p, rank, root, v, a, b)
    case ArmsDisagree(classes) =>
      exists d: nat, visiting, a, b :: Both(classes, a, b) && ArmsAre(p, rank, root, d, visiting, a, b)
  }

  ghost predicate SaidTwice(p: Program, rank: seq<nat>, root: Class, v: nat, a: Class, b: Class)
    requires Ranked(p, rank) && v in Parameters(p)
  {
    (ReadSays(p, rank, root, v, a) && ReadSays(p, rank, root, v, b)) ||
    (EdgeSays(p, rank, root, v, a) && EdgeSays(p, rank, root, v, b))
  }

  ghost predicate ArmsAre(p: Program, rank: seq<nat>, root: Class, d: nat, visiting: seq<nat>, a: Class, b: Class)
    requires Ranked(p, rank)
  {
    && d < |p.defs| && p.defs[d].Instruction? && p.defs[d].op.Select? && |p.defs[d].args| >= 2
    && Comes(p, rank, root, p.defs[d].args[0], visiting, a) && Comes(p, rank, root, p.defs[d].args[1], visiting, b)
  }

  /** A parameter is refused for two classes two of its readers or branches have, a select for its arms' two. */
  lemma RefusalIsTrue(p: Program, rank: seq<nat>, root: Class, v: nat, visiting: seq<nat>)
    requires Ranked(p, rank) && ValueClass(p, rank, root, v, visiting).Failure?
    ensures IsTrue(p, rank, root, ValueClass(p, rank, root, v, visiting).error)
    decreases 2 * Unvisited(p, visiting), RankOf(p, rank, v), 1
  {
    assert DefinitionFits(p, rank, v);
    match p.defs[v]
    case Instruction(op, args) =>
      if ValueClass(p, rank, root, args[0], visiting).Failure? {
        RefusalIsTrue(p, rank, root, args[0], visiting);
      } else if ValueClass(p, rank, root, args[1], visiting).Failure? {
        RefusalIsTrue(p, rank, root, args[1], visiting);
      } else {
        ArmsDiffer(p, rank, root, v, visiting);
      }
    case Parameter(block, index) =>
      if v !in visiting {
        OneMoreVisited(p, visiting, v);
        if ReadClass(p, rank, root, block, v, visiting).Failure? {
          ReadRefusalIsTrue(p, rank, root, |p.body.blocks[block].instrs|, v, visiting + [v]);
        } else {
          EdgeRefusalIsTrue(p, rank, root, |IncomingEdges(p, block)|, v, visiting + [v]);
        }
      }
  }

  lemma ArmsDiffer(p: Program, rank: seq<nat>, root: Class, d: nat, visiting: seq<nat>)
    requires Ranked(p, rank) && d < |p.defs| && p.defs[d].Instruction? && p.defs[d].op.Select? && |p.defs[d].args| >= 2
    requires ValueClass(p, rank, root, p.defs[d].args[0], visiting).Success?
    requires ValueClass(p, rank, root, p.defs[d].args[1], visiting).Success?
    requires ValueClass(p, rank, root, d, visiting).Failure?
    ensures IsTrue(p, rank, root, ValueClass(p, rank, root, d, visiting).error)
  {
    assert DefinitionFits(p, rank, d);
    var a := ValueClass(p, rank, root, p.defs[d].args[0], visiting).value;
    var b := ValueClass(p, rank, root, p.defs[d].args[1], visiting).value;
    assert Both(InOrder(a, b), a, b) && ArmsAre(p, rank, root, d, visiting, a, b);
  }

  lemma {:induction false} EdgeSaid(p: Program, rank: seq<nat>, root: Class, n: nat, v: nat, visiting: seq<nat>,
      kind: Class)
    requires Ranked(p, rank) && v in Parameters(p) && n <= |IncomingEdges(p, p.defs[v].block)|
    requires EdgeClass(p, rank, root, IncomingEdges(p, p.defs[v].block), n, p.defs[v].index, v, visiting) ==
      Success(Some(kind))
    ensures EdgeSays(p, rank, root, v, kind)
    decreases n
  {
    var edges, index := IncomingEdges(p, p.defs[v].block), p.defs[v].index;
    if index < |edges[n - 1]| {
      OneEdgeSays(p, rank, root, v, n - 1, visiting, kind);
    } else {
      EdgeSaid(p, rank, root, n - 1, v, visiting, kind);
    }
  }

  lemma OneEdgeSays(p: Program, rank: seq<nat>, root: Class, v: nat, k: nat, visiting: seq<nat>, kind: Class)
    requires Ranked(p, rank) && v in Parameters(p) && k < |IncomingEdges(p, p.defs[v].block)|
    requires p.defs[v].index < |IncomingEdges(p, p.defs[v].block)[k]|
    requires Comes(p, rank, root, IncomingEdges(p, p.defs[v].block)[k][p.defs[v].index], visiting, kind)
    ensures EdgeSays(p, rank, root, v, kind)
  {
    var block, args := p.defs[v].block, IncomingEdges(p, p.defs[v].block)[k];
    IncomingExactly(p.body.blocks, block, |p.body.blocks|, args);
    var i: nat :| i < |p.body.blocks| && Hands(p.body.blocks[i].terminator, block, args);
    assert HandsAt(p, i, block, args);
  }

  lemma EdgeRefusalIsTrue(p: Program, rank: seq<nat>, root: Class, n: nat, v: nat, visiting: seq<nat>)
    requires Ranked(p, rank) && v in Parameters(p) && n <= |IncomingEdges(p, p.defs[v].block)|
    requires EdgeClass(p, rank, root, IncomingEdges(p, p.defs[v].block), n, p.defs[v].index, v, visiting).Failure?
    ensures IsTrue(p, rank, root,
      EdgeClass(p, rank, root, IncomingEdges(p, p.defs[v].block), n, p.defs[v].index, v, visiting).error)
    decreases 2 * Unvisited(p, visiting) + 1, n
  {
    var edges, index := IncomingEdges(p, p.defs[v].block), p.defs[v].index;
    var before := EdgeClass(p, rank, root, edges, n - 1, index, v, visiting);
    if before.Failure? {
      EdgeRefusalIsTrue(p, rank, root, n - 1, v, visiting);
    } else if ValueClass(p, rank, root, edges[n - 1][index], visiting).Failure? {
      RefusalIsTrue(p, rank, root, edges[n - 1][index], visiting);
    } else {
      var a, b := before.value.value, ValueClass(p, rank, root, edges[n - 1][index], visiting).value;
      EdgeSaid(p, rank, root, n - 1, v, visiting, a);
      OneEdgeSays(p, rank, root, v, n - 1, visiting, b);
      assert Both(InOrder(a, b), a, b);
    }
  }

  lemma {:induction false} ReadSaid(p: Program, rank: seq<nat>, root: Class, n: nat, v: nat, visiting: seq<nat>,
      kind: Class)
    requires Ranked(p, rank) && v in Parameters(p) && p.defs[v].block < |p.body.blocks|
    requires n <= |p.body.blocks[p.defs[v].block].instrs|
    requires StatedClass(p, rank, root, p.body.blocks[p.defs[v].block].instrs, n, v, visiting) == Success(Some(kind))
    ensures ReadSays(p, rank, root, v, kind)
    decreases n
  {
    var instrs := p.body.blocks[p.defs[v].block].instrs;
    var before := StatedClass(p, rank, root, instrs, n - 1, v, visiting).value;
    if before == Some(kind) {
      ReadSaid(p, rank, root, n - 1, v, visiting, kind);
    } else {
      OperandSaid(p, rank, root, n, |p.defs[instrs[n - 1]].args|, v, before, visiting, kind);
    }
  }

  lemma {:induction false} OperandSaid(p: Program, rank: seq<nat>, root: Class, i: nat, n: nat, v: nat,
      before: Option<Class>, visiting: seq<nat>, kind: Class)
    requires Ranked(p, rank) && v in Parameters(p) && p.defs[v].block < |p.body.blocks|
    requires 0 < i <= |p.body.blocks[p.defs[v].block].instrs| && before != Some(kind)
    requires var d := p.body.blocks[p.defs[v].block].instrs[i - 1];
      d < |p.defs| && p.defs[d].Instruction? && n <= |p.defs[d].args| &&
      OperandsClass(p, rank, root, d, i, n, v, before, visiting) == Success(Some(kind))
    ensures ReadSays(p, rank, root, v, kind)
    decreases n
  {
    var d := p.body.blocks[p.defs[v].block].instrs[i - 1];
    if OperandsClass(p, rank, root, d, i, n - 1, v, before, visiting).value == Some(kind) {
      OperandSaid(p, rank, root, i, n - 1, v, before, visiting, kind);
    } else {
      OneOperandSays(p, rank, root, d, n - 1, v, visiting, kind);
    }
  }

  /** What one position says of the parameter it reads. */
  ghost function PositionClass(p: Program, rank: seq<nat>, root: Class, d: nat, j: nat,
      visiting: seq<nat>): Option<Result<Class, ClassRefusal>>
    requires Ranked(p, rank) && d < |p.defs| && p.defs[d].Instruction?
  {
    if OperandClass(p.defs[d].op, j).Some? then Some(Success(OperandClass(p.defs[d].op, j).value))
    else if p.defs[d].op.Select? && j != 2 then Some(ValueClass(p, rank, root, d, visiting))
    else None
  }

  lemma OneOperandSays(p: Program, rank: seq<nat>, root: Class, d: nat, j: nat, v: nat, visiting: seq<nat>, kind: Class)
    requires Ranked(p, rank) && v in Parameters(p) && IsIn(p, d, p.defs[v].block)
    requires d < |p.defs| && p.defs[d].Instruction? && j < |p.defs[d].args| && p.defs[d].args[j] == v
    requires PositionClass(p, rank, root, d, j, visiting) == Some(Success(kind))
    ensures ReadSays(p, rank, root, v, kind)
  {
    if OperandClass(p.defs[d].op, j).Some? {
      assert Reads(p, d, j, v, kind);
    } else {
      assert ReadsAsArm(p, d, j, v) && Comes(p, rank, root, d, visiting, kind);
    }
  }

  lemma ReadRefusalIsTrue(p: Program, rank: seq<nat>, root: Class, n: nat, v: nat, visiting: seq<nat>)
    requires Ranked(p, rank) && v in Parameters(p) && p.defs[v].block < |p.body.blocks|
    requires n <= |p.body.blocks[p.defs[v].block].instrs|
    requires StatedClass(p, rank, root, p.body.blocks[p.defs[v].block].instrs, n, v, visiting).Failure?
    ensures IsTrue(p, rank, root,
      StatedClass(p, rank, root, p.body.blocks[p.defs[v].block].instrs, n, v, visiting).error)
    decreases 2 * Unvisited(p, visiting) + 1, n, 0
  {
    var instrs := p.body.blocks[p.defs[v].block].instrs;
    var before := StatedClass(p, rank, root, instrs, n - 1, v, visiting);
    if before.Failure? {
      ReadRefusalIsTrue(p, rank, root, n - 1, v, visiting);
    } else {
      if before.value.Some? { ReadSaid(p, rank, root, n - 1, v, visiting, before.value.value); }
      OperandRefusalIsTrue(p, rank, root, n, |p.defs[instrs[n - 1]].args|, v, before.value, visiting);
    }
  }

  lemma OperandRefusalIsTrue(p: Program, rank: seq<nat>, root: Class, i: nat, n: nat, v: nat, before: Option<Class>,
      visiting: seq<nat>)
    requires Ranked(p, rank) && v in Parameters(p) && p.defs[v].block < |p.body.blocks|
    requires 0 < i <= |p.body.blocks[p.defs[v].block].instrs|
    requires before.Some? ==> ReadSays(p, rank, root, v, before.value)
    requires var d := p.body.blocks[p.defs[v].block].instrs[i - 1];
      d < |p.defs| && p.defs[d].Instruction? && n <= |p.defs[d].args| &&
      OperandsClass(p, rank, root, d, i, n, v, before, visiting).Failure?
    ensures IsTrue(p, rank, root,
      OperandsClass(p, rank, root, p.body.blocks[p.defs[v].block].instrs[i - 1], i, n, v, before, visiting).error)
    decreases 2 * Unvisited(p, visiting) + 1, i - 1, n + 1
  {
    var d := p.body.blocks[p.defs[v].block].instrs[i - 1];
    assert DefinitionFits(p, rank, d);
    var earlier := OperandsClass(p, rank, root, d, i, n - 1, v, before, visiting);
    if earlier.Failure? {
      OperandRefusalIsTrue(p, rank, root, i, n - 1, v, before, visiting);
    } else {
      var said := PositionClass(p, rank, root, d, n - 1, visiting).value;
      if said.Failure? {
        RefusalIsTrue(p, rank, root, d, visiting);
      } else {
        var a, b := earlier.value.value, said.value;
        if before != Some(a) { OperandSaid(p, rank, root, i, n - 1, v, before, visiting, a); }
        OneOperandSays(p, rank, root, d, n - 1, v, visiting, b);
        assert Both(InOrder(a, b), a, b);
      }
    }
  }

  // ---- a chosen parameter ----

  /** One block hands an integer constant on; the next chooses between it and another, which it returns. */
  function Choosing(): Program {
    Program(
      Body([Block([0], [1], Br(Branch(1, [1]))), Block([2], [3, 4], Return([4]))],
        map[1 := [], 3 := [], 4 := [2, 3, 0]], 0, Bare()),
      [Parameter(0, 0), Instruction(Constant(IntClass), []), Parameter(1, 0), Instruction(Constant(IntClass), []),
       Instruction(Select, [2, 3, 0])])
  }

  lemma ChoosingIsRanked()
    ensures Ranked(Choosing(), [0, 0, 0, 0, 1])
  {
    var p, rank := Choosing(), [0, 0, 0, 0, 1];
    forall v: nat | v < |p.defs| ensures DefinitionFits(p, rank, v) {}
  }

  /** Both values are integers and the module computes in floats: no class is found for the parameter. */
  lemma ChosenIntegerIsRefused()
    ensures Ranked(Choosing(), [0, 0, 0, 0, 1])
    ensures ValueClass(Choosing(), [0, 0, 0, 0, 1], FloatClass, 2, []) == Failure(ArmsDisagree([IntClass, FloatClass]))
  {
    var p, rank := Choosing(), [0, 0, 0, 0, 1];
    ChoosingIsRanked();
    OneMoreVisited(p, [], 2);
    assert [] + [2] == [2];
    var instrs := p.body.blocks[1].instrs;
    assert StatedClass(p, rank, FloatClass, instrs, 0, 2, [2]) == Success(None);
    assert StatedClass(p, rank, FloatClass, instrs, 1, 2, [2]) == Success(None);
    ArmsOfTheChoice(p, rank);
    assert OperandsClass(p, rank, FloatClass, 4, 2, 0, 2, None, [2]) == Success(None);
    assert OperandsClass(p, rank, FloatClass, 4, 2, 1, 2, None, [2]) == Failure(ArmsDisagree([IntClass, FloatClass]));
    OperandsRefused(p, rank, FloatClass, 4, 2, 1, 3, 2, None, [2]);
    assert StatedClass(p, rank, FloatClass, instrs, 2, 2, [2]) == Failure(ArmsDisagree([IntClass, FloatClass]));
  }

  lemma ArmsOfTheChoice(p: Program, rank: seq<nat>)
    requires p == Choosing() && rank == [0, 0, 0, 0, 1] && Ranked(p, rank)
    ensures forall a :: a in [2, 3, 0] ==> RankOf(p, rank, a) < RankOf(p, rank, 4)
    ensures SelectClass(p, rank, FloatClass, [2, 3, 0], RankOf(p, rank, 4), [2]) ==
      Failure(ArmsDisagree([IntClass, FloatClass]))
  {
    assert DefinitionFits(p, rank, 4) && DefinitionFits(p, rank, 2);
    assert ValueClass(p, rank, FloatClass, 2, [2]) == Success(FloatClass);
    assert ValueClass(p, rank, FloatClass, 3, [2]) == Success(IntClass);
  }
}
