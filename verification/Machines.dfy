/**
What running a body means, and what running its emitted function means. Words and
memories are opaque to both: an instruction is any function of its operands and the memory.
 */
module Machines {
  import opened Options
  import opened Kernel
  import opened Literals
  import opened Planner
  import opened Emission
  import opened FunctionIds

  /**
  `act` is what each computation leaves and does to memory, `truth` what a branch tests, and
  `scratch` the word an instruction between an operand and its result leaves on its id. A
  constant is its number, and a value keeps its word when it is renamed or converted.
   */
  datatype Meaning = Meaning(act: (nat, seq<int>, seq<int>) -> (int, seq<int>), truth: int -> bool,
    scratch: (nat, seq<int>) -> int)

  function Get(env: map<nat, int>, v: nat): int {
    if v in env then env[v] else 0
  }

  function Read(env: map<nat, int>, values: seq<nat>): (r: seq<int>)
    ensures |r| == |values| && forall i :: 0 <= i < |r| ==> r[i] == Get(env, values[i])
  {
    seq(|values|, i requires 0 <= i < |values| => Get(env, values[i]))
  }

  /** Every name takes its word at once: the words were read before any name changed. */
  function Bind(env: map<nat, int>, names: seq<nat>, words: seq<int>): map<nat, int>
    requires |names| == |words|
  {
    if names == [] then env
    else Bind(env, names[..|names| - 1], words[..|words| - 1])[names[|names| - 1] := words[|words| - 1]]
  }

  // ---- the body ----

  datatype Source =
    | At(block: nat, env: map<nat, int>, memory: seq<int>)
    | Done(result: int, memory: seq<int>)

  function OperandsOf(body: Body, v: nat): seq<nat> {
    if v in body.operands then body.operands[v] else []
  }

  /** One instruction. */
  function Perform(m: Meaning, body: Body, v: nat, env: map<nat, int>, memory: seq<int>): (int, seq<int>) {
    if v in body.lowering.forms && body.lowering.forms[v].Literal? then (body.lowering.forms[v].value, memory)
    else if v in body.lowering.forms && body.lowering.forms[v].Same? then
      (if OperandsOf(body, v) == [] then 0 else Get(env, OperandsOf(body, v)[0]), memory)
    else m.act(v, Read(env, OperandsOf(body, v)), memory)
  }

  /** The values and memory after a block's first instructions. */
  function Run(m: Meaning, body: Body, instrs: seq<nat>, env: map<nat, int>, memory: seq<int>): (map<nat, int>,
      seq<int>)
  {
    if instrs == [] then (env, memory)
    else
      var (e, mem) := Run(m, body, instrs[..|instrs| - 1], env, memory);
      var (word, after) := Perform(m, body, instrs[|instrs| - 1], e, mem);
      (e[instrs[|instrs| - 1] := word], after)
  }

  /** The branch a two-way or one-way terminator takes. */
  function Take(m: Meaning, t: Terminator, env: map<nat, int>): Branch
    requires !t.Return?
  {
    if t.Br? then t.to else if m.truth(Get(env, t.cond)) then t.ifTrue else t.ifFalse
  }

  function Enter(body: Body, b: Branch, env: map<nat, int>, memory: seq<int>): Source
    requires BranchFits(body, b)
  {
    At(b.target, Bind(env, body.blocks[b.target].params, Read(env, b.args)), memory)
  }

  /** One block of the body, its branch included. */
  ghost function Step(m: Meaning, body: Body, s: Source): (r: Source)
    requires ValidBody(body) && (s.At? ==> s.block < |body.blocks|)
    ensures r.At? ==> r.block < |body.blocks|
  {
    match s
    case Done(_, _) => s
    case At(block, env, memory) =>
      var b := body.blocks[block];
      var (e, mem) := Run(m, body, b.instrs, env, memory);
      match b.terminator
      case Return(values) => Done(if values == [] then 0 else Get(e, values[0]), mem)
      case _ =>
        TakenFits(m, body, block, e);
        Enter(body, Take(m, b.terminator, e), e, mem)
  }

  lemma TakenFits(m: Meaning, body: Body, block: nat, env: map<nat, int>)
    requires ValidBody(body) && block < |body.blocks| && !body.blocks[block].terminator.Return?
    ensures BranchFits(body, Take(m, body.blocks[block].terminator, env))
  {
    assert Take(m, body.blocks[block].terminator, env) in Branches(body.blocks[block].terminator);
  }

  /** The body after `n` blocks. */
  ghost function Steps(m: Meaning, body: Body, s: Source, n: nat): (r: Source)
    requires ValidBody(body) && (s.At? ==> s.block < |body.blocks|)
    ensures r.At? ==> r.block < |body.blocks|
    decreases n
  {
    if n == 0 then s else Steps(m, body, Step(m, body, s), n - 1)
  }

  ghost function Begin(body: Body, inputs: seq<int>, memory: seq<int>): Source
    requires ValidBody(body) && |inputs| == |body.blocks[body.entry].params|
  {
    At(body.entry, Bind(map[], body.blocks[body.entry].params, inputs), memory)
  }

  // ---- the emitted function ----

  /**
  In the guard's own block, in a block of the plan, in the guard's merge block, or returned: an entry point with no
  result.
   */
  datatype Target =
    | AtGuard(inputs: seq<int>, memory: seq<int>)
    | AtNode(node: nat, ids: map<nat, int>, memory: seq<int>)
    | AtMerge(memory: seq<int>)
    | Left(result: Option<int>, memory: seq<int>)
    | Stuck

  /** The block with a label. */
  function Locate(labels: seq<nat>, l: nat): Option<nat> {
    if labels == [] then None
    else if labels[|labels| - 1] == l then Some(|labels| - 1)
    else Locate(labels[..|labels| - 1], l)
  }

  /** Instructions that leave some word on each of a list of ids. */
  function Scribble(m: Meaning, names: seq<nat>, ids: map<nat, int>, memory: seq<int>): map<nat, int> {
    if names == [] then ids
    else
      var last := names[|names| - 1];
      Scribble(m, names[..|names| - 1], ids, memory)[last := m.scratch(last, memory)]
  }

  /** A conversion leaves the word it started from on the last of its ids. */
  function RunPlacement(m: Meaning, p: Placement, ids: map<nat, int>, memory: seq<int>): map<nat, int> {
    if p.steps == [] then ids else Scribble(m, p.steps, ids, memory)[Yield(p) := Get(ids, p.from)]
  }

  function RunPlacements(m: Meaning, ps: seq<Placement>, ids: map<nat, int>, memory: seq<int>): map<nat, int> {
    if ps == [] then ids else RunPlacement(m, ps[|ps| - 1], RunPlacements(m, ps[..|ps| - 1], ids, memory), memory)
  }

  function RunGroup(m: Meaning, g: Group, ids: map<nat, int>, memory: seq<int>): (map<nat, int>, seq<int>) {
    var placed := RunPlacements(m, g.placements, ids, memory);
    match g.role
    case Still => (placed, memory)
    case Act(v, result) =>
      var (word, after) := m.act(v, Read(placed, Yields(g.placements)), memory);
      var marked := Scribble(m, g.own, placed, memory);
      (if result.Some? && result.value < |g.own| then marked[g.own[result.value] := word] else marked, after)
  }

  function RunCode(m: Meaning, code: seq<Group>, ids: map<nat, int>, memory: seq<int>): (map<nat, int>, seq<int>) {
    if code == [] then (ids, memory)
    else
      var (e, mem) := RunCode(m, code[..|code| - 1], ids, memory);
      RunGroup(m, code[|code| - 1], e, mem)
  }

  /** Branch to a label: every phi takes, at once, the word its entry for this predecessor names. */
  function Jump(f: Function, from: nat, l: nat, ids: map<nat, int>, memory: seq<int>): Target {
    match Locate(f.plan.labels, l)
    case None => Stuck
    case Some(to) =>
      if to >= |f.work.blocks| then Stuck
      else
        var block := f.work.blocks[to];
        match FindEdge(block.edges, from)
        case None => Stuck
        case Some(e) =>
          if |e.args| != |block.params| then Stuck
          else AtNode(to, Bind(ids, block.params, Read(ids, e.args)), memory)
  }

  /** The module's constants: each literal's id holds its number. */
  ghost function Constants(pool: Table): map<nat, int> {
    map id | id in pool.ids.Values :: var key :| key in pool.ids && pool.ids[key] == id; key.1
  }

  /** Each parameter's instructions leave its word on the last of its ids. */
  function RunInputs(m: Meaning, inputs: seq<seq<nat>>, words: seq<int>, ids: map<nat, int>,
      memory: seq<int>): map<nat, int>
    requires |inputs| == |words| && forall i :: 0 <= i < |inputs| ==> inputs[i] != []
  {
    if inputs == [] then ids
    else
      var last := |inputs| - 1;
      var before := RunInputs(m, inputs[..last], words[..last], ids, memory);
      Scribble(m, inputs[last], before, memory)[inputs[last][|inputs[last]| - 1] := words[last]]
  }

  /** Every parameter has an id for its word. */
  predicate Bound(f: Function) {
    forall i :: 0 <= i < |f.inputs| ==> f.inputs[i] != []
  }

  ghost function Prologue(m: Meaning, f: Function, words: seq<int>, memory: seq<int>): map<nat, int>
    requires Bound(f) && |words| == |f.inputs|
  {
    RunInputs(m, f.inputs, words, Constants(f.work.at.pool), memory)
  }

  /** One block of the emitted function, its branch included. */
  ghost function TargetStep(m: Meaning, f: Function, t: Target): Target {
    match t
    case Left(_, _) => t
    case Stuck => t
    case AtMerge(memory) => Left(None, memory)
    case AtGuard(words, memory) =>
      if f.guard.None? || !Bound(f) || |words| != |f.inputs| then Stuck
      else
        var ids := Prologue(m, f, words, memory);
        var inside := Get(ids, f.guard.value.lane) < Get(ids, f.guard.value.extent);
        if inside then AtNode(f.plan.entry, ids[f.guard.value.condition := 1], memory) else AtMerge(memory)
    case AtNode(node, ids, memory) =>
      if node >= |f.work.blocks| || node >= |f.plan.labels| then Stuck
      else
        var block := f.work.blocks[node];
        var (e, mem) := RunCode(m, block.code, ids, memory);
        match block.exit
        case Open => Stuck
        case End => Left(None, mem)
        case Leave(result) => Left(Some(Get(e, result)), mem)
        case Goto(to) => Jump(f, f.plan.labels[node], to, e, mem)
        case Choose(cond, onTrue, onFalse) => Jump(f, f.plan.labels[node], if m.truth(Get(e, cond)) then onTrue
          else onFalse, e, mem)
  }

  ghost function TargetSteps(m: Meaning, f: Function, t: Target, n: nat): Target
    decreases n
  {
    if n == 0 then t else TargetSteps(m, f, TargetStep(m, f, t), n - 1)
  }

  /** A call: through the guard's block when there is one. */
  ghost function Call(m: Meaning, f: Function, words: seq<int>, memory: seq<int>): Target
    requires Bound(f) && |words| == |f.inputs|
  {
    if f.guard.Some? then AtGuard(words, memory) else AtNode(f.plan.entry, Prologue(m, f, words, memory), memory)
  }
}
