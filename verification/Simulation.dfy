/**
Emission preserves meaning, step by step. The emitted function's machine is always at the
body's state or on its way to it through added blocks, so whatever it returns the body
returns.
 */
module Simulation {
  import opened Graphs
  import opened Options
  import opened Kernel
  import opened Scalars
  import opened Literals
  import opened Structure
  import opened Planner
  import opened PlanProperties
  import opened Emission
  import opened Ssa
  import opened Distinctness
  import opened EmissionInvariant
  import opened EmissionProof
  import opened EmissionRun
  import opened EmissionIds
  import opened FunctionIds
  import opened Emitters
  import opened Machines
  import opened StraightLine

  // ---- the emitted function as the machine needs it ----

  /** A finished emission on ids that are each defined once. */
  ghost predicate Built(body: Body, p: Plan, w: Work) {
    ValidSsa(body) && PlanLinks(body, p) && Finished(body, p, w) && TerminatorsFit(body) && Unique(w)
  }

  /** And a function whose plan is the body's, with its parameters on ids of their own. */
  ghost predicate Wired(body: Body, s: Signature, f: Function) {
    && Built(body, f.plan, f.work)
    && Structured(body) && f.plan.nodes == Nodes(body) && f.plan.targets == Emitted(body)
    && ParametersOnIds(body, f)
    && OneDefiner(f)
    && GuardFits(body, s, f)
  }

  ghost predicate OneDefiner(f: Function) {
    forall a, b :: IsTaken(f, a) && IsTaken(f, b) && TakenId(f, a) == TakenId(f, b) ==> a == b
  }

  /** The guard compares the index with the extent. */
  ghost predicate GuardFits(body: Body, s: Signature, f: Function) {
    f.guard.Some? ==>
      var n := |s.leaves|;
      && 1 < n == |f.inputs| && body.lowering.launched
      && (forall i :: 0 <= i < n ==> f.inputs[i] != [])
      && f.guard.value.lane == Lasts(f.inputs)[n - 1] && f.guard.value.extent == Lasts(f.inputs)[0]
  }

  lemma EmitsIsBuilt(body: Body, s: Signature, start: Cursor, f: Function)
    requires ValidSsa(body) && Emits(body, s, start, f)
    ensures Built(body, f.plan, f.work) && Structured(body) && f.plan.nodes == Nodes(body) &&
      f.plan.targets == Emitted(body)
  {
    PlanLinked(body, s, f.plan, start.next);
  }

  lemma EmitsIsWired(body: Body, s: Signature, start: Cursor, f: Function)
    requires ValidSsa(body) && Emits(body, s, start, f)
    ensures Wired(body, s, f)
  {
    EmitsIsBuilt(body, s, start, f);
    FunctionIsDisciplined(body, s, start, f);
  }

  // ---- clean groups ----

  /** A group's ids are in no other group of its block, nor a literal's; its placements' are apart. */
  ghost predicate GroupApart(w: Work, u: nat, j: nat)
    requires u < |w.blocks| && j < |w.blocks[u].code|
  {
    var g := w.blocks[u].code[j];
    && (forall key :: key in w.at.pool.ids ==> !InGroup(g, w.at.pool.ids[key]))
    && (forall a: nat, b: nat, x :: a < |g.placements| && b < |g.placements| && a != b && x in g.placements[a].steps ==>
         x !in g.placements[b].steps)
    && (forall i: nat, a: nat, x :: IsStepIn(w, u, i, a, x) && i != j ==> !InGroup(g, x))
    && (forall x :: x in w.blocks[u].params ==> !InGroup(g, x))
  }

  ghost predicate IsStepIn(w: Work, u: nat, i: nat, a: nat, x: nat) {
    u < |w.blocks| && i < |w.blocks[u].code| && a < |w.blocks[u].code[i].placements| &&
      x in w.blocks[u].code[i].placements[a].steps
  }

  /** The definer of an id in a group. */
  lemma DefinerInGroup(w: Work, u: nat, j: nat, x: nat) returns (d: Definer)
    requires u < |w.blocks| && j < |w.blocks[u].code| && InGroup(w.blocks[u].code[j], x)
    ensures IsDefined(w, d) && DefinedId(w, d) == x &&
      ((d.StepOf? && d.node == u && d.group == j) || (d.OwnOf? && d.node == u && d.group == j))
  {
    var g := w.blocks[u].code[j];
    if x in g.own {
      var i: nat :| i < |g.own| && g.own[i] == x;
      d := OwnOf(u, j, i);
    } else {
      var a: nat :| a < |g.placements| && x in g.placements[a].steps;
      var i: nat :| i < |g.placements[a].steps| && g.placements[a].steps[i] == x;
      d := StepOf(u, j, a, i);
    }
  }

  lemma DefinerOfStep(w: Work, u: nat, j: nat, a: nat, x: nat) returns (d: Definer)
    requires u < |w.blocks| && j < |w.blocks[u].code| && a < |w.blocks[u].code[j].placements| &&
      x in w.blocks[u].code[j].placements[a].steps
    ensures IsDefined(w, d) && DefinedId(w, d) == x && d.StepOf? && d.node == u && d.group == j && d.placement == a
  {
    var i: nat :| i < |w.blocks[u].code[j].placements[a].steps| && w.blocks[u].code[j].placements[a].steps[i] == x;
    d := StepOf(u, j, a, i);
  }

  lemma GroupIsApart(w: Work, u: nat, j: nat)
    requires Unique(w) && u < |w.blocks| && j < |w.blocks[u].code|
    ensures GroupApart(w, u, j)
  {
    var g := w.blocks[u].code[j];
    forall key | key in w.at.pool.ids ensures !InGroup(g, w.at.pool.ids[key]) {
      if InGroup(g, w.at.pool.ids[key]) {
        var d := DefinerInGroup(w, u, j, w.at.pool.ids[key]);
        SameDefiner(w, d, ConstantOf(key));
      }
    }
    forall a: nat, b: nat, x | a < |g.placements| && b < |g.placements| && a != b && x in g.placements[a].steps
      ensures x !in g.placements[b].steps
    {
      var d := DefinerOfStep(w, u, j, a, x);
      if x in g.placements[b].steps {
        var e := DefinerOfStep(w, u, j, b, x);
        SameDefiner(w, d, e);
      }
    }
    forall i: nat, a: nat, x | IsStepIn(w, u, i, a, x) && i != j ensures !InGroup(g, x) {
      var d := DefinerOfStep(w, u, i, a, x);
      if InGroup(g, x) {
        var e := DefinerInGroup(w, u, j, x);
        SameDefiner(w, d, e);
      }
    }
    forall x | x in w.blocks[u].params ensures !InGroup(g, x) {
      var k: nat :| k < |w.blocks[u].params| && w.blocks[u].params[k] == x;
      if InGroup(g, x) {
        var e := DefinerInGroup(w, u, j, x);
        SameDefiner(w, PhiOf(u, k), e);
      }
    }
  }

  lemma SameDefiner(w: Work, d: Definer, e: Definer)
    requires Unique(w) && IsDefined(w, d) && IsDefined(w, e) && DefinedId(w, d) == DefinedId(w, e)
    ensures d == e
  {
  }

  /** Placements that start from values still to be read, or from literals, are clean. */
  lemma PlacedIsClean(body: Body, p: Plan, w: Work, u: nat, j: nat, l: nat, values: seq<nat>)
    requires u < |p.nodes| && u < |body.blocks| && u < |w.blocks| && l < |w.blocks[u].code| && GroupApart(w, u, l)
    requires j <= |body.blocks[u].instrs| && AllAvailable(body, u, j, values)
    requires var g := w.blocks[u].code[l]; AllPlacedFrom(body, w, values, g.placements) && Shielded(body, p, w, u, j, g)
    ensures GroupClean(w, w.blocks[u].code[l])
  {
    var g := w.blocks[u].code[l];
    forall a: nat, b: nat | a < |g.placements| && b < |g.placements|
      ensures g.placements[a].from !in g.placements[b].steps
    {
      assert PlacedFrom(body, w, values[a], g.placements[a]) && LiveAt(body, p, u, j, values[a]);
      FromIsOutside(body, p, w, u, j, l, values[a], g.placements[a]);
      assert !InGroup(g, g.placements[a].from);
    }
  }

  /** Where a placement starts is written by no group that shields its value. */
  lemma FromIsOutside(body: Body, p: Plan, w: Work, u: nat, j: nat, l: nat, v: nat, placed: Placement)
    requires u < |p.nodes| && u < |w.blocks| && l < |w.blocks[u].code| && GroupApart(w, u, l) &&
      Shielded(body, p, w, u, j, w.blocks[u].code[l])
    requires LiveAt(body, p, u, j, v) && Yielding(body, v) && PlacedFrom(body, w, v, placed)
    ensures !InGroup(w.blocks[u].code[l], placed.from)
  {
    if placed.from != w.slots[v] {
      var kind: Class :| (kind, Constant(body, v).value) in w.at.pool.ids &&
        w.at.pool.ids[(kind, Constant(body, v).value)] == placed.from;
    }
  }

  /** The values an instruction's group places. */
  function GroupValues(body: Body, v: nat): seq<nat> {
    if v !in body.lowering.forms || v !in body.operands then []
    else
      match body.lowering.forms[v]
      case Literal(_, _) => []
      case Same(_) => body.operands[v][..if body.operands[v] == [] then 0 else 1]
      case Computed(_, _, _) => body.operands[v]
  }

  lemma InstructionIsClean(body: Body, p: Plan, w: Work, u: nat, j: nat)
    requires ValidSsa(body) && u < |body.blocks| && u < |p.nodes| && u < |w.blocks| && Unique(w)
    requires CodeFor(body, p, w, u, |body.blocks[u].instrs|) && j < |body.blocks[u].instrs|
    ensures GroupClean(w, w.blocks[u].code[j])
  {
    var v := body.blocks[u].instrs[j];
    GroupIsApart(w, u, j);
    PlacedIsClean(body, p, w, u, j, j, GroupValues(body, v));
  }

  // ---- the groups at a block's end ----

  /** The values the `i`-th group of a block brings along, past its instructions: the tested one, or a branch's. */
  function TailValues(body: Body, p: Plan, u: nat, i: nat): seq<nat>
    requires PlanIndexes(body, p) && u < |body.blocks|
  {
    if HasTest(body, u) && i == InstructionCount(body, u) then [TestOf(body.blocks[u].terminator)]
    else if PassAt(body, u) <= i < PassAt(body, u) + |p.targets[u]| then
      assert |p.targets[u]| == TargetCount(body, p, u);
      BranchOf(body, p, u, i - PassAt(body, u)).args
    else []
  }

  ghost predicate TailFor(body: Body, p: Plan, w: Work, u: nat, i: nat)
    requires PlanIndexes(body, p) && u < |body.blocks| && u < |w.blocks| && i < |w.blocks[u].code|
  {
    var g := w.blocks[u].code[i];
    && g.own == [] && g.role == Still
    && AllPlacedFrom(body, w, TailValues(body, p, u, i), g.placements)
    && Shielded(body, p, w, u, InstructionCount(body, u), g)
    && AllAvailable(body, u, InstructionCount(body, u), TailValues(body, p, u, i))
  }

  lemma UsesAreAvailable(body: Body, p: Plan, u: nat, i: nat)
    requires ValidSsa(body) && PlanIndexes(body, p) && u < |body.blocks| && TerminatorFits(body.blocks[u].terminator)
    ensures AllAvailable(body, u, InstructionCount(body, u), TailValues(body, p, u, i))
  {
    var values, uses := TailValues(body, p, u, i), Uses(body.blocks[u].terminator);
    if PassAt(body, u) <= i < PassAt(body, u) + |p.targets[u]| {
      assert |p.targets[u]| == TargetCount(body, p, u);
      BranchArgsAreUses(body, p, u, i - PassAt(body, u));
    }
    assert forall v :: v in values ==> v in uses;
    forall k | 0 <= k < |values|
      ensures Available(body, u, InstructionCount(body, u), values[k]) && Yielding(body, values[k])
    {
      assert values[k] in uses;
      var l :| 0 <= l < |uses| && uses[l] == values[k];
    }
  }

  lemma TailFromParts(body: Body, p: Plan, w: Work, u: nat, i: nat)
    requires PlanIndexes(body, p) && ClosedAs(body, p, w, u) && u < |body.blocks| &&
      InstructionCount(body, u) <= i < |w.blocks[u].code|
    requires AllAvailable(body, u, InstructionCount(body, u), TailValues(body, p, u, i))
    requires forall k: nat :: k < |p.targets[u]| ==> Filed(body, p, w, u, k)
    ensures TailFor(body, p, w, u, i)
  {
    assert |p.targets[u]| == TargetCount(body, p, u);
    if !(HasTest(body, u) && i == InstructionCount(body, u)) {
      assert PassAt(body, u) <= i < PassAt(body, u) + |p.targets[u]|;
      assert Filed(body, p, w, u, i - PassAt(body, u));
    }
  }

  /** The end of a block: each group brings its values along, on ids no other group of the block writes. */
  ghost predicate Tailed(body: Body, p: Plan, w: Work, u: nat)
    requires PlanIndexes(body, p)
  {
    && u < |body.blocks| && BlockClean(body, p, w, u)
    && forall i: nat :: InstructionCount(body, u) <= i < |w.blocks[u].code| ==>
         TailFor(body, p, w, u, i) && GroupApart(w, u, i)
  }

  lemma TailIsFor(body: Body, p: Plan, w: Work, u: nat, i: nat)
    requires Built(body, p, w) && u < |body.blocks| && InstructionCount(body, u) <= i < |w.blocks[u].code|
    ensures TailFor(body, p, w, u, i)
  {
    UsesAreAvailable(body, p, u, i);
    assert ClosedAs(body, p, w, u);
    TailFromParts(body, p, w, u, i);
  }

  /** The words of a tail group's values are where its placements leave them. */
  ghost predicate TailDelivered(body: Body, p: Plan, w: Work, u: nat, i: nat, env: map<nat, int>, ids: map<nat, int>)
    requires PlanIndexes(body, p) && u < |body.blocks| && u < |w.blocks| && i < |w.blocks[u].code|
  {
    var values, ps := TailValues(body, p, u, i), w.blocks[u].code[i].placements;
    |ps| == |values| && forall a: nat :: a < |ps| ==> Get(ids, Yield(ps[a])) == Get(env, values[a])
  }

  /** Another group of the block writes on nothing a tail group left. */
  lemma YieldIsOutside(body: Body, p: Plan, w: Work, u: nat, i: nat, j: nat, a: nat)
    requires PlanIndexes(body, p) && u < |body.blocks| && u < |w.blocks| && i < |w.blocks[u].code| &&
      j < |w.blocks[u].code| && i != j
    requires TailFor(body, p, w, u, i) && TailFor(body, p, w, u, j) && GroupApart(w, u, j) &&
      a < |w.blocks[u].code[i].placements|
    ensures !InGroup(w.blocks[u].code[j], Yield(w.blocks[u].code[i].placements[a]))
  {
    var placed := w.blocks[u].code[i].placements[a];
    var v := TailValues(body, p, u, i)[a];
    assert PlacedFrom(body, w, v, placed) && LiveAt(body, p, u, InstructionCount(body, u), v);
    if placed.steps == [] {
      FromIsOutside(body, p, w, u, InstructionCount(body, u), j, v, placed);
    } else {
      assert IsStepIn(w, u, i, a, Yield(placed));
    }
  }

  lemma TailGroupRuns(m: Meaning, body: Body, p: Plan, w: Work, u: nat, i: nat, env: map<nat, int>, ids: map<nat, int>,
      memory: seq<int>)
    requires PlanIndexes(body, p) && u < |body.blocks| && BlockClean(body, p, w, u) && i < |w.blocks[u].code| &&
      TailFor(body, p, w, u, i)
    requires PoolHolds(w.at.pool, ids) && LiveHolds(body, p, w, u, InstructionCount(body, u), env, ids)
    ensures var (ids', mem) := RunGroup(m, w.blocks[u].code[i], ids, memory);
      && mem == memory && PoolHolds(w.at.pool, ids') && LiveHolds(body, p, w, u, InstructionCount(body, u), env, ids')
      && TailDelivered(body, p, w, u, i, env, ids')
      && forall x :: !InGroup(w.blocks[u].code[i], x) ==> Unmoved(ids, ids', x)
  {
    var g := w.blocks[u].code[i];
    GroupRuns(m, g, ids, memory);
    var ids' := RunGroup(m, g, ids, memory).0;
    PoolStays(w, g, ids, ids');
    LiveStays(body, p, w, u, InstructionCount(body, u), g, env, ids, ids');
    ValuesRead(body, p, w, u, InstructionCount(body, u), TailValues(body, p, u, i), g.placements, env, ids);
  }

  /** What the end of a block has left once its first `i` groups have run. */
  ghost predicate TailHolds(body: Body, p: Plan, w: Work, u: nat, i: nat, env: map<nat, int>, ids: map<nat, int>)
    requires PlanIndexes(body, p) && u < |body.blocks| && u < |w.blocks| && i <= |w.blocks[u].code|
  {
    && PoolHolds(w.at.pool, ids) && LiveHolds(body, p, w, u, InstructionCount(body, u), env, ids)
    && forall t: nat :: InstructionCount(body, u) <= t < i ==> TailDelivered(body, p, w, u, t, env, ids)
  }

  lemma TailStep(m: Meaning, body: Body, p: Plan, w: Work, u: nat, i: nat, env: map<nat, int>, ids: map<nat, int>,
      memory: seq<int>)
    requires PlanIndexes(body, p) && Tailed(body, p, w, u)
    requires InstructionCount(body, u) <= i < |w.blocks[u].code| && TailHolds(body, p, w, u, i, env, ids)
    ensures var (ids', mem) := RunGroup(m, w.blocks[u].code[i], ids, memory);
      mem == memory && TailHolds(body, p, w, u, i + 1, env, ids')
  {
    TailGroupRuns(m, body, p, w, u, i, env, ids, memory);
    var ids' := RunGroup(m, w.blocks[u].code[i], ids, memory).0;
    forall t: nat | InstructionCount(body, u) <= t < i ensures TailDelivered(body, p, w, u, t, env, ids') {
      DeliveredStays(body, p, w, u, t, i, env, ids, ids');
    }
  }

  lemma DeliveredStays(body: Body, p: Plan, w: Work, u: nat, t: nat, i: nat, env: map<nat, int>, ids: map<nat, int>,
      ids': map<nat, int>)
    requires PlanIndexes(body, p) && u < |body.blocks| && u < |w.blocks| && t < |w.blocks[u].code| &&
      i < |w.blocks[u].code| && t != i
    requires TailFor(body, p, w, u, t) && TailFor(body, p, w, u, i) && GroupApart(w, u, i) &&
      TailDelivered(body, p, w, u, t, env, ids)
    requires forall x :: !InGroup(w.blocks[u].code[i], x) ==> Unmoved(ids, ids', x)
    ensures TailDelivered(body, p, w, u, t, env, ids')
  {
    var ps := w.blocks[u].code[t].placements;
    forall a: nat | a < |ps| ensures Get(ids', Yield(ps[a])) == Get(ids, Yield(ps[a])) {
      YieldIsOutside(body, p, w, u, t, i, a);
      assert Unmoved(ids, ids', Yield(ps[a]));
    }
  }

  lemma RunCodeSnoc(m: Meaning, code: seq<Group>, i: nat, ids: map<nat, int>, memory: seq<int>)
    requires i < |code|
    ensures var (e, mem) := RunCode(m, code[..i], ids, memory);
      RunCode(m, code[..i + 1], ids, memory) == RunGroup(m, code[i], e, mem)
  {
    assert code[..i + 1][..i] == code[..i];
  }

  lemma {:induction false} TailRuns(m: Meaning, body: Body, p: Plan, w: Work, u: nat, i: nat, env: map<nat, int>,
      ids: map<nat, int>, memory: seq<int>)
    requires PlanIndexes(body, p) && Tailed(body, p, w, u)
    requires InstructionCount(body, u) <= i <= |w.blocks[u].code|
    requires var (e, mem) := Run(m, body, body.blocks[u].instrs, env, memory);
      var (ids', mem') := RunCode(m, w.blocks[u].code[..InstructionCount(body, u)], ids, memory);
      mem == mem' && PoolHolds(w.at.pool, ids') && LiveHolds(body, p, w, u, InstructionCount(body, u), e, ids')
    ensures var (e, mem) := Run(m, body, body.blocks[u].instrs, env, memory);
      var (ids', mem') := RunCode(m, w.blocks[u].code[..i], ids, memory);
      mem == mem' && TailHolds(body, p, w, u, i, e, ids')
    decreases i
  {
    if i > InstructionCount(body, u) {
      TailRuns(m, body, p, w, u, i - 1, env, ids, memory);
      var (e, mem) := Run(m, body, body.blocks[u].instrs, env, memory);
      TailSnoc(m, body, p, w, u, i - 1, e, mem, ids, memory);
    }
  }

  lemma TailSnoc(m: Meaning, body: Body, p: Plan, w: Work, u: nat, i: nat, env: map<nat, int>, mem: seq<int>,
      ids: map<nat, int>, memory: seq<int>)
    requires PlanIndexes(body, p) && Tailed(body, p, w, u)
    requires InstructionCount(body, u) <= i < |w.blocks[u].code|
    requires var (ids', mem') := RunCode(m, w.blocks[u].code[..i], ids, memory);
      mem == mem' && TailHolds(body, p, w, u, i, env, ids')
    ensures var (ids', mem') := RunCode(m, w.blocks[u].code[..i + 1], ids, memory);
      mem == mem' && TailHolds(body, p, w, u, i + 1, env, ids')
  {
    RunCodeSnoc(m, w.blocks[u].code, i, ids, memory);
    TailStep(m, body, p, w, u, i, env, RunCode(m, w.blocks[u].code[..i], ids, memory).0, mem);
  }

  // ---- a whole block's code ----

  lemma ConstantsAreLiterals(body: Body, p: Plan, w: Work)
    requires Built(body, p, w)
    ensures ConstantsSit(body, w)
  {
    forall v, b: nat {:trigger Constant(body, v), Defines(body, b, v)} | Defines(body, b, v) &&
      Constant(body, v).Some? && v in w.slots
      ensures LiteralId(w.at.pool, Constant(body, v).value, w.slots[v])
    {
      assert v in body.blocks[b].instrs;
      var j: nat :| j < |body.blocks[b].instrs| && body.blocks[b].instrs[j] == v;
      assert ClosedAs(body, p, w, b);
      assert GroupFor(body, w, v, w.blocks[b].code[j]);
      assert (body.lowering.forms[v].kind, body.lowering.forms[v].value) in w.at.pool.ids;
    }
  }

  lemma RealIsClean(body: Body, p: Plan, w: Work, u: nat)
    requires Built(body, p, w) && u < |body.blocks|
    ensures Tailed(body, p, w, u) && CodeFor(body, p, w, u, InstructionCount(body, u))
  {
    ConstantsAreLiterals(body, p, w);
    assert ClosedAs(body, p, w, u);
    forall j: nat | InstructionCount(body, u) <= j < |w.blocks[u].code|
      ensures TailFor(body, p, w, u, j) && GroupApart(w, u, j)
    {
      TailIsFor(body, p, w, u, j);
      GroupIsApart(w, u, j);
    }
    forall j: nat | j < |w.blocks[u].code| ensures GroupClean(w, w.blocks[u].code[j]) {
      if j < |body.blocks[u].instrs| {
        InstructionIsClean(body, p, w, u, j);
      } else {
        PlacedIsClean(body, p, w, u, |body.blocks[u].instrs|, j, TailValues(body, p, u, j));
      }
    }
  }

  /**
  A real block's code leaves what its instructions leave, and every value its end reads or passes is where it looks.
   */
  lemma BlockRuns(m: Meaning, body: Body, p: Plan, w: Work, u: nat, env: map<nat, int>, ids: map<nat, int>,
      memory: seq<int>)
    requires Built(body, p, w) && u < |body.blocks|
    requires PoolHolds(w.at.pool, ids) && LiveHolds(body, p, w, u, 0, env, ids)
    ensures var (e, mem) := Run(m, body, body.blocks[u].instrs, env, memory);
      var (ids', mem') := RunCode(m, w.blocks[u].code, ids, memory);
      mem == mem' && TailHolds(body, p, w, u, |w.blocks[u].code|, e, ids')
  {
    RealIsClean(body, p, w, u);
    var n := |body.blocks[u].instrs|;
    CodeRuns(m, body, p, w, u, n, env, ids, memory);
    assert body.blocks[u].instrs[..n] == body.blocks[u].instrs;
    TailRuns(m, body, p, w, u, |w.blocks[u].code|, env, ids, memory);
    assert w.blocks[u].code[..|w.blocks[u].code|] == w.blocks[u].code;
  }

  // ---- jumps ----

  lemma {:induction false} BindFacts(env: map<nat, int>, names: seq<nat>, words: seq<int>)
    requires |names| == |words| && Distinct(names)
    ensures forall v :: v in Bind(env, names, words) <==> v in env || v in names
    ensures forall v :: v !in names ==> Unmoved(env, Bind(env, names, words), v)
    ensures forall k :: 0 <= k < |names| ==> Bind(env, names, words)[names[k]] == words[k]
  {
    if names != [] {
      var last := |names| - 1;
      BindFacts(env, names[..last], words[..last]);
      assert names == names[..last] + [names[last]];
      assert forall k :: 0 <= k < last ==> names[k] == names[..last][k];
    }
  }

  lemma {:induction false} LocateFinds(labels: seq<nat>, i: nat)
    requires i < |labels| && forall j: nat, k: nat :: j < |labels| && k < |labels| && labels[j] == labels[k] ==> j == k
    ensures Locate(labels, labels[i]) == Some(i)
  {
    if i < |labels| - 1 {
      LocateFinds(labels[..|labels| - 1], i);
    }
  }

  lemma {:induction false} FindEdgeFinds(edges: seq<Incoming>, e: Incoming)
    requires e in edges && DistinctSources(edges)
    ensures FindEdge(edges, e.from) == Some(e)
  {
    if edges[0] != e {
      var i :| 0 <= i < |edges| && edges[i] == e;
      assert edges[1..][i - 1] == e;
      FindEdgeFinds(edges[1..], e);
    }
  }

  /** Branching to a recorded target lands there, with the words its edge passes. */
  lemma JumpLands(body: Body, f: Function, u: nat, k: nat, ids: map<nat, int>, memory: seq<int>)
    requires PlanLinks(body, f.plan) && Finished(body, f.plan, f.work)
    requires u < |f.plan.nodes| && k < |f.plan.targets[u]|
    ensures var j := f.plan.targets[u][k];
      j < |f.plan.nodes| && j != body.entry && PassAt(body, u) + k < |f.work.blocks[u].code| &&
      |PassArgs(body, f.work.blocks[u].code, u, k)| == |f.work.blocks[j].params| &&
      Jump(f, f.plan.labels[u], f.plan.labels[j], ids, memory) ==
        AtNode(j, Bind(ids, f.work.blocks[j].params, Read(ids, PassArgs(body, f.work.blocks[u].code, u, k))), memory)
  {
    var j := f.plan.targets[u][k];
    LocateFinds(f.plan.labels, j);
    assert Filed(body, f.plan, f.work, u, k);
    FindEdgeFinds(f.work.blocks[j].edges, Incoming(f.plan.labels[u], PassArgs(body, f.work.blocks[u].code, u, k)));
    assert FinishedParams(body, f.plan, f.work, j);
    PassCount(body, f.plan, f.work, u, k);
  }

  lemma PassCount(body: Body, p: Plan, w: Work, u: nat, k: nat)
    requires PlanLinks(body, p) && Filed(body, p, w, u, k)
    ensures |PassArgs(body, w.blocks[u].code, u, k)| == p.arities[p.targets[u][k]]
  {
    if u >= |body.blocks| { assert |p.targets[u]| == TargetCount(body, p, u) == 1; }
  }

  // ---- what a node holds ----

  /** Whatever is defined above block `c` is held. */
  ghost predicate AboveHolds(body: Body, w: Work, c: nat, env: map<nat, int>, ids: map<nat, int>) {
    forall v :: FromAbove(body, c, v) && Yielding(body, v) ==> Holds(w, env, ids, v)
  }

  /** The ids a node has received hold the words of block `c`'s parameters. */
  ghost predicate ParamsHold(body: Body, c: nat, received: seq<nat>, env: map<nat, int>, ids: map<nat, int>)
    requires c < |body.blocks|
  {
    var params := body.blocks[c].params;
    |received| == |params| && forall k :: 0 <= k < |params| ==>
      params[k] in env && received[k] in ids && env[params[k]] == ids[received[k]]
  }

  /** The ids of a node's parameters: the entry's are the function's own. */
  ghost function ReceivedAt(body: Body, w: Work, i: nat): seq<nat>
    requires i < |w.blocks| && body.entry < |body.blocks| && AllIn(w.slots, body.blocks[body.entry].params)
  {
    if i == body.entry then Ids(w.slots, body.blocks[i].params) else w.blocks[i].params
  }

  /** The emitted machine is at the body's block, or in an added block on the way to it. */
  ghost predicate Related(body: Body, f: Function, s: Source, t: Target)
    requires Finished?(body, f)
  {
    match (s, t)
    case (Done(r, mem), Left(r', mem')) => mem == mem' && r' == if body.lowering.launched then None else Some(r)
    case (At(b, env, mem), AtNode(i, ids, mem')) =>
      && mem == mem' && b < |body.blocks| && i < |f.plan.nodes| && Destination(f.plan.nodes[i]) == b
      && PoolHolds(f.work.at.pool, ids) && AboveHolds(body, f.work, b, env, ids)
      && ParamsHold(body, b, ReceivedAt(body, f.work, i), env, ids)
    case _ => false
  }

  /** What relating the machines takes. */
  ghost predicate Finished?(body: Body, f: Function) {
    body.entry < |body.blocks| && |f.work.blocks| == |f.plan.nodes| &&
      AllIn(f.work.slots, body.blocks[body.entry].params)
  }

  /** At a real block the parameters are on their values' ids, so everything it may read is held. */
  lemma RealStarts(body: Body, f: Function, u: nat, env: map<nat, int>, ids: map<nat, int>, memory: seq<int>)
    requires Built(body, f.plan, f.work) && u < |body.blocks| &&
      Related(body, f, At(u, env, memory), AtNode(u, ids, memory))
    ensures LiveHolds(body, f.plan, f.work, u, 0, env, ids)
  {
    assert u != body.entry ==> FinishedParams(body, f.plan, f.work, u);
    forall v | LiveAt(body, f.plan, u, 0, v) && Yielding(body, v) ensures Holds(f.work, env, ids, v) {
      if v in body.blocks[u].params {
        var k :| 0 <= k < |body.blocks[u].params| && body.blocks[u].params[k] == v;
        assert ReceivedAt(body, f.work, u)[k] == f.work.slots[v];
      }
    }
  }

  /** Binding a node's parameters moves no literal and nothing from above. */
  lemma BindKeeps(body: Body, p: Plan, w: Work, j: nat, words: seq<int>, ids: map<nat, int>)
    requires Built(body, p, w) && j < |p.nodes| && j != body.entry && |words| == |w.blocks[j].params| &&
      PoolHolds(w.at.pool, ids)
    ensures Distinct(w.blocks[j].params)
    ensures PoolHolds(w.at.pool, Bind(ids, w.blocks[j].params, words))
    ensures forall v :: FromAbove(body, Destination(p.nodes[j]), v) && Yielding(body, v) ==>
      v in w.slots && Unmoved(ids, Bind(ids, w.blocks[j].params, words), w.slots[v])
  {
    assert FinishedParams(body, p, w, j);
    var params := w.blocks[j].params;
    BindFacts(ids, params, words);
    forall key | key in w.at.pool.ids ensures w.at.pool.ids[key] !in params {
      if w.at.pool.ids[key] in params {
        var k: nat :| k < |params| && params[k] == w.at.pool.ids[key];
        SameDefiner(w, PhiOf(j, k), ConstantOf(key));
      }
    }
    assert AboveShielded(body, w, Destination(p.nodes[j]), params);
  }

  /** What block `c` defines is not defined above it. */
  lemma AboveIsNotOwn(body: Body, c: nat, v: nat)
    requires ValidSsa(body) && c < |body.blocks| && FromAbove(body, c, v)
    ensures v !in body.blocks[c].params
  {
    var d: nat :| d != c && Defines(body, d, v) && Dominates(Flow(body), body.entry, d, c);
    if v in body.blocks[c].params { assert Defines(body, c, v); }
  }

  lemma ParamsAreDistinct(body: Body, c: nat)
    requires ValidSsa(body) && c < |body.blocks|
    ensures Distinct(body.blocks[c].params)
  {
    assert Distinct(body.blocks[c].params + body.blocks[c].instrs);
    DistinctParts(body.blocks[c].params, body.blocks[c].instrs);
  }

  /** Landing on node `j` for block `c`: parameters bound to the same words on both sides, nothing above moved. */
  lemma Lands(body: Body, f: Function, j: nat, c: nat, env: map<nat, int>, env': map<nat, int>, ids: map<nat, int>,
      words: seq<int>, memory: seq<int>)
    requires Built(body, f.plan, f.work) && j < |f.plan.nodes| && j != body.entry && c == Destination(f.plan.nodes[j])
    requires PoolHolds(f.work.at.pool, ids) && AboveHolds(body, f.work, c, env, ids)
    requires |words| == |f.work.blocks[j].params| == |body.blocks[c].params|
    requires forall k :: 0 <= k < |words| ==>
      body.blocks[c].params[k] in env' && env'[body.blocks[c].params[k]] == words[k]
    requires forall v :: v !in body.blocks[c].params ==> Unmoved(env, env', v)
    ensures Related(body, f, At(c, env', memory), AtNode(j, Bind(ids, f.work.blocks[j].params, words), memory))
  {
    BindKeeps(body, f.plan, f.work, j, words, ids);
    BindFacts(ids, f.work.blocks[j].params, words);
    var ids' := Bind(ids, f.work.blocks[j].params, words);
    forall v | FromAbove(body, c, v) && Yielding(body, v) ensures Holds(f.work, env', ids', v) {
      AboveIsNotOwn(body, c, v);
      assert Holds(f.work, env, ids, v) && Unmoved(env, env', v) && Unmoved(ids, ids', f.work.slots[v]);
    }
  }

  // ---- one block ----

  /** The emitted machine moves along the emitted graph. */
  ghost predicate Follows(f: Function, t: Target, after: Target) {
    t.AtNode? && after.AtNode? ==> t.node < |f.plan.targets| && after.node in f.plan.targets[t.node]
  }

  /** The label a branch instruction goes to. */
  function ChosenLabel(m: Meaning, exit: Exit, ids: map<nat, int>): Option<nat> {
    match exit
    case Goto(to) => Some(to)
    case Choose(cond, onTrue, onFalse) => Some(if m.truth(Get(ids, cond)) then onTrue else onFalse)
    case _ => None
  }

  /** The id a block's end reads holds the word of the value it tests or returns. */
  lemma TestReads(body: Body, p: Plan, w: Work, u: nat, env: map<nat, int>, ids: map<nat, int>)
    requires Built(body, p, w) && u < |body.blocks| && HasTest(body, u)
    requires TailHolds(body, p, w, u, |w.blocks[u].code|, env, ids)
    ensures Get(ids, TestId(w.blocks[u].code, InstructionCount(body, u))) == Get(env, TestOf(body.blocks[u].terminator))
  {
    assert ClosedAs(body, p, w, u);
    assert TailDelivered(body, p, w, u, InstructionCount(body, u), env, ids);
  }

  /** The emitted branch goes where the body's does, a loop header's with its arms the right way round. */
  lemma ExitTakes(m: Meaning, body: Body, p: Plan, w: Work, u: nat, env: map<nat, int>, ids: map<nat, int>)
    returns (k: nat)
    requires Built(body, p, w) && u < |body.blocks| && !body.blocks[u].terminator.Return?
    requires TailHolds(body, p, w, u, |w.blocks[u].code|, env, ids)
    ensures k < |p.targets[u]| == TargetCount(body, p, u)
    ensures ChosenLabel(m, w.blocks[u].exit, ids) == Some(p.labels[p.targets[u][k]])
    ensures BranchOf(body, p, u, k).target == Take(m, body.blocks[u].terminator, env).target
    ensures BranchOf(body, p, u, k).args == Take(m, body.blocks[u].terminator, env).args
  {
    var t := body.blocks[u].terminator;
    assert ClosedAs(body, p, w, u) && TerminatorFits(t);
    assert |p.targets[u]| == TargetCount(body, p, u);
    if HasTest(body, u) { TestReads(body, p, w, u, env, ids); }
    k := ExitChooses(m, body, p, w.blocks[u].code, u, env, ids);
  }

  lemma ExitChooses(m: Meaning, body: Body, p: Plan, code: seq<Group>, u: nat, env: map<nat, int>, ids: map<nat, int>)
    returns (k: nat)
    requires PlanIndexes(body, p) && u < |body.blocks| && !body.blocks[u].terminator.Return? &&
      TerminatorFits(body.blocks[u].terminator)
    requires u < |p.nodes| && |p.targets[u]| == TargetCount(body, p, u)
    requires HasTest(body, u) ==>
      Get(ids, TestId(code, InstructionCount(body, u))) == Get(env, TestOf(body.blocks[u].terminator))
    ensures k < |p.targets[u]| && ChosenLabel(m, ExitOf(body, p, code, u), ids) == Some(p.labels[p.targets[u][k]])
    ensures BranchOf(body, p, u, k).target == Take(m, body.blocks[u].terminator, env).target
    ensures BranchOf(body, p, u, k).args == Take(m, body.blocks[u].terminator, env).args
  {
    var t := body.blocks[u].terminator;
    if t.Br? || TargetCount(body, p, u) == 1 {
      k := 0;
    } else {
      var staysFirst := p.loopBodies[u].None? || t.ifTrue.target == p.loopBodies[u].value;
      k := if m.truth(Get(env, t.cond)) == staysFirst then 0 else 1;
    }
  }

  lemma TargetJumps(m: Meaning, f: Function, u: nat, ids: map<nat, int>, memory: seq<int>)
    requires u < |f.work.blocks| && u < |f.plan.labels|
    requires ChosenLabel(m, f.work.blocks[u].exit, RunCode(m, f.work.blocks[u].code, ids, memory).0).Some?
    ensures var (e, mem) := RunCode(m, f.work.blocks[u].code, ids, memory);
      TargetStep(m, f, AtNode(u, ids, memory)) ==
        Jump(f, f.plan.labels[u], ChosenLabel(m, f.work.blocks[u].exit, e).value, e, mem)
  {
  }

  /** What a branch of a real block passes are the words of its arguments. */
  lemma PassReads(body: Body, p: Plan, w: Work, u: nat, k: nat, env: map<nat, int>, ids: map<nat, int>)
    requires PlanIndexes(body, p) && Filed(body, p, w, u, k) && u < |body.blocks|
    requires TailHolds(body, p, w, u, |w.blocks[u].code|, env, ids)
    ensures k < TargetCount(body, p, u)
    ensures Read(ids, PassArgs(body, w.blocks[u].code, u, k)) == Read(env, BranchOf(body, p, u, k).args)
  {
    assert |p.targets[u]| == TargetCount(body, p, u);
    var i := PassAt(body, u) + k;
    assert TailDelivered(body, p, w, u, i, env, ids);
    assert TailValues(body, p, u, i) == BranchOf(body, p, u, k).args;
  }

  /** Everything above a block's successor is live at the block's end. */
  lemma AboveIsLive(body: Body, p: Plan, w: Work, u: nat, c: nat, env: map<nat, int>, ids: map<nat, int>)
    requires u < |body.blocks| && u < |p.nodes| && Edge(Flow(body), u, c) &&
      LiveHolds(body, p, w, u, InstructionCount(body, u), env, ids)
    ensures AboveHolds(body, w, c, env, ids)
  {
    var n := |body.blocks[u].instrs|;
    assert body.blocks[u].instrs[..n] == body.blocks[u].instrs;
    forall v | FromAbove(body, c, v) && Yielding(body, v) ensures Holds(w, env, ids, v) {
      AboveTheNext(body, u, c, v);
      assert LiveAt(body, p, u, n, v);
    }
  }

  /** What a real block passes along a branch, and that nothing above its target is lost. */
  lemma RealPasses(body: Body, p: Plan, w: Work, u: nat, k: nat, env: map<nat, int>, ids: map<nat, int>)
    requires Built(body, p, w) && u < |body.blocks| && k < |p.targets[u]| == TargetCount(body, p, u)
    requires TailHolds(body, p, w, u, |w.blocks[u].code|, env, ids)
    ensures PassAt(body, u) + k < |w.blocks[u].code|
    ensures Read(ids, PassArgs(body, w.blocks[u].code, u, k)) == Read(env, BranchOf(body, p, u, k).args)
    ensures Destination(p.nodes[p.targets[u][k]]) == BranchOf(body, p, u, k).target
    ensures AboveHolds(body, w, BranchOf(body, p, u, k).target, env, ids)
  {
    assert Filed(body, p, w, u, k);
    PassReads(body, p, w, u, k, env, ids);
    AboveIsLive(body, p, w, u, BranchOf(body, p, u, k).target, env, ids);
  }

  /** The landing after a real block: the parameters are bound to the branch's arguments on both sides. */
  lemma RealLands(body: Body, f: Function, u: nat, k: nat, b: Branch, env: map<nat, int>, ids: map<nat, int>,
      memory: seq<int>)
    requires Built(body, f.plan, f.work) && u < |body.blocks| &&
      k < |f.plan.targets[u]| == TargetCount(body, f.plan, u) && BranchFits(body, b)
    requires TailHolds(body, f.plan, f.work, u, |f.work.blocks[u].code|, env, ids)
    requires BranchOf(body, f.plan, u, k).target == b.target && BranchOf(body, f.plan, u, k).args == b.args
    ensures var j := f.plan.targets[u][k]; var t := Jump(f, f.plan.labels[u], f.plan.labels[j], ids, memory);
      Related(body, f, Enter(body, b, env, memory), t) && t.AtNode? && t.node == j
  {
    var j := f.plan.targets[u][k];
    JumpLands(body, f, u, k, ids, memory);
    RealPasses(body, f.plan, f.work, u, k, env, ids);
    BranchLands(body, f, j, b, env, ids, memory);
  }

  lemma BranchLands(body: Body, f: Function, j: nat, b: Branch, env: map<nat, int>, ids: map<nat, int>,
      memory: seq<int>)
    requires Built(body, f.plan, f.work) && j < |f.plan.nodes| && j != body.entry &&
      b.target == Destination(f.plan.nodes[j]) && BranchFits(body, b)
    requires PoolHolds(f.work.at.pool, ids) && AboveHolds(body, f.work, b.target, env, ids) &&
      |f.work.blocks[j].params| == |b.args|
    ensures Related(body, f, Enter(body, b, env, memory),
      AtNode(j, Bind(ids, f.work.blocks[j].params, Read(env, b.args)), memory))
  {
    var words := Read(env, b.args);
    ParamsAreDistinct(body, b.target);
    BindFacts(env, body.blocks[b.target].params, words);
    Lands(body, f, j, b.target, env, Bind(env, body.blocks[b.target].params, words), ids, words, memory);
  }

  lemma SourceGoes(m: Meaning, body: Body, u: nat, env: map<nat, int>, memory: seq<int>)
    requires ValidBody(body) && u < |body.blocks| && !body.blocks[u].terminator.Return?
    ensures var (e, mem) := Run(m, body, body.blocks[u].instrs, env, memory);
      BranchFits(body, Take(m, body.blocks[u].terminator, e)) &&
      Step(m, body, At(u, env, memory)) == Enter(body, Take(m, body.blocks[u].terminator, e), e, mem)
  {
    TakenFits(m, body, u, Run(m, body, body.blocks[u].instrs, env, memory).0);
  }

  lemma RealGoes(m: Meaning, body: Body, f: Function, u: nat, env: map<nat, int>, ids: map<nat, int>, memory: seq<int>)
    requires Built(body, f.plan, f.work) && u < |body.blocks| && !body.blocks[u].terminator.Return?
    requires Related(body, f, At(u, env, memory), AtNode(u, ids, memory))
    ensures Related(body, f, Step(m, body, At(u, env, memory)), TargetStep(m, f, AtNode(u, ids, memory)))
    ensures Follows(f, AtNode(u, ids, memory), TargetStep(m, f, AtNode(u, ids, memory)))
  {
    RealStarts(body, f, u, env, ids, memory);
    BlockRuns(m, body, f.plan, f.work, u, env, ids, memory);
    var (e, mem) := Run(m, body, body.blocks[u].instrs, env, memory);
    var ids' := RunCode(m, f.work.blocks[u].code, ids, memory).0;
    var k := ExitTakes(m, body, f.plan, f.work, u, e, ids');
    SourceGoes(m, body, u, env, memory);
    RealLands(body, f, u, k, Take(m, body.blocks[u].terminator, e), e, ids', mem);
    TargetJumps(m, f, u, ids, memory);
  }

  lemma RealReturns(m: Meaning, body: Body, f: Function, u: nat, env: map<nat, int>, ids: map<nat, int>,
      memory: seq<int>)
    requires Built(body, f.plan, f.work) && u < |body.blocks| && body.blocks[u].terminator.Return?
    requires Related(body, f, At(u, env, memory), AtNode(u, ids, memory))
    ensures Related(body, f, Step(m, body, At(u, env, memory)), TargetStep(m, f, AtNode(u, ids, memory)))
    ensures TargetStep(m, f, AtNode(u, ids, memory)).Left?
  {
    RealStarts(body, f, u, env, ids, memory);
    BlockRuns(m, body, f.plan, f.work, u, env, ids, memory);
    LeavesWhatItReturns(body, f.plan, f.work, u, Run(m, body, body.blocks[u].instrs, env, memory).0,
      RunCode(m, f.work.blocks[u].code, ids, memory).0);
    assert TerminatorFits(body.blocks[u].terminator);
  }

  /** The emitted block ends as the body's does: an entry point without a word, a callee with the one returned. */
  lemma LeavesWhatItReturns(body: Body, p: Plan, w: Work, u: nat, env: map<nat, int>, ids: map<nat, int>)
    requires Built(body, p, w) && u < |body.blocks| && body.blocks[u].terminator.Return?
    requires TailHolds(body, p, w, u, |w.blocks[u].code|, env, ids)
    ensures
      if body.lowering.launched then w.blocks[u].exit == End
      else w.blocks[u].exit.Leave? && Get(ids, w.blocks[u].exit.result) == Get(env, TestOf(body.blocks[u].terminator))
  {
    assert ClosedAs(body, p, w, u);
    if !body.lowering.launched { TestReads(body, p, w, u, env, ids); }
  }

  /** From a real block, one step of both machines keeps them related. */
  lemma RealSteps(m: Meaning, body: Body, f: Function, u: nat, env: map<nat, int>, ids: map<nat, int>, memory: seq<int>)
    requires Built(body, f.plan, f.work) && u < |body.blocks| &&
      Related(body, f, At(u, env, memory), AtNode(u, ids, memory))
    ensures Related(body, f, Step(m, body, At(u, env, memory)), TargetStep(m, f, AtNode(u, ids, memory)))
    ensures Follows(f, AtNode(u, ids, memory), TargetStep(m, f, AtNode(u, ids, memory)))
  {
    if body.blocks[u].terminator.Return? {
      RealReturns(m, body, f, u, env, ids, memory);
    } else {
      RealGoes(m, body, f, u, env, ids, memory);
    }
  }

  // ---- added blocks ----

  /** An added block's one group writes over nothing it passes, nothing from above and no literal. */
  lemma AddedIsClean(body: Body, p: Plan, w: Work, i: nat)
    requires Built(body, p, w) && |body.blocks| <= i < |p.nodes|
    ensures |p.targets[i]| == 1 && |w.blocks[i].code| == 1 && PassFor(body, p, w, i, 0)
    ensures GroupClean(w, w.blocks[i].code[0])
  {
    assert ClosedAs(body, p, w, i);
    assert |p.targets[i]| == TargetCount(body, p, i) == 1;
    assert Filed(body, p, w, i, 0);
    GroupIsApart(w, i, 0);
    var g := w.blocks[i].code[0];
    forall a: nat, b: nat | a < |g.placements| && b < |g.placements|
      ensures g.placements[a].from !in g.placements[b].steps
    {
      assert g.placements[a].from == w.blocks[i].params[a];
      assert !InGroup(g, g.placements[a].from);
    }
  }

  lemma AddedRuns(m: Meaning, body: Body, p: Plan, w: Work, i: nat, c: nat, env: map<nat, int>, ids: map<nat, int>,
      memory: seq<int>)
    requires PlanIndexes(body, p) && |body.blocks| <= i < |p.nodes| == |w.blocks| && |p.targets[i]| == 1 &&
      |w.blocks[i].code| == 1
    requires PassFor(body, p, w, i, 0) && GroupClean(w, w.blocks[i].code[0])
    requires c == Destination(p.nodes[i]) && PoolHolds(w.at.pool, ids) && AboveHolds(body, w, c, env, ids)
    ensures var (ids', mem) := RunCode(m, w.blocks[i].code, ids, memory);
      && mem == memory && PoolHolds(w.at.pool, ids') && AboveHolds(body, w, c, env, ids')
      && Read(ids', PassArgs(body, w.blocks[i].code, i, 0)) == Read(ids, w.blocks[i].params)
  {
    var code := w.blocks[i].code;
    var g := code[0];
    assert code[..0] == [] && RunCode(m, code[..0], ids, memory) == (ids, memory);
    GroupRuns(m, g, ids, memory);
    var ids' := RunGroup(m, g, ids, memory).0;
    PoolStays(w, g, ids, ids');
    forall v | FromAbove(body, c, v) && Yielding(body, v) ensures Holds(w, env, ids', v) {
      assert LiveAt(body, p, i, 0, v) && Holds(w, env, ids, v);
      assert Unmoved(ids, ids', w.slots[v]);
    }
  }

  lemma AddedGoes(m: Meaning, body: Body, f: Function, i: nat, ids: map<nat, int>, memory: seq<int>)
    requires PlanIndexes(body, f.plan) && ClosedAs(body, f.plan, f.work, i) && |body.blocks| <= i < |f.plan.nodes| &&
      |f.plan.targets[i]| == 1
    ensures var (ids', mem) := RunCode(m, f.work.blocks[i].code, ids, memory);
      TargetStep(m, f, AtNode(i, ids, memory)) ==
        Jump(f, f.plan.labels[i], f.plan.labels[f.plan.targets[i][0]], ids', mem)
  {
  }

  /** In an added block the body does not move: the words are handed on. */
  lemma AddedSteps(m: Meaning, body: Body, f: Function, i: nat, s: Source, ids: map<nat, int>, memory: seq<int>)
    requires Built(body, f.plan, f.work) && |body.blocks| <= i < |f.plan.nodes| &&
      Related(body, f, s, AtNode(i, ids, memory))
    ensures |f.plan.targets[i]| == 1
    ensures var t := TargetStep(m, f, AtNode(i, ids, memory));
      Related(body, f, s, t) && t.AtNode? && t.node == f.plan.targets[i][0]
  {
    AddedIsClean(body, f.plan, f.work, i);
    AddedRuns(m, body, f.plan, f.work, i, s.block, s.env, ids, memory);
    assert ClosedAs(body, f.plan, f.work, i);
    AddedGoes(m, body, f, i, ids, memory);
    var ids' := RunCode(m, f.work.blocks[i].code, ids, memory).0;
    var j := f.plan.targets[i][0];
    JumpLands(body, f, i, 0, ids', memory);
    assert Destination(f.plan.nodes[j]) == s.block;
    var words := Read(ids, f.work.blocks[i].params);
    AddedCount(body, f, i);
    Lands(body, f, j, s.block, s.env, s.env, ids', words, memory);
  }

  lemma AddedCount(body: Body, f: Function, i: nat)
    requires Built(body, f.plan, f.work) && |body.blocks| <= i < |f.plan.nodes| && |f.plan.targets[i]| == 1
    ensures var j := f.plan.targets[i][0]; j < |f.plan.nodes| && |f.work.blocks[i].params| == |f.work.blocks[j].params|
  {
    assert Filed(body, f.plan, f.work, i, 0);
    assert FinishedParams(body, f.plan, f.work, f.plan.targets[i][0]);
  }

  // ---- whole runs ----

  /** In an added block the emitted machine moves alone. */
  ghost predicate Passing(body: Body, t: Target) {
    t.AtNode? && t.node >= |body.blocks|
  }

  /** One step of the emitted machine: the body moves with it from a real block, and waits in an added one. */
  ghost predicate StepKept(m: Meaning, body: Body, f: Function, s: Source, t: Target)
    requires ValidBody(body) && Finished?(body, f) && Related(body, f, s, t)
  {
    && Related(body, f, if Passing(body, t) then s else Step(m, body, s), TargetStep(m, f, t))
    && Follows(f, t, TargetStep(m, f, t))
    && (Passing(body, t) ==>
        t.node < |f.plan.targets| && |f.plan.targets[t.node]| == 1 &&
        TargetStep(m, f, t).AtNode? && TargetStep(m, f, t).node == f.plan.targets[t.node][0])
  }

  lemma OneStep(m: Meaning, body: Body, f: Function, s: Source, t: Target)
    requires Built(body, f.plan, f.work) && Related(body, f, s, t)
    ensures StepKept(m, body, f, s, t)
  {
    if t.AtNode? {
      if t.node < |body.blocks| {
        RealSteps(m, body, f, t.node, s.env, t.ids, t.memory);
      } else {
        AddedSteps(m, body, f, t.node, s, t.ids, t.memory);
      }
    }
  }

  ghost predicate InStep(m: Meaning, body: Body, f: Function)
    requires ValidBody(body) && Finished?(body, f)
  {
    forall s, t {:trigger Related(body, f, s, t), TargetStep(m, f, t)} :: Related(body, f, s, t) ==>
      StepKept(m, body, f, s, t)
  }

  lemma AlwaysInStep(m: Meaning, body: Body, f: Function)
    requires Built(body, f.plan, f.work)
    ensures InStep(m, body, f)
  {
    forall s, t | Related(body, f, s, t) ensures StepKept(m, body, f, s, t) {
      OneStep(m, body, f, s, t);
    }
  }

  /**
  After any number of steps the emitted machine is where the body is after some number of its own: it is never stuck.
   */
  lemma {:induction false} NeverAstray(m: Meaning, body: Body, f: Function, s: Source, t: Target, n: nat)
    returns (k: nat)
    requires ValidBody(body) && Finished?(body, f) && InStep(m, body, f) && Related(body, f, s, t)
    ensures k <= n && Related(body, f, Steps(m, body, s, k), TargetSteps(m, f, t, n))
    decreases n
  {
    k := 0;
    if n > 0 {
      assert StepKept(m, body, f, s, t);
      if Passing(body, t) {
        k := NeverAstray(m, body, f, s, TargetStep(m, f, t), n - 1);
      } else {
        var after := NeverAstray(m, body, f, Step(m, body, s), TargetStep(m, f, t), n - 1);
        k := after + 1;
      }
    }
  }
}
