/**
The whole function's meaning. The emitted function returns what the body returns; where
no pass-throughs hand on to each other in a ring, it returns exactly when the body does.
A lane the guard turns away returns at once. Results hold for every meaning of the
instructions.
 */
module Preservation {
  import opened Graphs
  import opened Options
  import opened Kernel
  import opened Literals
  import opened Structure
  import opened Planner
  import opened Rings
  import opened Emission
  import opened EmissionRun
  import opened EmissionInvariant
  import opened EmissionIds
  import opened FunctionIds
  import opened Ssa
  import opened Distinctness
  import opened Emitters
  import opened Machines
  import opened StraightLine
  import opened Simulation
  import opened Scoping

  // ---- the prologue ----

  /** No two of the parameters' ids are one. */
  ghost predicate InputsDiffer(inputs: seq<seq<nat>>) {
    forall k: nat, i: nat, l: nat, j: nat ::
      k < |inputs| && i < |inputs[k]| && l < |inputs| && j < |inputs[l]| && inputs[k][i] == inputs[l][j] ==>
      k == l && i == j
  }

  ghost predicate IsInput(inputs: seq<seq<nat>>, x: nat) {
    exists k: nat :: k < |inputs| && x in inputs[k]
  }

  /** The prologue leaves each parameter's word on its last id, and writes on nothing but the parameters' ids. */
  lemma {:induction false} InputsRun(m: Meaning, inputs: seq<seq<nat>>, words: seq<int>, ids: map<nat, int>,
      memory: seq<int>)
    requires |inputs| == |words| && (forall i :: 0 <= i < |inputs| ==> inputs[i] != []) && InputsDiffer(inputs)
    ensures var after := RunInputs(m, inputs, words, ids, memory);
      && (forall x :: !IsInput(inputs, x) ==> Unmoved(ids, after, x))
      && forall k: nat :: k < |inputs| ==> Lasts(inputs)[k] in after && after[Lasts(inputs)[k]] == words[k]
  {
    if inputs != [] {
      var last := |inputs| - 1;
      var rest := inputs[..last];
      InputsDifferBefore(inputs);
      InputsRun(m, rest, words[..last], ids, memory);
      var before := RunInputs(m, rest, words[..last], ids, memory);
      ScribbleFacts(m, inputs[last], before, memory);
      LastInputRuns(inputs, words, ids, before, RunInputs(m, inputs, words, ids, memory));
    }
  }

  lemma InputsDifferBefore(inputs: seq<seq<nat>>)
    requires inputs != [] && InputsDiffer(inputs)
    ensures InputsDiffer(inputs[..|inputs| - 1])
  {
  }

  lemma LastInputRuns(inputs: seq<seq<nat>>, words: seq<int>, ids: map<nat, int>, before: map<nat, int>, after: map<nat,
      int>)
    requires inputs != [] && |inputs| == |words| && (forall i :: 0 <= i < |inputs| ==> inputs[i] != []) &&
      InputsDiffer(inputs)
    requires var rest := inputs[..|inputs| - 1];
      && (forall x :: !IsInput(rest, x) ==> Unmoved(ids, before, x))
      && (forall k: nat :: k < |rest| ==> Lasts(rest)[k] in before && before[Lasts(rest)[k]] == words[k])
    requires forall x :: x !in inputs[|inputs| - 1] ==> Unmoved(before, after, x)
    requires Lasts(inputs)[|inputs| - 1] in after && after[Lasts(inputs)[|inputs| - 1]] == words[|inputs| - 1]
    ensures forall x :: !IsInput(inputs, x) ==> Unmoved(ids, after, x)
    ensures forall k: nat :: k < |inputs| ==> Lasts(inputs)[k] in after && after[Lasts(inputs)[k]] == words[k]
  {
    var last := |inputs| - 1;
    var rest := inputs[..last];
    assert forall k: nat :: k < last ==> rest[k] == inputs[k];
    forall x | !IsInput(inputs, x) ensures Unmoved(ids, after, x) {
      assert x !in inputs[last] && !IsInput(rest, x);
      assert Unmoved(ids, before, x) && Unmoved(before, after, x);
    }
    forall k: nat | k < last ensures Lasts(inputs)[k] in after && after[Lasts(inputs)[k]] == words[k] {
      assert Lasts(rest)[k] == Lasts(inputs)[k] == inputs[k][|inputs[k]| - 1];
      assert Lasts(inputs)[k] !in inputs[last];
      assert Unmoved(before, after, Lasts(inputs)[k]);
    }
  }

  lemma ConstantsHold(pool: Table)
    requires OneEach(pool.ids)
    ensures PoolHolds(pool, Constants(pool))
  {
    forall key | key in pool.ids ensures pool.ids[key] in Constants(pool) && Constants(pool)[pool.ids[key]] == key.1 {
      assert pool.ids[key] in pool.ids.Values;
    }
  }

  /** The ids of a function's parameters, its literals and its guard's condition are apart. */
  lemma InputsAreApart(f: Function)
    requires OneDefiner(f)
    ensures InputsDiffer(f.inputs)
    ensures forall key :: key in f.work.at.pool.ids ==> !IsInput(f.inputs, f.work.at.pool.ids[key])
    ensures OneEach(f.work.at.pool.ids)
    ensures f.guard.Some? ==> !IsInput(f.inputs, f.guard.value.condition)
    ensures f.guard.Some? ==> forall key :: key in f.work.at.pool.ids ==>
      f.work.at.pool.ids[key] != f.guard.value.condition
  {
    forall k: nat, i: nat, l: nat, j: nat | k < |f.inputs| && i < |f.inputs[k]| && l < |f.inputs| &&
      j < |f.inputs[l]| && f.inputs[k][i] == f.inputs[l][j]
      ensures k == l && i == j
    {
      SameTakenOnce(f, InputOf(k, i), InputOf(l, j));
    }
    forall key | key in f.work.at.pool.ids ensures !IsInput(f.inputs, f.work.at.pool.ids[key]) {
      InputIsNot(f, f.work.at.pool.ids[key], BodyOf(ConstantOf(key)));
    }
    forall a, b | a in f.work.at.pool.ids && b in f.work.at.pool.ids && f.work.at.pool.ids[a] == f.work.at.pool.ids[b]
      ensures a == b
    {
      SameTakenOnce(f, BodyOf(ConstantOf(a)), BodyOf(ConstantOf(b)));
    }
    if f.guard.Some? {
      InputIsNot(f, f.guard.value.condition, GuardOf(0));
      forall key | key in f.work.at.pool.ids ensures f.work.at.pool.ids[key] != f.guard.value.condition {
        assert TakenId(f, BodyOf(ConstantOf(key))) != TakenId(f, GuardOf(0));
      }
    }
  }

  lemma SameTakenOnce(f: Function, a: Taken, b: Taken)
    requires OneDefiner(f) && IsTaken(f, a) && IsTaken(f, b) && TakenId(f, a) == TakenId(f, b)
    ensures a == b
  {
  }

  lemma InputIsNot(f: Function, x: nat, t: Taken)
    requires OneDefiner(f) && IsTaken(f, t) && !t.InputOf? && TakenId(f, t) == x
    ensures !IsInput(f.inputs, x)
  {
    if IsInput(f.inputs, x) {
      var k: nat :| k < |f.inputs| && x in f.inputs[k];
      var i: nat :| i < |f.inputs[k]| && f.inputs[k][i] == x;
      SameTakenOnce(f, t, InputOf(k, i));
    }
  }

  /** After the prologue every literal and every parameter is where the body's code looks for it. */
  lemma PrologueHolds(m: Meaning, body: Body, f: Function, words: seq<int>, memory: seq<int>)
    requires OneDefiner(f) && Bound(f) && |words| == |f.inputs|
    ensures var ids := Prologue(m, f, words, memory);
      PoolHolds(f.work.at.pool, ids) && forall k: nat :: k < |words| ==>
        Lasts(f.inputs)[k] in ids && ids[Lasts(f.inputs)[k]] == words[k]
  {
    InputsAreApart(f);
    ConstantsHold(f.work.at.pool);
    InputsRun(m, f.inputs, words, Constants(f.work.at.pool), memory);
    var ids := Prologue(m, f, words, memory);
    forall key | key in f.work.at.pool.ids
      ensures f.work.at.pool.ids[key] in ids && ids[f.work.at.pool.ids[key]] == key.1
    {
      assert Unmoved(Constants(f.work.at.pool), ids, f.work.at.pool.ids[key]);
    }
  }

  /** At the entry, with the parameters' words on their ids, the two machines are related. */
  lemma EntryRelated(body: Body, f: Function, words: seq<int>, ids: map<nat, int>, memory: seq<int>)
    requires Built(body, f.plan, f.work) && ParametersOnIds(body, f) && |words| == |f.inputs|
    requires PoolHolds(f.work.at.pool, ids) && forall k: nat :: k < |words| ==>
      Lasts(f.inputs)[k] in ids && ids[Lasts(f.inputs)[k]] == words[k]
    ensures |words| == |body.blocks[body.entry].params|
    ensures Related(body, f, Begin(body, words, memory), AtNode(body.entry, ids, memory))
  {
    NothingAbove(body);
    ParamsAreDistinct(body, body.entry);
    BindFacts(map[], body.blocks[body.entry].params, words);
  }

  /** Whether a lane's words get past the guard: its index is below the extent it was handed. */
  ghost predicate Inside(f: Function, words: seq<int>)
    requires |words| == |f.inputs|
  {
    f.guard.Some? && |words| > 0 ==> words[|words| - 1] < words[0]
  }

  /** The guard's condition is written on an id of its own. */
  lemma ConditionIsOwn(f: Function, words: seq<int>, ids: map<nat, int>)
    requires OneDefiner(f) && Bound(f) && f.guard.Some? && |words| == |f.inputs|
    requires PoolHolds(f.work.at.pool, ids) && forall k: nat :: k < |words| ==>
      Lasts(f.inputs)[k] in ids && ids[Lasts(f.inputs)[k]] == words[k]
    ensures var after := ids[f.guard.value.condition := 1];
      PoolHolds(f.work.at.pool, after) && forall k: nat :: k < |words| ==>
        Lasts(f.inputs)[k] in after && after[Lasts(f.inputs)[k]] == words[k]
  {
    InputsAreApart(f);
    forall k: nat | k < |words| ensures Lasts(f.inputs)[k] != f.guard.value.condition {
      assert IsInput(f.inputs, Lasts(f.inputs)[k]);
    }
  }

  lemma GuardDecides(m: Meaning, body: Body, s: Signature, f: Function, words: seq<int>, memory: seq<int>)
    requires GuardFits(body, s, f) && f.guard.Some? && Bound(f) && |words| == |f.inputs|
    requires forall k: nat :: k < |words| ==>
      Lasts(f.inputs)[k] in Prologue(m, f, words, memory) &&
      Prologue(m, f, words, memory)[Lasts(f.inputs)[k]] == words[k]
    ensures TargetStep(m, f, Call(m, f, words, memory)) ==
      if Inside(f, words) then AtNode(f.plan.entry, Prologue(m, f, words, memory)[f.guard.value.condition := 1], memory)
      else AtMerge(memory)
  {
  }

  /** Where a call gets: the entry with the machines related, or the guard's merge block with the memory untouched. */
  lemma CallBegins(m: Meaning, body: Body, s: Signature, f: Function, words: seq<int>, memory: seq<int>)
    requires Wired(body, s, f) && |words| == |f.inputs|
    ensures |words| == |body.blocks[body.entry].params| && Bound(f)
    ensures
      if Inside(f, words) then Related(body, f, Begin(body, words, memory), Decided(m, f, words, memory))
      else Decided(m, f, words, memory) == AtMerge(memory)
  {
    PrologueHolds(m, body, f, words, memory);
    var ids := Prologue(m, f, words, memory);
    if f.guard.None? {
      EntryRelated(body, f, words, ids, memory);
    } else {
      GuardDecides(m, body, s, f, words, memory);
      ConditionIsOwn(f, words, ids);
      EntryRelated(body, f, words, ids[f.guard.value.condition := 1], memory);
    }
  }

  /** The state a call is in once its guard has decided. */
  ghost function Decided(m: Meaning, f: Function, words: seq<int>, memory: seq<int>): Target
    requires Bound(f) && |words| == |f.inputs|
  {
    if f.guard.Some? then TargetStep(m, f, Call(m, f, words, memory)) else Call(m, f, words, memory)
  }

  // ---- added blocks are left ----

  lemma {:induction false} StepsAdd(m: Meaning, f: Function, t: Target, a: nat, b: nat)
    ensures TargetSteps(m, f, t, a + b) == TargetSteps(m, f, TargetSteps(m, f, t, a), b)
    decreases a
  {
    if a > 0 { StepsAdd(m, f, TargetStep(m, f, t), a - 1, b); }
  }

  lemma NodesGetReal(body: Body)
    requires Structured(body) && NoRings(body)
    ensures forall i: nat :: i < |Nodes(body)| ==> GetsReal(Emitted(body), |body.blocks|, i)
  {
    forall i: nat | i < |Nodes(body)| ensures GetsReal(Emitted(body), |body.blocks|, i) {
      NodesArriveWithoutRings(body, i);
    }
  }

  /** Related, and the added blocks ahead, if any, are through after `k` of them. */
  ghost predicate Arriving(body: Body, f: Function, s: Source, t: Target, k: nat)
    requires Finished?(body, f)
  {
    Related(body, f, s, t) && (t.AtNode? ==> Follow(f.plan.targets, |body.blocks|, t.node, k) < |body.blocks|)
  }

  lemma PassesOn(m: Meaning, body: Body, f: Function, s: Source, t: Target, k: nat)
    requires ValidBody(body) && Finished?(body, f) && InStep(m, body, f) && Arriving(body, f, s, t, k) &&
      Passing(body, t)
    ensures k > 0 && Arriving(body, f, s, TargetStep(m, f, t), k - 1)
  {
    assert StepKept(m, body, f, s, t);
  }

  /** An added block that arrives is left for the body's block after finitely many steps. */
  lemma {:induction false} GetsThere(m: Meaning, body: Body, f: Function, s: Source, t: Target, k: nat)
    returns (n: nat, there: Target)
    requires ValidBody(body) && Finished?(body, f) && InStep(m, body, f) && Arriving(body, f, s, t, k)
    ensures there == TargetSteps(m, f, t, n) && Related(body, f, s, there) && !Passing(body, there)
    decreases k
  {
    if Passing(body, t) {
      PassesOn(m, body, f, s, t, k);
      var rest, last := GetsThere(m, body, f, s, TargetStep(m, f, t), k - 1);
      n, there := rest + 1, last;
    } else {
      n, there := 0, t;
    }
  }

  /** An added block that does not arrive is never left. */
  lemma {:induction false} NeverLeaves(m: Meaning, body: Body, f: Function, s: Source, t: Target, n: nat)
    requires ValidBody(body) && Finished?(body, f) && InStep(m, body, f) && Related(body, f, s, t)
    requires t.AtNode? && !GetsReal(f.plan.targets, |body.blocks|, t.node)
    ensures Passing(body, TargetSteps(m, f, t, n))
    decreases n
  {
    assert Follow(f.plan.targets, |body.blocks|, t.node, 0) == t.node;
    if n > 0 {
      assert StepKept(m, body, f, s, t);
      var next := TargetStep(m, f, t);
      forall k: nat ensures Follow(f.plan.targets, |body.blocks|, next.node, k) >= |body.blocks| {
        assert Follow(f.plan.targets, |body.blocks|, t.node, k + 1) ==
          Follow(f.plan.targets, |body.blocks|, next.node, k);
      }
      NeverLeaves(m, body, f, s, next, n - 1);
    }
  }

  /** The emitted machine leaves the added blocks exactly when the edge it is on arrives in the emitted graph. */
  lemma PassageEndsExactlyWhenItArrives(m: Meaning, body: Body, f: Function, s: Source, t: Target)
    requires Built(body, f.plan, f.work) && Structured(body) && f.plan.targets == Emitted(body) &&
      Related(body, f, s, t) && Passing(body, t)
    ensures (exists n: nat :: !Passing(body, TargetSteps(m, f, t, n))) <==> Arrives(body, t.node)
  {
    AlwaysInStep(m, body, f);
    if Arrives(body, t.node) {
      var k: nat :| Follow(f.plan.targets, |body.blocks|, t.node, k) < |body.blocks|;
      var n, there := GetsThere(m, body, f, s, t, k);
    } else {
      forall n: nat ensures Passing(body, TargetSteps(m, f, t, n)) {
        NeverLeaves(m, body, f, s, t, n);
      }
    }
  }

  /** However far the body runs, the emitted machine gets to the same place. */
  lemma {:induction false} Keeps(m: Meaning, body: Body, f: Function, s: Source, t: Target, n: nat)
    returns (k: nat, there: Target)
    requires ValidBody(body) && Finished?(body, f) && InStep(m, body, f) && Related(body, f, s, t)
    requires forall i: nat :: i < |f.plan.nodes| ==> GetsReal(f.plan.targets, |body.blocks|, i)
    ensures there == TargetSteps(m, f, t, k) && Related(body, f, Steps(m, body, s, n), there)
    decreases n
  {
    k, there := 0, t;
    if n > 0 {
      var a, landed := ReachesReal(m, body, f, s, t);
      assert StepKept(m, body, f, s, landed);
      var b, last := Keeps(m, body, f, Step(m, body, s), TargetStep(m, f, landed), n - 1);
      StepsAdd(m, f, t, a, b + 1);
      k, there := a + (b + 1), last;
    }
  }

  lemma ReachesReal(m: Meaning, body: Body, f: Function, s: Source, t: Target) returns (n: nat, there: Target)
    requires ValidBody(body) && Finished?(body, f) && InStep(m, body, f) && Related(body, f, s, t)
    requires forall i: nat :: i < |f.plan.nodes| ==> GetsReal(f.plan.targets, |body.blocks|, i)
    ensures there == TargetSteps(m, f, t, n) && Related(body, f, s, there) && !Passing(body, there)
  {
    var far: nat := 0;
    if t.AtNode? {
      assert GetsReal(f.plan.targets, |body.blocks|, t.node);
      far :| Follow(f.plan.targets, |body.blocks|, t.node, far) < |body.blocks|;
    }
    n, there := GetsThere(m, body, f, s, t, far);
  }

  // ---- the results ----

  ghost predicate BodyReturns(m: Meaning, body: Body, inputs: seq<int>, memory: seq<int>, result: int, after: seq<int>)
    requires ValidBody(body) && |inputs| == |body.blocks[body.entry].params|
  {
    exists n: nat :: Steps(m, body, Begin(body, inputs, memory), n) == Done(result, after)
  }

  /** What a caller sees of it: an entry point returns no value. */
  ghost predicate BodyLeaves(m: Meaning, body: Body, inputs: seq<int>, memory: seq<int>, result: Option<int>,
      after: seq<int>)
    requires ValidBody(body) && |inputs| == |body.blocks[body.entry].params|
  {
    exists r: int ::
      result == (if body.lowering.launched then None else Some(r)) && BodyReturns(m, body, inputs, memory, r, after)
  }

  ghost predicate FunctionReturns(m: Meaning, f: Function, words: seq<int>, memory: seq<int>, result: Option<int>,
      after: seq<int>)
    requires Bound(f) && |words| == |f.inputs|
  {
    exists n: nat :: TargetSteps(m, f, Call(m, f, words, memory), n) == Left(result, after)
  }

  lemma DecidedFirst(m: Meaning, f: Function, words: seq<int>, memory: seq<int>, n: nat)
    requires Bound(f) && |words| == |f.inputs|
    ensures TargetSteps(m, f, Call(m, f, words, memory), n + if f.guard.Some? then 1 else 0) ==
      TargetSteps(m, f, Decided(m, f, words, memory), n)
  {
  }

  /**
  On every accepted body: the emitted function is never stuck, and what it returns past its guard the body returns.
   */
  lemma ResultsAreTheBodys(m: Meaning, body: Body, s: Signature, start: Cursor, f: Function, words: seq<int>,
      memory: seq<int>)
    requires ValidSsa(body) && Emits(body, s, start, f) && |words| == |f.inputs| && Inside(f, words)
    ensures |words| == |body.blocks[body.entry].params| && Bound(f)
    ensures forall n: nat :: !TargetSteps(m, f, Call(m, f, words, memory), n).Stuck?
    ensures forall result, after :: FunctionReturns(m, f, words, memory, result, after) ==>
      BodyLeaves(m, body, words, memory, result, after)
  {
    EmitsIsWired(body, s, start, f);
    AlwaysInStep(m, body, f);
    CallBegins(m, body, s, f, words, memory);
    NothingElseHappens(m, body, f, words, memory);
  }

  lemma NothingElseHappens(m: Meaning, body: Body, f: Function, words: seq<int>, memory: seq<int>)
    requires ValidBody(body) && Finished?(body, f) && InStep(m, body, f) && Bound(f) &&
      |words| == |f.inputs| == |body.blocks[body.entry].params|
    requires Related(body, f, Begin(body, words, memory), Decided(m, f, words, memory))
    ensures forall n: nat :: !TargetSteps(m, f, Call(m, f, words, memory), n).Stuck?
    ensures forall result, after :: FunctionReturns(m, f, words, memory, result, after) ==>
      BodyLeaves(m, body, words, memory, result, after)
  {
    forall n: nat ensures !TargetSteps(m, f, Call(m, f, words, memory), n).Stuck? {
      var k := WhereItIs(m, body, f, words, memory, n);
    }
    forall result, after | FunctionReturns(m, f, words, memory, result, after)
      ensures BodyLeaves(m, body, words, memory, result, after)
    {
      var n: nat :| TargetSteps(m, f, Call(m, f, words, memory), n) == Left(result, after);
      var k := WhereItIs(m, body, f, words, memory, n);
      var there := Steps(m, body, Begin(body, words, memory), k);
      assert there == Done(there.result, after);
      assert BodyReturns(m, body, words, memory, there.result, after);
    }
  }

  /** After any number of steps a call is at its guard, or where the body is after some number of its own. */
  lemma WhereItIs(m: Meaning, body: Body, f: Function, words: seq<int>, memory: seq<int>, n: nat) returns (k: nat)
    requires ValidBody(body) && Finished?(body, f) && InStep(m, body, f) && Bound(f) &&
      |words| == |f.inputs| == |body.blocks[body.entry].params|
    requires Related(body, f, Begin(body, words, memory), Decided(m, f, words, memory))
    ensures var t := TargetSteps(m, f, Call(m, f, words, memory), n);
      t.AtGuard? || Related(body, f, Steps(m, body, Begin(body, words, memory), k), t)
  {
    var first := if f.guard.Some? then 1 else 0;
    k := 0;
    if n >= first {
      DecidedFirst(m, f, words, memory, n - first);
      k := NeverAstray(m, body, f, Begin(body, words, memory), Decided(m, f, words, memory), n - first);
    }
  }

  /** Where no pass-throughs ring, a call past its guard returns exactly what and whenever the body does. */
  lemma MeaningIsPreserved(m: Meaning, body: Body, s: Signature, start: Cursor, f: Function, words: seq<int>,
      memory: seq<int>, result: Option<int>, after: seq<int>)
    requires ValidSsa(body) && Emits(body, s, start, f) && |words| == |f.inputs| && Inside(f, words) && NoRings(body)
    ensures |words| == |body.blocks[body.entry].params| && Bound(f)
    ensures FunctionReturns(m, f, words, memory, result, after) <==> BodyLeaves(m, body, words, memory, result, after)
  {
    ResultsAreTheBodys(m, body, s, start, f, words, memory);
    EmitsIsWired(body, s, start, f);
    AlwaysInStep(m, body, f);
    CallBegins(m, body, s, f, words, memory);
    NodesGetReal(body);
    ItHappens(m, body, f, words, memory, result, after);
  }

  lemma ItHappens(m: Meaning, body: Body, f: Function, words: seq<int>, memory: seq<int>, result: Option<int>,
      after: seq<int>)
    requires ValidBody(body) && Finished?(body, f) && InStep(m, body, f) && Bound(f) &&
      |words| == |f.inputs| == |body.blocks[body.entry].params|
    requires Related(body, f, Begin(body, words, memory), Decided(m, f, words, memory))
    requires forall i: nat :: i < |f.plan.nodes| ==> GetsReal(f.plan.targets, |body.blocks|, i)
    ensures BodyLeaves(m, body, words, memory, result, after) ==> FunctionReturns(m, f, words, memory, result, after)
  {
    if BodyLeaves(m, body, words, memory, result, after) {
      var s, t := Begin(body, words, memory), Decided(m, f, words, memory);
      var r: int :| result == (if body.lowering.launched then None else Some(r)) &&
        BodyReturns(m, body, words, memory, r, after);
      var n: nat :| Steps(m, body, s, n) == Done(r, after);
      var k, there := Keeps(m, body, f, s, t, n);
      DecidedFirst(m, f, words, memory, k);
    }
  }

  lemma SurplusSteps(m: Meaning, f: Function, words: seq<int>, memory: seq<int>, n: nat)
    requires Bound(f) && |words| == |f.inputs| && f.guard.Some? && Decided(m, f, words, memory) == AtMerge(memory)
    ensures TargetSteps(m, f, Call(m, f, words, memory), n) ==
      if n == 0 then Call(m, f, words, memory) else if n == 1 then AtMerge(memory) else Left(None, memory)
  {
    if n > 0 {
      DecidedFirst(m, f, words, memory, n - 1);
      if n > 1 { LeftStays(m, f, Left(None, memory), n - 2); }
    }
  }

  /** A lane the guard turns away returns with the memory untouched, and does nothing else. */
  lemma SurplusLaneReturns(m: Meaning, body: Body, s: Signature, start: Cursor, f: Function, words: seq<int>,
      memory: seq<int>, result: Option<int>, after: seq<int>)
    requires ValidSsa(body) && Emits(body, s, start, f) && |words| == |f.inputs| && !Inside(f, words)
    ensures Bound(f) && (FunctionReturns(m, f, words, memory, result, after) <==> result == None && after == memory)
    ensures forall n: nat :: n > 1 ==> TargetSteps(m, f, Call(m, f, words, memory), n) == Left(None, memory)
  {
    EmitsIsWired(body, s, start, f);
    CallBegins(m, body, s, f, words, memory);
    SurplusReturns(m, f, words, memory, result, after);
  }

  lemma SurplusReturns(m: Meaning, f: Function, words: seq<int>, memory: seq<int>, result: Option<int>, after: seq<int>)
    requires Bound(f) && |words| == |f.inputs| && f.guard.Some? && Decided(m, f, words, memory) == AtMerge(memory)
    ensures FunctionReturns(m, f, words, memory, result, after) <==> result == None && after == memory
    ensures forall n: nat :: n > 1 ==> TargetSteps(m, f, Call(m, f, words, memory), n) == Left(None, memory)
  {
    forall n: nat | n > 1 ensures TargetSteps(m, f, Call(m, f, words, memory), n) == Left(None, memory) {
      SurplusSteps(m, f, words, memory, n);
    }
    if FunctionReturns(m, f, words, memory, result, after) {
      var n: nat :| TargetSteps(m, f, Call(m, f, words, memory), n) == Left(result, after);
      SurplusSteps(m, f, words, memory, n);
    }
    assert TargetSteps(m, f, Call(m, f, words, memory), 2) == Left(None, memory);
  }

  lemma {:induction false} LeftStays(m: Meaning, f: Function, t: Target, n: nat)
    requires t.Left?
    ensures TargetSteps(m, f, t, n) == t
    decreases n
  {
    if n > 0 { LeftStays(m, f, t, n - 1); }
  }
}
