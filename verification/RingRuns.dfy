/**
The one way emission loses a run: a ring of pass-throughs. On one accepted body
the body returns, and the function emitted for it never does.
 */
module RingRuns {
  import opened Graphs
  import opened Options
  import opened Kernel
  import opened Structure
  import opened Planner
  import opened Literals
  import opened Emission
  import opened FunctionIds
  import opened EmissionRun
  import opened Ssa
  import opened Distinctness
  import opened Emitters
  import opened Machines
  import opened Simulation
  import opened Preservation
  import opened RingExample

  /** Tests are "not zero"; nothing is computed. */
  function NotZero(): Meaning {
    Meaning((v, words, memory) => (0, memory), x => x != 0, (id, memory) => 0)
  }

  lemma ItsBlocks(i: nat)
    requires i < 5
    ensures BreakAndContinue().blocks[i].instrs == [] && BreakAndContinue().blocks[i].params ==
      if i == 0 then [0, 1] else []
    ensures Distinct(BreakAndContinue().blocks[i].params + BreakAndContinue().blocks[i].instrs)
    ensures TerminatorFits(BreakAndContinue().blocks[i].terminator)
  {
    assert [0, 1] + [] == [0, 1] && [0, 1][..1] == [0];
    assert Distinct([0]) && Distinct([0, 1]) && Distinct([]);
    assert BreakAndContinue().blocks[i].params + [] == BreakAndContinue().blocks[i].params;
  }

  lemma ItsUses(i: nat)
    requires i < 5 && ValidBody(BreakAndContinue()) && BreakAndContinue().blocks[i].instrs == []
    ensures AllAvailable(BreakAndContinue(), i, 0, Uses(BreakAndContinue().blocks[i].terminator))
  {
    var b := BreakAndContinue();
    var uses := Uses(b.blocks[i].terminator);
    EntryDominates(Flow(b), 0, i);
    forall k | 0 <= k < |uses| ensures Available(b, i, 0, uses[k]) {
      assert uses[k] < 2 && b.blocks[0].params[uses[k]] == uses[k];
      assert Defines(b, 0, uses[k]);
    }
  }

  /** The example is well formed, so the emitter accepts it. */
  lemma BreakAndContinueIsAccepted()
    ensures ValidSsa(BreakAndContinue()) && Plannable(BreakAndContinue()) && TerminatorsFit(BreakAndContinue())
  {
    var b := BreakAndContinue();
    ItsFlow();
    ItIsPlannable();
    forall i: nat | i < 5
      ensures b.blocks[i].instrs == [] && Distinct(b.blocks[i].params + b.blocks[i].instrs)
      ensures AllAvailable(b, i, 0, Uses(b.blocks[i].terminator)) && TerminatorFits(b.blocks[i].terminator)
    {
      ItsBlocks(i);
      ItsUses(i);
    }
    forall x: nat, y: nat, v: nat | Defines(b, x, v) && Defines(b, y, v) ensures x == y {
      ItsBlocks(x);
      ItsBlocks(y);
    }
  }

  /** On inputs 1 and 0 the body enters the loop, leaves it at once, and returns 1. */
  lemma ItsSteps(memory: seq<int>)
    ensures ValidBody(BreakAndContinue())
    ensures var b, m := BreakAndContinue(), NotZero();
      var one := Step(m, b, Begin(b, [1, 0], memory));
      one.At? && one.block == 1 && Step(m, b, one).At? && Step(m, b, one).block == 4 &&
      Step(m, b, Step(m, b, one)) == Done(1, memory)
  {
    var b, m := BreakAndContinue(), NotZero();
    ItsFlow();
    BindFacts(map[], [0, 1], [1, 0]);
    var env := Bind(map[], [0, 1], [1, 0]);
    assert env[[0, 1][0]] == [1, 0][0] && env[[0, 1][1]] == [1, 0][1];
    assert Step(m, b, At(0, env, memory)) == At(1, env, memory);
    assert Step(m, b, At(1, env, memory)) == At(4, env, memory);
    assert Step(m, b, At(4, env, memory)) == Done(1, memory);
  }

  lemma TheBodyReturns(memory: seq<int>)
    ensures ValidBody(BreakAndContinue()) && BodyReturns(NotZero(), BreakAndContinue(), [1, 0], memory, 1, memory)
  {
    var b, m := BreakAndContinue(), NotZero();
    ItsSteps(memory);
    ThreeSteps(m, b, Begin(b, [1, 0], memory));
    assert Steps(m, b, Begin(b, [1, 0], memory), 3) == Done(1, memory);
  }

  lemma ThreeSteps(m: Meaning, body: Body, s: Source)
    requires ValidBody(body) && (s.At? ==> s.block < |body.blocks|)
    ensures Steps(m, body, s, 3) == Step(m, body, Step(m, body, Step(m, body, s)))
  {
    assert Steps(m, body, Step(m, body, s), 2) == Steps(m, body, Step(m, body, Step(m, body, s)), 1);
  }

  /** Between the loop's merge and its two pass-throughs, for ever. */
  lemma {:induction false} RoundAndRound(m: Meaning, f: Function, s: Source, t: Target, n: nat)
    requires ValidBody(BreakAndContinue()) && Finished?(BreakAndContinue(), f) && InStep(m, BreakAndContinue(), f) &&
      Related(BreakAndContinue(), f, s, t)
    requires |f.plan.targets| == 8 && f.plan.targets[5] == [6] && f.plan.targets[6] == [7] && f.plan.targets[7] == [6]
    requires t.AtNode? && 5 <= t.node < 8
    ensures TargetSteps(m, f, t, n).AtNode?
    decreases n
  {
    if n > 0 {
      assert Passing(BreakAndContinue(), t);
      assert StepKept(m, BreakAndContinue(), f, s, t);
      RoundAndRound(m, f, s, TargetStep(m, f, t), n - 1);
    }
  }

  /** The call gets to the loop's merge in two steps. */
  lemma ItEntersTheRing(f: Function, s0: Source, t0: Target)
    requires ValidBody(BreakAndContinue()) && Finished?(BreakAndContinue(), f) &&
      InStep(NotZero(), BreakAndContinue(), f) && Related(BreakAndContinue(), f, s0, t0)
    requires t0.AtNode? && t0.node == 0 && s0.At?
    requires var one := Step(NotZero(), BreakAndContinue(), s0);
      one.At? && one.block == 1 && Step(NotZero(), BreakAndContinue(), one).At? &&
        Step(NotZero(), BreakAndContinue(), one).block == 4
    requires |f.plan.targets| == 8 && f.plan.targets[0] == [1, 4] && f.plan.targets[1] == [2, 5]
    requires 5 <= |f.plan.nodes| && forall i: nat :: i < 5 ==> f.plan.nodes[i] == Real(i)
    ensures var t := TargetStep(NotZero(), f, TargetStep(NotZero(), f, t0));
      t.AtNode? && t.node == 5 &&
        Related(BreakAndContinue(), f, Step(NotZero(), BreakAndContinue(), Step(NotZero(), BreakAndContinue(), s0)), t)
  {
    var b, m := BreakAndContinue(), NotZero();
    assert StepKept(m, b, f, s0, t0);
    var s1, t1 := Step(m, b, s0), TargetStep(m, f, t0);
    assert t1.node == 1;
    assert StepKept(m, b, f, s1, t1);
  }

  /** Once in the ring, no number of steps returns. */
  lemma NoNumberOfSteps(f: Function, t0: Target, s: Source, n: nat)
    requires ValidBody(BreakAndContinue()) && Finished?(BreakAndContinue(), f) &&
      InStep(NotZero(), BreakAndContinue(), f)
    requires |f.plan.targets| == 8 && f.plan.targets[5] == [6] && f.plan.targets[6] == [7] && f.plan.targets[7] == [6]
    requires var t := TargetStep(NotZero(), f, TargetStep(NotZero(), f, t0));
      t.AtNode? && t.node == 5 && Related(BreakAndContinue(), f, s, t)
    ensures !TargetSteps(NotZero(), f, t0, n).Left?
  {
    OneOrTwo(NotZero(), f, t0, n % 2);
    if n >= 2 {
      RoundAndRound(NotZero(), f, s, TargetStep(NotZero(), f, TargetStep(NotZero(), f, t0)), n - 2);
      StepsAdd(NotZero(), f, t0, 2, n - 2);
    }
  }

  /** The emitted function never returns on the inputs on which the body returns 1. */
  lemma TheFunctionNeverReturns(sig: Signature, start: Cursor, f: Function, memory: seq<int>)
    requires ValidSsa(BreakAndContinue()) && Emits(BreakAndContinue(), sig, start, f)
    ensures Bound(f) && |f.inputs| == 2 && forall result, after ::
      !FunctionReturns(NotZero(), f, [1, 0], memory, result, after)
  {
    var b, m := BreakAndContinue(), NotZero();
    EmitsIsWired(b, sig, start, f);
    AlwaysInStep(m, b, f);
    CallBegins(m, b, sig, f, [1, 0], memory);
    ItsTargets();
    HangsFromTheCall(f, memory);
  }

  lemma ItsTargets()
    ensures Structured(BreakAndContinue())
    ensures var g := Emitted(BreakAndContinue());
      |g| == 8 && g[0] == [1, 4] && g[1] == [2, 5] && g[5] == [6] && g[6] == [7] && g[7] == [6]
  {
    ItsAddedEdges();
    ItsRealEdges();
  }

  lemma HangsFromTheCall(f: Function, memory: seq<int>)
    requires ValidBody(BreakAndContinue()) && Finished?(BreakAndContinue(), f) &&
      InStep(NotZero(), BreakAndContinue(), f)
    requires Bound(f) && |f.inputs| == 2 && f.plan.entry == 0 && f.guard.None?
    requires Related(BreakAndContinue(), f, Begin(BreakAndContinue(), [1, 0], memory),
      Call(NotZero(), f, [1, 0], memory))
    requires var g := f.plan.targets;
      |g| == 8 && g[0] == [1, 4] && g[1] == [2, 5] && g[5] == [6] && g[6] == [7] && g[7] == [6]
    requires 5 <= |f.plan.nodes| && forall i: nat :: i < 5 ==> f.plan.nodes[i] == Real(i)
    ensures forall result, after :: !FunctionReturns(NotZero(), f, [1, 0], memory, result, after)
  {
    ItsSteps(memory);
    var s0, t0 := Begin(BreakAndContinue(), [1, 0], memory), Call(NotZero(), f, [1, 0], memory);
    ItEntersTheRing(f, s0, t0);
    forall n: nat ensures !TargetSteps(NotZero(), f, t0, n).Left? {
      NoNumberOfSteps(f, t0, Step(NotZero(), BreakAndContinue(), Step(NotZero(), BreakAndContinue(), s0)), n);
    }
  }

  /** A machine still at a node after two steps had not returned before them. */
  lemma OneOrTwo(m: Meaning, f: Function, t: Target, n: nat)
    requires TargetStep(m, f, TargetStep(m, f, t)).AtNode? && n < 2
    ensures !TargetSteps(m, f, t, n).Left?
    ensures TargetSteps(m, f, t, 2) == TargetStep(m, f, TargetStep(m, f, t))
  {
    assert TargetSteps(m, f, t, 1) == TargetStep(m, f, t);
    assert TargetSteps(m, f, TargetStep(m, f, t), 1) == TargetStep(m, f, TargetStep(m, f, t));
  }
}
