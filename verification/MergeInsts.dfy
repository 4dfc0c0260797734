/** What the merge instructions of an emitted function name. */
module MergeInsts {
  import opened Graphs
  import opened Options
  import opened Kernel
  import opened Literals
  import opened Structure
  import opened Planner
  import opened PlanProperties
  import opened Emission
  import opened Ssa
  import opened EmissionProof
  import opened EmissionRun
  import opened FunctionIds
  import opened Emitters
  import opened Machines
  import opened Rings
  import opened Relays
  import opened Lifting
  import opened LoopRules
  import Simulation

  // Labels are read back the way a branch is: by the block that has them.

  /** The block of the function that a label names. */
  function Named(f: Function, l: nat): Option<nat> {
    Locate(f.plan.labels, l)
  }

  /** A finished function over its body's plan. */
  ghost predicate OnItsPlan(body: Body, f: Function) {
    && Structured(body) && PlanLinks(body, f.plan) && Finished(body, f.plan, f.work)
    && f.plan.nodes == Nodes(body) && f.plan.targets == Emitted(body)
    && forall h: nat :: h < |body.blocks| ==>
         f.plan.merges[h] == Merge(body, h) && f.plan.loopBodies[h] == LoopEntry(body, h)
  }

  lemma EmitsOnItsPlan(body: Body, s: Signature, start: Cursor, f: Function)
    requires Emits(body, s, start, f)
    ensures OnItsPlan(body, f)
  {
    PlanLinked(body, s, f.plan, start.next);
  }

  lemma LabelNames(body: Body, f: Function, i: nat)
    requires OnItsPlan(body, f) && i < |f.plan.nodes|
    ensures i < |f.plan.labels| && Named(f, f.plan.labels[i]) == Some(i)
  {
    Simulation.LocateFinds(f.plan.labels, i);
  }

  // ---- what each block's instruction names ----

  /**
  A block that ends in a choice has a merge instruction and no other has one: a loop header's names its loop merge and
  the loop's first block, a selection's the pass-through or the join its arms meet at.
   */
  ghost predicate NamesItsMerge(body: Body, f: Function, u: nat)
    requires Structured(body) && u < |f.work.blocks|
  {
    match f.work.blocks[u].merge
    case NoMerge => !f.work.blocks[u].exit.Choose? &&
      (u < |body.blocks| ==> !IsHeader(body, u) && !IsSelection(body, u))
    case LoopMergeInst(merge, continueTo) =>
      && f.work.blocks[u].exit.Choose? && u < |body.blocks| && IsHeader(body, u)
      && Named(f, merge) == Merge(body, u) && Named(f, continueTo) == LoopEntry(body, u) == Some(LoopBody(body, u))
    case SelectionMergeInst(merge) =>
      f.work.blocks[u].exit.Choose? && IsSelection(body, u) && Named(f, merge) == Merge(body, u)
  }

  /** A loop header has two targets, and so does a selection; no other block has. */
  lemma TwoTargetsExactly(body: Body, f: Function, u: nat)
    requires OnItsPlan(body, f) && u < |body.blocks|
    ensures TargetCount(body, f.plan, u) == 2 <==> IsHeader(body, u) || IsSelection(body, u)
  {
    if IsHeader(body, u) { assert LoopFits(body, u); }
  }

  lemma MergeIsANode(body: Body, u: nat)
    requires Structured(body) && u < |body.blocks| && (IsHeader(body, u) || IsSelection(body, u))
    ensures Merge(body, u).Some? && Merge(body, u).value < |Nodes(body)|
    ensures IsHeader(body, u) ==>
      LoopBody(body, u) < |body.blocks| <= |Nodes(body)| && |Emitted(body)[u]| == 2 &&
      Emitted(body)[u][1] == Merge(body, u).value
  {
    if IsHeader(body, u) {
      HeaderHasItsMerge(body, u);
      assert LoopFits(body, u);
      var t := body.blocks[u].terminator;
      assert t.ifTrue in Branches(t) && t.ifFalse in Branches(t);
      assert BranchFits(body, t.ifTrue) && BranchFits(body, t.ifFalse);
    } else if NeedsPass(body, u) {
      PassHasItsNode(body, u);
    }
  }

  lemma NamesMerge(body: Body, f: Function, u: nat)
    requires OnItsPlan(body, f) && u < |f.plan.nodes|
    ensures u < |f.work.blocks| && NamesItsMerge(body, f, u)
  {
    assert ClosedAs(body, f.plan, f.work, u);
    if u < |body.blocks| {
      TwoTargetsExactly(body, f, u);
      if IsHeader(body, u) || IsSelection(body, u) {
        MergeIsANode(body, u);
        LabelNames(body, f, Merge(body, u).value);
        if IsHeader(body, u) {
          assert LoopFits(body, u);
          LabelNames(body, f, LoopBody(body, u));
        }
      }
    }
  }

  /** Every merge instruction of an emitted function names what it should. */
  lemma MergesAreNamed(body: Body, s: Signature, start: Cursor, f: Function, u: nat)
    requires Emits(body, s, start, f) && u < |f.plan.nodes|
    ensures u < |f.work.blocks| && NamesItsMerge(body, f, u)
  {
    EmitsOnItsPlan(body, s, start, f);
    NamesMerge(body, f, u);
  }

  // ---- section 2.11 of the SPIR-V specification, of the labels in the instructions ----

  /** No two merge instructions of a function name one merge block. */
  lemma NamedMergesAreDistinct(body: Body, s: Signature, start: Cursor, f: Function, a: nat, b: nat)
    requires Emits(body, s, start, f) && a < |f.work.blocks| && b < |f.work.blocks| && a != b
    requires !f.work.blocks[a].merge.NoMerge? && !f.work.blocks[b].merge.NoMerge?
    ensures f.work.blocks[a].merge.merge != f.work.blocks[b].merge.merge
  {
    EmitsOnItsPlan(body, s, start, f);
    NamesMerge(body, f, a);
    NamesMerge(body, f, b);
    NamedIsABlock(body, f, a);
    NamedIsABlock(body, f, b);
    MergeBlocksAreDistinct(body, a, b);
  }

  lemma NamedIsABlock(body: Body, f: Function, u: nat)
    requires OnItsPlan(body, f) && u < |f.work.blocks| && NamesItsMerge(body, f, u) && !f.work.blocks[u].merge.NoMerge?
    ensures u < |body.blocks| && Merge(body, u).Some?
    ensures Named(f, f.work.blocks[u].merge.merge) == Merge(body, u)
  {
    MergeIsANode(body, u);
  }

  /** A label names a block that `u` strictly dominates in the function. */
  ghost predicate NamesDominated(f: Function, u: nat, l: nat) {
    Named(f, l).Some? && Named(f, l).value != u && Dominates(f.plan.targets, f.plan.entry, u, Named(f, l).value)
  }

  /** A loop header strictly dominates the merge block and the continue target its instruction names. */
  lemma NamedLoopIsDominated(body: Body, s: Signature, start: Cursor, f: Function, u: nat)
    requires Emits(body, s, start, f) && u < |f.work.blocks| && f.work.blocks[u].merge.LoopMergeInst?
    ensures NamesDominated(f, u, f.work.blocks[u].merge.merge)
    ensures NamesDominated(f, u, f.work.blocks[u].merge.continueTo)
  {
    EmitsOnItsPlan(body, s, start, f);
    NamesMerge(body, f, u);
    MergeIsANode(body, u);
    HeaderDominatesItsMerge(body, u);
    ContinueIsDominated(body, u);
  }

  /** The selection merges at its join itself, or dominates every block whose branch its pass-through carries. */
  ghost predicate MergeIsEntered(body: Body, u: nat)
    requires Structured(body) && IsSelection(body, u)
  {
    NeedsPass(body, u) ==> forall v: nat :: Carries(body, v, u) ==> Dominates(Carried(body), body.entry, u, v)
  }

  /**
  A selection strictly dominates the merge block its instruction names exactly under the pass-through's condition.
   */
  lemma NamedSelectionIsDominatedExactly(body: Body, s: Signature, start: Cursor, f: Function, u: nat)
    requires Emits(body, s, start, f) && u < |f.work.blocks| && f.work.blocks[u].merge.SelectionMergeInst?
    ensures Structured(body) && IsSelection(body, u)
    ensures NamesDominated(f, u, f.work.blocks[u].merge.merge) <==> MergeIsEntered(body, u)
  {
    EmitsOnItsPlan(body, s, start, f);
    NamesMerge(body, f, u);
    MergeIsANode(body, u);
    if NeedsPass(body, u) {
      PassHasItsNode(body, u);
      PassIsDominatedExactly(body, u, u);
    } else {
      SelectionDominatesItsJoin(body, u);
    }
  }
}
