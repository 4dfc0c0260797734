/** `plan_body`: laying a body out as structured control flow. */
module Planner {
  import opened Graphs
  import opened Options
  import opened Kernel
  import opened Reachability
  import opened PostDominators
  import opened Structure
  import DepthFirst
  import Dominators
  import Leaving
  import LoopHeaders

  /** Why a body cannot be laid out, each naming the block it is about. */
  datatype Refusal =
    | NotReachable(block: nat)
    | EntryIsHeader
    | HeaderTestsNothing(header: nat)
    | NeverLeaves(header: nat)
    | NoPathBack(header: nat)
    | EnteredElsewhere(header: nat)
    | ArmsNeverMeet(header: nat)
    | ArmsMeetByLeaving(header: nat)
    | NodeWithoutArrival

  datatype Plan = Plan(
    nodes: seq<Node>,
    labels: seq<nat>,
    arities: seq<nat>,
    targets: seq<seq<nat>>,
    merges: seq<Option<nat>>,
    loopBodies: seq<Option<nat>>,
    order: seq<nat>,
    entry: nat,
    freshLabels: nat)

  function Label(entry: nat, entryLabel: nat, firstLabel: nat, node: nat): nat {
    if node == entry then entryLabel
    else if node < entry then firstLabel + node
    else firstLabel + node - 1
  }

  /** The plan of a body: everything but the writing order is a function of the body. */
  ghost predicate PlanOf(body: Body, entryLabel: nat, firstLabel: nat, p: Plan) {
    && Plannable(body)
    && p.nodes == Nodes(body)
    && p.targets == Emitted(body)
    && |p.labels| == |p.arities| == |p.nodes|
    && (forall i: nat :: i < |p.nodes| ==> p.labels[i] == Label(body.entry, entryLabel, firstLabel, i))
    && (forall i: nat :: i < |p.nodes| ==> ArityFits(body, p, i))
    && |p.merges| == |p.loopBodies| == |body.blocks|
    && (forall h: nat :: h < |body.blocks| ==> p.merges[h] == Merge(body, h) && p.loopBodies[h] == LoopEntry(body, h))
    && DepthFirst.WritingOrder(Emitted(body), body.entry, p.order)
    && p.entry == body.entry
    && p.freshLabels == |p.nodes| - 1
  }

  /** A node takes as many values as the block it stands for. */
  ghost predicate ArityFits(body: Body, p: Plan, i: nat)
    requires i < |p.nodes| && i < |p.arities|
  {
    var d := Destination(p.nodes[i]);
    d < |body.blocks| && p.arities[i] == |body.blocks[d].params|
  }

  /** The dominance matrix the later steps read. */
  ghost predicate DominanceMatrix(body: Body, dominates: seq<seq<bool>>) {
    && |dominates| == |body.blocks|
    && (forall n: nat :: n < |dominates| ==> |dominates[n]| == |dominates|)
    && (forall n: nat, d: nat :: n < |dominates| && d < |dominates| ==>
        (dominates[n][d] <==> Dominates(Flow(body), body.entry, d, n)))
  }

  /** What the refusal of block `h` as a loop header rests on. */
  ghost predicate BadLoop(body: Body, h: nat, why: Refusal)
    requires ValidBody(body) && h < |body.blocks|
  {
    var t := body.blocks[h].terminator;
    IsHeader(body, h) &&
    match why
    case HeaderTestsNothing(b) => b == h && !t.CondBr?
    case NeverLeaves(b) => b == h && t.CondBr? && Reaches(Flow(body), t.ifTrue.target, h) &&
      Reaches(Flow(body), t.ifFalse.target, h)
    case NoPathBack(b) => b == h && t.CondBr? && !Reaches(Flow(body), t.ifTrue.target, h) &&
      !Reaches(Flow(body), t.ifFalse.target, h)
    case EnteredElsewhere(b) => b == h && t.CondBr? &&
      !(LoopBody(body, h) != h && Dominates(Flow(body), body.entry, h, LoopBody(body, h)))
    case _ => false
  }

  lemma BadLoopDoesNotFit(body: Body, h: nat, why: Refusal)
    requires ValidBody(body) && h < |body.blocks| && BadLoop(body, h, why)
    ensures !LoopFits(body, h)
  {
  }

  /** The loop test on one header. */
  method CheckLoop(body: Body, successors: Graph, dominates: seq<seq<bool>>, header: nat)
    returns (r: Result<(nat, nat), Refusal>)
    requires ValidBody(body) && successors == Flow(body) && DominanceMatrix(body, dominates)
    requires header < |body.blocks| && IsHeader(body, header)
    ensures r.Success? ==> LoopFits(body, header) && r.value == (LoopBody(body, header), LoopExit(body, header))
    ensures r.Failure? ==> BadLoop(body, header, r.error)
  {
    FlowIsValid(body);
    var t := body.blocks[header].terminator;
    if !t.CondBr? { return Failure(HeaderTestsNothing(header)); }
    var one, zero := t.ifTrue.target, t.ifFalse.target;
    assert Edge(successors, header, one) && Edge(successors, header, zero) by {
      assert t.ifTrue in Branches(t) && t.ifFalse in Branches(t);
    }
    var oneBack := ReachesTo(successors, one, header);
    var zeroBack := ReachesTo(successors, zero, header);
    if oneBack && zeroBack { return Failure(NeverLeaves(header)); }
    if !oneBack && !zeroBack { return Failure(NoPathBack(header)); }
    var bodyEntry, exit := if oneBack then one else zero, if oneBack then zero else one;
    if bodyEntry == header || !dominates[bodyEntry][header] { return Failure(EnteredElsewhere(header)); }
    return Success((bodyEntry, exit));
  }

  /** The first pass over the blocks: every header gets a loop merge. */
  method AddLoopMerges(body: Body, successors: Graph, dominates: seq<seq<bool>>, headers: seq<bool>)
    returns (r: Result<(seq<Node>, seq<Option<nat>>, seq<Option<nat>>), Refusal>)
    requires ValidBody(body) && successors == Flow(body) && DominanceMatrix(body, dominates)
    requires |headers| == |body.blocks| && forall h: nat :: h < |headers| ==> (headers[h] <==> IsHeader(body, h))
    ensures r.Success? ==>
      && LoopsFit(body, |body.blocks|)
      && r.value.0 == RealNodes(|body.blocks|) + LoopNodes(body, |body.blocks|)
      && |r.value.1| == |r.value.2| == |body.blocks|
      && forall h: nat :: h < |body.blocks| ==> LoopMarks(body, |body.blocks|, h, r.value.1[h], r.value.2[h])
    ensures r.Failure? ==> exists h: nat :: h < |body.blocks| && BadLoop(body, h, r.error)
  {
    var count := |body.blocks|;
    var nodes: seq<Node> := [];
    for block := 0 to count
      invariant nodes == RealNodes(block)
    {
      nodes := nodes + [Real(block)];
    }
    var merges: seq<Option<nat>> := seq(count, _ => None);
    var loopBodies: seq<Option<nat>> := seq(count, _ => None);
    for header := 0 to count
      invariant LoopsFit(body, header)
      invariant nodes == RealNodes(count) + LoopNodes(body, header)
      invariant |merges| == |loopBodies| == count
      invariant forall h: nat :: h < count ==> LoopMarks(body, header, h, merges[h], loopBodies[h])
    {
      if headers[header] {
        var fit := CheckLoop(body, successors, dominates, header);
        if fit.Failure? { return Failure(fit.error); }
        var (bodyEntry, exit) := fit.value;
        merges := merges[header := Some(|nodes|)];
        loopBodies := loopBodies[header := Some(bodyEntry)];
        nodes := nodes + [LoopMerge(header, exit)];
      }
    }
    return Success((nodes, merges, loopBodies));
  }

  /** What the first pass leaves of block `h` once it has looked at the blocks below `k`. */
  ghost predicate LoopMarks(body: Body, k: nat, h: nat, merge: Option<nat>, loopBody: Option<nat>)
    requires ValidBody(body) && LoopsFit(body, k) && h < |body.blocks| && k <= |body.blocks|
  {
    if h < k && IsHeader(body, h)
    then merge == Some(|body.blocks| + |LoopNodes(body, h)|) && loopBody == Some(LoopBody(body, h))
    else merge == None && loopBody == None
  }

  /** What the refusal of selection `h` rests on: no real block is its join. */
  ghost predicate BadSelection(body: Body, h: nat, why: Refusal)
    requires ValidBody(body)
  {
    IsSelection(body, h) && !HasJoin(body, h) && why == ArmsMeetByLeaving(h)
  }

  ghost predicate AfterMatrix(body: Body, after: seq<Option<nat>>) {
    var g := Flow(body);
    var count := |body.blocks|;
    && |after| == count
    && (forall n: nat :: n < count ==> after[n].Some? && after[n].value <= count)
    && (forall n: nat :: n < count && CanLeave(g, n) && after[n].value < count ==> Nearest(g, n, after[n].value))
    && (forall n: nat :: n < count && CanLeave(g, n) && after[n].value == count ==>
        forall d: nat :: d < count && d != n ==> !PostDominates(g, d, n))
  }

  /** The join the matrix names is the selection's join, and there is none when it names the exit. */
  lemma AfterIsJoin(body: Body, after: seq<Option<nat>>, h: nat)
    requires ValidBody(body) && AfterMatrix(body, after) && h < |body.blocks| && CanLeave(Flow(body), h)
    ensures HasJoin(body, h) <==> after[h].value < |body.blocks|
    ensures HasJoin(body, h) ==> Join(body, h) == after[h].value
  {
    var g := Flow(body);
    if after[h].value < |body.blocks| {
      NearestIsUnique(g, h, after[h].value, Join(body, h));
    }
  }

  lemma LoopsFitCanLeave(body: Body)
    requires ValidBody(body) && LoopsFit(body, |body.blocks|)
    requires forall v: nat :: v < |body.blocks| ==> Reaches(Flow(body), body.entry, v)
    ensures forall v: nat :: v < |body.blocks| ==> CanLeave(Flow(body), v)
  {
    FlowIsValid(body);
    var g := Flow(body);
    LoopHeaders.HeadersBreakCycles(g, body.entry);
    forall h | h in LoopHeaders.FullSearch(g, body.entry).headers ensures Leaving.HasExit(g, h) {
      assert IsHeader(body, h) && LoopFits(body, h);
      var t := body.blocks[h].terminator;
      assert t.ifTrue in Branches(t) && t.ifFalse in Branches(t);
      assert Edge(g, h, LoopExit(body, h));
    }
    forall v: nat | v < |body.blocks| ensures CanLeave(g, v) {
      Leaving.CanAlwaysLeave(g, body.entry, v);
    }
  }

  /** The join of one selection, or why it has none. */
  method CheckSelection(body: Body, ghost successors: Graph, after: seq<Option<nat>>, header: nat)
    returns (r: Result<nat, Refusal>)
    requires ValidBody(body) && successors == Flow(body) && IsSelection(body, header)
    requires AfterMatrix(body, after) && CanLeave(successors, header)
    ensures r.Success? ==> HasJoin(body, header) && r.value == Join(body, header)
    ensures r.Failure? ==> BadSelection(body, header, r.error)
  {
    AfterIsJoin(body, after, header);
    if after[header].None? { return Failure(ArmsNeverMeet(header)); }
    var join := after[header].value;
    if join == |body.blocks| { return Failure(ArmsMeetByLeaving(header)); }
    return Success(join);
  }

  /** The nodes, merges and pass list once the selections below `k` have been placed. */
  ghost predicate Placed(body: Body, k: nat, nodes: seq<Node>, merges: seq<Option<nat>>, passes: seq<Pass>)
    requires ValidBody(body) && k <= |body.blocks| && LoopsFit(body, |body.blocks|)
  {
    && JoinsExist(body, k)
    && passes == Passes(body, k)
    && nodes == RealNodes(|body.blocks|) + LoopNodes(body, |body.blocks|) + PassNodes(passes)
    && MergesSoFar(body, k, merges)
  }

  /** A selection takes its join as merge block when it dominates it, and a new pass-through when not. */
  method PlaceSelection(body: Body, dominates: seq<seq<bool>>, header: nat, join: nat,
                        nodes: seq<Node>, merges: seq<Option<nat>>, passes: seq<Pass>)
    returns (nodes': seq<Node>, merges': seq<Option<nat>>, passes': seq<Pass>)
    requires ValidBody(body) && DominanceMatrix(body, dominates) && LoopsFit(body, |body.blocks|)
    requires IsSelection(body, header) && HasJoin(body, header) && join == Join(body, header)
    requires Placed(body, header, nodes, merges, passes)
    ensures Placed(body, header + 1, nodes', merges', passes')
  {
    assert JoinsExist(body, header + 1);
    if dominates[join][header] {
      nodes', merges', passes' := nodes, merges[header := Some(join)], passes;
    } else {
      var pass := |nodes|;
      merges' := merges[header := Some(pass)];
      PassNodesSnoc(passes, Pass(header, join, pass));
      passes' := passes + [Pass(header, join, pass)];
      nodes' := nodes + [PassThrough(header, join)];
      assert nodes' == RealNodes(|body.blocks|) + LoopNodes(body, |body.blocks|) + PassNodes(passes');
    }
    MergeStep(body, header, merges, merges');
  }

  lemma SkipBlock(body: Body, k: nat, nodes: seq<Node>, merges: seq<Option<nat>>, passes: seq<Pass>)
    requires ValidBody(body) && k < |body.blocks| && LoopsFit(body, |body.blocks|)
    requires Placed(body, k, nodes, merges, passes) && !IsSelection(body, k)
    ensures Placed(body, k + 1, nodes, merges, passes)
  {
    assert JoinsExist(body, k + 1);
    MergeStep(body, k, merges, merges);
  }

  lemma StartPlacing(body: Body, merges: seq<Option<nat>>)
    requires ValidBody(body) && LoopsFit(body, |body.blocks|) && |merges| == |body.blocks|
    requires forall h: nat :: h < |body.blocks| ==> merges[h] == LoopMergeOf(body, h)
    ensures Placed(body, 0, RealNodes(|body.blocks|) + LoopNodes(body, |body.blocks|), merges, [])
  {
    assert PassNodes([]) == [];
  }

  /** The merge block the first pass gives `h`. */
  ghost function LoopMergeOf(body: Body, h: nat): Option<nat>
    requires ValidBody(body) && h < |body.blocks| && LoopsFit(body, |body.blocks|)
  {
    if IsHeader(body, h) then Some(|body.blocks| + |LoopNodes(body, h)|) else None
  }

  /** The second pass: every selection gets its join, or a pass-through in front of it. */
  method AddPassThroughs(body: Body, ghost successors: Graph, dominates: seq<seq<bool>>, headers: seq<bool>,
                         after: seq<Option<nat>>, loopNodes: seq<Node>, loopMerges: seq<Option<nat>>)
    returns (r: Result<(seq<Node>, seq<Option<nat>>, seq<Pass>), Refusal>)
    requires ValidBody(body) && successors == Flow(body) && DominanceMatrix(body, dominates)
    requires |headers| == |body.blocks| && forall h: nat :: h < |headers| ==> (headers[h] <==> IsHeader(body, h))
    requires LoopsFit(body, |body.blocks|) && AfterMatrix(body, after)
    requires forall v: nat :: v < |body.blocks| ==> CanLeave(successors, v)
    requires loopNodes == RealNodes(|body.blocks|) + LoopNodes(body, |body.blocks|)
    requires |loopMerges| == |body.blocks|
    requires forall h: nat :: h < |body.blocks| ==> loopMerges[h] == LoopMergeOf(body, h)
    ensures r.Success? ==> Placed(body, |body.blocks|, r.value.0, r.value.1, r.value.2)
    ensures r.Failure? ==> exists h: nat :: h < |body.blocks| && BadSelection(body, h, r.error)
  {
    var count := |body.blocks|;
    var nodes := loopNodes;
    var merges: seq<Option<nat>> := loopMerges;
    var passes: seq<Pass> := [];
    StartPlacing(body, merges);
    for header := 0 to count
      invariant Placed(body, header, nodes, merges, passes)
    {
      var t := body.blocks[header].terminator;
      if !headers[header] && t.CondBr? && t.ifTrue.target != t.ifFalse.target {
        assert IsSelection(body, header);
        var checked := CheckSelection(body, successors, after, header);
        if checked.Failure? { return Failure(checked.error); }
        nodes, merges, passes := PlaceSelection(body, dominates, header, checked.value, nodes, merges, passes);
      } else {
        SkipBlock(body, header, nodes, merges, passes);
      }
    }
    return Success((nodes, merges, passes));
  }

  lemma PassNodesSnoc(passes: seq<Pass>, p: Pass)
    ensures PassNodes(passes + [p]) == PassNodes(passes) + [PassThrough(p.header, p.join)]
  {
    assert (passes + [p])[..|passes|] == passes;
  }

  /** The merge block of `h` once the selections below `k` have been given theirs. */
  ghost function MergeSoFar(body: Body, k: nat, h: nat): Option<nat>
    requires ValidBody(body) && h < |body.blocks| && k <= |body.blocks|
    requires LoopsFit(body, |body.blocks|) && JoinsExist(body, k)
  {
    if IsHeader(body, h) then Some(|body.blocks| + |LoopNodes(body, h)|)
    else if h >= k || !IsSelection(body, h) then None
    else if NeedsPass(body, h) then Some(FirstPass(body) + |Passes(body, h)|)
    else Some(Join(body, h))
  }

  ghost predicate MergesSoFar(body: Body, k: nat, merges: seq<Option<nat>>)
    requires ValidBody(body) && k <= |body.blocks|
    requires LoopsFit(body, |body.blocks|) && JoinsExist(body, k)
  {
    |merges| == |body.blocks| && forall h: nat :: h < |body.blocks| ==> merges[h] == MergeSoFar(body, k, h)
  }

  lemma MergeStep(body: Body, k: nat, was: seq<Option<nat>>, merges: seq<Option<nat>>)
    requires ValidBody(body) && k < |body.blocks|
    requires LoopsFit(body, |body.blocks|) && JoinsExist(body, k + 1)
    requires MergesSoFar(body, k, was)
    requires |merges| == |was| && forall h: nat :: h < |was| && h != k ==> merges[h] == was[h]
    requires merges[k] == if !IsSelection(body, k) then was[k]
      else if NeedsPass(body, k) then Some(FirstPass(body) + |Passes(body, k)|) else Some(Join(body, k))
    ensures MergesSoFar(body, k + 1, merges)
  {
    forall h: nat | h < |body.blocks| ensures merges[h] == MergeSoFar(body, k + 1, h) {
      if h != k { MergeSame(body, k, h); } else { MergeAt(body, k); }
    }
  }

  lemma MergeAt(body: Body, k: nat)
    requires ValidBody(body) && k < |body.blocks|
    requires LoopsFit(body, |body.blocks|) && JoinsExist(body, k + 1)
    ensures MergeSoFar(body, k + 1, k) == if !IsSelection(body, k) then MergeSoFar(body, k, k)
      else if NeedsPass(body, k) then Some(FirstPass(body) + |Passes(body, k)|) else Some(Join(body, k))
  {
  }

  lemma MergeSame(body: Body, k: nat, h: nat)
    requires ValidBody(body) && h < |body.blocks| && k < |body.blocks| && h != k
    requires LoopsFit(body, |body.blocks|) && JoinsExist(body, k + 1)
    ensures MergeSoFar(body, k + 1, h) == MergeSoFar(body, k, h)
  {
  }

  lemma MergesDone(body: Body, merges: seq<Option<nat>>, h: nat)
    requires Structured(body) && MergesSoFar(body, |body.blocks|, merges) && h < |body.blocks|
    ensures merges[h] == Merge(body, h)
  {
  }

  lemma LoopMarksDone(body: Body, h: nat, merge: Option<nat>, loopBody: Option<nat>)
    requires ValidBody(body) && LoopsFit(body, |body.blocks|) && h < |body.blocks|
    requires LoopMarks(body, |body.blocks|, h, merge, loopBody)
    ensures merge == LoopMergeOf(body, h)
    ensures Structured(body) ==> loopBody == LoopEntry(body, h)
  {
  }

  /** `redirect`'s loop: the last candidate that none before it, still held, fails to be dominated by. */
  method ChoosePass(g: Graph, ghost entry: nat, dominates: seq<seq<bool>>, passes: seq<Pass>, from: nat, declared: nat,
      origin: nat)
    returns (best: Option<Pass>)
    requires ValidGraph(g) && origin < |g| && |dominates| == |g|
    requires forall n: nat :: n < |g| ==> |dominates[n]| == |g|
    requires forall n: nat, d: nat :: n < |g| && d < |g| ==> (dominates[n][d] <==> Dominates(g, entry, d, n))
    requires forall i :: 0 <= i < |passes| ==> passes[i].header < |g| && passes[i].join < |g|
    ensures best == Chosen(g, entry, passes, from, declared, origin)
  {
    best := None;
    for i := 0 to |passes|
      invariant best == Chosen(g, entry, passes[..i], from, declared, origin)
      invariant best.Some? ==> best.value.header < |g|
    {
      var p := passes[i];
      assert passes[..i + 1][..i] == passes[..i];
      if p.join == declared && p.node != from {
        var inside := InsideSelection(g, p.header, p.join, origin);
        if inside && (best.None? || dominates[best.value.header][p.header]) {
          best := Some(p);
        }
      }
    }
    assert passes[..|passes|] == passes;
  }

  /** `redirect`. */
  method RedirectEdge(body: Body, nodes: seq<Node>, successors: Graph, dominates: seq<seq<bool>>, passes: seq<Pass>,
      from: nat, declared: nat)
    returns (target: nat)
    requires Structured(body) && successors == Flow(body) && DominanceMatrix(body, dominates)
    requires nodes == Nodes(body) && passes == AllPasses(body)
    requires from < |nodes| && declared < |body.blocks|
    ensures target == Redirect(body, from, declared)
  {
    FlowIsValid(body);
    OriginAndDestination(body, from);
    PassesAreSelections(body, |body.blocks|);
    var best := ChoosePass(successors, body.entry, dominates, passes, from, declared, Origin(nodes[from]));
    return if best.None? then declared else best.value.node;
  }

  /** The targets of one node. */
  method ResolveTargets(body: Body, nodes: seq<Node>, successors: Graph, dominates: seq<seq<bool>>, passes: seq<Pass>,
                        merges: seq<Option<nat>>, loopBodies: seq<Option<nat>>, node: nat)
    returns (resolved: seq<nat>)
    requires Structured(body) && successors == Flow(body) && DominanceMatrix(body, dominates)
    requires nodes == Nodes(body) && passes == AllPasses(body)
    requires |merges| == |loopBodies| == |body.blocks|
    requires forall h: nat :: h < |body.blocks| ==> merges[h] == Merge(body, h) && loopBodies[h] == LoopEntry(body, h)
    requires node < |nodes|
    ensures resolved == Targets(body, node)
  {
    NodeShape(body, node);
    OriginAndDestination(body, node);
    match nodes[node] {
      case Real(block) =>
        var t := body.blocks[block].terminator;
        assert forall b :: b in Branches(t) ==> BranchFits(body, b);
        match t {
          case Return(_) =>
            resolved := [];
          case Br(to) =>
            assert to in Branches(t);
            var target := RedirectEdge(body, nodes, successors, dominates, passes, node, to.target);
            resolved := [target];
          case CondBr(_, ifTrue, ifFalse) =>
            assert ifTrue in Branches(t) && ifFalse in Branches(t);
            if loopBodies[node].Some? && merges[node].Some? {
              var inner := RedirectEdge(body, nodes, successors, dominates, passes, node, loopBodies[node].value);
              resolved := [inner, merges[node].value];
            } else if loopBodies[node].None? && merges[node].Some? {
              var one := RedirectEdge(body, nodes, successors, dominates, passes, node, ifTrue.target);
              var zero := RedirectEdge(body, nodes, successors, dominates, passes, node, ifFalse.target);
              resolved := [one, zero];
            } else {
              var only := RedirectEdge(body, nodes, successors, dominates, passes, node, ifTrue.target);
              resolved := [only];
            }
        }
      case LoopMerge(_, exit) =>
        var target := RedirectEdge(body, nodes, successors, dominates, passes, node, exit);
        resolved := [target];
      case PassThrough(_, join) =>
        var target := RedirectEdge(body, nodes, successors, dominates, passes, node, join);
        resolved := [target];
    }
  }

  method ResolveAll(body: Body, nodes: seq<Node>, successors: Graph, dominates: seq<seq<bool>>, passes: seq<Pass>,
                    merges: seq<Option<nat>>, loopBodies: seq<Option<nat>>)
    returns (targets: seq<seq<nat>>)
    requires Structured(body) && successors == Flow(body) && DominanceMatrix(body, dominates)
    requires nodes == Nodes(body) && passes == AllPasses(body)
    requires |merges| == |loopBodies| == |body.blocks|
    requires forall h: nat :: h < |body.blocks| ==> merges[h] == Merge(body, h) && loopBodies[h] == LoopEntry(body, h)
    ensures targets == Emitted(body)
  {
    targets := [];
    for node := 0 to |nodes|
      invariant |targets| == node
      invariant forall i: nat :: i < node ==> targets[i] == Targets(body, i)
    {
      var resolved := ResolveTargets(body, nodes, successors, dominates, passes, merges, loopBodies, node);
      targets := targets + [resolved];
    }
  }

  /** Labels in node order, the entry keeping its own. */
  method AssignLabels(count: nat, entry: nat, entryLabel: nat, firstLabel: nat) returns (labels: seq<nat>, taken: nat)
    requires entry < count
    ensures |labels| == count && taken == count - 1
    ensures forall i: nat :: i < count ==> labels[i] == Label(entry, entryLabel, firstLabel, i)
  {
    labels := seq(count, _ => 0)[entry := entryLabel];
    taken := 0;
    for node := 0 to count
      invariant |labels| == count && labels[entry] == entryLabel
      invariant taken == if node <= entry then node else node - 1
      invariant forall i: nat :: i < node ==> labels[i] == Label(entry, entryLabel, firstLabel, i)
    {
      if node != entry {
        labels := labels[node := firstLabel + taken];
        taken := taken + 1;
      }
    }
  }

  method CountArities(body: Body, nodes: seq<Node>) returns (arities: seq<nat>)
    requires forall i: nat :: i < |nodes| ==> Destination(nodes[i]) < |body.blocks|
    ensures |arities| == |nodes|
    ensures forall i: nat :: i < |nodes| ==> arities[i] == |body.blocks[Destination(nodes[i])].params|
  {
    arities := [];
    for i := 0 to |nodes|
      invariant |arities| == i
      invariant forall k: nat :: k < i ==> arities[k] == |body.blocks[Destination(nodes[k])].params|
    {
      arities := arities + [|body.blocks[Destination(nodes[i])].params|];
    }
  }

  /** What a refusal says about the body. */
  ghost predicate Justified(body: Body, why: Refusal)
    requires ValidBody(body)
  {
    match why
    case NotReachable(b) => b < |body.blocks| && !Reaches(Flow(body), body.entry, b)
    case EntryIsHeader => IsHeader(body, body.entry)
    case NodeWithoutArrival => Structured(body) && exists i: nat ::
      i < |Nodes(body)| && !Reaches(Emitted(body), body.entry, i)
    case _ => exists h: nat :: h < |body.blocks| && (BadLoop(body, h, why) || BadSelection(body, h, why))
  }

  /** The first block nothing arrives at, if any. */
  method FirstUnreached(reached: seq<bool>) returns (dead: Option<nat>)
    ensures dead.None? ==> forall v: nat :: v < |reached| ==> reached[v]
    ensures dead.Some? ==> dead.value < |reached| && !reached[dead.value]
    ensures dead.Some? ==> forall v: nat :: v < dead.value ==> reached[v]
  {
    for v := 0 to |reached|
      invariant forall u: nat :: u < v ==> reached[u]
    {
      if !reached[v] { return Some(v); }
    }
    return None;
  }

  /** The loops, then the selections: everything added to the body's own blocks. */
  method AddNodes(body: Body, successors: Graph, dominates: seq<seq<bool>>, headers: seq<bool>, after: seq<Option<nat>>)
    returns (r: Result<(seq<Node>, seq<Option<nat>>, seq<Option<nat>>, seq<Pass>), Refusal>)
    requires ValidBody(body) && successors == Flow(body) && DominanceMatrix(body, dominates)
    requires |headers| == |body.blocks| && forall h: nat :: h < |headers| ==> (headers[h] <==> IsHeader(body, h))
    requires AfterMatrix(body, after) && !IsHeader(body, body.entry)
    requires forall v: nat :: v < |body.blocks| ==> Reaches(successors, body.entry, v)
    ensures r.Success? <==> Structured(body)
    ensures r.Success? ==> r.value.0 == Nodes(body) && r.value.3 == AllPasses(body)
    ensures r.Success? ==> |r.value.1| == |r.value.2| == |body.blocks|
    ensures r.Success? ==> forall h: nat :: h < |body.blocks| ==>
      r.value.1[h] == Merge(body, h) && r.value.2[h] == LoopEntry(body, h)
    ensures r.Failure? ==>
      exists h: nat :: h < |body.blocks| && (BadLoop(body, h, r.error) || BadSelection(body, h, r.error))
  {
    var loops := AddLoopMerges(body, successors, dominates, headers);
    if loops.Failure? {
      ghost var h: nat :| h < |body.blocks| && BadLoop(body, h, loops.error);
      BadLoopDoesNotFit(body, h, loops.error);
      return Failure(loops.error);
    }
    var (loopNodes, loopMerges, loopBodies) := loops.value;
    LoopsFitCanLeave(body);
    forall h: nat | h < |body.blocks|
      ensures loopMerges[h] == LoopMergeOf(body, h)
      ensures Structured(body) ==> loopBodies[h] == LoopEntry(body, h)
    {
      LoopMarksDone(body, h, loopMerges[h], loopBodies[h]);
    }
    var selections := AddPassThroughs(body, successors, dominates, headers, after, loopNodes, loopMerges);
    if selections.Failure? { return Failure(selections.error); }
    var (nodes, merges, passes) := selections.value;
    forall h: nat | h < |body.blocks| ensures merges[h] == Merge(body, h) {
      MergesDone(body, merges, h);
    }
    return Success((nodes, merges, loopBodies, passes));
  }

  /**
  `plan_body`: a plan exactly when the body is plannable, and it is the plan of the
  body; a refusal names a block the refusal is true of.
   */
  method PlanBody(body: Body, entryLabel: nat, firstLabel: nat) returns (r: Result<Plan, Refusal>)
    requires ValidBody(body)
    ensures r.Success? <==> Plannable(body)
    ensures r.Success? ==> PlanOf(body, entryLabel, firstLabel, r.value)
    ensures r.Failure? ==> Justified(body, r.error)
  {
    FlowIsValid(body);
    var count, entry := |body.blocks|, body.entry;
    var successors := Flow(body);
    var reachable := ReachableFrom(count, successors, entry);
    var dead := FirstUnreached(reachable);
    if dead.Some? { return Failure(NotReachable(dead.value)); }
    var dominates := Dominators.Compute(count, successors, entry);
    var after := Immediate(count, successors);
    var headers := LoopHeaders.Find(count, successors, entry);
    if headers[entry] { return Failure(EntryIsHeader); }
    var added := AddNodes(body, successors, dominates, headers, after);
    if added.Failure? { return Failure(added.error); }
    var (nodes, merges, loopBodies, passes) := added.value;
    r := LayOut(body, entryLabel, firstLabel, successors, dominates, nodes, merges, loopBodies, passes);
  }

  /** The second half of `plan_body`: edges, writing order and labels over a structured body. */
  method LayOut(body: Body, entryLabel: nat, firstLabel: nat, successors: Graph, dominates: seq<seq<bool>>,
                nodes: seq<Node>, merges: seq<Option<nat>>, loopBodies: seq<Option<nat>>, passes: seq<Pass>)
    returns (r: Result<Plan, Refusal>)
    requires Structured(body) && successors == Flow(body) && DominanceMatrix(body, dominates)
    requires nodes == Nodes(body) && passes == AllPasses(body)
    requires |merges| == |loopBodies| == |body.blocks|
    requires forall h: nat :: h < |body.blocks| ==> merges[h] == Merge(body, h) && loopBodies[h] == LoopEntry(body, h)
    ensures r.Success? <==> Plannable(body)
    ensures r.Success? ==> PlanOf(body, entryLabel, firstLabel, r.value)
    ensures r.Failure? ==> Justified(body, r.error)
  {
    var targets := ResolveAll(body, nodes, successors, dominates, passes, merges, loopBodies);
    EmittedIsValid(body);
    var order := DepthFirst.Order(|nodes|, targets, body.entry);
    if order.None? { return Failure(NodeWithoutArrival); }
    var labels, taken := AssignLabels(|nodes|, body.entry, entryLabel, firstLabel);
    forall i: nat | i < |nodes| ensures Destination(nodes[i]) < |body.blocks| { OriginAndDestination(body, i); }
    var arities := CountArities(body, nodes);
    return Success(Plan(nodes, labels, arities, targets, merges, loopBodies, order.value, body.entry, taken));
  }
}
