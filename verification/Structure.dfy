/**
What the plan of a body is, as functions of the body: which blocks are loop headers,
which are selections, the blocks the emitter adds, and where every edge goes.
 */
module Structure {
  import opened Graphs
  import opened Options
  import opened Kernel
  import opened Reachability
  import opened PostDominators
  import LoopHeaders

  /** One block of the emitted graph. */
  datatype Node =
    | Real(block: nat)
    | LoopMerge(header: nat, exit: nat)
    | PassThrough(header: nat, join: nat)

  /** A pass-through as the redirection reads it: the selection, its join, the added node. */
  datatype Pass = Pass(header: nat, join: nat, node: nat)

  ghost predicate IsHeader(body: Body, h: nat)
    requires ValidBody(body)
  {
    FlowIsValid(body);
    h in LoopHeaders.FullSearch(Flow(body), body.entry).headers
  }

  /** The branch that can come back to the header, and the one that leaves its loop. */
  ghost function LoopBody(body: Body, h: nat): nat
    requires h < |body.blocks| && body.blocks[h].terminator.CondBr?
  {
    var t := body.blocks[h].terminator;
    if Reaches(Flow(body), t.ifTrue.target, h) then t.ifTrue.target else t.ifFalse.target
  }

  ghost function LoopExit(body: Body, h: nat): nat
    requires h < |body.blocks| && body.blocks[h].terminator.CondBr?
  {
    var t := body.blocks[h].terminator;
    if Reaches(Flow(body), t.ifTrue.target, h) then t.ifFalse.target else t.ifTrue.target
  }

  /** The header tests, exactly one branch comes back, and the body is entered through the header. */
  ghost predicate LoopFits(body: Body, h: nat)
    requires ValidBody(body) && h < |body.blocks|
  {
    && body.blocks[h].terminator.CondBr?
    && Reaches(Flow(body), LoopBody(body, h), h)
    && !Reaches(Flow(body), LoopExit(body, h), h)
    && LoopBody(body, h) != h
    && Dominates(Flow(body), body.entry, h, LoopBody(body, h))
  }

  /** A two-way branch that is not a loop header and really has two arms. */
  ghost predicate IsSelection(body: Body, h: nat)
    requires ValidBody(body)
  {
    && h < |body.blocks| && !IsHeader(body, h)
    && body.blocks[h].terminator.CondBr?
    && body.blocks[h].terminator.ifTrue.target != body.blocks[h].terminator.ifFalse.target
  }

  ghost predicate HasJoin(body: Body, h: nat) {
    exists j: nat :: j < |body.blocks| && Nearest(Flow(body), h, j)
  }

  ghost predicate LoopsFit(body: Body, k: nat)
    requires ValidBody(body)
  {
    forall h: nat :: h < k && h < |body.blocks| && IsHeader(body, h) ==> LoopFits(body, h)
  }

  ghost predicate JoinsExist(body: Body, k: nat)
    requires ValidBody(body)
  {
    forall h: nat :: h < k && IsSelection(body, h) ==> HasJoin(body, h)
  }

  /** Everything `plan_body` asks of the body's own graph. */
  ghost predicate Structured(body: Body) {
    && ValidBody(body)
    && (forall v: nat :: v < |body.blocks| ==> Reaches(Flow(body), body.entry, v))
    && !IsHeader(body, body.entry)
    && LoopsFit(body, |body.blocks|)
    && JoinsExist(body, |body.blocks|)
  }

  /** Where a selection's arms meet again: its nearest strict post-dominator. */
  ghost function Join(body: Body, h: nat): (j: nat)
    requires HasJoin(body, h)
    ensures j < |body.blocks| && Nearest(Flow(body), h, j)
  {
    var j: nat :| j < |body.blocks| && Nearest(Flow(body), h, j); j
  }

  /** A selection that does not dominate its own join. */
  ghost predicate NeedsPass(body: Body, h: nat)
    requires ValidBody(body) && (IsSelection(body, h) ==> HasJoin(body, h))
  {
    IsSelection(body, h) && !Dominates(Flow(body), body.entry, h, Join(body, h))
  }

  // ---- the nodes ----

  ghost function RealNodes(k: nat): (r: seq<Node>)
    ensures |r| == k && forall i :: 0 <= i < k ==> r[i] == Real(i)
  {
    if k == 0 then [] else RealNodes(k - 1) + [Real(k - 1)]
  }

  /** One loop merge per header below `k`, in block order. */
  ghost function LoopNodes(body: Body, k: nat): (r: seq<Node>)
    requires ValidBody(body) && k <= |body.blocks| && LoopsFit(body, k)
    ensures forall i :: 0 <= i < |r| ==> r[i].LoopMerge?
  {
    if k == 0 then []
    else LoopNodes(body, k - 1) + if IsHeader(body, k - 1) then [LoopMerge(k - 1, LoopExit(body, k - 1))] else []
  }

  ghost function FirstPass(body: Body): nat
    requires ValidBody(body) && LoopsFit(body, |body.blocks|)
  {
    |body.blocks| + |LoopNodes(body, |body.blocks|)|
  }

  /** One pass-through per selection below `k` that needs one, in block order. */
  ghost function Passes(body: Body, k: nat): (r: seq<Pass>)
    requires ValidBody(body) && k <= |body.blocks| && LoopsFit(body, |body.blocks|) && JoinsExist(body, k)
  {
    if k == 0 then []
    else
      var before := Passes(body, k - 1);
      before + if NeedsPass(body, k - 1) then [Pass(k - 1, Join(body, k - 1), FirstPass(body) + |before|)] else []
  }

  ghost function AllPasses(body: Body): seq<Pass>
    requires Structured(body)
  {
    Passes(body, |body.blocks|)
  }

  ghost function PassNodes(passes: seq<Pass>): (r: seq<Node>)
    ensures |r| == |passes| && forall i :: 0 <= i < |r| ==> r[i] == PassThrough(passes[i].header, passes[i].join)
  {
    if passes == [] then []
    else PassNodes(passes[..|passes| - 1]) + [PassThrough(passes[|passes| - 1].header, passes[|passes| - 1].join)]
  }

  ghost function Nodes(body: Body): seq<Node>
    requires Structured(body)
  {
    RealNodes(|body.blocks|) + LoopNodes(body, |body.blocks|) + PassNodes(AllPasses(body))
  }

  /** The merge block of a two-way block: its loop merge, its join, or its pass-through. */
  ghost function Merge(body: Body, h: nat): Option<nat>
    requires Structured(body) && h < |body.blocks|
  {
    if IsHeader(body, h) then Some(|body.blocks| + |LoopNodes(body, h)|)
    else if !IsSelection(body, h) then None
    else if NeedsPass(body, h) then Some(FirstPass(body) + |Passes(body, h)|)
    else Some(Join(body, h))
  }

  ghost function LoopEntry(body: Body, h: nat): Option<nat>
    requires Structured(body) && h < |body.blocks|
  {
    if IsHeader(body, h) then Some(LoopBody(body, h)) else None
  }

  // ---- the edges ----

  /** An added block sits where its header does. */
  function Origin(node: Node): nat {
    match node
    case Real(block) => block
    case LoopMerge(header, _) => header
    case PassThrough(header, _) => header
  }

  /** The block a node stands for: itself, or the block its added node forwards to. */
  function Destination(node: Node): nat {
    match node
    case Real(block) => block
    case LoopMerge(_, exit) => exit
    case PassThrough(_, join) => join
  }

  /** The pass-through belongs to `declared` and the edge's origin is inside its selection. */
  ghost predicate Candidate(g: Graph, p: Pass, from: nat, declared: nat, origin: nat) {
    p.join == declared && p.node != from && Inside(g, p.header, p.join, origin)
  }

  /** The pass-through the redirection settles on, looking at them in order. */
  ghost function Chosen(g: Graph, entry: nat, passes: seq<Pass>, from: nat, declared: nat, origin: nat): Option<Pass> {
    if passes == [] then None
    else
      var best := Chosen(g, entry, passes[..|passes| - 1], from, declared, origin);
      var p := passes[|passes| - 1];
      if !Candidate(g, p, from, declared, origin) then best
      else if best.Some? && !Dominates(g, entry, p.header, best.value.header) then best
      else Some(p)
  }

  ghost function Redirect(body: Body, from: nat, declared: nat): nat
    requires Structured(body) && from < |Nodes(body)|
  {
    match Chosen(Flow(body), body.entry, AllPasses(body), from, declared, Origin(Nodes(body)[from]))
    case None => declared
    case Some(p) => p.node
  }

  /** The targets of emitted node `i`: a loop header goes to `[body, merge]`. */
  ghost function Targets(body: Body, i: nat): seq<nat>
    requires Structured(body) && i < |Nodes(body)|
  {
    if i >= |body.blocks| then [Redirect(body, i, Destination(Nodes(body)[i]))]
    else
      match body.blocks[i].terminator
      case Return(_) => []
      case Br(to) => [Redirect(body, i, to.target)]
      case CondBr(_, ifTrue, ifFalse) =>
        if IsHeader(body, i) then [Redirect(body, i, LoopBody(body, i)), Merge(body, i).value]
        else if IsSelection(body, i) then [Redirect(body, i, ifTrue.target), Redirect(body, i, ifFalse.target)]
        else [Redirect(body, i, ifTrue.target)]
  }

  /** The emitted control-flow graph. */
  ghost function Emitted(body: Body): (g: Graph)
    requires Structured(body)
    ensures |g| == |Nodes(body)|
  {
    seq(|Nodes(body)|, i requires 0 <= i < |Nodes(body)| => Targets(body, i))
  }

  /** The body can be planned: it is structured and every emitted node is reached. */
  ghost predicate Plannable(body: Body) {
    && Structured(body)
    && forall i: nat :: i < |Nodes(body)| ==> Reaches(Emitted(body), body.entry, i)
  }

  // ---- facts about the node list ----

  lemma {:induction false} LoopNodesGrow(body: Body, h: nat, k: nat)
    requires Structured(body) && h < k <= |body.blocks|
    ensures |LoopNodes(body, h)| <= |LoopNodes(body, k)|
    ensures IsHeader(body, h) ==>
      |LoopNodes(body, h)| < |LoopNodes(body, k)| &&
      LoopNodes(body, k)[|LoopNodes(body, h)|] == LoopMerge(h, LoopExit(body, h))
  {
    if h < k - 1 { LoopNodesGrow(body, h, k - 1); }
  }

  lemma {:induction false} PassesGrow(body: Body, h: nat, k: nat)
    requires Structured(body) && h < k <= |body.blocks|
    ensures |Passes(body, h)| <= |Passes(body, k)|
    ensures NeedsPass(body, h) ==>
      |Passes(body, h)| < |Passes(body, k)| &&
      Passes(body, k)[|Passes(body, h)|] == Pass(h, Join(body, h), FirstPass(body) + |Passes(body, h)|)
  {
    if h < k - 1 { PassesGrow(body, h, k - 1); }
  }

  /** Every entry of the pass list is a selection's own, and sits at its node's place. */
  lemma {:induction false} PassesAreSelections(body: Body, k: nat)
    requires Structured(body) && k <= |body.blocks|
    ensures forall i :: 0 <= i < |Passes(body, k)| ==>
      var p := Passes(body, k)[i];
      p.header < k && NeedsPass(body, p.header) && p.join == Join(body, p.header) &&
      p.node == FirstPass(body) + i && i == |Passes(body, p.header)|
    ensures forall i, j :: 0 <= i < j < |Passes(body, k)| ==> Passes(body, k)[i].header < Passes(body, k)[j].header
  {
    if k > 0 { PassesAreSelections(body, k - 1); }
  }

  lemma {:induction false} LoopNodesAreHeaders(body: Body, k: nat)
    requires Structured(body) && k <= |body.blocks|
    ensures forall i :: 0 <= i < |LoopNodes(body, k)| ==>
      var h := LoopNodes(body, k)[i].header;
      h < k && IsHeader(body, h) && LoopNodes(body, k)[i].exit == LoopExit(body, h) && i == |LoopNodes(body, h)|
  {
    if k > 0 { LoopNodesAreHeaders(body, k - 1); }
  }

  /** What stands at each place of the node list. */
  lemma NodeShape(body: Body, i: nat)
    requires Structured(body) && i < |Nodes(body)|
    ensures i < |body.blocks| ==> Nodes(body)[i] == Real(i)
    ensures |body.blocks| <= i < FirstPass(body) ==>
      var n := Nodes(body)[i];
      n.LoopMerge? && n.header < |body.blocks| && IsHeader(body, n.header) && n.exit == LoopExit(body, n.header) &&
      Merge(body, n.header) == Some(i)
    ensures FirstPass(body) <= i ==>
      i - FirstPass(body) < |AllPasses(body)| &&
      var n := Nodes(body)[i];
      n.PassThrough? && NeedsPass(body, n.header) && n.join == Join(body, n.header) &&
      Merge(body, n.header) == Some(i) &&
      AllPasses(body)[i - FirstPass(body)] == Pass(n.header, n.join, i)
  {
    var count := |body.blocks|;
    LoopNodesAreHeaders(body, count);
    PassesAreSelections(body, count);
  }

  lemma HeaderHasItsMerge(body: Body, h: nat)
    requires Structured(body) && h < |body.blocks| && IsHeader(body, h)
    ensures var m := Merge(body, h).value;
      |body.blocks| <= m < FirstPass(body) <= |Nodes(body)| && Nodes(body)[m] == LoopMerge(h, LoopExit(body, h))
  {
    LoopNodesGrow(body, h, |body.blocks|);
  }

  lemma PassHasItsNode(body: Body, h: nat)
    requires Structured(body) && NeedsPass(body, h)
    ensures var m := Merge(body, h).value;
      FirstPass(body) <= m < |Nodes(body)| && Nodes(body)[m] == PassThrough(h, Join(body, h))
  {
    PassesGrow(body, h, |body.blocks|);
  }

  lemma OriginAndDestination(body: Body, i: nat)
    requires Structured(body) && i < |Nodes(body)|
    ensures Origin(Nodes(body)[i]) < |body.blocks| && Destination(Nodes(body)[i]) < |body.blocks|
  {
    NodeShape(body, i);
    if |body.blocks| <= i < FirstPass(body) {
      var h := Nodes(body)[i].header;
      var t := body.blocks[h].terminator;
      assert LoopFits(body, h);
      assert t.ifTrue in Branches(t) && t.ifFalse in Branches(t);
      assert BranchFits(body, t.ifTrue) && BranchFits(body, t.ifFalse);
    }
  }

  /** Whatever is chosen is one of the list's candidates. */
  lemma {:induction false} ChosenIsCandidate(g: Graph, entry: nat, passes: seq<Pass>, from: nat, declared: nat,
      origin: nat)
    ensures var c := Chosen(g, entry, passes, from, declared, origin);
      if c.None? then forall p :: p in passes ==> !Candidate(g, p, from, declared, origin)
      else c.value in passes && Candidate(g, c.value, from, declared, origin)
  {
    if passes != [] {
      ChosenIsCandidate(g, entry, passes[..|passes| - 1], from, declared, origin);
      assert passes == passes[..|passes| - 1] + [passes[|passes| - 1]];
    }
  }

  /** A redirected edge goes to its declared target or to a pass-through for it. */
  lemma RedirectStays(body: Body, from: nat, declared: nat)
    requires Structured(body) && from < |Nodes(body)| && declared < |body.blocks|
    ensures var r := Redirect(body, from, declared);
      && r < |Nodes(body)|
      && Destination(Nodes(body)[r]) == declared
      && (r == declared || (FirstPass(body) <= r && r != from &&
          Inside(Flow(body), Nodes(body)[r].header, declared, Origin(Nodes(body)[from]))))
  {
    var origin := Origin(Nodes(body)[from]);
    ChosenIsCandidate(Flow(body), body.entry, AllPasses(body), from, declared, origin);
    PassesAreSelections(body, |body.blocks|);
    var c := Chosen(Flow(body), body.entry, AllPasses(body), from, declared, origin);
    if c.Some? {
      NodeShape(body, c.value.node);
    } else {
      NodeShape(body, declared);
    }
  }

  lemma EmittedIsValid(body: Body)
    requires Structured(body)
    ensures ValidGraph(Emitted(body))
  {
    var e := Emitted(body);
    forall u: nat, k: nat | u < |e| && k < |e[u]| ensures e[u][k] < |e| {
      TargetInRange(body, u, k);
    }
  }

  lemma TargetInRange(body: Body, u: nat, k: nat)
    requires Structured(body) && u < |Nodes(body)| && k < |Targets(body, u)|
    ensures Targets(body, u)[k] < |Nodes(body)|
  {
    OriginAndDestination(body, u);
    if u >= |body.blocks| {
      RedirectStays(body, u, Destination(Nodes(body)[u]));
    } else {
      var t := body.blocks[u].terminator;
      assert forall b :: b in Branches(t) ==> BranchFits(body, b);
      match t {
        case Return(_) =>
        case Br(to) =>
          assert to in Branches(t);
          RedirectStays(body, u, to.target);
        case CondBr(_, ifTrue, ifFalse) =>
          assert ifTrue in Branches(t) && ifFalse in Branches(t);
          RedirectStays(body, u, ifTrue.target);
          RedirectStays(body, u, ifFalse.target);
          if IsHeader(body, u) { HeaderHasItsMerge(body, u); }
      }
    }
  }
}
