/** Which lanes of a launch run the body. */
module Coverage {
  import opened Graphs
  import opened Options
  import opened Scalars
  import opened Kernel
  import opened Literals
  import opened Structure
  import opened Planner
  import opened Rings
  import opened Emission
  import opened FunctionIds
  import opened Ssa
  import opened Emitters
  import opened Machines
  import opened Simulation
  import opened Preservation
  import opened TailGuards
  import opened PushConstants
  import opened Words
  import opened Launch

  /** The lanes of a workgroup. */
  const LANES: nat := 64

  /** A workgroup count and an invocation's index are numbers of thirty-two bits. */
  const INDICES: nat := 0x1_0000_0000

  /** The workgroups a launch is dispatched over: its own, cut to thirty-two bits. */
  function Dispatched(count: nat): nat {
    DivCeil(count, LANES) % INDICES
  }

  /** What the shader loads of a member of the block. */
  ghost function Member(block: seq<int>, s: Signature, k: nat): int
    requires k < |Members(s.leaves)| && |block| == EndOf(s.root, Members(s.leaves), |Members(s.leaves)|)
  {
    var classes := Members(s.leaves);
    LeavesAreApart(s.root, classes, k, |classes|);
    var offset := OffsetOf(s.root, classes, k);
    Number(block[offset..offset + PushWidth(s.root, classes[k])])
  }

  /** A lane's words: the members of the block, and its own invocation index. */
  ghost function LaneWords(block: seq<int>, s: Signature, lane: nat): (r: seq<int>)
    requires s.leaves != [] && |block| == EndOf(s.root, Members(s.leaves), |Members(s.leaves)|)
    ensures |r| == |s.leaves|
  {
    seq(|s.leaves| - 1, k requires 0 <= k < |s.leaves| - 1 => Member(block, s, k)) + [lane % INDICES]
  }

  /** The extent as the guard reads it: eight bytes of the count in an integer module, four in any other. */
  function Extent(root: Class, count: nat): nat {
    if root == IntClass then count % WORD else count % INDICES
  }

  /** A launched function and the block pushed for it. */
  ghost predicate Launched(body: Body, s: Signature, start: Cursor, f: Function, block: seq<int>, given: seq<Leaf>,
      count: nat)
  {
    ValidSsa(body) && Emits(body, s, start, f) && body.lowering.launched &&
      Pushes(block, s.root, s.leaves, given, count)
  }

  /**
  What every lane of a launch is handed: the launch's leaves cut to their members, and the count cut to the extent's.
   */
  lemma LaneWordsAreTheLeaves(block: seq<int>, s: Signature, given: seq<Leaf>, count: nat, lane: nat)
    requires Pushes(block, s.root, s.leaves, given, count)
    ensures var words := LaneWords(block, s, lane);
      && words[0] == Extent(s.root, count) && words[|words| - 1] == lane % INDICES
      && forall k :: 0 < k < |words| - 1 ==>
           words[k] == given[k - 1].bits % Power(KeptWidth(s.root, s.leaves[k], given[k - 1].kind))
  {
    var classes, leaves, words := Members(s.leaves), Pushed(count, given), LaneWords(block, s, lane);
    Powers();
    MemberReadsBack(block, s.root, classes, leaves, 0);
    assert words[0] == Member(block, s, 0);
    forall k | 0 < k < |words| - 1
      ensures words[k] == given[k - 1].bits % Power(KeptWidth(s.root, s.leaves[k], given[k - 1].kind))
    {
      MemberReadsBack(block, s.root, classes, leaves, k);
      assert words[k] == Member(block, s, k);
    }
  }

  /** The function takes a lane's words from the block. */
  predicate Takes(f: Function, block: seq<int>, s: Signature) {
    Bound(f) && |f.inputs| == |s.leaves| > 0 && |block| == EndOf(s.root, Members(s.leaves), |Members(s.leaves)|)
  }

  /** Whether a lane gets into the body. */
  ghost predicate Runs(m: Meaning, f: Function, block: seq<int>, s: Signature, lane: nat, memory: seq<int>)
    requires Takes(f, block, s)
  {
    Decided(m, f, LaneWords(block, s, lane), memory).AtNode?
  }

  lemma LaunchIsGuarded(body: Body, s: Signature, start: Cursor, f: Function, block: seq<int>, given: seq<Leaf>,
      count: nat)
    requires Launched(body, s, start, f, block, given, count)
    ensures Wired(body, s, f) && f.guard.Some? && Bound(f) &&
      |f.inputs| == |s.leaves| == |body.blocks[body.entry].params|
  {
    EmitsIsWired(body, s, start, f);
  }

  /**
  A lane gets into the body exactly when its index, as thirty-two bits hold it, is below the extent as its member
  holds it.
   */
  lemma RunsExactly(m: Meaning, body: Body, s: Signature, start: Cursor, f: Function, block: seq<int>, given: seq<Leaf>,
      count: nat, lane: nat, memory: seq<int>)
    requires Launched(body, s, start, f, block, given, count)
    ensures Takes(f, block, s) && f.guard.Some?
    ensures Inside(f, LaneWords(block, s, lane)) <==> lane % INDICES < Extent(s.root, count)
    ensures Runs(m, f, block, s, lane, memory) <==> lane % INDICES < Extent(s.root, count)
  {
    LaunchIsGuarded(body, s, start, f, block, given, count);
    LaneWordsAreTheLeaves(block, s, given, count, lane);
    CallBegins(m, body, s, f, LaneWords(block, s, lane), memory);
  }

  /** What the guard lets in: every index below an extent. */
  ghost predicate Cuts(m: Meaning, f: Function, block: seq<int>, s: Signature, memory: seq<int>, e: nat)
    requires Takes(f, block, s)
  {
    forall lane: nat :: Runs(m, f, block, s, lane, memory) <==> lane % INDICES < e
  }

  lemma LaunchCuts(m: Meaning, body: Body, s: Signature, start: Cursor, f: Function, block: seq<int>, given: seq<Leaf>,
      count: nat, memory: seq<int>)
    requires Launched(body, s, start, f, block, given, count)
    ensures Takes(f, block, s) && Cuts(m, f, block, s, memory, Extent(s.root, count))
  {
    LaunchIsGuarded(body, s, start, f, block, given, count);
    forall lane: nat ensures Runs(m, f, block, s, lane, memory) <==> lane % INDICES < Extent(s.root, count) {
      RunsExactly(m, body, s, start, f, block, given, count, lane, memory);
    }
  }

  /**
  What becomes of each lane: one that gets in returns what the body does, and one that does not leaves the memory
  untouched.
   */
  lemma EachLane(m: Meaning, body: Body, s: Signature, start: Cursor, f: Function, block: seq<int>, given: seq<Leaf>,
      count: nat, lane: nat, memory: seq<int>, after: seq<int>)
    requires Launched(body, s, start, f, block, given, count) && NoRings(body)
    ensures var words := LaneWords(block, s, lane);
      && Bound(f) && |words| == |f.inputs| == |body.blocks[body.entry].params|
      && (FunctionReturns(m, f, words, memory, None, after) <==>
          if lane % INDICES < Extent(s.root, count) then BodyLeaves(m, body, words, memory, None, after)
          else after == memory)
  {
    var words := LaneWords(block, s, lane);
    LaunchIsGuarded(body, s, start, f, block, given, count);
    RunsExactly(m, body, s, start, f, block, given, count, lane, memory);
    if lane % INDICES < Extent(s.root, count) {
      MeaningIsPreserved(m, body, s, start, f, words, memory, None, after);
    } else {
      SurplusLaneReturns(m, body, s, start, f, words, memory, None, after);
    }
  }

  // ---- the guarded graph ----

  /** Where in the guarded graph the machine stands. */
  ghost function Spot(body: Body, t: Target): Option<nat>
    requires Structured(body)
  {
    match t
    case AtGuard(_, _) => Some(|Nodes(body)|)
    case AtNode(node, _, _) => Some(node)
    case AtMerge(_) => Some(|Nodes(body)| + 1)
    case _ => None
  }

  ghost predicate GuardedStep(m: Meaning, body: Body, f: Function, t: Target)
    requires Structured(body)
  {
    Spot(body, t).Some? && Spot(body, TargetStep(m, f, t)).Some? ==>
      Edge(GuardedGraph(body), Spot(body, t).value, Spot(body, TargetStep(m, f, t)).value)
  }

  /** Every step of a guarded call goes along an edge of the guarded graph, until it returns. */
  lemma StepsAreGuardedEdges(m: Meaning, body: Body, s: Signature, start: Cursor, f: Function, words: seq<int>,
      memory: seq<int>, n: nat)
    requires ValidSsa(body) && Emits(body, s, start, f) && f.guard.Some? && |words| == |f.inputs|
    ensures Structured(body) && Bound(f) && GuardedStep(m, body, f, TargetSteps(m, f, Call(m, f, words, memory), n))
  {
    EmitsIsWired(body, s, start, f);
    WiredSteps(m, body, s, f, words, memory, n);
  }

  lemma WiredSteps(m: Meaning, body: Body, s: Signature, f: Function, words: seq<int>, memory: seq<int>, n: nat)
    requires Wired(body, s, f) && f.guard.Some? && |words| == |f.inputs|
    ensures Bound(f) && GuardedStep(m, body, f, TargetSteps(m, f, Call(m, f, words, memory), n))
  {
    CallBegins(m, body, s, f, words, memory);
    GuardStarts(m, body, s, f, words, memory);
    AlwaysInStep(m, body, f);
    StepsOnward(m, body, f, words, memory, n);
  }

  lemma StepsOnward(m: Meaning, body: Body, f: Function, words: seq<int>, memory: seq<int>, n: nat)
    requires ValidBody(body) && Finished?(body, f) && InStep(m, body, f) && Bound(f) &&
      |words| == |f.inputs| == |body.blocks[body.entry].params|
    requires f.guard.Some? && Structured(body) && f.plan.targets == Emitted(body) &&
      GuardedStep(m, body, f, Call(m, f, words, memory))
    requires
      if Inside(f, words) then Related(body, f, Begin(body, words, memory), Decided(m, f, words, memory))
      else Decided(m, f, words, memory) == AtMerge(memory)
    ensures GuardedStep(m, body, f, TargetSteps(m, f, Call(m, f, words, memory), n))
  {
    if n > 0 {
      if Inside(f, words) {
        InsideSteps(m, body, f, words, memory, n);
      } else {
        SurplusSteps(m, f, words, memory, n);
      }
    }
  }

  lemma InsideSteps(m: Meaning, body: Body, f: Function, words: seq<int>, memory: seq<int>, n: nat)
    requires ValidBody(body) && Finished?(body, f) && InStep(m, body, f) && Bound(f) &&
      |words| == |f.inputs| == |body.blocks[body.entry].params|
    requires f.guard.Some? && Related(body, f, Begin(body, words, memory), Decided(m, f, words, memory))
    requires Structured(body) && f.plan.targets == Emitted(body) && n > 0
    ensures GuardedStep(m, body, f, TargetSteps(m, f, Call(m, f, words, memory), n))
  {
    DecidedFirst(m, f, words, memory, n - 1);
    var k := NeverAstray(m, body, f, Begin(body, words, memory), Decided(m, f, words, memory), n - 1);
    FollowedEdge(m, body, f, Steps(m, body, Begin(body, words, memory), k),
      TargetSteps(m, f, Decided(m, f, words, memory), n - 1));
  }

  lemma GuardStarts(m: Meaning, body: Body, s: Signature, f: Function, words: seq<int>, memory: seq<int>)
    requires Wired(body, s, f) && f.guard.Some? && Bound(f) && |words| == |f.inputs|
    ensures GuardedStep(m, body, f, Call(m, f, words, memory))
  {
    PrologueHolds(m, body, f, words, memory);
    GuardDecides(m, body, s, f, words, memory);
    GuardedEdge(body, |Nodes(body)|, body.entry);
    GuardedEdge(body, |Nodes(body)|, |Nodes(body)| + 1);
  }

  lemma FollowedEdge(m: Meaning, body: Body, f: Function, s: Source, t: Target)
    requires ValidBody(body) && Finished?(body, f) && InStep(m, body, f) && Related(body, f, s, t)
    requires Structured(body) && f.plan.targets == Emitted(body)
    ensures GuardedStep(m, body, f, t)
  {
    assert StepKept(m, body, f, s, t);
    var after := TargetStep(m, f, t);
    if t.AtNode? && after.AtNode? {
      EmittedIsValid(body);
      GuardedEdge(body, t.node, after.node);
    }
  }

  // ---- coverage ----

  /** The invocation indices of the first `n` lanes that get into the body, in order. */
  ghost function Indices(m: Meaning, f: Function, block: seq<int>, s: Signature, memory: seq<int>, n: nat): seq<nat>
    requires Takes(f, block, s)
  {
    if n == 0 then []
    else
      Indices(m, f, block, s, memory, n - 1) + if Runs(m, f, block, s, n - 1, memory) then [(n - 1) % INDICES] else []
  }

  function UpTo(n: nat): (r: seq<nat>)
    ensures |r| == n && forall k :: 0 <= k < n ==> r[k] == k
  {
    if n == 0 then [] else UpTo(n - 1) + [n - 1]
  }

  /** The indices below an extent that the first `n` lanes have, in order: thirty-two bits that start over. */
  function Turning(e: nat, n: nat): seq<nat> {
    if n == 0 then [] else Turning(e, n - 1) + if (n - 1) % INDICES < e then [(n - 1) % INDICES] else []
  }

  lemma {:induction false} IndicesTurn(m: Meaning, f: Function, block: seq<int>, s: Signature, memory: seq<int>, e: nat,
      n: nat)
    requires Takes(f, block, s) && Cuts(m, f, block, s, memory, e)
    ensures Indices(m, f, block, s, memory, n) == Turning(e, n)
  {
    if n > 0 {
      IndicesTurn(m, f, block, s, memory, e, n - 1);
      assert Runs(m, f, block, s, n - 1, memory) <==> (n - 1) % INDICES < e;
    }
  }

  lemma {:induction false} FirstTurn(e: nat, n: nat)
    requires n <= INDICES
    ensures Turning(e, n) == UpTo(if n < e then n else e)
  {
    if n > 0 { FirstTurn(e, n - 1); }
  }

  /** After the first turn the indices start over: zero is there again, or none is ever there. */
  lemma {:induction false} NextTurn(e: nat, n: nat)
    requires n > INDICES
    ensures var first := if INDICES < e then INDICES else e;
      if e == 0 then Turning(e, n) == [] else first < |Turning(e, n)| && Turning(e, n)[first] == 0
  {
    if n == INDICES + 1 {
      FirstTurn(e, INDICES);
    } else {
      NextTurn(e, n - 1);
    }
  }

  /** A launch of at most 2^32 lanes is dispatched whole, and one turn of the index is enough for it. */
  lemma SmallIsDispatched(count: nat)
    requires count <= INDICES
    ensures Dispatched(count) == DivCeil(count, LANES) && count <= Dispatched(count) * LANES <= INDICES
  {
    PaddingIsShort(count, LANES);
  }

  lemma ExtentExactly(root: Class, count: nat)
    ensures Extent(root, count) <= count
    ensures count <= INDICES ==> (Extent(root, count) == count <==> count < INDICES || root == IntClass)
  {
  }

  lemma TurnsOnce(root: Class, count: nat)
    ensures Turning(Extent(root, count), Dispatched(count) * LANES) == UpTo(count) <==>
      count < INDICES || (root == IntClass && count == INDICES)
  {
    var e, n := Extent(root, count), Dispatched(count) * LANES;
    ExtentExactly(root, count);
    if count <= INDICES {
      SmallIsDispatched(count);
      FirstTurn(e, n);
      assert |UpTo(count)| == count && |UpTo(e)| == e;
    } else {
      TurnsFallShort(e, n, count);
    }
  }

  lemma TurnsFallShort(e: nat, n: nat, count: nat)
    requires count > INDICES
    ensures Turning(e, n) != UpTo(count)
  {
    if n <= INDICES {
      FirstTurn(e, n);
      assert |UpTo(if n < e then n else e)| < count == |UpTo(count)|;
    } else {
      NextTurn(e, n);
      var first := if INDICES < e then INDICES else e;
      assert first < count && UpTo(count)[first] == first;
    }
  }

  /**
  Every launch, of any count: the lanes that get into the body are those from 0 to the count, once each,
  exactly when the count is below 2^32, or is 2^32 in an integer module.
   */
  lemma LanesAreTheCount(m: Meaning, body: Body, s: Signature, start: Cursor, f: Function, block: seq<int>,
      given: seq<Leaf>, count: nat, memory: seq<int>)
    requires Launched(body, s, start, f, block, given, count)
    ensures Takes(f, block, s)
    ensures Indices(m, f, block, s, memory, Dispatched(count) * LANES) == UpTo(count) <==>
      count < INDICES || (s.root == IntClass && count == INDICES)
  {
    LaunchCuts(m, body, s, start, f, block, given, count, memory);
    IndicesTurn(m, f, block, s, memory, Extent(s.root, count), Dispatched(count) * LANES);
    TurnsOnce(s.root, count);
  }

  // ---- barriers ----

  /** Whether two lanes of a workgroup part at the guard. */
  ghost predicate Divides(m: Meaning, f: Function, block: seq<int>, s: Signature, memory: seq<int>, group: nat)
    requires Takes(f, block, s)
  {
    exists a: nat, b: nat :: Part(m, f, block, s, memory, group, a, b)
  }

  ghost predicate Part(m: Meaning, f: Function, block: seq<int>, s: Signature, memory: seq<int>, group: nat, a: nat,
      b: nat)
    requires Takes(f, block, s)
  {
    && a < LANES && b < LANES
    && Runs(m, f, block, s, group * LANES + a, memory) && !Runs(m, f, block, s, group * LANES + b, memory)
  }

  /** Workgroups after which the index starts over. */
  const GROUPS: nat := 0x400_0000

  /** A turn of the index is a whole number of workgroups, so the indices of one are consecutive. */
  lemma GroupIndices(group: nat, a: nat)
    requires a < LANES
    ensures (group * LANES + a) % INDICES == group % GROUPS * LANES + a
  {
    Remainder(group * LANES + a, INDICES, group / GROUPS, group % GROUPS * LANES + a);
  }

  lemma PartExactly(m: Meaning, f: Function, block: seq<int>, s: Signature, memory: seq<int>, e: nat, group: nat,
      a: nat, b: nat)
    requires Takes(f, block, s) && Cuts(m, f, block, s, memory, e) && a < LANES && b < LANES
    ensures Part(m, f, block, s, memory, group, a, b) <==> group % GROUPS * LANES + a < e <= group % GROUPS * LANES + b
  {
    GroupIndices(group, a);
    GroupIndices(group, b);
    assert Runs(m, f, block, s, group * LANES + a, memory) <==> (group * LANES + a) % INDICES < e;
    assert Runs(m, f, block, s, group * LANES + b, memory) <==> (group * LANES + b) % INDICES < e;
  }

  /** A workgroup divides when the extent ends inside it. */
  lemma DividesExactly(m: Meaning, f: Function, block: seq<int>, s: Signature, memory: seq<int>, e: nat, group: nat)
    requires Takes(f, block, s) && Cuts(m, f, block, s, memory, e)
    ensures Divides(m, f, block, s, memory, group) <==> e % LANES != 0 && group % GROUPS == e / LANES
  {
    PartExactly(m, f, block, s, memory, e, group, 0, LANES - 1);
    if Divides(m, f, block, s, memory, group) {
      var a: nat, b: nat :| Part(m, f, block, s, memory, group, a, b);
      PartExactly(m, f, block, s, memory, e, group, a, b);
      EndsInside(group % GROUPS, e, a, b);
    }
  }

  lemma EndsInside(group: nat, e: nat, a: nat, b: nat)
    requires a < LANES && b < LANES && group * LANES + a < e <= group * LANES + b
    ensures e % LANES != 0 && e / LANES == group
  {
    Remainder(e, LANES, group, e - group * LANES);
  }

  lemma ExtentKeepsWorkgroups(root: Class, count: nat)
    ensures Extent(root, count) % LANES == count % LANES
  {
    if root == IntClass { CutKeepsRemainder(count, 0x400_0000_0000_0000); } else { CutKeepsRemainder(count, GROUPS); }
  }

  /** Cutting a count to a whole number of workgroups keeps what is over. */
  lemma CutKeepsRemainder(count: nat, groups: nat)
    requires groups > 0
    ensures count % (LANES * groups) % LANES == count % LANES
  {
    var d := LANES * groups;
    var q, r := count / d, count % d;
    assert d * q == LANES * (groups * q);
    Remainder(count, LANES, groups * q + r / LANES, r % LANES);
  }

  /** Whether some workgroup of a launch divides at its guard. */
  ghost predicate SomeDivides(m: Meaning, f: Function, block: seq<int>, s: Signature, memory: seq<int>, count: nat)
    requires Takes(f, block, s)
  {
    exists group: nat :: group < Dispatched(count) && Divides(m, f, block, s, memory, group)
  }

  lemma SomeDividesExactly(m: Meaning, f: Function, block: seq<int>, s: Signature, memory: seq<int>, e: nat, count: nat)
    requires Takes(f, block, s) && Cuts(m, f, block, s, memory, e)
    ensures SomeDivides(m, f, block, s, memory, count) <==>
      e % LANES != 0 && e / LANES < Dispatched(count) && e / LANES < GROUPS
  {
    if SomeDivides(m, f, block, s, memory, count) {
      var group: nat :| group < Dispatched(count) && Divides(m, f, block, s, memory, group);
      DividesExactly(m, f, block, s, memory, e, group);
    }
    DividesExactly(m, f, block, s, memory, e, e / LANES);
  }

  /** A refused count of at most 2^32 ends in a workgroup that is dispatched. */
  lemma RefusalIsExact(root: Class, count: nat)
    ensures Extent(root, count) % LANES != 0 <==> Workgroups(count, LANES, true).Failure?
    ensures count <= INDICES && Extent(root, count) % LANES != 0 ==>
      Extent(root, count) / LANES < Dispatched(count) && Extent(root, count) / LANES < GROUPS
  {
    ExtentKeepsWorkgroups(root, count);
    ExtentExactly(root, count);
    if count <= INDICES { SmallIsDispatched(count); }
  }

  /**
  Barriers of every launch: no accepted launch has a workgroup that divides, and a refused count would have
  one exactly when the workgroup its extent ends in is dispatched, which up to 2^32 lanes it always is.
   */
  lemma BarriersAreUniformExactly(m: Meaning, body: Body, s: Signature, start: Cursor, f: Function, block: seq<int>,
      given: seq<Leaf>, count: nat, memory: seq<int>)
    requires Launched(body, s, start, f, block, given, count)
    ensures Takes(f, block, s)
    ensures var last := Extent(s.root, count) / LANES;
      SomeDivides(m, f, block, s, memory, count) <==>
        Workgroups(count, LANES, true).Failure? && last < Dispatched(count) && last < GROUPS
    ensures count <= INDICES ==>
      (SomeDivides(m, f, block, s, memory, count) <==> Workgroups(count, LANES, true).Failure?)
  {
    LaunchCuts(m, body, s, start, f, block, given, count, memory);
    SomeDividesExactly(m, f, block, s, memory, Extent(s.root, count), count);
    RefusalIsExact(s.root, count);
  }
}
