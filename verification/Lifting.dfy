/** What dominates what in the emitted graph, in the body's own terms. */
module Lifting {
  import opened Graphs
  import opened Options
  import opened Kernel
  import opened Structure
  import opened PlanProperties
  import opened Rings
  import opened Relays
  import opened Reachability

  /** An emitted walk that leaves a real block and, up to its last node, meets only added ones. */
  ghost predicate Handing(body: Body, w: seq<nat>, from: nat, to: nat)
    requires Structured(body)
  {
    && WalkBetween(Emitted(body), w, from, to) && 2 <= |w| && from < |body.blocks|
    && forall i :: 0 < i < |w| - 1 ==> w[i] >= |body.blocks|
  }

  // ---- lifting ----

  /** The added blocks from node `i` on, as a walk. */
  lemma {:induction false} FollowWalk(body: Body, i: nat, k: nat) returns (w: seq<nat>)
    requires Structured(body) && i < |Nodes(body)|
    ensures Follow(Emitted(body), |body.blocks|, i, k) < |Nodes(body)| &&
      WalkBetween(Emitted(body), w, i, Follow(Emitted(body), |body.blocks|, i, k))
    ensures forall x :: 0 <= x < |w| - 1 ==> w[x] >= |body.blocks|
    decreases k
  {
    TrivialWalk(Emitted(body), i);
    w := [i];
    if k > 0 && i >= |body.blocks| {
      AddedEdge(body, i);
      var v := Targets(body, i)[0];
      assert Emitted(body)[i] == [v] && v in Emitted(body)[i];
      var rest := FollowWalk(body, v, k - 1);
      StepWalk(Emitted(body), [i], i, i, v);
      JoinWalks(Emitted(body), [i] + [v], rest, i, v, Follow(Emitted(body), |body.blocks|, i, k));
      w := [i] + [v] + rest[1..];
      assert w == [i] + rest;
    }
  }

  /** Every edge of the body is one of its block's declared branches. */
  lemma BranchIsDeclared(body: Body, u: nat, v: nat) returns (k: nat)
    requires Structured(body) && Edge(Flow(body), u, v)
    ensures k < |Targets(body, u)| && Declared(body, u, k) == v
  {
    var t := body.blocks[u].terminator;
    assert v in Successors(t);
    if t.Br? {
      k := 0;
    } else {
      assert v == t.ifTrue.target || v == t.ifFalse.target;
      var first := if IsHeader(body, u) then LoopBody(body, u) else t.ifTrue.target;
      k := if v == first then 0 else 1;
    }
  }

  // ---- where an emitted edge leads ----

  /**
  An emitted branch starts at the pass-through chosen for it, or at its target; an exit goes there from the loop
  merge.
   */
  ghost function StartOf(body: Body, u: nat, join: nat): nat
    requires Structured(body)
  {
    var c := Chosen(Flow(body), body.entry, AllPasses(body), u, join, u);
    if c.None? then join else c.value.node
  }

  lemma StartShape(body: Body, u: nat, join: nat)
    requires Structured(body) && join < |body.blocks|
    ensures var start := StartOf(body, u, join); start < |body.blocks| || FirstPass(body) <= start < |Nodes(body)|
  {
    ChosenIsCandidate(Flow(body), body.entry, AllPasses(body), u, join, u);
    var c := Chosen(Flow(body), body.entry, AllPasses(body), u, join, u);
    if c.Some? { PassIsItsNode(body, c.value, c.value); }
  }

  lemma EdgeStarts(body: Body, u: nat, k: nat)
    requires Structured(body) && u < |body.blocks| && k < |Targets(body, u)|
    ensures var n, start := Targets(body, u)[k], StartOf(body, u, Declared(body, u, k));
      n == start || (|body.blocks| <= n < FirstPass(body) && n < |Nodes(body)| && Targets(body, n) == [start])
  {
    NodeShape(body, u);
    var t := body.blocks[u].terminator;
    if t.CondBr? && IsHeader(body, u) && k == 1 {
      HeaderHasItsMerge(body, u);
      var m := Merge(body, u).value;
      SameChoice(body, m, u, LoopExit(body, u));
    }
  }

  /** Neither a block nor a loop merge is a pass-through, so both are offered the same. */
  lemma SameChoice(body: Body, m: nat, u: nat, join: nat)
    requires Structured(body) && m < FirstPass(body) && u < FirstPass(body)
    ensures Chosen(Flow(body), body.entry, AllPasses(body), m, join, u) ==
      Chosen(Flow(body), body.entry, AllPasses(body), u, join, u)
  {
    ChosenExactly(body, m, join, u, None);
    ChosenExactly(body, u, join, u, None);
  }

  /** An emitted edge arrives exactly when the body delivers its branch. */
  lemma ArrivesExactly(body: Body, u: nat, k: nat)
    requires Structured(body) && u < |body.blocks| && k < |Targets(body, u)|
    ensures Targets(body, u)[k] < |Nodes(body)|
    ensures Arrives(body, Targets(body, u)[k]) <==> Delivered(body, u, Declared(body, u, k))
  {
    var n, join := Targets(body, u)[k], Declared(body, u, k);
    FlowIsValid(body);
    DeclaredIsBranch(body, u, k);
    RealEdge(body, u, k);
    EdgeStarts(body, u, k);
    DeliveredExactly(body, u, join);
    if n != StartOf(body, u, join) { ArrivesStep(body, n); }
    StartArrives(body, u, join);
  }

  lemma StartArrives(body: Body, u: nat, join: nat)
    requires Structured(body) && u < FirstPass(body) && join < |body.blocks|
    ensures var c := Chosen(Flow(body), body.entry, AllPasses(body), u, join, u);
      Arrives(body, StartOf(body, u, join)) <==> c.None? || Settles(body, c.value)
  {
    var c := Chosen(Flow(body), body.entry, AllPasses(body), u, join, u);
    if c.None? {
      assert Follow(Emitted(body), |body.blocks|, join, 0) < |body.blocks|;
    } else {
      ChosenIsCandidate(Flow(body), body.entry, AllPasses(body), u, join, u);
      SettlesExactly(body, c.value);
    }
  }

  lemma SettlesExactly(body: Body, p: Pass)
    requires Structured(body) && p in AllPasses(body)
    ensures p.node < |Nodes(body)| && (Arrives(body, p.node) <==> Settles(body, p))
  {
    PassIsItsNode(body, p, p);
    if Settles(body, p) {
      var k: nat :| Chain(body, p, k) == None;
      SettlesArrives(body, p, k);
    }
    if Arrives(body, p.node) {
      var k: nat :| Follow(Emitted(body), |body.blocks|, p.node, k) < |body.blocks|;
      ArrivesSettles(body, p, k);
    }
  }

  // ---- the body without the branches that never arrive ----

  ghost function Kept(body: Body, u: nat, targets: seq<nat>): (r: seq<nat>)
    requires Structured(body)
    ensures forall v :: v in r <==> v in targets && Delivered(body, u, v)
  {
    if targets == [] then []
    else
      var rest := Kept(body, u, targets[..|targets| - 1]);
      var last := targets[|targets| - 1];
      assert targets == targets[..|targets| - 1] + [last];
      if Delivered(body, u, last) then rest + [last] else rest
  }

  /** The body's flow, less the branches that are not delivered. */
  ghost function Carried(body: Body): (g: Graph)
    requires Structured(body)
    ensures |g| == |body.blocks|
  {
    seq(|body.blocks|, u requires 0 <= u < |body.blocks| => Kept(body, u, Flow(body)[u]))
  }

  lemma CarriedEdge(body: Body, u: nat, v: nat)
    requires Structured(body)
    ensures Edge(Carried(body), u, v) <==> Edge(Flow(body), u, v) && Delivered(body, u, v)
  {
    if u < |body.blocks| { assert Carried(body)[u] == Kept(body, u, Flow(body)[u]); }
  }

  /** A delivered branch is carried by an emitted walk through added blocks only. */
  lemma LiftEdge(body: Body, u: nat, v: nat) returns (w: seq<nat>)
    requires Structured(body) && Edge(Carried(body), u, v)
    ensures v < |body.blocks| && Handing(body, w, u, v)
  {
    CarriedEdge(body, u, v);
    var k := BranchIsDeclared(body, u, v);
    RealEdge(body, u, k);
    var n := Targets(body, u)[k];
    ArrivesExactly(body, u, k);
    var steps: nat :| Follow(Emitted(body), |body.blocks|, n, steps) < |body.blocks|;
    FollowKeepsDestination(body, n, steps);
    NodeShape(body, Follow(Emitted(body), |body.blocks|, n, steps));
    var rest := FollowWalk(body, n, steps);
    w := HandOver(body, u, n, rest, v);
  }

  lemma HandOver(body: Body, u: nat, n: nat, rest: seq<nat>, v: nat) returns (w: seq<nat>)
    requires Structured(body) && u < |body.blocks| && Edge(Emitted(body), u, n) &&
      WalkBetween(Emitted(body), rest, n, v)
    requires forall x :: 0 <= x < |rest| - 1 ==> rest[x] >= |body.blocks|
    ensures Handing(body, w, u, v)
  {
    var e := Emitted(body);
    TrivialWalk(e, u);
    StepWalk(e, [u], u, u, n);
    JoinWalks(e, [u] + [n], rest, u, n, v);
    w := [u] + [n] + rest[1..];
    assert w == [u] + rest;
  }

  /** Every walk along delivered branches is, with added blocks put in, a walk of the emitted graph. */
  lemma {:induction false} LiftWalk(body: Body, p: seq<nat>, a: nat, b: nat) returns (w: seq<nat>)
    requires Structured(body) && WalkBetween(Carried(body), p, a, b)
    ensures WalkBetween(Emitted(body), w, a, b) && |p| <= |w|
    ensures forall x: nat :: x < |body.blocks| ==> (x in w <==> x in p)
    decreases |p|
  {
    if |p| == 1 {
      TrivialWalk(Emitted(body), a);
      w := [a];
      assert p == [a];
    } else {
      LastStep(Carried(body), p, a, b);
      var u := p[|p| - 2];
      var before := LiftWalk(body, p[..|p| - 1], a, u);
      var last := LiftEdge(body, u, b);
      w := before + last[1..];
      LiftedOn(body, p, before, last, a, u, b);
    }
  }

  lemma LiftedOn(body: Body, p: seq<nat>, before: seq<nat>, last: seq<nat>, a: nat, u: nat, b: nat)
    requires Structured(body) && WalkBetween(Emitted(body), before, a, u) && Handing(body, last, u, b)
    requires |p| > 1 && p[|p| - 2] == u && p[|p| - 1] == b
    requires forall x: nat :: x < |body.blocks| ==> (x in before <==> x in p[..|p| - 1])
    ensures WalkBetween(Emitted(body), before + last[1..], a, b)
    ensures forall x: nat :: x < |body.blocks| ==> (x in before + last[1..] <==> x in p)
  {
    JoinWalks(Emitted(body), before, last, a, u, b);
    assert p == p[..|p| - 1] + [b];
    assert u in p[..|p| - 1];
    HandingMeets(body, last, u, b);
  }

  lemma HandingMeets(body: Body, w: seq<nat>, from: nat, to: nat)
    requires Structured(body) && Handing(body, w, from, to)
    ensures forall x: nat :: x < |body.blocks| && x in w ==> x == from || x == to
    ensures from in w && to in w
  {
    assert w[0] in w && w[|w| - 1] in w;
  }

  /** The added blocks of a walk are what following from its second node goes through. */
  lemma {:induction false} FollowsAlong(body: Body, w: seq<nat>, i: nat)
    requires Structured(body) && IsWalk(Emitted(body), w) && 0 < i < |w| && forall x :: i <= x < |w| - 1 ==>
      w[x] >= |body.blocks|
    ensures Follow(Emitted(body), |body.blocks|, w[i], |w| - 1 - i) == w[|w| - 1]
    decreases |w| - i
  {
    if i < |w| - 1 {
      assert Edge(Emitted(body), w[i + 1 - 1], w[i + 1]);
      AddedEdge(body, w[i]);
      FollowsAlong(body, w, i + 1);
    }
  }

  /** An emitted walk that gets from one real block to the next goes along a delivered branch. */
  lemma HandingIsCarried(body: Body, w: seq<nat>, u: nat, v: nat)
    requires Structured(body) && Handing(body, w, u, v) && v < |body.blocks|
    ensures Edge(Carried(body), u, v)
  {
    assert Edge(Emitted(body), w[1 - 1], w[1]);
    var k :| 0 <= k < |Targets(body, u)| && Targets(body, u)[k] == w[1];
    OnlyTheDeclaredTarget(body, w, k);
    DeclaredIsBranch(body, u, k);
    FollowsAlong(body, w, 1);
    ArrivesExactly(body, u, k);
    CarriedEdge(body, u, v);
  }

  /** A branch of block `u` is carried into node `m` by added blocks only. */
  ghost predicate Feeds(body: Body, u: nat, m: nat)
    requires Structured(body)
  {
    exists w :: Handing(body, w, u, m)
  }

  lemma FeedsOn(body: Body, u: nat, v: nat, m: nat)
    requires Structured(body) && v >= |body.blocks| && Feeds(body, u, v) && Edge(Emitted(body), v, m)
    ensures Feeds(body, u, m)
  {
    var f :| Handing(body, f, u, v);
    StepWalk(Emitted(body), f, u, v, m);
    assert Handing(body, f + [m], u, m);
  }

  lemma FeedsAtOnce(body: Body, u: nat, m: nat)
    requires Structured(body) && u < |body.blocks| && Edge(Emitted(body), u, m)
    ensures Feeds(body, u, m)
  {
    TrivialWalk(Emitted(body), u);
    StepWalk(Emitted(body), [u], u, u, m);
    assert Handing(body, [u] + [m], u, m);
  }

  /**
  An emitted walk from a real block is a walk along delivered branches to its last real block, which feeds the added
  block it ends in.
   */
  lemma {:induction false} ProjectCarried(body: Body, w: seq<nat>, from: nat, v: nat) returns (p: seq<nat>, last: nat)
    requires Structured(body) && from < |body.blocks| && WalkBetween(Emitted(body), w, from, v)
    ensures WalkBetween(Carried(body), p, from, last) && last < |body.blocks| && forall x :: x in p ==> x in w
    ensures if v < |body.blocks| then last == v else Feeds(body, last, v)
    ensures |w| > 1 && v < |body.blocks| ==> |p| > 1
    decreases |w|
  {
    if |w| == 1 {
      TrivialWalk(Carried(body), v);
      p, last := [v], v;
      return;
    }
    LastStep(Emitted(body), w, from, v);
    var u := w[|w| - 2];
    p, last := ProjectCarried(body, w[..|w| - 1], from, u);
    if u < |body.blocks| { FeedsAtOnce(body, u, v); } else { FeedsOn(body, last, u, v); }
    if v < |body.blocks| {
      var f :| Handing(body, f, last, v);
      HandingIsCarried(body, f, last, v);
      StepWalk(Carried(body), p, from, last, v);
      p, last := p + [v], v;
    }
  }

  // ---- dominance ----

  /** Between real blocks the emitted graph has exactly the dominance of the body less its undelivered branches. */
  lemma DominanceIsTheCarried(body: Body, d: nat, n: nat)
    requires Structured(body) && d < |body.blocks| && n < |body.blocks|
    ensures Dominates(Emitted(body), body.entry, d, n) <==> Dominates(Carried(body), body.entry, d, n)
  {
    if Dominates(Carried(body), body.entry, d, n) {
      forall w | WalkBetween(Emitted(body), w, body.entry, n) ensures d in w {
        var p, last := ProjectCarried(body, w, body.entry, n);
        assert d in p;
      }
    }
    if Dominates(Emitted(body), body.entry, d, n) {
      forall p | WalkBetween(Carried(body), p, body.entry, n) ensures d in p {
        var w := LiftWalk(body, p, body.entry, n);
      }
    }
  }

  /** Without rings every branch is delivered. */
  lemma CarriedIsTheFlow(body: Body)
    requires Structured(body) && NoRings(body)
    ensures forall u: nat, v: nat :: Edge(Carried(body), u, v) <==> Edge(Flow(body), u, v)
  {
    forall u: nat, v: nat ensures Edge(Carried(body), u, v) <==> Edge(Flow(body), u, v) {
      CarriedEdge(body, u, v);
      if Edge(Flow(body), u, v) {
        var k := BranchIsDeclared(body, u, v);
        ArrivesExactly(body, u, k);
        NodesArriveWithoutRings(body, Targets(body, u)[k]);
      }
    }
  }

  /** So there the dominance is the body's. */
  lemma DominanceIsTheBodys(body: Body, d: nat, n: nat)
    requires Structured(body) && NoRings(body) && d < |body.blocks| && n < |body.blocks|
    ensures Dominates(Emitted(body), body.entry, d, n) <==> Dominates(Flow(body), body.entry, d, n)
  {
    DominanceIsTheCarried(body, d, n);
    CarriedIsTheFlow(body);
    SameWalks(Carried(body), Flow(body), body.entry, n);
  }

  lemma SameWalks(g: Graph, h: Graph, a: nat, b: nat)
    requires |g| == |h| && forall u: nat, v: nat :: Edge(g, u, v) <==> Edge(h, u, v)
    ensures forall w :: WalkBetween(g, w, a, b) <==> WalkBetween(h, w, a, b)
  {
  }

  // ---- pass-throughs ----

  lemma PassOfItsNode(body: Body, m: nat)
    requires Structured(body) && FirstPass(body) <= m < |Nodes(body)|
    ensures var h := Nodes(body)[m].header;
      Nodes(body)[m].PassThrough? && NeedsPass(body, h) && PassOf(body, h).node == m
  {
    NodeShape(body, m);
  }

  /** The emitted edge of one pass-through to another. */
  lemma HandsToExactly(body: Body, a: nat, b: nat)
    requires Structured(body) && NeedsPass(body, a) && NeedsPass(body, b)
    ensures Edge(Emitted(body), PassOf(body, a).node, PassOf(body, b).node) <==> HandsTo(body, a, b)
  {
    var p, q := PassOf(body, a), PassOf(body, b);
    PassIsListed(body, a);
    PassIsListed(body, b);
    PassHandsOn(body, p);
    PassIsItsNode(body, q, q);
    OnwardExactly(body, a);
    OnwardIsAround(body, p);
    if Onward(body, p).Some? { PassIsItsNode(body, q, Onward(body, p).value); }
    assert Emitted(body)[p.node] == Targets(body, p.node);
  }

  /** A walk of added blocks to a pass-through is a relay. */
  lemma {:induction false} FeedIsRelay(body: Body, w: seq<nat>, u: nat, h: nat) returns (hs: seq<nat>)
    requires Structured(body) && NeedsPass(body, h) && Handing(body, w, u, PassOf(body, h).node)
    ensures Edge(Flow(body), u, Join(body, h)) && Relay(body, u, Join(body, h), hs) && hs[|hs| - 1] == h
    decreases |w|
  {
    var m := PassOf(body, h).node;
    PassHasItsNode(body, h);
    LastStep(Emitted(body), w, u, m);
    var v := w[|w| - 2];
    if v < FirstPass(body) {
      StartIsPicked(body, w, u, h);
      hs := [h];
    } else {
      assert v < |Nodes(body)|;
      PassOfItsNode(body, v);
      var a := Nodes(body)[v].header;
      AddedEdge(body, v);
      HandsToExactly(body, a, h);
      var before := FeedIsRelay(body, w[..|w| - 1], u, a);
      hs := before + [h];
      RelayOn(body, u, Join(body, h), before, h);
    }
  }

  lemma RelayOn(body: Body, u: nat, join: nat, before: seq<nat>, h: nat)
    requires Structured(body) && Relay(body, u, join, before) && HandsTo(body, before[|before| - 1], h)
    ensures Relay(body, u, join, before + [h])
  {
    var hs := before + [h];
    forall i | 0 < i < |hs| ensures HandsTo(body, hs[i - 1], hs[i]) {
      if i < |before| { assert HandsTo(body, before[i - 1], before[i]); }
    }
  }

  /** The first pass-through a walk gets to, at once or by a loop's merge block, is where its branch starts. */
  lemma StartsThere(body: Body, w: seq<nat>, u: nat, m: nat)
    requires Structured(body) && FirstPass(body) <= m < |Nodes(body)| && Handing(body, w, u, m) &&
      w[|w| - 2] < FirstPass(body)
    ensures Edge(Flow(body), u, Destination(Nodes(body)[m])) && StartOf(body, u, Destination(Nodes(body)[m])) == m
  {
    assert Edge(Emitted(body), w[1 - 1], w[1]) && Edge(Emitted(body), w[|w| - 2], w[|w| - 1]);
    var k :| 0 <= k < |Targets(body, u)| && Targets(body, u)[k] == w[1];
    RealEdge(body, u, k);
    DeclaredIsBranch(body, u, k);
    EdgeStarts(body, u, k);
    FlowIsValid(body);
    StartShape(body, u, Declared(body, u, k));
    if |w| > 2 {
      ByItsLoop(body, w, u);
      AddedEdge(body, w[1]);
      assert w[2] in Targets(body, w[1]);
    }
  }

  /** A loop merge is met first of all added blocks, or not at all. */
  lemma ByItsLoop(body: Body, w: seq<nat>, u: nat)
    requires Structured(body) && |w| > 2 && Handing(body, w, u, w[|w| - 1]) && w[|w| - 2] < FirstPass(body)
    ensures |w| == 3
  {
    assert Edge(Emitted(body), w[|w| - 3], w[|w| - 2]) by { assert Edge(Emitted(body), w[|w| - 2 - 1], w[|w| - 2]); }
    assert Edge(Emitted(body), w[|w| - 2], w[|w| - 1]);
    NodeShape(body, w[|w| - 2]);
    OnlyItsHeaderEnters(body, w[|w| - 3], w[|w| - 2]);
  }

  lemma StartIsPicked(body: Body, w: seq<nat>, u: nat, h: nat)
    requires Structured(body) && NeedsPass(body, h) && Handing(body, w, u, PassOf(body, h).node) &&
      w[|w| - 2] < FirstPass(body)
    ensures Edge(Flow(body), u, Join(body, h)) && Picks(body, Join(body, h), u, None, h)
  {
    PassHasItsNode(body, h);
    StartsThere(body, w, u, PassOf(body, h).node);
    var join := Join(body, h);
    ChosenExactly(body, u, join, u, None);
    FlowIsValid(body);
    PassIsListed(body, h);
    var c := Chosen(Flow(body), body.entry, AllPasses(body), u, join, u);
    PassIsListed(body, c.value.header);
    PassIsItsNode(body, c.value, PassOf(body, h));
  }

  lemma PickFeeds(body: Body, u: nat, join: nat, h: nat)
    requires Structured(body) && Edge(Flow(body), u, join) && Picks(body, join, u, None, h)
    ensures NeedsPass(body, h) && Feeds(body, u, PassOf(body, h).node)
  {
    var k := BranchIsDeclared(body, u, join);
    RealEdge(body, u, k);
    EdgeStarts(body, u, k);
    FlowIsValid(body);
    StartShape(body, u, join);
    ChosenExactly(body, u, join, u, None);
    var n := Targets(body, u)[k];
    assert n in Emitted(body)[u];
    FeedsAtOnce(body, u, n);
    if n != StartOf(body, u, join) {
      assert Emitted(body)[n] == Targets(body, n);
      FeedsOn(body, u, n, StartOf(body, u, join));
    }
  }

  /** A relay to a pass-through is walked in the emitted graph. */
  lemma {:induction false} RelayFeeds(body: Body, u: nat, join: nat, hs: seq<nat>)
    requires Structured(body) && Edge(Flow(body), u, join) && Relay(body, u, join, hs)
    ensures NeedsPass(body, hs[|hs| - 1]) && Feeds(body, u, PassOf(body, hs[|hs| - 1]).node)
    decreases |hs|
  {
    var h := hs[|hs| - 1];
    if |hs| == 1 {
      PickFeeds(body, u, join, h);
    } else {
      var before := hs[..|hs| - 1];
      forall i | 0 < i < |before| ensures HandsTo(body, before[i - 1], before[i]) {
        assert HandsTo(body, hs[i - 1], hs[i]);
      }
      RelayFeeds(body, u, join, before);
      var a := before[|before| - 1];
      assert HandsTo(body, hs[|hs| - 1 - 1], hs[|hs| - 1]);
      HandsToExactly(body, a, h);
      PassHasItsNode(body, a);
      FeedsOn(body, u, PassOf(body, a).node, PassOf(body, h).node);
    }
  }

  /** What feeds a pass-through, in the body's own terms. */
  lemma FeedsExactly(body: Body, u: nat, h: nat)
    requires Structured(body) && NeedsPass(body, h)
    ensures Feeds(body, u, Merge(body, h).value) <==> Carries(body, u, h)
  {
    if Feeds(body, u, Merge(body, h).value) {
      var w :| Handing(body, w, u, PassOf(body, h).node);
      var hs := FeedIsRelay(body, w, u, h);
    }
    if Carries(body, u, h) {
      var hs :| Relay(body, u, Join(body, h), hs) && hs[|hs| - 1] == h;
      RelayFeeds(body, u, Join(body, h), hs);
    }
  }

  /**
  Exactly when a block dominates a pass-through in the emitted graph, in every accepted plan: when it
  dominates, along the branches that are delivered, every block whose branch the pass-through carries.
   */
  lemma PassIsDominatedExactly(body: Body, d: nat, h: nat)
    requires Structured(body) && d < |body.blocks| && NeedsPass(body, h)
    ensures Dominates(Emitted(body), body.entry, d, Merge(body, h).value) <==>
      forall u: nat :: Carries(body, u, h) ==> Dominates(Carried(body), body.entry, d, u)
  {
    PassHasItsNode(body, h);
    var m := Merge(body, h).value;
    if Dominates(Emitted(body), body.entry, d, m) {
      forall u: nat | Carries(body, u, h) ensures Dominates(Carried(body), body.entry, d, u) {
        FeedersAreNeeded(body, d, h, u);
      }
    } else if forall u: nat :: Carries(body, u, h) ==> Dominates(Carried(body), body.entry, d, u) {
      FeedersSuffice(body, d, h);
    }
  }

  lemma FeedersSuffice(body: Body, d: nat, h: nat)
    requires Structured(body) && NeedsPass(body, h)
    requires forall u: nat :: Carries(body, u, h) ==> Dominates(Carried(body), body.entry, d, u)
    ensures Dominates(Emitted(body), body.entry, d, Merge(body, h).value)
  {
    PassHasItsNode(body, h);
    forall w | WalkBetween(Emitted(body), w, body.entry, Merge(body, h).value) ensures d in w {
      var p, last := ProjectCarried(body, w, body.entry, Merge(body, h).value);
      FeedsExactly(body, last, h);
      assert d in p;
    }
  }

  lemma FeedersAreNeeded(body: Body, d: nat, h: nat, u: nat)
    requires Structured(body) && d < |body.blocks| && NeedsPass(body, h)
    requires Dominates(Emitted(body), body.entry, d, Merge(body, h).value) && Carries(body, u, h)
    ensures Dominates(Carried(body), body.entry, d, u)
  {
    PassHasItsNode(body, h);
    var m := Merge(body, h).value;
    FeedsExactly(body, u, h);
    var f :| Handing(body, f, u, m);
    HandingMeets(body, f, u, m);
    forall p | WalkBetween(Carried(body), p, body.entry, u) ensures d in p {
      var w := LiftWalk(body, p, body.entry, u);
      JoinWalks(Emitted(body), w, f, body.entry, u, m);
      assert u == p[|p| - 1];
    }
  }
}
