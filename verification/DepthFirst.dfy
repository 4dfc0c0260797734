/** The order blocks are written in: a stack search that marks a node when it is pushed. */
module DepthFirst {
  import opened Graphs
  import opened Options
  import opened Reachability
  import opened Distinctness

  ghost predicate HasParent(g: Graph, written: seq<nat>, v: nat) {
    exists u :: u in written && Edge(g, u, v)
  }

  /** A permutation of the nodes, entry first, each other node after one of its predecessors. */
  ghost predicate WritingOrder(g: Graph, entry: nat, order: seq<nat>) {
    && |order| == |g| && Distinct(order)
    && (forall v: nat :: v in order <==> v < |g|)
    && 0 < |order| && order[0] == entry
    && (forall i :: 0 < i < |order| ==> HasParent(g, order[..i], order[i]))
  }

  function Reversed(s: seq<nat>): (r: seq<nat>)
    ensures |r| == |s| && forall x :: x in r <==> x in s
  {
    if s == [] then [] else
      assert s == s[..|s| - 1] + [s[|s| - 1]];
      [s[|s| - 1]] + Reversed(s[..|s| - 1])
  }

  /** Nothing was written twice, pushed twice, or is both written and still pushed. */
  ghost predicate Apart(order: seq<nat>, stack: seq<nat>) {
    Distinct(order) && Distinct(stack) && forall v :: v in stack ==> v !in order
  }

  lemma ApartTop(order: seq<nat>, rest: seq<nat>, node: nat)
    requires Apart(order, rest + [node])
    ensures Apart(order + [node], rest) && node !in order && node !in rest
  {
    DistinctSnoc(rest, node);
    DistinctSnoc(order, node);
    assert forall v :: v in rest + [node] <==> v in rest || v == node;
  }

  lemma ApartPush(order: seq<nat>, rest: seq<nat>, pushed: seq<nat>)
    requires Apart(order, rest) && Distinct(pushed)
    requires forall v :: v in pushed ==> v !in order && v !in rest
    ensures Apart(order, rest + pushed)
  {
    DistinctAppend(rest, pushed);
  }

  /** The order so far starts at the entry, and what is written or pushed has a written parent. */
  ghost predicate Writing(g: Graph, entry: nat, order: seq<nat>, stack: seq<nat>) {
    && (forall v :: v in stack ==> v == entry || HasParent(g, order, v))
    && (order == [] ==> stack == [entry])
    && (order != [] ==> order[0] == entry)
    && (forall i :: 0 < i < |order| ==> HasParent(g, order[..i], order[i]))
  }

  lemma ParentStays(g: Graph, order: seq<nat>, node: nat, v: nat)
    requires HasParent(g, order, v)
    ensures HasParent(g, order + [node], v)
  {
    var u :| u in order && Edge(g, u, v);
    assert u in order + [node];
  }

  lemma WriteTop(g: Graph, entry: nat, order: seq<nat>, rest: seq<nat>, node: nat)
    requires Writing(g, entry, order, rest + [node])
    requires node !in order && (order == [] ==> rest == [])
    ensures Writing(g, entry, order + [node], rest)
  {
    var now := order + [node];
    assert node in rest + [node];
    if order == [] {
      assert (rest + [node])[0] == node;
    }
    forall i | 0 < i < |now| ensures HasParent(g, now[..i], now[i]) {
      assert now[..i] == order[..i];
      assert order[..|order|] == order;
      if i == |order| { assert node != entry by { assert order[0] in order; } }
    }
    forall v | v in rest && v != entry ensures HasParent(g, now, v) {
      assert v in rest + [node];
      ParentStays(g, order, node, v);
    }
  }

  /**
  `depth_first`: the order, or `None` when some node is not reached.
   */
  method Order(count: nat, successors: Graph, entry: nat) returns (order: Option<seq<nat>>)
    requires ValidGraph(successors) && count == |successors| && entry < count
    ensures order.Some? <==> forall v: nat :: v < count ==> Reaches(successors, entry, v)
    ensures order.Some? ==> WritingOrder(successors, entry, order.value)
  {
    var written: seq<nat> := [];
    var seen := seq(count, _ => false)[entry := true];
    var stack: seq<nat> := [entry];
    TrivialWalk(successors, entry);
    while stack != []
      invariant Underway(successors, entry, seen, stack, written)
      decreases Unseen(seen), |stack|
    {
      var node := stack[|stack| - 1];
      ghost var was, wasWritten, wasStack := seen, written, stack;
      SearchTop(successors, entry, seen, stack, written);
      written := written + [node];
      var children := Reversed(successors[node]);
      assert forall k :: 0 <= k < |children| ==> children[k] in children;
      seen, stack := PushUnseen(children, seen, stack[..|stack| - 1]);
      WriteStep(successors, entry, was, wasStack, wasWritten, children, seen, stack);
    }
    AllReachedWhenFull(successors, entry, seen, written);
    order := if |written| == count then Some(written) else None;
  }

  /** Marked is written or pushed; written nodes' successors are marked; marked is reachable. */
  ghost predicate Searched(g: Graph, entry: nat, seen: seq<bool>, stack: seq<nat>, written: seq<nat>) {
    && ValidGraph(g) && |seen| == |g| && entry < |g| && seen[entry]
    && (forall v :: v in stack || v in written ==> v < |seen| && seen[v])
    && (forall v: nat :: v < |seen| && seen[v] ==> (v in stack || v in written) && Reaches(g, entry, v))
    && (forall u: nat, v: nat :: u in written && Edge(g, u, v) ==> seen[v])
  }

  ghost predicate Underway(g: Graph, entry: nat, seen: seq<bool>, stack: seq<nat>, written: seq<nat>) {
    Searched(g, entry, seen, stack, written) && Apart(written, stack) && Writing(g, entry, written, stack)
  }

  /** Writing the top of the stack and pushing its unseen children keeps the search under way. */
  lemma WriteStep(g: Graph, entry: nat, was: seq<bool>, wasStack: seq<nat>, wasWritten: seq<nat>,
                  children: seq<nat>, seen: seq<bool>, stack: seq<nat>)
    requires Underway(g, entry, was, wasStack, wasWritten) && wasStack != []
    requires var node := wasStack[|wasStack| - 1]; node < |g| && forall v :: v in children <==> v in g[node]
    requires |seen| == |was| && forall v: nat :: v < |was| ==> (seen[v] <==> was[v] || v in children)
    requires var rest := wasStack[..|wasStack| - 1];
      |rest| <= |stack| && stack[..|rest|] == rest && Distinct(stack[|rest|..])
    requires forall v :: v in stack[|wasStack| - 1..] ==> v in children && !was[v]
    requires forall v :: v in children && !was[v] ==> v in stack[|wasStack| - 1..]
    ensures Underway(g, entry, seen, stack, wasWritten + [wasStack[|wasStack| - 1]])
  {
    var node, rest := wasStack[|wasStack| - 1], wasStack[..|wasStack| - 1];
    var pushed := stack[|rest|..];
    assert wasStack == rest + [node] && stack == rest + pushed;
    SearchStep(g, entry, was, rest, wasWritten, node, children, seen, stack);
    ApartTop(wasWritten, rest, node);
    ApartPush(wasWritten + [node], rest, pushed);
    WriteTop(g, entry, wasWritten, rest, node);
    PushChildren(g, entry, wasWritten + [node], node, rest, pushed);
  }

  lemma SearchStep(g: Graph, entry: nat, was: seq<bool>, rest: seq<nat>, written: seq<nat>, node: nat,
                   children: seq<nat>, seen: seq<bool>, stack: seq<nat>)
    requires node < |g| && Searched(g, entry, was, rest + [node], written)
    requires forall v :: v in children <==> v in g[node]
    requires |seen| == |was| && forall v: nat :: v < |was| ==> (seen[v] <==> was[v] || v in children)
    requires |rest| <= |stack| && stack[..|rest|] == rest
    requires forall v :: v in stack[|rest|..] ==> v in children && !was[v]
    requires forall v :: v in children && !was[v] ==> v in stack[|rest|..]
    ensures Searched(g, entry, seen, stack, written + [node])
    ensures forall v :: v in stack[|rest|..] ==> v !in written + [node] && v !in rest && Edge(g, node, v)
  {
    SearchTop(g, entry, was, rest + [node], written);
    SearchPushed(g, entry, was, rest, written, node, children, seen, stack);
  }

  lemma PushChildren(g: Graph, entry: nat, order: seq<nat>, node: nat, rest: seq<nat>, pushed: seq<nat>)
    requires Writing(g, entry, order, rest) && node in order
    requires forall v :: v in pushed ==> Edge(g, node, v)
    ensures Writing(g, entry, order, rest + pushed)
  {
  }

  lemma SearchTop(g: Graph, entry: nat, seen: seq<bool>, stack: seq<nat>, written: seq<nat>)
    requires Searched(g, entry, seen, stack, written) && stack != []
    ensures stack[|stack| - 1] < |g| && seen[stack[|stack| - 1]]
    ensures forall v :: v in g[stack[|stack| - 1]] ==>
      v < |seen| && Edge(g, stack[|stack| - 1], v) && Reaches(g, entry, v)
  {
    var node := stack[|stack| - 1];
    assert node in stack;
    forall v | v in g[node] ensures v < |seen| && Edge(g, node, v) && Reaches(g, entry, v) {
      ReachesStep(g, entry, node, v);
    }
  }

  lemma SearchPushed(g: Graph, entry: nat, was: seq<bool>, rest: seq<nat>, written: seq<nat>, node: nat,
                     children: seq<nat>, seen: seq<bool>, stack: seq<nat>)
    requires node < |g| && Searched(g, entry, was, rest + [node], written)
    requires forall v :: v in children <==> v in g[node]
    requires forall v :: v in children ==> v < |was| && Reaches(g, entry, v)
    requires |seen| == |was| && forall v: nat :: v < |was| ==> (seen[v] <==> was[v] || v in children)
    requires |rest| <= |stack| && stack[..|rest|] == rest
    requires forall v :: v in stack[|rest|..] ==> v in children && !was[v]
    requires forall v :: v in children && !was[v] ==> v in stack[|rest|..]
    ensures Searched(g, entry, seen, stack, written + [node])
    ensures forall v :: v in stack[|rest|..] ==> v !in written + [node] && v !in rest
  {
    assert stack == rest + stack[|rest|..];
    assert forall v :: v in rest + [node] <==> v in rest || v == node;
  }

  lemma AllReachedWhenFull(g: Graph, entry: nat, seen: seq<bool>, written: seq<nat>)
    requires Searched(g, entry, seen, [], written) && Apart(written, [])
    ensures |written| == |g| <==> forall v: nat :: v < |g| ==> Reaches(g, entry, v)
    ensures |written| == |g| ==> Distinct(written) && forall v: nat :: v in written <==> v < |g|
  {
    forall v: nat | v < |g| && Reaches(g, entry, v) ensures v in written {
      ClosedUnderReach(g, (iset u: nat | u < |g| && seen[u]), entry, v);
    }
    CountDistinct(written, |g|);
  }

  /** Following parents back: a walk to the `i`-th node through nodes written no later. */
  lemma {:induction false} WalkThroughOrder(g: Graph, entry: nat, order: seq<nat>, i: nat) returns (w: seq<nat>)
    requires WritingOrder(g, entry, order) && i < |order|
    ensures WalkBetween(g, w, entry, order[i])
    ensures forall x :: x in w ==> x in order[..i] || x == order[i]
  {
    assert order[i] in order;
    if i == 0 {
      w := [entry];
    } else {
      var p :| p in order[..i] && Edge(g, p, order[i]);
      var j :| 0 <= j < i && order[j] == p;
      w := WalkThroughOrder(g, entry, order, j);
      StepWalk(g, w, entry, order[j], order[i]);
      assert order[..j] <= order[..i];
      w := w + [order[i]];
    }
  }
}
