/** The two stack searches: everything reachable, and everything inside a selection. */
module Reachability {
  import opened Graphs
  import opened Distinctness

  /** The unseen nodes, which every push shrinks: what bounds both searches. */
  ghost function Unseen(seen: seq<bool>): set<nat> {
    set v: nat | v < |seen| && !seen[v]
  }

  /** The inner loop both searches share: push and mark each unseen successor of `node`. */
  method PushUnseen(next: seq<nat>, seen: seq<bool>, stack: seq<nat>)
    returns (seen': seq<bool>, stack': seq<nat>)
    requires forall k :: 0 <= k < |next| ==> next[k] < |seen|
    ensures |seen'| == |seen|
    ensures forall v: nat :: v < |seen| ==> (seen'[v] <==> seen[v] || v in next)
    ensures |stack| <= |stack'| && stack'[..|stack|] == stack
    ensures forall v :: v in stack'[|stack|..] ==> v in next && !seen[v]
    ensures forall v :: v in next && !seen[v] ==> v in stack'[|stack|..]
    ensures Distinct(stack'[|stack|..])
    ensures Unseen(seen') < Unseen(seen) || (seen' == seen && stack' == stack)
  {
    seen', stack' := seen, stack;
    ghost var pushed := [];
    for k := 0 to |next|
      invariant |seen'| == |seen| && stack' == stack + pushed
      invariant forall v: nat :: v < |seen| ==> (seen'[v] <==> seen[v] || v in next[..k])
      invariant forall v :: v in pushed <==> v in next[..k] && !seen[v]
      invariant Distinct(pushed)
      invariant Unseen(seen') < Unseen(seen) || (seen' == seen && pushed == [])
    {
      assert next[..k + 1] == next[..k] + [next[k]];
      if !seen'[next[k]] {
        assert next[k] in Unseen(seen');
        seen' := seen'[next[k] := true];
        stack' := stack' + [next[k]];
        DistinctSnoc(pushed, next[k]);
        pushed := pushed + [next[k]];
      }
    }
    assert next[..|next|] == next;
    assert stack'[|stack|..] == pushed;
  }

  /** Nothing on the stack is unmarked, and everything marked is on it or has been looked at. */
  ghost predicate Frontier(seen: seq<bool>, stack: seq<nat>, popped: set<nat>) {
    && (forall v :: v in stack || v in popped ==> v < |seen| && seen[v])
    && (forall v: nat :: v < |seen| && seen[v] ==> v in stack || v in popped)
  }

  /** Every successor of a node that was looked at, other than `cut`, is marked. */
  ghost predicate Expanded(g: Graph, seen: seq<bool>, popped: set<nat>, cut: int) {
    forall u: nat, v: nat :: u in popped && u != cut && Edge(g, u, v) && v < |seen| ==> seen[v]
  }

  lemma Pop(seen: seq<bool>, stack: seq<nat>, popped: set<nat>) returns (node: nat, rest: seq<nat>)
    requires Frontier(seen, stack, popped) && stack != []
    ensures node == stack[|stack| - 1] && rest == stack[..|stack| - 1]
    ensures node < |seen| && seen[node]
    ensures Frontier(seen, rest, popped + {node})
  {
    node, rest := stack[|stack| - 1], stack[..|stack| - 1];
    assert stack == rest + [node];
    assert node in stack;
  }

  lemma FrontierAfterPush(next: seq<nat>, seen: seq<bool>, stack: seq<nat>, popped: set<nat>, seen': seq<bool>,
      stack': seq<nat>)
    requires Frontier(seen, stack, popped)
    requires |seen'| == |seen| && |stack| <= |stack'| && stack'[..|stack|] == stack
    requires forall v: nat :: v < |seen| ==> (seen'[v] <==> seen[v] || v in next)
    requires forall k :: 0 <= k < |next| ==> next[k] < |seen|
    requires forall v :: v in stack'[|stack|..] ==> v in next && !seen[v]
    requires forall v :: v in next && !seen[v] ==> v in stack'[|stack|..]
    ensures Frontier(seen', stack', popped)
  {
    assert stack' == stack + stack'[|stack|..];
  }

  /** `reachable_from`: exactly the nodes some walk from `from` ends at. */
  method ReachableFrom(count: nat, successors: Graph, from: nat) returns (seen: seq<bool>)
    requires ValidGraph(successors) && count == |successors| && from < count
    ensures |seen| == count
    ensures forall v: nat :: v < count ==> (seen[v] <==> Reaches(successors, from, v))
  {
    seen := seq(count, _ => false)[from := true];
    var stack: seq<nat> := [from];
    ghost var popped: set<nat> := {};
    TrivialWalk(successors, from);
    while stack != []
      invariant |seen| == count && seen[from] && Frontier(seen, stack, popped)
      invariant Expanded(successors, seen, popped, -1)
      invariant forall v: nat :: v < count && seen[v] ==> Reaches(successors, from, v)
      decreases Unseen(seen), |stack|
    {
      var node := stack[|stack| - 1];
      ghost var _, rest := Pop(seen, stack, popped);
      forall v | v in successors[node] ensures Reaches(successors, from, v) {
        ReachesStep(successors, from, node, v);
      }
      var seen', stack' := PushUnseen(successors[node], seen, stack[..|stack| - 1]);
      popped := popped + {node};
      FrontierAfterPush(successors[node], seen, rest, popped, seen', stack');
      seen, stack := seen', stack';
    }
    forall v: nat | v < count && Reaches(successors, from, v) ensures seen[v] {
      ClosedUnderReach(successors, (iset u: nat | u < count && seen[u]), from, v);
    }
  }

  /** `reaches`. */
  method ReachesTo(successors: Graph, from: nat, to: nat) returns (found: bool)
    requires ValidGraph(successors) && from < |successors| && to < |successors|
    ensures found <==> Reaches(successors, from, to)
  {
    var seen := ReachableFrom(|successors|, successors, from);
    return seen[to];
  }

  /** Inside the selection `header` -> `join`: reached from the header without meeting the join. */
  ghost predicate Inside(g: Graph, header: nat, join: nat, block: nat) {
    ReachesAvoiding(g, header, block, join)
  }

  /** `inside_selection`: the same search, never looking past the join. */
  method InsideSelection(successors: Graph, header: nat, join: nat, block: nat) returns (found: bool)
    requires ValidGraph(successors)
    requires header < |successors| && join < |successors| && block < |successors|
    ensures found <==> Inside(successors, header, join, block)
  {
    if block == join { return false; }
    var count := |successors|;
    var seen := seq(count, _ => false)[header := true];
    var stack: seq<nat> := [header];
    ghost var popped: set<nat> := {};
    TrivialWalk(successors, header);
    while stack != []
      invariant |seen| == count && seen[header] && Frontier(seen, stack, popped)
      invariant Expanded(successors, seen, popped, join)
      invariant forall v: nat :: v < count && seen[v] && v != join ==> Inside(successors, header, join, v)
      invariant block !in popped
      decreases Unseen(seen), |stack|
    {
      var node := stack[|stack| - 1];
      ghost var _, rest := Pop(seen, stack, popped);
      if node == block { return true; }
      popped := popped + {node};
      if node == join {
        stack := stack[..|stack| - 1];
        continue;
      }
      forall v | v in successors[node] && v != join ensures Inside(successors, header, join, v) {
        AvoidingStep(successors, header, node, v, join);
      }
      var seen', stack' := PushUnseen(successors[node], seen, stack[..|stack| - 1]);
      FrontierAfterPush(successors[node], seen, rest, popped, seen', stack');
      seen, stack := seen', stack';
    }
    if Inside(successors, header, join, block) {
      ClosedUnderAvoiding(successors, (iset u: nat | u < count && seen[u]), header, block, join);
    }
    return false;
  }
}
