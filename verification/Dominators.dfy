/** The dominator sets, by an in-place fixed point over the predecessor lists. */
module Dominators {
  import opened Graphs

  /** `predecessors`: every edge once, filed under its target. */
  ghost predicate Predecessors(g: Graph, preds: seq<seq<nat>>) {
    && |preds| == |g|
    && forall u: nat, v: nat :: v < |g| ==> (u in preds[v] <==> Edge(g, u, v))
  }

  method FilePredecessors(count: nat, successors: Graph) returns (predecessors: seq<seq<nat>>)
    requires ValidGraph(successors) && |successors| == count
    ensures Predecessors(successors, predecessors)
  {
    predecessors := seq(count, _ => []);
    for node := 0 to count
      invariant |predecessors| == count
      invariant forall u: nat, v: nat :: v < count ==>
        (u in predecessors[v] <==> u < node && Edge(successors, u, v))
    {
      ghost var before := predecessors;
      for k := 0 to |successors[node]|
        invariant |predecessors| == count
        invariant forall u: nat, v: nat :: v < count ==>
          (u in predecessors[v] <==> u in before[v] || (u == node && v in successors[node][..k]))
      {
        var target := successors[node][k];
        assert successors[node][..k + 1] == successors[node][..k] + [target];
        predecessors := predecessors[target := predecessors[target] + [node]];
      }
      assert successors[node][..|successors[node]|] == successors[node];
    }
  }

  /** The rows of a bit matrix, one row per node: `dom[n][d]` says `d` is still held to dominate `n`. */
  ghost predicate Matrix(dom: seq<seq<bool>>, count: nat) {
    |dom| == count && forall n :: 0 <= n < count ==> |dom[n]| == count
  }

  /** Row `a` claims no more than row `b`. */
  ghost predicate Within(a: seq<bool>, b: seq<bool>) {
    |a| == |b| && forall d :: 0 <= d < |a| && a[d] ==> b[d]
  }

  /** What one visit computes for `node`: itself, and what all its predecessors agree on. */
  ghost predicate Meet(preds: seq<nat>, dom: seq<seq<bool>>, node: nat, next: seq<bool>) {
    forall d: nat :: d < |next| ==>
      (next[d] <==> d == node || forall p :: p in preds && p < |dom| && |dom[p]| == |next| ==> dom[p][d])
  }

  method IntersectPredecessors(count: nat, predecessors: seq<nat>, dom: seq<seq<bool>>, node: nat)
    returns (next: seq<bool>)
    requires Matrix(dom, count) && node < count
    requires forall k :: 0 <= k < |predecessors| ==> predecessors[k] < count
    ensures |next| == count && Meet(predecessors, dom, node, next)
  {
    next := seq(count, _ => true);
    for k := 0 to |predecessors|
      invariant |next| == count
      invariant forall d: nat :: d < count ==> (next[d] <==> forall p :: p in predecessors[..k] ==> dom[p][d])
    {
      var previous := predecessors[k];
      ghost var before := next;
      for other := 0 to count
        invariant |next| == count
        invariant forall d: nat :: d < other ==> next[d] == (before[d] && dom[previous][d])
        invariant forall d: nat :: other <= d < count ==> next[d] == before[d]
      {
        next := next[other := next[other] && dom[previous][other]];
      }
      assert predecessors[..k + 1] == predecessors[..k] + [previous];
    }
    assert predecessors[..|predecessors|] == predecessors;
    next := next[node := true];
  }

  /** The true dominators are never dropped. */
  ghost predicate Sound(g: Graph, entry: nat, dom: seq<seq<bool>>) {
    forall n: nat, d: nat :: n < |g| && d < |g| && Matrix(dom, |g|) && Dominates(g, entry, d, n) ==> dom[n][d]
  }

  /** Every row but the entry's already claims no less than a visit would leave it. */
  ghost predicate Shrinking(preds: seq<seq<nat>>, entry: nat, dom: seq<seq<bool>>) {
    forall n: nat, d: nat :: n < |dom| && n < |preds| && n != entry && Matrix(dom, |dom|) && d < |dom| ==>
      (d == n || forall p :: p in preds[n] && p < |dom| ==> dom[p][d]) ==> dom[n][d]
  }

  ghost predicate EntryRow(dom: seq<seq<bool>>, entry: nat) {
    entry < |dom| && forall d: nat :: d < |dom[entry]| ==> (dom[entry][d] <==> d == entry)
  }

  /** How many bits are set: the measure of the fixed point. */
  function Bits(row: seq<bool>): nat {
    if row == [] then 0 else Bits(row[..|row| - 1]) + (if row[|row| - 1] then 1 else 0)
  }

  ghost function AllBits(dom: seq<seq<bool>>): nat {
    if dom == [] then 0 else AllBits(dom[..|dom| - 1]) + Bits(dom[|dom| - 1])
  }

  lemma {:induction false} FewerBits(a: seq<bool>, b: seq<bool>)
    requires Within(a, b)
    ensures Bits(a) <= Bits(b)
    ensures a != b ==> Bits(a) < Bits(b)
  {
    if a != [] {
      FewerBits(a[..|a| - 1], b[..|b| - 1]);
      assert a == a[..|a| - 1] + [a[|a| - 1]] && b == b[..|b| - 1] + [b[|b| - 1]];
    }
  }

  lemma {:induction false} RowShrinks(dom: seq<seq<bool>>, n: nat, row: seq<bool>)
    requires n < |dom| && Within(row, dom[n]) && row != dom[n]
    ensures AllBits(dom[n := row]) < AllBits(dom)
  {
    var last := |dom| - 1;
    if n == last {
      FewerBits(row, dom[n]);
      assert dom[n := row][..last] == dom[..last];
    } else {
      RowShrinks(dom[..last], n, row);
      assert dom[n := row][..last] == dom[..last][n := row];
    }
  }

  /** One visit of `node`: soundness and shrinking survive, and the row only loses bits. */
  lemma Visit(g: Graph, preds: seq<seq<nat>>, entry: nat, dom: seq<seq<bool>>, node: nat, next: seq<bool>)
    requires ValidGraph(g) && Predecessors(g, preds) && Matrix(dom, |g|) && entry < |g|
    requires node < |g| && node != entry && |next| == |g|
    requires Sound(g, entry, dom) && Shrinking(preds, entry, dom)
    requires Meet(preds[node], dom, node, next)
    ensures Within(next, dom[node])
    ensures Sound(g, entry, dom[node := next])
    ensures Shrinking(preds, entry, dom[node := next])
  {
    var after := dom[node := next];
    assert Within(next, dom[node]);
    forall n: nat, d: nat | n < |g| && d < |g| && Dominates(g, entry, d, n) ensures after[n][d] {
      if n == node && d != node {
        forall p | p in preds[node] ensures p < |g| && dom[p][d] {
          assert Edge(g, p, node);
          PredecessorInherits(g, entry, d, p, node);
        }
      }
    }
    assert Matrix(after, |after|);
    forall n: nat, d: nat | n < |g| && n != entry && d < |g| &&
      (d == n || forall p :: p in preds[n] && p < |after| ==> after[p][d])
      ensures after[n][d]
    {
      forall p | d != n && p in preds[n] && p < |dom| ensures dom[p][d] {
        assert after[p][d];
      }
      if n == node {
        assert d == n || forall p :: p in preds[n] && p < |dom| && |dom[p]| == |next| ==> dom[p][d];
      }
    }
  }

  lemma PredecessorInherits(g: Graph, entry: nat, d: nat, p: nat, n: nat)
    requires Dominates(g, entry, d, n) && Edge(g, p, n) && d != n
    ensures Dominates(g, entry, d, p)
  {
    forall w | WalkBetween(g, w, entry, p) ensures d in w {
      StepWalk(g, w, entry, p, n);
    }
  }

  /** At the fixed point a set bit is a true dominator, by induction along the walk. */
  lemma {:induction false} FixedPointIsDominance(g: Graph, preds: seq<seq<nat>>, entry: nat, dom: seq<seq<bool>>,
      w: seq<nat>, n: nat, d: nat)
    requires ValidGraph(g) && Predecessors(g, preds) && Matrix(dom, |g|) && EntryRow(dom, entry)
    requires forall m: nat :: m < |g| && m != entry ==> Meet(preds[m], dom, m, dom[m])
    requires WalkBetween(g, w, entry, n) && d < |g| && dom[n][d]
    ensures d in w
    decreases |w|
  {
    if n != entry && d != n {
      LastStep(g, w, entry, n);
      var p := w[|w| - 2];
      assert p in preds[n];
      FixedPointIsDominance(g, preds, entry, dom, w[..|w| - 1], p, d);
    }
  }

  /** What holds of the matrix between any two visits. */
  ghost predicate Descending(g: Graph, preds: seq<seq<nat>>, entry: nat, dom: seq<seq<bool>>) {
    && ValidGraph(g) && Predecessors(g, preds) && entry < |g|
    && Matrix(dom, |g|) && EntryRow(dom, entry)
    && Sound(g, entry, dom) && Shrinking(preds, entry, dom)
  }

  lemma VisitDescends(g: Graph, preds: seq<seq<nat>>, entry: nat, dom: seq<seq<bool>>, node: nat, next: seq<bool>)
    requires Descending(g, preds, entry, dom)
    requires node < |g| && node != entry && |next| == |g|
    requires Meet(preds[node], dom, node, next)
    ensures Descending(g, preds, entry, dom[node := next])
    ensures next != dom[node] ==> AllBits(dom[node := next]) < AllBits(dom)
  {
    Visit(g, preds, entry, dom, node, next);
    if next != dom[node] { RowShrinks(dom, node, next); }
  }

  /** The nodes up to `node` already agree with their predecessors. */
  ghost predicate Settled(preds: seq<seq<nat>>, entry: nat, dom: seq<seq<bool>>, node: nat) {
    |preds| == |dom| && forall m: nat :: m < node && m < |dom| && m != entry ==> Meet(preds[m], dom, m, dom[m])
  }

  lemma SettleOne(preds: seq<seq<nat>>, entry: nat, dom: seq<seq<bool>>, node: nat)
    requires Settled(preds, entry, dom, node) && node < |dom|
    requires node != entry ==> Meet(preds[node], dom, node, dom[node])
    ensures Settled(preds, entry, dom, node + 1)
  {
  }

  /** One visit, replacing the node's row when it lost a bit. */
  method VisitNode(count: nat, ghost successors: Graph, predecessors: seq<seq<nat>>, entry: nat, dom: array<seq<bool>>,
      node: nat)
    returns (changed: bool)
    requires count == |successors| && node < count && node != entry
    requires Descending(successors, predecessors, entry, dom[..])
    modifies dom
    ensures Descending(successors, predecessors, entry, dom[..])
    ensures changed ==> AllBits(dom[..]) < AllBits(old(dom[..]))
    ensures !changed ==> dom[..] == old(dom[..]) && Meet(predecessors[node], dom[..], node, dom[node])
  {
    ghost var was := dom[..];
    assert forall k :: 0 <= k < |predecessors[node]| ==> Edge(successors, predecessors[node][k], node);
    var next := IntersectPredecessors(count, predecessors[node], dom[..], node);
    VisitDescends(successors, predecessors, entry, was, node, next);
    changed := next != dom[node];
    if changed {
      dom[node] := next;
    }
    assert dom[..] == was[node := next];
  }

  /** One sweep over the nodes, each visit reading the rows the sweep has already replaced. */
  method Sweep(count: nat, ghost successors: Graph, predecessors: seq<seq<nat>>, entry: nat, dom: array<seq<bool>>)
    returns (changed: bool)
    requires count == |successors| && Descending(successors, predecessors, entry, dom[..])
    modifies dom
    ensures Descending(successors, predecessors, entry, dom[..])
    ensures changed ==> AllBits(dom[..]) < AllBits(old(dom[..]))
    ensures !changed ==> dom[..] == old(dom[..]) && Settled(predecessors, entry, dom[..], count)
  {
    changed := false;
    ghost var before := dom[..];
    for node := 0 to count
      invariant Descending(successors, predecessors, entry, dom[..])
      invariant if changed then AllBits(dom[..]) < AllBits(before) else dom[..] == before
      invariant !changed ==> Settled(predecessors, entry, before, node)
    {
      if node != entry {
        var replaced := VisitNode(count, successors, predecessors, entry, dom, node);
        changed := changed || replaced;
      }
      if !changed { SettleOne(predecessors, entry, before, node); }
    }
  }

  /**
  `dominators`: sweeps in place until a sweep changes nothing. The answer is the
  walk-based relation itself, vacuous rows of unreachable nodes included.
   */
  method Compute(count: nat, successors: Graph, entry: nat) returns (dominates: seq<seq<bool>>)
    requires ValidGraph(successors) && count == |successors| && entry < count
    ensures |dominates| == count
    ensures forall n: nat :: n < count ==> |dominates[n]| == count
    ensures forall n: nat, d: nat :: n < count && d < count ==>
      (dominates[n][d] <==> Dominates(successors, entry, d, n))
  {
    var predecessors := FilePredecessors(count, successors);
    var dom := new seq<bool>[count](_ => seq(count, _ => true));
    dom[entry] := seq(count, node => node == entry);
    InitialMatrix(successors, predecessors, entry, dom[..]);
    var changed := true;
    while changed
      invariant Descending(successors, predecessors, entry, dom[..])
      invariant !changed ==> Settled(predecessors, entry, dom[..], count)
      decreases AllBits(dom[..]), changed
    {
      changed := Sweep(count, successors, predecessors, entry, dom);
    }
    dominates := dom[..];
    MatrixIsDominance(successors, predecessors, entry, dominates);
  }

  lemma MatrixIsDominance(g: Graph, preds: seq<seq<nat>>, entry: nat, dom: seq<seq<bool>>)
    requires Descending(g, preds, entry, dom) && Settled(preds, entry, dom, |g|)
    ensures forall n: nat, d: nat :: n < |g| && d < |g| ==> (dom[n][d] <==> Dominates(g, entry, d, n))
  {
    forall n: nat, d: nat | n < |g| && d < |g| && dom[n][d] ensures Dominates(g, entry, d, n) {
      forall w | WalkBetween(g, w, entry, n) ensures d in w {
        FixedPointIsDominance(g, preds, entry, dom, w, n, d);
      }
    }
  }

  lemma InitialMatrix(g: Graph, preds: seq<seq<nat>>, entry: nat, dom: seq<seq<bool>>)
    requires Matrix(dom, |g|) && entry < |g|
    requires forall n: nat, d: nat :: n < |g| && d < |g| ==> (dom[n][d] <==> n != entry || d == entry)
    ensures Sound(g, entry, dom) && Shrinking(preds, entry, dom) && EntryRow(dom, entry)
  {
    TrivialWalk(g, entry);
    forall d: nat | Dominates(g, entry, d, entry) ensures d == entry {
      assert d in [entry];
    }
  }
}
