/** Loop headers: the targets of edges that return to the active depth-first path. */
module LoopHeaders {
  import opened Graphs

  // The recursive search `Explore` is the reference; the explicit stack of
  // (node, next edge) frames computes the same answer.

  /** What a search has done so far: who was visited, who is a header, who has been left, in order. */
  datatype Search = Search(visited: set<nat>, headers: set<nat>, finished: seq<nat>)

  ghost function Nodes(g: Graph): set<nat> {
    set v: nat | v < |g| && 0 <= |g[v]|
  }

  /** Look at `u`'s edges from the `k`-th on, with `active` the depth-first path that ends in `u`. */
  ghost function Explore(g: Graph, u: nat, k: nat, active: set<nat>, s: Search): (r: Search)
    requires ValidGraph(g) && u < |g| && k <= |g[u]|
    ensures s.visited <= r.visited
    decreases Nodes(g) - s.visited, |g[u]| - k
  {
    if k == |g[u]| then
      s.(finished := s.finished + [u])
    else
      var t := g[u][k];
      if t in active then
        Explore(g, u, k + 1, active, s.(headers := s.headers + {t}))
      else if t in s.visited then
        Explore(g, u, k + 1, active, s)
      else
        assert t in Nodes(g) - s.visited;
        var inner := Explore(g, t, 0, active + {t}, s.(visited := s.visited + {t}));
        Explore(g, u, k + 1, active, inner)
  }

  ghost function FullSearch(g: Graph, entry: nat): Search
    requires ValidGraph(g) && entry < |g|
  {
    Explore(g, entry, 0, {entry}, Search({entry}, {}, []))
  }

  // ---- the explicit stack refines the recursion ----

  type Frame = (nat, nat)

  ghost function Active(path: seq<Frame>): set<nat> {
    set i | 0 <= i < |path| :: path[i].0
  }

  ghost predicate ValidPath(g: Graph, path: seq<Frame>) {
    && (forall i :: 0 <= i < |path| ==> path[i].0 < |g| && path[i].1 <= |g[path[i].0]|)
    && (forall i, j :: 0 <= i < j < |path| ==> path[i].0 != path[j].0)
  }

  /** Finish every frame, innermost first. */
  ghost function Unwind(g: Graph, path: seq<Frame>, s: Search): Search
    requires ValidGraph(g) && ValidPath(g, path)
  {
    if path == [] then s
    else
      var top := path[|path| - 1];
      Unwind(g, path[..|path| - 1], Explore(g, top.0, top.1, Active(path), s))
  }

  /** The edges still to look at, and the frames still to leave. */
  ghost function Work(g: Graph, path: seq<Frame>): nat
    requires ValidPath(g, path)
  {
    if path == [] then 0
    else Work(g, path[..|path| - 1]) + |g[path[|path| - 1].0]| - path[|path| - 1].1 + 1
  }

  lemma ActiveSnoc(path: seq<Frame>, top: Frame)
    ensures Active(path + [top]) == Active(path) + {top.0}
  {
    assert forall i :: 0 <= i < |path| ==> (path + [top])[i] == path[i];
    assert (path + [top])[|path|] == top;
    forall x | x in Active(path) ensures x in Active(path + [top]) {
      var i :| 0 <= i < |path| && path[i].0 == x;
      assert (path + [top])[i].0 == x;
    }
  }

  /** The bits an array of marks sets. */
  ghost function Marked(bits: seq<bool>): set<nat> {
    set v: nat | v < |bits| && bits[v]
  }

  method Mark(bits: seq<bool>, v: nat, on: bool) returns (r: seq<bool>)
    requires v < |bits|
    ensures |r| == |bits|
    ensures Marked(r) == if on then Marked(bits) + {v} else Marked(bits) - {v}
  {
    r := bits[v := on];
  }

  /** A search under way: finishing its frames gives the whole search's answer. */
  ghost predicate Running(g: Graph, full: Search, path: seq<Frame>, s: Search)
    requires ValidGraph(g)
  {
    ValidPath(g, path) && Active(path) <= s.visited <= Nodes(g) && Unwind(g, path, s) == full
  }

  function Advanced(path: seq<Frame>): (r: seq<Frame>)
    requires path != []
  {
    path[..|path| - 1] + [(path[|path| - 1].0, path[|path| - 1].1 + 1)]
  }

  lemma StepEdge(g: Graph, full: Search, path: seq<Frame>, s: Search, t: nat, s': Search)
    requires ValidGraph(g) && path != [] && Running(g, full, path, s)
    requires path[|path| - 1].1 < |g[path[|path| - 1].0]|
    requires t == g[path[|path| - 1].0][path[|path| - 1].1] && t in s.visited
    requires s' == if t in Active(path) then s.(headers := s.headers + {t}) else s
    ensures Running(g, full, Advanced(path), s')
    ensures Active(Advanced(path)) == Active(path)
    ensures Work(g, Advanced(path)) < Work(g, path)
  {
    var top := path[|path| - 1];
    var rest := path[..|path| - 1];
    ActiveSnoc(rest, top);
    ActiveSnoc(rest, (top.0, top.1 + 1));
    assert path == rest + [top];
    assert Advanced(path)[..|path| - 1] == rest;
  }

  lemma StepPush(g: Graph, full: Search, path: seq<Frame>, s: Search, t: nat, s': Search)
    requires ValidGraph(g) && path != [] && Running(g, full, path, s)
    requires path[|path| - 1].1 < |g[path[|path| - 1].0]|
    requires t == g[path[|path| - 1].0][path[|path| - 1].1] && t !in s.visited
    requires s' == s.(visited := s.visited + {t})
    ensures t in Nodes(g)
    ensures Running(g, full, Advanced(path) + [(t, 0)], s')
    ensures Active(Advanced(path) + [(t, 0)]) == Active(path) + {t}
  {
    var top := path[|path| - 1];
    var rest := path[..|path| - 1];
    var moved := Advanced(path);
    ActiveSnoc(rest, top);
    ActiveSnoc(rest, (top.0, top.1 + 1));
    ActiveSnoc(moved, (t, 0));
    assert path == rest + [top];
    assert moved[..|moved| - 1] == rest;
    assert (moved + [(t, 0)])[..|moved|] == moved;
    forall i | 0 <= i < |moved| ensures moved[i].0 != t {
      assert moved[i].0 in Active(moved);
    }
  }

  lemma StepPop(g: Graph, full: Search, path: seq<Frame>, s: Search, s': Search)
    requires ValidGraph(g) && path != [] && Running(g, full, path, s)
    requires path[|path| - 1].1 == |g[path[|path| - 1].0]|
    requires s' == s.(finished := s.finished + [path[|path| - 1].0])
    ensures Running(g, full, path[..|path| - 1], s')
    ensures Active(path[..|path| - 1]) == Active(path) - {path[|path| - 1].0}
    ensures Work(g, path[..|path| - 1]) < Work(g, path)
  {
    var top := path[|path| - 1];
    var rest := path[..|path| - 1];
    assert path == rest + [top];
    ActiveSnoc(rest, top);
    forall x | x in Active(rest) ensures x != top.0 {
      var i :| 0 <= i < |rest| && rest[i].0 == x;
      assert path[i].0 == x;
    }
  }

  lemma StartRunning(g: Graph, entry: nat)
    requires ValidGraph(g) && entry < |g|
    ensures Running(g, FullSearch(g, entry), [(entry, 0)], Search({entry}, {}, []))
    ensures Active([(entry, 0)]) == {entry}
  {
    ActiveSnoc([], (entry, 0));
    var path: seq<Frame> := [(entry, 0)];
    assert path == [] + [(entry, 0)] && path[..|path| - 1] == [];
    assert Active([]) == {} && Active(path) == {entry};
  }

  /** `loop_headers`. */
  method Find(count: nat, successors: Graph, entry: nat) returns (headers: seq<bool>)
    requires ValidGraph(successors) && count == |successors| && entry < count
    ensures |headers| == count
    ensures forall v: nat :: v < count ==> (headers[v] <==> v in FullSearch(successors, entry).headers)
  {
    headers := seq(count, _ => false);
    var active := seq(count, _ => false);
    var visited := seq(count, _ => false);
    var path: seq<Frame> := [(entry, 0)];
    visited := Mark(visited, entry, true);
    active := Mark(active, entry, true);
    ghost var s := Search({entry}, {}, []);
    ghost var full := FullSearch(successors, entry);
    StartRunning(successors, entry);
    while path != []
      invariant |headers| == |active| == |visited| == count
      invariant Running(successors, full, path, s)
      invariant s.visited == Marked(visited) && s.headers == Marked(headers) && Active(path) == Marked(active)
      decreases Nodes(successors) - s.visited, Work(successors, path)
    {
      var top := path[|path| - 1];
      ghost var was := s;
      if top.1 < |successors[top.0]| {
        var target := successors[top.0][top.1];
        if active[target] {
          assert target in Active(path);
          s := s.(headers := s.headers + {target});
          StepEdge(successors, full, path, was, target, s);
          headers := Mark(headers, target, true);
          path := Advanced(path);
        } else if !visited[target] {
          s := s.(visited := s.visited + {target});
          StepPush(successors, full, path, was, target, s);
          visited := Mark(visited, target, true);
          active := Mark(active, target, true);
          path := Advanced(path) + [(target, 0)];
        } else {
          StepEdge(successors, full, path, was, target, s);
          path := Advanced(path);
        }
      } else {
        s := s.(finished := s.finished + [top.0]);
        StepPop(successors, full, path, was, s);
        active := Mark(active, top.0, false);
        path := path[..|path| - 1];
      }
    }
  }

  // ---- what the headers are ----

  /** Every edge out of a finished node goes to a header or to a node finished before it. */
  ghost predicate Falls(g: Graph, s: Search) {
    forall i: nat, v :: i < |s.finished| && Edge(g, s.finished[i], v) ==> v in s.headers || v in s.finished[..i]
  }

  /** The state of a search whose depth-first path, `active`, ends in `u`. */
  ghost predicate Searching(g: Graph, entry: nat, u: nat, active: set<nat>, s: Search) {
    && u in active && active <= s.visited <= Nodes(g)
    && (forall v :: v in s.visited <==> v in active || v in s.finished)
    && (forall v :: v in active ==> v !in s.finished && Reaches(g, v, u))
    && (forall v :: v in s.visited ==> Reaches(g, entry, v))
    && Falls(g, s)
    && (forall h :: h in s.headers ==> h in s.visited && OnCycle(g, h))
  }

  /** The state once `u` itself has been left. */
  ghost predicate Left(g: Graph, entry: nat, u: nat, active: set<nat>, s: Search, r: Search) {
    && s.visited <= r.visited <= Nodes(g)
    && s.headers <= r.headers
    && |s.finished| < |r.finished| && r.finished[..|s.finished|] == s.finished
    && r.finished[|r.finished| - 1] == u && u !in r.finished[..|r.finished| - 1]
    && (forall v :: v in r.visited <==> v in active - {u} || v in r.finished)
    && (forall v :: v in active - {u} ==> v !in r.finished)
    && (forall v :: v in r.visited ==> Reaches(g, entry, v))
    && Falls(g, r)
    && (forall h :: h in r.headers ==> h in r.visited && OnCycle(g, h))
  }

  lemma {:induction false} ExploreLeaves(g: Graph, entry: nat, u: nat, k: nat, active: set<nat>, s: Search)
    requires ValidGraph(g) && u < |g| && k <= |g[u]|
    requires Searching(g, entry, u, active, s)
    requires forall j :: 0 <= j < k ==> g[u][j] in s.headers || g[u][j] in s.finished
    ensures Left(g, entry, u, active, s, Explore(g, u, k, active, s))
    decreases Nodes(g) - s.visited, |g[u]| - k
  {
    if k == |g[u]| {
      LeaveNode(g, entry, u, active, s);
      return;
    }
    var t := g[u][k];
    assert Edge(g, u, t);
    var next;
    if t in active {
      next := s.(headers := s.headers + {t});
      MarkHeader(g, entry, u, t, active, s);
    } else if t in s.visited {
      next := s;
    } else {
      var s' := s.(visited := s.visited + {t});
      assert t in Nodes(g) - s.visited;
      EnterNode(g, entry, u, t, active, s);
      ExploreLeaves(g, entry, t, 0, active + {t}, s');
      next := Explore(g, t, 0, active + {t}, s');
      ReturnToNode(g, entry, u, t, active, s, next);
    }
    ExploreLeaves(g, entry, u, k + 1, active, next);
    LeftSinceEarlier(g, entry, u, active, s, next, Explore(g, u, k + 1, active, next));
  }

  ghost predicate Later(s: Search, next: Search) {
    && s.visited <= next.visited && s.headers <= next.headers
    && |s.finished| <= |next.finished| && next.finished[..|s.finished|] == s.finished
  }

  lemma LeftSinceEarlier(g: Graph, entry: nat, u: nat, active: set<nat>, s: Search, next: Search, r: Search)
    requires Later(s, next) && Left(g, entry, u, active, next, r)
    ensures Left(g, entry, u, active, s, r)
  {
    assert r.finished[..|s.finished|] == r.finished[..|next.finished|][..|s.finished|];
  }

  lemma MarkHeader(g: Graph, entry: nat, u: nat, t: nat, active: set<nat>, s: Search)
    requires Searching(g, entry, u, active, s) && Edge(g, u, t) && t in active
    ensures Searching(g, entry, u, active, s.(headers := s.headers + {t}))
  {
    assert OnCycle(g, t);
  }

  /** Back on `u` after `t` was left: `u`'s search goes on with more finished behind it. */
  lemma ReturnToNode(g: Graph, entry: nat, u: nat, t: nat, active: set<nat>, s: Search, inner: Search)
    requires Searching(g, entry, u, active, s) && t !in active
    requires Left(g, entry, t, active + {t}, s.(visited := s.visited + {t}), inner)
    ensures Searching(g, entry, u, active, inner) && Later(s, inner)
    ensures t in inner.finished
    ensures forall v :: v in s.finished ==> v in inner.finished
  {
    assert active + {t} - {t} == active;
    assert inner.finished == s.finished + inner.finished[|s.finished|..];
  }

  lemma LeaveNode(g: Graph, entry: nat, u: nat, active: set<nat>, s: Search)
    requires ValidGraph(g) && u < |g| && Searching(g, entry, u, active, s)
    requires forall j :: 0 <= j < |g[u]| ==> g[u][j] in s.headers || g[u][j] in s.finished
    ensures Left(g, entry, u, active, s, s.(finished := s.finished + [u]))
  {
    var r := s.(finished := s.finished + [u]);
    forall i: nat, v | i < |r.finished| && Edge(g, r.finished[i], v)
      ensures v in r.headers || v in r.finished[..i]
    {
      assert r.finished[..i] == s.finished[..i];
      if i == |s.finished| {
        assert s.finished[..i] == s.finished;
      }
    }
  }

  lemma EnterNode(g: Graph, entry: nat, u: nat, t: nat, active: set<nat>, s: Search)
    requires ValidGraph(g) && Searching(g, entry, u, active, s) && Edge(g, u, t) && t !in s.visited
    ensures Searching(g, entry, t, active + {t}, s.(visited := s.visited + {t}))
  {
    TrivialWalk(g, t);
    ReachesStep(g, entry, u, t);
    forall v | v in active ensures Reaches(g, v, t) {
      ReachesStep(g, v, u, t);
    }
  }

  /** The place a node was finished at; smaller than any unfinished node's. */
  ghost function Rank(g: Graph, entry: nat, v: nat): nat
    requires ValidGraph(g) && entry < |g|
  {
    FirstIndex(FullSearch(g, entry).finished, v)
  }

  ghost function FirstIndex(w: seq<nat>, x: nat): (k: nat)
    ensures k <= |w| && (x in w <==> k < |w|)
    ensures k < |w| ==> w[k] == x
    ensures forall i :: 0 <= i < k ==> w[i] != x
  {
    if w == [] then 0
    else if w[0] == x then 0
    else
      assert w == [w[0]] + w[1..];
      FirstIndex(w[1..], x) + 1
  }

  /**
  What marking by the active path means: only nodes on cycles are marked, and off the
  marked nodes every reachable edge goes down in finish order. So deleting the edges
  into headers leaves no cycle.
   */
  lemma HeadersBreakCycles(g: Graph, entry: nat)
    requires ValidGraph(g) && entry < |g|
    ensures var headers := FullSearch(g, entry).headers;
      && (forall h :: h in headers ==> h < |g| && Reaches(g, entry, h) && OnCycle(g, h))
      && (forall u, v :: Reaches(g, entry, u) && Edge(g, u, v) ==>
          v in headers || Rank(g, entry, v) < Rank(g, entry, u))
  {
    var s := Search({entry}, {}, []);
    TrivialWalk(g, entry);
    ExploreLeaves(g, entry, entry, 0, {entry}, s);
    var r := FullSearch(g, entry);
    VisitedIsReachable(g, entry);
    forall u, v | Reaches(g, entry, u) && Edge(g, u, v)
      ensures v in r.headers || Rank(g, entry, v) < Rank(g, entry, u)
    {
      var i := Rank(g, entry, u);
      if v in r.finished[..i] {
        var j :| 0 <= j < i && r.finished[j] == v;
      }
    }
  }

  lemma VisitedIsReachable(g: Graph, entry: nat)
    requires ValidGraph(g) && entry < |g|
    ensures forall v: nat :: Reaches(g, entry, v) <==> v in FullSearch(g, entry).finished
  {
    var s := Search({entry}, {}, []);
    TrivialWalk(g, entry);
    ExploreLeaves(g, entry, entry, 0, {entry}, s);
    var r := FullSearch(g, entry);
    forall v: nat | Reaches(g, entry, v) ensures v in r.finished {
      forall a, b | a in r.finished && Edge(g, a, b) ensures b in r.finished {
        var i :| 0 <= i < |r.finished| && r.finished[i] == a;
      }
      ClosedUnderReach(g, (iset x: nat | x in r.finished), entry, v);
    }
  }

  /** Every reachable cycle holds a header. */
  lemma CycleHoldsAHeader(g: Graph, entry: nat, c: seq<nat>)
    requires ValidGraph(g) && entry < |g|
    requires IsWalk(g, c) && 1 < |c| && c[0] == c[|c| - 1] && Reaches(g, entry, c[0])
    ensures exists i :: 0 <= i < |c| && c[i] in FullSearch(g, entry).headers
  {
    HeadersBreakCycles(g, entry);
    var headers := FullSearch(g, entry).headers;
    var i := 1;
    ReachesStep(g, entry, c[0], c[1]);
    while i < |c| - 1 && c[i] !in headers
      invariant 1 <= i < |c|
      invariant Reaches(g, entry, c[i])
      invariant Rank(g, entry, c[i]) < Rank(g, entry, c[0]) || c[i] in headers
      decreases |c| - i
    {
      assert Edge(g, c[i + 1 - 1], c[i + 1]);
      ReachesStep(g, entry, c[i], c[i + 1]);
      i := i + 1;
    }
  }

  /** An edge back to the entry makes it a header: it is active from first to last. */
  lemma EdgeToEntryMarksIt(g: Graph, entry: nat, u: nat)
    requires ValidGraph(g) && entry < |g|
    requires Reaches(g, entry, u) && Edge(g, u, entry)
    ensures entry in FullSearch(g, entry).headers
  {
    HeadersBreakCycles(g, entry);
    VisitedIsReachable(g, entry);
    EntryFinishesLast(g, entry, u);
  }

  lemma EntryFinishesLast(g: Graph, entry: nat, u: nat)
    requires ValidGraph(g) && entry < |g|
    requires Reaches(g, entry, u)
    ensures Rank(g, entry, u) <= Rank(g, entry, entry)
  {
    TrivialWalk(g, entry);
    ExploreLeaves(g, entry, entry, 0, {entry}, Search({entry}, {}, []));
    VisitedIsReachable(g, entry);
    var order := FullSearch(g, entry).finished;
    assert forall i :: 0 <= i < |order| - 1 ==> order[i] == order[..|order| - 1][i];
  }
}
