/** Straight-line code: running a block's groups leaves on the ids what its instructions leave on the values. */
module StraightLine {
  import opened Graphs
  import opened Options
  import opened Kernel
  import opened Scalars
  import opened Literals
  import opened Planner
  import opened Emission
  import opened Ssa
  import opened Distinctness
  import opened EmissionInvariant
  import opened EmissionProof
  import opened Machines

  // ---- placements ----

  /** An id that holds on one side what it holds on the other. */
  ghost predicate Unmoved(ids: map<nat, int>, ids': map<nat, int>, x: nat) {
    (x in ids <==> x in ids') && (x in ids ==> ids[x] == ids'[x])
  }

  lemma {:induction false} ScribbleFacts(m: Meaning, names: seq<nat>, ids: map<nat, int>, memory: seq<int>)
    ensures forall x :: x !in names ==> Unmoved(ids, Scribble(m, names, ids, memory), x)
    ensures forall x :: x in names || x in ids ==> x in Scribble(m, names, ids, memory)
  {
    if names != [] {
      ScribbleFacts(m, names[..|names| - 1], ids, memory);
      assert names == names[..|names| - 1] + [names[|names| - 1]];
    }
  }

  ghost predicate InSteps(ps: seq<Placement>, x: nat) {
    exists a :: 0 <= a < |ps| && x in ps[a].steps
  }

  /** No placement writes where another starts or writes. */
  ghost predicate Clean(ps: seq<Placement>) {
    && (forall a: nat, b: nat, x :: a < |ps| && b < |ps| && a != b && x in ps[a].steps ==> x !in ps[b].steps)
    && (forall a: nat, b: nat :: a < |ps| && b < |ps| ==> ps[a].from !in ps[b].steps)
  }

  lemma PlacementFacts(m: Meaning, p: Placement, ids: map<nat, int>, memory: seq<int>)
    ensures var after := RunPlacement(m, p, ids, memory);
      && (forall x :: x !in p.steps ==> Unmoved(ids, after, x))
      && (p.steps != [] ==> Yield(p) in after && after[Yield(p)] == Get(ids, p.from))
  {
    ScribbleFacts(m, p.steps, ids, memory);
  }

  lemma {:induction false} PlacementsRun(m: Meaning, ps: seq<Placement>, ids: map<nat, int>, memory: seq<int>)
    requires Clean(ps)
    ensures forall x :: !InSteps(ps, x) ==> Unmoved(ids, RunPlacements(m, ps, ids, memory), x)
    ensures forall a: nat :: a < |ps| ==> Get(RunPlacements(m, ps, ids, memory), Yield(ps[a])) == Get(ids, ps[a].from)
    ensures forall a: nat :: a < |ps| && (ps[a].steps != [] || ps[a].from in ids) ==>
      Yield(ps[a]) in RunPlacements(m, ps, ids, memory)
  {
    if ps != [] {
      var last := |ps| - 1;
      var rest := ps[..last];
      PlacementsRun(m, rest, ids, memory);
      var mid := RunPlacements(m, rest, ids, memory);
      PlacementFacts(m, ps[last], mid, memory);
      LastPlacementRuns(ps, ids, mid, RunPlacement(m, ps[last], mid, memory));
    }
  }

  lemma LastPlacementRuns(ps: seq<Placement>, ids: map<nat, int>, mid: map<nat, int>, after: map<nat, int>)
    requires ps != [] && Clean(ps)
    requires var rest, p := ps[..|ps| - 1], ps[|ps| - 1];
      && (forall x :: !InSteps(rest, x) ==> Unmoved(ids, mid, x))
      && (forall a: nat :: a < |rest| ==> Get(mid, Yield(rest[a])) == Get(ids, rest[a].from))
      && (forall a: nat :: a < |rest| && (rest[a].steps != [] || rest[a].from in ids) ==> Yield(rest[a]) in mid)
      && (forall x :: x !in p.steps ==> Unmoved(mid, after, x))
      && (p.steps != [] ==> Yield(p) in after && after[Yield(p)] == Get(mid, p.from))
    ensures forall x :: !InSteps(ps, x) ==> Unmoved(ids, after, x)
    ensures forall a: nat :: a < |ps| ==> Get(after, Yield(ps[a])) == Get(ids, ps[a].from)
    ensures forall a: nat :: a < |ps| && (ps[a].steps != [] || ps[a].from in ids) ==> Yield(ps[a]) in after
  {
    var last := |ps| - 1;
    var rest, p := ps[..last], ps[last];
    assert forall a: nat :: a < last ==> rest[a] == ps[a];
    forall x | !InSteps(ps, x) ensures Unmoved(ids, after, x) {
      assert x !in ps[last].steps;
      assert !InSteps(rest, x);
    }
    assert !InSteps(rest, p.from);
    forall a: nat | a < |ps|
      ensures Get(after, Yield(ps[a])) == Get(ids, ps[a].from)
      ensures ps[a].steps != [] || ps[a].from in ids ==> Yield(ps[a]) in after
    {
      if a < last {
        assert rest[a] == ps[a];
        assert Yield(ps[a]) !in p.steps;
      }
    }
  }

  /** A group's placements are clean. */
  lemma GroupRuns(m: Meaning, g: Group, ids: map<nat, int>, memory: seq<int>)
    requires Clean(g.placements)
    ensures var (after, mem) := RunGroup(m, g, ids, memory);
      && (forall x :: !InGroup(g, x) ==> Unmoved(ids, after, x))
      && (g.role == Still && g.own == [] ==> mem == memory && Delivered(g.placements, ids, after))
  {
    PlacementsRun(m, g.placements, ids, memory);
    ScribbleFacts(m, g.own, RunPlacements(m, g.placements, ids, memory), memory);
    forall x | !InGroup(g, x) ensures Unmoved(ids, RunGroup(m, g, ids, memory).0, x) {
      assert !InSteps(g.placements, x) && x !in g.own;
    }
  }

  /** Each placement's word is where the placement leaves it. */
  ghost predicate Delivered(ps: seq<Placement>, ids: map<nat, int>, after: map<nat, int>) {
    && (forall a: nat :: a < |ps| ==> Get(after, Yield(ps[a])) == Get(ids, ps[a].from))
    && (forall a: nat :: a < |ps| && (ps[a].steps != [] || ps[a].from in ids) ==> Yield(ps[a]) in after)
  }

  /** What a computation reads and leaves. */
  lemma ActRuns(m: Meaning, g: Group, ids: map<nat, int>, memory: seq<int>, words: seq<int>)
    requires Clean(g.placements) && g.role.Act? && |words| == |g.placements|
    requires forall a: nat :: a < |words| ==> Get(ids, g.placements[a].from) == words[a]
    ensures var (word, mem) := m.act(g.role.value, words, memory);
      RunGroup(m, g, ids, memory).1 == mem &&
      (g.role.result.Some? && g.role.result.value < |g.own| ==>
        g.own[g.role.result.value] in RunGroup(m, g, ids, memory).0 &&
        RunGroup(m, g, ids, memory).0[g.own[g.role.result.value]] == word)
  {
    PlacementsRun(m, g.placements, ids, memory);
    assert Read(RunPlacements(m, g.placements, ids, memory), Yields(g.placements)) == words;
  }

  // ---- values and their ids ----

  /** A value's id holds the value's word. */
  ghost predicate Holds(w: Work, env: map<nat, int>, ids: map<nat, int>, v: nat) {
    v in env && v in w.slots && w.slots[v] in ids && env[v] == ids[w.slots[v]]
  }

  /** Every literal's id holds its number. */
  ghost predicate PoolHolds(pool: Table, ids: map<nat, int>) {
    forall key :: key in pool.ids ==> pool.ids[key] in ids && ids[pool.ids[key]] == key.1
  }

  /** Whatever may still be read at the `j`-th instruction of node `u` is held. */
  ghost predicate LiveHolds(body: Body, p: Plan, w: Work, u: nat, j: nat, env: map<nat, int>, ids: map<nat, int>)
    requires u < |p.nodes|
  {
    forall v :: LiveAt(body, p, u, j, v) && Yielding(body, v) ==> Holds(w, env, ids, v)
  }

  /** A group that writes over no literal, and whose placements are clean. */
  ghost predicate GroupClean(w: Work, g: Group) {
    Clean(g.placements) && forall key :: key in w.at.pool.ids ==> !InGroup(g, w.at.pool.ids[key])
  }

  /** The ids of constants are literals' ids. */
  ghost predicate ConstantsSit(body: Body, w: Work) {
    forall v, b: nat {:trigger Constant(body, v), Defines(body, b, v)} ::
      Defines(body, b, v) && Constant(body, v).Some? && v in w.slots ==>
      LiteralId(w.at.pool, Constant(body, v).value, w.slots[v])
  }

  /** Where a placement starts, its value's word is. */
  lemma PlacedReads(body: Body, w: Work, b: nat, v: nat, p: Placement, env: map<nat, int>, ids: map<nat, int>)
    requires PlacedFrom(body, w, v, p) && Defines(body, b, v) && ConstantsSit(body, w) && PoolHolds(w.at.pool, ids) &&
      Holds(w, env, ids, v)
    ensures p.from in ids && ids[p.from] == env[v]
  {
    if p.from != w.slots[v] {
      var x := Constant(body, v).value;
      var kind: Class :| (kind, x) in w.at.pool.ids && w.at.pool.ids[(kind, x)] == p.from;
      assert LiteralId(w.at.pool, x, w.slots[v]);
      var other: Class :| (other, x) in w.at.pool.ids && w.at.pool.ids[(other, x)] == w.slots[v];
      assert ids[w.at.pool.ids[(kind, x)]] == x && ids[w.at.pool.ids[(other, x)]] == x;
    }
  }

  lemma DefinedSomewhere(body: Body, b: nat, j: nat, v: nat) returns (d: nat)
    requires b < |body.blocks| && j <= |body.blocks[b].instrs| && Available(body, b, j, v)
    ensures Defines(body, d, v)
  {
    d := b;
    if !Defines(body, b, v) {
      d :| d != b && Defines(body, d, v) && Dominates(Flow(body), body.entry, d, b);
    }
  }

  lemma ValuesRead(body: Body, p: Plan, w: Work, u: nat, j: nat, values: seq<nat>, ps: seq<Placement>, env: map<nat,
      int>, ids: map<nat, int>)
    requires u < |body.blocks| && u < |p.nodes| && j <= |body.blocks[u].instrs| && AllAvailable(body, u, j, values)
    requires AllPlacedFrom(body, w, values, ps) && ConstantsSit(body, w) && PoolHolds(w.at.pool, ids) &&
      LiveHolds(body, p, w, u, j, env, ids)
    ensures forall i: nat :: i < |ps| ==> values[i] in env && ps[i].from in ids && ids[ps[i].from] == env[values[i]]
  {
    forall i: nat | i < |ps| ensures values[i] in env && ps[i].from in ids && ids[ps[i].from] == env[values[i]] {
      assert LiveAt(body, p, u, j, values[i]);
      var d := DefinedSomewhere(body, u, j, values[i]);
      PlacedReads(body, w, d, values[i], ps[i], env, ids);
    }
  }

  /** What a group does not write stays held. */
  lemma LiveStays(body: Body, p: Plan, w: Work, u: nat, j: nat, g: Group, env: map<nat, int>, ids: map<nat, int>,
      ids': map<nat, int>)
    requires u < |p.nodes| && Shielded(body, p, w, u, j, g) && LiveHolds(body, p, w, u, j, env, ids)
    requires forall x :: !InGroup(g, x) ==> Unmoved(ids, ids', x)
    ensures LiveHolds(body, p, w, u, j, env, ids')
  {
    forall v | LiveAt(body, p, u, j, v) && Yielding(body, v) ensures Holds(w, env, ids', v) {
      assert Holds(w, env, ids, v);
      assert Unmoved(ids, ids', w.slots[v]);
    }
  }

  lemma PoolStays(w: Work, g: Group, ids: map<nat, int>, ids': map<nat, int>)
    requires GroupClean(w, g) && PoolHolds(w.at.pool, ids)
    requires forall x :: !InGroup(g, x) ==> Unmoved(ids, ids', x)
    ensures PoolHolds(w.at.pool, ids')
  {
    forall key | key in w.at.pool.ids ensures w.at.pool.ids[key] in ids' && ids'[w.at.pool.ids[key]] == key.1 {
      assert Unmoved(ids, ids', w.at.pool.ids[key]);
    }
  }

  // ---- one instruction ----

  /** The state before an instruction's group runs. */
  ghost predicate InstructionHolds(body: Body, p: Plan, w: Work, u: nat, j: nat, v: nat, g: Group, env: map<nat, int>,
      ids: map<nat, int>)
    requires u < |p.nodes|
  {
    && u < |body.blocks| && j <= |body.blocks[u].instrs|
    && GroupFor(body, w, v, g) && Shielded(body, p, w, u, j, g) && GroupClean(w, g)
    && ConstantsSit(body, w) && PoolHolds(w.at.pool, ids) && LiveHolds(body, p, w, u, j, env, ids)
    && AllAvailable(body, u, j, body.operands[v])
  }

  /** The word an instruction leaves is on its id, when it leaves one. */
  lemma InstructionRuns(m: Meaning, body: Body, p: Plan, w: Work, u: nat, j: nat, v: nat, g: Group, env: map<nat, int>,
      ids: map<nat, int>, memory: seq<int>)
    requires u < |p.nodes| && InstructionHolds(body, p, w, u, j, v, g, env, ids)
    ensures var (word, mem) := Perform(m, body, v, env, memory); var (ids', mem') := RunGroup(m, g, ids, memory);
      && mem == mem' && PoolHolds(w.at.pool, ids') && LiveHolds(body, p, w, u, j, env, ids')
      && (Yielding(body, v) ==> v in w.slots && w.slots[v] in ids' && ids'[w.slots[v]] == word)
  {
    GroupRuns(m, g, ids, memory);
    var ids' := RunGroup(m, g, ids, memory).0;
    PoolStays(w, g, ids, ids');
    LiveStays(body, p, w, u, j, g, env, ids, ids');
    InstructionLeaves(m, body, p, w, u, j, v, g, env, ids, memory);
  }

  lemma InstructionLeaves(m: Meaning, body: Body, p: Plan, w: Work, u: nat, j: nat, v: nat, g: Group, env: map<nat,
      int>, ids: map<nat, int>, memory: seq<int>)
    requires u < |p.nodes| && InstructionHolds(body, p, w, u, j, v, g, env, ids)
    ensures var (word, mem) := Perform(m, body, v, env, memory); var (ids', mem') := RunGroup(m, g, ids, memory);
      mem == mem' && (Yielding(body, v) ==> v in w.slots && w.slots[v] in ids' && ids'[w.slots[v]] == word)
  {
    match body.lowering.forms[v] {
      case Literal(kind, value) =>
        assert RunPlacements(m, g.placements, ids, memory) == ids;
        assert (kind, value) in w.at.pool.ids;
      case Same(_) =>
        var o := body.operands[v][0];
        assert LiveAt(body, p, u, j, o);
        var d := DefinedSomewhere(body, u, j, o);
        PlacedReads(body, w, d, o, g.placements[0], env, ids);
        GroupRuns(m, g, ids, memory);
      case Computed(_, _, _) =>
        ComputedLeaves(m, body, p, w, u, j, v, g, env, ids, memory);
    }
  }

  lemma ComputedLeaves(m: Meaning, body: Body, p: Plan, w: Work, u: nat, j: nat, v: nat, g: Group, env: map<nat, int>,
      ids: map<nat, int>, memory: seq<int>)
    requires u < |p.nodes| && InstructionHolds(body, p, w, u, j, v, g, env, ids) && body.lowering.forms[v].Computed?
    ensures var (word, mem) := Perform(m, body, v, env, memory); var (ids', mem') := RunGroup(m, g, ids, memory);
      mem == mem' && (Yielding(body, v) ==> v in w.slots && w.slots[v] in ids' && ids'[w.slots[v]] == word)
  {
    ValuesRead(body, p, w, u, j, body.operands[v], g.placements, env, ids);
    var words := Read(env, body.operands[v]);
    ActRuns(m, g, ids, memory, words);
  }

  // ---- a block's instructions ----

  /** What a block's code rests on: each instruction's group, on ids nothing else is on. */
  ghost predicate BlockClean(body: Body, p: Plan, w: Work, u: nat)
    requires u < |p.nodes|
  {
    && u < |w.blocks| && ConstantsSit(body, w)
    && (forall j: nat :: j < |w.blocks[u].code| ==> GroupClean(w, w.blocks[u].code[j]))
  }

  /** An instruction's own value is not available before it. */
  lemma NotYetAvailable(body: Body, u: nat, j: nat)
    requires ValidSsa(body) && u < |body.blocks| && j < |body.blocks[u].instrs|
    ensures !Available(body, u, j, body.blocks[u].instrs[j])
  {
    var block := body.blocks[u];
    var v := block.instrs[j];
    assert Distinct(block.params + block.instrs);
    DistinctParts(block.params, block.instrs);
    DistinctPlaces(block.instrs);
    assert Defines(body, u, v);
  }

  lemma OneMoreAvailable(body: Body, u: nat, j: nat, v: nat)
    requires u < |body.blocks| && j < |body.blocks[u].instrs| && Available(body, u, j + 1, v)
    ensures v == body.blocks[u].instrs[j] || Available(body, u, j, v)
  {
    assert body.blocks[u].instrs[..j + 1] == body.blocks[u].instrs[..j] + [body.blocks[u].instrs[j]];
  }

  lemma LiveGrows(body: Body, p: Plan, w: Work, u: nat, j: nat, env: map<nat, int>, ids: map<nat, int>, word: int)
    requires ValidSsa(body) && u < |body.blocks| && u < |p.nodes| && j < |body.blocks[u].instrs|
    requires LiveHolds(body, p, w, u, j, env, ids)
    requires var v := body.blocks[u].instrs[j]; Yielding(body, v) ==>
      v in w.slots && w.slots[v] in ids && ids[w.slots[v]] == word
    ensures LiveHolds(body, p, w, u, j + 1, env[body.blocks[u].instrs[j] := word], ids)
  {
    var v := body.blocks[u].instrs[j];
    NotYetAvailable(body, u, j);
    forall x | LiveAt(body, p, u, j + 1, x) && Yielding(body, x) ensures Holds(w, env[v := word], ids, x) {
      OneMoreAvailable(body, u, j, x);
      if x != v { assert LiveAt(body, p, u, j, x); }
    }
  }

  lemma {:induction false} CodeRuns(m: Meaning, body: Body, p: Plan, w: Work, u: nat, j: nat, env: map<nat, int>,
      ids: map<nat, int>, memory: seq<int>)
    requires ValidSsa(body) && u < |p.nodes| && u < |w.blocks| && CodeFor(body, p, w, u, j) && BlockClean(body, p, w, u)
    requires PoolHolds(w.at.pool, ids) && LiveHolds(body, p, w, u, 0, env, ids)
    ensures var (e, mem) := Run(m, body, body.blocks[u].instrs[..j], env, memory);
      var (ids', mem') := RunCode(m, w.blocks[u].code[..j], ids, memory);
      mem == mem' && PoolHolds(w.at.pool, ids') && LiveHolds(body, p, w, u, j, e, ids')
    decreases j
  {
    if j > 0 {
      CodeRuns(m, body, p, w, u, j - 1, env, ids, memory);
      var (e, mem) := Run(m, body, body.blocks[u].instrs[..j - 1], env, memory);
      OneInstructionRuns(m, body, p, w, u, j - 1, e, RunCode(m, w.blocks[u].code[..j - 1], ids, memory).0, mem);
      OneMoreRun(m, body, body.blocks[u].instrs, w.blocks[u].code, j - 1, env, ids, memory);
    }
  }

  lemma OneMoreRun(m: Meaning, body: Body, instrs: seq<nat>, code: seq<Group>, j: nat, env: map<nat, int>,
      ids: map<nat, int>, memory: seq<int>)
    requires j < |instrs| && j < |code|
    ensures var (e, mem) := Run(m, body, instrs[..j], env, memory);
      var (word, now) := Perform(m, body, instrs[j], e, mem);
      Run(m, body, instrs[..j + 1], env, memory) == (e[instrs[j] := word], now)
    ensures var (before, mem) := RunCode(m, code[..j], ids, memory);
      RunCode(m, code[..j + 1], ids, memory) == RunGroup(m, code[j], before, mem)
  {
    assert instrs[..j + 1][..j] == instrs[..j] && code[..j + 1][..j] == code[..j];
  }

  lemma OneInstructionRuns(m: Meaning, body: Body, p: Plan, w: Work, u: nat, j: nat, env: map<nat, int>, ids: map<nat,
      int>, memory: seq<int>)
    requires ValidSsa(body) && u < |p.nodes| && u < |w.blocks| && CodeFor(body, p, w, u, j + 1) &&
      BlockClean(body, p, w, u)
    requires PoolHolds(w.at.pool, ids) && LiveHolds(body, p, w, u, j, env, ids)
    ensures var v := body.blocks[u].instrs[j]; var (word, mem) := Perform(m, body, v, env, memory);
      var (ids', mem') := RunGroup(m, w.blocks[u].code[j], ids, memory);
      mem == mem' && PoolHolds(w.at.pool, ids') && LiveHolds(body, p, w, u, j + 1, env[v := word], ids')
  {
    var v := body.blocks[u].instrs[j];
    InstructionRuns(m, body, p, w, u, j, v, w.blocks[u].code[j], env, ids, memory);
    LiveGrows(body, p, w, u, j, env, RunGroup(m, w.blocks[u].code[j], ids, memory).0,
      Perform(m, body, v, env, memory).0);
  }
}
