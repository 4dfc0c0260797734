/**
What emission keeps between any two of its steps. `fixed` holds the nodes whose
parameters have ids, `recorded` the edges (node, branch) already filed, and
`computed` the instruction values already emitted.
 */
module EmissionInvariant {
  import opened Graphs
  import opened Options
  import opened Kernel
  import opened Scalars
  import opened Literals
  import opened Structure
  import opened Planner
  import opened Emission
  import opened Ssa
  import opened Distinctness

  // ---- slots ----

  /** The cursor is above every id a value or a literal has. */
  ghost predicate SlotsBelow(w: Work) {
    && (forall v :: v in w.slots ==> w.slots[v] < w.at.next)
    && (forall key :: key in w.at.pool.ids ==> w.at.pool.ids[key] < w.at.next)
  }

  ghost predicate Known(body: Body, fixed: set<nat>, computed: set<nat>, v: nat) {
    || (body.entry < |body.blocks| && v in body.blocks[body.entry].params)
    || (v in computed && Yielding(body, v))
    || exists m :: m in fixed && m < |body.blocks| && v in body.blocks[m].params
  }

  ghost predicate SlotsKnown(body: Body, w: Work, fixed: set<nat>, computed: set<nat>) {
    forall v :: v in w.slots <==> Known(body, fixed, computed, v)
  }

  // ---- what a step must not write over ----

  /** Whatever is defined above block `c` has an id. */
  ghost predicate AboveHave(body: Body, w: Work, c: nat) {
    forall v :: FromAbove(body, c, v) && Yielding(body, v) ==> v in w.slots
  }

  /** And none of these ids is its. */
  ghost predicate AboveShielded(body: Body, w: Work, c: nat, ids: seq<nat>) {
    forall v :: FromAbove(body, c, v) && Yielding(body, v) ==> v in w.slots && w.slots[v] !in ids
  }

  /** What node `u` may still read after its first `j` instructions. */
  ghost predicate LiveAt(body: Body, p: Plan, u: nat, j: nat, v: nat)
    requires u < |p.nodes|
  {
    if u < |body.blocks| then j <= |body.blocks[u].instrs| && Available(body, u, j, v)
    else FromAbove(body, Destination(p.nodes[u]), v)
  }

  ghost predicate LiveHave(body: Body, p: Plan, w: Work, u: nat, j: nat)
    requires u < |p.nodes|
  {
    forall v :: LiveAt(body, p, u, j, v) && Yielding(body, v) ==> v in w.slots
  }

  ghost predicate InGroup(g: Group, x: nat) {
    x in g.own || exists a :: 0 <= a < |g.placements| && x in g.placements[a].steps
  }

  /** A group writes none of the ids its node may still read. */
  ghost predicate Shielded(body: Body, p: Plan, w: Work, u: nat, j: nat, g: Group)
    requires u < |p.nodes|
  {
    forall v :: LiveAt(body, p, u, j, v) && Yielding(body, v) ==> v in w.slots && !InGroup(g, w.slots[v])
  }

  // ---- parameters ----

  /** A fixed node's parameters: new ids of its own, a real block's being its values' slots. */
  ghost predicate NodeParams(body: Body, p: Plan, w: Work, fixed: set<nat>, m: nat)
    requires m < |w.blocks| == |p.arities| == |p.nodes|
  {
    var params := w.blocks[m].params;
    if m !in fixed then params == []
    else
      && |params| == p.arities[m] && Distinct(params)
      && (forall k :: 0 <= k < |params| ==> params[k] < w.at.next)
      && (m < |body.blocks| ==> AllIn(w.slots, body.blocks[m].params) && params == Ids(w.slots, body.blocks[m].params))
      && AboveShielded(body, w, Destination(p.nodes[m]), params)
  }

  ghost predicate ParamsFixed(body: Body, p: Plan, w: Work, fixed: set<nat>) {
    && |w.blocks| == |p.arities| == |p.nodes|
    && (forall m: nat :: m < |w.blocks| ==> NodeParams(body, p, w, fixed, m))
  }

  // ---- placements ----

  ghost predicate LiteralId(pool: Table, value: int, id: nat) {
    exists kind: Class :: (kind, value) in pool.ids && pool.ids[(kind, value)] == id
  }

  /** A placement starts from the value's own id, or from its constant in another class. */
  ghost predicate PlacedFrom(body: Body, w: Work, v: nat, p: Placement) {
    v in w.slots &&
      (p.from == w.slots[v] || (Constant(body, v).Some? && LiteralId(w.at.pool, Constant(body, v).value, p.from)))
  }

  ghost predicate AllPlacedFrom(body: Body, w: Work, values: seq<nat>, ps: seq<Placement>) {
    |ps| == |values| && forall i :: 0 <= i < |ps| ==> PlacedFrom(body, w, values[i], ps[i])
  }

  /**
  A placement in the form its position demands: the value's own id, or its constant's in the class asked for, and as
  many ids after it as the conversion takes.
   */
  ghost predicate Formed(body: Body, w: Work, v: nat, d: Demand, p: Placement) {
    v in w.slots &&
      match d
      case AsIs => p == Placement(w.slots[v], [])
      case InClass(kind, steps) =>
        |p.steps| == steps && StartsIn(w.at.pool, Constant(body, v), w.slots[v], kind, p.from)
  }

  ghost predicate StartsIn(pool: Table, literal: Option<int>, id: nat, kind: Class, from: nat) {
    if literal.Some? then (kind, literal.value) in pool.ids && from == pool.ids[(kind, literal.value)] else from == id
  }

  /**
  What the body asks for: of the `i`-th of some values, of what a block tests or returns, and of what an edge passes.
   */
  ghost function DemandOf(demands: seq<Demand>, i: nat): Demand {
    if i < |demands| then demands[i] else AsIs
  }

  ghost function TestDemand(body: Body, u: nat): Demand {
    if u in body.lowering.tests then body.lowering.tests[u] else AsIs
  }

  ghost function PassDemands(body: Body, u: nat, k: nat): seq<Demand> {
    if (u, k) in body.lowering.passes then body.lowering.passes[(u, k)] else []
  }

  ghost predicate AllFormed(body: Body, w: Work, values: seq<nat>, demands: seq<Demand>, ps: seq<Placement>) {
    |ps| == |values| && forall i: nat :: i < |ps| ==> Formed(body, w, values[i], DemandOf(demands, i), ps[i])
  }

  ghost predicate HandsOn(params: seq<nat>, ps: seq<Placement>) {
    |ps| == |params| && forall i :: 0 <= i < |ps| ==> ps[i].from == params[i]
  }

  // ---- edges ----

  function InstructionCount(body: Body, u: nat): nat {
    if u < |body.blocks| then |body.blocks[u].instrs| else 0
  }

  /** Where in a node's code the first of its passing groups is. */
  function PassAt(body: Body, u: nat): nat {
    InstructionCount(body, u) + if u < |body.blocks| && body.blocks[u].terminator.CondBr? then 1 else 0
  }

  /** The group that passes the values of the `k`-th edge out of node `u`. */
  ghost predicate PassFor(body: Body, p: Plan, w: Work, u: nat, k: nat)
    requires PlanIndexes(body, p) && u < |p.nodes| == |w.blocks| && k < |p.targets[u]|
  {
    PassAt(body, u) + k < |w.blocks[u].code| &&
    var g := w.blocks[u].code[PassAt(body, u) + k];
    && g.own == [] && g.role == Still
    && Shielded(body, p, w, u, InstructionCount(body, u), g)
    && (u < |body.blocks| ==> AllPlacedFrom(body, w, BranchOf(body, p, u, k).args, g.placements))
    && (u < |body.blocks| ==> PassFormed(body, p, w, u, k, g.placements))
    && (u >= |body.blocks| ==> |w.blocks[u].params| == p.arities[u] && HandsOn(w.blocks[u].params, g.placements))
  }

  /** What an edge passes is as it is, or in the form the edge is wanted in. */
  ghost predicate PassFormed(body: Body, p: Plan, w: Work, u: nat, k: nat, ps: seq<Placement>)
    requires PlanIndexes(body, p) && u < |body.blocks| && k < |p.targets[u]|
  {
    AllFormed(body, w, BranchOf(body, p, u, k).args, [], ps) ||
    AllFormed(body, w, BranchOf(body, p, u, k).args, PassDemands(body, u, k), ps)
  }

  /** The ids the `k`-th edge out of node `u` passes. */
  function PassArgs(body: Body, code: seq<Group>, u: nat, k: nat): seq<nat>
    requires PassAt(body, u) + k < |code|
  {
    Yields(code[PassAt(body, u) + k].placements)
  }

  ghost predicate Filed(body: Body, p: Plan, w: Work, u: nat, k: nat)
    requires PlanIndexes(body, p)
  {
    && u < |p.nodes| == |w.blocks| && k < |p.targets[u]|
    && PassFor(body, p, w, u, k)
    && Incoming(p.labels[u], PassArgs(body, w.blocks[u].code, u, k)) in w.blocks[p.targets[u][k]].edges
  }

  ghost predicate FiledFrom(body: Body, p: Plan, recorded: set<(nat, nat)>, m: nat, e: Incoming)
    requires PlanIndexes(body, p)
  {
    exists u, k ::
      (u, k) in recorded && u < |p.nodes| && k < |p.targets[u]| && p.targets[u][k] == m && e.from == p.labels[u]
  }

  ghost predicate AllFiled(body: Body, p: Plan, w: Work, recorded: set<(nat, nat)>)
    requires PlanIndexes(body, p)
  {
    forall u, k :: (u, k) in recorded ==> Filed(body, p, w, u, k)
  }

  ghost predicate AllSourced(body: Body, p: Plan, w: Work, recorded: set<(nat, nat)>)
    requires PlanIndexes(body, p)
  {
    forall m: nat, e :: m < |w.blocks| && e in w.blocks[m].edges ==> FiledFrom(body, p, recorded, m, e)
  }

  /** The phi entries are exactly the recorded edges, one per predecessor. */
  ghost predicate EdgesFiled(body: Body, p: Plan, w: Work, recorded: set<(nat, nat)>)
    requires PlanIndexes(body, p)
  {
    && |w.blocks| == |p.nodes|
    && AllFiled(body, p, w, recorded)
    && AllSourced(body, p, w, recorded)
    && (forall m: nat :: m < |w.blocks| ==> DistinctSources(w.blocks[m].edges))
  }

  ghost predicate DistinctSources(edges: seq<Incoming>) {
    forall i, j :: 0 <= i < j < |edges| ==> edges[i].from != edges[j].from
  }

  ghost predicate Inv(body: Body, p: Plan, w: Work, fixed: set<nat>, recorded: set<(nat, nat)>, computed: set<nat>)
    requires PlanIndexes(body, p)
  {
    && p.entry !in fixed
    && SlotsBelow(w)
    && SlotsKnown(body, w, fixed, computed)
    && ParamsFixed(body, p, w, fixed)
    && EdgesFiled(body, p, w, recorded)
  }

  // ---- growth ----

  ghost predicate BlockGrows(b: EmittedBlock, b': EmittedBlock) {
    (b.params != [] ==> b'.params == b.params) && b.code <= b'.code && b.edges <= b'.edges
  }

  /** Later work keeps every slot, every literal, every fixed parameter list, and every group and phi entry. */
  ghost predicate Extends(w: Work, w': Work) {
    && |w.blocks| == |w'.blocks| && Within(w.at, w'.at)
    && (forall v :: v in w.slots ==> v in w'.slots && w'.slots[v] == w.slots[v])
    && (forall m: nat :: m < |w.blocks| ==> BlockGrows(w.blocks[m], w'.blocks[m]))
  }

  lemma ExtendsTransitive(a: Work, b: Work, c: Work)
    requires Extends(a, b) && Extends(b, c)
    ensures Extends(a, c)
  {
    forall m: nat | m < |a.blocks| ensures BlockGrows(a.blocks[m], c.blocks[m]) {
      assert BlockGrows(a.blocks[m], b.blocks[m]) && BlockGrows(b.blocks[m], c.blocks[m]);
    }
  }

  lemma PlacedStays(body: Body, w: Work, w': Work, values: seq<nat>, ps: seq<Placement>)
    requires AllPlacedFrom(body, w, values, ps) && Extends(w, w')
    ensures AllPlacedFrom(body, w', values, ps)
  {
    forall i | 0 <= i < |ps| ensures PlacedFrom(body, w', values[i], ps[i]) {
      OnePlacedStays(body, w, w', values[i], ps[i]);
    }
  }

  lemma FormedStays(body: Body, w: Work, w': Work, values: seq<nat>, demands: seq<Demand>, ps: seq<Placement>)
    requires AllFormed(body, w, values, demands, ps) && Extends(w, w')
    ensures AllFormed(body, w', values, demands, ps)
  {
    forall i: nat | i < |ps| ensures Formed(body, w', values[i], DemandOf(demands, i), ps[i]) {
      OneFormedStays(body, w, w', values[i], DemandOf(demands, i), ps[i]);
    }
  }

  lemma OneFormedStays(body: Body, w: Work, w': Work, v: nat, d: Demand, p: Placement)
    requires Formed(body, w, v, d, p) && Extends(w, w')
    ensures Formed(body, w', v, d, p)
  {
  }

  lemma PassFormedStays(body: Body, p: Plan, w: Work, w': Work, u: nat, k: nat, ps: seq<Placement>)
    requires PlanIndexes(body, p) && u < |body.blocks| && k < |p.targets[u]| && PassFormed(body, p, w, u, k, ps)
    requires Extends(w, w')
    ensures PassFormed(body, p, w', u, k, ps)
  {
    if AllFormed(body, w, BranchOf(body, p, u, k).args, [], ps) {
      FormedStays(body, w, w', BranchOf(body, p, u, k).args, [], ps);
    } else {
      FormedStays(body, w, w', BranchOf(body, p, u, k).args, PassDemands(body, u, k), ps);
    }
  }

  lemma OnePlacedStays(body: Body, w: Work, w': Work, v: nat, p: Placement)
    requires PlacedFrom(body, w, v, p) && Extends(w, w')
    ensures PlacedFrom(body, w', v, p)
  {
    if p.from != w.slots[v] {
      var x := Constant(body, v).value;
      var kind: Class :| (kind, x) in w.at.pool.ids && w.at.pool.ids[(kind, x)] == p.from;
      assert (kind, x) in w'.at.pool.ids && w'.at.pool.ids[(kind, x)] == p.from;
    }
  }

  lemma ShieldStays(body: Body, p: Plan, w: Work, w': Work, u: nat, j: nat, g: Group)
    requires u < |p.nodes| && Shielded(body, p, w, u, j, g) && Extends(w, w')
    ensures Shielded(body, p, w', u, j, g)
  {
  }

  /** A filed edge stays filed. */
  lemma FiledStays(body: Body, p: Plan, w: Work, w': Work, u: nat, k: nat)
    requires PlanIndexes(body, p) && Filed(body, p, w, u, k) && Extends(w, w')
    requires u >= |body.blocks| ==> w'.blocks[u].params == [] || |w'.blocks[u].params| == p.arities[u]
    ensures Filed(body, p, w', u, k)
  {
    assert BlockGrows(w.blocks[u], w'.blocks[u]) && BlockGrows(w.blocks[p.targets[u][k]], w'.blocks[p.targets[u][k]]);
    var g := w.blocks[u].code[PassAt(body, u) + k];
    assert w'.blocks[u].code[PassAt(body, u) + k] == g;
    ShieldStays(body, p, w, w', u, InstructionCount(body, u), g);
    if u < |body.blocks| {
      PlacedStays(body, w, w', BranchOf(body, p, u, k).args, g.placements);
      PassFormedStays(body, p, w, w', u, k, g.placements);
    }
  }

  lemma FiledAllStay(body: Body, p: Plan, w: Work, w': Work, fixed: set<nat>, recorded: set<(nat, nat)>)
    requires PlanIndexes(body, p) && EdgesFiled(body, p, w, recorded) && Extends(w, w')
    requires ParamsFixed(body, p, w', fixed)
    requires forall m: nat :: m < |w.blocks| ==> w'.blocks[m].edges == w.blocks[m].edges
    ensures EdgesFiled(body, p, w', recorded)
  {
    forall u, k | (u, k) in recorded ensures Filed(body, p, w', u, k) {
      assert Filed(body, p, w, u, k);
      assert NodeParams(body, p, w', fixed, u);
      FiledStays(body, p, w, w', u, k);
    }
  }

  /** Nothing but code, slots and the cursor moved. */
  ghost predicate Quiet(w: Work, w': Work) {
    && Extends(w, w')
    && forall m: nat :: m < |w.blocks| ==>
         w'.blocks[m].params == w.blocks[m].params && w'.blocks[m].edges == w.blocks[m].edges
  }

  lemma QuietParams(body: Body, p: Plan, w: Work, w': Work, fixed: set<nat>, m: nat)
    requires Quiet(w, w') && m < |w.blocks| == |p.arities| == |p.nodes| && NodeParams(body, p, w, fixed, m)
    ensures NodeParams(body, p, w', fixed, m)
  {
    if m in fixed && m < |body.blocks| {
      assert Ids(w'.slots, body.blocks[m].params) == Ids(w.slots, body.blocks[m].params);
    }
  }

  lemma QuietKeeps(body: Body, p: Plan, w: Work, w': Work, fixed: set<nat>, recorded: set<(nat, nat)>,
      computed: set<nat>, computed': set<nat>)
    requires PlanIndexes(body, p) && Inv(body, p, w, fixed, recorded, computed) && Quiet(w, w')
    requires SlotsBelow(w') && SlotsKnown(body, w', fixed, computed')
    ensures Inv(body, p, w', fixed, recorded, computed')
  {
    forall m: nat | m < |w'.blocks| ensures NodeParams(body, p, w', fixed, m) {
      assert NodeParams(body, p, w, fixed, m);
      QuietParams(body, p, w, w', fixed, m);
    }
    FiledAllStay(body, p, w, w', fixed, recorded);
  }

  // ---- the cursor ----

  lemma AskGrows(c: Cursor, key: Key)
    requires forall k :: k in c.pool.ids ==> c.pool.ids[k] < c.next
    ensures var (id, after) := Ask(c, key);
      && Within(c, after) && key in after.pool.ids && after.pool.ids[key] == id
      && forall k :: k in after.pool.ids ==> after.pool.ids[k] < after.next
  {
  }

  ghost predicate PoolBelow(c: Cursor) {
    forall k :: k in c.pool.ids ==> c.pool.ids[k] < c.next
  }

  /** Where a placement starts, and that its conversion's ids are new. */
  ghost predicate PlacesFrom(c: Cursor, after: Cursor, o: Operand, p: Placement) {
    && (p.from == o.id || (o.literal.Some? && LiteralId(after.pool, o.literal.value, p.from)))
    && forall x :: x in p.steps ==> c.next <= x < after.next
  }

  /** An operand is placed in the form demanded. */
  ghost predicate PlacesAs(after: Cursor, o: Operand, d: Demand, p: Placement) {
    match d
    case AsIs => p == Placement(o.id, [])
    case InClass(kind, steps) => |p.steps| == steps && StartsIn(after.pool, o.literal, o.id, kind, p.from)
  }

  lemma PlaceGrows(c: Cursor, o: Operand, d: Demand)
    requires PoolBelow(c)
    ensures var (p, after) := Place(c, o, d);
      Within(c, after) && PoolBelow(after) && PlacesFrom(c, after, o, p) && PlacesAs(after, o, d, p)
  {
    if d.InClass? && o.literal.Some? {
      AskGrows(c, (d.kind, o.literal.value));
      var (id, asked) := Ask(c, (d.kind, o.literal.value));
      assert (d.kind, o.literal.value) in asked.pool.ids;
    }
  }

  ghost predicate AllPlacesAs(after: Cursor, os: seq<Operand>, demands: seq<Demand>, ps: seq<Placement>) {
    |ps| == |os| && forall i: nat :: i < |ps| ==> PlacesAs(after, os[i], DemandOf(demands, i), ps[i])
  }

  lemma PlacesAsStays(mid: Cursor, after: Cursor, os: seq<Operand>, demands: seq<Demand>, ps: seq<Placement>)
    requires AllPlacesAs(mid, os, demands, ps) && Within(mid, after)
    ensures AllPlacesAs(after, os, demands, ps)
  {
    forall i: nat | i < |ps| ensures PlacesAs(after, os[i], DemandOf(demands, i), ps[i]) {
      assert PlacesAs(mid, os[i], DemandOf(demands, i), ps[i]);
    }
  }

  /** Placements of values that have slots are in their forms. */
  lemma FormsValues(body: Body, w: Work, w': Work, values: seq<nat>, demands: seq<Demand>, ps: seq<Placement>)
    requires AllIn(w.slots, values) && Extends(w, w')
    requires AllPlacesAs(w'.at, Operands(body, w.slots, values), demands, ps)
    ensures AllFormed(body, w', values, demands, ps)
  {
    forall i: nat | i < |ps| ensures Formed(body, w', values[i], DemandOf(demands, i), ps[i]) {
      assert PlacesAs(w'.at, Operands(body, w.slots, values)[i], DemandOf(demands, i), ps[i]);
    }
  }

  lemma {:induction false} PlaceAllGrows(c: Cursor, os: seq<Operand>, demands: seq<Demand>)
    requires PoolBelow(c)
    ensures var (ps, after) := PlaceAll(c, os, demands);
      && Within(c, after) && PoolBelow(after)
      && (forall i :: 0 <= i < |ps| ==> PlacesFrom(c, after, os[i], ps[i]))
      && AllPlacesAs(after, os, demands, ps)
  {
    if os != [] {
      var last := |os| - 1;
      PlaceAllGrows(c, os[..last], demands);
      var (ps, mid) := PlaceAll(c, os[..last], demands);
      PlaceGrows(mid, os[last], DemandAt(demands, last));
      var (p, after) := Place(mid, os[last], DemandAt(demands, last));
      forall i | 0 <= i < last ensures PlacesFrom(c, after, os[i], ps[i]) {
        assert PlacesFrom(c, mid, os[..last][i], ps[i]);
        PlacesFromStays(c, mid, after, os[i], ps[i]);
      }
      forall i: nat | i < last ensures PlacesAs(after, os[i], DemandOf(demands, i), ps[i]) {
        assert PlacesAs(mid, os[..last][i], DemandOf(demands, i), ps[i]);
      }
    }
  }

  lemma PlacesFromStays(c: Cursor, mid: Cursor, after: Cursor, o: Operand, p: Placement)
    requires PlacesFrom(c, mid, o, p) && Within(mid, after)
    ensures PlacesFrom(c, after, o, p)
  {
    if p.from != o.id {
      var kind: Class :| (kind, o.literal.value) in mid.pool.ids && mid.pool.ids[(kind, o.literal.value)] == p.from;
      assert (kind, o.literal.value) in after.pool.ids && after.pool.ids[(kind, o.literal.value)] == p.from;
    }
  }

  /** Placements of values that have slots are placed from them. */
  lemma PlacesValues(body: Body, w: Work, w': Work, values: seq<nat>, c: Cursor, ps: seq<Placement>)
    requires AllIn(w.slots, values) && |ps| == |values| && Extends(w, w')
    requires forall i :: 0 <= i < |ps| ==> PlacesFrom(c, w'.at, Operands(body, w.slots, values)[i], ps[i])
    ensures AllPlacedFrom(body, w', values, ps)
  {
    forall i | 0 <= i < |ps| ensures PlacedFrom(body, w', values[i], ps[i]) {
      assert PlacesFrom(c, w'.at, Operands(body, w.slots, values)[i], ps[i]);
    }
  }

  /** A group on new ids writes over nothing that has a slot. */
  lemma NewGroupIsShielded(body: Body, p: Plan, w: Work, w': Work, u: nat, j: nat, g: Group)
    requires u < |p.nodes| && SlotsBelow(w) && LiveHave(body, p, w, u, j) && Extends(w, w')
    requires forall x :: x in g.own ==> w.at.next <= x
    requires forall i, x :: 0 <= i < |g.placements| && x in g.placements[i].steps ==> w.at.next <= x
    ensures Shielded(body, p, w', u, j, g)
  {
  }

  // ---- giving a node's parameters their ids ----

  lemma {:induction false} AssignFacts(slots: map<nat, nat>, values: seq<nat>, ids: seq<nat>)
    requires |values| == |ids| && Distinct(values)
    ensures forall v :: v in Assign(slots, values, ids) <==> v in slots || v in values
    ensures forall v :: v in slots && v !in values ==> Assign(slots, values, ids)[v] == slots[v]
    ensures forall k :: 0 <= k < |values| ==> Assign(slots, values, ids)[values[k]] == ids[k]
  {
    if values != [] {
      var last := |values| - 1;
      AssignFacts(slots, values[..last], ids[..last]);
      assert values == values[..last] + [values[last]];
      assert forall k :: 0 <= k < last ==> values[k] == values[..last][k];
    }
  }

  lemma FreshIdsAreDistinct(next: nat, count: nat)
    ensures Distinct(FreshIds(next, count))
    ensures forall x :: x in FreshIds(next, count) ==> next <= x < next + count
  {
    if count > 0 {
      FreshIdsAreDistinct(next, count - 1);
      assert FreshIds(next, count)[..count - 1] == FreshIds(next, count - 1);
    }
  }

  /** What the instruction values are: each is some block's. */
  ghost predicate AreInstructions(body: Body, computed: set<nat>) {
    forall v :: v in computed ==> exists b: nat :: b < |body.blocks| && v in body.blocks[b].instrs
  }

  /** The parameters of a block nobody has fixed are values nobody has placed. */
  lemma ParamsAreNew(body: Body, p: Plan, w: Work, fixed: set<nat>, computed: set<nat>, to: nat)
    requires ValidSsa(body) && SlotsKnown(body, w, fixed, computed)
    requires to < |body.blocks| && to != body.entry && to !in fixed && AreInstructions(body, computed)
    ensures Distinct(body.blocks[to].params)
    ensures forall v :: v in body.blocks[to].params ==> v !in w.slots
  {
    var block := body.blocks[to];
    assert Distinct(block.params + block.instrs);
    DistinctParts(block.params, block.instrs);
    forall v | v in block.params ensures v !in w.slots {
      assert Defines(body, to, v);
      NotElsewhere(body, to, body.entry, v);
      assert v !in body.lowering.forms && v !in computed;
      forall m | m in fixed && m < |body.blocks| ensures v !in body.blocks[m].params { NotElsewhere(body, to, m, v); }
    }
  }

  /** A block's parameters are no other block's. */
  lemma NotElsewhere(body: Body, a: nat, b: nat, v: nat)
    requires ValidSsa(body) && a < |body.blocks| && b < |body.blocks| && a != b && v in body.blocks[a].params
    ensures v !in body.blocks[b].params
  {
    assert Defines(body, a, v) && (v in body.blocks[b].params ==> Defines(body, b, v));
  }

  /** The slots after fixing `to`: its values join, on ids the cursor had not reached. */
  ghost predicate Placed(body: Body, w: Work, w': Work, to: nat) {
    var values := Received(body, to);
    && Within(w.at, w'.at) && w'.at.pool == w.at.pool
    && (forall v :: v in w'.slots <==> v in w.slots || v in values)
    && (forall v :: v in w.slots ==> v !in values && w'.slots[v] == w.slots[v])
    && (forall i :: 0 <= i < |values| ==> w.at.next <= w'.slots[values[i]] < w'.at.next)
  }

  lemma PlacedSlots(body: Body, w: Work, w': Work, fixed: set<nat>, computed: set<nat>, to: nat)
    requires body.entry < |body.blocks|
    requires SlotsBelow(w) && SlotsKnown(body, w, fixed, computed) && Placed(body, w, w', to)
    ensures SlotsBelow(w') && SlotsKnown(body, w', fixed + {to}, computed)
  {
    var values := Received(body, to);
    forall v | v in w'.slots ensures w'.slots[v] < w'.at.next {
      if v in values { var i :| 0 <= i < |values| && values[i] == v; }
    }
    forall v ensures v in w'.slots <==> Known(body, fixed + {to}, computed, v) {
      if v in values { assert to in fixed + {to}; }
      if m :| m in fixed && m < |body.blocks| && v in body.blocks[m].params {
        assert m in fixed + {to} && Known(body, fixed, computed, v);
      }
    }
  }

  /** What fixing a new node does to the work, said without naming the function that does it. */
  ghost predicate NewlyFixed(body: Body, p: Plan, w: Work, w': Work, to: nat)
    requires to < |p.arities|
  {
    && Placed(body, w, w', to)
    && w'.at.next == w.at.next + p.arities[to]
    && OnlyParams(w, w', to, FreshIds(w.at.next, p.arities[to]))
    && forall k :: 0 <= k < |Received(body, to)| ==>
         k < p.arities[to] && w'.slots[Received(body, to)[k]] == w.at.next + k
  }

  /** The block list after fixing `to`: only its parameters changed. */
  ghost predicate OnlyParams(w: Work, w': Work, to: nat, params: seq<nat>) {
    && |w'.blocks| == |w.blocks| && to < |w.blocks|
    && w'.blocks[to] == w.blocks[to].(params := params)
    && (forall m: nat :: m < |w.blocks| && m != to ==> w'.blocks[m] == w.blocks[m])
  }

  lemma OldNodeParams(body: Body, p: Plan, w: Work, w': Work, fixed: set<nat>, to: nat, m: nat)
    requires m < |w.blocks| == |p.arities| == |p.nodes| && m != to && NodeParams(body, p, w, fixed, m)
    requires Placed(body, w, w', to) && |w'.blocks| == |w.blocks| && w'.blocks[m].params == w.blocks[m].params
    ensures NodeParams(body, p, w', fixed + {to}, m)
  {
    if m in fixed && m < |body.blocks| {
      assert Ids(w'.slots, body.blocks[m].params) == Ids(w.slots, body.blocks[m].params);
    }
  }

  lemma NewNodeParams(body: Body, p: Plan, w: Work, w': Work, fixed: set<nat>, to: nat)
    requires to < |w'.blocks| == |p.arities| == |p.nodes| && SlotsBelow(w) && Placed(body, w, w', to)
    requires AboveHave(body, w, Destination(p.nodes[to]))
    requires var ids := FreshIds(w.at.next, p.arities[to]);
      w'.blocks[to].params == ids && w'.at.next == w.at.next + p.arities[to]
    requires to < |body.blocks| ==> p.arities[to] == |body.blocks[to].params|
    requires forall k :: 0 <= k < |Received(body, to)| ==>
      k < p.arities[to] && w'.slots[Received(body, to)[k]] == w.at.next + k
    ensures NodeParams(body, p, w', fixed + {to}, to)
  {
    FreshIdsAreDistinct(w.at.next, p.arities[to]);
    assert AboveShielded(body, w', Destination(p.nodes[to]), w'.blocks[to].params);
  }

  lemma NewlyFixedParams(body: Body, p: Plan, w: Work, w': Work, fixed: set<nat>, to: nat)
    requires PlanLinks(body, p) && ParamsFixed(body, p, w, fixed) && SlotsBelow(w)
    requires to < |p.nodes| && to !in fixed && NewlyFixed(body, p, w, w', to) &&
      AboveHave(body, w, Destination(p.nodes[to]))
    ensures ParamsFixed(body, p, w', fixed + {to}) && Extends(w, w')
  {
    assert NodeParams(body, p, w, fixed, to);
    forall m: nat | m < |w.blocks| ensures NodeParams(body, p, w', fixed + {to}, m) {
      assert NodeParams(body, p, w, fixed, m);
      if m == to { NewNodeParams(body, p, w, w', fixed, to); } else { OldNodeParams(body, p, w, w', fixed, to, m); }
    }
    forall m: nat | m < |w.blocks| ensures BlockGrows(w.blocks[m], w'.blocks[m]) {}
  }

  lemma FixedIsPlaced(body: Body, p: Plan, w: Work, fixed: set<nat>, computed: set<nat>, to: nat)
    requires ValidSsa(body) && PlanLinks(body, p) && |w.blocks| == |p.nodes|
    requires SlotsKnown(body, w, fixed, computed) && AreInstructions(body, computed)
    requires to < |p.nodes| && to != p.entry && to !in fixed && w.blocks[to].params == []
    ensures NewlyFixed(body, p, w, FixParams(body, w, to, p.arities[to]), to)
  {
    var w' := FixParams(body, w, to, p.arities[to]);
    var values := Received(body, to);
    var ids := FreshIds(w.at.next, p.arities[to]);
    if to < |body.blocks| {
      ParamsAreNew(body, p, w, fixed, computed, to);
    }
    AssignFacts(w.slots, values, ids[..|values|]);
    if p.arities[to] == 0 { assert ids == [] && values == []; }
  }

  /** Fixing a node: its ids are new, its values join the slots, nothing else moves. */
  lemma FixKeeps(body: Body, p: Plan, w: Work, w': Work, fixed: set<nat>, recorded: set<(nat, nat)>, computed: set<nat>,
      to: nat)
    requires ValidSsa(body) && PlanLinks(body, p) && Inv(body, p, w, fixed, recorded, computed) &&
      AreInstructions(body, computed)
    requires to < |p.nodes| && to != p.entry && w' == FixParams(body, w, to, p.arities[to])
    requires AboveHave(body, w, Destination(p.nodes[to]))
    ensures Inv(body, p, w', fixed + {to}, recorded, computed) && Extends(w, w')
    ensures OnlyParams(w, w', to, w'.blocks[to].params)
  {
    assert NodeParams(body, p, w, fixed, to);
    if to in fixed {
      assert w' == w && fixed + {to} == fixed;
    } else {
      FixedIsPlaced(body, p, w, fixed, computed, to);
      NewlyFixedKeeps(body, p, w, w', fixed, recorded, computed, to);
    }
  }

  lemma NewlyFixedKeeps(body: Body, p: Plan, w: Work, w': Work, fixed: set<nat>, recorded: set<(nat, nat)>,
      computed: set<nat>, to: nat)
    requires PlanLinks(body, p) && Inv(body, p, w, fixed, recorded, computed)
    requires to < |p.nodes| && to != p.entry && to !in fixed && NewlyFixed(body, p, w, w', to) &&
      AboveHave(body, w, Destination(p.nodes[to]))
    ensures Inv(body, p, w', fixed + {to}, recorded, computed) && Extends(w, w')
  {
    PlacedSlots(body, w, w', fixed, computed, to);
    NewlyFixedParams(body, p, w, w', fixed, to);
    forall m: nat | m < |w.blocks| ensures w'.blocks[m].edges == w.blocks[m].edges {}
    FiledAllStay(body, p, w, w', fixed + {to}, recorded);
  }

  // ---- filing an edge ----

  lemma {:induction false} FindEdgeNone(edges: seq<Incoming>, from: nat)
    requires forall e :: e in edges ==> e.from != from
    ensures FindEdge(edges, from) == None
  {
    if edges != [] {
      assert edges[0] in edges;
      FindEdgeNone(edges[1..], from);
    }
  }

  /** A node has at most two targets, and two of them are two nodes. */
  lemma SameTargetSameBranch(body: Body, p: Plan, u: nat, k: nat, k': nat)
    requires PlanLinks(body, p) && u < |p.nodes| && k < |p.targets[u]| && k' < |p.targets[u]|
    requires p.targets[u][k] == p.targets[u][k']
    ensures k == k'
  {
    assert |p.targets[u]| == TargetCount(body, p, u) <= 2;
  }

  /** Nobody has filed an edge from this block into that one yet. */
  lemma NotYetFiled(body: Body, p: Plan, w: Work, recorded: set<(nat, nat)>, u: nat, k: nat)
    requires PlanLinks(body, p) && EdgesFiled(body, p, w, recorded)
    requires u < |p.nodes| && k < |p.targets[u]| && (u, k) !in recorded
    ensures forall e :: e in w.blocks[p.targets[u][k]].edges ==> e.from != p.labels[u]
  {
    var to := p.targets[u][k];
    forall e | e in w.blocks[to].edges ensures e.from != p.labels[u] {
      assert FiledFrom(body, p, recorded, to, e);
      var u', k' :| (u', k') in recorded && u' < |p.nodes| && k' < |p.targets[u']| && p.targets[u'][k'] == to &&
        e.from == p.labels[u'];
      if u' == u { SameTargetSameBranch(body, p, u, k, k'); }
    }
  }

  /** Pushing one entry files one edge. */
  lemma PushFiles(body: Body, p: Plan, w: Work, w': Work, fixed: set<nat>, recorded: set<(nat, nat)>,
      computed: set<nat>, u: nat, k: nat)
    requires PlanLinks(body, p) && Inv(body, p, w, fixed, recorded, computed)
    requires u < |p.nodes| && k < |p.targets[u]| && PassFor(body, p, w, u, k) && (u, k) !in recorded
    requires w' == PushEdge(w, p.targets[u][k], Incoming(p.labels[u], PassArgs(body, w.blocks[u].code, u, k)))
    ensures Inv(body, p, w', fixed, recorded + {(u, k)}, computed) && Extends(w, w')
  {
    forall m: nat | m < |w.blocks| ensures NodeParams(body, p, w', fixed, m) && BlockGrows(w.blocks[m], w'.blocks[m]) {
      assert NodeParams(body, p, w, fixed, m);
    }
    PushedEdges(body, p, w, w', fixed, recorded, u, k);
  }

  lemma PushedEdges(body: Body, p: Plan, w: Work, w': Work, fixed: set<nat>, recorded: set<(nat, nat)>, u: nat, k: nat)
    requires PlanLinks(body, p) && EdgesFiled(body, p, w, recorded) && Extends(w, w')
    requires ParamsFixed(body, p, w', fixed)
    requires u < |p.nodes| && k < |p.targets[u]| && PassFor(body, p, w, u, k) && (u, k) !in recorded
    requires w' == PushEdge(w, p.targets[u][k], Incoming(p.labels[u], PassArgs(body, w.blocks[u].code, u, k)))
    ensures EdgesFiled(body, p, w', recorded + {(u, k)})
  {
    var to := p.targets[u][k];
    var edge := Incoming(p.labels[u], PassArgs(body, w.blocks[u].code, u, k));
    NotYetFiled(body, p, w, recorded, u, k);
    PushedFiled(body, p, w, w', fixed, recorded, u, k);
    forall m: nat, e | m < |w'.blocks| && e in w'.blocks[m].edges
      ensures FiledFrom(body, p, recorded + {(u, k)}, m, e)
    {
      SourceStays(body, p, w, recorded, u, k, m, e);
    }
    forall m: nat | m < |w'.blocks| ensures DistinctSources(w'.blocks[m].edges) {
      assert DistinctSources(w.blocks[m].edges);
      if m == to { SourcesSnoc(w.blocks[to].edges, edge); }
    }
  }

  lemma PushedFiled(body: Body, p: Plan, w: Work, w': Work, fixed: set<nat>, recorded: set<(nat, nat)>, u: nat, k: nat)
    requires PlanIndexes(body, p) && |w.blocks| == |p.nodes| && AllFiled(body, p, w, recorded) && Extends(w, w')
    requires ParamsFixed(body, p, w', fixed)
    requires u < |p.nodes| && k < |p.targets[u]| && PassFor(body, p, w, u, k)
    requires w' == PushEdge(w, p.targets[u][k], Incoming(p.labels[u], PassArgs(body, w.blocks[u].code, u, k)))
    ensures AllFiled(body, p, w', recorded + {(u, k)})
  {
    forall a, b | (a, b) in recorded + {(u, k)} ensures Filed(body, p, w', a, b) {
      if (a, b) == (u, k) {
        PushedIsFiled(body, p, w, w', u, k);
      } else {
        assert Filed(body, p, w, a, b) && NodeParams(body, p, w', fixed, a);
        FiledStays(body, p, w, w', a, b);
      }
    }
  }

  lemma PushedIsFiled(body: Body, p: Plan, w: Work, w': Work, u: nat, k: nat)
    requires PlanIndexes(body, p) && u < |p.nodes| == |w.blocks| && k < |p.targets[u]| && PassFor(body, p, w, u, k)
    requires w' == PushEdge(w, p.targets[u][k], Incoming(p.labels[u], PassArgs(body, w.blocks[u].code, u, k)))
    ensures Filed(body, p, w', u, k)
  {
    var g := w.blocks[u].code[PassAt(body, u) + k];
    assert w'.blocks[u].params == w.blocks[u].params && w'.blocks[u].code == w.blocks[u].code;
    assert w'.slots == w.slots && w'.at == w.at;
    assert u < |body.blocks| ==> AllPlacedFrom(body, w', BranchOf(body, p, u, k).args, g.placements);
    assert Shielded(body, p, w', u, InstructionCount(body, u), g);
  }

  lemma SourcesSnoc(edges: seq<Incoming>, e: Incoming)
    requires DistinctSources(edges) && forall x :: x in edges ==> x.from != e.from
    ensures DistinctSources(edges + [e])
  {
    forall i, j | 0 <= i < j < |edges + [e]| ensures (edges + [e])[i].from != (edges + [e])[j].from {
      assert (edges + [e])[i] == edges[i] && edges[i] in edges;
    }
  }

  lemma SourceStays(body: Body, p: Plan, w: Work, recorded: set<(nat, nat)>, u: nat, k: nat, m: nat, e: Incoming)
    requires PlanIndexes(body, p) && EdgesFiled(body, p, w, recorded) && m < |w.blocks|
    requires u < |p.nodes| && k < |p.targets[u]|
    requires e in w.blocks[m].edges || (m == p.targets[u][k] && e.from == p.labels[u])
    ensures FiledFrom(body, p, recorded + {(u, k)}, m, e)
  {
    if e in w.blocks[m].edges {
      assert FiledFrom(body, p, recorded, m, e);
      var a, b :| (a, b) in recorded && a < |p.nodes| && b < |p.targets[a]| && p.targets[a][b] == m &&
        e.from == p.labels[a];
      assert (a, b) in recorded + {(u, k)};
    } else {
      assert (u, k) in recorded + {(u, k)};
    }
  }

  // ---- one edge ----

  /** The edge is next in its node's code, and everything it and its target rest on has an id. */
  ghost predicate EdgeReady(body: Body, p: Plan, w: Work, u: nat, k: nat, os: seq<Operand>)
    requires PlanIndexes(body, p)
  {
    && u < |p.nodes| == |w.blocks| && k < |p.targets[u]|
    && |w.blocks[u].code| == PassAt(body, u) + k
    && LiveHave(body, p, w, u, InstructionCount(body, u))
    && Destination(p.nodes[p.targets[u][k]]) < |body.blocks|
    && AboveHave(body, w, Destination(p.nodes[p.targets[u][k]]))
    && (u < |body.blocks| ==>
         AllIn(w.slots, BranchOf(body, p, u, k).args) && os == Operands(body, w.slots, BranchOf(body, p, u, k).args))
    && (u >= |body.blocks| ==> |w.blocks[u].params| == p.arities[u] && os == Plainly(w.blocks[u].params))
  }

  /** The code of other nodes, and every branch, as they were. */
  ghost predicate OnlyCodeOf(w: Work, w': Work, u: nat) {
    && |w'.blocks| == |w.blocks|
    && (forall m: nat :: m < |w.blocks| ==>
         w'.blocks[m].merge == w.blocks[m].merge && w'.blocks[m].exit == w.blocks[m].exit)
    && (forall m: nat :: m < |w.blocks| && m != u ==> w'.blocks[m].code == w.blocks[m].code)
  }

  lemma AppendIsQuiet(w: Work, after: Cursor, u: nat, g: Group)
    requires u < |w.blocks| && Within(w.at, after)
    ensures Quiet(w, Append(w.(at := after), u, g)) && OnlyCodeOf(w, Append(w.(at := after), u, g), u)
    ensures Append(w.(at := after), u, g).blocks[u].code == w.blocks[u].code + [g]
  {
    var w' := Append(w.(at := after), u, g);
    forall m: nat | m < |w.blocks| ensures BlockGrows(w.blocks[m], w'.blocks[m]) {}
  }

  ghost predicate EdgePlacesAs(body: Body, u: nat, k: nat, after: Cursor, os: seq<Operand>, ps: seq<Placement>) {
    AllPlacesAs(after, os, [], ps) || AllPlacesAs(after, os, PassDemands(body, u, k), ps)
  }

  /** What an edge passes is placed in a group of its own. */
  lemma PassIsPlaced(body: Body, p: Plan, w: Work, u: nat, k: nat, os: seq<Operand>, ps: seq<Placement>, after: Cursor)
    requires PlanIndexes(body, p) && SlotsBelow(w) && EdgeReady(body, p, w, u, k, os)
    requires |ps| == |os| && Within(w.at, after) && forall i :: 0 <= i < |ps| ==> PlacesFrom(w.at, after, os[i], ps[i])
    requires EdgePlacesAs(body, u, k, after, os, ps)
    ensures PassFor(body, p, Append(w.(at := after), u, Group(ps, [], Still)), u, k)
  {
    var g := Group(ps, [], Still);
    var w' := Append(w.(at := after), u, g);
    AppendIsQuiet(w, after, u, g);
    NewGroupIsShielded(body, p, w, w', u, InstructionCount(body, u), g);
    if u < |body.blocks| {
      PlacesValues(body, w, w', BranchOf(body, p, u, k).args, w.at, ps);
      if AllPlacesAs(after, os, [], ps) {
        FormsValues(body, w, w', BranchOf(body, p, u, k).args, [], ps);
      } else {
        FormsValues(body, w, w', BranchOf(body, p, u, k).args, PassDemands(body, u, k), ps);
      }
    }
  }

  lemma ReadyStays(body: Body, p: Plan, w: Work, w': Work, u: nat, k: nat, os: seq<Operand>)
    requires PlanIndexes(body, p) && EdgeReady(body, p, w, u, k, os) && Extends(w, w') &&
      w'.blocks[u].code == w.blocks[u].code
    requires u >= |body.blocks| ==> w'.blocks[u].params == w.blocks[u].params
    ensures EdgeReady(body, p, w', u, k, os)
  {
    if u < |body.blocks| {
      assert Operands(body, w'.slots, BranchOf(body, p, u, k).args) ==
        Operands(body, w.slots, BranchOf(body, p, u, k).args);
    }
  }

  /** Recording a new edge succeeds, fixes its target and files it. */
  lemma RecordKeeps(body: Body, p: Plan, w: Work, fixed: set<nat>, recorded: set<(nat, nat)>, computed: set<nat>,
      u: nat, k: nat, os: seq<Operand>)
    requires ValidSsa(body) && PlanLinks(body, p) && Inv(body, p, w, fixed, recorded, computed) &&
      AreInstructions(body, computed)
    requires EdgeReady(body, p, w, u, k, os) && (u, k) !in recorded
    ensures var r := Record(body, p, w, u, k, os);
      && r.Success? && Inv(body, p, r.value, fixed + {p.targets[u][k]}, recorded + {(u, k)}, computed)
      && Extends(w, r.value)
      && OnlyCodeOf(w, r.value, u) && |r.value.blocks[u].code| == |w.blocks[u].code| + 1
  {
    var to := p.targets[u][k];
    var fix := FixParams(body, w, to, p.arities[to]);
    FixedIsReady(body, p, w, fixed, recorded, computed, u, k, os);
    PassedGrows(body, w, to, p.arities[to], u, k, os);
    OperandCount(body, p, w, u, k, os);
    var (ps, after) := Passed(body, w, to, p.arities[to], u, k, os);
    RecordPlaced(body, p, w, fix, fixed + {to}, recorded, computed, u, k, os, ps, after);
  }

  /** With the target's parameters fixed, the edge is still ready. */
  lemma FixedIsReady(body: Body, p: Plan, w: Work, fixed: set<nat>, recorded: set<(nat, nat)>, computed: set<nat>,
      u: nat, k: nat, os: seq<Operand>)
    requires ValidSsa(body) && PlanLinks(body, p) && Inv(body, p, w, fixed, recorded, computed) &&
      AreInstructions(body, computed)
    requires EdgeReady(body, p, w, u, k, os)
    ensures var to := p.targets[u][k];
      var fix := FixParams(body, w, to, p.arities[to]);
      && Inv(body, p, fix, fixed + {to}, recorded, computed) && EdgeReady(body, p, fix, u, k, os)
      && Extends(w, fix) && OnlyCodeOf(w, fix, u) && fix.blocks[u].code == w.blocks[u].code
  {
    var to := p.targets[u][k];
    var fix := FixParams(body, w, to, p.arities[to]);
    FixKeeps(body, p, w, fix, fixed, recorded, computed, to);
    AddedParamsStay(body, p, w, fix, fixed, to, u);
    ReadyStays(body, p, w, fix, u, k, os);
  }

  lemma OperandCount(body: Body, p: Plan, w: Work, u: nat, k: nat, os: seq<Operand>)
    requires PlanLinks(body, p) && EdgeReady(body, p, w, u, k, os)
    ensures |os| == p.arities[p.targets[u][k]]
  {
    if u >= |body.blocks| { assert |p.targets[u]| == TargetCount(body, p, u) == 1; }
  }

  lemma PassedGrows(body: Body, w: Work, to: nat, arity: nat, u: nat, k: nat, os: seq<Operand>)
    requires to < |w.blocks| && |Received(body, to)| <= arity && PoolBelow(FixParams(body, w, to, arity).at)
    ensures var fix := FixParams(body, w, to, arity); var (ps, after) := Passed(body, w, to, arity, u, k, os);
      && |ps| == |os| && Within(fix.at, after) && PoolBelow(after)
      && (forall i :: 0 <= i < |ps| ==> PlacesFrom(fix.at, after, os[i], ps[i]))
      && EdgePlacesAs(body, u, k, after, os, ps)
  {
    var demands := if arity > 0 && w.blocks[to].params == [] then [] else Wanted(body, u, k);
    PlaceAllGrows(FixParams(body, w, to, arity).at, os, demands);
  }

  /**
  What recording writes for an edge: the first edge into a block passes its values as they are, and a later one brings
  each to the form wanted of it.
   */
  lemma RecordForms(body: Body, p: Plan, w: Work, u: nat, k: nat, os: seq<Operand>)
    requires PlanIndexes(body, p) && |w.blocks| == |p.nodes| && u < |p.nodes| && k < |p.targets[u]| && PoolBelow(w.at)
    requires Record(body, p, w, u, k, os).Success?
    ensures var to, now := p.targets[u][k], Record(body, p, w, u, k, os).value;
      && |now.blocks[u].code| == |w.blocks[u].code| + 1
      && var ps := now.blocks[u].code[|w.blocks[u].code|].placements;
         if p.arities[to] > 0 && w.blocks[to].params == [] then AllPlacesAs(now.at, os, [], ps)
         else AllPlacesAs(now.at, os, PassDemands(body, u, k), ps)
  {
    var to := p.targets[u][k];
    PlaceAllGrows(w.at.(next := w.at.next + p.arities[to]), os, []);
    PlaceAllGrows(w.at, os, Wanted(body, u, k));
  }

  lemma {:induction false} FindEdgeSnoc(edges: seq<Incoming>, e: Incoming)
    requires FindEdge(edges, e.from) == None
    ensures FindEdge(edges + [e], e.from) == Some(e)
  {
    if edges != [] {
      assert (edges + [e])[1..] == edges[1..] + [e];
      FindEdgeSnoc(edges[1..], e);
    }
  }

  /**
  After recording, the block's one entry passes what the edge's group leaves: a second edge out of the block is
  recorded only when it passes the same ids.
   */
  lemma RecordFiles(body: Body, p: Plan, w: Work, u: nat, k: nat, os: seq<Operand>)
    requires PlanIndexes(body, p) && |w.blocks| == |p.nodes| && u < |p.nodes| && k < |p.targets[u]|
    requires Record(body, p, w, u, k, os).Success?
    ensures var to, now := p.targets[u][k], Record(body, p, w, u, k, os).value;
      && |now.blocks[u].code| == |w.blocks[u].code| + 1
      && FindEdge(now.blocks[to].edges, p.labels[u]) ==
           Some(Incoming(p.labels[u], Yields(now.blocks[u].code[|w.blocks[u].code|].placements)))
      && |now.blocks[to].edges| ==
           |w.blocks[to].edges| + (if FindEdge(w.blocks[to].edges, p.labels[u]).None? then 1 else 0)
      && forall m: nat :: m < |w.blocks| && m != to ==> now.blocks[m].edges == w.blocks[m].edges
  {
    var to := p.targets[u][k];
    var (ps, after) := Passed(body, w, to, p.arities[to], u, k, os);
    FindEdgeFrom(w.blocks[to].edges, p.labels[u]);
    if FindEdge(w.blocks[to].edges, p.labels[u]).None? {
      FindEdgeSnoc(w.blocks[to].edges, Incoming(p.labels[u], Yields(ps)));
    }
  }

  lemma {:induction false} FindEdgeFrom(edges: seq<Incoming>, from: nat)
    ensures FindEdge(edges, from).Some? ==> FindEdge(edges, from).value.from == from
  {
    if edges != [] { FindEdgeFrom(edges[1..], from); }
  }

  /** An edge is refused for its length, or because its block's entry passes other ids. */
  lemma RecordRefuses(body: Body, p: Plan, w: Work, u: nat, k: nat, os: seq<Operand>)
    requires PlanIndexes(body, p) && |w.blocks| == |p.nodes| && u < |p.nodes| && k < |p.targets[u]|
    requires Record(body, p, w, u, k, os).Failure?
    ensures var to := p.targets[u][k];
      Record(body, p, w, u, k, os).error ==
        if |os| != p.arities[to] then ArityDiffers(to) else TwoValueLists(to)
    ensures var to := p.targets[u][k];
      |os| != p.arities[to] ||
      (FindEdge(w.blocks[to].edges, p.labels[u]).Some? &&
       FindEdge(w.blocks[to].edges, p.labels[u]).value.args !=
         Yields(Passed(body, w, to, p.arities[to], u, k, os).0))
  {
  }

  lemma AddedParamsStay(body: Body, p: Plan, w: Work, fix: Work, fixed: set<nat>, to: nat, u: nat)
    requires PlanIndexes(body, p) && u < |p.nodes| == |w.blocks| && to < |p.nodes| &&
      fix == FixParams(body, w, to, p.arities[to])
    requires u >= |body.blocks| ==> |w.blocks[u].params| == p.arities[u]
    ensures u >= |body.blocks| ==> fix.blocks[u].params == w.blocks[u].params
  {
  }

  /** The edge once its group is written and its phi entry is there. */
  ghost predicate EdgeDone(body: Body, p: Plan, w: Work, done: Work, fixed: set<nat>, recorded: set<(nat, nat)>,
      computed: set<nat>, u: nat, g: Group)
    requires PlanIndexes(body, p)
  {
    && Inv(body, p, done, fixed, recorded, computed) && Extends(w, done)
    && u < |w.blocks| && OnlyCodeOf(w, done, u) && done.blocks[u].code == w.blocks[u].code + [g]
  }

  lemma GroupPut(body: Body, p: Plan, fix: Work, fixed: set<nat>, recorded: set<(nat, nat)>, computed: set<nat>, u: nat,
      k: nat, os: seq<Operand>, ps: seq<Placement>, after: Cursor)
    requires PlanIndexes(body, p) && Inv(body, p, fix, fixed, recorded, computed) && EdgeReady(body, p, fix, u, k, os)
    requires |ps| == |os| && Within(fix.at, after) && PoolBelow(after)
    requires (forall i :: 0 <= i < |ps| ==> PlacesFrom(fix.at, after, os[i], ps[i])) &&
      EdgePlacesAs(body, u, k, after, os, ps)
    ensures EdgeDone(body, p, fix, Append(fix.(at := after), u, Group(ps, [], Still)), fixed, recorded, computed, u,
      Group(ps, [], Still))
    ensures PassFor(body, p, Append(fix.(at := after), u, Group(ps, [], Still)), u, k)
  {
    var put := Append(fix.(at := after), u, Group(ps, [], Still));
    AppendIsQuiet(fix, after, u, Group(ps, [], Still));
    assert put.slots == fix.slots && put.at == after;
    QuietKeeps(body, p, fix, put, fixed, recorded, computed, computed);
    PassIsPlaced(body, p, fix, u, k, os, ps, after);
  }

  lemma EdgeIsNew(body: Body, p: Plan, put: Work, fixed: set<nat>, recorded: set<(nat, nat)>, computed: set<nat>,
      u: nat, k: nat)
    requires PlanLinks(body, p) && Inv(body, p, put, fixed, recorded, computed) && (u, k) !in recorded
    requires u < |p.nodes| && k < |p.targets[u]|
    ensures FindEdge(put.blocks[p.targets[u][k]].edges, p.labels[u]) == None
  {
    NotYetFiled(body, p, put, recorded, u, k);
    FindEdgeNone(put.blocks[p.targets[u][k]].edges, p.labels[u]);
  }

  lemma PushIsAllCode(fix: Work, put: Work, to: nat, e: Incoming, u: nat)
    requires u < |fix.blocks| && OnlyCodeOf(fix, put, u) && to < |put.blocks|
    ensures OnlyCodeOf(fix, PushEdge(put, to, e), u) && PushEdge(put, to, e).blocks[u].code == put.blocks[u].code
  {
  }

  lemma EdgePushed(body: Body, p: Plan, fix: Work, put: Work, fixed: set<nat>, recorded: set<(nat, nat)>,
      computed: set<nat>, u: nat, k: nat, g: Group)
    requires PlanLinks(body, p) && EdgeDone(body, p, fix, put, fixed, recorded, computed, u, g) && (u, k) !in recorded
    requires u < |p.nodes| && k < |p.targets[u]| && PassFor(body, p, put, u, k) &&
      |fix.blocks[u].code| == PassAt(body, u) + k
    ensures EdgeDone(body, p, fix, PushEdge(put, p.targets[u][k], Incoming(p.labels[u], Yields(g.placements))), fixed,
      recorded + {(u, k)}, computed, u, g)
  {
    var to, e := p.targets[u][k], Incoming(p.labels[u], Yields(g.placements));
    assert PassArgs(body, put.blocks[u].code, u, k) == Yields(g.placements);
    PushFiles(body, p, put, PushEdge(put, to, e), fixed, recorded, computed, u, k);
    PushIsAllCode(fix, put, to, e, u);
    ExtendsTransitive(fix, put, PushEdge(put, to, e));
  }

  lemma EdgeAfterFix(body: Body, p: Plan, w: Work, fix: Work, done: Work, fixed: set<nat>, recorded: set<(nat, nat)>,
      computed: set<nat>, u: nat, g: Group)
    requires PlanIndexes(body, p) && EdgeDone(body, p, fix, done, fixed, recorded, computed, u, g)
    requires Extends(w, fix) && OnlyCodeOf(w, fix, u) && fix.blocks[u].code == w.blocks[u].code
    ensures EdgeDone(body, p, w, done, fixed, recorded, computed, u, g)
  {
    ExtendsTransitive(w, fix, done);
  }

  lemma RecordPlaced(body: Body, p: Plan, w: Work, fix: Work, fixed: set<nat>, recorded: set<(nat, nat)>,
      computed: set<nat>, u: nat, k: nat, os: seq<Operand>, ps: seq<Placement>, after: Cursor)
    requires PlanLinks(body, p) && Inv(body, p, fix, fixed, recorded, computed) && EdgeReady(body, p, fix, u, k, os) &&
      (u, k) !in recorded
    requires |ps| == |os| && Within(fix.at, after) && PoolBelow(after)
    requires (forall i :: 0 <= i < |ps| ==> PlacesFrom(fix.at, after, os[i], ps[i])) &&
      EdgePlacesAs(body, u, k, after, os, ps)
    requires Extends(w, fix) && OnlyCodeOf(w, fix, u) && fix.blocks[u].code == w.blocks[u].code
    ensures var to := p.targets[u][k]; var put := Append(fix.(at := after), u, Group(ps, [], Still));
      FindEdge(put.blocks[to].edges, p.labels[u]) == None &&
      EdgeDone(body, p, w, PushEdge(put, to, Incoming(p.labels[u], Yields(ps))), fixed, recorded + {(u, k)}, computed,
        u, Group(ps, [], Still))
  {
    var g := Group(ps, [], Still);
    var put := Append(fix.(at := after), u, g);
    GroupPut(body, p, fix, fixed, recorded, computed, u, k, os, ps, after);
    EdgeIsNew(body, p, put, fixed, recorded, computed, u, k);
    EdgePushed(body, p, fix, put, fixed, recorded, computed, u, k, g);
    EdgeAfterFix(body, p, w, fix, PushEdge(put, p.targets[u][k], Incoming(p.labels[u], Yields(ps))), fixed,
      recorded + {(u, k)}, computed, u, g);
  }
}
