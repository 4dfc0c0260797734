/**
What writing one block, one instruction or one added block keeps. Each step of the
emission is given what the one before left, and leaves the invariant, the groups of the
instructions it wrote and every other block as it was.
 */
module EmissionProof {
  import opened Graphs
  import opened Options
  import opened Kernel
  import opened Literals
  import opened Structure
  import opened Planner
  import opened Emission
  import opened Ssa
  import opened Distinctness
  import opened EmissionInvariant

  // ---- instructions ----

  /** The group an instruction leaves, read off the slots and the literals. */
  ghost predicate GroupFor(body: Body, w: Work, v: nat, g: Group) {
    v in body.lowering.forms && v in body.operands &&
    match body.lowering.forms[v]
    case Literal(kind, value) =>
      g == Group([], [], Still) && (kind, value) in w.at.pool.ids && v in w.slots &&
        w.slots[v] == w.at.pool.ids[(kind, value)]
    case Same(demand) =>
      && body.operands[v] != [] && |g.placements| == 1 && g.own == [] && g.role == Still
      && PlacedFrom(body, w, body.operands[v][0], g.placements[0])
      && Formed(body, w, body.operands[v][0], demand, g.placements[0])
      && v in w.slots && w.slots[v] == Yield(g.placements[0])
    case Computed(demands, own, result) =>
      && AllPlacedFrom(body, w, body.operands[v], g.placements)
      && AllFormed(body, w, body.operands[v], demands, g.placements) && |g.own| == own && g.role == Act(v, result)
      && (Yielding(body, v) ==> v in w.slots && w.slots[v] == g.own[result.value])
  }

  /** The groups of a block's first `j` instructions. */
  ghost predicate CodeFor(body: Body, p: Plan, w: Work, u: nat, j: nat)
    requires u < |w.blocks| && u < |p.nodes|
  {
    && u < |body.blocks| && j <= |body.blocks[u].instrs| && j <= |w.blocks[u].code|
    && forall i: nat :: i < j ==>
      GroupFor(body, w, body.blocks[u].instrs[i], w.blocks[u].code[i]) &&
        Shielded(body, p, w, u, i, w.blocks[u].code[i])
  }

  lemma GroupStays(body: Body, w: Work, w': Work, v: nat, g: Group)
    requires GroupFor(body, w, v, g) && Extends(w, w')
    ensures GroupFor(body, w', v, g)
  {
    match body.lowering.forms[v] {
      case Literal(_, _) =>
      case Same(demand) =>
        OnePlacedStays(body, w, w', body.operands[v][0], g.placements[0]);
        OneFormedStays(body, w, w', body.operands[v][0], demand, g.placements[0]);
      case Computed(demands, _, _) =>
        PlacedStays(body, w, w', body.operands[v], g.placements);
        FormedStays(body, w, w', body.operands[v], demands, g.placements);
    }
  }

  lemma CodeStays(body: Body, p: Plan, w: Work, w': Work, u: nat, j: nat)
    requires u < |w.blocks| && u < |p.nodes| && CodeFor(body, p, w, u, j) && Extends(w, w')
    ensures CodeFor(body, p, w', u, j)
  {
    assert BlockGrows(w.blocks[u], w'.blocks[u]);
    forall i: nat | i < j
      ensures GroupFor(body, w', body.blocks[u].instrs[i], w'.blocks[u].code[i]) &&
        Shielded(body, p, w', u, i, w'.blocks[u].code[i])
    {
      assert w'.blocks[u].code[i] == w.blocks[u].code[i];
      GroupStays(body, w, w', body.blocks[u].instrs[i], w.blocks[u].code[i]);
      ShieldStays(body, p, w, w', u, i, w.blocks[u].code[i]);
    }
  }

  /** Everything block `b` may read before its own instructions has a slot. */
  ghost predicate ReadyFor(body: Body, w: Work, b: nat)
    requires b < |body.blocks|
  {
    forall v :: (v in body.blocks[b].params || FromAbove(body, b, v)) && Yielding(body, v) ==> v in w.slots
  }

  /** No instruction of `b` has been emitted. */
  ghost predicate Untouched(body: Body, computed: set<nat>, b: nat)
    requires b < |body.blocks|
  {
    forall v :: v in body.blocks[b].instrs ==> v !in computed
  }

  lemma InstructionIsNew(body: Body, w: Work, fixed: set<nat>, computed: set<nat>, b: nat, j: nat)
    requires ValidSsa(body) && b < |body.blocks| && j < |body.blocks[b].instrs| && Untouched(body, computed, b)
    requires SlotsKnown(body, w, fixed, computed + Members(body.blocks[b].instrs[..j]))
    ensures body.blocks[b].instrs[j] !in w.slots
  {
    var block := body.blocks[b];
    var v := block.instrs[j];
    assert Defines(body, b, v);
    assert Distinct(block.params + block.instrs);
    DistinctParts(block.params, block.instrs);
    DistinctPlaces(block.instrs);
    assert v !in block.params && v !in block.instrs[..j];
    assert v in body.lowering.forms;
    assert forall m: nat :: m < |body.blocks| ==> v !in body.blocks[m].params;
  }

  /** What is available at the `j`-th instruction has a slot once the earlier ones are emitted. */
  lemma AvailableHave(body: Body, p: Plan, w: Work, w': Work, fixed: set<nat>, computed: set<nat>, b: nat, j: nat)
    requires b < |body.blocks| <= |p.nodes| && j <= |body.blocks[b].instrs| && ReadyFor(body, w, b) && Extends(w, w')
    requires SlotsKnown(body, w', fixed, computed + Members(body.blocks[b].instrs[..j]))
    ensures LiveHave(body, p, w', b, j)
  {
    forall v | LiveAt(body, p, b, j, v) && Yielding(body, v) ensures v in w'.slots {
      if v in body.blocks[b].instrs[..j] { assert v in Members(body.blocks[b].instrs[..j]); }
    }
  }

  lemma AllAvailableHave(body: Body, p: Plan, w: Work, b: nat, j: nat, values: seq<nat>)
    requires b < |body.blocks| <= |p.nodes| && j <= |body.blocks[b].instrs| && LiveHave(body, p, w, b, j) &&
      AllAvailable(body, b, j, values)
    ensures AllIn(w.slots, values)
  {
    forall i | 0 <= i < |values| ensures values[i] in w.slots {
      assert LiveAt(body, p, b, j, values[i]);
    }
  }

  /** One step of a block's code: the invariant stays, one group joins. */
  ghost predicate Stepped(body: Body, p: Plan, w: Work, w': Work, fixed: set<nat>, recorded: set<(nat, nat)>,
      computed: set<nat>, u: nat, g: Group)
    requires PlanIndexes(body, p)
  {
    && Inv(body, p, w', fixed, recorded, computed) && Extends(w, w')
    && u < |w.blocks| && OnlyCodeOf(w, w', u) && w'.blocks[u].code == w.blocks[u].code + [g]
  }

  /** An instruction's group and its result join: `id` is the result's, when there is one. */
  lemma PutInstruction(body: Body, p: Plan, w: Work, fixed: set<nat>, recorded: set<(nat, nat)>, computed: set<nat>,
                       u: nat, v: nat, slots: map<nat, nat>, after: Cursor, g: Group)
    requires PlanIndexes(body, p) && Inv(body, p, w, fixed, recorded, computed) && u < |p.nodes| && v !in w.slots
    requires Within(w.at, after) && PoolBelow(after)
    requires Yielding(body, v) ==> v in slots && slots[v] < after.next && slots == w.slots[v := slots[v]]
    requires !Yielding(body, v) ==> slots == w.slots
    ensures Stepped(body, p, w, Append(w.(slots := slots, at := after), u, g), fixed, recorded, computed + {v}, u, g)
  {
    var w' := Append(w.(slots := slots, at := after), u, g);
    forall m: nat | m < |w.blocks| ensures BlockGrows(w.blocks[m], w'.blocks[m]) {}
    assert Quiet(w, w');
    forall x ensures x in w'.slots <==> Known(body, fixed, computed + {v}, x) {
      assert x in w.slots <==> Known(body, fixed, computed, x);
    }
    QuietKeeps(body, p, w, w', fixed, recorded, computed, computed + {v});
  }

  /** One instruction whose operands have slots: it is emitted, and its group is its form's. */
  ghost predicate InstructionDone(body: Body, p: Plan, w: Work, fixed: set<nat>, recorded: set<(nat, nat)>,
      computed: set<nat>, u: nat, j: nat, v: nat, r: Result<Work, EmitRefusal>)
    requires PlanIndexes(body, p)
  {
    r.Success? && u < |w.blocks| == |r.value.blocks| && u < |p.nodes| &&
      |w.blocks[u].code| < |r.value.blocks[u].code| &&
    var g := r.value.blocks[u].code[|w.blocks[u].code|];
    && Stepped(body, p, w, r.value, fixed, recorded, computed + {v}, u, g)
    && GroupFor(body, r.value, v, g) && Shielded(body, p, r.value, u, j, g)
  }

  /** The state an instruction is emitted in. */
  ghost predicate InstructionReady(body: Body, p: Plan, w: Work, fixed: set<nat>, recorded: set<(nat, nat)>,
      computed: set<nat>, u: nat, j: nat, v: nat)
    requires PlanIndexes(body, p)
  {
    && Inv(body, p, w, fixed, recorded, computed) && u < |p.nodes| && v !in w.slots
    && v in body.lowering.forms && v in body.operands && AllIn(w.slots, body.operands[v])
    && (body.lowering.forms[v].Same? ==> body.operands[v] != [])
    && LiveHave(body, p, w, u, j)
  }

  lemma LiteralKeeps(body: Body, p: Plan, w: Work, fixed: set<nat>, recorded: set<(nat, nat)>, computed: set<nat>,
      u: nat, j: nat, v: nat)
    requires PlanIndexes(body, p) && InstructionReady(body, p, w, fixed, recorded, computed, u, j, v) &&
      body.lowering.forms[v].Literal?
    ensures InstructionDone(body, p, w, fixed, recorded, computed, u, j, v, Instruction(body, w, u, v))
  {
    var form := body.lowering.forms[v];
    AskGrows(w.at, (form.kind, form.value));
    var (id, after) := Ask(w.at, (form.kind, form.value));
    var g := Group([], [], Still);
    PutInstruction(body, p, w, fixed, recorded, computed, u, v, w.slots[v := id], after, g);
    var w' := Append(w.(slots := w.slots[v := id], at := after), u, g);
    NewGroupIsShielded(body, p, w, w', u, j, g);
  }

  lemma SameKeeps(body: Body, p: Plan, w: Work, fixed: set<nat>, recorded: set<(nat, nat)>, computed: set<nat>, u: nat,
      j: nat, v: nat)
    requires PlanIndexes(body, p) && InstructionReady(body, p, w, fixed, recorded, computed, u, j, v) &&
      body.lowering.forms[v].Same?
    ensures InstructionDone(body, p, w, fixed, recorded, computed, u, j, v, Instruction(body, w, u, v))
  {
    var o := Operands(body, w.slots, body.operands[v])[0];
    PlaceGrows(w.at, o, body.lowering.forms[v].demand);
    var (placed, after) := Place(w.at, o, body.lowering.forms[v].demand);
    var g := Group([placed], [], Still);
    PlaceYields(w.at, o, body.lowering.forms[v].demand);
    PutInstruction(body, p, w, fixed, recorded, computed, u, v, w.slots[v := Yield(placed)], after, g);
    var w' := Append(w.(slots := w.slots[v := Yield(placed)], at := after), u, g);
    NewGroupIsShielded(body, p, w, w', u, j, g);
    PlacedOne(body, w, w', body.operands[v][0], body.lowering.forms[v].demand, placed);
  }

  lemma PlaceYields(c: Cursor, o: Operand, d: Demand)
    requires PoolBelow(c) && o.id < c.next
    ensures var (p, after) := Place(c, o, d); Yield(p) < after.next
  {
  }

  lemma PlacedOne(body: Body, w: Work, w': Work, v: nat, d: Demand, p: Placement)
    requires v in w.slots && v in w'.slots && w'.slots[v] == w.slots[v]
    requires PlacesFrom(w.at, w'.at, Operand(w.slots[v], Constant(body, v)), p)
    requires PlacesAs(w'.at, Operand(w.slots[v], Constant(body, v)), d, p)
    ensures PlacedFrom(body, w', v, p) && Formed(body, w', v, d, p)
  {
  }

  lemma ComputedIs(body: Body, w: Work, u: nat, v: nat)
    requires u < |w.blocks| && v in body.lowering.forms && body.lowering.forms[v].Computed? && v in body.operands &&
      AllIn(w.slots, body.operands[v])
    ensures var form, os := body.lowering.forms[v], Operands(body, w.slots, body.operands[v]);
      var (ps, placed) := PlaceAll(w.at, os, form.demands);
      var own := FreshIds(placed.next, form.own);
      Instruction(body, w, u, v) == Success(
        Append(w.(slots := Emission.Result(w, v, own, form.result), at := placed.(next := placed.next + form.own)), u,
          Group(ps, own, Act(v, form.result))))
  {
  }

  ghost predicate OperandsPlaced(body: Body, w: Work, v: nat, demands: seq<Demand>, os: seq<Operand>,
      ps: seq<Placement>, placed: Cursor)
    requires v in body.operands && AllIn(w.slots, body.operands[v])
  {
    && os == Operands(body, w.slots, body.operands[v]) && |ps| == |os| && Within(w.at, placed) && PoolBelow(placed)
    && (forall i :: 0 <= i < |ps| ==> PlacesFrom(w.at, placed, os[i], ps[i]))
    && AllPlacesAs(placed, os, demands, ps)
  }

  lemma ReadyPlaces(body: Body, w: Work, v: nat, demands: seq<Demand>)
    requires v in body.operands && AllIn(w.slots, body.operands[v]) && PoolBelow(w.at)
    ensures var os := Operands(body, w.slots, body.operands[v]); var (ps, placed) := PlaceAll(w.at, os, demands);
      OperandsPlaced(body, w, v, demands, os, ps, placed)
  {
    PlaceAllGrows(w.at, Operands(body, w.slots, body.operands[v]), demands);
  }

  /** A computation's group over operands already placed. */
  lemma ComputedDone(body: Body, p: Plan, w: Work, fixed: set<nat>, recorded: set<(nat, nat)>, computed: set<nat>,
      u: nat, j: nat, v: nat, os: seq<Operand>, ps: seq<Placement>, placed: Cursor)
    requires PlanIndexes(body, p) && InstructionReady(body, p, w, fixed, recorded, computed, u, j, v) &&
      body.lowering.forms[v].Computed?
    requires OperandsPlaced(body, w, v, body.lowering.forms[v].demands, os, ps, placed)
    ensures u < |w.blocks|
    ensures var form := body.lowering.forms[v]; var own := FreshIds(placed.next, form.own);
      InstructionDone(body, p, w, fixed, recorded, computed, u, j, v, Success(
        Append(w.(slots := Emission.Result(w, v, own, form.result), at := placed.(next := placed.next + form.own)), u,
          Group(ps, own, Act(v, form.result)))))
  {
    var form := body.lowering.forms[v];
    var own := FreshIds(placed.next, form.own);
    var after := placed.(next := placed.next + form.own);
    var g := Group(ps, own, Act(v, form.result));
    var slots := Emission.Result(w, v, own, form.result);
    PutInstruction(body, p, w, fixed, recorded, computed, u, v, slots, after, g);
    var w' := Append(w.(slots := slots, at := after), u, g);
    ComputedGroup(body, p, w, w', u, j, v, os, placed, ps);
  }

  lemma ComputedKeeps(body: Body, p: Plan, w: Work, fixed: set<nat>, recorded: set<(nat, nat)>, computed: set<nat>,
      u: nat, j: nat, v: nat)
    requires PlanIndexes(body, p) && InstructionReady(body, p, w, fixed, recorded, computed, u, j, v) &&
      body.lowering.forms[v].Computed?
    ensures InstructionDone(body, p, w, fixed, recorded, computed, u, j, v, Instruction(body, w, u, v))
  {
    var form := body.lowering.forms[v];
    var os := Operands(body, w.slots, body.operands[v]);
    ReadyPlaces(body, w, v, form.demands);
    var (ps, placed) := PlaceAll(w.at, os, form.demands);
    ComputedDone(body, p, w, fixed, recorded, computed, u, j, v, os, ps, placed);
    ComputedIs(body, w, u, v);
  }

  lemma ComputedGroup(body: Body, p: Plan, w: Work, w': Work, u: nat, j: nat, v: nat, os: seq<Operand>, placed: Cursor,
      ps: seq<Placement>)
    requires u < |p.nodes| && SlotsBelow(w) && LiveHave(body, p, w, u, j) && Extends(w, w')
    requires v in body.lowering.forms && body.lowering.forms[v].Computed? && v in body.operands &&
      AllIn(w.slots, body.operands[v])
    requires os == Operands(body, w.slots, body.operands[v]) && |ps| == |os| && Within(w.at, placed) &&
      Within(placed, w'.at)
    requires (forall i :: 0 <= i < |ps| ==> PlacesFrom(w.at, placed, os[i], ps[i])) &&
      AllPlacesAs(placed, os, body.lowering.forms[v].demands, ps)
    requires var form := body.lowering.forms[v];
      w'.slots == Emission.Result(w, v, FreshIds(placed.next, form.own), form.result)
    ensures var form := body.lowering.forms[v];
      var g := Group(ps, FreshIds(placed.next, form.own), Act(v, form.result));
      GroupFor(body, w', v, g) && Shielded(body, p, w', u, j, g)
  {
    var form := body.lowering.forms[v];
    var g := Group(ps, FreshIds(placed.next, form.own), Act(v, form.result));
    forall i | 0 <= i < |ps| ensures PlacesFrom(w.at, w'.at, os[i], ps[i]) {
      PlacesFromStays(w.at, placed, w'.at, os[i], ps[i]);
    }
    PlacesValues(body, w, w', body.operands[v], w.at, ps);
    PlacesAsStays(placed, w'.at, os, form.demands, ps);
    FormsValues(body, w, w', body.operands[v], form.demands, ps);
    NewGroupIsShielded(body, p, w, w', u, j, g);
  }

  lemma InstructionKeeps(body: Body, p: Plan, w: Work, fixed: set<nat>, recorded: set<(nat, nat)>, computed: set<nat>,
      u: nat, j: nat, v: nat)
    requires PlanIndexes(body, p) && InstructionReady(body, p, w, fixed, recorded, computed, u, j, v)
    ensures InstructionDone(body, p, w, fixed, recorded, computed, u, j, v, Instruction(body, w, u, v))
  {
    match body.lowering.forms[v] {
      case Literal(_, _) => LiteralKeeps(body, p, w, fixed, recorded, computed, u, j, v);
      case Same(_) => SameKeeps(body, p, w, fixed, recorded, computed, u, j, v);
      case Computed(_, _, _) => ComputedKeeps(body, p, w, fixed, recorded, computed, u, j, v);
    }
  }

  /** The first `j` instructions of a block are emitted. */
  ghost predicate InstructionsDone(body: Body, p: Plan, w: Work, fixed: set<nat>, recorded: set<(nat, nat)>,
      computed: set<nat>, u: nat, j: nat, r: Result<Work, EmitRefusal>)
    requires PlanIndexes(body, p) && u < |body.blocks| && j <= |body.blocks[u].instrs|
  {
    && r.Success? && |w.blocks| == |p.nodes|
    && Inv(body, p, r.value, fixed, recorded, computed + Members(body.blocks[u].instrs[..j]))
    && Extends(w, r.value) && OnlyCodeOf(w, r.value, u)
    && |r.value.blocks[u].code| == j && CodeFor(body, p, r.value, u, j)
  }

  lemma InstructionIsReady(body: Body, p: Plan, w: Work, mid: Work, fixed: set<nat>, recorded: set<(nat, nat)>,
      computed: set<nat>, u: nat, j: nat)
    requires ValidSsa(body) && PlanIndexes(body, p) && u < |body.blocks| && j < |body.blocks[u].instrs|
    requires ReadyFor(body, w, u) && Untouched(body, computed, u)
    requires Inv(body, p, mid, fixed, recorded, computed + Members(body.blocks[u].instrs[..j])) && Extends(w, mid)
    ensures InstructionReady(body, p, mid, fixed, recorded, computed + Members(body.blocks[u].instrs[..j]), u, j,
      body.blocks[u].instrs[j])
  {
    var v := body.blocks[u].instrs[j];
    InstructionIsNew(body, mid, fixed, computed, u, j);
    AvailableHave(body, p, w, mid, fixed, computed, u, j);
    AllAvailableHave(body, p, mid, u, j, body.operands[v]);
  }

  lemma MembersSnoc(computed: set<nat>, s: seq<nat>, v: nat)
    ensures computed + Members(s) + {v} == computed + Members(s + [v])
  {
  }

  lemma SnocSlice(s: seq<nat>, j: nat)
    requires j < |s|
    ensures s[..j + 1] == s[..j] + [s[j]]
  {
  }

  lemma OneMoreInstruction(body: Body, w: Work, u: nat, instrs: seq<nat>, j: nat)
    requires j < |instrs| && u < |w.blocks| && Instructions(body, w, u, instrs[..j]).Success?
    ensures Instructions(body, w, u, instrs[..j + 1]) ==
      Instruction(body, Instructions(body, w, u, instrs[..j]).value, u, instrs[j])
  {
    assert instrs[..j + 1][..j] == instrs[..j];
  }

  /** No instruction of a well-formed body lacks an operand's id, and each leaves the group of its form. */
  lemma {:induction false} InstructionsKeep(body: Body, p: Plan, w: Work, fixed: set<nat>, recorded: set<(nat, nat)>,
      computed: set<nat>, u: nat, j: nat)
    requires ValidSsa(body) && PlanLinks(body, p) && Inv(body, p, w, fixed, recorded, computed)
    requires u < |body.blocks| && j <= |body.blocks[u].instrs| && ReadyFor(body, w, u) && Untouched(body, computed, u)
    requires w.blocks[u].code == []
    ensures InstructionsDone(body, p, w, fixed, recorded, computed, u, j,
      Instructions(body, w, u, body.blocks[u].instrs[..j]))
    decreases j
  {
    if j == 0 {
      NothingDone(body, p, w, fixed, recorded, computed, u);
    } else {
      InstructionsKeep(body, p, w, fixed, recorded, computed, u, j - 1);
      NextInstructionKeeps(body, p, w, fixed, recorded, computed, u, j - 1);
    }
  }

  lemma NothingDone(body: Body, p: Plan, w: Work, fixed: set<nat>, recorded: set<(nat, nat)>, computed: set<nat>,
      u: nat)
    requires PlanIndexes(body, p) && Inv(body, p, w, fixed, recorded, computed)
    requires u < |body.blocks| && |w.blocks| == |p.nodes| && w.blocks[u].code == []
    ensures InstructionsDone(body, p, w, fixed, recorded, computed, u, 0,
      Instructions(body, w, u, body.blocks[u].instrs[..0]))
  {
    assert computed + Members(body.blocks[u].instrs[..0]) == computed;
  }

  lemma NextInstructionKeeps(body: Body, p: Plan, w: Work, fixed: set<nat>, recorded: set<(nat, nat)>,
      computed: set<nat>, u: nat, j: nat)
    requires ValidSsa(body) && PlanIndexes(body, p) && u < |body.blocks| && j < |body.blocks[u].instrs|
    requires ReadyFor(body, w, u) && Untouched(body, computed, u) && u < |w.blocks|
    requires InstructionsDone(body, p, w, fixed, recorded, computed, u, j,
      Instructions(body, w, u, body.blocks[u].instrs[..j]))
    ensures InstructionsDone(body, p, w, fixed, recorded, computed, u, j + 1,
      Instructions(body, w, u, body.blocks[u].instrs[..j + 1]))
  {
    var instrs := body.blocks[u].instrs;
    var mid := Instructions(body, w, u, instrs[..j]).value;
    InstructionIsReady(body, p, w, mid, fixed, recorded, computed, u, j);
    InstructionKeeps(body, p, mid, fixed, recorded, computed + Members(instrs[..j]), u, j, instrs[j]);
    OneMoreInstruction(body, w, u, instrs, j);
    SnocSlice(instrs, j);
    MembersSnoc(computed, instrs[..j], instrs[j]);
    OneMoreDone(body, p, w, mid, fixed, recorded, computed, u, j, Instruction(body, mid, u, instrs[j]));
  }

  lemma OneMoreDone(body: Body, p: Plan, w: Work, mid: Work, fixed: set<nat>, recorded: set<(nat, nat)>,
      computed: set<nat>, u: nat, j: nat, r: Result<Work, EmitRefusal>)
    requires PlanIndexes(body, p) && u < |body.blocks| && j < |body.blocks[u].instrs|
    requires InstructionsDone(body, p, w, fixed, recorded, computed, u, j, Success(mid))
    requires InstructionDone(body, p, mid, fixed, recorded, computed + Members(body.blocks[u].instrs[..j]), u, j,
      body.blocks[u].instrs[j], r)
    requires computed + Members(body.blocks[u].instrs[..j]) + {body.blocks[u].instrs[j]} ==
      computed + Members(body.blocks[u].instrs[..j + 1])
    ensures InstructionsDone(body, p, w, fixed, recorded, computed, u, j + 1, r)
  {
    ExtendsTransitive(w, mid, r.value);
    CodeStays(body, p, mid, r.value, u, j);
  }

  // ---- the branch ----

  /** Whether a block's end reads a value beside what it passes. */
  predicate HasTest(body: Body, u: nat) {
    u < |body.blocks| &&
      (body.blocks[u].terminator.CondBr? || (body.blocks[u].terminator.Return? && !body.lowering.launched))
  }

  /** The value a block's end tests or returns. */
  function TestOf(t: Terminator): nat {
    match t
    case Return(values) => if values == [] then 0 else values[0]
    case Br(_) => 0
    case CondBr(cond, _, _) => cond
  }

  /** The group that brings the tested or returned value to its form. */
  ghost predicate TestFor(body: Body, p: Plan, w: Work, u: nat)
    requires u < |w.blocks| && u < |body.blocks| && u < |p.nodes|
  {
    InstructionCount(body, u) < |w.blocks[u].code| &&
    var g := w.blocks[u].code[InstructionCount(body, u)];
    && g.own == [] && g.role == Still && |g.placements| == 1
    && PlacedFrom(body, w, TestOf(body.blocks[u].terminator), g.placements[0])
    && Formed(body, w, TestOf(body.blocks[u].terminator), TestDemand(body, u), g.placements[0])
    && Shielded(body, p, w, u, InstructionCount(body, u), g)
  }

  lemma TestStays(body: Body, p: Plan, w: Work, w': Work, u: nat)
    requires u < |w.blocks| && u < |body.blocks| && u < |p.nodes| && TestFor(body, p, w, u) && Extends(w, w')
    ensures TestFor(body, p, w', u)
  {
    assert BlockGrows(w.blocks[u], w'.blocks[u]);
    var g := w.blocks[u].code[InstructionCount(body, u)];
    assert w'.blocks[u].code[InstructionCount(body, u)] == g;
    OnePlacedStays(body, w, w', TestOf(body.blocks[u].terminator), g.placements[0]);
    OneFormedStays(body, w, w', TestOf(body.blocks[u].terminator), TestDemand(body, u), g.placements[0]);
    ShieldStays(body, p, w, w', u, InstructionCount(body, u), g);
  }

  /** Everything the branch reads or passes, and everything above what it goes to, has an id. */
  ghost predicate EndReady(body: Body, p: Plan, w: Work, u: nat)
    requires PlanIndexes(body, p) && u < |body.blocks|
  {
    && AllIn(w.slots, Uses(body.blocks[u].terminator))
    && LiveHave(body, p, w, u, InstructionCount(body, u))
    && (forall k: nat :: k < |p.targets[u]| ==>
        Destination(p.nodes[p.targets[u][k]]) < |body.blocks| &&
          AboveHave(body, w, Destination(p.nodes[p.targets[u][k]])))
  }

  lemma EndStaysReady(body: Body, p: Plan, w: Work, w': Work, u: nat)
    requires PlanIndexes(body, p) && u < |body.blocks| && EndReady(body, p, w, u) && Extends(w, w')
    ensures EndReady(body, p, w', u)
  {
  }

  lemma BranchArgsAreUses(body: Body, p: Plan, u: nat, k: nat)
    requires PlanIndexes(body, p) && u < |body.blocks| && k < TargetCount(body, p, u)
    ensures forall v :: v in BranchOf(body, p, u, k).args ==> v in Uses(body.blocks[u].terminator)
  {
  }

  lemma EndGivesArgs(body: Body, p: Plan, w: Work, u: nat, k: nat)
    requires PlanIndexes(body, p) && u < |body.blocks| && k < TargetCount(body, p, u) && EndReady(body, p, w, u)
    ensures AllIn(w.slots, BranchOf(body, p, u, k).args)
  {
    BranchArgsAreUses(body, p, u, k);
    var uses := Uses(body.blocks[u].terminator);
    assert forall v :: v in uses ==> v in w.slots;
  }

  /** Bringing the tested value to its form. */
  lemma TestKeeps(body: Body, p: Plan, w: Work, fixed: set<nat>, recorded: set<(nat, nat)>, computed: set<nat>, u: nat,
      v: nat)
    requires PlanLinks(body, p) && Inv(body, p, w, fixed, recorded, computed)
    requires u < |body.blocks| && EndReady(body, p, w, u) && v == TestOf(body.blocks[u].terminator) && v in w.slots
    requires |w.blocks[u].code| == InstructionCount(body, u)
    ensures var w' := Test(body, w, u, v);
      Stepped(body, p, w, w', fixed, recorded, computed, u, w'.blocks[u].code[|w.blocks[u].code|]) &&
        TestFor(body, p, w', u) && w'.left == w.left
  {
    var o := Operand(w.slots[v], Constant(body, v));
    PlaceGrows(w.at, o, Tested(body, u));
    var (placed, after) := Place(w.at, o, Tested(body, u));
    var g := Group([placed], [], Still);
    var w' := Append(w.(at := after), u, g);
    AppendIsQuiet(w, after, u, g);
    QuietKeeps(body, p, w, w', fixed, recorded, computed, computed);
    PlacedOne(body, w, w', v, Tested(body, u), placed);
    NewGroupIsShielded(body, p, w, w', u, InstructionCount(body, u), g);
  }

  ghost function NodeEdges(p: Plan, u: nat): set<(nat, nat)>
    requires u < |p.targets|
  {
    if |p.targets[u]| == 0 then {} else if |p.targets[u]| == 1 then {(u, 0)} else {(u, 0), (u, 1)}
  }

  ghost function NodeTargets(p: Plan, u: nat): set<nat>
    requires u < |p.targets|
  {
    if |p.targets[u]| == 0 then {}
    else if |p.targets[u]| == 1 then {p.targets[u][0]} else {p.targets[u][0], p.targets[u][1]}
  }

  /** A step succeeded, kept the invariant, only added to what was there, and left `count` groups in its node. */
  ghost predicate Kept(body: Body, p: Plan, w: Work, fixed: set<nat>, recorded: set<(nat, nat)>, computed: set<nat>,
      u: nat, count: nat, r: Result<Work, EmitRefusal>)
    requires PlanIndexes(body, p)
  {
    && r.Success? && Inv(body, p, r.value, fixed, recorded, computed) && Extends(w, r.value)
    && OnlyCodeOf(w, r.value, u) && u < |p.nodes| && |r.value.blocks[u].code| == count
  }

  /** Recording one branch whose arguments have slots. */
  lemma RecordBranchKeeps(body: Body, p: Plan, w: Work, fixed: set<nat>, recorded: set<(nat, nat)>, computed: set<nat>,
      u: nat, k: nat)
    requires ValidSsa(body) && PlanLinks(body, p) && Inv(body, p, w, fixed, recorded, computed) &&
      AreInstructions(body, computed)
    requires u < |body.blocks| && k < |p.targets[u]| && EndReady(body, p, w, u) && (u, k) !in recorded
    requires |w.blocks[u].code| == PassAt(body, u) + k
    ensures Kept(body, p, w, fixed + {p.targets[u][k]}, recorded + {(u, k)}, computed, u, PassAt(body, u) + k + 1,
      RecordBranch(body, p, w, u, k))
    ensures k == 0 && |p.targets[u]| == 2 ==>
      Kept(body, p, w, fixed + {p.targets[u][k]}, recorded + {(u, k)}, computed, u, PassAt(body, u) + 1,
      Record(body, p, w, u, 0, Operands(body, w.slots, BranchOf(body, p, u, 0).args)))
  {
    assert |p.targets[u]| == TargetCount(body, p, u);
    EndGivesArgs(body, p, w, u, k);
    RecordKeeps(body, p, w, fixed, recorded, computed, u, k, Operands(body, w.slots, BranchOf(body, p, u, k).args));
  }

  lemma BothEdges(p: Plan, fixed: set<nat>, recorded: set<(nat, nat)>, u: nat)
    requires u < |p.targets| && |p.targets[u]| == 2
    ensures fixed + {p.targets[u][0]} + {p.targets[u][1]} == fixed + NodeTargets(p, u)
    ensures recorded + {(u, 0)} + {(u, 1)} == recorded + NodeEdges(p, u)
    ensures (u, 1) !in recorded ==> (u, 1) !in recorded + {(u, 0)}
  {
  }

  lemma KeptTransitive(body: Body, p: Plan, w: Work, first: Work, fixed: set<nat>, recorded: set<(nat, nat)>,
      computed: set<nat>, u: nat, count: nat, r: Result<Work, EmitRefusal>)
    requires PlanIndexes(body, p) && Extends(w, first) && OnlyCodeOf(w, first, u) &&
      Kept(body, p, first, fixed, recorded, computed, u, count, r)
    ensures Kept(body, p, w, fixed, recorded, computed, u, count, r)
  {
    ExtendsTransitive(w, first, r.value);
  }

  /** Both edges of a two-way branch, one after the other. */
  lemma RecordBothKeep(body: Body, p: Plan, w: Work, fixed: set<nat>, recorded: set<(nat, nat)>, computed: set<nat>,
      u: nat)
    requires ValidSsa(body) && PlanLinks(body, p) && Inv(body, p, w, fixed, recorded, computed) &&
      AreInstructions(body, computed)
    requires u < |body.blocks| && |p.targets[u]| == 2 && EndReady(body, p, w, u)
    requires (u, 0) !in recorded && (u, 1) !in recorded && |w.blocks[u].code| == PassAt(body, u)
    ensures RecordBranch(body, p, w, u, 0).Success? && Extends(w, RecordBranch(body, p, w, u, 0).value)
    ensures Kept(body, p, w, fixed + NodeTargets(p, u), recorded + NodeEdges(p, u), computed, u, PassAt(body, u) + 2,
      RecordBranch(body, p, RecordBranch(body, p, w, u, 0).value, u, 1))
  {
    RecordBranchKeeps(body, p, w, fixed, recorded, computed, u, 0);
    BothEdges(p, fixed, recorded, u);
    ThenSecond(body, p, w, RecordBranch(body, p, w, u, 0), fixed + {p.targets[u][0]}, recorded + {(u, 0)}, computed, u,
      fixed + NodeTargets(p, u), recorded + NodeEdges(p, u));
  }

  lemma ThenSecond(body: Body, p: Plan, w: Work, r: Result<Work, EmitRefusal>, fixed: set<nat>,
      recorded: set<(nat, nat)>, computed: set<nat>, u: nat, fixed': set<nat>, recorded': set<(nat, nat)>)
    requires ValidSsa(body) && PlanLinks(body, p) && AreInstructions(body, computed)
    requires u < |body.blocks| && |p.targets[u]| == 2 && EndReady(body, p, w, u) && (u, 1) !in recorded
    requires Kept(body, p, w, fixed, recorded, computed, u, PassAt(body, u) + 1, r)
    requires fixed' == fixed + {p.targets[u][1]} && recorded' == recorded + {(u, 1)}
    ensures Kept(body, p, w, fixed', recorded', computed, u, PassAt(body, u) + 2, RecordBranch(body, p, r.value, u, 1))
  {
    EndStaysReady(body, p, w, r.value, u);
    RecordBranchKeeps(body, p, r.value, fixed, recorded, computed, u, 1);
    KeptTransitive(body, p, w, r.value, fixed', recorded', computed, u, PassAt(body, u) + 2,
      RecordBranch(body, p, r.value, u, 1));
  }

  /** How many groups a node has when it is closed. */
  function GroupCount(body: Body, p: Plan, u: nat): nat
    requires u < |p.targets|
  {
    if u < |body.blocks| && body.blocks[u].terminator.Return? then
      InstructionCount(body, u) + if body.lowering.launched then 0 else 1
    else PassAt(body, u) + |p.targets[u]|
  }

  /** The branch is emitted: every edge filed, the tested value brought to its form. */
  ghost predicate Ended(body: Body, p: Plan, w: Work, fixed: set<nat>, recorded: set<(nat, nat)>, computed: set<nat>,
      u: nat, r: Result<Work, EmitRefusal>)
    requires PlanIndexes(body, p) && u < |body.blocks|
  {
    && Kept(body, p, w, fixed + NodeTargets(p, u), recorded + NodeEdges(p, u), computed, u, GroupCount(body, p, u), r)
    && (HasTest(body, u) ==> TestFor(body, p, r.value, u))
  }

  /** The state a branch is emitted in. */
  ghost predicate EndInv(body: Body, p: Plan, w: Work, fixed: set<nat>, recorded: set<(nat, nat)>, computed: set<nat>,
      u: nat)
    requires PlanIndexes(body, p)
  {
    && Inv(body, p, w, fixed, recorded, computed) && AreInstructions(body, computed)
    && u < |body.blocks| && EndReady(body, p, w, u) && (forall k :: (u, k) !in recorded)
    && |w.blocks[u].code| == InstructionCount(body, u)
  }

  /** The terminator is emitted exactly when it fits, and then every edge is filed. */
  lemma TerminateKeeps(body: Body, p: Plan, w: Work, fixed: set<nat>, recorded: set<(nat, nat)>, computed: set<nat>,
      u: nat)
    requires ValidSsa(body) && PlanLinks(body, p) && EndInv(body, p, w, fixed, recorded, computed, u)
    ensures Terminate(body, p, w, u).Success? <==> TerminatorFits(body.blocks[u].terminator)
    ensures Terminate(body, p, w, u).Success? ==>
      Ended(body, p, w, fixed, recorded, computed, u, Terminate(body, p, w, u))
  {
    match body.blocks[u].terminator {
      case Return(_) => ReturnKeeps(body, p, w, fixed, recorded, computed, u);
      case Br(_) => BranchKeeps(body, p, w, fixed, recorded, computed, u);
      case CondBr(_, _, _) => ChoiceKeeps(body, p, w, fixed, recorded, computed, u);
    }
  }

  /** A terminator that does not fit is refused for what is wrong with it. */
  lemma TerminateRefuses(body: Body, p: Plan, w: Work, u: nat)
    requires PlanLinks(body, p) && u < |body.blocks| && |w.blocks| == |p.nodes| && EndReady(body, p, w, u)
    requires !TerminatorFits(body.blocks[u].terminator)
    ensures Terminate(body, p, w, u).Failure? && Misfit(body, u, Terminate(body, p, w, u).error)
  {
    var t := body.blocks[u].terminator;
    if t.CondBr? { assert t.cond == Uses(t)[0]; }
  }

  lemma BranchKeeps(body: Body, p: Plan, w: Work, fixed: set<nat>, recorded: set<(nat, nat)>, computed: set<nat>,
      u: nat)
    requires ValidSsa(body) && PlanLinks(body, p) && EndInv(body, p, w, fixed, recorded, computed, u) &&
      body.blocks[u].terminator.Br?
    ensures Ended(body, p, w, fixed, recorded, computed, u, Terminate(body, p, w, u))
  {
    assert |p.targets[u]| == TargetCount(body, p, u) == 1;
    RecordBranchKeeps(body, p, w, fixed, recorded, computed, u, 0);
  }

  lemma ChoiceKeeps(body: Body, p: Plan, w: Work, fixed: set<nat>, recorded: set<(nat, nat)>, computed: set<nat>,
      u: nat)
    requires ValidSsa(body) && PlanLinks(body, p) && EndInv(body, p, w, fixed, recorded, computed, u) &&
      body.blocks[u].terminator.CondBr?
    ensures Terminate(body, p, w, u).Success? <==> TerminatorFits(body.blocks[u].terminator)
    ensures Terminate(body, p, w, u).Success? ==>
      Ended(body, p, w, fixed, recorded, computed, u, Terminate(body, p, w, u))
  {
    var cond := body.blocks[u].terminator.cond;
    assert cond == Uses(body.blocks[u].terminator)[0];
    TestKeeps(body, p, w, fixed, recorded, computed, u, cond);
    var tested := Test(body, w, u, cond);
    EndStaysReady(body, p, w, tested, u);
    assert |p.targets[u]| == TargetCount(body, p, u);
    if |p.targets[u]| == 1 {
      OneWayKeeps(body, p, w, tested, fixed, recorded, computed, u);
    } else {
      TwoWayKeeps(body, p, w, tested, fixed, recorded, computed, u);
    }
  }

  lemma OneWayKeeps(body: Body, p: Plan, w: Work, tested: Work, fixed: set<nat>, recorded: set<(nat, nat)>,
      computed: set<nat>, u: nat)
    requires ValidSsa(body) && PlanLinks(body, p) && EndInv(body, p, w, fixed, recorded, computed, u) &&
      body.blocks[u].terminator.CondBr?
    requires body.blocks[u].terminator.cond in w.slots && tested == Test(body, w, u, body.blocks[u].terminator.cond)
    requires |p.targets[u]| == 1 && EndReady(body, p, tested, u)
    requires Inv(body, p, tested, fixed, recorded, computed) && Extends(w, tested) && OnlyCodeOf(w, tested, u) &&
      TestFor(body, p, tested, u)
    requires |tested.blocks[u].code| == PassAt(body, u)
    ensures Terminate(body, p, w, u).Success? <==> TerminatorFits(body.blocks[u].terminator)
    ensures Terminate(body, p, w, u).Success? ==>
      Ended(body, p, w, fixed, recorded, computed, u, Terminate(body, p, w, u))
  {
    assert |p.targets[u]| == TargetCount(body, p, u);
    RecordBranchKeeps(body, p, tested, fixed, recorded, computed, u, 0);
    AfterTest(body, p, w, tested, fixed + NodeTargets(p, u), recorded + NodeEdges(p, u), computed, u,
      PassAt(body, u) + 1, RecordBranch(body, p, tested, u, 0));
  }

  lemma AfterTest(body: Body, p: Plan, w: Work, tested: Work, fixed: set<nat>, recorded: set<(nat, nat)>,
      computed: set<nat>, u: nat, count: nat, r: Result<Work, EmitRefusal>)
    requires PlanIndexes(body, p) && u < |body.blocks| && |w.blocks| == |p.nodes| && Extends(w, tested) &&
      OnlyCodeOf(w, tested, u) && TestFor(body, p, tested, u)
    requires Kept(body, p, tested, fixed, recorded, computed, u, count, r)
    ensures Kept(body, p, w, fixed, recorded, computed, u, count, r) && TestFor(body, p, r.value, u)
  {
    KeptTransitive(body, p, w, tested, fixed, recorded, computed, u, count, r);
    TestStays(body, p, tested, r.value, u);
  }

  lemma TwoWayKeeps(body: Body, p: Plan, w: Work, tested: Work, fixed: set<nat>, recorded: set<(nat, nat)>,
      computed: set<nat>, u: nat)
    requires ValidSsa(body) && PlanLinks(body, p) && EndInv(body, p, w, fixed, recorded, computed, u) &&
      body.blocks[u].terminator.CondBr?
    requires body.blocks[u].terminator.cond in w.slots && tested == Test(body, w, u, body.blocks[u].terminator.cond)
    requires |p.targets[u]| == 2 && EndReady(body, p, tested, u)
    requires Inv(body, p, tested, fixed, recorded, computed) && Extends(w, tested) && OnlyCodeOf(w, tested, u) &&
      TestFor(body, p, tested, u)
    requires |tested.blocks[u].code| == PassAt(body, u)
    ensures TerminatorFits(body.blocks[u].terminator)
    ensures Ended(body, p, w, fixed, recorded, computed, u, Terminate(body, p, w, u))
  {
    assert |p.targets[u]| == TargetCount(body, p, u);
    RecordBothKeep(body, p, tested, fixed, recorded, computed, u);
    var r := RecordBranch(body, p, RecordBranch(body, p, tested, u, 0).value, u, 1);
    AfterTest(body, p, w, tested, fixed + NodeTargets(p, u), recorded + NodeEdges(p, u), computed, u,
      PassAt(body, u) + 2, r);
    TwoWayTerminates(body, p, w, tested, u);
  }

  /** The loop header's way of recording both edges comes to the same. */
  lemma TwoWayTerminates(body: Body, p: Plan, w: Work, tested: Work, u: nat)
    requires PlanLinks(body, p) && u < |body.blocks| && |w.blocks| == |p.nodes| && body.blocks[u].terminator.CondBr?
    requires body.blocks[u].terminator.cond in w.slots && tested == Test(body, w, u, body.blocks[u].terminator.cond)
    requires TargetCount(body, p, u) == 2 && EndReady(body, p, tested, u)
    requires RecordBranch(body, p, tested, u, 0).Success? && Extends(tested, RecordBranch(body, p, tested, u, 0).value)
    ensures TerminatorFits(body.blocks[u].terminator)
    ensures Terminate(body, p, w, u) == RecordBranch(body, p, RecordBranch(body, p, tested, u, 0).value, u, 1)
  {
    EndGivesArgs(body, p, tested, u, 0);
    EndGivesArgs(body, p, tested, u, 1);
    var first := RecordBranch(body, p, tested, u, 0).value;
    OperandsStay(body, tested, first, BranchOf(body, p, u, 1).args);
  }

  lemma OperandsStay(body: Body, w: Work, w': Work, values: seq<nat>)
    requires AllIn(w.slots, values) && Extends(w, w')
    ensures AllIn(w'.slots, values) && Operands(body, w'.slots, values) == Operands(body, w.slots, values)
  {
  }

  lemma ReturnKeeps(body: Body, p: Plan, w: Work, fixed: set<nat>, recorded: set<(nat, nat)>, computed: set<nat>,
      u: nat)
    requires PlanLinks(body, p) && EndInv(body, p, w, fixed, recorded, computed, u) && body.blocks[u].terminator.Return?
    ensures Terminate(body, p, w, u).Success? <==> TerminatorFits(body.blocks[u].terminator)
    ensures Terminate(body, p, w, u).Success? ==>
      Ended(body, p, w, fixed, recorded, computed, u, Terminate(body, p, w, u))
  {
    var values := body.blocks[u].terminator.values;
    assert |p.targets[u]| == TargetCount(body, p, u) == 0;
    assert fixed + {} == fixed && recorded + {} == recorded;
    if |values| == 1 {
      assert values[0] == Uses(body.blocks[u].terminator)[0];
      var counted := w.(left := w.left + 1);
      LeaveKeeps(body, p, w, fixed, recorded, computed);
      EndStaysReady(body, p, w, counted, u);
      if !body.lowering.launched {
        TestKeeps(body, p, counted, fixed, recorded, computed, u, values[0]);
        ExtendsTransitive(w, counted, Test(body, counted, u, values[0]));
      }
    }
  }

  /** Counting a return changes nothing else. */
  lemma LeaveKeeps(body: Body, p: Plan, w: Work, fixed: set<nat>, recorded: set<(nat, nat)>, computed: set<nat>)
    requires PlanLinks(body, p) && Inv(body, p, w, fixed, recorded, computed)
    ensures Inv(body, p, w.(left := w.left + 1), fixed, recorded, computed) && Extends(w, w.(left := w.left + 1))
  {
    QuietKeeps(body, p, w, w.(left := w.left + 1), fixed, recorded, computed, computed);
  }

  // ---- whole nodes ----

  /** A block that has been emitted: its groups, and its branch. */
  ghost predicate ClosedAs(body: Body, p: Plan, w: Work, u: nat)
    requires PlanIndexes(body, p)
  {
    && u < |p.nodes| == |w.blocks|
    && |w.blocks[u].code| == GroupCount(body, p, u)
    && (u < |body.blocks| ==> CodeFor(body, p, w, u, InstructionCount(body, u)))
    && (HasTest(body, u) ==> TestFor(body, p, w, u))
    && w.blocks[u].merge == MergeOf(body, p, u)
    && w.blocks[u].exit == ExitOf(body, p, w.blocks[u].code, u)
  }

  lemma ClosedStays(body: Body, p: Plan, w: Work, w': Work, u: nat)
    requires PlanIndexes(body, p) && ClosedAs(body, p, w, u) && Extends(w, w')
    requires w'.blocks[u].code == w.blocks[u].code && w'.blocks[u].merge == w.blocks[u].merge &&
      w'.blocks[u].exit == w.blocks[u].exit
    ensures ClosedAs(body, p, w', u)
  {
    if u < |body.blocks| { CodeStays(body, p, w, w', u, InstructionCount(body, u)); }
    if HasTest(body, u) { TestStays(body, p, w, w', u); }
  }

  /** A node is closed, the others being as they were. */
  ghost predicate NodeClosed(body: Body, p: Plan, w: Work, u: nat, w': Work)
    requires PlanIndexes(body, p)
  {
    && Extends(w, w')
    && ClosedAs(body, p, w', u)
    && (forall m: nat :: m < |w.blocks| && m != u ==>
        w'.blocks[m].code == w.blocks[m].code && w'.blocks[m].merge == w.blocks[m].merge &&
          w'.blocks[m].exit == w.blocks[m].exit)
  }

  /**
  One emitted node: its edges filed, its targets fixed, its instructions placed, its code closed, the others' kept.
   */
  ghost predicate NodeDone(body: Body, p: Plan, w: Work, fixed: set<nat>, recorded: set<(nat, nat)>, computed: set<nat>,
      u: nat, w': Work)
    requires PlanIndexes(body, p) && u < |p.targets|
  {
    Inv(body, p, w', fixed, recorded, computed) && NodeClosed(body, p, w, u, w')
  }

  lemma CloseIsQuiet(body: Body, p: Plan, w: Work, u: nat)
    requires PlanIndexes(body, p) && u < |p.nodes| == |w.blocks|
    ensures Quiet(w, Close(body, p, w, u)) && Close(body, p, w, u).blocks[u].code == w.blocks[u].code
  {
    forall m: nat | m < |w.blocks| ensures BlockGrows(w.blocks[m], Close(body, p, w, u).blocks[m]) {}
  }

  /** Closing a block whose edges are filed completes its node. */
  lemma CloseCompletes(body: Body, p: Plan, w: Work, ended: Work, fixed: set<nat>, recorded: set<(nat, nat)>,
      computed: set<nat>, u: nat)
    requires PlanIndexes(body, p) && u < |p.nodes| &&
      Kept(body, p, w, fixed, recorded, computed, u, GroupCount(body, p, u), Success(ended))
    requires u < |body.blocks| ==> CodeFor(body, p, ended, u, InstructionCount(body, u))
    requires HasTest(body, u) ==> TestFor(body, p, ended, u)
    ensures NodeDone(body, p, w, fixed, recorded, computed, u, Close(body, p, ended, u))
  {
    var w' := Close(body, p, ended, u);
    CloseIsQuiet(body, p, ended, u);
    QuietKeeps(body, p, ended, w', fixed, recorded, computed, computed);
    if u < |body.blocks| { CodeStays(body, p, ended, w', u, InstructionCount(body, u)); }
    if HasTest(body, u) { TestStays(body, p, ended, w', u); }
    ExtendsTransitive(w, ended, w');
  }

  lemma AddedIsReady(body: Body, p: Plan, w: Work, fixed: set<nat>, recorded: set<(nat, nat)>, computed: set<nat>,
      u: nat)
    requires PlanLinks(body, p) && Inv(body, p, w, fixed, recorded, computed)
    requires |body.blocks| <= u < |p.nodes| && u in fixed && w.blocks[u].code == []
    ensures |p.targets[u]| == 1 && EdgeReady(body, p, w, u, 0, Plainly(w.blocks[u].params))
  {
    assert NodeParams(body, p, w, fixed, u);
    assert |p.targets[u]| == TargetCount(body, p, u) == 1;
    assert AboveHave(body, w, Destination(p.nodes[u]));
  }

  /** An added block passes on the parameters it received. */
  lemma AddedNodeKeeps(body: Body, p: Plan, w: Work, fixed: set<nat>, recorded: set<(nat, nat)>, computed: set<nat>,
      u: nat)
    requires ValidSsa(body) && PlanLinks(body, p) && Inv(body, p, w, fixed, recorded, computed) &&
      AreInstructions(body, computed)
    requires |body.blocks| <= u < |p.nodes| && u in fixed && (u, 0) !in recorded && w.blocks[u].code == []
    ensures |p.targets[u]| == 1 && EmitNode(body, p, w, u).Success?
    ensures NodeDone(body, p, w, fixed + {p.targets[u][0]}, recorded + {(u, 0)}, computed, u,
      EmitNode(body, p, w, u).value)
  {
    AddedIsReady(body, p, w, fixed, recorded, computed, u);
    var os := Plainly(w.blocks[u].params);
    RecordKeeps(body, p, w, fixed, recorded, computed, u, 0, os);
    AddedCloses(body, p, w, Record(body, p, w, u, 0, os), fixed + {p.targets[u][0]}, recorded + {(u, 0)}, computed, u);
  }

  lemma AddedCloses(body: Body, p: Plan, w: Work, r: Result<Work, EmitRefusal>, fixed: set<nat>,
      recorded: set<(nat, nat)>, computed: set<nat>, u: nat)
    requires PlanIndexes(body, p) && |body.blocks| <= u < |p.nodes| && |p.targets[u]| == 1
    requires Kept(body, p, w, fixed, recorded, computed, u, 1, r)
    ensures NodeDone(body, p, w, fixed, recorded, computed, u, Close(body, p, r.value, u))
  {
    CloseCompletes(body, p, w, r.value, fixed, recorded, computed, u);
  }

  lemma MembersAreInstructions(body: Body, computed: set<nat>, u: nat)
    requires AreInstructions(body, computed) && u < |body.blocks|
    ensures AreInstructions(body, computed + Members(body.blocks[u].instrs))
  {
  }

  /**
  After its instructions, what a block's branch rests on has an id: what is above its targets is above it, or its own.
   */
  lemma EndIsReady(body: Body, p: Plan, w: Work, mid: Work, fixed: set<nat>, computed: set<nat>, u: nat)
    requires ValidSsa(body) && PlanLinks(body, p) && u < |body.blocks| && ReadyFor(body, w, u) && Extends(w, mid)
    requires SlotsKnown(body, mid, fixed, computed + Members(body.blocks[u].instrs))
    ensures EndReady(body, p, mid, u)
  {
    var n := |body.blocks[u].instrs|;
    assert body.blocks[u].instrs[..n] == body.blocks[u].instrs;
    AvailableHave(body, p, w, mid, fixed, computed, u, n);
    AllAvailableHave(body, p, mid, u, n, Uses(body.blocks[u].terminator));
    forall k: nat | k < |p.targets[u]| ensures AboveHave(body, mid, Destination(p.nodes[p.targets[u][k]])) {
      var c := Destination(p.nodes[p.targets[u][k]]);
      assert c == BranchOf(body, p, u, k).target;
      forall v | FromAbove(body, c, v) && Yielding(body, v) ensures v in mid.slots {
        AboveTheNext(body, u, c, v);
        assert LiveAt(body, p, u, n, v);
      }
    }
  }

  /** A real block emits exactly when its terminator fits. */
  lemma RealNodeKeeps(body: Body, p: Plan, w: Work, fixed: set<nat>, recorded: set<(nat, nat)>, computed: set<nat>,
      u: nat)
    requires ValidSsa(body) && PlanLinks(body, p) && Inv(body, p, w, fixed, recorded, computed) &&
      AreInstructions(body, computed)
    requires u < |body.blocks| && ReadyFor(body, w, u) && Untouched(body, computed, u) && w.blocks[u].code == [] &&
      forall k :: (u, k) !in recorded
    ensures EmitNode(body, p, w, u).Success? <==> TerminatorFits(body.blocks[u].terminator)
    ensures EmitNode(body, p, w, u).Failure? ==> Misfit(body, u, EmitNode(body, p, w, u).error)
    ensures EmitNode(body, p, w, u).Success? ==>
      NodeDone(body, p, w, fixed + NodeTargets(p, u), recorded + NodeEdges(p, u),
        computed + Members(body.blocks[u].instrs), u, EmitNode(body, p, w, u).value)
  {
    var instrs := body.blocks[u].instrs;
    InstructionsKeep(body, p, w, fixed, recorded, computed, u, |instrs|);
    assert instrs[..|instrs|] == instrs;
    var mid := Instructions(body, w, u, instrs).value;
    EndIsReady(body, p, w, mid, fixed, computed, u);
    MembersAreInstructions(body, computed, u);
    TerminateKeeps(body, p, mid, fixed, recorded, computed + Members(instrs), u);
    if TerminatorFits(body.blocks[u].terminator) {
      RealNodeCloses(body, p, w, mid, Terminate(body, p, mid, u).value, fixed, recorded, computed + Members(instrs), u);
    } else {
      TerminateRefuses(body, p, mid, u);
    }
  }

  lemma RealNodeCloses(body: Body, p: Plan, w: Work, mid: Work, ended: Work, fixed: set<nat>, recorded: set<(nat, nat)>,
      computed: set<nat>, u: nat)
    requires PlanLinks(body, p) && u < |body.blocks| && |w.blocks| == |p.nodes|
    requires Extends(w, mid) && OnlyCodeOf(w, mid, u) && CodeFor(body, p, mid, u, InstructionCount(body, u))
    requires Ended(body, p, mid, fixed, recorded, computed, u, Success(ended))
    ensures NodeDone(body, p, w, fixed + NodeTargets(p, u), recorded + NodeEdges(p, u), computed, u,
      Close(body, p, ended, u))
  {
    CodeStays(body, p, mid, ended, u, InstructionCount(body, u));
    KeptTransitive(body, p, w, mid, fixed + NodeTargets(p, u), recorded + NodeEdges(p, u), computed, u,
      GroupCount(body, p, u), Success(ended));
    CloseCompletes(body, p, w, ended, fixed + NodeTargets(p, u), recorded + NodeEdges(p, u), computed, u);
  }
}
