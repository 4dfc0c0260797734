/**
The ids an emission takes. Every instruction that is written has its result on an id, every
literal is declared on one, and no id is anybody's twice: each comes off the cursor once,
after the cursor the emission started from.
 */
module EmissionIds {
  import opened Options
  import opened Kernel
  import opened Scalars
  import opened Literals
  import opened Structure
  import opened Planner
  import opened Emission
  import opened EmissionInvariant
  import opened EmissionRun

  /**
  What defines an id: a phi of a block, an instruction of a conversion, one of a
  computation, or the declaration of a literal.
   */
  datatype Definer =
    | PhiOf(node: nat, k: nat)
    | StepOf(node: nat, group: nat, placement: nat, i: nat)
    | OwnOf(node: nat, group: nat, i: nat)
    | ConstantOf(key: Key)

  ghost predicate IsDefined(w: Work, d: Definer) {
    match d
    case PhiOf(m, k) => m < |w.blocks| && k < |w.blocks[m].params|
    case StepOf(m, j, a, i) =>
      m < |w.blocks| && j < |w.blocks[m].code| && a < |w.blocks[m].code[j].placements| &&
        i < |w.blocks[m].code[j].placements[a].steps|
    case OwnOf(m, j, i) => m < |w.blocks| && j < |w.blocks[m].code| && i < |w.blocks[m].code[j].own|
    case ConstantOf(key) => key in w.at.pool.ids
  }

  ghost function DefinedId(w: Work, d: Definer): nat
    requires IsDefined(w, d)
  {
    match d
    case PhiOf(m, k) => w.blocks[m].params[k]
    case StepOf(m, j, a, i) => w.blocks[m].code[j].placements[a].steps[i]
    case OwnOf(m, j, i) => w.blocks[m].code[j].own[i]
    case ConstantOf(key) => w.at.pool.ids[key]
  }

  /** No id has two definers, and the cursor is above them all. */
  ghost predicate Unique(w: Work) {
    && (forall d :: IsDefined(w, d) ==> DefinedId(w, d) < w.at.next)
    && (forall d, e :: IsDefined(w, d) && IsDefined(w, e) && DefinedId(w, d) == DefinedId(w, e) ==> d == e)
  }

  /** A definer of `w` that is still there, on the same id. */
  ghost predicate Kept(w: Work, w': Work, d: Definer)
    requires IsDefined(w', d)
  {
    IsDefined(w, d) && DefinedId(w, d) == DefinedId(w', d)
  }

  ghost predicate SoundStays(c: Cursor, after: Cursor) {
    Sound(c) ==> Sound(after)
  }

  lemma SoundLater(c: Cursor, next: nat)
    requires c.next <= next
    ensures SoundStays(c, c.(next := next))
  {
    if Sound(c) {
      var after := c.(next := next);
      forall key | key in c.pool.ids ensures IsDeclared(after.pool, key) { assert IsDeclared(c.pool, key); }
      assert after.pool == c.pool;
    }
  }

  /** Whatever `w'` defines that `w` does not is on ids taken off the cursor between them, each once. */
  ghost predicate Fresh(w: Work, w': Work) {
    && w.at.next <= w'.at.next && w.left <= w'.left && |w.blocks| == |w'.blocks| && SoundStays(w.at, w'.at)
    && (forall d :: IsDefined(w', d) ==> Kept(w, w', d) || w.at.next <= DefinedId(w', d) < w'.at.next)
    && (forall d, e ::
         IsDefined(w', d) && IsDefined(w', e) && !Kept(w, w', d) && !Kept(w, w', e) &&
         DefinedId(w', d) == DefinedId(w', e) ==>
         d == e)
  }

  lemma FreshKeepsUnique(w: Work, w': Work)
    requires Unique(w) && Fresh(w, w')
    ensures Unique(w')
  {
    forall d, e | IsDefined(w', d) && IsDefined(w', e) && DefinedId(w', d) == DefinedId(w', e) ensures d == e {
      assert Kept(w, w', d) <==> Kept(w, w', e);
    }
  }

  lemma FreshTransitive(a: Work, b: Work, c: Work)
    requires Fresh(a, b) && Fresh(b, c)
    ensures Fresh(a, c)
  {
    forall d | IsDefined(c, d) ensures Kept(a, c, d) || a.at.next <= DefinedId(c, d) < c.at.next {
      if Kept(b, c, d) { assert Kept(a, b, d) ==> Kept(a, c, d); }
    }
    forall d, e | IsDefined(c, d) && IsDefined(c, e) && !Kept(a, c, d) && !Kept(a, c, e) &&
      DefinedId(c, d) == DefinedId(c, e)
      ensures d == e
    {
      NewTogether(a, b, c, d, e);
    }
  }

  lemma WhenNew(a: Work, b: Work, c: Work, d: Definer)
    requires Fresh(a, b) && Fresh(b, c) && IsDefined(c, d) && !Kept(a, c, d)
    ensures if Kept(b, c, d) then !Kept(a, b, d) && DefinedId(c, d) < b.at.next else b.at.next <= DefinedId(c, d)
  {
  }

  lemma NewTogether(a: Work, b: Work, c: Work, d: Definer, e: Definer)
    requires Fresh(a, b) && Fresh(b, c) && IsDefined(c, d) && IsDefined(c, e)
    requires !Kept(a, c, d) && !Kept(a, c, e) && DefinedId(c, d) == DefinedId(c, e)
    ensures d == e
  {
    WhenNew(a, b, c, d);
    WhenNew(a, b, c, e);
  }

  // ---- one group ----

  datatype Part = StepPart(placement: nat, i: nat) | OwnPart(i: nat) | KeyPart(key: Key)

  /** What a group defines, and the literals asked for while it was written. */
  ghost predicate IsPart(c: Cursor, after: Cursor, g: Group, t: Part) {
    match t
    case StepPart(a, i) => a < |g.placements| && i < |g.placements[a].steps|
    case OwnPart(i) => i < |g.own|
    case KeyPart(key) => key in after.pool.ids && key !in c.pool.ids
  }

  ghost function PartId(c: Cursor, after: Cursor, g: Group, t: Part): nat
    requires IsPart(c, after, g, t)
  {
    match t
    case StepPart(a, i) => g.placements[a].steps[i]
    case OwnPart(i) => g.own[i]
    case KeyPart(key) => after.pool.ids[key]
  }

  ghost predicate GroupFresh(c: Cursor, after: Cursor, g: Group) {
    && Within(c, after) && SoundStays(c, after)
    && (forall t :: IsPart(c, after, g, t) ==> c.next <= PartId(c, after, g, t) < after.next)
    && (forall s, t ::
         IsPart(c, after, g, s) && IsPart(c, after, g, t) && PartId(c, after, g, s) == PartId(c, after, g, t) ==>
         s == t)
  }

  lemma PlaceSound(c: Cursor, o: Operand, d: Demand)
    ensures SoundStays(c, Place(c, o, d).1)
  {
    if d.InClass? {
      var key := (d.kind, if o.literal.Some? then o.literal.value else 0);
      var asked := if o.literal.Some? then Ask(c, key).1 else c;
      AskSound(c, key);
      SoundLater(asked, asked.next + d.steps);
      assert Place(c, o, d).1 == asked.(next := asked.next + d.steps);
    }
  }

  lemma PlaceTakes(c: Cursor, o: Operand, d: Demand)
    ensures var (p, after) := Place(c, o, d); var g := Group([p], [], Still);
      && Within(c, after)
      && (forall t :: IsPart(c, after, g, t) ==> c.next <= PartId(c, after, g, t) < after.next)
      && (forall s, t ::
           IsPart(c, after, g, s) && IsPart(c, after, g, t) && PartId(c, after, g, s) == PartId(c, after, g, t) ==>
           s == t)
  {
  }

  lemma PlaceFresh(c: Cursor, o: Operand, d: Demand)
    ensures var (p, after) := Place(c, o, d); GroupFresh(c, after, Group([p], [], Still))
  {
    PlaceSound(c, o, d);
    PlaceTakes(c, o, d);
  }

  lemma AskSound(c: Cursor, key: Key)
    ensures SoundStays(c, Ask(c, key).1)
  {
    if Sound(c) { AskKeeps(c, key); }
  }

  lemma NoneFresh(c: Cursor)
    ensures GroupFresh(c, c, Group([], [], Still))
  {
  }

  lemma AskFresh(c: Cursor, key: Key)
    ensures GroupFresh(c, Ask(c, key).1, Group([], [], Still))
  {
    AskSound(c, key);
  }

  ghost predicate IsLastPart(ps: seq<Placement>, mid: Cursor, t: Part) {
    (t.StepPart? && t.placement == |ps|) || (t.KeyPart? && t.key !in mid.pool.ids)
  }

  ghost function Shifted(ps: seq<Placement>, t: Part): Part {
    if t.StepPart? then StepPart(0, t.i) else t
  }

  lemma SnocPart(c: Cursor, mid: Cursor, after: Cursor, ps: seq<Placement>, p: Placement, t: Part)
    requires GroupFresh(c, mid, Group(ps, [], Still)) && GroupFresh(mid, after, Group([p], [], Still))
    requires IsPart(c, after, Group(ps + [p], [], Still), t)
    ensures var id := PartId(c, after, Group(ps + [p], [], Still), t);
      if IsLastPart(ps, mid, t) then
        IsPart(mid, after, Group([p], [], Still), Shifted(ps, t)) &&
          PartId(mid, after, Group([p], [], Still), Shifted(ps, t)) == id && mid.next <= id < after.next
      else
        IsPart(c, mid, Group(ps, [], Still), t) && PartId(c, mid, Group(ps, [], Still), t) == id &&
          c.next <= id < mid.next
  {
  }

  lemma PlacesSnoc(c: Cursor, mid: Cursor, after: Cursor, ps: seq<Placement>, p: Placement)
    requires GroupFresh(c, mid, Group(ps, [], Still)) && GroupFresh(mid, after, Group([p], [], Still))
    ensures GroupFresh(c, after, Group(ps + [p], [], Still))
  {
    var g := Group(ps + [p], [], Still);
    forall t | IsPart(c, after, g, t) ensures c.next <= PartId(c, after, g, t) < after.next {
      SnocPart(c, mid, after, ps, p, t);
    }
    forall s, t | IsPart(c, after, g, s) && IsPart(c, after, g, t) && PartId(c, after, g, s) == PartId(c, after, g, t)
      ensures s == t
    {
      SnocPart(c, mid, after, ps, p, s);
      SnocPart(c, mid, after, ps, p, t);
    }
  }

  lemma {:induction false} PlaceAllFresh(c: Cursor, os: seq<Operand>, demands: seq<Demand>)
    ensures var (ps, after) := PlaceAll(c, os, demands); GroupFresh(c, after, Group(ps, [], Still))
  {
    if os == [] {
      NoneFresh(c);
    } else {
      var last := |os| - 1;
      PlaceAllFresh(c, os[..last], demands);
      var (ps, mid) := PlaceAll(c, os[..last], demands);
      PlaceFresh(mid, os[last], DemandAt(demands, last));
      var (p, after) := Place(mid, os[last], DemandAt(demands, last));
      PlacesSnoc(c, mid, after, ps, p);
    }
  }

  lemma OwnFresh(c: Cursor, mid: Cursor, ps: seq<Placement>, count: nat, role: Role)
    requires GroupFresh(c, mid, Group(ps, [], Still))
    ensures GroupFresh(c, mid.(next := mid.next + count), Group(ps, FreshIds(mid.next, count), role))
  {
    var after, g := mid.(next := mid.next + count), Group(ps, FreshIds(mid.next, count), role);
    SoundLater(mid, mid.next + count);
    forall t | IsPart(c, after, g, t) && !t.OwnPart?
      ensures IsPart(c, mid, Group(ps, [], Still), t) &&
        PartId(c, after, g, t) == PartId(c, mid, Group(ps, [], Still), t)
    {
    }
  }

  /** The part of a group that a new definer is. */
  ghost function PartOf(d: Definer): Part {
    match d
    case PhiOf(_, k) => OwnPart(k)
    case StepOf(_, _, a, i) => StepPart(a, i)
    case OwnOf(_, _, i) => OwnPart(i)
    case ConstantOf(key) => KeyPart(key)
  }

  lemma NewDefiner(w: Work, slots: map<nat, nat>, after: Cursor, u: nat, g: Group, d: Definer)
    requires u < |w.blocks| && Within(w.at, after)
    requires var w' := Append(w.(slots := slots, at := after), u, g); IsDefined(w', d) && !Kept(w, w', d)
    ensures var w' := Append(w.(slots := slots, at := after), u, g);
      && IsPart(w.at, after, g, PartOf(d)) && PartId(w.at, after, g, PartOf(d)) == DefinedId(w', d)
      && (d.StepOf? || d.OwnOf? || d.ConstantOf?)
      && (d.StepOf? ==> d.node == u && d.group == |w.blocks[u].code|)
      && (d.OwnOf? ==> d.node == u && d.group == |w.blocks[u].code|)
  {
  }

  /** Writing a group takes what the group defines off the cursor, and nothing else. */
  lemma AppendFresh(w: Work, slots: map<nat, nat>, after: Cursor, u: nat, g: Group)
    requires u < |w.blocks| && GroupFresh(w.at, after, g)
    ensures Fresh(w, Append(w.(slots := slots, at := after), u, g))
  {
    var w' := Append(w.(slots := slots, at := after), u, g);
    forall d | IsDefined(w', d) && !Kept(w, w', d) ensures w.at.next <= DefinedId(w', d) < w'.at.next {
      NewDefiner(w, slots, after, u, g, d);
    }
    forall d, e | IsDefined(w', d) && IsDefined(w', e) && !Kept(w, w', d) && !Kept(w, w', e) &&
      DefinedId(w', d) == DefinedId(w', e)
      ensures d == e
    {
      NewDefiner(w, slots, after, u, g, d);
      NewDefiner(w, slots, after, u, g, e);
    }
  }

  /** Moving slots, branches or phi entries defines nothing. */
  lemma SameDefinersFresh(w: Work, w': Work)
    requires w'.at == w.at && w.left <= w'.left && |w.blocks| == |w'.blocks|
    requires forall m: nat :: m < |w.blocks| ==>
      w'.blocks[m].params == w.blocks[m].params && w'.blocks[m].code == w.blocks[m].code
    ensures Fresh(w, w')
  {
    forall d | IsDefined(w', d) ensures Kept(w, w', d) {}
  }

  lemma FixFresh(body: Body, w: Work, to: nat, arity: nat)
    requires to < |w.blocks| && |Received(body, to)| <= arity
    ensures Fresh(w, FixParams(body, w, to, arity))
  {
    var w' := FixParams(body, w, to, arity);
    SoundLater(w.at, w'.at.next);
    assert w'.at == w.at.(next := w'.at.next);
    forall d | IsDefined(w', d) && !Kept(w, w', d)
      ensures d.PhiOf? && d.node == to && d.k < arity && DefinedId(w', d) == w.at.next + d.k
    {
    }
  }

  // ---- the steps ----

  lemma RecordFresh(body: Body, p: Plan, w: Work, u: nat, k: nat, os: seq<Operand>)
    requires PlanIndexes(body, p) && |w.blocks| == |p.nodes| && u < |p.nodes| && k < |p.targets[u]|
    ensures var r := Record(body, p, w, u, k, os); r.Success? ==> Fresh(w, r.value)
  {
    var to := p.targets[u][k];
    var fix := FixParams(body, w, to, p.arities[to]);
    FixFresh(body, w, to, p.arities[to]);
    var demands := if p.arities[to] > 0 && w.blocks[to].params == [] then [] else Wanted(body, u, k);
    PlaceAllFresh(fix.at, os, demands);
    var (ps, after) := PlaceAll(fix.at, os, demands);
    assert Passed(body, w, to, p.arities[to], u, k, os) == (ps, after);
    AppendFresh(fix, fix.slots, after, u, Group(ps, [], Still));
    var put := Append(fix.(at := after), u, Group(ps, [], Still));
    assert put == Append(fix.(slots := fix.slots, at := after), u, Group(ps, [], Still));
    FreshTransitive(w, fix, put);
    var done := PushEdge(put, to, Incoming(p.labels[u], Yields(ps)));
    SameDefinersFresh(put, done);
    FreshTransitive(w, put, done);
  }

  lemma RecordBranchFresh(body: Body, p: Plan, w: Work, u: nat, k: nat)
    requires PlanIndexes(body, p) && |w.blocks| == |p.nodes| && u < |body.blocks| && k < TargetCount(body, p, u)
    ensures var r := RecordBranch(body, p, w, u, k); r.Success? ==> Fresh(w, r.value)
  {
    if AllIn(w.slots, BranchOf(body, p, u, k).args) {
      RecordFresh(body, p, w, u, k, Operands(body, w.slots, BranchOf(body, p, u, k).args));
    }
  }

  lemma RecordLoopFresh(body: Body, p: Plan, w: Work, u: nat)
    requires PlanIndexes(body, p) && |w.blocks| == |p.nodes| && u < |body.blocks| && TargetCount(body, p, u) == 2
    ensures var r := RecordLoop(body, p, w, u); r.Success? ==> Fresh(w, r.value)
  {
    var stay, leave := BranchOf(body, p, u, 0).args, BranchOf(body, p, u, 1).args;
    if AllIn(w.slots, stay) && AllIn(w.slots, leave) {
      RecordFresh(body, p, w, u, 0, Operands(body, w.slots, stay));
      var first := Record(body, p, w, u, 0, Operands(body, w.slots, stay));
      if first.Success? {
        RecordFresh(body, p, first.value, u, 1, Operands(body, w.slots, leave));
        ThenFresh(w, first.value, Record(body, p, first.value, u, 1, Operands(body, w.slots, leave)));
      }
    }
  }

  lemma ThenFresh(w: Work, mid: Work, r: Result<Work, EmitRefusal>)
    requires Fresh(w, mid) && (r.Success? ==> Fresh(mid, r.value))
    ensures r.Success? ==> Fresh(w, r.value)
  {
    if r.Success? { FreshTransitive(w, mid, r.value); }
  }

  lemma TestFresh(body: Body, w: Work, u: nat, v: nat)
    requires u < |w.blocks| && v in w.slots
    ensures Fresh(w, Test(body, w, u, v)) && Test(body, w, u, v).left == w.left
  {
    var o := Operand(w.slots[v], Constant(body, v));
    PlaceFresh(w.at, o, Tested(body, u));
    var (placed, after) := Place(w.at, o, Tested(body, u));
    AppendFresh(w, w.slots, after, u, Group([placed], [], Still));
    assert w.(slots := w.slots, at := after) == w.(at := after);
  }

  lemma TerminateFresh(body: Body, p: Plan, w: Work, u: nat)
    requires PlanIndexes(body, p) && |w.blocks| == |p.nodes| && u < |body.blocks|
    ensures var r := Terminate(body, p, w, u); r.Success? ==> Fresh(w, r.value)
    ensures body.blocks[u].terminator.Return? && Terminate(body, p, w, u).Success? ==>
      0 < Terminate(body, p, w, u).value.left
  {
    match body.blocks[u].terminator {
      case Return(values) => ReturnFresh(body, p, w, u);
      case Br(_) => RecordBranchFresh(body, p, w, u, 0);
      case CondBr(cond, _, _) => if cond in w.slots { ChoiceFresh(body, p, w, u); }
    }
  }

  lemma ReturnFresh(body: Body, p: Plan, w: Work, u: nat)
    requires PlanIndexes(body, p) && |w.blocks| == |p.nodes| && u < |body.blocks| && body.blocks[u].terminator.Return?
    ensures var r := Terminate(body, p, w, u); r.Success? ==> Fresh(w, r.value) && 0 < r.value.left
  {
    var values := body.blocks[u].terminator.values;
    if |values| == 1 && values[0] in w.slots {
      var counted := w.(left := w.left + 1);
      SameDefinersFresh(w, counted);
      TestFresh(body, counted, u, values[0]);
      FreshTransitive(w, counted, Test(body, counted, u, values[0]));
    }
  }

  lemma ChoiceFresh(body: Body, p: Plan, w: Work, u: nat)
    requires PlanIndexes(body, p) && |w.blocks| == |p.nodes| && u < |body.blocks| && body.blocks[u].terminator.CondBr?
    requires body.blocks[u].terminator.cond in w.slots
    ensures var r := Terminate(body, p, w, u); r.Success? ==> Fresh(w, r.value)
  {
    var tested := Test(body, w, u, body.blocks[u].terminator.cond);
    TestFresh(body, w, u, body.blocks[u].terminator.cond);
    if TargetCount(body, p, u) == 1 {
      RecordBranchFresh(body, p, tested, u, 0);
      ThenFresh(w, tested, RecordBranch(body, p, tested, u, 0));
    } else if p.loopBodies[u].Some? {
      RecordLoopFresh(body, p, tested, u);
      ThenFresh(w, tested, RecordLoop(body, p, tested, u));
    } else {
      RecordBranchFresh(body, p, tested, u, 0);
      var first := RecordBranch(body, p, tested, u, 0);
      if first.Success? {
        RecordBranchFresh(body, p, first.value, u, 1);
        FreshTransitive(w, tested, first.value);
        ThenFresh(w, first.value, RecordBranch(body, p, first.value, u, 1));
      }
    }
  }

  lemma InstructionFresh(body: Body, w: Work, u: nat, v: nat)
    requires u < |w.blocks|
    ensures var r := Instruction(body, w, u, v); r.Success? ==> Fresh(w, r.value)
  {
    if v in body.lowering.forms && v in body.operands && AllIn(w.slots, body.operands[v]) {
      match body.lowering.forms[v] {
        case Literal(_, _) => LiteralFresh(body, w, u, v);
        case Same(_) => SameFresh(body, w, u, v);
        case Computed(_, _, _) => ComputedFresh(body, w, u, v);
      }
    }
  }

  lemma LiteralFresh(body: Body, w: Work, u: nat, v: nat)
    requires u < |w.blocks| && v in body.lowering.forms && body.lowering.forms[v].Literal?
    ensures var r := Instruction(body, w, u, v); r.Success? ==> Fresh(w, r.value)
  {
    var key := (body.lowering.forms[v].kind, body.lowering.forms[v].value);
    AskFresh(w.at, key);
    AppendFresh(w, w.slots[v := Ask(w.at, key).0], Ask(w.at, key).1, u, Group([], [], Still));
  }

  lemma SameFresh(body: Body, w: Work, u: nat, v: nat)
    requires u < |w.blocks| && v in body.lowering.forms && body.lowering.forms[v].Same?
    ensures var r := Instruction(body, w, u, v); r.Success? ==> Fresh(w, r.value)
  {
    if v in body.operands && AllIn(w.slots, body.operands[v]) && body.operands[v] != [] {
      var o := Operands(body, w.slots, body.operands[v])[0];
      PlaceFresh(w.at, o, body.lowering.forms[v].demand);
      var (placed, after) := Place(w.at, o, body.lowering.forms[v].demand);
      AppendFresh(w, w.slots[v := Yield(placed)], after, u, Group([placed], [], Still));
    }
  }

  lemma PlacedAndOwnFresh(c: Cursor, os: seq<Operand>, demands: seq<Demand>, count: nat, role: Role)
    ensures var (ps, mid) := PlaceAll(c, os, demands);
      GroupFresh(c, mid.(next := mid.next + count), Group(ps, FreshIds(mid.next, count), role))
  {
    PlaceAllFresh(c, os, demands);
    var (ps, mid) := PlaceAll(c, os, demands);
    OwnFresh(c, mid, ps, count, role);
  }

  /** The group a computation writes, and where it leaves the cursor. */
  lemma ComputedParts(body: Body, w: Work, u: nat, v: nat) returns (slots: map<nat, nat>, after: Cursor, g: Group)
    requires u < |w.blocks| && v in body.lowering.forms && body.lowering.forms[v].Computed? && v in body.operands &&
      AllIn(w.slots, body.operands[v])
    ensures Instruction(body, w, u, v) == Success(Append(w.(slots := slots, at := after), u, g)) &&
      GroupFresh(w.at, after, g)
  {
    var Computed(demands, count, result) := body.lowering.forms[v];
    var os := Operands(body, w.slots, body.operands[v]);
    PlacedAndOwnFresh(w.at, os, demands, count, Act(v, result));
    var (ps, mid) := PlaceAll(w.at, os, demands);
    var own := FreshIds(mid.next, count);
    slots, after, g :=
      Emission.Result(w, v, own, result), mid.(next := mid.next + count), Group(ps, own, Act(v, result));
  }

  lemma ComputedFresh(body: Body, w: Work, u: nat, v: nat)
    requires u < |w.blocks| && v in body.lowering.forms && body.lowering.forms[v].Computed? && v in body.operands &&
      AllIn(w.slots, body.operands[v])
    ensures Instruction(body, w, u, v).Success? && Fresh(w, Instruction(body, w, u, v).value)
  {
    var slots, after, g := ComputedParts(body, w, u, v);
    AppendFresh(w, slots, after, u, g);
  }

  lemma {:induction false} InstructionsFresh(body: Body, w: Work, u: nat, instrs: seq<nat>)
    requires u < |w.blocks|
    ensures var r := Instructions(body, w, u, instrs); r.Success? ==> Fresh(w, r.value)
  {
    if instrs == [] {
      SameDefinersFresh(w, w);
    } else {
      InstructionsFresh(body, w, u, instrs[..|instrs| - 1]);
      var before := Instructions(body, w, u, instrs[..|instrs| - 1]);
      if before.Success? {
        InstructionFresh(body, before.value, u, instrs[|instrs| - 1]);
        ThenFresh(w, before.value, Instruction(body, before.value, u, instrs[|instrs| - 1]));
      }
    }
  }

  ghost predicate EndsHere(body: Body, u: nat) {
    u < |body.blocks| && body.blocks[u].terminator.Return?
  }

  lemma CloseFresh(body: Body, p: Plan, w: Work, mid: Work, u: nat)
    requires PlanIndexes(body, p) && u < |p.nodes| == |mid.blocks| && Fresh(w, mid)
    ensures Fresh(w, Close(body, p, mid, u)) && Close(body, p, mid, u).left == mid.left
  {
    SameDefinersFresh(mid, Close(body, p, mid, u));
    FreshTransitive(w, mid, Close(body, p, mid, u));
  }

  lemma NodeFresh(body: Body, p: Plan, w: Work, u: nat)
    requires PlanIndexes(body, p) && |w.blocks| == |p.nodes| && u < |p.nodes|
    ensures var r := EmitNode(body, p, w, u); r.Success? ==>
      Fresh(w, r.value) && (EndsHere(body, u) ==> 0 < r.value.left)
  {
    if u < |body.blocks| {
      InstructionsFresh(body, w, u, body.blocks[u].instrs);
      var computed := Instructions(body, w, u, body.blocks[u].instrs);
      if computed.Success? {
        TerminateFresh(body, p, computed.value, u);
        var ended := Terminate(body, p, computed.value, u);
        ThenFresh(w, computed.value, ended);
        if ended.Success? { CloseFresh(body, p, w, ended.value, u); }
      }
    } else {
      RecordFresh(body, p, w, u, 0, Plainly(w.blocks[u].params));
      var ended := Record(body, p, w, u, 0, Plainly(w.blocks[u].params));
      if ended.Success? { CloseFresh(body, p, w, ended.value, u); }
    }
  }

  /** A whole run: ids only from the cursor, none for two definers. */
  lemma {:induction false} OrderFresh(body: Body, p: Plan, w: Work, order: seq<nat>)
    requires PlanIndexes(body, p) && |w.blocks| == |p.nodes|
    requires forall i :: 0 <= i < |order| ==> order[i] < |p.nodes|
    ensures var r := EmitOrder(body, p, w, order); r.Success? ==> Fresh(w, r.value)
  {
    if order == [] {
      SameDefinersFresh(w, w);
    } else {
      var rest, u := order[..|order| - 1], order[|order| - 1];
      OrderFresh(body, p, w, rest);
      var before := EmitOrder(body, p, w, rest);
      if before.Success? {
        NodeFresh(body, p, before.value, u);
        ThenFresh(w, before.value, EmitNode(body, p, before.value, u));
      }
    }
  }

  /** Every return met is counted. */
  lemma {:induction false} OrderCounts(body: Body, p: Plan, w: Work, order: seq<nat>, u: nat)
    requires PlanIndexes(body, p) && |w.blocks| == |p.nodes|
    requires forall i :: 0 <= i < |order| ==> order[i] < |p.nodes|
    requires u in order && EndsHere(body, u) && EmitOrder(body, p, w, order).Success?
    ensures 0 < EmitOrder(body, p, w, order).value.left
  {
    var rest, last := order[..|order| - 1], order[|order| - 1];
    NodeFresh(body, p, EmitOrder(body, p, w, rest).value, last);
    if last != u {
      assert order == rest + [last];
      OrderCounts(body, p, w, rest, u);
    }
  }
}
