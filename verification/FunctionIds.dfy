/** An emitted function, and that no two of the things it defines share an id. */
module FunctionIds {
  import opened Options
  import opened Kernel
  import opened Scalars
  import opened Literals
  import opened Structure
  import opened Planner
  import opened Emission
  import opened EmissionInvariant
  import opened EmissionRun
  import opened EmissionIds

  /** What a function is bound from: its module's class, and its domain's leaves, the index last. */
  datatype Signature = Signature(root: Class, leaves: seq<Class>)

  /** The tail guard: its condition, the block it runs in and its merge block, and what it compares. */
  datatype Guard = Guard(condition: nat, enter: nat, merge: nat, lane: nat, extent: nat)

  /**
  An emitted function: its plan, each parameter's ids, the work that fills its blocks, its guard, and the cursor after
  it.
   */
  datatype Function = Function(plan: Plan, inputs: seq<seq<nat>>, work: Work, guard: Option<Guard>, after: Cursor)

  // ---- parameters ----

  /** How many ids a parameter takes: a callee's one, the index two or three, a member of the block two. */
  function InputCount(launched: bool, s: Signature, k: nat): (r: nat)
    ensures r > 0
  {
    if !launched then 1
    else if k + 1 == |s.leaves| then (if s.root == IntClass then 3 else 2)
    else 2
  }

  /** Where the ids of the first `k` parameters end. */
  function InputsEnd(launched: bool, s: Signature, first: nat, k: nat): nat {
    if k == 0 then first else InputsEnd(launched, s, first, k - 1) + InputCount(launched, s, k - 1)
  }

  /** The ids of the first `k` parameters; a parameter's word is on its last. */
  function InputIds(launched: bool, s: Signature, first: nat, k: nat): (r: seq<seq<nat>>)
    ensures |r| == k && forall i :: 0 <= i < k ==> r[i] != []
  {
    if k == 0 then []
    else
      InputIds(launched, s, first, k - 1) +
        [FreshIds(InputsEnd(launched, s, first, k - 1), InputCount(launched, s, k - 1))]
  }

  function Lasts(inputs: seq<seq<nat>>): (r: seq<nat>)
    requires forall i :: 0 <= i < |inputs| ==> inputs[i] != []
    ensures |r| == |inputs| && forall i :: 0 <= i < |r| ==> r[i] == inputs[i][|inputs[i]| - 1]
  {
    seq(|inputs|, i requires 0 <= i < |inputs| => inputs[i][|inputs[i]| - 1])
  }

  lemma {:induction false} InputsSit(launched: bool, s: Signature, first: nat, k: nat, i: nat)
    requires i < k
    ensures InputIds(launched, s, first, k)[i] == FreshIds(InputsEnd(launched, s, first, i), InputCount(launched, s, i))
    ensures first <= InputsEnd(launched, s, first, i)
    ensures InputsEnd(launched, s, first, i) + InputCount(launched, s, i) ==
      InputsEnd(launched, s, first, i + 1) <= InputsEnd(launched, s, first, k)
  {
    if i < k - 1 { InputsSit(launched, s, first, k - 1, i); } else { InputsRise(launched, s, first, i); }
  }

  lemma {:induction false} InputsRise(launched: bool, s: Signature, first: nat, k: nat)
    ensures first <= InputsEnd(launched, s, first, k)
  {
    if k > 0 { InputsRise(launched, s, first, k - 1); }
  }

  // ---- layout ----

  function ParamCount(body: Body): nat {
    if body.entry < |body.blocks| then |body.blocks[body.entry].params| else 0
  }

  /** The entry's label is the function's first id, its parameters' come next, then the other labels. */
  function FirstLabel(body: Body, s: Signature, start: nat): nat {
    InputsEnd(body.lowering.launched, s, start + 1, ParamCount(body))
  }

  function FirstOwn(body: Body, s: Signature, start: nat, nodes: nat): nat
    requires nodes > 0
  {
    FirstLabel(body, s, start) + nodes - 1
  }

  function FunctionInputs(body: Body, s: Signature, start: nat): (r: seq<seq<nat>>)
    ensures |r| == ParamCount(body) && forall i :: 0 <= i < |r| ==> r[i] != []
  {
    InputIds(body.lowering.launched, s, start + 1, ParamCount(body))
  }

  /** The state a function's emission starts from. */
  function StartOf(body: Body, s: Signature, start: Cursor, nodes: nat): Work
    requires body.entry < |body.blocks| && nodes > 0
  {
    StartWork(body, nodes, Lasts(FunctionInputs(body, s, start.next)),
      start.(next := FirstOwn(body, s, start.next, nodes)))
  }

  ghost predicate PlanLabels(body: Body, s: Signature, p: Plan, start: nat)
    requires |p.labels| == |p.nodes|
  {
    forall i: nat :: i < |p.nodes| ==> p.labels[i] == Label(body.entry, start, FirstLabel(body, s, start), i)
  }

  /**
  Whether the function starts with a guard: an entry point whose first leaf is an integer extent, with the index after
  it.
   */
  predicate Guarded(body: Body, s: Signature) {
    body.lowering.launched && |s.leaves| > 1 && s.leaves[0] == IntClass
  }

  /** `tail_guard`: three ids after the body's, and the slots of the index and of the extent. */
  function TailGuard(body: Body, s: Signature, w: Work): Option<Guard>
    requires body.entry < |body.blocks| &&
      (Guarded(body, s) ==> |s.leaves| <= ParamCount(body) && AllIn(w.slots, body.blocks[body.entry].params))
  {
    if !Guarded(body, s) then None
    else
      var params := body.blocks[body.entry].params;
      var next := w.at.next;
      Some(Guard(next, next + 1, next + 2, w.slots[params[|s.leaves| - 1]], w.slots[params[0]]))
  }

  function AfterGuard(body: Body, s: Signature, at: Cursor): Cursor {
    if Guarded(body, s) then at.(next := at.next + 3) else at
  }

  // ---- every definer of a function ----

  /** A label, an instruction of a parameter's, what the body defines, or one of the guard's three. */
  datatype Taken = LabelOf(node: nat) | InputOf(k: nat, i: nat) | BodyOf(d: Definer) | GuardOf(i: nat)

  ghost predicate IsTaken(f: Function, t: Taken) {
    match t
    case LabelOf(node) => node < |f.plan.labels|
    case InputOf(k, i) => k < |f.inputs| && i < |f.inputs[k]|
    case BodyOf(d) => IsDefined(f.work, d)
    case GuardOf(i) => f.guard.Some? && i < 3
  }

  ghost function TakenId(f: Function, t: Taken): nat
    requires IsTaken(f, t)
  {
    match t
    case LabelOf(node) => f.plan.labels[node]
    case InputOf(k, i) => f.inputs[k][i]
    case BodyOf(d) => DefinedId(f.work, d)
    case GuardOf(i) => if i == 0 then f.guard.value.condition else if i == 1 then f.guard.value.enter
      else f.guard.value.merge
  }

  /** A literal some earlier function asked for. */
  ghost predicate FromBefore(start: Cursor, t: Taken) {
    t.BodyOf? && t.d.ConstantOf? && t.d.key in start.pool.ids
  }

  /** Every definer's id is the function's own or an earlier literal's, and no id has two. */
  ghost predicate Disciplined(start: Cursor, f: Function) {
    && (forall t :: IsTaken(f, t) ==>
        if FromBefore(start, t) then TakenId(f, t) == start.pool.ids[t.d.key]
        else start.next <= TakenId(f, t) < f.after.next)
    && (forall s, t :: IsTaken(f, s) && IsTaken(f, t) && TakenId(f, s) == TakenId(f, t) ==> s == t)
  }

  /** Labels, parameters and guard as they are laid out from a cursor. */
  ghost predicate Framed(body: Body, s: Signature, start: nat, f: Function) {
    && body.entry < |body.blocks| && |f.plan.labels| == |f.plan.nodes| && body.entry < |f.plan.nodes|
    && PlanLabels(body, s, f.plan, start)
    && f.inputs == FunctionInputs(body, s, start)
    && (f.guard.Some? <==> Guarded(body, s))
    && (f.guard.Some? ==>
        f.guard.value.condition == f.work.at.next && f.guard.value.enter == f.work.at.next + 1 &&
          f.guard.value.merge == f.work.at.next + 2)
    && f.after == AfterGuard(body, s, f.work.at)
  }

  /** The body between them: everything it defines comes off the cursor once. */
  ghost predicate Filled(body: Body, s: Signature, start: Cursor, f: Function)
    requires body.entry < |body.blocks| && |f.plan.nodes| > 0
  {
    && Sound(start) && Within(start, f.work.at) && Sound(f.work.at)
    && Fresh(StartOf(body, s, start, |f.plan.nodes|), f.work) && Unique(f.work)
  }

  ghost predicate LaidOut(body: Body, s: Signature, start: Cursor, f: Function) {
    Framed(body, s, start.next, f) && Filled(body, s, start, f)
  }

  /** Where the body's own ids are. */
  ghost predicate BodySitsWell(body: Body, s: Signature, start: Cursor, f: Function, d: Definer)
    requires |f.plan.nodes| > 0 && IsDefined(f.work, d)
  {
    if FromBefore(start, BodyOf(d)) then DefinedId(f.work, d) == start.pool.ids[d.key] < start.next
    else FirstOwn(body, s, start.next, |f.plan.nodes|) <= DefinedId(f.work, d) < f.work.at.next
  }

  lemma BodySits(body: Body, s: Signature, start: Cursor, f: Function)
    requires LaidOut(body, s, start, f)
    ensures FirstOwn(body, s, start.next, |f.plan.nodes|) <= f.work.at.next
    ensures forall d :: IsDefined(f.work, d) ==> BodySitsWell(body, s, start, f, d)
    ensures forall d, e ::
      IsDefined(f.work, d) && IsDefined(f.work, e) && DefinedId(f.work, d) == DefinedId(f.work, e) ==> d == e
  {
    var w := StartOf(body, s, start, |f.plan.nodes|);
    forall d | IsDefined(f.work, d) ensures BodySitsWell(body, s, start, f, d) {
      if d.ConstantOf? && d.key in start.pool.ids { DeclaredBelow(start, d.key); }
      assert IsDefined(w, d) ==> d.ConstantOf? && d.key in start.pool.ids;
    }
  }

  lemma InputSits(body: Body, s: Signature, start: nat, inputs: seq<seq<nat>>, k: nat, i: nat)
    requires inputs == FunctionInputs(body, s, start) && k < |inputs| && i < |inputs[k]|
    ensures start < inputs[k][i] < FirstLabel(body, s, start)
  {
    InputsSit(body.lowering.launched, s, start + 1, ParamCount(body), k);
  }

  /**
  Where an id sits: the entry's label, the inputs, the other labels, the body, the guard; or an earlier literal's
  place.
   */
  lemma IdSits(body: Body, s: Signature, start: Cursor, f: Function, t: Taken)
    requires Framed(body, s, start.next, f) && IsTaken(f, t) &&
      FirstOwn(body, s, start.next, |f.plan.nodes|) <= f.work.at.next
    requires t.BodyOf? ==> BodySitsWell(body, s, start, f, t.d)
    ensures var first, own := FirstLabel(body, s, start.next), FirstOwn(body, s, start.next, |f.plan.nodes|);
      start.next < first <= own <= f.work.at.next <= f.after.next &&
      match t
      case LabelOf(node) => TakenId(f, t) ==
        if node == body.entry then start.next else if node < body.entry then first + node else first + node - 1
      case InputOf(k, i) => start.next < TakenId(f, t) < first
      case BodyOf(d) => if FromBefore(start, t) then TakenId(f, t) == start.pool.ids[d.key] < start.next
        else own <= TakenId(f, t) < f.work.at.next
      case GuardOf(i) => TakenId(f, t) == f.work.at.next + i < f.after.next
  {
    InputsRise(body.lowering.launched, s, start.next + 1, ParamCount(body));
    if t.InputOf? { InputSits(body, s, start.next, f.inputs, t.k, t.i); }
  }

  lemma InputsApart(body: Body, s: Signature, start: nat, inputs: seq<seq<nat>>, k: nat, i: nat, l: nat, j: nat)
    requires inputs == FunctionInputs(body, s, start) && k < |inputs| && i < |inputs[k]| && l < |inputs| &&
      j < |inputs[l]|
    requires inputs[k][i] == inputs[l][j]
    ensures k == l && i == j
  {
    var launched, count := body.lowering.launched, ParamCount(body);
    InputsSit(launched, s, start + 1, count, k);
    InputsSit(launched, s, start + 1, count, l);
    if k < l {
      InputsSit(launched, s, start + 1, l, k);
    } else if l < k {
      InputsSit(launched, s, start + 1, k, l);
    }
  }

  /** No id of a function has two definers. */
  lemma NoIdTwice(body: Body, s: Signature, start: Cursor, f: Function, a: Taken, b: Taken)
    requires LaidOut(body, s, start, f) && IsTaken(f, a) && IsTaken(f, b) && TakenId(f, a) == TakenId(f, b)
    ensures a == b
  {
    BodySits(body, s, start, f);
    IdSits(body, s, start, f, a);
    IdSits(body, s, start, f, b);
    if a.InputOf? && b.InputOf? { InputsApart(body, s, start.next, f.inputs, a.k, a.i, b.k, b.i); }
  }

  lemma FunctionIsDisciplined(body: Body, s: Signature, start: Cursor, f: Function)
    requires LaidOut(body, s, start, f)
    ensures Disciplined(start, f) && start.next < f.after.next
  {
    BodySits(body, s, start, f);
    IdSits(body, s, start, f, LabelOf(body.entry));
    forall t | IsTaken(f, t)
      ensures
        if FromBefore(start, t) then TakenId(f, t) == start.pool.ids[t.d.key]
        else start.next <= TakenId(f, t) < f.after.next
    {
      IdSits(body, s, start, f, t);
    }
    forall a, b | IsTaken(f, a) && IsTaken(f, b) && TakenId(f, a) == TakenId(f, b) ensures a == b {
      NoIdTwice(body, s, start, f, a, b);
    }
  }
}
