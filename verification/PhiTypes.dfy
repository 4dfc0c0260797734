/** The types of phi entries. */
module PhiTypes {
  import opened Options
  import opened Kernel
  import opened Scalars
  import opened Literals
  import opened Classes

  // A parameter's type comes from the body, and the first edge's values are filed as they are:
  // only later edges are brought to the type. So everything turns on what the first edge passes.

  /** What a slot holds: a computed number, a constant with the class it was declared in, or a comparison's truth. */
  datatype Kind = Number(kind: Class) | Pooled(kind: Class, value: int) | Condition

  datatype Slot = Slot(id: nat, kind: Kind)

  datatype Type = IntType | FloatType | BitsType | BoolType

  /** The type of a number: a brain float is computed as a float. */
  function TypeIn(c: Class): Type {
    if c.IntClass? then IntType else FloatType
  }

  function TypeOf(k: Kind): Type {
    match k
    case Number(c) => TypeIn(c)
    case Pooled(declared, _) => TypeIn(declared)
    case Condition => BoolType
  }

  /** The emission so far: its pool and cursor, and the type every id was defined with. */
  datatype Typing = Typing(at: Cursor, types: map<nat, Type>)

  function Define(t: Typing, form: Type): (nat, Typing) {
    (t.at.next, Typing(t.at.(next := t.at.next + 1), t.types[t.at.next := form]))
  }

  function AskTyped(t: Typing, key: Key): (nat, Typing) {
    var (id, after) := Ask(t.at, key);
    (id, Typing(after, t.types[id := TypeIn(key.0)]))
  }

  datatype RecordRefusal =
    | ArityDiffers
    | MixedClasses(seen: Class, wanted: Class)
    | NoClass(why: ClassRefusal)
    | TwoValueLists

  /**
  `as_class`: a constant is declared again, a truth is turned into a number, a number of another class is refused.
   */
  function AsClass(t: Typing, s: Slot, c: Class): Result<(Slot, Typing), RecordRefusal> {
    match s.kind
    case Number(seen) => if seen == c then Success((s, t)) else Failure(MixedClasses(seen, c))
    case Pooled(_, value) =>
      var (id, after) := AskTyped(t, (c, value));
      Success((Slot(id, Number(c)), after))
    case Condition =>
      var (id, after) := Define(t, TypeIn(c));
      Success((Slot(id, Number(c)), after))
  }

  /** `as_condition`: a number is compared with zero, a float by its bits. */
  function AsCondition(t: Typing, s: Slot): (Slot, Typing) {
    match s.kind
    case Condition => (s, t)
    case Number(c) =>
      var mid := if c.IntClass? then t else Define(t, BitsType).1;
      var (id, after) := Define(mid, BoolType);
      (Slot(id, Condition), after)
    case Pooled(_, value) =>
      var (id, after) := Define(AskTyped(t, (IntClass, value)).1, BoolType);
      (Slot(id, Condition), after)
  }

  // ---- one edge ----

  /** The node an edge arrives at: a block with the values it receives, or a block the plan added. */
  datatype Target = OfBody(receives: seq<nat>) | Added

  /** What decides a parameter's type: the body, the class its module computes in, and the node. */
  datatype Site = Site(program: Program, rank: seq<nat>, root: Class, to: Target, arity: nat)

  datatype Edge = Edge(from: nat, args: seq<Slot>)

  /** A node's parameters and the edges filed with it. */
  datatype Phis = Phis(params: seq<Slot>, edges: seq<Edge>)

  /** `value_kind`: what the parameter at `offset` holds, given what the first edge passes there. */
  ghost function KindAt(s: Site, offset: nat, arg: Kind): Result<Kind, RecordRefusal>
    requires Ranked(s.program, s.rank)
  {
    if s.to.Added? then Success(if arg.Pooled? then Number(s.root) else arg)
    else if offset >= |s.to.receives| then Success(Number(s.root))
    else
      match ValueClass(s.program, s.rank, s.root, s.to.receives[offset], [])
      case Failure(why) => Failure(NoClass(why))
      case Success(c) =>
        if arg.Number? && arg.kind != c then Failure(MixedClasses(arg.kind, c)) else Success(Number(c))
  }

  /** The first `n` parameters the first edge makes. */
  ghost function Fixed(s: Site, t: Typing, args: seq<Slot>, n: nat): Result<(seq<Slot>, Typing), RecordRefusal>
    requires Ranked(s.program, s.rank) && n <= |args|
  {
    if n == 0 then Success(([], t))
    else
      match Fixed(s, t, args, n - 1)
      case Failure(e) => Failure(e)
      case Success((params, mid)) =>
        match KindAt(s, n - 1, args[n - 1].kind)
        case Failure(e) => Failure(e)
        case Success(kind) =>
          var (id, after) := Define(mid, TypeOf(kind));
          Success((params + [Slot(id, kind)], after))
  }

  function CoercedOne(t: Typing, arg: Slot, kind: Kind): Result<(Slot, Typing), RecordRefusal> {
    match kind
    case Condition => Success(AsCondition(t, arg))
    case Number(c) => AsClass(t, arg, c)
    case Pooled(_, _) => Success((arg, t))
  }

  /** The first `n` values of a later edge, brought to what the parameters hold. */
  function Coerced(t: Typing, args: seq<Slot>, params: seq<Slot>, n: nat): Result<(seq<Slot>, Typing), RecordRefusal>
    requires n <= |args| == |params|
  {
    if n == 0 then Success(([], t))
    else
      match Coerced(t, args, params, n - 1)
      case Failure(e) => Failure(e)
      case Success((before, mid)) =>
        match CoercedOne(mid, args[n - 1], params[n - 1].kind)
        case Failure(e) => Failure(e)
        case Success((placed, after)) => Success((before + [placed], after))
  }

  function Find(edges: seq<Edge>, from: nat): Option<Edge> {
    if edges == [] then None else if edges[0].from == from then Some(edges[0]) else Find(edges[1..], from)
  }

  predicate SameIds(a: seq<Slot>, b: seq<Slot>) {
    forall i :: 0 <= i < |a| && i < |b| ==> a[i].id == b[i].id
  }

  /** One entry per predecessor: a second edge out of one block must pass the same ids. */
  function File(phis: Phis, e: Edge): Result<Phis, RecordRefusal> {
    match Find(phis.edges, e.from)
    case Some(seen) => if SameIds(seen.args, e.args) then Success(phis) else Failure(TwoValueLists)
    case None => Success(phis.(edges := phis.edges + [e]))
  }

  /** `record`: the edge from the block labelled `from`, and the values it passes. */
  ghost function Recorded(s: Site, t: Typing, phis: Phis, e: Edge): Result<(Typing, Phis), RecordRefusal>
    requires Ranked(s.program, s.rank) && |phis.params| in {0, s.arity}
  {
    if |e.args| != s.arity then Failure(ArityDiffers)
    else
      var first := s.arity > 0 && phis.params == [];
      match if first then Fixed(s, t, e.args, s.arity) else Coerced(t, e.args, phis.params, |phis.params|)
      case Failure(why) => Failure(why)
      case Success((slots, after)) =>
        var now := if first then phis.(params := slots) else phis;
        match File(now, if first then e else Edge(e.from, slots))
        case Failure(why) => Failure(why)
        case Success(filed) => Success((after, filed))
  }

  /** A node whose edges are being recorded. */
  class Node {
    const site: Site
    var typing: Typing
    var params: seq<Slot>
    var edges: seq<Edge>

    constructor (site: Site, typing: Typing)
      ensures this.site == site && this.typing == typing && params == [] && edges == []
    {
      this.site, this.typing, params, edges := site, typing, [], [];
    }

    method KindOf(offset: nat, arg: Kind) returns (r: Result<Kind, RecordRefusal>)
      requires Ranked(site.program, site.rank)
      ensures r == KindAt(site, offset, arg)
    {
      if site.to.Added? { return Success(if arg.Pooled? then Number(site.root) else arg); }
      if offset >= |site.to.receives| { return Success(Number(site.root)); }
      var resolver := new Resolver(site.program, site.root, site.rank);
      var answer := resolver.ValueOf(site.to.receives[offset]);
      if answer.Failure? { return Failure(NoClass(answer.error)); }
      if arg.Number? && arg.kind != answer.value { return Failure(MixedClasses(arg.kind, answer.value)); }
      return Success(Number(answer.value));
    }

    /** The first edge fixes one kind per parameter. */
    method Fix(args: seq<Slot>) returns (r: Result<seq<Slot>, RecordRefusal>)
      requires Ranked(site.program, site.rank)
      modifies this`typing
      ensures r.Success? ==> Fixed(site, old(typing), args, |args|) == Success((r.value, typing))
      ensures r.Failure? ==> Fixed(site, old(typing), args, |args|) == Failure(r.error)
    {
      var made: seq<Slot> := [];
      var offset := 0;
      while offset < |args|
        invariant 0 <= offset <= |args|
        invariant Fixed(site, old(typing), args, offset) == Success((made, typing))
      {
        var kind := KindOf(offset, args[offset].kind);
        offset := offset + 1;
        if kind.Failure? {
          FixedRefused(site, old(typing), args, offset, |args|);
          return Failure(kind.error);
        }
        var id;
        id, typing := Define(typing, TypeOf(kind.value)).0, Define(typing, TypeOf(kind.value)).1;
        made := made + [Slot(id, kind.value)];
      }
      return Success(made);
    }

    /** A later edge is coerced inside the predecessor's own block. */
    method Coerce(args: seq<Slot>) returns (r: Result<seq<Slot>, RecordRefusal>)
      requires |args| == |params|
      modifies this`typing
      ensures r.Success? ==> Coerced(old(typing), args, params, |args|) == Success((r.value, typing))
      ensures r.Failure? ==> Coerced(old(typing), args, params, |args|) == Failure(r.error)
    {
      var placed := args;
      var offset := 0;
      while offset < |args|
        invariant 0 <= offset <= |args| == |placed| && placed[offset..] == args[offset..]
        invariant Coerced(old(typing), args, params, offset) == Success((placed[..offset], typing))
      {
        var one := CoercedOne(typing, args[offset], params[offset].kind);
        offset := offset + 1;
        if one.Failure? {
          CoercedRefused(old(typing), args, params, offset, |args|);
          return Failure(one.error);
        }
        typing := one.value.1;
        ghost var before := placed[..offset - 1];
        placed := placed[offset - 1 := one.value.0];
        assert placed[..offset] == before + [one.value.0];
      }
      assert placed[..|args|] == placed;
      return Success(placed);
    }

    method Record(e: Edge) returns (r: Result<(), RecordRefusal>)
      requires Ranked(site.program, site.rank) && |params| in {0, site.arity}
      modifies this
      ensures r.Success? ==>
        Recorded(site, old(typing), old(Phis(params, edges)), e) == Success((typing, Phis(params, edges)))
      ensures r.Failure? ==> Recorded(site, old(typing), old(Phis(params, edges)), e) == Failure(r.error)
    {
      if |e.args| != site.arity { return Failure(ArityDiffers); }
      var args := e.args;
      if site.arity > 0 && params == [] {
        var made := Fix(args);
        if made.Failure? { return Failure(made.error); }
        params := made.value;
      } else {
        var placed := Coerce(args);
        if placed.Failure? { return Failure(placed.error); }
        args := placed.value;
      }
      var seen := Find(edges, e.from);
      if seen.Some? {
        return if SameIds(seen.value.args, args) then Success(()) else Failure(TwoValueLists);
      }
      edges := edges + [Edge(e.from, args)];
      return Success(());
    }
  }

  lemma {:induction false} FixedRefused(s: Site, t: Typing, args: seq<Slot>, i: nat, n: nat)
    requires Ranked(s.program, s.rank) && i <= n <= |args| && Fixed(s, t, args, i).Failure?
    ensures Fixed(s, t, args, n) == Fixed(s, t, args, i)
    decreases n
  {
    if i < n { FixedRefused(s, t, args, i, n - 1); }
  }

  lemma {:induction false} CoercedRefused(t: Typing, args: seq<Slot>, params: seq<Slot>, i: nat, n: nat)
    requires i <= n <= |args| == |params| && Coerced(t, args, params, i).Failure?
    ensures Coerced(t, args, params, n) == Coerced(t, args, params, i)
    decreases n
  {
    if i < n { CoercedRefused(t, args, params, i, n - 1); }
  }

  // ---- what the types are ----

  /** The pool's ids have their class's type, and every typed id is taken. */
  ghost predicate Good(t: Typing) {
    && Sound(t.at)
    && (forall key :: key in t.at.pool.ids ==> t.at.pool.ids[key] in t.types)
    && (forall key :: key in t.at.pool.ids ==> t.types[t.at.pool.ids[key]] == TypeIn(key.0))
    && (forall id :: id in t.types ==> id < t.at.next)
  }

  /** An id keeps the type it was defined with. */
  ghost predicate Grown(a: Typing, b: Typing) {
    Good(b) && forall id :: id in a.types ==> id in b.types && b.types[id] == a.types[id]
  }

  ghost predicate Has(t: Typing, id: nat, form: Type) {
    id in t.types && t.types[id] == form
  }

  /** Slots whose ids have the types their kinds say. */
  ghost predicate Told(t: Typing, slots: seq<Slot>) {
    forall i :: 0 <= i < |slots| ==> Has(t, slots[i].id, TypeOf(slots[i].kind))
  }

  lemma ToldLater(a: Typing, b: Typing, slots: seq<Slot>)
    requires Told(a, slots) && Grown(a, b)
    ensures Told(b, slots)
  {
  }

  lemma DefineIsGood(t: Typing, form: Type)
    requires Good(t)
    ensures var (id, after) := Define(t, form); Grown(t, after) && Has(after, id, form)
  {
    var after := Define(t, form).1;
    assert Sound(after.at) by {
      forall key | key in after.at.pool.ids ensures IsDeclared(after.at.pool, key) {
        assert IsDeclared(t.at.pool, key);
      }
    }
  }

  lemma AskIsGood(t: Typing, key: Key)
    requires Good(t)
    ensures var (id, after) := AskTyped(t, key); Grown(t, after) && Has(after, id, TypeIn(key.0))
  {
    AskKeeps(t.at, key);
  }

  /**
  Whatever a later edge passes, what is filed has the parameter's type: what already is of its kind is filed as it is,
  and a constant is filed as the same number in the parameter's class.
   */
  lemma CoercedOneHasTheType(t: Typing, arg: Slot, kind: Kind)
    requires Good(t) && Has(t, arg.id, TypeOf(arg.kind)) && !kind.Pooled? && CoercedOne(t, arg, kind).Success?
    ensures var (slot, after) := CoercedOne(t, arg, kind).value;
      && Grown(t, after) && slot.kind == kind && Has(after, slot.id, TypeOf(kind))
      && (arg.kind == kind ==> slot == arg)
      && (arg.kind.Pooled? && kind.Number? ==>
           (kind.kind, arg.kind.value) in after.at.pool.ids &&
           slot.id == after.at.pool.ids[(kind.kind, arg.kind.value)])
  {
    if arg.kind.Pooled? {
      var key := (if kind.Condition? then IntClass else kind.kind, arg.kind.value);
      AskIsGood(t, key);
      DefineIsGood(AskTyped(t, key).1, BoolType);
    } else {
      DefineIsGood(t, BitsType);
      DefineIsGood(Define(t, BitsType).1, BoolType);
      DefineIsGood(t, TypeOf(kind));
    }
  }

  ghost predicate NonePooled(slots: seq<Slot>) {
    forall i :: 0 <= i < |slots| ==> !slots[i].kind.Pooled?
  }

  /** The kinds a node's parameters have. */
  ghost predicate SameKinds(a: seq<Slot>, b: seq<Slot>) {
    |a| == |b| && forall i :: 0 <= i < |a| ==> a[i].kind == b[i].kind
  }

  lemma {:induction false} CoercedHaveTheTypes(t: Typing, args: seq<Slot>, params: seq<Slot>, n: nat)
    requires Good(t) && Told(t, args) && NonePooled(params) && n <= |args| == |params|
    requires Coerced(t, args, params, n).Success?
    ensures var (placed, after) := Coerced(t, args, params, n).value;
      Grown(t, after) && SameKinds(placed, params[..n]) && Told(after, placed)
  {
    if n > 0 {
      CoercedHaveTheTypes(t, args, params, n - 1);
      var (before, mid) := Coerced(t, args, params, n - 1).value;
      ToldLater(t, mid, args);
      CoercedOneHasTheType(mid, args[n - 1], params[n - 1].kind);
      var (placed, after) := CoercedOne(mid, args[n - 1], params[n - 1].kind).value;
      ToldLater(mid, after, before);
    }
  }

  /** The parameters are what the body says, whatever the first edge passes. */
  ghost predicate MadeFor(s: Site, params: seq<Slot>, args: seq<Slot>)
    requires Ranked(s.program, s.rank)
  {
    && |params| == |args|
    && forall i: nat :: i < |params| ==> KindAt(s, i, args[i].kind) == Success(params[i].kind)
  }

  lemma {:induction false} FixedHaveTheirTypes(s: Site, t: Typing, args: seq<Slot>, n: nat)
    requires Ranked(s.program, s.rank) && Good(t) && n <= |args| && Fixed(s, t, args, n).Success?
    ensures var (params, after) := Fixed(s, t, args, n).value;
      Grown(t, after) && MadeFor(s, params, args[..n]) && Told(after, params)
  {
    if n > 0 {
      FixedHaveTheirTypes(s, t, args, n - 1);
      var (before, mid) := Fixed(s, t, args, n - 1).value;
      var kind := KindAt(s, n - 1, args[n - 1].kind).value;
      DefineIsGood(mid, TypeOf(kind));
      ToldLater(mid, Define(mid, TypeOf(kind)).1, before);
    }
  }

  // ---- what a refusal rests on ----

  /** The class the parameter at `offset` wants: the body's at the first edge, and the parameter's after it. */
  ghost predicate Wants(s: Site, phis: Phis, offset: nat, c: Class)
    requires Ranked(s.program, s.rank)
  {
    if offset < |phis.params| then phis.params[offset].kind == Number(c)
    else
      s.to.OfBody? && offset < |s.to.receives| &&
      ValueClass(s.program, s.rank, s.root, s.to.receives[offset], []) == Success(c)
  }

  /** The value at `offset` is a number of another class than its parameter's. */
  ghost predicate Mixes(s: Site, phis: Phis, e: Edge, offset: nat, seen: Class, wanted: Class)
    requires Ranked(s.program, s.rank)
  {
    offset < |e.args| && e.args[offset].kind == Number(seen) && seen != wanted && Wants(s, phis, offset, wanted)
  }

  ghost predicate Unresolved(s: Site, offset: nat, why: ClassRefusal)
    requires Ranked(s.program, s.rank)
  {
    s.to.OfBody? && offset < |s.to.receives| &&
    ValueClass(s.program, s.rank, s.root, s.to.receives[offset], []) == Failure(why)
  }

  ghost predicate IsTrue(s: Site, phis: Phis, e: Edge, why: RecordRefusal)
    requires Ranked(s.program, s.rank)
  {
    match why
    case ArityDiffers => |e.args| != s.arity
    case MixedClasses(seen, wanted) => exists offset: nat :: Mixes(s, phis, e, offset, seen, wanted)
    case NoClass(refusal) => phis.params == [] && exists offset: nat :: Unresolved(s, offset, refusal)
    case TwoValueLists => exists seen :: seen in phis.edges && seen.from == e.from
  }

  lemma {:induction false} FixedRefusedTruly(s: Site, t: Typing, e: Edge, n: nat)
    requires Ranked(s.program, s.rank) && n <= |e.args| && Fixed(s, t, e.args, n).Failure?
    ensures IsTrue(s, Phis([], []), e, Fixed(s, t, e.args, n).error)
    ensures !Fixed(s, t, e.args, n).error.ArityDiffers? && !Fixed(s, t, e.args, n).error.TwoValueLists?
  {
    if Fixed(s, t, e.args, n - 1).Failure? {
      FixedRefusedTruly(s, t, e, n - 1);
    } else {
      var answer := ValueClass(s.program, s.rank, s.root, s.to.receives[n - 1], []);
      if answer.Failure? {
        assert Unresolved(s, n - 1, answer.error);
      } else {
        assert Mixes(s, Phis([], []), e, n - 1, e.args[n - 1].kind.kind, answer.value);
      }
    }
  }

  lemma {:induction false} CoercedRefusedTruly(s: Site, t: Typing, phis: Phis, e: Edge, n: nat)
    requires Ranked(s.program, s.rank) && n <= |e.args| == |phis.params|
    requires Coerced(t, e.args, phis.params, n).Failure?
    ensures IsTrue(s, phis, e, Coerced(t, e.args, phis.params, n).error)
    ensures Coerced(t, e.args, phis.params, n).error.MixedClasses?
  {
    if Coerced(t, e.args, phis.params, n - 1).Failure? {
      CoercedRefusedTruly(s, t, phis, e, n - 1);
    } else {
      assert Mixes(s, phis, e, n - 1, e.args[n - 1].kind.kind, phis.params[n - 1].kind.kind);
    }
  }

  lemma {:induction false} FoundIsThere(edges: seq<Edge>, from: nat)
    requires Find(edges, from).Some?
    ensures Find(edges, from).value in edges && Find(edges, from).value.from == from
  {
    if edges[0].from != from { FoundIsThere(edges[1..], from); }
  }

  /**
  An edge is refused for its length, for a number of another class, for a class nobody can say, or as a second one.
   */
  lemma RecordRefusalIsTrue(s: Site, t: Typing, phis: Phis, e: Edge)
    requires Ranked(s.program, s.rank) && |phis.params| in {0, s.arity} && Recorded(s, t, phis, e).Failure?
    ensures IsTrue(s, phis, e, Recorded(s, t, phis, e).error)
    ensures Recorded(s, t, phis, e).error.TwoValueLists? ==>
      |e.args| == s.arity && Find(phis.edges, e.from).Some? &&
      (IsFirst(s, phis) || Coerced(t, e.args, phis.params, |phis.params|).Success?) &&
      !SameIds(Find(phis.edges, e.from).value.args, PassedBy(s, t, phis, e))
  {
    if |e.args| == s.arity {
      var first := s.arity > 0 && phis.params == [];
      if first && Fixed(s, t, e.args, s.arity).Failure? {
        FixedRefusedTruly(s, t, e, s.arity);
        SameWants(s, phis, e, Fixed(s, t, e.args, s.arity).error);
      } else if !first && Coerced(t, e.args, phis.params, |phis.params|).Failure? {
        CoercedRefusedTruly(s, t, phis, e, |phis.params|);
      } else {
        FoundIsThere(phis.edges, e.from);
      }
    }
  }

  lemma SameWants(s: Site, phis: Phis, e: Edge, why: RecordRefusal)
    requires Ranked(s.program, s.rank) && phis.params == [] && IsTrue(s, Phis([], []), e, why) && !why.TwoValueLists?
    ensures IsTrue(s, phis, e, why)
  {
    if why.MixedClasses? {
      var offset: nat :| Mixes(s, Phis([], []), e, offset, why.seen, why.wanted);
      assert Mixes(s, phis, e, offset, why.seen, why.wanted);
    }
  }

  lemma {:induction false} FoundAfter(edges: seq<Edge>, e: Edge)
    requires Find(edges, e.from) == None
    ensures Find(edges + [e], e.from) == Some(e)
  {
    if edges != [] {
      assert (edges + [e])[1..] == edges[1..] + [e];
      FoundAfter(edges[1..], e);
    }
  }

  /** The parameters are still to be made. */
  predicate IsFirst(s: Site, phis: Phis) {
    s.arity > 0 && phis.params == []
  }

  /** What an edge passes once recorded: its own values when it is the first, and what they are brought to after. */
  ghost function PassedBy(s: Site, t: Typing, phis: Phis, e: Edge): seq<Slot>
    requires Ranked(s.program, s.rank) && |phis.params| in {0, s.arity} && |e.args| == s.arity
    requires IsFirst(s, phis) || Coerced(t, e.args, phis.params, |phis.params|).Success?
  {
    if IsFirst(s, phis) then e.args else Coerced(t, e.args, phis.params, |phis.params|).value.0
  }

  /** The node has one entry for the edge's block, and it passes the ids the edge does; no other entry is new. */
  lemma RecordedIsFiled(s: Site, t: Typing, phis: Phis, e: Edge)
    requires Ranked(s.program, s.rank) && |phis.params| in {0, s.arity} && Recorded(s, t, phis, e).Success?
    ensures |e.args| == s.arity
    ensures var edges, passed := Recorded(s, t, phis, e).value.1.edges, PassedBy(s, t, phis, e);
      && Find(edges, e.from).Some? && SameIds(Find(edges, e.from).value.args, passed)
      && edges == if Find(phis.edges, e.from).Some? then phis.edges else phis.edges + [Edge(e.from, passed)]
  {
    if Find(phis.edges, e.from).None? { FoundAfter(phis.edges, Edge(e.from, PassedBy(s, t, phis, e))); }
  }

  // ---- all the edges of a node ----

  /** Something that is emitted: an arrival at the node, or anything else, which leaves more ids typed. */
  datatype Event = Arrives(e: Edge) | Elsewhere(after: Typing)

  /** A node with the typing, and the first edge that arrived. */
  datatype State = State(t: Typing, phis: Phis, first: Option<Edge>)

  ghost predicate Fit(s: Site, phis: Phis)
  {
    Ranked(s.program, s.rank) && |phis.params| in {0, s.arity}
  }

  ghost predicate Follows(s: Site, a: State, event: Event, b: State) {
    match event
    case Elsewhere(after) => Grown(a.t, after) && b == a.(t := after)
    case Arrives(e) =>
      && Fit(s, a.phis) && Told(a.t, e.args)
      && Recorded(s, a.t, a.phis, e) == Success((b.t, b.phis))
      && b.first == if a.first.Some? then a.first else Some(e)
  }

  ghost predicate Run(s: Site, states: seq<State>, events: seq<Event>) {
    && |states| == |events| + 1 && Ranked(s.program, s.rank)
    && states[0].phis == Phis([], []) && states[0].first.None? && Good(states[0].t)
    && forall i: nat :: i < |events| ==> Follows(s, states[i], events[i], states[i + 1])
  }

  /** The first edge is filed as it is, and every other has its parameters' types. */
  ghost predicate Typed(s: Site, st: State) {
    && Fit(s, st.phis) && Good(st.t) && Told(st.t, st.phis.params)
    && (st.first.None? <==> st.phis.edges == [])
    && (st.first.None? ==> st.phis.params == [])
    && (st.first.Some? ==> FiledFirst(s, st, st.first.value))
    && forall k: nat :: 0 < k < |st.phis.edges| ==> Conforms(st.t, st.phis.params, st.phis.edges[k].args)
  }

  ghost predicate FiledFirst(s: Site, st: State, e: Edge)
    requires Ranked(s.program, s.rank)
  {
    && st.phis.edges != [] && st.phis.edges[0] == e && |e.args| == s.arity
    && Told(st.t, e.args) && MadeFor(s, st.phis.params, e.args)
  }

  ghost predicate Conforms(t: Typing, params: seq<Slot>, args: seq<Slot>) {
    SameKinds(args, params) && Told(t, args)
  }

  lemma NoneIsPooled(s: Site, params: seq<Slot>, args: seq<Slot>)
    requires Ranked(s.program, s.rank) && MadeFor(s, params, args)
    ensures NonePooled(params)
  {
    forall i: nat | i < |params| ensures !params[i].kind.Pooled? {
      assert KindAt(s, i, args[i].kind) == Success(params[i].kind);
    }
  }

  lemma FirstArrives(s: Site, a: State, e: Edge, b: State)
    requires Typed(s, a) && a.first.None? && Follows(s, a, Arrives(e), b)
    ensures Typed(s, b)
  {
    if s.arity > 0 {
      FixedHaveTheirTypes(s, a.t, e.args, s.arity);
      assert e.args[..s.arity] == e.args;
    } else {
      assert b.phis.edges == [Edge(e.from, [])];
    }
    ToldLater(a.t, b.t, e.args);
  }

  lemma LaterArrives(s: Site, a: State, e: Edge, b: State)
    requires Typed(s, a) && a.first.Some? && Follows(s, a, Arrives(e), b)
    ensures Typed(s, b)
  {
    var params := a.phis.params;
    NoneIsPooled(s, params, a.first.value.args);
    CoercedHaveTheTypes(a.t, e.args, params, |params|);
    assert params[..|params|] == params;
    ToldLater(a.t, b.t, params);
    ToldLater(a.t, b.t, a.first.value.args);
    forall k: nat | 0 < k < |b.phis.edges| ensures Conforms(b.t, params, b.phis.edges[k].args) {
      if k < |a.phis.edges| {
        assert Conforms(a.t, params, a.phis.edges[k].args);
        ToldLater(a.t, b.t, a.phis.edges[k].args);
      }
    }
  }

  lemma ElsewhereKeeps(s: Site, a: State, after: Typing)
    requires Typed(s, a) && Grown(a.t, after)
    ensures Typed(s, a.(t := after))
  {
    ToldLater(a.t, after, a.phis.params);
    if a.first.Some? { ToldLater(a.t, after, a.first.value.args); }
    forall k: nat | 0 < k < |a.phis.edges| ensures Conforms(after, a.phis.params, a.phis.edges[k].args) {
      assert Conforms(a.t, a.phis.params, a.phis.edges[k].args);
      ToldLater(a.t, after, a.phis.edges[k].args);
    }
  }

  lemma {:induction false} RunIsTyped(s: Site, states: seq<State>, events: seq<Event>, i: nat)
    requires Run(s, states, events) && i < |states|
    ensures Typed(s, states[i])
  {
    if i > 0 {
      RunIsTyped(s, states, events, i - 1);
      assert Follows(s, states[i - 1], events[i - 1], states[i]);
      match events[i - 1]
      case Elsewhere(after) => ElsewhereKeeps(s, states[i - 1], after);
      case Arrives(e) =>
        if states[i - 1].first.None? {
          FirstArrives(s, states[i - 1], e, states[i]);
        } else {
          LaterArrives(s, states[i - 1], e, states[i]);
        }
    }
  }

  // ---- when the types agree ----

  /** Every entry of the phi at `offset` has its parameter's type. */
  ghost predicate EntriesAgree(t: Typing, phis: Phis, offset: nat) {
    && offset < |phis.params|
    && forall k: nat :: k < |phis.edges| ==>
      offset < |phis.edges[k].args| && SameType(t, phis.edges[k].args[offset].id, phis.params[offset].id)
  }

  ghost predicate SameType(t: Typing, a: nat, b: nat) {
    a in t.types && b in t.types && t.types[a] == t.types[b]
  }

  /** A value enters a parameter of a class with its type: a number, or a constant of a class of that type. */
  predicate Enters(passed: Kind, c: Class) {
    passed.Number? || (passed.Pooled? && TypeIn(passed.kind) == TypeIn(c))
  }

  /** A block's phi is typed throughout exactly when what the first edge passes enters the parameter's class. */
  lemma BlockEntriesAgreeExactly(s: Site, states: seq<State>, events: seq<Event>, i: nat, offset: nat)
    requires Run(s, states, events) && i < |states| && states[i].first.Some?
    requires s.to.OfBody? && offset < |s.to.receives| && offset < s.arity
    ensures ValueClass(s.program, s.rank, s.root, s.to.receives[offset], []).Success?
    ensures |states[i].first.value.args| == s.arity
    ensures EntriesAgree(states[i].t, states[i].phis, offset) <==>
      Enters(states[i].first.value.args[offset].kind,
        ValueClass(s.program, s.rank, s.root, s.to.receives[offset], []).value)
  {
    RunIsTyped(s, states, events, i);
    OthersAgree(s, states[i], offset);
    var args := states[i].first.value.args;
    assert KindAt(s, offset, args[offset].kind) == Success(states[i].phis.params[offset].kind);
  }

  /** Only the first entry can be of another type. */
  lemma OthersAgree(s: Site, st: State, offset: nat)
    requires Typed(s, st) && st.first.Some? && offset < s.arity
    ensures |st.first.value.args| == |st.phis.params| == s.arity
    ensures EntriesAgree(st.t, st.phis, offset) <==>
      TypeOf(st.first.value.args[offset].kind) == TypeOf(st.phis.params[offset].kind)
  {
    var t, phis := st.t, st.phis;
    assert Has(t, phis.params[offset].id, TypeOf(phis.params[offset].kind));
    assert phis.edges[0] == st.first.value;
    assert Has(t, phis.edges[0].args[offset].id, TypeOf(phis.edges[0].args[offset].kind));
    forall k: nat | 0 < k < |phis.edges|
      ensures offset < |phis.edges[k].args| && SameType(t, phis.edges[k].args[offset].id, phis.params[offset].id)
    {
      assert Conforms(t, phis.params, phis.edges[k].args);
    }
  }

  /** An added block's phi is typed throughout unless a constant of another type than the module's comes first. */
  lemma AddedEntriesAgreeExactly(s: Site, states: seq<State>, events: seq<Event>, i: nat, offset: nat)
    requires Run(s, states, events) && i < |states| && states[i].first.Some?
    requires s.to.Added? && offset < s.arity
    ensures |states[i].first.value.args| == s.arity
    ensures EntriesAgree(states[i].t, states[i].phis, offset) <==>
      states[i].first.value.args[offset].kind.Condition? || Enters(states[i].first.value.args[offset].kind, s.root)
  {
    RunIsTyped(s, states, events, i);
    OthersAgree(s, states[i], offset);
    var args := states[i].first.value.args;
    assert KindAt(s, offset, args[offset].kind) == Success(states[i].phis.params[offset].kind);
  }

  /** A constant enters any parameter that nothing in its block reads. */
  lemma ConstantEntersUnread(p: Program, rank: seq<nat>, root: Class, v: nat, i: nat, args: seq<nat>, declared: Class,
      value: int)
    requires Ranked(p, rank) && v in Parameters(p) && p.defs[v].block < |p.body.blocks| && Unread(p, v)
    requires ValueClass(p, rank, root, v, []).Success?
    requires i < |p.body.blocks| && Hands(p.body.blocks[i].terminator, p.defs[v].block, args) &&
      p.defs[v].index < |args|
    requires States(p, args[p.defs[v].index], declared)
    ensures Enters(Pooled(declared, value), ValueClass(p, rank, root, v, []).value)
  {
    ClassMatchesEveryEdge(p, rank, root, v, i, args);
  }

  // ---- a comparison handed on ----

  /** One block compares two integers and hands the answer to the next, which returns it. */
  function Compared(): Program {
    Program(
      Body([Kernel.Block([0, 1], [2], Br(Branch(1, [2]))), Kernel.Block([3], [], Return([3]))], map[2 := [0, 1]], 0,
        Bare()),
      [Parameter(0, 0), Parameter(0, 1),
       Instruction(Plain(Some(IntClass), [Some(IntClass), Some(IntClass)]), [0, 1]), Parameter(1, 0)])
  }

  /** The parameter is computed as an integer: so its one edge's comparison says. */
  lemma ComparedIsAnInteger()
    ensures Ranked(Compared(), [0, 0, 0, 0]) &&
      ValueClass(Compared(), [0, 0, 0, 0], IntClass, 3, []) == Success(IntClass)
  {
    var p, rank := Compared(), [0, 0, 0, 0];
    ItsOneEdge();
    OneMoreVisited(p, [], 3);
    assert ReadClass(p, rank, IntClass, 1, 3, []) == Success(None);
    ItsEdgeIsAnInteger(p, rank, [3]);
    assert [] + [3] == [3];
  }

  lemma ItsOneEdge()
    ensures IncomingEdges(Compared(), 1) == [[2]] && Ranked(Compared(), [0, 0, 0, 0])
  {
    var blocks := Compared().body.blocks;
    assert IncomingUpTo(blocks, 1, 0) == [];
    assert IncomingUpTo(blocks, 1, 1) == [[2]];
  }

  lemma ItsEdgeIsAnInteger(p: Program, rank: seq<nat>, visiting: seq<nat>)
    requires p == Compared() && Ranked(p, rank)
    ensures EdgeClass(p, rank, IntClass, [[2]], 1, 0, 3, visiting) == Success(Some(IntClass))
  {
    assert ValueClass(p, rank, IntClass, 2, visiting) == Success(IntClass);
    assert EdgeClass(p, rank, IntClass, [[2]], 0, 0, 3, visiting) == Success(None);
  }

  /** The edge is recorded, and the integer phi's only entry is a truth value. */
  lemma ComparisonEntersAnIntegerPhi(t: Typing, truth: nat, from: nat)
    requires Good(t) && Has(t, truth, BoolType)
    ensures Ranked(Compared(), [0, 0, 0, 0])
    ensures var s := Site(Compared(), [0, 0, 0, 0], IntClass, OfBody([3]), 1);
      var r := Recorded(s, t, Phis([], []), Edge(from, [Slot(truth, Condition)]));
      && r.Success? && r.value.1.edges == [Edge(from, [Slot(truth, Condition)])]
      && |r.value.1.params| == 1 && Has(r.value.0, r.value.1.params[0].id, IntType) && Has(r.value.0, truth, BoolType)
      && !EntriesAgree(r.value.0, r.value.1, 0)
  {
    ComparedIsAnInteger();
    var s := Site(Compared(), [0, 0, 0, 0], IntClass, OfBody([3]), 1);
    var e := Edge(from, [Slot(truth, Condition)]);
    assert Fixed(s, t, e.args, 0) == Success(([], t));
    assert KindAt(s, 0, Condition) == Success(Number(IntClass));
    assert Fixed(s, t, e.args, 1).Success?;
    FixedHaveTheirTypes(s, t, e.args, 1);
    var r := Recorded(s, t, Phis([], []), e).value;
    assert !SameType(r.0, r.1.edges[0].args[0].id, r.1.params[0].id);
  }
}
